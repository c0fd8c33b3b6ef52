/** Shared vocabulary of the model: real vectors and batches, the Python
    exceptions the modelled code raises, sums, and torch's `split`/`cat` on
    one axis, with the lemmas that relate them. */
module Common {

  /** One sample's event, flattened to a vector of reals. */
  type Vec = seq<real>

  /** A batch: one row per sample, the batch axis first. */
  type Batch = seq<Vec>

  /** The Python exceptions raised by the modelled code. */
  datatype Error =
    | AssertionError
    | IndexError
    | AttributeError
    | ValueError
    | RuntimeError
    | ZeroDivisionError

  datatype Result<+T> = Ok(value: T) | Err(error: Error)

  datatype Option<+T> = None | Some(value: T)

  /** Sum of a vector of reals (`torch.sum` over one axis). */
  function Sum(v: seq<real>): real
  {
    if |v| == 0 then 0.0 else v[0] + Sum(v[1..])
  }

  /** Sum of a list of sizes (Python `sum` over ints). */
  function SumNat(v: seq<nat>): nat
  {
    if |v| == 0 then 0 else v[0] + SumNat(v[1..])
  }

  /** Concatenation of consecutive pieces (`torch.cat` along one axis). */
  function Flatten<T>(parts: seq<seq<T>>): seq<T>
  {
    if |parts| == 0 then [] else parts[0] + Flatten(parts[1..])
  }

  /** The widths of a list of pieces. */
  function Widths<T>(parts: seq<seq<T>>): (w: seq<nat>)
    ensures |w| == |parts|
    ensures forall i :: 0 <= i < |w| ==> w[i] == |parts[i]|
  {
    seq(|parts|, i requires 0 <= i < |parts| => |parts[i]|)
  }

  /** torch's `split` with a list of sizes: consecutive pieces of the given
      widths, which together are the whole input. */
  function Split<T>(x: seq<T>, widths: seq<nat>): (r: seq<seq<T>>)
    requires SumNat(widths) == |x|
    ensures |r| == |widths|
    ensures forall i :: 0 <= i < |r| ==> |r[i]| == widths[i]
    ensures Flatten(r) == x
  {
    if |widths| == 0 then []
    else
      var rest := Split(x[widths[0]..], widths[1..]);
      assert Flatten([x[..widths[0]]] + rest) == x[..widths[0]] + Flatten(rest);
      [x[..widths[0]]] + rest
  }

  lemma {:induction false} SumAppend(a: seq<real>, b: seq<real>)
    ensures Sum(a + b) == Sum(a) + Sum(b)
  {
    if |a| == 0 {
      assert a + b == b;
    } else {
      assert (a + b)[1..] == a[1..] + b;
      SumAppend(a[1..], b);
    }
  }

  lemma {:induction false} SumNatAppend(a: seq<nat>, b: seq<nat>)
    ensures SumNat(a + b) == SumNat(a) + SumNat(b)
  {
    if |a| == 0 {
      assert a + b == b;
    } else {
      assert (a + b)[1..] == a[1..] + b;
      SumNatAppend(a[1..], b);
    }
  }

  /** The length of a concatenation is the sum of the widths. */
  lemma {:induction false} FlattenLength<T>(parts: seq<seq<T>>)
    ensures |Flatten(parts)| == SumNat(Widths(parts))
  {
    if |parts| > 0 {
      FlattenLength(parts[1..]);
      assert Widths(parts)[1..] == Widths(parts[1..]);
    }
  }

  /** Splitting a concatenation by its own widths gives the pieces back:
      `split` undoes `cat`. */
  lemma {:induction false} SplitFlatten<T>(parts: seq<seq<T>>)
    ensures SumNat(Widths(parts)) == |Flatten(parts)|
    ensures Split(Flatten(parts), Widths(parts)) == parts
  {
    FlattenLength(parts);
    if |parts| > 0 {
      var w := Widths(parts);
      assert w[1..] == Widths(parts[1..]);
      var flat := Flatten(parts);
      assert flat[..w[0]] == parts[0];
      assert flat[w[0]..] == Flatten(parts[1..]);
      SplitFlatten(parts[1..]);
    }
  }

  /** Summing a concatenation sums the pieces' sums. */
  lemma {:induction false} SumFlatten(parts: seq<seq<real>>)
    ensures Sum(Flatten(parts)) == Sum(seq(|parts|, i requires 0 <= i < |parts| => Sum(parts[i])))
  {
    var sums := seq(|parts|, i requires 0 <= i < |parts| => Sum(parts[i]));
    if |parts| > 0 {
      SumAppend(parts[0], Flatten(parts[1..]));
      SumFlatten(parts[1..]);
      assert sums[1..] == seq(|parts[1..]|, i requires 0 <= i < |parts[1..]| => Sum(parts[1..][i]));
    }
  }

  /** Indexing a concatenation of equal-width pieces: element `j` of
      piece `b` is element `b * width + j` of the whole. */
  lemma {:induction false} FlattenAt<T>(parts: seq<seq<T>>, width: nat, b: nat, j: nat)
    requires forall k :: 0 <= k < |parts| ==> |parts[k]| == width
    requires b < |parts| && j < width
    ensures b * width + j < |Flatten(parts)| && Flatten(parts)[b * width + j] == parts[b][j]
  {
    FlattenUniformLength(parts, width);
    if b > 0 {
      var tail := parts[1..];
      var k := (b - 1) * width + j;
      MulStep(b, width);
      FlattenAt(tail, width, b - 1, j);
      assert Flatten(parts) == parts[0] + Flatten(tail);
      assert Flatten(parts)[width + k] == Flatten(tail)[k];
    } else {
      assert Flatten(parts) == parts[0] + Flatten(parts[1..]);
    }
  }

  lemma MulStep(b: nat, width: nat)
    requires b > 0
    ensures b * width == (b - 1) * width + width
  {
  }

  lemma {:induction false} FlattenUniformLength<T>(parts: seq<seq<T>>, width: nat)
    requires forall k :: 0 <= k < |parts| ==> |parts[k]| == width
    ensures |Flatten(parts)| == |parts| * width
  {
    if |parts| > 0 {
      FlattenUniformLength(parts[1..], width);
    }
  }

  /** Appending one more piece appends it to the concatenation. */
  lemma {:induction false} FlattenSnoc<T>(parts: seq<seq<T>>, last: seq<T>)
    ensures Flatten(parts + [last]) == Flatten(parts) + last
  {
    if |parts| == 0 {
      assert parts + [last] == [last];
      assert Flatten([last]) == last + Flatten([]);
    } else {
      assert (parts + [last])[1..] == parts[1..] + [last];
      FlattenSnoc(parts[1..], last);
    }
  }
}
