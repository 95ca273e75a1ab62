/** Option and Result, the two failure-carrying wrappers the model uses in place
    of C++ null pointers, std::optional and thrown exceptions. */
module Wrappers {

  datatype Option<+T> = None | Some(value: T) {
    function GetOr(default: T): T {
      match this
      case Some(v) => v
      case None => default
    }
  }

  datatype Result<+T, +E> = Ok(value: T) | Err(error: E) {
    predicate IsFailure() {
      Err?
    }

    function PropagateFailure<U>(): Result<U, E>
      requires Err?
    {
      Err(error)
    }

    function Extract(): T
      requires Ok?
    {
      value
    }
  }
}

/** Sequence facts the solver does not apply on its own inside large proofs. */
module SeqFacts {
  lemma AppendAssoc<T>(a: seq<T>, b: seq<T>, c: seq<T>)
    ensures a + (b + c) == (a + b) + c
  {
  }

  lemma AppendEmpty<T>(a: seq<T>)
    ensures [] + a == a && a + [] == a
  {
  }

  lemma AppendHead<T>(acc: seq<T>, ss: seq<T>)
    requires ss != []
    ensures acc + [ss[0]] + ss[1..] == acc + ss
  {
    assert [ss[0]] + ss[1..] == ss;
    AppendAssoc(acc, [ss[0]], ss[1..]);
  }

  /** `ts` holds `piece` from index `i` on. */
  ghost predicate HoldsAt<T>(ts: seq<T>, i: nat, piece: seq<T>)
    decreases |piece|
  {
    if |piece| == 0 then i <= |ts|
    else i < |ts| && ts[i] == piece[0] && HoldsAt(ts, i + 1, piece[1..])
  }

  /** A piece held at `i` fits in `ts` and gives each of its elements. */
  lemma {:induction false} HoldsAtElems<T>(ts: seq<T>, i: nat, piece: seq<T>)
    requires HoldsAt(ts, i, piece)
    ensures i + |piece| <= |ts|
    ensures forall k :: 0 <= k < |piece| ==> ts[i + k] == piece[k]
    decreases |piece|
  {
    if |piece| > 0 {
      HoldsAtElems(ts, i + 1, piece[1..]);
      assert forall k :: 1 <= k < |piece| ==> piece[k] == piece[1..][k - 1];
    }
  }

  /** A piece held at `i` fits in `ts`. */
  lemma {:induction false} HoldsAtFits<T>(ts: seq<T>, i: nat, piece: seq<T>)
    requires HoldsAt(ts, i, piece)
    ensures i + |piece| <= |ts|
    decreases |piece|
  {
    if |piece| > 0 {
      HoldsAtFits(ts, i + 1, piece[1..]);
    }
  }

  /** A piece held at `i` splits into its two halves. */
  lemma {:induction false} HoldsAtSplit<T>(ts: seq<T>, i: nat, a: seq<T>, b: seq<T>)
    requires HoldsAt(ts, i, a + b)
    ensures HoldsAt(ts, i, a) && HoldsAt(ts, i + |a|, b) && i + |a| + |b| <= |ts|
    decreases |a|
  {
    if |a| == 0 {
      assert a + b == b;
      HoldsAtFits(ts, i, b);
    } else {
      assert (a + b)[0] == a[0] && (a + b)[1..] == a[1..] + b;
      HoldsAtSplit(ts, i + 1, a[1..], b);
    }
  }

  /** Every piece of a concatenation is held where it sits. */
  lemma {:induction false} HoldsAtWhole<T>(p: seq<T>, a: seq<T>, q: seq<T>)
    ensures HoldsAt(p + a + q, |p|, a)
    decreases |a|
  {
    if |a| > 0 {
      HoldsAtWhole(p + [a[0]], a[1..], q);
      assert p + [a[0]] + a[1..] + q == p + a + q;
    }
  }
}
