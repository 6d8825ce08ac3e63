/**
 * The generic `diff` of tmd.py: which freshly fetched items were not in the
 * previously stored list. Items are compared by value only.
 */
module DiffEngine {

  /**
   * The items of `incoming`, in their order, whose value does not occur in
   * `seen`. Only `seen` filters: an item repeated in `incoming` is kept every time.
   */
  function Diff<T(==)>(seen: seq<T>, incoming: seq<T>): (r: seq<T>)
    ensures |r| <= |incoming|
    ensures forall k :: 0 <= k < |r| ==> r[k] in incoming && r[k] !in seen
    ensures forall k :: 0 <= k < |incoming| && incoming[k] !in seen ==> incoming[k] in r
    decreases |incoming|
  {
    if incoming == [] then []
    else
      assert incoming == [incoming[0]] + incoming[1..];
      (if incoming[0] in seen then [] else [incoming[0]]) + Diff(seen, incoming[1..])
  }

  /** Every position moved one step to the right. */
  ghost function Shift(ps: seq<nat>): seq<nat> {
    seq(|ps|, k requires 0 <= k < |ps| => ps[k] + 1)
  }

  /** The positions of `incoming` whose value is not in `seen`, in ascending order. */
  ghost function KeptPositions<T>(seen: seq<T>, incoming: seq<T>): seq<nat>
    decreases |incoming|
  {
    if incoming == [] then []
    else (if incoming[0] in seen then [] else [0]) + Shift(KeptPositions(seen, incoming[1..]))
  }

  /** `r` is `s` read at the strictly ascending positions `ps`. */
  ghost predicate SubsequenceAt<T>(r: seq<T>, s: seq<T>, ps: seq<nat>) {
    && |ps| == |r|
    && (forall k :: 0 <= k < |ps| ==> ps[k] < |s| && r[k] == s[ps[k]])
    && (forall k, l :: 0 <= k < l < |ps| ==> ps[k] < ps[l])
  }

  /** Reading the tail of `s` at `ps` is reading `s` at the shifted positions. */
  lemma ShiftedSubsequence<T>(r: seq<T>, s: seq<T>, ps: seq<nat>)
    requires s != [] && SubsequenceAt(r, s[1..], ps)
    ensures SubsequenceAt(r, s, Shift(ps))
    ensures forall k :: 0 <= k < |ps| ==> Shift(ps)[k] >= 1
  {
    var qs := Shift(ps);
    forall k | 0 <= k < |qs| ensures qs[k] < |s| && r[k] == s[qs[k]] {
      assert s[1..][ps[k]] == s[ps[k] + 1];
    }
  }

  /** Putting the head of `s` in front of a subsequence that avoids position 0. */
  lemma ConsSubsequence<T>(r: seq<T>, s: seq<T>, qs: seq<nat>)
    requires s != [] && SubsequenceAt(r, s, qs)
    requires forall k :: 0 <= k < |qs| ==> qs[k] >= 1
    ensures SubsequenceAt([s[0]] + r, s, [0] + qs)
  {
  }

  /** The kept positions are exactly those whose value is not in `seen`. */
  lemma {:induction false} KeptPositionsExact<T>(seen: seq<T>, incoming: seq<T>)
    ensures forall i: int :: i in KeptPositions(seen, incoming) <==> 0 <= i < |incoming| && incoming[i] !in seen
    decreases |incoming|
  {
    if incoming != [] {
      var tail := incoming[1..];
      KeptPositionsExact(seen, tail);
      var ps := KeptPositions(seen, tail);
      var qs := Shift(ps);
      forall i: int | i in qs ensures 1 <= i < |incoming| && incoming[i] !in seen {
        var k :| 0 <= k < |qs| && qs[k] == i;
        assert ps[k] in ps;
        assert tail[i - 1] == incoming[i];
      }
      forall i: int | 1 <= i < |incoming| && incoming[i] !in seen ensures i in qs {
        assert tail[i - 1] == incoming[i];
        var k :| 0 <= k < |ps| && ps[k] == i - 1;
        assert qs[k] == i;
      }
    }
  }

  /**
   * `Diff(seen, incoming)` is `incoming` read at exactly the positions whose value
   * is not in `seen`, in ascending order: it is an order-preserving
   * subsequence of `incoming`, and its length is the number of such positions.
   */
  lemma {:induction false} DiffIsOrderedSubsequence<T>(seen: seq<T>, incoming: seq<T>)
    ensures SubsequenceAt(Diff(seen, incoming), incoming, KeptPositions(seen, incoming))
    ensures forall i: int :: i in KeptPositions(seen, incoming) <==> 0 <= i < |incoming| && incoming[i] !in seen
    decreases |incoming|
  {
    KeptPositionsExact(seen, incoming);
    if incoming != [] {
      var tail := incoming[1..];
      DiffIsOrderedSubsequence(seen, tail);
      var ps := KeptPositions(seen, tail);
      var rt := Diff(seen, tail);
      ShiftedSubsequence(rt, incoming, ps);
      if incoming[0] !in seen {
        ConsSubsequence(rt, incoming, Shift(ps));
      }
    }
  }

  /**
   * Duplicates are not collapsed: a value absent from `seen` occurs in the
   * result exactly as often as in `incoming`, a value present in `seen` never.
   */
  lemma {:induction false} DiffKeepsMultiplicity<T>(seen: seq<T>, incoming: seq<T>)
    ensures forall x :: multiset(Diff(seen, incoming))[x] == if x in seen then 0 else multiset(incoming)[x]
    decreases |incoming|
  {
    if incoming != [] {
      DiffKeepsMultiplicity(seen, incoming[1..]);
      assert incoming == [incoming[0]] + incoming[1..];
    }
  }

  /** The result is empty exactly when every fetched item was already seen. */
  lemma DiffEmptyIff<T>(seen: seq<T>, incoming: seq<T>)
    ensures Diff(seen, incoming) == [] <==> forall x :: x in incoming ==> x in seen
  {
    var r := Diff(seen, incoming);
    if r != [] {
      assert r[0] in r;
    }
  }

  /** The result is all of `incoming` exactly when no fetched item was seen before. */
  lemma {:induction false} DiffWholeIff<T>(seen: seq<T>, incoming: seq<T>)
    ensures Diff(seen, incoming) == incoming <==> forall x :: x in incoming ==> x !in seen
    decreases |incoming|
  {
    if incoming != [] && forall x :: x in incoming ==> x !in seen {
      assert incoming[0] in incoming;
      forall x | x in incoming[1..] ensures x !in seen {
        assert x in incoming;
      }
      DiffWholeIff(seen, incoming[1..]);
      assert incoming == [incoming[0]] + incoming[1..];
    }
  }

  /** Diffing a list against itself finds nothing new. */
  lemma DiffSelfIsEmpty<T>(xs: seq<T>)
    ensures Diff(xs, xs) == []
  {
    DiffEmptyIff(xs, xs);
  }

  /** Against an empty history every fetched item is new. */
  lemma DiffAgainstNothing<T>(incoming: seq<T>)
    ensures Diff([], incoming) == incoming
  {
    DiffWholeIff([], incoming);
  }

  /** Diffing the result again against the same history changes nothing. */
  lemma DiffIdempotent<T>(seen: seq<T>, incoming: seq<T>)
    ensures Diff(seen, Diff(seen, incoming)) == Diff(seen, incoming)
  {
    DiffWholeIff(seen, Diff(seen, incoming));
  }
}
