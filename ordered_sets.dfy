/**
 * JavaScript's `Set` of strings as the application uses it: insertion
 * ordered, so `Array.from(set)` lists each element once, in the order of
 * its first `add`.
 */
module OrderedSets {

  /** No element occurs twice. */
  predicate NoDuplicates(xs: seq<string>) {
    forall i, j :: 0 <= i < j < |xs| ==> xs[i] != xs[j]
  }

  /** `set.add(x)`: appended unless already present. */
  function Add(xs: seq<string>, x: string): seq<string> {
    if x in xs then xs else xs + [x]
  }

  /** `ys.forEach(y => set.add(y))`. */
  function AddAll(xs: seq<string>, ys: seq<string>): seq<string>
    decreases |ys|
  {
    if |ys| == 0 then xs else AddAll(Add(xs, ys[0]), ys[1..])
  }

  /**
   * Adding keeps what was there, in place and without duplicating it, and
   * the result holds exactly the old elements and the added ones.
   */
  lemma {:induction false} AddAllSpec(xs: seq<string>, ys: seq<string>)
    ensures NoDuplicates(xs) ==> NoDuplicates(AddAll(xs, ys))
    ensures forall y :: y in AddAll(xs, ys) <==> y in xs || y in ys
    ensures |xs| <= |AddAll(xs, ys)| && AddAll(xs, ys)[..|xs|] == xs
    decreases |ys|
  {
    if |ys| > 0 {
      var next := Add(xs, ys[0]);
      AddAllSpec(next, ys[1..]);
      assert forall y :: y in ys <==> y == ys[0] || y in ys[1..];
      assert next[..|xs|] == xs;
      assert AddAll(xs, ys)[..|xs|] == AddAll(xs, ys)[..|next|][..|xs|];
    }
  }

  /** Adding what is already there changes nothing. */
  lemma {:induction false} AddAllPresent(xs: seq<string>, ys: seq<string>)
    requires forall y :: y in ys ==> y in xs
    ensures AddAll(xs, ys) == xs
    decreases |ys|
  {
    if |ys| > 0 {
      assert ys[0] in ys;
      assert forall y :: y in ys[1..] ==> y in ys;
      AddAllPresent(xs, ys[1..]);
    }
  }

  /** Adding two lists in turn is adding their concatenation. */
  lemma {:induction false} AddAllAppend(xs: seq<string>, a: seq<string>, b: seq<string>)
    ensures AddAll(xs, a + b) == AddAll(AddAll(xs, a), b)
    decreases |a|
  {
    if |a| > 0 {
      assert (a + b)[0] == a[0];
      assert (a + b)[1..] == a[1..] + b;
      AddAllAppend(Add(xs, a[0]), a[1..], b);
    } else {
      assert a + b == b;
    }
  }

  /** Adding distinct new elements appends them all, in order. */
  lemma {:induction false} AddAllFresh(xs: seq<string>, ys: seq<string>)
    requires NoDuplicates(ys) && forall y :: y in ys ==> y !in xs
    ensures AddAll(xs, ys) == xs + ys
    decreases |ys|
  {
    if |ys| > 0 {
      assert ys[0] in ys;
      var next := xs + [ys[0]];
      assert Add(xs, ys[0]) == next;
      forall y | y in ys[1..]
        ensures y !in next
      {
        var k :| 0 <= k < |ys[1..]| && ys[1..][k] == y;
        assert ys[k + 1] == y;
      }
      AddAllFresh(next, ys[1..]);
      assert next + ys[1..] == xs + ys;
    }
  }
}
