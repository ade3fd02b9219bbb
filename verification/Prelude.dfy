/** The few definitions every part of the project shares. */
module Prelude {

  datatype Option<+T> = None | Some(value: T)

  function Min(a: nat, b: nat): nat {
    if a < b then a else b
  }

  ghost predicate Distinct<T(!new)>(s: seq<T>) {
    forall i, j :: 0 <= i < j < |s| ==> s[i] != s[j]
  }

  /** Those of the items that came from i, in their order; `who` says where each came from. */
  function From<T>(items: seq<T>, who: seq<nat>, i: nat): seq<T>
    requires |items| == |who|
    decreases |items|
  {
    if items == [] then [] else (if who[0] == i then [items[0]] else []) + From(items[1..], who[1..], i)
  }

  lemma {:induction false} FromStep<T>(items: seq<T>, who: seq<nat>, i: nat)
    requires |items| == |who| && items != []
    ensures From(items, who, i) == (if who[0] == i then [items[0]] else []) + From(items[1..], who[1..], i)
  {
  }

  lemma {:induction false} FromJoin<T>(a: seq<T>, who: seq<nat>, b: seq<T>, more: seq<nat>, i: nat)
    requires |a| == |who| && |b| == |more|
    ensures From(a + b, who + more, i) == From(a, who, i) + From(b, more, i)
    decreases |a|
  {
    if a == [] {
      assert a + b == b && who + more == more;
    } else {
      assert (a + b)[1..] == a[1..] + b && (who + more)[1..] == who[1..] + more;
      assert (a + b)[0] == a[0] && (who + more)[0] == who[0];
      FromJoin(a[1..], who[1..], b, more, i);
      FromStep(a + b, who + more, i);
      FromStep(a, who, i);
      hide From;
    }
  }

  /** Two steps, each of which hands on what it was given and asked for, make one. */
  lemma {:induction false} HandedOn<T>(one: seq<T>, more: seq<T>, last: seq<T>, mid: seq<T>, later: seq<T>,
                                       first: seq<T>, now: seq<T>)
    requires one + mid == first + now && more + last == mid + later
    ensures one + more + last == first + (now + later)
  {
    assert one + more + last == one + (more + last) == (one + mid) + later == first + (now + later);
  }
}
