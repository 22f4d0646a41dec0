/** Sequences that go once around a circular list: its sentinel, its nodes in order, and the sentinel again. */
module Rings {

  /** `longer` is `s` with `x` put in at position `i`. */
  ghost predicate Inserted<T>(s: seq<T>, longer: seq<T>, x: T, i: int) {
    && 0 <= i <= |s| && |longer| == |s| + 1 && longer[i] == x
    && (forall j :: 0 <= j < i ==> longer[j] == s[j])
    && (forall j :: i < j < |longer| ==> longer[j] == s[j - 1])
  }

  /** All positions but the last differ, and the last one is the first again. */
  ghost predicate Once<T>(ring: seq<T>) {
    && |ring| >= 2 && ring[0] == ring[|ring| - 1]
    && (forall a, b :: 0 <= a < b < |ring| - 1 ==> ring[a] != ring[b])
  }

  lemma InsertedOnce<T>(ring: seq<T>, longer: seq<T>, x: T, i: int)
    requires Once(ring) && x !in ring && 0 < i < |ring| && Inserted(ring, longer, x, i)
    ensures Once(longer)
  {}

  lemma RemovedOnce<T>(ring: seq<T>, shorter: seq<T>, x: T, i: int)
    requires Once(ring) && 0 < i < |ring| - 1 && Inserted(shorter, ring, x, i)
    ensures Once(shorter) && x !in shorter
  {
    forall a, b | 0 <= a < b < |shorter| - 1 ensures shorter[a] != shorter[b] {
      assert shorter[a] == ring[if a < i then a else a + 1];
      assert shorter[b] == ring[if b < i then b else b + 1];
    }
    forall a | 0 <= a < |shorter| ensures shorter[a] != x {
      assert shorter[a] == ring[if a < i then a else a + 1];
    }
  }
}
