/** First occurrences: of every kind in a list, the position at which it first shows up. */
module Grouping {

  predicate FirstOfKind<K(==)>(kinds: seq<K>, i: nat)
    requires i < |kinds|
  {
    forall j | 0 <= j < i :: kinds[j] != kinds[i]
  }

  /** `firsts` lists, in order, exactly the first positions of the kinds among the first n. */
  ghost predicate Firsts<K>(kinds: seq<K>, n: nat, firsts: seq<nat>)
    requires n <= |kinds|
  {
    && (forall a, b | 0 <= a < b < |firsts| :: firsts[a] < firsts[b])
    && (forall a | 0 <= a < |firsts| :: firsts[a] < n && FirstOfKind(kinds, firsts[a]))
    && forall j: nat | j < n && FirstOfKind(kinds, j) :: j in firsts
  }

  lemma FirstsExtended<K>(kinds: seq<K>, n: nat, firsts: seq<nat>)
    requires n < |kinds| && Firsts(kinds, n, firsts)
    ensures Firsts(kinds, n + 1, if FirstOfKind(kinds, n) then firsts + [n] else firsts)
  {
  }

  lemma {:induction false} FirstExists<K>(kinds: seq<K>, i: nat) returns (first: nat)
    requires i < |kinds|
    ensures first <= i && FirstOfKind(kinds, first) && kinds[first] == kinds[i]
  {
    if FirstOfKind(kinds, i) {
      first := i;
    } else {
      var j: nat :| j < i && kinds[j] == kinds[i];
      first := FirstExists(kinds, j);
    }
  }

  /** Every kind is met. */
  lemma KindIsMet<K>(kinds: seq<K>, firsts: seq<nat>, i: nat) returns (a: nat)
    requires Firsts(kinds, |kinds|, firsts) && i < |kinds|
    ensures a < |firsts| && firsts[a] < |kinds| && kinds[firsts[a]] == kinds[i]
  {
    var first := FirstExists(kinds, i);
    a :| a < |firsts| && firsts[a] == first;
  }

  /** And met once. */
  lemma MetOnce<K>(kinds: seq<K>, firsts: seq<nat>, a: nat, b: nat)
    requires Firsts(kinds, |kinds|, firsts) && a < b < |firsts|
    ensures firsts[a] < |kinds| && firsts[b] < |kinds| && kinds[firsts[a]] != kinds[firsts[b]]
  {
    assert firsts[a] < firsts[b] && FirstOfKind(kinds, firsts[b]);
  }
}
