/**
 The component store: a list of components and the derived list of URNs that
 occur more than once. Every mutation rebuilds that list the same way: take
 the URNs, keep each one found at an index other than its first occurrence,
 and drop repeats through a Set (which keeps first-insertion order).
 */
module ComponentStore {
  import opened Records

  /** A catalogued component; only `id` and `urn` take part in the store's logic. */
  datatype Component = Component(id: string, urn: string, name: string)

  function ComponentKey(c: Component): string { c.id }

  function ComponentUrn(c: Component): string { c.urn }

  /** `s.indexOf(x)`: the index of the first occurrence of x in s, or -1 if there is none. */
  function IndexOf(s: seq<string>, x: string): (r: int)
    ensures -1 <= r < |s|
    ensures r == -1 <==> x !in s
    ensures r >= 0 ==> s[r] == x && x !in s[..r]
  {
    if s == [] then -1
    else if s[0] == x then 0
    else
      var j := IndexOf(s[1..], x);
      assert j >= 0 ==> s[..j + 1] == [s[0]] + s[1..][..j];
      if j == -1 then -1 else j + 1
  }

  /** indexOf finds the entry at position n - 1 somewhere else exactly when it already occurs before it. */
  lemma SeenBefore(urns: seq<string>, n: nat)
    requires 0 < n <= |urns|
    ensures IndexOf(urns, urns[n - 1]) != n - 1 <==> urns[n - 1] in urns[..n - 1]
  {
    var x, i := urns[n - 1], IndexOf(urns, urns[n - 1]);
    assert x in urns;
    assert i <= n - 1;
    if i < n - 1 {
      assert urns[..n - 1][i] == x;
    }
  }

  /**
   The first n entries of `urns.filter((urn, index) => urns.indexOf(urn) !== index)`:
   each URN at a position i < n where it has already occurred before i. A URN
   is kept exactly when it occurs at least twice among the first n entries.
   */
  function LaterOccurrences(urns: seq<string>, n: nat): (r: seq<string>)
    requires n <= |urns|
    ensures forall u :: u in r <==> multiset(urns[..n])[u] >= 2
    decreases n
  {
    if n == 0 then []
    else
      var x, before := urns[n - 1], urns[..n - 1];
      var r := LaterOccurrences(urns, n - 1);
      assert urns[..n] == before + [x];
      SeenBefore(urns, n);
      r + (if IndexOf(urns, x) != n - 1 then [x] else [])
  }

  /**
   `[...new Set(s)]`: the distinct values of s in the order of their first
   occurrence. Nothing is lost, nothing repeats.
   */
  function Dedup(s: seq<string>): (r: seq<string>)
    ensures forall u :: u in r <==> u in s
    ensures NoDuplicates(r)
  {
    if s == [] then []
    else
      var last := s[|s| - 1];
      var d := Dedup(s[..|s| - 1]);
      assert s == s[..|s| - 1] + [last];
      if last in d then d
      else
        assert NoDuplicates(d + [last]) by {
          forall i, j | 0 <= i < j < |d| + 1 ensures (d + [last])[i] != (d + [last])[j] {
            if j == |d| { assert (d + [last])[i] == d[i]; }
          }
        }
        d + [last]
  }

  /**
   Reference definition, independent of indexOf and Set: scan the URNs from
   left to right and emit a URN at the moment it is met for the second time.
   */
  ghost function SecondOccurrences(s: seq<string>): seq<string>
  {
    if s == [] then []
    else
      var before, x := s[..|s| - 1], s[|s| - 1];
      SecondOccurrences(before) + (if multiset(before)[x] == 1 then [x] else [])
  }

  /** The reference list holds each URN that occurs at least twice, once. */
  lemma {:induction false} SecondOccurrencesSpec(s: seq<string>)
    ensures forall u :: u in SecondOccurrences(s) <==> multiset(s)[u] >= 2
    ensures NoDuplicates(SecondOccurrences(s))
  {
    if s != [] {
      var before, x := s[..|s| - 1], s[|s| - 1];
      assert s == before + [x];
      SecondOccurrencesSpec(before);
      var p := SecondOccurrences(before);
      if multiset(before)[x] == 1 {
        assert x !in p;
        assert NoDuplicates(p + [x]) by {
          forall i, j | 0 <= i < j < |p| + 1 ensures (p + [x])[i] != (p + [x])[j] {
            if j == |p| { assert (p + [x])[i] == p[i]; }
          }
        }
      }
    }
  }

  lemma DedupSnoc(s: seq<string>, x: string)
    ensures Dedup(s + [x]) == if x in s then Dedup(s) else Dedup(s) + [x]
  {
  }

  lemma SecondOccurrencesSnoc(s: seq<string>, x: string)
    ensures SecondOccurrences(s + [x]) == SecondOccurrences(s) + (if multiset(s)[x] == 1 then [x] else [])
  {
  }

  /** The store's computation agrees with the reference scan on every prefix. */
  lemma {:induction false} DedupLaterOccurrences(urns: seq<string>, n: nat)
    requires n <= |urns|
    ensures Dedup(LaterOccurrences(urns, n)) == SecondOccurrences(urns[..n])
    decreases n
  {
    if n > 0 {
      DedupLaterOccurrences(urns, n - 1);
      var x, before := urns[n - 1], urns[..n - 1];
      var prev := LaterOccurrences(urns, n - 1);
      assert urns[..n] == before + [x];
      SecondOccurrencesSnoc(before, x);
      SeenBefore(urns, n);
      assert x in prev <==> multiset(before)[x] >= 2;
      if x in before {
        assert multiset(before)[x] >= 1;
        assert LaterOccurrences(urns, n) == prev + [x];
        DedupSnoc(prev, x);
        if x in prev {
          assert Dedup(LaterOccurrences(urns, n)) == Dedup(prev);
          assert SecondOccurrences(urns[..n]) == SecondOccurrences(before);
        } else {
          assert Dedup(LaterOccurrences(urns, n)) == Dedup(prev) + [x];
          assert SecondOccurrences(urns[..n]) == SecondOccurrences(before) + [x];
        }
      } else {
        assert multiset(before)[x] == 0;
        assert LaterOccurrences(urns, n) == prev;
        assert SecondOccurrences(urns[..n]) == SecondOccurrences(before);
      }
    }
  }

  /**
   The URNs the store reports as duplicates for a list of components: exactly
   the URNs that occur at least twice, each once, in the order in which their
   second occurrences appear.
   */
  function DuplicateUrns(cs: seq<Component>): (d: seq<string>)
    ensures forall u :: u in d <==> multiset(Keys(cs, ComponentUrn))[u] >= 2
    ensures NoDuplicates(d)
    ensures d == SecondOccurrences(Keys(cs, ComponentUrn))
  {
    var urns := Keys(cs, ComponentUrn);
    DedupLaterOccurrences(urns, |urns|);
    assert urns[..|urns|] == urns;
    SecondOccurrencesSpec(urns);
    Dedup(LaterOccurrences(urns, |urns|))
  }

  /**
   The store's state. `duplicateUrns` is recomputed from `components` by every
   mutation, but starts empty whatever the initial components are.
   */
  class Store {
    var components: seq<Component>
    var duplicateUrns: seq<string>

    /** The derived list matches the component list. */
    predicate Consistent()
      reads this
    {
      duplicateUrns == DuplicateUrns(components)
    }

    constructor (initial: seq<Component>)
      ensures components == initial && duplicateUrns == []
    {
      components := initial;
      duplicateUrns := [];
    }

    method SetComponents(cs: seq<Component>)
      modifies this
      ensures components == cs
      ensures Consistent()
    {
      components := cs;
      duplicateUrns := DuplicateUrns(cs);
    }

    method AddComponent(c: Component)
      modifies this
      ensures components == old(components) + [c]
      ensures Consistent()
    {
      var newComponents := components + [c];
      components := newComponents;
      duplicateUrns := DuplicateUrns(newComponents);
    }

    method UpdateComponent(c: Component)
      modifies this
      ensures components == ReplaceMatching(old(components), ComponentKey, c)
      ensures Consistent()
    {
      var newComponents := ReplaceMatching(components, ComponentKey, c);
      components := newComponents;
      duplicateUrns := DuplicateUrns(newComponents);
    }

    method DeleteComponent(id: string)
      modifies this
      ensures components == FilterOut(old(components), ComponentKey, id)
      ensures Consistent()
    {
      var newComponents := FilterOut(components, ComponentKey, id);
      components := newComponents;
      duplicateUrns := DuplicateUrns(newComponents);
    }

    /** Reads the stored list; it changes nothing. */
    method GetDuplicateUrns() returns (urns: seq<string>)
      ensures urns == duplicateUrns
    {
      urns := duplicateUrns;
    }
  }

  /**
   The invariant does not hold at start-up: two components sharing a URN have
   a duplicate, while the freshly built store reports none.
   */
  lemma InitialStateMayBeInconsistent()
    ensures DuplicateUrns([Component("1", "U", "a"), Component("2", "U", "b")]) == ["U"]
  {
    var cs := [Component("1", "U", "a"), Component("2", "U", "b")];
    var urns := Keys(cs, ComponentUrn);
    assert urns == ["U", "U"];
    assert urns[..1] == ["U"];
    assert SecondOccurrences(["U"]) == [] by { assert ["U"][..0] == []; }
  }

  /** Adding a component whose URN is already present once makes that URN a duplicate, reported last. */
  lemma {:induction false} AddSecondOccurrenceReportsIt(cs: seq<Component>, c: Component)
    requires multiset(Keys(cs, ComponentUrn))[c.urn] == 1
    ensures DuplicateUrns(cs + [c]) == DuplicateUrns(cs) + [c.urn]
  {
    KeysAppend(cs, [c], ComponentUrn);
    var urns := Keys(cs + [c], ComponentUrn);
    assert urns == Keys(cs, ComponentUrn) + [c.urn];
    assert urns[..|urns| - 1] == Keys(cs, ComponentUrn);
  }

  /** Deleting an id no component has leaves the list and its duplicates as they were. */
  lemma DeleteAbsentIdChangesNothing(cs: seq<Component>, id: string)
    requires forall i :: 0 <= i < |cs| ==> cs[i].id != id
    ensures FilterOut(cs, ComponentKey, id) == cs
    ensures DuplicateUrns(FilterOut(cs, ComponentKey, id)) == DuplicateUrns(cs)
  {
  }
}
