/** The relevance order that `NetworkService.searchCity` sorts its results
    by, and the sort itself. The comparator looks only at names; `query` is
    always the lowercased trimmed query. */
module Relevance {
  import opened Text
  import opened WeatherModel

  /** The name, lowercased, is exactly the query. */
  predicate IsExactMatch(name: string, query: string) {
    Lowercased(name) == query
  }

  /** How well a name matches: 0 for an exact match, 1 for a name that
      starts with the query, 2 for one that only contains it, 3 otherwise. */
  function Tier(name: string, query: string): nat {
    var l := Lowercased(name);
    if l == query then 0
    else if HasPrefix(l, query) then 1
    else if Contains(l, query) then 2
    else 3
  }

  /** The comparator closure: `a` sorts strictly before `b`. The first of
      these that differs decides: exact match, contains the query, starts
      with the query, shorter name, then `<` on the names. Whatever the
      lengths, a name in a better tier always comes first. */
  function NamePrecedes(a: string, b: string, query: string): (r: bool)
    ensures Tier(a, query) < Tier(b, query) ==> r
    ensures Tier(b, query) < Tier(a, query) ==> !r
  {
    var la, lb := Lowercased(a), Lowercased(b);
    if (la == query) != (lb == query) then la == query
    else if Contains(la, query) != Contains(lb, query) then Contains(la, query)
    else if HasPrefix(la, query) != HasPrefix(lb, query) then HasPrefix(la, query)
    else if |a| != |b| then |a| < |b|
    else LessThan(a, b)
  }

  predicate Precedes(x: Location, y: Location, query: string) {
    NamePrecedes(x.name, y.name, query)
  }

  lemma NamePrecedesIrreflexive(a: string, query: string)
    ensures !NamePrecedes(a, a, query)
  {
    LessThanIrreflexive(a);
  }

  lemma NamePrecedesTransitive(a: string, b: string, c: string, query: string)
    requires NamePrecedes(a, b, query) && NamePrecedes(b, c, query)
    ensures NamePrecedes(a, c, query)
  {
    var la, lb, lc := Lowercased(a), Lowercased(b), Lowercased(c);
    if (la == query) == (lb == query) == (lc == query)
      && Contains(la, query) == Contains(lb, query) == Contains(lc, query)
      && HasPrefix(la, query) == HasPrefix(lb, query) == HasPrefix(lc, query)
      && |a| == |b| == |c|
    {
      LessThanTransitive(a, b, c);
    }
  }

  /** Neither of two entries sorts before the other exactly when their names
      are the same: the comparator is a strict weak order whose ties are
      equal names. */
  lemma TiedIffSameName(a: string, b: string, query: string)
    ensures !NamePrecedes(a, b, query) && !NamePrecedes(b, a, query) <==> a == b
  {
    if a == b {
      NamePrecedesIrreflexive(a, query);
    } else {
      LessThanTotal(a, b);
    }
  }

  /** No entry of `s` sorts strictly before an entry to its left. */
  predicate Sorted(s: seq<Location>, query: string) {
    forall i, j :: 0 <= i < j < |s| ==> !Precedes(s[j], s[i], query)
  }

  /** Places `x` in front of the first entry it sorts strictly before, so it
      goes after every entry tied with it. */
  function Insert(x: Location, s: seq<Location>, query: string): (r: seq<Location>)
    ensures multiset(r) == multiset(s) + multiset{x}
  {
    if s == [] then [x]
    else if Precedes(x, s[0], query) then [x] + s
    else
      var rest := Insert(x, s[1..], query);
      assert s == [s[0]] + s[1..];
      [s[0]] + rest
  }

  lemma {:induction false} InsertSorted(x: Location, s: seq<Location>, query: string)
    requires Sorted(s, query)
    ensures Sorted(Insert(x, s, query), query)
  {
    var r := Insert(x, s, query);
    if s == [] {
    } else if Precedes(x, s[0], query) {
      forall j | 0 < j < |r|
        ensures !Precedes(r[j], x, query)
      {
        if Precedes(r[j], x, query) {
          NamePrecedesTransitive(r[j].name, x.name, s[0].name, query);
          if j == 1 {
            NamePrecedesIrreflexive(s[0].name, query);
          }
          assert false;
        }
      }
    } else {
      InsertSorted(x, s[1..], query);
      var rest := Insert(x, s[1..], query);
      forall j | 0 <= j < |rest|
        ensures !Precedes(rest[j], s[0], query)
      {
        assert rest[j] in multiset(rest);
        assert rest[j] == x || rest[j] in s[1..];
      }
    }
  }

  /** Swift's `sort(by:)` with the relevance comparator, as an insertion sort
      that keeps tied entries in their incoming order. */
  function Rank(s: seq<Location>, query: string): (r: seq<Location>)
    ensures multiset(r) == multiset(s)
    ensures Sorted(r, query)
  {
    if s == [] then []
    else
      var init := Rank(s[..|s| - 1], query);
      InsertSorted(s[|s| - 1], init, query);
      assert s == s[..|s| - 1] + [s[|s| - 1]];
      Insert(s[|s| - 1], init, query)
  }

  /** An ordered list runs through the tiers in order: exact matches, then
      names that start with the query, then names that only contain it,
      then the rest. */
  lemma SortedByTier(s: seq<Location>, query: string)
    requires Sorted(s, query)
    ensures forall i, j :: 0 <= i < j < |s| ==> Tier(s[i].name, query) <= Tier(s[j].name, query)
  {
    forall i, j | 0 <= i < j < |s|
      ensures Tier(s[i].name, query) <= Tier(s[j].name, query)
    {
      assert !Precedes(s[j], s[i], query);
    }
  }

  /** The entries of `s` named `n`, in their order in `s`. */
  function WithName(s: seq<Location>, n: string): (r: seq<Location>)
    ensures |r| <= |s|
  {
    if s == [] then []
    else (if s[0].name == n then [s[0]] else []) + WithName(s[1..], n)
  }

  lemma {:induction false} WithNameAppend(a: seq<Location>, b: seq<Location>, n: string)
    ensures WithName(a + b, n) == WithName(a, n) + WithName(b, n)
  {
    if a == [] {
      assert a + b == b;
    } else {
      var head := if a[0].name == n then [a[0]] else [];
      assert (a + b)[0] == a[0] && (a + b)[1..] == a[1..] + b;
      assert WithName(a + b, n) == head + WithName(a[1..] + b, n);
      WithNameAppend(a[1..], b, n);
      assert WithName(a, n) == head + WithName(a[1..], n);
    }
  }

  lemma {:induction false} WithNameNone(s: seq<Location>, n: string)
    requires forall j :: 0 <= j < |s| ==> s[j].name != n
    ensures WithName(s, n) == []
  {
    if s != [] {
      WithNameNone(s[1..], n);
    }
  }

  /** An entry that sorts before the head of an ordered list shares its
      name with no entry of the list. */
  lemma NameAbsentAfter(x: Location, s: seq<Location>, query: string)
    requires Sorted(s, query) && s != [] && Precedes(x, s[0], query)
    ensures forall j :: 0 <= j < |s| ==> s[j].name != x.name
  {
    forall j | 0 <= j < |s|
      ensures s[j].name != x.name
    {
      if j == 0 {
        NamePrecedesIrreflexive(x.name, query);
      }
    }
  }

  lemma SortedTail(s: seq<Location>, query: string)
    requires Sorted(s, query) && s != []
    ensures Sorted(s[1..], query)
  {
    forall i, j | 0 <= i < j < |s| - 1
      ensures !Precedes(s[1..][j], s[1..][i], query)
    {
      assert s[1..][j] == s[j + 1] && s[1..][i] == s[i + 1];
    }
  }

  /** Putting the same head in front of both sides keeps the
      entries-named-`n` relation between them. */
  lemma WithNameCons(head: Location, rest: seq<Location>, tail: seq<Location>, x: Location, n: string)
    requires WithName(rest, n) == WithName(tail, n) + WithName([x], n)
    ensures WithName([head] + rest, n) == WithName([head] + tail, n) + WithName([x], n)
  {
    WithNameAppend([head], rest, n);
    WithNameAppend([head], tail, n);
  }

  /** Inserting into an ordered list puts the new entry after every entry
      with the same name. */
  lemma {:induction false} InsertStable(x: Location, s: seq<Location>, query: string, n: string)
    requires Sorted(s, query)
    ensures WithName(Insert(x, s, query), n) == WithName(s, n) + WithName([x], n)
  {
    if s == [] {
    } else if Precedes(x, s[0], query) {
      WithNameAppend([x], s, n);
      if x.name == n {
        NameAbsentAfter(x, s, query);
        WithNameNone(s, n);
      }
    } else {
      SortedTail(s, query);
      InsertStable(x, s[1..], query, n);
      assert s == [s[0]] + s[1..];
      WithNameCons(s[0], Insert(x, s[1..], query), s[1..], x, n);
    }
  }

  /** The sort is stable: entries with the same name, which the comparator
      ties, keep their incoming order. */
  lemma {:induction false} RankStable(s: seq<Location>, query: string, n: string)
    ensures WithName(Rank(s, query), n) == WithName(s, n)
  {
    if s != [] {
      var init, last := s[..|s| - 1], s[|s| - 1];
      RankStable(init, query, n);
      InsertStable(last, Rank(init, query), query, n);
      assert s == init + [last];
      WithNameAppend(init, [last], n);
    }
  }

  /** In an ordered list every exact match comes before every entry that is
      not one; in particular an exact match, if there is one, is first. */
  lemma ExactMatchesFirst(s: seq<Location>, query: string)
    requires Sorted(s, query)
    ensures forall i, j :: 0 <= i < j < |s| && IsExactMatch(s[j].name, query) ==> IsExactMatch(s[i].name, query)
    ensures (exists k :: 0 <= k < |s| && IsExactMatch(s[k].name, query)) ==> IsExactMatch(s[0].name, query)
  {
    if exists k :: 0 <= k < |s| && IsExactMatch(s[k].name, query) {
      var k :| 0 <= k < |s| && IsExactMatch(s[k].name, query);
      if k > 0 {
        assert !Precedes(s[k], s[0], query);
      }
    }
  }
}
