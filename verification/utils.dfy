/** `sortCompaniesByName`: a copy of the list sorted by lower-cased name.
    The comparator is `localeCompare` on the lower-cased names, modelled as
    code-point lexicographic order; `Array.prototype.sort` is stable, so the
    model is a stable insertion sort. Sequences are values, so the caller's
    list is never changed and the result is a new sequence. */
module Utils {
  import opened Strings
  import opened Companies

  function NameKey(c: Company): String {
    ToLower(c.name)
  }

  predicate NameOrdered(a: Company, b: Company) {
    LexLeq(NameKey(a), NameKey(b))
  }

  /** Non-decreasing by lower-cased name, between every pair of positions. */
  ghost predicate SortedByName(s: seq<Company>) {
    forall i, j :: 0 <= i < j < |s| ==> NameOrdered(s[i], s[j])
  }

  /** The companies of `s` that share the lower-cased name `key`, in order. */
  function WithKey(s: seq<Company>, key: String): seq<Company> {
    if s == [] then []
    else (if NameKey(s[0]) == key then [s[0]] else []) + WithKey(s[1..], key)
  }

  /** Places `c` after the companies whose names are strictly smaller and
      before all the others, which is where a stable sort puts an element
      that precedes them in the input. */
  function InsertByName(c: Company, sorted: seq<Company>): (r: seq<Company>)
    requires SortedByName(sorted)
    ensures multiset(r) == multiset(sorted) + multiset{c}
    ensures SortedByName(r)
  {
    if sorted == [] then [c]
    else if NameOrdered(c, sorted[0]) then
      InsertFront(c, sorted);
      [c] + sorted
    else
      LexLeqTotal(NameKey(c), NameKey(sorted[0]));
      var rest := InsertByName(c, sorted[1..]);
      assert sorted == [sorted[0]] + sorted[1..];
      InsertBehind(sorted[0], rest);
      [sorted[0]] + rest
  }

  lemma InsertFront(c: Company, sorted: seq<Company>)
    requires SortedByName(sorted) && sorted != [] && NameOrdered(c, sorted[0])
    ensures SortedByName([c] + sorted)
  {
    var r := [c] + sorted;
    forall i, j | 0 <= i < j < |r| ensures NameOrdered(r[i], r[j]) {
      if i == 0 && j > 1 {
        LexLeqTransitive(NameKey(c), NameKey(sorted[0]), NameKey(sorted[j - 1]));
      }
    }
  }

  lemma InsertBehind(h: Company, rest: seq<Company>)
    requires SortedByName(rest)
    requires forall x :: x in multiset(rest) ==> NameOrdered(h, x)
    ensures SortedByName([h] + rest)
  {
    var r := [h] + rest;
    forall i, j | 0 <= i < j < |r| ensures NameOrdered(r[i], r[j]) {
      if i == 0 {
        assert r[j] == rest[j - 1] && rest[j - 1] in multiset(rest);
      }
    }
  }

  /** Model of `sortCompaniesByName`. */
  function SortCompaniesByName(cs: seq<Company>): (r: seq<Company>)
    ensures multiset(r) == multiset(cs)
    ensures |r| == |cs|
    ensures SortedByName(r)
  {
    if cs == [] then []
    else
      var rest := SortCompaniesByName(cs[1..]);
      assert cs == [cs[0]] + cs[1..];
      InsertByName(cs[0], rest)
  }

  // ---------------------------------------------------------------------
  // Properties of the sort
  // ---------------------------------------------------------------------

  lemma SortEmpty()
    ensures SortCompaniesByName([]) == []
  {
  }

  lemma {:induction false} InsertKeepsTies(c: Company, sorted: seq<Company>, key: String)
    requires SortedByName(sorted)
    ensures WithKey(InsertByName(c, sorted), key)
         == (if NameKey(c) == key then [c] else []) + WithKey(sorted, key)
  {
    if sorted != [] {
      if NameOrdered(c, sorted[0]) {
        assert ([c] + sorted)[1..] == sorted;
      } else {
        LexLeqReflexive(NameKey(c));
        InsertKeepsTies(c, sorted[1..], key);
        var rest := InsertByName(c, sorted[1..]);
        assert ([sorted[0]] + rest)[1..] == rest;
      }
    }
  }

  /** Stability: the companies sharing any one lower-cased name appear in
      the result in the same relative order as in the input. */
  lemma {:induction false} SortIsStable(cs: seq<Company>, key: String)
    ensures WithKey(SortCompaniesByName(cs), key) == WithKey(cs, key)
  {
    if cs != [] {
      SortIsStable(cs[1..], key);
      InsertKeepsTies(cs[0], SortCompaniesByName(cs[1..]), key);
    }
  }

  /** Sorting a list that is already in name order returns it unchanged. */
  lemma {:induction false} SortOfSorted(cs: seq<Company>)
    requires SortedByName(cs)
    ensures SortCompaniesByName(cs) == cs
  {
    if cs != [] {
      assert SortedByName(cs[1..]);
      SortOfSorted(cs[1..]);
      if |cs| > 1 {
        assert NameOrdered(cs[0], cs[1]);
      }
    }
  }

  /** Hence sorting is idempotent. */
  lemma SortIdempotent(cs: seq<Company>)
    ensures SortCompaniesByName(SortCompaniesByName(cs)) == SortCompaniesByName(cs)
  {
    SortOfSorted(SortCompaniesByName(cs));
  }
}
