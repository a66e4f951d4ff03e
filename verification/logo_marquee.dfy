/** The logic of the logo marquee: the logo path lookup, the Fisher–Yates
    shuffle (its random draws passed in), and the effect that keeps the
    whitelisted and non-excluded companies, puts the whitelisted first in
    the top row, and fills both rows from the shuffled others. */
module LogoMarquee {
  import opened Strings
  import opened Companies
  import opened Seqs

  const Placeholder: String := "/logos/placeholder.svg"

  /** `getLogoPath`: the mapped path when it is present and non-empty
      (truthy), else the placeholder. The mapping is the logo-mapping data
      file, passed in. Every logo therefore has a non-empty path, and that
      path is the placeholder or one of the mapped paths. */
  function GetLogoPath(mapping: map<String, String>, website: String): (r: String)
    ensures website in mapping && mapping[website] != [] ==> r == mapping[website]
    ensures !(website in mapping && mapping[website] != []) ==> r == Placeholder
    ensures r != []
    ensures r == Placeholder || r in mapping.Values
  {
    if website in mapping && mapping[website] != [] then
      assert mapping[website] in mapping.Values;
      mapping[website]
    else
      assert Placeholder[0] == '/';
      Placeholder
  }

  /** `s` with the entries at `i` and `j` exchanged. */
  function Swapped<T>(s: seq<T>, i: nat, j: nat): (r: seq<T>)
    requires i < |s| && j < |s|
    ensures |r| == |s|
  {
    s[i := s[j]][j := s[i]]
  }

  /** Exchanging two entries keeps the multiset, and exchanging an entry
      with itself changes nothing. */
  lemma SwappedPermutes<T>(s: seq<T>, i: nat, j: nat)
    requires i < |s| && j < |s|
    ensures multiset(Swapped(s, i, j)) == multiset(s)
    ensures i == j ==> Swapped(s, i, j) == s
  {
    var t := s[i := s[j]];
    assert multiset(t) == multiset(s) - multiset{s[i]} + multiset{s[j]};
    assert multiset(t[j := s[i]]) == multiset(t) - multiset{t[j]} + multiset{s[i]};
  }

  /** `shuffleArray`: a copy of the input, then from the last index down to
      1 a swap of index `i` with the drawn index `draws[i]` (at most `i`,
      `Math.floor(Math.random() * (i + 1))` in the source). The result is a
      permutation of the input, which is left unchanged; when every draw
      keeps its index the order is kept too. */
  method ShuffleArray<T>(input: seq<T>, draws: seq<nat>) returns (shuffled: seq<T>)
    requires |draws| == |input|
    requires forall i :: 0 <= i < |draws| ==> draws[i] <= i
    ensures |shuffled| == |input|
    ensures multiset(shuffled) == multiset(input)
    ensures (forall i :: 0 <= i < |draws| ==> draws[i] == i) ==> shuffled == input
  {
    var a := new T[|input|](i requires 0 <= i < |input| => input[i]);
    assert a[..] == input;
    var i := |input| - 1;
    while i > 0
      invariant -1 <= i < |input|
      invariant multiset(a[..]) == multiset(input)
      invariant (forall k :: 0 <= k < |draws| ==> draws[k] == k) ==> a[..] == input
    {
      var j := draws[i];
      ghost var before := a[..];
      a[i], a[j] := a[j], a[i];
      assert a[..] == Swapped(before, i, j);
      SwappedPermutes(before, i, j);
      i := i - 1;
    }
    shuffled := a[..];
  }

  const Whitelisted: seq<String> := ["eucalyptus.health", "canva.com", "deputy.com", "linktr.ee"]

  const Excluded: seq<String> := [
    "airshr.com", "black.ai", "cxnpl.com", "dataweavers.com",
    "gomarloo.com", "sherlok.com.au", "vexev.com", "inventia.life"
  ]

  const TopRowCount: nat := 20

  predicate IsWhitelisted(c: Company) {
    c.website in Whitelisted
  }

  /** A company enters the marquee when it is whitelisted or not excluded. */
  predicate InPool(c: Company) {
    IsWhitelisted(c) || c.website !in Excluded
  }

  function Pool(cs: seq<Company>): seq<Company> {
    Filter(cs, c => InPool(c))
  }

  function WhitelistedOf(cs: seq<Company>): seq<Company> {
    Filter(Pool(cs), c => IsWhitelisted(c))
  }

  function OthersOf(cs: seq<Company>): seq<Company> {
    Filter(Pool(cs), c => !IsWhitelisted(c))
  }

  /** Filtering by a condition that implies the first filter's makes the
      first filter redundant. */
  lemma {:induction false} FilterFilter(s: seq<Company>, p: Company -> bool, q: Company -> bool)
    requires forall c :: q(c) ==> p(c)
    ensures Filter(Filter(s, p), q) == Filter(s, q)
  {
    if s != [] {
      FilterFilter(s[1..], p, q);
      var rest := Filter(s[1..], p);
      if p(s[0]) {
        assert Filter(s, p) == [s[0]] + rest;
        assert ([s[0]] + rest)[1..] == rest;
      } else {
        assert Filter(s, p) == rest;
      }
    }
  }

  /** The whitelisted pool companies are exactly the whitelisted companies
      of the input, in input order. */
  lemma WhitelistedInInputOrder(cs: seq<Company>)
    ensures WhitelistedOf(cs) == Filter(cs, c => IsWhitelisted(c))
  {
    FilterFilter(cs, c => InPool(c), c => IsWhitelisted(c));
  }

  /** `Math.max(0, topRowCount - whitelistedResults.length)`. */
  function Offset(whitelisted: nat): nat {
    if whitelisted < TopRowCount then TopRowCount - whitelisted else 0
  }

  function Min(a: nat, b: nat): nat {
    if a <= b then a else b
  }

  /** `s.slice(start, end)` for non-negative bounds: both clamped to the
      length, empty when the end does not pass the start. */
  function Slice<T>(s: seq<T>, start: nat, end: nat): (r: seq<T>)
    ensures |r| == if Min(end, |s|) <= start then 0 else Min(end, |s|) - start
    ensures forall k :: 0 <= k < |r| ==> r[k] == s[start + k]
  {
    var hi := Min(end, |s|);
    if hi <= start then [] else s[start..hi]
  }

  /** The top row: the whitelisted companies, then the first shuffled
      others up to `Offset` of them. */
  function TopRow(whitelisted: seq<Company>, shuffled: seq<Company>): seq<Company> {
    whitelisted + Slice(shuffled, 0, Offset(|whitelisted|))
  }

  /** The bottom row: the up to 20 shuffled others that come right after
      those the top row used. */
  function BottomRow(whitelisted: seq<Company>, shuffled: seq<Company>): (r: seq<Company>)
    ensures |r| <= 20
    ensures var k := Min(|shuffled|, Offset(|whitelisted|));
      |r| == Min(20, |shuffled| - k)
      && forall i :: 0 <= i < |r| ==> r[i] == shuffled[k + i]
  {
    Slice(shuffled, Offset(|whitelisted|), Offset(|whitelisted|) + 20)
  }

  /** The top row starts with every whitelisted company and holds
      `min(others, max(0, 20 - whitelisted))` others after them. */
  lemma TopRowShape(whitelisted: seq<Company>, shuffled: seq<Company>)
    ensures var top := TopRow(whitelisted, shuffled);
      |top| == |whitelisted| + Min(|shuffled|, Offset(|whitelisted|))
      && top[..|whitelisted|] == whitelisted
  {
    var top := TopRow(whitelisted, shuffled);
    assert top[..|whitelisted|] == whitelisted;
  }

  /** The others in the two rows are consecutive, non-overlapping stretches
      of the shuffled others: together they use each entry at most once. */
  lemma RowsShareNoOther(whitelisted: seq<Company>, shuffled: seq<Company>)
    ensures var top := TopRow(whitelisted, shuffled);
      multiset(top[|whitelisted|..]) + multiset(BottomRow(whitelisted, shuffled)) <= multiset(shuffled)
  {
    var off := Offset(|whitelisted|);
    var top := TopRow(whitelisted, shuffled);
    var head := Slice(shuffled, 0, off);
    var bottom := BottomRow(whitelisted, shuffled);
    assert top[|whitelisted|..] == head;
    var used := head + bottom;
    assert used == shuffled[..|used|];
    assert shuffled == used + shuffled[|used|..];
    assert multiset(shuffled) == multiset(used) + multiset(shuffled[|used|..]);
  }

  /** Every company in either row's others part comes from the shuffled
      others. */
  lemma RowsFromShuffled(whitelisted: seq<Company>, shuffled: seq<Company>)
    ensures forall c :: c in TopRow(whitelisted, shuffled)[|whitelisted|..] ==> c in shuffled
    ensures forall c :: c in BottomRow(whitelisted, shuffled) ==> c in shuffled
  {
    var top := TopRow(whitelisted, shuffled);
    var head := Slice(shuffled, 0, Offset(|whitelisted|));
    assert top[|whitelisted|..] == head;
  }

  /** Both rows are stretches of the shuffled others: the top row takes
      the first `k` after the whitelisted companies, and the bottom row the
      up to 20 right after them. */
  lemma RowsAreSlices(whitelisted: seq<Company>, shuffled: seq<Company>)
    ensures var k := Min(|shuffled|, Offset(|whitelisted|));
      TopRow(whitelisted, shuffled) == whitelisted + shuffled[..k]
      && BottomRow(whitelisted, shuffled) == shuffled[k..k + Min(20, |shuffled| - k)]
  {
    var k := Min(|shuffled|, Offset(|whitelisted|));
    assert Slice(shuffled, 0, Offset(|whitelisted|)) == shuffled[..k];
  }

  /** Rows built from a shuffle of the others hold only pool companies of
      the input, and the bottom row no whitelisted one. */
  lemma RowsInPool(companies: seq<Company>, shuffled: seq<Company>)
    requires multiset(shuffled) == multiset(OthersOf(companies))
    ensures var w := WhitelistedOf(companies);
      (forall c :: c in BottomRow(w, shuffled) ==> !IsWhitelisted(c))
      && forall c :: c in TopRow(w, shuffled) || c in BottomRow(w, shuffled) ==> c in companies && InPool(c)
  {
    var w := WhitelistedOf(companies);
    var top := TopRow(w, shuffled);
    RowsFromShuffled(w, shuffled);
    forall c | c in shuffled ensures c in OthersOf(companies) {
      assert c in multiset(shuffled);
    }
    forall c | c in top || c in BottomRow(w, shuffled) ensures c in companies && InPool(c) {
      if c in top && c !in top[|w|..] {
        assert top == w + top[|w|..];
      }
    }
  }

  /** The row properties the effect promises, for any shuffle of the
      others. */
  lemma ArrangedRows(companies: seq<Company>, shuffled: seq<Company>)
    requires multiset(shuffled) == multiset(OthersOf(companies))
    ensures var w := WhitelistedOf(companies);
      var top := TopRow(w, shuffled);
      var bottom := BottomRow(w, shuffled);
      var k := Min(|shuffled|, Offset(|w|));
      top == w + shuffled[..k]
      && bottom == shuffled[k..k + Min(20, |shuffled| - k)]
      && |top| == |w| + Min(|OthersOf(companies)|, Offset(|w|))
      && top[..|w|] == w && w == Filter(companies, c => IsWhitelisted(c))
      && |bottom| <= 20
      && multiset(top[|w|..]) + multiset(bottom) <= multiset(OthersOf(companies))
      && (forall c :: c in bottom ==> !IsWhitelisted(c))
      && (forall c :: c in top || c in bottom ==> c in companies && InPool(c))
  {
    var w := WhitelistedOf(companies);
    assert |shuffled| == |OthersOf(companies)| by {
      assert |multiset(shuffled)| == |multiset(OthersOf(companies))|;
    }
    RowsAreSlices(w, shuffled);
    TopRowShape(w, shuffled);
    WhitelistedInInputOrder(companies);
    RowsShareNoOther(w, shuffled);
    RowsInPool(companies, shuffled);
  }

  /** The effect body: pool, split, shuffle the others, slice the rows. The
      top row starts with the whitelisted companies in input order; the
      rows share no other company; the bottom row has no whitelisted
      company; an excluded company that is not whitelisted is in neither
      row. The ghost `shuffled` is the shuffled others: the top row is the
      whitelisted companies followed by its first `k` entries, and the
      bottom row is the up to 20 entries right after them. */
  method ArrangeRows(companies: seq<Company>, draws: seq<nat>)
      returns (top: seq<Company>, bottom: seq<Company>, ghost shuffled: seq<Company>)
    requires |draws| == |OthersOf(companies)|
    requires forall i :: 0 <= i < |draws| ==> draws[i] <= i
    ensures multiset(shuffled) == multiset(OthersOf(companies))
    ensures var k := Min(|shuffled|, Offset(|WhitelistedOf(companies)|));
      top == WhitelistedOf(companies) + shuffled[..k]
      && bottom == shuffled[k..k + Min(20, |shuffled| - k)]
    ensures var w := WhitelistedOf(companies);
      |top| == |w| + Min(|OthersOf(companies)|, Offset(|w|))
      && top[..|w|] == w && w == Filter(companies, c => IsWhitelisted(c))
    ensures |bottom| <= 20
    ensures multiset(top[|WhitelistedOf(companies)|..]) + multiset(bottom) <= multiset(OthersOf(companies))
    ensures forall c :: c in bottom ==> !IsWhitelisted(c)
    ensures forall c :: c in top || c in bottom ==> c in companies && InPool(c)
  {
    var w := WhitelistedOf(companies);
    var mixed := ShuffleArray(OthersOf(companies), draws);
    shuffled := mixed;
    top := TopRow(w, mixed);
    bottom := BottomRow(w, mixed);
    ArrangedRows(companies, mixed);
  }

}
