/** The filtering and the display cap of `applyAndRender`: a free-text query
    over name and description, an optional favourites-only mode, and at most
    50 cards shown. */
module ViewFilter {
  import opened JsValues
  import opened Strings
  import opened Seqs
  import opened Listings

  /** How many filtered listings are drawn at most. */
  const MaxDisplayed: nat := 50

  /** The mode value that restricts the view to favourites. */
  const FavoritesMode: string := "fav"

  /** The query as the filter uses it: the search box's text, trimmed and lowercased. */
  function NormalizeQuery(raw: string): (q: string)
    ensures |q| <= |raw|
    ensures exists a, b :: 0 <= a <= b <= |raw| && q == Lower(raw[a..b])
              && (forall k :: 0 <= k < a ==> IsWhite(raw[k]))
              && (forall k :: b <= k < |raw| ==> IsWhite(raw[k]))
    ensures q == [] || (!IsWhite(q[0]) && !IsWhite(q[|q| - 1]))
    ensures forall i :: 0 <= i < |q| ==> !('A' <= q[i] <= 'Z')
  {
    var s := TrimStart(raw);
    var t := TrimEnd(s);
    var a := |raw| - |s|;
    assert t == raw[a..a + |t|];
    TrimAllowsLower(t);
    Lower(t)
  }

  /** Normalising a normalised query changes nothing. */
  lemma NormalizeQueryIdempotent(raw: string)
    ensures NormalizeQuery(NormalizeQuery(raw)) == NormalizeQuery(raw)
  {
    var t := Trim(raw);
    TrimIdempotent(raw);
    TrimOfLower(t);
    LowerIdempotent(t);
  }

  /** The select's value, or "all" when it is empty. */
  function ModeOf(raw: string): (mode: string)
    ensures raw != "" ==> mode == raw
    ensures mode != ""
  {
    if raw == "" then "all" else raw
  }

  /** The query occurs in the lowercased name or the lowercased description. */
  predicate MatchesQuery(l: Listing, q: string) {
    Includes(Lower(SafeText(l.name, "")), q) || Includes(Lower(SafeText(l.description, "")), q)
  }

  /** The listing's identifier is a favourite. */
  predicate IsFavorite(l: Listing, favs: set<string>) {
    GetListingId(l) in favs
  }

  /** Both conditions of the view: the query matches (or is empty), and
      the listing is a favourite (or the mode is not "fav"). */
  predicate Keep(l: Listing, q: string, mode: string, favs: set<string>) {
    && (q == "" || MatchesQuery(l, q))
    && (mode != FavoritesMode || IsFavorite(l, favs))
  }

  function QueryTest(q: string): Listing -> bool {
    l => MatchesQuery(l, q)
  }

  function FavoriteTest(favs: set<string>): Listing -> bool {
    l => IsFavorite(l, favs)
  }

  function KeepTest(q: string, mode: string, favs: set<string>): Listing -> bool {
    l => Keep(l, q, mode, favs)
  }

  /** The listings the view keeps, in their original order and multiplicity. */
  function Visible(ls: seq<Listing>, q: string, mode: string, favs: set<string>): (r: seq<Listing>)
    ensures forall l :: l in r <==> l in ls && Keep(l, q, mode, favs)
    ensures forall l :: Keep(l, q, mode, favs) ==> multiset(r)[l] == multiset(ls)[l]
    ensures IsSubsequence(r, ls)
    ensures |r| <= |ls|
  {
    FilterIsSubsequence(KeepTest(q, mode, favs), ls);
    FilterCounts(KeepTest(q, mode, favs), ls);
    Filter(KeepTest(q, mode, favs), ls)
  }

  /** The two filter stages of `applyAndRender`, each run only when its
      condition is on, compute the view. */
  lemma StagesAreVisible(ls: seq<Listing>, q: string, mode: string, favs: set<string>)
    ensures var byQuery := if q != "" then Filter(QueryTest(q), ls) else ls;
            var byMode := if mode == FavoritesMode then Filter(FavoriteTest(favs), byQuery) else byQuery;
            byMode == Visible(ls, q, mode, favs)
  {
    var keep := KeepTest(q, mode, favs);
    if q != "" && mode == FavoritesMode {
      FilterFilter(QueryTest(q), FavoriteTest(favs), keep, ls);
    } else if q != "" {
      FilterCongruent(QueryTest(q), keep, ls);
    } else if mode == FavoritesMode {
      FilterCongruent(FavoriteTest(favs), keep, ls);
    } else {
      FilterAll(keep, ls);
    }
  }

  /** The filtering part of `applyAndRender`: `filtered` starts as all
      listings and is narrowed by each stage whose condition is on. */
  method FilterStages(ls: seq<Listing>, q: string, mode: string, favs: set<string>) returns (filtered: seq<Listing>)
    ensures filtered == Visible(ls, q, mode, favs)
  {
    filtered := ls;
    if q != "" {
      filtered := Filter(QueryTest(q), filtered);
    }
    if mode == FavoritesMode {
      filtered := Filter(FavoriteTest(favs), filtered);
    }
    StagesAreVisible(ls, q, mode, favs);
  }

  /** An empty query outside favourites mode shows every listing. */
  lemma ShowAll(ls: seq<Listing>, mode: string, favs: set<string>)
    requires mode != FavoritesMode
    ensures Visible(ls, "", mode, favs) == ls
  {
    FilterAll(KeepTest("", mode, favs), ls);
  }

  /** Filtering the view again with the same inputs changes nothing. */
  lemma VisibleIdempotent(ls: seq<Listing>, q: string, mode: string, favs: set<string>)
    ensures Visible(Visible(ls, q, mode, favs), q, mode, favs) == Visible(ls, q, mode, favs)
  {
    FilterIdempotent(KeepTest(q, mode, favs), ls);
  }

  /** `filtered.slice(0, 50)`: the first `min(50, |filtered|)` listings. */
  function Displayed(filtered: seq<Listing>): (r: seq<Listing>)
    ensures |r| == Min(MaxDisplayed, |filtered|)
    ensures forall i :: 0 <= i < |r| ==> r[i] == filtered[i]
  {
    filtered[..Min(MaxDisplayed, |filtered|)]
  }

  /** The status line: how many are shown, how many matched, how many favourites. */
  function StatusText(shown: nat, total: nat, favoriteCount: nat): string {
    StatusPrefix + NatToString(shown) + StatusOf + NatToString(total) + StatusMiddle + NatToString(favoriteCount)
  }

  const StatusPrefix: string := "Showing "
  const StatusOf: string := " / "
  const StatusMiddle: string := " (max 50 displayed) \U{2022} Favorites: "

  /** The status line tells every two triples of counts apart: a reader
      recovers the shown, filtered and favourite counts from it. */
  lemma StatusTextInjective(shown: nat, total: nat, favoriteCount: nat, shown': nat, total': nat, favoriteCount': nat)
    requires StatusText(shown, total, favoriteCount) == StatusText(shown', total', favoriteCount')
    ensures shown == shown' && total == total' && favoriteCount == favoriteCount'
  {
    assert StatusOf[0] == ' ' && StatusMiddle[0] == ' ';
    FieldsUnique(StatusPrefix, StatusOf, StatusMiddle,
      NatToString(shown), NatToString(total), NatToString(favoriteCount),
      NatToString(shown'), NatToString(total'), NatToString(favoriteCount'));
    NatToStringRoundTrip(shown);
    NatToStringRoundTrip(shown');
    NatToStringRoundTrip(total);
    NatToStringRoundTrip(total');
    NatToStringRoundTrip(favoriteCount);
    NatToStringRoundTrip(favoriteCount');
  }

  predicate AllDigits(s: string) {
    forall i :: 0 <= i < |s| ==> IsDigit(s[i])
  }

  /** Three runs of digits separated by texts that start with a non-digit
      split in one way only. */
  lemma FieldsUnique(p: string, o: string, m: string, a: string, b: string, c: string, a': string, b': string, c': string)
    requires AllDigits(a) && AllDigits(b) && AllDigits(a') && AllDigits(b')
    requires o != [] && m != [] && !IsDigit(o[0]) && !IsDigit(m[0])
    requires p + a + o + b + m + c == p + a' + o + b' + m + c'
    ensures a == a' && b == b' && c == c'
  {
    var z, z' := m + c, m + c';
    var y, y' := b + z, b' + z';
    var x, x' := o + y, o + y';
    assert p + a + o + b + m + c == p + (a + x);
    assert p + a' + o + b' + m + c' == p + (a' + x');
    assert a + x == (p + (a + x))[|p|..];
    assert a' + x' == (p + (a' + x'))[|p|..];
    DigitsThenOther(a, x, a', x');
    assert y == x[|o|..] && y' == x'[|o|..];
    DigitsThenOther(b, z, b', z');
    assert c == z[|m|..] && c' == z'[|m|..];
  }

  /** A run of digits followed by text that starts with a non-digit splits
      in one way only. */
  lemma DigitsThenOther(d: string, t: string, d': string, t': string)
    requires AllDigits(d) && AllDigits(d')
    requires t != [] && t' != [] && !IsDigit(t[0]) && !IsDigit(t'[0])
    requires d + t == d' + t'
    ensures d == d' && t == t'
  {
    var u := d + t;
    assert forall i :: 0 <= i < |d| ==> u[i] == d[i];
    assert forall i :: 0 <= i < |d'| ==> u[i] == d'[i];
    assert u[|d|] == t[0] && u[|d'|] == t'[0];
    assert |d| == |d'|;
    assert d == u[..|d|] && d' == u[..|d'|];
    assert t == u[|d|..] && t' == u[|d'|..];
  }
}
