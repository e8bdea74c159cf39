/** The minutes list: the search and date-range filter and the 9-per-page
    slice of the filtered list. Lower-casing is the caller's `toLowerCase`. */
module MinuteFilter {
  import opened Minutes
  import opened Text

  const ItemsPerPage: nat := 9

  /** `Array.prototype.filter`. */
  function Filter<T>(s: seq<T>, keep: T -> bool): (r: seq<T>)
    ensures |r| <= |s|
    ensures forall x :: x in r ==> x in s && keep(x)
    ensures forall x :: x in s && keep(x) ==> x in r
  {
    if s == [] then []
    else if keep(s[0]) then [s[0]] + Filter(s[1..], keep)
    else Filter(s[1..], keep)
  }

  /** Case-insensitive substring search on title or location. */
  function MatchSearch(m: Minute, term: string, lower: string -> string): (r: bool)
    ensures lower(term) == "" ==> r
  {
    assert lower(term) == "" ==> OccursAt(lower(m.title), lower(term), 0);
    Contains(lower(m.title), lower(term)) || Contains(lower(m.location), lower(term))
  }

  /** Each date bound is compared as a string and ignored when empty. */
  function MatchDates(m: Minute, startDate: string, endDate: string): (r: bool)
    ensures startDate == "" && endDate == "" ==> r
    ensures r && startDate != "" && endDate != "" ==> LexLe(startDate, endDate)
  {
    var r := (startDate != "" ==> LexLe(startDate, m.date)) && (endDate != "" ==> LexLe(m.date, endDate));
    if r && startDate != "" && endDate != "" then LexLeTransitive(startDate, m.date, endDate); r
    else r
  }

  /** The list's criteria: an empty search and empty bounds keep a minute,
      a start date after the end date keeps none. */
  function Keep(m: Minute, term: string, startDate: string, endDate: string, lower: string -> string): (r: bool)
    ensures lower(term) == "" && startDate == "" && endDate == "" ==> r
    ensures startDate != "" && endDate != "" && LexLess(endDate, startDate) ==> !r
  {
    var r := MatchSearch(m, term, lower) && MatchDates(m, startDate, endDate);
    if startDate != "" && endDate != "" && LexLess(endDate, startDate) then
      LexLessAsymmetric(endDate, startDate);
      LexLessIrreflexive(endDate);
      r
    else r
  }

  /** `filteredMinutes`. */
  function FilterMinutes(ms: seq<Minute>, term: string, startDate: string, endDate: string, lower: string -> string): (r: seq<Minute>)
    ensures forall m :: m in r ==> m in ms && Keep(m, term, startDate, endDate, lower)
    ensures forall m :: m in ms && Keep(m, term, startDate, endDate, lower) ==> m in r
  {
    Filter(ms, (m: Minute) => Keep(m, term, startDate, endDate, lower))
  }

  /** Filtering preserves order: it distributes over concatenation. */
  lemma {:induction false} FilterAppend<T>(a: seq<T>, b: seq<T>, keep: T -> bool)
    ensures Filter(a + b, keep) == Filter(a, keep) + Filter(b, keep)
  {
    if a != [] {
      assert (a + b)[0] == a[0];
      assert (a + b)[1..] == a[1..] + b;
      FilterAppend(a[1..], b, keep);
    } else {
      assert a + b == b;
    }
  }

  /** A list the criteria all accept passes through unchanged. */
  lemma {:induction false} FilterKeepsAll<T>(s: seq<T>, keep: T -> bool)
    requires forall x :: x in s ==> keep(x)
    ensures Filter(s, keep) == s
  {
    if s != [] {
      assert forall x :: x in s[1..] ==> x in s;
      FilterKeepsAll(s[1..], keep);
    }
  }

  /** A list the criteria all reject filters to nothing. */
  lemma {:induction false} FilterKeepsNone<T>(s: seq<T>, keep: T -> bool)
    requires forall x :: x in s ==> !keep(x)
    ensures Filter(s, keep) == []
  {
    if s != [] {
      assert forall x :: x in s[1..] ==> x in s;
      FilterKeepsNone(s[1..], keep);
    }
  }

  /** An empty search term and empty date bounds keep every minute. */
  lemma NoCriteriaKeepsEverything(ms: seq<Minute>, lower: string -> string)
    requires lower("") == ""
    ensures FilterMinutes(ms, "", "", "", lower) == ms
  {
    assert forall m :: m in ms ==> Keep(m, "", "", "", lower);
    FilterKeepsAll(ms, (m: Minute) => Keep(m, "", "", "", lower));
  }

  /** A start date after the end date keeps nothing. */
  lemma InvertedRangeKeepsNothing(ms: seq<Minute>, term: string, startDate: string, endDate: string, lower: string -> string)
    requires startDate != "" && endDate != "" && LexLess(endDate, startDate)
    ensures FilterMinutes(ms, term, startDate, endDate, lower) == []
  {
    FilterKeepsNone(ms, (m: Minute) => Keep(m, term, startDate, endDate, lower));
  }

  function Max(a: int, b: int): int { if a > b then a else b }
  function Min(a: int, b: int): int { if a < b then a else b }

  /** `Array.prototype.slice(begin, end)`: negative positions count from the
      end, positions past the end are clamped, a reversed range is empty. */
  function JsSlice<T>(s: seq<T>, begin: int, end: int): (r: seq<T>)
    ensures |r| <= |s|
  {
    var n := |s|;
    var b := if begin < 0 then Max(n + begin, 0) else Min(begin, n);
    var e := if end < 0 then Max(n + end, 0) else Min(end, n);
    if b < e then s[b..e] else []
  }

  /** `currentMinutes`: page `page` (counted from 1) of the filtered list. */
  function PageItems<T>(s: seq<T>, page: int): (r: seq<T>)
    ensures |r| <= ItemsPerPage
    ensures page >= 1 ==> r == s[Min((page - 1) * ItemsPerPage, |s|)..Min(page * ItemsPerPage, |s|)]
  {
    JsSlice(s, page * ItemsPerPage - ItemsPerPage, page * ItemsPerPage)
  }

  /** Item `i` of the filtered list is shown at position `i % 9` of page
      `i / 9 + 1`. */
  lemma ItemOnItsPage<T>(s: seq<T>, i: nat)
    requires i < |s|
    ensures i % ItemsPerPage < |PageItems(s, i / ItemsPerPage + 1)|
    ensures PageItems(s, i / ItemsPerPage + 1)[i % ItemsPerPage] == s[i]
  {
  }

  /** Pages 1..k together show the first 9k items, in order. */
  function Pages<T>(s: seq<T>, k: nat): seq<T> {
    if k == 0 then [] else Pages(s, k - 1) + PageItems(s, k)
  }

  lemma {:induction false} PagesCoverPrefix<T>(s: seq<T>, k: nat)
    ensures Pages(s, k) == s[..Min(k * ItemsPerPage, |s|)]
  {
    if k > 0 {
      PagesCoverPrefix(s, k - 1);
      var a := Min((k - 1) * ItemsPerPage, |s|);
      var b := Min(k * ItemsPerPage, |s|);
      assert PageItems(s, k) == s[a..b];
      assert s[..a] + s[a..b] == s[..b];
    }
  }
}
