/** The results view: the date buckets flattened into `{ neo, date }` pairs, the
    hazardous-only filter, the six sort orders, and the detail-dialog state.

    `localeCompare` on names is taken as a parameter `nameCmp`, required only to be
    a consistent comparator: `nameCmp(x, y) <= 0` is total and transitive. */
module NeoDisplay {
  import opened NeoTypes
  import opened NeoDetailModal

  /** The closed set of sort rules offered by the "Sort By" menu. */
  datatype SortOption = DateAsc | DateDesc | NameAsc | NameDesc | SizeAsc | SizeDesc

  // ---------------------------------------------------------------------------
  // Flattening

  /** The pairs one bucket contributes: each object of `list`, tagged with `date`. */
  function Pairs(date: Day, list: seq<Neo>): (r: seq<Entry>)
    ensures |r| == |list|
    ensures forall k :: 0 <= k < |r| ==> r[k] == Entry(list[k], date)
  {
    if list == [] then [] else Pairs(date, list[..|list| - 1]) + [Entry(list[|list| - 1], date)]
  }

  /** The pairs of the buckets under `dates`, bucket after bucket, in the order of `dates`. */
  function FlattenDates(dates: seq<Day>, lists: map<Day, seq<Neo>>): seq<Entry>
    requires forall d :: d in dates ==> d in lists
  {
    if dates == [] then []
    else FlattenDates(dates[..|dates| - 1], lists) + Pairs(dates[|dates| - 1], lists[dates[|dates| - 1]])
  }

  /** Every (object, date) pair of the collection, in key enumeration order. */
  function Flatten(b: Buckets): seq<Entry>
    requires Wf(b)
  {
    FlattenDates(b.dates, b.lists)
  }

  /** How many times object `e.neo` appears in the bucket for date `e.date`. */
  function Occurrences(b: Buckets, e: Entry): nat {
    if e.date in b.lists then multiset(b.lists[e.date])[e.neo] else 0
  }

  lemma {:induction false} PairsOccurrences(date: Day, list: seq<Neo>, e: Entry)
    ensures multiset(Pairs(date, list))[e] == if e.date == date then multiset(list)[e.neo] else 0
  {
    if list != [] {
      var front, last := list[..|list| - 1], list[|list| - 1];
      PairsOccurrences(date, front, e);
      assert list == front + [last];
    }
  }

  lemma {:induction false} FlattenDatesOccurrences(dates: seq<Day>, lists: map<Day, seq<Neo>>, e: Entry)
    requires forall d :: d in dates ==> d in lists
    requires forall i, j :: 0 <= i < j < |dates| ==> dates[i] != dates[j]
    ensures multiset(FlattenDates(dates, lists))[e] ==
      if e.date in dates then multiset(lists[e.date])[e.neo] else 0
  {
    if dates != [] {
      var front, last := dates[..|dates| - 1], dates[|dates| - 1];
      assert last in dates;
      FlattenDatesOccurrences(front, lists, e);
      PairsOccurrences(last, lists[last], e);
      var f, p := FlattenDates(front, lists), Pairs(last, lists[last]);
      assert FlattenDates(dates, lists) == f + p;
      assert multiset(f + p)[e] == multiset(f)[e] + multiset(p)[e];
      assert last !in front by {
        forall i | 0 <= i < |front| ensures front[i] != last {
          assert front[i] == dates[i];
        }
      }
      assert e.date in dates <==> e.date in front || e.date == last by {
        assert dates == front + [last];
      }
    }
  }

  /** Flattening yields exactly one pair per element of every bucket, tagged with
      the bucket's own date, and nothing else. */
  lemma FlattenOccurrences(b: Buckets)
    requires Wf(b)
    ensures forall e :: multiset(Flatten(b))[e] == Occurrences(b, e)
    ensures forall e :: e in Flatten(b) ==> e.date in b.lists && e.neo in b.lists[e.date]
  {
    forall e ensures multiset(Flatten(b))[e] == Occurrences(b, e) {
      FlattenDatesOccurrences(b.dates, b.lists, e);
    }
    forall e | e in Flatten(b) ensures e.date in b.lists && e.neo in b.lists[e.date] {
      assert multiset(Flatten(b))[e] > 0;
    }
  }

  // ---------------------------------------------------------------------------
  // The hazardous-only filter

  /** `filter(({ neo }) => neo.is_potentially_hazardous_asteroid)`. */
  function HazardousOnly(s: seq<Entry>): (r: seq<Entry>)
    ensures |r| <= |s|
    ensures forall k :: 0 <= k < |r| ==> r[k].neo.hazardous
    ensures (forall k :: 0 <= k < |s| ==> s[k].neo.hazardous) ==> r == s
  {
    if s == [] then []
    else
      var last := s[|s| - 1];
      HazardousOnly(s[..|s| - 1]) + (if last.neo.hazardous then [last] else [])
  }

  /** The filter keeps every hazardous entry as often as it occurs, and nothing else. */
  lemma {:induction false} HazardousOnlyOccurrences(s: seq<Entry>)
    ensures forall e :: e in HazardousOnly(s) ==> e.neo.hazardous
    ensures forall e :: multiset(HazardousOnly(s))[e] == if e.neo.hazardous then multiset(s)[e] else 0
  {
    if s != [] {
      var front, last := s[..|s| - 1], s[|s| - 1];
      HazardousOnlyOccurrences(front);
      assert s == front + [last];
      forall e | e in HazardousOnly(s) ensures e.neo.hazardous {
        assert multiset(HazardousOnly(s))[e] > 0;
      }
    }
  }

  /** The list the view sorts: all pairs, or only the hazardous ones. */
  function Filtered(s: seq<Entry>, hazardousOnly: bool): seq<Entry> {
    if hazardousOnly then HazardousOnly(s) else s
  }

  /** How many objects of `list` the filter keeps. */
  function Kept(list: seq<Neo>, hazardousOnly: bool): (r: nat)
    ensures r <= |list|
    ensures !hazardousOnly ==> r == |list|
  {
    if list == [] then 0
    else Kept(list[..|list| - 1], hazardousOnly) + (if !hazardousOnly || list[|list| - 1].hazardous then 1 else 0)
  }

  function KeptDates(dates: seq<Day>, lists: map<Day, seq<Neo>>, hazardousOnly: bool): nat
    requires forall d :: d in dates ==> d in lists
  {
    if dates == [] then 0
    else
      var last := dates[|dates| - 1];
      assert last in dates;
      KeptDates(dates[..|dates| - 1], lists, hazardousOnly) + Kept(lists[last], hazardousOnly)
  }

  /** The number of objects the view shows: with the filter off, the sum of the
      bucket lengths; with it on, the number of hazardous objects. */
  function Count(b: Buckets, hazardousOnly: bool): nat
    requires Wf(b)
  {
    KeptDates(b.dates, b.lists, hazardousOnly)
  }

  lemma {:induction false} HazardousOnlyAppend(s: seq<Entry>, t: seq<Entry>)
    ensures HazardousOnly(s + t) == HazardousOnly(s) + HazardousOnly(t)
  {
    if t != [] {
      var front, last := t[..|t| - 1], t[|t| - 1];
      var kept := if last.neo.hazardous then [last] else [];
      var u := s + t;
      assert u[..|u| - 1] == s + front;
      assert u[|u| - 1] == last;
      calc {
        HazardousOnly(u);
        HazardousOnly(s + front) + kept;
        { HazardousOnlyAppend(s, front); }
        HazardousOnly(s) + HazardousOnly(front) + kept;
        HazardousOnly(s) + HazardousOnly(t);
      }
    } else {
      assert s + t == s;
    }
  }

  lemma {:induction false} FilteredPairsLength(date: Day, list: seq<Neo>, hazardousOnly: bool)
    ensures |Filtered(Pairs(date, list), hazardousOnly)| == Kept(list, hazardousOnly)
  {
    if list != [] && hazardousOnly {
      var front := list[..|list| - 1];
      FilteredPairsLength(date, front, hazardousOnly);
      var p := Pairs(date, list);
      assert p[..|p| - 1] == Pairs(date, front);
    }
  }

  lemma {:induction false} FilteredFlattenDatesLength(dates: seq<Day>, lists: map<Day, seq<Neo>>, hazardousOnly: bool)
    requires forall d :: d in dates ==> d in lists
    ensures |Filtered(FlattenDates(dates, lists), hazardousOnly)| == KeptDates(dates, lists, hazardousOnly)
  {
    if dates != [] {
      var front, last := dates[..|dates| - 1], dates[|dates| - 1];
      FilteredFlattenDatesLength(front, lists, hazardousOnly);
      FilteredPairsLength(last, lists[last], hazardousOnly);
      HazardousOnlyAppend(FlattenDates(front, lists), Pairs(last, lists[last]));
    }
  }

  /** The filtered list has one entry per kept object: the total count with the
      filter off, the hazardous count with it on. */
  lemma FilteredLength(b: Buckets, hazardousOnly: bool)
    requires Wf(b)
    ensures |Filtered(Flatten(b), hazardousOnly)| == Count(b, hazardousOnly)
  {
    FilteredFlattenDatesLength(b.dates, b.lists, hazardousOnly);
  }

  // ---------------------------------------------------------------------------
  // The six comparators

  /** The comparator passed to `sort`: negative when `a` belongs before `b`. The
      date rules subtract the `parseISO` instants of the two keys; the local offset
      cancels in the difference, so any offset gives the same result. */
  function Compare(opt: SortOption, nameCmp: (string, string) -> int, a: Entry, b: Entry): (r: real)
    ensures opt == DateAsc ==> (r <= 0.0 <==> a.date <= b.date)
    ensures opt == DateDesc ==> (r <= 0.0 <==> b.date <= a.date)
    ensures opt == NameAsc ==> (r <= 0.0 <==> nameCmp(a.neo.name, b.neo.name) <= 0)
    ensures opt == NameDesc ==> (r <= 0.0 <==> nameCmp(b.neo.name, a.neo.name) <= 0)
    ensures opt == SizeAsc ==> (r <= 0.0 <==> MeanDiameter(a.neo) <= MeanDiameter(b.neo))
    ensures opt == SizeDesc ==> (r <= 0.0 <==> MeanDiameter(b.neo) <= MeanDiameter(a.neo))
  {
    match opt
    case DateAsc => (LocalMidnight(a.date, 0) - LocalMidnight(b.date, 0)) as real
    case DateDesc => (LocalMidnight(b.date, 0) - LocalMidnight(a.date, 0)) as real
    case NameAsc => nameCmp(a.neo.name, b.neo.name) as real
    case NameDesc => nameCmp(b.neo.name, a.neo.name) as real
    case SizeAsc => MeanDiameter(a.neo) - MeanDiameter(b.neo)
    case SizeDesc => MeanDiameter(b.neo) - MeanDiameter(a.neo)
  }

  /** The date rules give the same difference of `parseISO` instants whatever the
      local offset. */
  lemma CompareDatesAnyOffset(nameCmp: (string, string) -> int, a: Entry, b: Entry, tz: int)
    ensures Compare(DateAsc, nameCmp, a, b) == (LocalMidnight(a.date, tz) - LocalMidnight(b.date, tz)) as real
    ensures Compare(DateDesc, nameCmp, a, b) == (LocalMidnight(b.date, tz) - LocalMidnight(a.date, tz)) as real
  {
  }

  /** `a` may stand before `b` in a list sorted by `opt`. */
  predicate InOrder(opt: SortOption, nameCmp: (string, string) -> int, a: Entry, b: Entry) {
    Compare(opt, nameCmp, a, b) <= 0.0
  }

  /** What `sort` needs of `localeCompare` for its result to be sorted. */
  ghost predicate ConsistentNameOrder(nameCmp: (string, string) -> int) {
    && (forall x, y :: nameCmp(x, y) <= 0 || nameCmp(y, x) <= 0)
    && (forall x, y, z :: nameCmp(x, y) <= 0 && nameCmp(y, z) <= 0 ==> nameCmp(x, z) <= 0)
  }

  ghost predicate SortedBy(opt: SortOption, nameCmp: (string, string) -> int, s: seq<Entry>) {
    forall i, j :: 0 <= i < j < |s| ==> InOrder(opt, nameCmp, s[i], s[j])
  }

  /** Every comparator orders any two entries one way or the other. */
  lemma InOrderTotal(opt: SortOption, nameCmp: (string, string) -> int, a: Entry, b: Entry)
    requires ConsistentNameOrder(nameCmp)
    ensures InOrder(opt, nameCmp, a, b) || InOrder(opt, nameCmp, b, a)
  {
    var x, y := a.neo.name, b.neo.name;
    assert nameCmp(x, y) <= 0 || nameCmp(y, x) <= 0;
  }

  /** Every comparator is transitive. */
  lemma InOrderTransitive(opt: SortOption, nameCmp: (string, string) -> int, a: Entry, b: Entry, c: Entry)
    requires ConsistentNameOrder(nameCmp)
    requires InOrder(opt, nameCmp, a, b) && InOrder(opt, nameCmp, b, c)
    ensures InOrder(opt, nameCmp, a, c)
  {
    var x, y, z := a.neo.name, b.neo.name, c.neo.name;
    match opt
    case NameAsc =>
      assert nameCmp(x, y) <= 0 && nameCmp(y, z) <= 0;
    case NameDesc =>
      assert nameCmp(z, y) <= 0 && nameCmp(y, x) <= 0;
    case _ =>
  }

  // ---------------------------------------------------------------------------
  // Sorting in place

  /** `allNeos.sort(comparator)`: an insertion sort; only sortedness and
      permutation are promised, not the order of ties. */
  method SortEntries(a: array<Entry>, opt: SortOption, nameCmp: (string, string) -> int)
    requires ConsistentNameOrder(nameCmp)
    modifies a
    ensures SortedBy(opt, nameCmp, a[..])
    ensures multiset(a[..]) == old(multiset(a[..]))
  {
    var i := 0;
    while i < a.Length
      invariant 0 <= i <= a.Length
      invariant forall k, l :: 0 <= k < l < i ==> InOrder(opt, nameCmp, a[k], a[l])
      invariant multiset(a[..]) == old(multiset(a[..]))
    {
      InsertLast(a, i, opt, nameCmp);
      i := i + 1;
    }
  }

  /** One pass of the insertion sort: swap `a[i]` down into the sorted prefix `a[..i]`. */
  method InsertLast(a: array<Entry>, i: int, opt: SortOption, nameCmp: (string, string) -> int)
    requires ConsistentNameOrder(nameCmp)
    requires 0 <= i < a.Length
    requires forall k, l :: 0 <= k < l < i ==> InOrder(opt, nameCmp, a[k], a[l])
    modifies a
    ensures forall k, l :: 0 <= k < l <= i ==> InOrder(opt, nameCmp, a[k], a[l])
    ensures multiset(a[..]) == old(multiset(a[..]))
  {
    var j := i;
    while j > 0 && !InOrder(opt, nameCmp, a[j - 1], a[j])
      invariant 0 <= j <= i
      invariant forall k, l :: 0 <= k < l <= i && k != j && l != j ==> InOrder(opt, nameCmp, a[k], a[l])
      invariant forall l :: j < l <= i ==> InOrder(opt, nameCmp, a[j], a[l])
      invariant multiset(a[..]) == old(multiset(a[..]))
    {
      InOrderTotal(opt, nameCmp, a[j - 1], a[j]);
      a[j - 1], a[j] := a[j], a[j - 1];
      j := j - 1;
    }
    forall k | 0 <= k < j
      ensures InOrder(opt, nameCmp, a[k], a[j])
    {
      if k < j - 1 {
        InOrderTransitive(opt, nameCmp, a[k], a[j - 1], a[j]);
      }
    }
  }

  // ---------------------------------------------------------------------------
  // The memoised view

  /** The nested `forEach` loops that push one `{ neo, date }` pair per bucket element. */
  method FlattenEntries(neos: Buckets) returns (all: seq<Entry>)
    requires Wf(neos)
    ensures all == Flatten(neos)
  {
    all := [];
    var i := 0;
    while i < |neos.dates|
      invariant 0 <= i <= |neos.dates|
      invariant all == FlattenDates(neos.dates[..i], neos.lists)
    {
      var date := neos.dates[i];
      var list := neos.lists[date];
      var j := 0;
      while j < |list|
        invariant 0 <= j <= |list|
        invariant all == FlattenDates(neos.dates[..i], neos.lists) + Pairs(date, list[..j])
      {
        assert list[..j + 1][..j] == list[..j];
        all := all + [Entry(list[j], date)];
        j := j + 1;
      }
      assert list[..j] == list;
      assert neos.dates[..i + 1][..i] == neos.dates[..i];
      i := i + 1;
    }
    assert neos.dates[..i] == neos.dates;
  }

  /** `filteredAndSortedNeos`: flatten by pushing pair after pair, keep only the
      hazardous objects when asked, and sort by `sortBy`. */
  method FilteredAndSorted(neos: Buckets, hazardousOnly: bool, sortBy: SortOption, nameCmp: (string, string) -> int)
    returns (view: seq<Entry>)
    requires Wf(neos)
    requires ConsistentNameOrder(nameCmp)
    ensures forall e :: multiset(view)[e] == if hazardousOnly && !e.neo.hazardous then 0 else Occurrences(neos, e)
    ensures |view| == Count(neos, hazardousOnly)
    ensures SortedBy(sortBy, nameCmp, view)
    ensures sortBy == DateAsc ==> forall i, j :: 0 <= i < j < |view| ==> view[i].date <= view[j].date
    ensures sortBy == DateDesc ==> forall i, j :: 0 <= i < j < |view| ==> view[i].date >= view[j].date
    ensures sortBy == NameAsc ==> forall i, j :: 0 <= i < j < |view| ==> nameCmp(view[i].neo.name, view[j].neo.name) <= 0
    ensures sortBy == NameDesc ==> forall i, j :: 0 <= i < j < |view| ==> nameCmp(view[j].neo.name, view[i].neo.name) <= 0
    ensures sortBy == SizeAsc ==> forall i, j :: 0 <= i < j < |view| ==> MeanDiameter(view[i].neo) <= MeanDiameter(view[j].neo)
    ensures sortBy == SizeDesc ==> forall i, j :: 0 <= i < j < |view| ==> MeanDiameter(view[i].neo) >= MeanDiameter(view[j].neo)
  {
    var all := FlattenEntries(neos);
    if hazardousOnly {
      all := HazardousOnly(all);
    }
    assert all == Filtered(Flatten(neos), hazardousOnly);
    var arr := new Entry[|all|](k requires 0 <= k < |all| => all[k]);
    assert arr[..] == all;
    SortEntries(arr, sortBy, nameCmp);
    view := arr[..];
    PermutedFiltered(neos, hazardousOnly, view);
    SortedByMeaning(sortBy, nameCmp, view);
  }

  /** Any permutation of the filtered flattening holds each kept pair as often as
      the collection does, and has the kept count as its length. */
  lemma PermutedFiltered(neos: Buckets, hazardousOnly: bool, view: seq<Entry>)
    requires Wf(neos)
    requires multiset(view) == multiset(Filtered(Flatten(neos), hazardousOnly))
    ensures forall e :: multiset(view)[e] == if hazardousOnly && !e.neo.hazardous then 0 else Occurrences(neos, e)
    ensures |view| == Count(neos, hazardousOnly)
  {
    var all := Filtered(Flatten(neos), hazardousOnly);
    assert |view| == |all| by {
      assert |multiset(view)| == |multiset(all)|;
    }
    FilteredOccurrences(neos, hazardousOnly);
    FilteredLength(neos, hazardousOnly);
  }

  /** The list the view sorts holds every kept pair of the collection, as often as it occurs. */
  lemma FilteredOccurrences(neos: Buckets, hazardousOnly: bool)
    requires Wf(neos)
    ensures forall e :: multiset(Filtered(Flatten(neos), hazardousOnly))[e] ==
                        if hazardousOnly && !e.neo.hazardous then 0 else Occurrences(neos, e)
  {
    FlattenOccurrences(neos);
    HazardousOnlyOccurrences(Flatten(neos));
  }

  /** What each rule's sortedness says about dates, names and sizes. */
  lemma SortedByMeaning(opt: SortOption, nameCmp: (string, string) -> int, s: seq<Entry>)
    requires SortedBy(opt, nameCmp, s)
    ensures opt == DateAsc ==> forall i, j :: 0 <= i < j < |s| ==> s[i].date <= s[j].date
    ensures opt == DateDesc ==> forall i, j :: 0 <= i < j < |s| ==> s[i].date >= s[j].date
    ensures opt == NameAsc ==> forall i, j :: 0 <= i < j < |s| ==> nameCmp(s[i].neo.name, s[j].neo.name) <= 0
    ensures opt == NameDesc ==> forall i, j :: 0 <= i < j < |s| ==> nameCmp(s[j].neo.name, s[i].neo.name) <= 0
    ensures opt == SizeAsc ==> forall i, j :: 0 <= i < j < |s| ==> MeanDiameter(s[i].neo) <= MeanDiameter(s[j].neo)
    ensures opt == SizeDesc ==> forall i, j :: 0 <= i < j < |s| ==> MeanDiameter(s[i].neo) >= MeanDiameter(s[j].neo)
  {
    forall i, j | 0 <= i < j < |s|
      ensures opt == DateAsc ==> s[i].date <= s[j].date
      ensures opt == DateDesc ==> s[i].date >= s[j].date
    {
      assert InOrder(opt, nameCmp, s[i], s[j]);
    }
  }

  // ---------------------------------------------------------------------------
  // Relations between the sort orders

  /** The descending rule of each pair, and back. */
  function Flip(opt: SortOption): SortOption {
    match opt
    case DateAsc => DateDesc
    case DateDesc => DateAsc
    case NameAsc => NameDesc
    case NameDesc => NameAsc
    case SizeAsc => SizeDesc
    case SizeDesc => SizeAsc
  }

  function Reversed(s: seq<Entry>): (r: seq<Entry>)
    ensures |r| == |s|
    ensures forall k :: 0 <= k < |s| ==> r[k] == s[|s| - 1 - k]
  {
    seq(|s|, k requires 0 <= k < |s| => s[|s| - 1 - k])
  }

  /** Each descending rule sorts exactly the reversals of what its ascending rule sorts. */
  lemma FlipSortsReversed(opt: SortOption, nameCmp: (string, string) -> int, s: seq<Entry>)
    ensures SortedBy(Flip(opt), nameCmp, s) <==> SortedBy(opt, nameCmp, Reversed(s))
  {
    var r := Reversed(s);
    var n := |s|;
    if SortedBy(Flip(opt), nameCmp, s) {
      forall i, j | 0 <= i < j < n ensures InOrder(opt, nameCmp, r[i], r[j]) {
        assert InOrder(Flip(opt), nameCmp, s[n - 1 - j], s[n - 1 - i]);
      }
    }
    if SortedBy(opt, nameCmp, r) {
      forall i, j | 0 <= i < j < n ensures InOrder(Flip(opt), nameCmp, s[i], s[j]) {
        assert InOrder(opt, nameCmp, r[n - 1 - j], r[n - 1 - i]);
      }
    }
  }

  /** No two entries share a mean diameter. */
  ghost predicate DistinctMeans(s: seq<Entry>) {
    forall i, j :: 0 <= i < j < |s| ==> MeanDiameter(s[i].neo) != MeanDiameter(s[j].neo)
  }

  /** The first entry of a size-sorted list has the least mean diameter. */
  lemma SizeSortedFirstLeast(nameCmp: (string, string) -> int, s: seq<Entry>, x: Entry)
    requires SortedBy(SizeAsc, nameCmp, s) && x in s
    ensures MeanDiameter(s[0].neo) <= MeanDiameter(x.neo)
  {
    var i :| 0 <= i < |s| && s[i] == x;
    if i > 0 {
      assert InOrder(SizeAsc, nameCmp, s[0], s[i]);
    }
  }

  /** Without ties, the entry with the first entry's mean diameter is the first entry. */
  lemma DistinctMeansIdentify(s: seq<Entry>, x: Entry)
    requires DistinctMeans(s) && x in s && |s| > 0
    requires MeanDiameter(x.neo) == MeanDiameter(s[0].neo)
    ensures x == s[0]
  {
    var i :| 0 <= i < |s| && s[i] == x;
  }

  /** Two size-sorted arrangements of the same entries without ties start alike. */
  lemma SizeSortedHeads(nameCmp: (string, string) -> int, s: seq<Entry>, t: seq<Entry>)
    requires |s| > 0 && multiset(s) == multiset(t)
    requires DistinctMeans(s)
    requires SortedBy(SizeAsc, nameCmp, s) && SortedBy(SizeAsc, nameCmp, t)
    ensures |t| > 0 && s[0] == t[0]
  {
    assert s[0] in multiset(s);
    assert s[0] in t;
    assert t[0] in multiset(t);
    assert t[0] in s;
    SizeSortedFirstLeast(nameCmp, s, t[0]);
    SizeSortedFirstLeast(nameCmp, t, s[0]);
    DistinctMeansIdentify(s, t[0]);
  }

  /** Without ties on the mean diameter, there is only one way to sort by size. */
  lemma {:induction false} SizeSortUnique(nameCmp: (string, string) -> int, s: seq<Entry>, t: seq<Entry>)
    requires multiset(s) == multiset(t)
    requires DistinctMeans(s)
    requires SortedBy(SizeAsc, nameCmp, s) && SortedBy(SizeAsc, nameCmp, t)
    ensures s == t
  {
    if s == [] {
      assert |t| == |multiset(t)| == 0;
    } else {
      SizeSortedHeads(nameCmp, s, t);
      assert s == [s[0]] + s[1..] && t == [t[0]] + t[1..];
      assert multiset(s) == multiset{s[0]} + multiset(s[1..]);
      assert multiset(t) == multiset{s[0]} + multiset(t[1..]);
      var s', t' := s[1..], t[1..];
      assert DistinctMeans(s') by {
        forall i, j | 0 <= i < j < |s'| ensures MeanDiameter(s'[i].neo) != MeanDiameter(s'[j].neo) {
          assert s'[i] == s[i + 1] && s'[j] == s[j + 1];
        }
      }
      assert SortedBy(SizeAsc, nameCmp, s') by {
        forall i, j | 0 <= i < j < |s'| ensures InOrder(SizeAsc, nameCmp, s'[i], s'[j]) {
          assert s'[i] == s[i + 1] && s'[j] == s[j + 1];
        }
      }
      assert SortedBy(SizeAsc, nameCmp, t') by {
        forall i, j | 0 <= i < j < |t'| ensures InOrder(SizeAsc, nameCmp, t'[i], t'[j]) {
          assert t'[i] == t[i + 1] && t'[j] == t[j + 1];
        }
      }
      assert multiset(s') == multiset(s) - multiset{s[0]};
      assert multiset(t') == multiset(t) - multiset{s[0]};
      SizeSortUnique(nameCmp, s', t');
    }
  }

  /** Without ties, sorting by size ascending and reversing is sorting by size descending. */
  lemma SizeDescIsReversedSizeAsc(nameCmp: (string, string) -> int, asc: seq<Entry>, desc: seq<Entry>)
    requires multiset(asc) == multiset(desc)
    requires DistinctMeans(asc)
    requires SortedBy(SizeAsc, nameCmp, asc) && SortedBy(SizeDesc, nameCmp, desc)
    ensures desc == Reversed(asc)
  {
    var r := Reversed(desc);
    FlipSortsReversed(SizeAsc, nameCmp, desc);
    assert multiset(r) == multiset(desc) by {
      ReversedMultiset(desc);
    }
    SizeSortUnique(nameCmp, asc, r);
    assert Reversed(r) == desc;
  }

  lemma {:induction false} ReversedMultiset(s: seq<Entry>)
    ensures multiset(Reversed(s)) == multiset(s)
  {
    if s != [] {
      var tail := s[1..];
      ReversedMultiset(tail);
      assert Reversed(s) == Reversed(tail) + [s[0]];
      assert s == [s[0]] + tail;
    }
  }

  // ---------------------------------------------------------------------------
  // Component state

  /** The component's own state: the filter, the sort rule, and the detail dialog. */
  class DisplayState {
    var hazardousFilter: bool
    var sortBy: SortOption
    var selected: Option<Neo>
    var modalOpen: bool

    /** The dialog is open exactly when an object is selected. */
    ghost predicate Valid()
      reads this
    {
      modalOpen <==> selected.Some?
    }

    constructor ()
      ensures Valid()
      ensures !hazardousFilter && sortBy == DateAsc && selected == None && !modalOpen
    {
      hazardousFilter := false;
      sortBy := DateAsc;
      selected := None;
      modalOpen := false;
    }

    method SetSortBy(opt: SortOption)
      requires Valid()
      modifies this`sortBy
      ensures Valid() && sortBy == opt
    {
      sortBy := opt;
    }

    method SetHazardousFilter(on: bool)
      requires Valid()
      modifies this`hazardousFilter
      ensures Valid() && hazardousFilter == on
    {
      hazardousFilter := on;
    }

    /** `handleViewDetails`: select the object and open the dialog. */
    method ViewDetails(neo: Neo)
      requires Valid()
      modifies this`selected, this`modalOpen
      ensures Valid() && selected == Some(neo) && modalOpen
    {
      selected := Some(neo);
      modalOpen := true;
    }

    /** `handleCloseModal`: close the dialog and clear the selection. */
    method CloseModal()
      requires Valid()
      modifies this`selected, this`modalOpen
      ensures Valid() && selected == None && !modalOpen
    {
      modalOpen := false;
      selected := None;
    }

    /** What the detail dialog shows: the selected object's detail while open, nothing otherwise. */
    function Dialog(): (r: Option<Detail>)
      reads this
      requires Valid()
      ensures r.Some? <==> modalOpen
      ensures modalOpen ==> r == DetailView(selected)
    {
      if modalOpen then DetailView(selected) else None
    }

    /** The component's output: nothing for a collection without keys, otherwise the
        filtered and sorted pairs under the current filter and sort rule. */
    method Render(neos: Buckets, nameCmp: (string, string) -> int) returns (view: Option<seq<Entry>>)
      requires Wf(neos)
      requires ConsistentNameOrder(nameCmp)
      ensures view.None? <==> neos.dates == []
      ensures view.Some? ==> SortedBy(sortBy, nameCmp, view.value)
      ensures view.Some? ==> forall e :: multiset(view.value)[e] ==
                                       if hazardousFilter && !e.neo.hazardous then 0 else Occurrences(neos, e)
    {
      var sorted := FilteredAndSorted(neos, hazardousFilter, sortBy, nameCmp);
      if |neos.dates| == 0 {
        return None;
      }
      view := Some(sorted);
    }
  }
}
