/** The signed-in home page: the aggregation store behind the results view.

    A search replaces the collection; "load more" fetches the seven days after the
    current end date and merges that page into the collection key by key. The feed
    client is a parameter `feed`, one call per handler; each handler is one atomic
    step taken once its request has completed. */
module HomePage {
  import opened NeoTypes
  import opened NeoDisplay

  const InitialLoadError: string := "Failed to load NEO data. Please try again."
  const SearchError: string := "Search failed. Please try again."
  const LoadMoreError: string := "Failed to load more data. Please try again."
  const FallbackName: string := "User"

  // ---------------------------------------------------------------------------
  // Merging a page into the collection

  /** One step of the merge loop: a date already present gets the page's list
      appended to its own; a new date is added with the page's list. */
  function MergeBucket(c: Buckets, date: Day, list: seq<Neo>): (r: Buckets)
    ensures r.lists.Keys == c.lists.Keys + {date}
    ensures r.lists[date] == ListAt(c, date) + list
    ensures forall d :: d in c.lists && d != date ==> r.lists[d] == c.lists[d]
  {
    if date in c.lists then Buckets(c.dates, c.lists[date := c.lists[date] + list])
    else Buckets(c.dates + [date], c.lists[date := list])
  }

  /** The merge loop run over `dates`, in order. */
  function MergeDates(prev: Buckets, dates: seq<Day>, lists: map<Day, seq<Neo>>): Buckets
    requires forall d :: d in dates ==> d in lists
  {
    if dates == [] then prev
    else
      var last := dates[|dates| - 1];
      assert last in dates;
      MergeBucket(MergeDates(prev, dates[..|dates| - 1], lists), last, lists[last])
  }

  /** The collection after merging `page` into `prev`. */
  function Merged(prev: Buckets, page: Buckets): (r: Buckets)
    requires Wf(page)
    ensures r.lists.Keys == prev.lists.Keys + page.lists.Keys
    ensures forall d :: d in r.lists ==> r.lists[d] == ListAt(prev, d) + ListAt(page, d)
  {
    MergeDatesLists(prev, page.dates, page.lists);
    var r := MergeDates(prev, page.dates, page.lists);
    assert forall d :: d in r.lists <==> d in prev.lists || d in page.lists;
    r
  }

  /** The list a collection holds for `d`, empty when `d` is not a key. */
  function ListAt(b: Buckets, d: Day): seq<Neo> {
    if d in b.lists then b.lists[d] else []
  }

  /** The dates of `dates` that are not yet keys of `known`, in order. */
  function NewDates(dates: seq<Day>, known: map<Day, seq<Neo>>): seq<Day> {
    if dates == [] then []
    else
      var last := dates[|dates| - 1];
      NewDates(dates[..|dates| - 1], known) + (if last in known then [] else [last])
  }

  /** `setNeos(prevNeos => ...)` in `handleLoadMore`: copy the collection, then
      update it date by date. */
  method MergePage(prev: Buckets, page: Buckets) returns (merged: Buckets)
    requires Wf(page)
    ensures merged == Merged(prev, page)
  {
    merged := prev;
    var i := 0;
    while i < |page.dates|
      invariant 0 <= i <= |page.dates|
      invariant merged == MergeDates(prev, page.dates[..i], page.lists)
    {
      var date := page.dates[i];
      var list := page.lists[date];
      if date in merged.lists {
        merged := Buckets(merged.dates, merged.lists[date := merged.lists[date] + list]);
      } else {
        merged := Buckets(merged.dates + [date], merged.lists[date := list]);
      }
      assert page.dates[..i + 1][..i] == page.dates[..i];
      i := i + 1;
    }
    assert page.dates[..i] == page.dates;
  }

  /** One merge step keeps the collection well formed. */
  lemma MergeBucketWf(c: Buckets, date: Day, list: seq<Neo>)
    requires Wf(c)
    ensures Wf(MergeBucket(c, date, list))
  {
    var m := MergeBucket(c, date, list);
    if date !in c.lists {
      forall i, j | 0 <= i < j < |m.dates| ensures m.dates[i] != m.dates[j] {
        assert m.dates[i] == c.dates[i];
        if j < |c.dates| {
          assert m.dates[j] == c.dates[j];
        }
      }
    }
  }

  lemma {:induction false} DistinctFront(dates: seq<Day>)
    requires |dates| > 0
    requires forall i, j :: 0 <= i < j < |dates| ==> dates[i] != dates[j]
    ensures dates[|dates| - 1] !in dates[..|dates| - 1]
  {
    var front := dates[..|dates| - 1];
    forall i | 0 <= i < |front| ensures front[i] != dates[|dates| - 1] {
      assert front[i] == dates[i];
    }
  }

  lemma {:induction false} MergeDatesLists(prev: Buckets, dates: seq<Day>, lists: map<Day, seq<Neo>>)
    requires forall d :: d in dates ==> d in lists
    requires forall i, j :: 0 <= i < j < |dates| ==> dates[i] != dates[j]
    ensures forall d :: d in MergeDates(prev, dates, lists).lists <==> d in prev.lists || d in dates
    ensures forall d :: d in MergeDates(prev, dates, lists).lists ==>
      MergeDates(prev, dates, lists).lists[d] == ListAt(prev, d) + (if d in dates then lists[d] else [])
  {
    if dates == [] {
      forall d | d in prev.lists ensures prev.lists[d] == ListAt(prev, d) + [] { }
    } else {
      var front, last := dates[..|dates| - 1], dates[|dates| - 1];
      assert dates == front + [last];
      DistinctFront(dates);
      MergeDatesLists(prev, front, lists);
      var m0 := MergeDates(prev, front, lists);
      var m := MergeBucket(m0, last, lists[last]);
      assert MergeDates(prev, dates, lists) == m;
      forall d | d in m.lists
        ensures m.lists[d] == ListAt(prev, d) + (if d in dates then lists[d] else [])
      {
        if d == last {
          assert ListAt(m0, d) == ListAt(prev, d);
        } else {
          assert d in dates <==> d in front;
        }
      }
    }
  }

  lemma {:induction false} MergeDatesOrder(prev: Buckets, dates: seq<Day>, lists: map<Day, seq<Neo>>)
    requires Wf(prev)
    requires forall d :: d in dates ==> d in lists
    requires forall i, j :: 0 <= i < j < |dates| ==> dates[i] != dates[j]
    ensures Wf(MergeDates(prev, dates, lists))
    ensures MergeDates(prev, dates, lists).dates == prev.dates + NewDates(dates, prev.lists)
  {
    if dates != [] {
      var front, last := dates[..|dates| - 1], dates[|dates| - 1];
      assert dates == front + [last];
      DistinctFront(dates);
      MergeDatesOrder(prev, front, lists);
      MergeDatesLists(prev, front, lists);
      var m0 := MergeDates(prev, front, lists);
      MergeBucketWf(m0, last, lists[last]);
      assert last in m0.lists <==> last in prev.lists;
    }
  }

  /** Merging a page: shared dates get the page's list after their own, new dates
      get the page's list, other dates keep theirs; the keys are the union of both
      key sets, and the existing keys keep their place at the front. */
  lemma MergedBuckets(prev: Buckets, page: Buckets)
    requires Wf(prev) && Wf(page)
    ensures Wf(Merged(prev, page))
    ensures Merged(prev, page).lists.Keys == prev.lists.Keys + page.lists.Keys
    ensures forall d :: d in prev.lists && d in page.lists ==>
      Merged(prev, page).lists[d] == prev.lists[d] + page.lists[d]
    ensures forall d :: d !in prev.lists && d in page.lists ==>
      Merged(prev, page).lists[d] == page.lists[d]
    ensures forall d :: d in prev.lists && d !in page.lists ==>
      Merged(prev, page).lists[d] == prev.lists[d]
    ensures Merged(prev, page).dates == prev.dates + NewDates(page.dates, prev.lists)
  {
    MergeDatesLists(prev, page.dates, page.lists);
    MergeDatesOrder(prev, page.dates, page.lists);
    var m := Merged(prev, page);
    forall d ensures d in m.lists.Keys <==> d in prev.lists.Keys + page.lists.Keys {
      assert d in page.lists <==> d in page.dates;
    }
  }

  lemma {:induction false} NewDatesAllNew(dates: seq<Day>, known: map<Day, seq<Neo>>)
    requires forall d :: d in dates ==> d !in known
    ensures NewDates(dates, known) == dates
  {
    if dates != [] {
      var front := dates[..|dates| - 1];
      assert dates[|dates| - 1] in dates;
      NewDatesAllNew(front, known);
    }
  }

  /** Pages over disjoint dates merge into their plain union, the page's dates after the existing ones. */
  lemma MergeDisjoint(prev: Buckets, page: Buckets)
    requires Wf(prev) && Wf(page)
    requires prev.lists.Keys !! page.lists.Keys
    ensures Merged(prev, page) == Buckets(prev.dates + page.dates, prev.lists + page.lists)
  {
    MergedBuckets(prev, page);
    NewDatesAllNew(page.dates, prev.lists);
    var m := Merged(prev, page);
    forall d | d in m.lists ensures m.lists[d] == (prev.lists + page.lists)[d] {
      if d in page.lists {
        assert d !in prev.lists;
      }
    }
    assert m.lists == prev.lists + page.lists;
  }

  /** Each date's merged list holds every object of both inputs' lists for that date. */
  lemma MergedOccurrences(prev: Buckets, page: Buckets)
    requires Wf(prev) && Wf(page)
    ensures forall e :: Occurrences(Merged(prev, page), e) == Occurrences(prev, e) + Occurrences(page, e)
  {
    var m := Merged(prev, page);
    MergeDatesLists(prev, page.dates, page.lists);
    forall e ensures Occurrences(m, e) == Occurrences(prev, e) + Occurrences(page, e) {
      var d := e.date;
      if d in m.lists {
        assert m.lists[d] == ListAt(prev, d) + ListAt(page, d);
        assert multiset(m.lists[d]) == multiset(ListAt(prev, d)) + multiset(ListAt(page, d));
      }
    }
  }

  /** Nothing is lost or de-duplicated: the merged collection's pairs are those of both
      inputs together. */
  lemma MergedPairs(prev: Buckets, page: Buckets)
    requires Wf(prev) && Wf(page)
    ensures Wf(Merged(prev, page))
    ensures multiset(Flatten(Merged(prev, page))) == multiset(Flatten(prev)) + multiset(Flatten(page))
  {
    var m := Merged(prev, page);
    MergedBuckets(prev, page);
    MergedOccurrences(prev, page);
    FlattenOccurrences(m);
    FlattenOccurrences(prev);
    FlattenOccurrences(page);
    forall e ensures multiset(Flatten(m))[e] == (multiset(Flatten(prev)) + multiset(Flatten(page)))[e] {
      assert Occurrences(m, e) == Occurrences(prev, e) + Occurrences(page, e);
    }
  }

  /** The merged collection holds as many entries as both inputs together. */
  lemma MergedCount(prev: Buckets, page: Buckets)
    requires Wf(prev) && Wf(page)
    ensures Wf(Merged(prev, page))
    ensures Count(Merged(prev, page), false) == Count(prev, false) + Count(page, false)
  {
    var m := Merged(prev, page);
    MergedPairs(prev, page);
    FilteredLength(m, false);
    FilteredLength(prev, false);
    FilteredLength(page, false);
    assert |Flatten(m)| == |multiset(Flatten(m))|;
  }

  /** Loading the same page twice duplicates every one of its entries. */
  lemma MergeSelfDuplicates(c: Buckets)
    requires Wf(c)
    ensures Wf(Merged(c, c))
    ensures Merged(c, c).lists.Keys == c.lists.Keys
    ensures forall d :: d in c.lists ==> Merged(c, c).lists[d] == c.lists[d] + c.lists[d]
    ensures Count(Merged(c, c), false) == 2 * Count(c, false)
  {
    MergedBuckets(c, c);
    MergedCount(c, c);
  }

  // ---------------------------------------------------------------------------
  // Windows and end dates

  /** The window "load more" requests: from the day after the current end date to
      seven days after it. */
  function LoadMoreWindow(currentEnd: Instant, tz: int): (w: Window)
    ensures w.start == LocalDay(currentEnd, tz) + 1
    ensures w.end == LocalDay(currentEnd, tz) + 7
    ensures w.start <= w.end
  {
    Window(LocalDay(AddDays(currentEnd, 1), tz), LocalDay(AddDays(currentEnd, 7), tz))
  }

  /** Successive load-more windows tile the calendar: each starts the day after the
      previous one ended. */
  lemma LoadMoreWindowsContiguous(currentEnd: Instant, tz: int)
    ensures LoadMoreWindow(AddDays(currentEnd, 7), tz).start == LoadMoreWindow(currentEnd, tz).end + 1
  {
  }

  /** `new Date(endDate)` as written: a date-only ISO string is read as UTC midnight,
      which formats back to the same day only east of UTC (or on it). */
  function SearchEndAsWritten(endDate: Day): (t: Instant)
    ensures forall tz :: 0 <= tz < MsPerDay ==> LocalDay(t, tz) == endDate
    ensures forall tz :: -MsPerDay <= tz < 0 ==> LocalDay(t, tz) == endDate - 1
  {
    endDate * MsPerDay
  }

  /** West of UTC, the load-more window after a search starts on the searched end
      date itself, so that date is fetched twice. */
  lemma SearchEndAsWrittenOverlaps(endDate: Day, tz: int)
    requires -MsPerDay < tz < 0
    ensures LoadMoreWindow(SearchEndAsWritten(endDate), tz).start == endDate
  {
    assert LocalDay(SearchEndAsWritten(endDate), tz) == endDate - 1;
  }

  /** East of UTC (or on it), the as-written end date gives the intended window. */
  lemma SearchEndAsWrittenEast(endDate: Day, tz: int)
    requires 0 <= tz < MsPerDay
    ensures LoadMoreWindow(SearchEndAsWritten(endDate), tz).start == endDate + 1
  {
    assert LocalDay(SearchEndAsWritten(endDate), tz) == endDate;
  }

  /** The searched end date read in local time, as the load-more arithmetic expects. */
  function SearchEnd(endDate: Day, tz: int): (t: Instant)
    ensures LocalDay(t, tz) == endDate
    ensures LoadMoreWindow(t, tz).start == endDate + 1
  {
    LocalMidnight(endDate, tz)
  }

  // ---------------------------------------------------------------------------
  // The signed-in user's name

  /** The profile fields the greeting may use. */
  datatype UserInfo = UserInfo(fullName: Option<string>, name: Option<string>, email: Option<string>)

  /** A field counts as present when it is set and not the empty string (JavaScript `||`). */
  predicate Present(field: Option<string>) {
    field.Some? && field.value != ""
  }

  /** `full_name || name || email || "User"`: never empty. */
  function DisplayName(u: UserInfo): (r: string)
    ensures r != ""
    ensures Present(u.fullName) ==> r == u.fullName.value
    ensures !Present(u.fullName) && Present(u.name) ==> r == u.name.value
    ensures !Present(u.fullName) && !Present(u.name) && Present(u.email) ==> r == u.email.value
    ensures !Present(u.fullName) && !Present(u.name) && !Present(u.email) ==> r == FallbackName
  {
    if Present(u.fullName) then u.fullName.value
    else if Present(u.name) then u.name.value
    else if Present(u.email) then u.email.value
    else FallbackName
  }

  // ---------------------------------------------------------------------------
  // Page state

  /** Every page the feed returns is a well-formed collection (a JSON object has distinct keys). */
  ghost predicate WellFormedFeed(feed: Window -> FeedResult) {
    forall w :: feed(w).Fetched? ==> Wf(feed(w).page)
  }

  class Home {
    /** Offset of the browser's local time from UTC, in milliseconds. */
    const tz: int
    var username: string
    var searchLoading: bool
    var neos: Buckets
    var currentEndDate: Instant
    var error: Option<string>

    ghost predicate Valid()
      reads this
    {
      Wf(neos)
    }

    /** Initial state: no objects, the end date a week from now. */
    constructor (now: Instant, tz: int)
      ensures Valid() && this.tz == tz
      ensures username == "" && !searchLoading && neos == Empty && error == None
      ensures currentEndDate == AddDays(now, 7)
    {
      this.tz := tz;
      username := "";
      searchLoading := false;
      neos := Empty;
      currentEndDate := AddDays(now, 7);
      error := None;
    }

    /** The data part of `checkAuth` once a session exists: greet the user and load
        from today to the current end date, replacing the collection. */
    method InitialLoad(now: Instant, user: UserInfo, feed: Window -> FeedResult)
      requires Valid() && WellFormedFeed(feed)
      modifies this`username, this`neos, this`error, this`searchLoading
      ensures Valid() && !searchLoading
      ensures username == DisplayName(user)
      ensures feed(Window(LocalDay(now, tz), LocalDay(currentEndDate, tz))).Fetched? ==>
        neos == feed(Window(LocalDay(now, tz), LocalDay(currentEndDate, tz))).page && error == old(error)
      ensures feed(Window(LocalDay(now, tz), LocalDay(currentEndDate, tz))).FetchFailed? ==>
        neos == old(neos) && error == Some(InitialLoadError)
    {
      username := DisplayName(user);
      searchLoading := true;
      var response := feed(Window(LocalDay(now, tz), LocalDay(currentEndDate, tz)));
      match response {
        case Fetched(page) =>
          neos := page;
        case FetchFailed =>
          error := Some(InitialLoadError);
      }
      searchLoading := false;
    }

    /** `handleSearch`: clear the error, fetch the window; on success replace the
        collection and store the searched end date (read as UTC midnight), on
        failure keep both and report. */
    method Search(startDate: Day, endDate: Day, feed: Window -> FeedResult)
      requires Valid() && WellFormedFeed(feed)
      modifies this`neos, this`currentEndDate, this`error, this`searchLoading
      ensures Valid() && !searchLoading
      ensures feed(Window(startDate, endDate)).Fetched? ==>
        && neos == feed(Window(startDate, endDate)).page
        && currentEndDate == SearchEndAsWritten(endDate)
        && (0 <= tz < MsPerDay ==> LocalDay(currentEndDate, tz) == endDate)
        && (-MsPerDay <= tz < 0 ==> LocalDay(currentEndDate, tz) == endDate - 1)
        && error == None
      ensures feed(Window(startDate, endDate)).FetchFailed? ==>
        neos == old(neos) && currentEndDate == old(currentEndDate) && error == Some(SearchError)
    {
      searchLoading := true;
      error := None;
      var response := feed(Window(startDate, endDate));
      match response {
        case Fetched(page) =>
          neos := page;
          currentEndDate := SearchEndAsWritten(endDate);
        case FetchFailed =>
          error := Some(SearchError);
      }
      searchLoading := false;
    }

    /** `handleLoadMore`: fetch the week after the current end date; on success merge
        it in and advance the end date by seven days, on failure keep both and report. */
    method LoadMore(feed: Window -> FeedResult) returns (requested: Window)
      requires Valid() && WellFormedFeed(feed)
      modifies this`neos, this`currentEndDate, this`error, this`searchLoading
      ensures Valid() && !searchLoading
      ensures requested == LoadMoreWindow(old(currentEndDate), tz)
      ensures requested.start == LocalDay(old(currentEndDate), tz) + 1
      ensures feed(requested).Fetched? ==>
        && neos == Merged(old(neos), feed(requested).page)
        && currentEndDate == AddDays(old(currentEndDate), 7)
        && error == old(error)
      ensures feed(requested).FetchFailed? ==>
        neos == old(neos) && currentEndDate == old(currentEndDate) && error == Some(LoadMoreError)
    {
      searchLoading := true;
      var newEndDate := AddDays(currentEndDate, 7);
      requested := Window(LocalDay(AddDays(currentEndDate, 1), tz), LocalDay(newEndDate, tz));
      var response := feed(requested);
      match response {
        case Fetched(page) =>
          neos := MergePage(neos, page);
          MergedBuckets(old(neos), page);
          currentEndDate := newEndDate;
        case FetchFailed =>
          error := Some(LoadMoreError);
      }
      searchLoading := false;
    }

    /** Closing the error banner. */
    method DismissError()
      modifies this`error
      ensures error == None
    {
      error := None;
    }
  }

  // ---------------------------------------------------------------------------
  // Handlers as the page runs them

  /** West of UTC, the load-more after a successful search requests a window that
      starts on the searched end date, which the search already fetched. */
  method SearchThenLoadMore(h: Home, startDate: Day, endDate: Day, feed: Window -> FeedResult)
    returns (requested: Window)
    requires h.Valid() && WellFormedFeed(feed)
    modifies h
    ensures h.Valid()
    ensures feed(Window(startDate, endDate)).Fetched? && -MsPerDay < h.tz < 0 ==> requested.start == endDate
    ensures feed(Window(startDate, endDate)).Fetched? && 0 <= h.tz < MsPerDay ==> requested.start == endDate + 1
  {
    h.Search(startDate, endDate, feed);
    requested := h.LoadMore(feed);
    if feed(Window(startDate, endDate)).Fetched? {
      if -MsPerDay < h.tz < 0 {
        SearchEndAsWrittenOverlaps(endDate, h.tz);
      } else if 0 <= h.tz < MsPerDay {
        SearchEndAsWrittenEast(endDate, h.tz);
      }
    }
  }

  /** A search as the page runs it. A successful search stores a new end date
      object; the initial-load callback depends on it, so the effect that runs that
      callback fires again and reloads from today to the new end date, replacing
      the searched collection. */
  method SearchAndReload(h: Home, now: Instant, user: UserInfo, startDate: Day, endDate: Day,
                         feed: Window -> FeedResult)
    returns (reload: Option<Window>)
    requires h.Valid() && WellFormedFeed(feed)
    modifies h
    ensures h.Valid() && !h.searchLoading
    ensures feed(Window(startDate, endDate)).FetchFailed? ==>
      reload == None && h.neos == old(h.neos) && h.error == Some(SearchError)
    ensures feed(Window(startDate, endDate)).Fetched? ==>
      reload == Some(Window(LocalDay(now, h.tz), LocalDay(SearchEndAsWritten(endDate), h.tz)))
    ensures reload.Some? && feed(reload.value).Fetched? ==> h.neos == feed(reload.value).page
    ensures reload.Some? && feed(reload.value).FetchFailed? ==>
      h.neos == feed(Window(startDate, endDate)).page && h.error == Some(InitialLoadError)
  {
    h.Search(startDate, endDate, feed);
    if feed(Window(startDate, endDate)).FetchFailed? {
      return None;
    }
    reload := Some(Window(LocalDay(now, h.tz), LocalDay(h.currentEndDate, h.tz)));
    h.InitialLoad(now, user, feed);
  }

  /** A load-more as the page runs it: on success the end date changes, and the same
      effect reloads from today to the new end date, replacing the merged collection. */
  method LoadMoreAndReload(h: Home, now: Instant, user: UserInfo, feed: Window -> FeedResult)
    returns (requested: Window, reload: Option<Window>)
    requires h.Valid() && WellFormedFeed(feed)
    modifies h
    ensures h.Valid() && !h.searchLoading
    ensures requested == LoadMoreWindow(old(h.currentEndDate), h.tz)
    ensures feed(requested).FetchFailed? ==> reload == None && h.neos == old(h.neos)
    ensures feed(requested).Fetched? ==>
      reload == Some(Window(LocalDay(now, h.tz), LocalDay(AddDays(old(h.currentEndDate), 7), h.tz)))
    ensures reload.Some? && feed(reload.value).Fetched? ==> h.neos == feed(reload.value).page
    ensures reload.Some? && feed(reload.value).FetchFailed? ==>
      h.neos == Merged(old(h.neos), feed(requested).page) && h.error == Some(InitialLoadError)
  {
    requested := h.LoadMore(feed);
    if feed(requested).FetchFailed? {
      return requested, None;
    }
    reload := Some(Window(LocalDay(now, h.tz), LocalDay(h.currentEndDate, h.tz)));
    h.InitialLoad(now, user, feed);
  }
}
