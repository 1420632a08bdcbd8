/**
 * The events list page: the fetched events narrowed by a search term and by
 * status, category and creation-date filters, sorted by a chosen column, and
 * shown ten to a page.
 */
module EventsList {
  import opened Options
  import opened JsStrings
  import opened Seqs
  import opened Sorting
  import opened Paging

  /** An event row; every column shown in the table is text, `createdAt` is a timestamp in milliseconds. */
  datatype Event = Event(
    id: string, title: string, sellingPeriod: string, ticketsAvailable: string, price: string,
    status: string, category: string, eventType: string, venue: string, createdAt: int)

  /** The columns a header click can sort by. */
  datatype SortKey = Id | Title | SellingPeriod | TicketsAvailable | Price | Status

  datatype SortConfig = SortConfig(key: SortKey, direction: Direction)

  datatype Filters = Filters(status: string, dateRange: string, category: string)

  const AllFilters := Filters("all", "all", "all")
  const InitialSort := SortConfig(Id, Ascending)
  const EventsPageSize: nat := 10
  /** Milliseconds in a day. */
  const Day := 86400000

  /** `event[sortConfig.key]`. */
  function KeyOf(key: SortKey): Event -> string {
    (e: Event) =>
      match key
      case Id => e.id
      case Title => e.title
      case SellingPeriod => e.sellingPeriod
      case TicketsAvailable => e.ticketsAvailable
      case Price => e.price
      case Status => e.status
  }

  /** The title contains the term ignoring case, or the id contains it exactly. */
  predicate MatchesSearch(e: Event, term: string) {
    Includes(ToLower(e.title), ToLower(term)) || Includes(e.id, term)
  }

  /** An empty term keeps every event. */
  function BySearch(events: seq<Event>, term: string): seq<Event> {
    if term == [] then events else Filter(events, (e: Event) => MatchesSearch(e, term))
  }

  function ByStatus(events: seq<Event>, status: string): seq<Event> {
    if status == "all" then events else Filter(events, (e: Event) => e.status == status)
  }

  function ByCategory(events: seq<Event>, category: string): seq<Event> {
    if category == "all" then events else Filter(events, (e: Event) => e.category == category)
  }

  /**
   * The earliest creation time a date-range choice keeps, as the page computes
   * it: the 90-day step is taken from a clock the 30-day step has already
   * moved back, so "last90days" reaches back 120 days. The page filters with
   * this cutoff; `Cutoff` below is the evidently intended one.
   */
  function CutoffAsWritten(range: string, now: int): (r: Option<int>)
    ensures range == "last30days" ==> r == Some(now - 30 * Day)
    ensures range == "last90days" ==> r == Some(now - 120 * Day)
    ensures range != "last30days" && range != "last90days" ==> r == None
  {
    var thirtyDaysAgo := now - 30 * Day;
    var ninetyDaysAgo := thirtyDaysAgo - 90 * Day;
    if range == "last30days" then Some(thirtyDaysAgo)
    else if range == "last90days" then Some(ninetyDaysAgo)
    else None
  }

  /** The evidently intended cutoff: each range measured from `now`. */
  function Cutoff(range: string, now: int): (r: Option<int>)
    ensures range == "last30days" ==> r == Some(now - 30 * Day)
    ensures range == "last90days" ==> r == Some(now - 90 * Day)
    ensures range != "last30days" && range != "last90days" ==> r == None
  {
    if range == "last30days" then Some(now - 30 * Day)
    else if range == "last90days" then Some(now - 90 * Day)
    else None
  }

  predicate CreatedSince(e: Event, cutoff: Option<int>) {
    cutoff.None? || e.createdAt >= cutoff.value
  }

  function ByDate(events: seq<Event>, range: string, now: int): seq<Event> {
    if range == "all" then events else Filter(events, (e: Event) => CreatedSince(e, CutoffAsWritten(range, now)))
  }

  /** The four filters, in the order the page applies them. */
  function Filtered(events: seq<Event>, term: string, filters: Filters, now: int): seq<Event> {
    ByDate(ByCategory(ByStatus(BySearch(events, term), filters.status), filters.category), filters.dateRange, now)
  }

  /** Whether one event passes all four filters. */
  predicate Keep(e: Event, term: string, filters: Filters, now: int) {
    (term == [] || MatchesSearch(e, term))
    && (filters.status == "all" || e.status == filters.status)
    && (filters.category == "all" || e.category == filters.category)
    && CreatedSince(e, CutoffAsWritten(filters.dateRange, now))
  }

  /** The filtered list, sorted by the configured column and direction. */
  function Pipeline(events: seq<Event>, term: string, filters: Filters, sort: SortConfig, now: int): seq<Event> {
    SortBy(Filtered(events, term, filters, now), KeyOf(sort.key), sort.direction)
  }

  /** The search as a test of one event. */
  function SearchPass(term: string): Event -> bool {
    (e: Event) => term == [] || MatchesSearch(e, term)
  }

  function StatusPass(status: string): Event -> bool {
    (e: Event) => status == "all" || e.status == status
  }

  function CategoryPass(category: string): Event -> bool {
    (e: Event) => category == "all" || e.category == category
  }

  function DatePass(range: string, now: int): Event -> bool {
    (e: Event) => CreatedSince(e, CutoffAsWritten(range, now))
  }

  /** Each filter of the page keeps exactly the events that pass its test. */
  lemma FiltersAreFilters(events: seq<Event>, term: string, status: string, category: string, range: string, now: int)
    ensures BySearch(events, term) == Filter(events, SearchPass(term))
    ensures ByStatus(events, status) == Filter(events, StatusPass(status))
    ensures ByCategory(events, category) == Filter(events, CategoryPass(category))
    ensures ByDate(events, range, now) == Filter(events, DatePass(range, now))
  {
    if term == [] {
      FilterAll(events, SearchPass(term));
    } else {
      FilterFilter(events, SearchPass(term), SearchPass(term), (e: Event) => MatchesSearch(e, term));
      FilterFilter(events, SearchPass(term), SearchPass(term), SearchPass(term));
    }
    if status == "all" {
      FilterAll(events, StatusPass(status));
    } else {
      FilterFilter(events, StatusPass(status), StatusPass(status), (e: Event) => e.status == status);
      FilterFilter(events, StatusPass(status), StatusPass(status), StatusPass(status));
    }
    if category == "all" {
      FilterAll(events, CategoryPass(category));
    } else {
      FilterFilter(events, CategoryPass(category), CategoryPass(category), (e: Event) => e.category == category);
      FilterFilter(events, CategoryPass(category), CategoryPass(category), CategoryPass(category));
    }
    if range == "all" {
      FilterAll(events, DatePass(range, now));
    }
  }

  /** The four filters in a row keep exactly the events that pass each one, in their original order. */
  lemma FilteredIsOneFilter(events: seq<Event>, term: string, filters: Filters, now: int)
    ensures Filtered(events, term, filters, now) == Filter(events, (e: Event) => Keep(e, term, filters, now))
  {
    var p1, p2 := SearchPass(term), StatusPass(filters.status);
    var p3, p4 := CategoryPass(filters.category), DatePass(filters.dateRange, now);
    var s1 := BySearch(events, term);
    var s2 := ByStatus(s1, filters.status);
    var s3 := ByCategory(s2, filters.category);
    FiltersAreFilters(events, term, filters.status, filters.category, filters.dateRange, now);
    FiltersAreFilters(s1, term, filters.status, filters.category, filters.dateRange, now);
    FiltersAreFilters(s2, term, filters.status, filters.category, filters.dateRange, now);
    FiltersAreFilters(s3, term, filters.status, filters.category, filters.dateRange, now);
    var q12 := (e: Event) => p1(e) && p2(e);
    FilterFilter(events, p1, p2, q12);
    var q123 := (e: Event) => q12(e) && p3(e);
    FilterFilter(events, q12, p3, q123);
    FilterFilter(events, q123, p4, (e: Event) => Keep(e, term, filters, now));
  }

  /**
   * The page shows exactly the fetched events that pass every filter, each
   * once per occurrence, ordered by the chosen column and, among equal keys,
   * in fetched order.
   */
  lemma PipelineSpec(events: seq<Event>, term: string, filters: Filters, sort: SortConfig, now: int)
    ensures var r := Pipeline(events, term, filters, sort, now);
      && SortedBy(r, KeyOf(sort.key), sort.direction)
      && multiset(r) == multiset(Filter(events, (e: Event) => Keep(e, term, filters, now)))
      && (forall e :: e in r <==> e in events && Keep(e, term, filters, now))
      && forall v :: Filter(r, HasKey(KeyOf(sort.key), v)) == Filter(Filter(events, (e: Event) => Keep(e, term, filters, now)), HasKey(KeyOf(sort.key), v))
  {
    var f := Filtered(events, term, filters, now);
    FilteredIsOneFilter(events, term, filters, now);
    SortBySorted(f, KeyOf(sort.key), sort.direction);
    SortByPermutation(f, KeyOf(sort.key), sort.direction);
    var r := Pipeline(events, term, filters, sort, now);
    forall e
      ensures e in r <==> e in f
    {
      assert e in r <==> e in multiset(r);
      assert e in f <==> e in multiset(f);
    }
    forall v
      ensures Filter(r, HasKey(KeyOf(sort.key), v)) == Filter(f, HasKey(KeyOf(sort.key), v))
    {
      SortByStable(f, KeyOf(sort.key), sort.direction, v);
    }
  }

  /** Before sorting, the filtered list is a subsequence of the fetched events. */
  lemma FilteredSubseq(events: seq<Event>, term: string, filters: Filters, now: int)
    ensures Subseq(Filtered(events, term, filters, now), events)
  {
    FilteredIsOneFilter(events, term, filters, now);
    FilterSubseq(events, (e: Event) => Keep(e, term, filters, now));
  }

  /** With every filter at "all" and no search term, every event is shown. */
  lemma NoFiltersKeepAll(events: seq<Event>, now: int)
    ensures Filtered(events, [], AllFilters, now) == events
  {
  }

  /** The corrected ranges keep exactly the events created within 30 or 90 days before `now`, and the shorter range keeps fewer. */
  lemma DateRangeWindows(e: Event, now: int)
    ensures CreatedSince(e, Cutoff("last30days", now)) <==> now - e.createdAt <= 30 * Day
    ensures CreatedSince(e, Cutoff("last90days", now)) <==> now - e.createdAt <= 90 * Day
    ensures CreatedSince(e, Cutoff("last30days", now)) ==> CreatedSince(e, Cutoff("last90days", now))
  {
  }

  /**
   * The page's own ranges: "last30days" keeps the events created within 30
   * days before `now`, "last90days" those within 120 days.
   */
  lemma DateRangeWindowsAsWritten(e: Event, now: int)
    ensures CreatedSince(e, CutoffAsWritten("last30days", now)) <==> now - e.createdAt <= 30 * Day
    ensures CreatedSince(e, CutoffAsWritten("last90days", now)) <==> now - e.createdAt <= 120 * Day
    ensures CreatedSince(e, CutoffAsWritten("last90days", now)) <==>
      CreatedSince(e, Cutoff("last90days", now)) || 90 * Day < now - e.createdAt <= 120 * Day
  {
  }

  /**
   * As written, "last90days" keeps an event created 100 days ago, which the
   * 90-day window leaves out; the page shows it.
   */
  lemma NinetyDaysAsWrittenKeepsOlder(e: Event, now: int)
    requires e.createdAt == now - 100 * Day
    ensures CutoffAsWritten("last90days", now) == Some(now - 120 * Day)
    ensures CreatedSince(e, CutoffAsWritten("last90days", now))
    ensures !CreatedSince(e, Cutoff("last90days", now))
    ensures Keep(e, [], AllFilters.(dateRange := "last90days"), now)
  {
  }

  /** A header click sorts by that column, descending only when it was already sorted ascending by it. */
  function NextSort(config: SortConfig, key: SortKey): (r: SortConfig)
    ensures r.key == key
    ensures r.direction == Descending <==> config.key == key && config.direction == Ascending
  {
    if config.key == key && config.direction == Ascending then SortConfig(key, Descending)
    else SortConfig(key, Ascending)
  }

  /** Clicking one header again and again alternates its direction after the first click. */
  lemma NextSortAlternates(config: SortConfig, key: SortKey)
    ensures NextSort(NextSort(config, key), key).direction != NextSort(config, key).direction
    ensures NextSort(NextSort(NextSort(config, key), key), key) == NextSort(config, key)
    ensures config.key != key ==> NextSort(config, key) == SortConfig(key, Ascending)
  {
  }

  /** The page number stays a real page, or is 0 or 1 while there are no pages. */
  predicate PageInRange(page: int, pages: nat) {
    if pages == 0 then 0 <= page <= 1 else 1 <= page <= pages
  }

  class EventsListPage {
    var events: seq<Event>
    var filteredEvents: seq<Event>
    var currentPage: int
    var totalPages: nat
    var searchTerm: string
    var filters: Filters
    var sortConfig: SortConfig
    const pageSize: nat
    /** The clock reading at the last run of the filtering effect. */
    ghost var refreshedAt: int

    ghost predicate Valid()
      reads this
    {
      && pageSize == EventsPageSize
      && filteredEvents == Pipeline(events, searchTerm, filters, sortConfig, refreshedAt)
      && totalPages == CeilDiv(|filteredEvents|, pageSize)
      && PageInRange(currentPage, totalPages)
    }

    /** The page as first rendered, after the filtering effect has run once on the empty list. */
    constructor(now: int)
      ensures Valid()
      ensures events == [] && searchTerm == [] && filters == AllFilters && sortConfig == InitialSort
      ensures currentPage == 1 && totalPages == 0
    {
      events, searchTerm, filters, sortConfig := [], [], AllFilters, InitialSort;
      pageSize := EventsPageSize;
      filteredEvents, totalPages, currentPage := [], 0, 1;
      refreshedAt := now;
    }

    /** The filtering effect: recompute the shown list and the page count, and go back to page 1. */
    method Refresh(now: int)
      modifies this
      requires pageSize == EventsPageSize
      ensures Valid()
      ensures filteredEvents == Pipeline(events, searchTerm, filters, sortConfig, now)
      ensures totalPages == CeilDiv(|filteredEvents|, pageSize) && currentPage == 1
      ensures events == old(events) && searchTerm == old(searchTerm)
      ensures filters == old(filters) && sortConfig == old(sortConfig)
      ensures refreshedAt == now
    {
      filteredEvents := Pipeline(events, searchTerm, filters, sortConfig, now);
      totalPages := CeilDiv(|filteredEvents|, pageSize);
      currentPage := 1;
      refreshedAt := now;
    }

    /** The fetched events arrive; the effect then filters them. */
    method Load(fetched: seq<Event>, now: int)
      modifies this
      requires Valid()
      ensures Valid()
      ensures events == fetched && filteredEvents == Pipeline(fetched, searchTerm, filters, sortConfig, now)
      ensures currentPage == 1
      ensures searchTerm == old(searchTerm) && filters == old(filters) && sortConfig == old(sortConfig)
    {
      events := fetched;
      Refresh(now);
    }

    /**
     * The debounced search callback: sets the term and goes to page 1; the
     * list is recomputed only when the term actually changed.
     */
    method Search(term: string, now: int)
      modifies this
      requires Valid()
      ensures Valid()
      ensures searchTerm == term && currentPage == 1
      ensures events == old(events) && filters == old(filters) && sortConfig == old(sortConfig)
      ensures term != old(searchTerm) ==> filteredEvents == Pipeline(events, term, filters, sortConfig, now)
      ensures term == old(searchTerm) ==> filteredEvents == old(filteredEvents)
    {
      if term != searchTerm {
        searchTerm := term;
        Refresh(now);
      } else {
        currentPage := 1;
      }
    }

    /** Choosing a status in the filter dialog. */
    method SetStatusFilter(status: string, now: int)
      modifies this
      requires Valid()
      ensures Valid()
      ensures filters == old(filters).(status := status)
      ensures filteredEvents == Pipeline(events, searchTerm, filters, sortConfig, now) && currentPage == 1
      ensures events == old(events) && searchTerm == old(searchTerm) && sortConfig == old(sortConfig)
    {
      filters := filters.(status := status);
      Refresh(now);
    }

    /** Choosing a category in the filter dialog. */
    method SetCategoryFilter(category: string, now: int)
      modifies this
      requires Valid()
      ensures Valid()
      ensures filters == old(filters).(category := category)
      ensures filteredEvents == Pipeline(events, searchTerm, filters, sortConfig, now) && currentPage == 1
      ensures events == old(events) && searchTerm == old(searchTerm) && sortConfig == old(sortConfig)
    {
      filters := filters.(category := category);
      Refresh(now);
    }

    /** Choosing a date range in the filter dialog. */
    method SetDateRangeFilter(range: string, now: int)
      modifies this
      requires Valid()
      ensures Valid()
      ensures filters == old(filters).(dateRange := range)
      ensures filteredEvents == Pipeline(events, searchTerm, filters, sortConfig, now) && currentPage == 1
      ensures events == old(events) && searchTerm == old(searchTerm) && sortConfig == old(sortConfig)
    {
      filters := filters.(dateRange := range);
      Refresh(now);
    }

    /** The dialog's reset button puts every filter back to "all". */
    method ResetFilters(now: int)
      modifies this
      requires Valid()
      ensures Valid()
      ensures filters == AllFilters
      ensures filteredEvents == Pipeline(events, searchTerm, AllFilters, sortConfig, now) && currentPage == 1
      ensures events == old(events) && searchTerm == old(searchTerm) && sortConfig == old(sortConfig)
    {
      filters := AllFilters;
      Refresh(now);
    }

    /** A click on a sortable column header. */
    method HandleSort(key: SortKey, now: int)
      modifies this
      requires Valid()
      ensures Valid()
      ensures sortConfig == NextSort(old(sortConfig), key)
      ensures filteredEvents == Pipeline(events, searchTerm, filters, sortConfig, now) && currentPage == 1
      ensures events == old(events) && searchTerm == old(searchTerm) && filters == old(filters)
    {
      sortConfig := NextSort(sortConfig, key);
      Refresh(now);
    }

    /** Deleting an event, when the confirmation is accepted, removes every event with that id. */
    method DeleteEvent(id: string, confirmed: bool, now: int)
      modifies this
      requires Valid()
      ensures Valid()
      ensures !confirmed ==> events == old(events) && filteredEvents == old(filteredEvents) && currentPage == old(currentPage)
      ensures confirmed ==> events == Filter(old(events), (e: Event) => e.id != id) && currentPage == 1
      ensures forall e :: e in events ==> e.id != id || !confirmed
      ensures searchTerm == old(searchTerm) && filters == old(filters) && sortConfig == old(sortConfig)
    {
      if confirmed {
        events := Filter(events, (e: Event) => e.id != id);
        Refresh(now);
      }
    }

    /** The previous-page button, disabled on page 1. */
    method PrevPage()
      modifies this
      requires Valid()
      ensures Valid()
      ensures old(currentPage) == 1 ==> currentPage == 1
      ensures old(currentPage) != 1 ==> currentPage == if old(currentPage) - 1 < 1 then 1 else old(currentPage) - 1
      ensures events == old(events) && filteredEvents == old(filteredEvents) && totalPages == old(totalPages)
      ensures searchTerm == old(searchTerm) && filters == old(filters) && sortConfig == old(sortConfig)
    {
      if currentPage != 1 {
        currentPage := if currentPage - 1 < 1 then 1 else currentPage - 1;
      }
    }

    /** The next-page button, disabled on the last page; with no pages at all it leads to page 0. */
    method NextPage()
      modifies this
      requires Valid()
      ensures Valid()
      ensures old(currentPage) == totalPages ==> currentPage == old(currentPage)
      ensures old(currentPage) != totalPages ==> currentPage == if totalPages < old(currentPage) + 1 then totalPages else old(currentPage) + 1
      ensures events == old(events) && filteredEvents == old(filteredEvents) && totalPages == old(totalPages)
      ensures searchTerm == old(searchTerm) && filters == old(filters) && sortConfig == old(sortConfig)
    {
      if currentPage != totalPages {
        currentPage := if totalPages < currentPage + 1 then totalPages else currentPage + 1;
      }
    }

    /** The numbered button for page `i + 1`; one is drawn for each page. */
    method GoToPage(i: nat)
      modifies this
      requires Valid() && i < totalPages
      ensures Valid()
      ensures currentPage == i + 1
      ensures events == old(events) && filteredEvents == old(filteredEvents) && totalPages == old(totalPages)
      ensures searchTerm == old(searchTerm) && filters == old(filters) && sortConfig == old(sortConfig)
    {
      currentPage := i + 1;
    }

    /** The rows of the current page. */
    function CurrentPageEvents(): (r: seq<Event>)
      reads this
      ensures currentPage >= 0 ==> |r| <= pageSize
      ensures forall e :: e in r ==> e in filteredEvents
      ensures currentPage >= 1 && pageSize > 0 ==> (r != [] <==> currentPage <= CeilDiv(|filteredEvents|, pageSize))
    {
      if currentPage >= 1 && pageSize > 0 then
        PageWindow(filteredEvents, currentPage, pageSize);
        PageNonEmptyIff(filteredEvents, currentPage, pageSize);
        Page(filteredEvents, currentPage, pageSize)
      else if currentPage >= 1 then
        PageWindow(filteredEvents, currentPage, pageSize);
        Page(filteredEvents, currentPage, pageSize)
      else if currentPage == 0 then
        PageZero(filteredEvents, pageSize);
        Page(filteredEvents, currentPage, pageSize)
      else
        Page(filteredEvents, currentPage, pageSize)
    }
  }

  /** While the page number is in range, the current page is never empty unless the whole list is. */
  lemma PageShowsRows(filtered: seq<Event>, page: int, pages: nat)
    requires pages == CeilDiv(|filtered|, EventsPageSize) && PageInRange(page, pages) && filtered != []
    ensures Page(filtered, page, EventsPageSize) != []
  {
    PageNonEmptyIff(filtered, page, EventsPageSize);
  }
}
