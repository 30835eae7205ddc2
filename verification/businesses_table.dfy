/**
 * The businesses list screen (admin/app/dashboard/businesses/table.tsx):
 * offset paging with a fixed page size, the optional filters sent with each
 * read, the normalisation of the embedded category, and the screen's state
 * as a machine driven by input changes, page moves and fetch replies.
 * How the database evaluates `ilike` is a parameter (`like`).
 */
module BusinessesTable {
  import opened Base
  import opened Schema
  import opened Effects

  const PageSize := 20

  // ---- paging ------------------------------------------------------------

  /** The inclusive index range `.range(start, end)` asked for `page`. */
  function PageRange(page: int): (r: (int, int))
    ensures r.1 - r.0 + 1 == PageSize
    ensures page >= 1 ==> r.0 >= 0 && r.0 % PageSize == 0
  {
    var start := (page - 1) * PageSize;
    (start, start + PageSize - 1)
  }

  /** Consecutive pages are adjacent: each starts right after the previous
      one ends, so no index is skipped or read twice. */
  lemma PagesAdjacent(page: int)
    ensures PageRange(page + 1).0 == PageRange(page).1 + 1
  {
  }

  /** Every row index lies on exactly one page. */
  lemma RowOnExactlyOnePage(i: nat, page: int)
    requires page >= 1
    ensures PageRange(page).0 <= i <= PageRange(page).1 <==> page == i / PageSize + 1
  {
    var q := i / PageSize;
    assert PageSize * q <= i < PageSize * (q + 1);
    if page <= q {
      assert (page - 1) * PageSize + PageSize - 1 < q * PageSize;
    } else if page > q + 1 {
      assert (page - 1) * PageSize >= (q + 1) * PageSize;
    }
  }

  /** `count ? Math.ceil(count / PAGE_SIZE) : 1` */
  function TotalPages(count: Option<nat>): (n: nat)
    ensures n >= 1
    ensures count.None? || count.value == 0 ==> n == 1
    ensures count.Some? && count.value > 0 ==> PageSize * (n - 1) < count.value <= PageSize * n
  {
    if count.Some? && count.value != 0 then (count.value + PageSize - 1) / PageSize else 1
  }

  /** The Previous button: `Math.max(1, p - 1)`. */
  function PreviousPage(page: int): (r: int)
    ensures r >= 1
    ensures page > 1 ==> r == page - 1
    ensures page <= 1 ==> r == 1
  {
    if page - 1 < 1 then 1 else page - 1
  }

  /** The Next button: `Math.min(totalPages, p + 1)`. From a page beyond the
      last one (the count shrank under a filter) it moves back to the last. */
  function NextPage(page: int, totalPages: nat): (r: int)
    ensures r <= totalPages
    ensures page < totalPages ==> r == page + 1
    ensures page >= totalPages ==> r == totalPages
  {
    if totalPages < page + 1 then totalPages else page + 1
  }

  // ---- filters -----------------------------------------------------------

  datatype Filters = Filters(city: string, category: string, search: string)

  /** `%text%` */
  function Substring(text: string): string
  {
    "%" + text + "%"
  }

  /** The filters added to the read, in order: city substring, category
      equality, name substring; an empty filter adds nothing. */
  function BuildConstraints(f: Filters): (r: seq<Constraint>)
    ensures |r| == (if f.city != "" then 1 else 0) + (if f.category != "" then 1 else 0)
                   + (if f.search != "" then 1 else 0)
    ensures ILike("city", Substring(f.city)) in r <==> f.city != ""
    ensures Eq("category_id", f.category) in r <==> f.category != ""
    ensures ILike("name", Substring(f.search)) in r <==> f.search != ""
  {
    (if f.city != "" then [ILike("city", Substring(f.city))] else [])
    + (if f.category != "" then [Eq("category_id", f.category)] else [])
    + (if f.search != "" then [ILike("name", Substring(f.search))] else [])
  }

  /** The text in a filterable column; SQL NULL matches no filter. */
  function ColumnText(row: BusinessRow, column: string): Option<string>
  {
    if column == "city" then row.city
    else if column == "category_id" then row.categoryId
    else if column == "name" then Some(row.name)
    else None
  }

  predicate Satisfies(row: BusinessRow, c: Constraint, like: (string, string) -> bool)
  {
    var v := ColumnText(row, c.column);
    match c
    case ILike(_, pattern) => v.Some? && like(v.value, pattern)
    case Eq(_, value) => v == Some(value)
  }

  predicate SatisfiesAll(row: BusinessRow, cs: seq<Constraint>, like: (string, string) -> bool)
  {
    forall i :: 0 <= i < |cs| ==> Satisfies(row, cs[i], like)
  }

  /** A row passes the read's filters exactly when it passes every non-empty
      filter: the filters combine by conjunction and an empty one is no
      constraint at all. */
  lemma FiltersAreConjunction(row: BusinessRow, f: Filters, like: (string, string) -> bool)
    ensures SatisfiesAll(row, BuildConstraints(f), like) <==>
      && (f.city == "" || (row.city.Some? && like(row.city.value, Substring(f.city))))
      && (f.category == "" || row.categoryId == Some(f.category))
      && (f.search == "" || like(row.name, Substring(f.search)))
  {
    var cs := BuildConstraints(f);
    if SatisfiesAll(row, cs, like) {
      if f.city != "" {
        assert Satisfies(row, cs[0], like);
      }
      if f.category != "" {
        var k := if f.city != "" then 1 else 0;
        assert cs[k] == Eq("category_id", f.category);
        assert Satisfies(row, cs[k], like);
      }
      if f.search != "" {
        assert cs[|cs| - 1] == ILike("name", Substring(f.search));
        assert Satisfies(row, cs[|cs| - 1], like);
      }
    }
  }

  /** The read issued for a page under the given filters, ordered by name. */
  function BusinessQuery(f: Filters, page: int): (q: Query)
    ensures q.table == "businesses" && q.orderBy == "name" && q.ascending
    ensures q.constraints == BuildConstraints(f)
    ensures q.range == Some(PageRange(page)) && q.limit.None?
    ensures q.range.value.1 - q.range.value.0 + 1 == PageSize
  {
    Query("businesses", "name", true, BuildConstraints(f), Some(PageRange(page)), None)
  }

  // ---- fetched rows ------------------------------------------------------

  /** The embedded `categories` object: the client may deliver it as an
      array, as one object, or not at all. */
  datatype CategoryName = CategoryName(nameAr: string)
  datatype Embed = EmbedList(items: seq<CategoryName>) | EmbedOne(item: CategoryName) | EmbedMissing

  datatype FetchedRow = FetchedRow(business: BusinessRow, categories: Embed)
  datatype ListedRow = ListedRow(business: BusinessRow, category: Option<CategoryName>)

  /** An array becomes its first element (null when empty); anything else
      becomes itself (null when missing). */
  function NormaliseEmbed(e: Embed): (r: Option<CategoryName>)
    ensures r.None? <==> e.EmbedMissing? || (e.EmbedList? && |e.items| == 0)
    ensures r.Some? ==>
      (e.EmbedList? && r.value == e.items[0]) || (e.EmbedOne? && r.value == e.item)
  {
    match e
    case EmbedList(items) => if |items| > 0 then Some(items[0]) else None
    case EmbedOne(item) => Some(item)
    case EmbedMissing => None
  }

  /** The embed a normalised category stands for: one object, or none. */
  function EmbedOf(c: Option<CategoryName>): Embed
  {
    if c.Some? then EmbedOne(c.value) else EmbedMissing
  }

  /** Normalising is settled after one pass: a row whose category is
      already one object (or missing) keeps it, so normalising the result
      again changes nothing. */
  lemma NormaliseEmbedSettles(e: Embed, c: Option<CategoryName>)
    ensures NormaliseEmbed(EmbedOf(c)) == c
    ensures NormaliseEmbed(EmbedOf(NormaliseEmbed(e))) == NormaliseEmbed(e)
  {
  }

  // ---- the screen as a state machine -------------------------------------

  datatype TableState = TableState(
    data: seq<ListedRow>,
    count: Option<nat>,
    error: Option<string>,
    page: int,
    filters: Filters)

  /** The reply to the read: an error, or the rows and the exact count. */
  datatype FetchReply =
    | FetchFailed(message: string)
    | Fetched(rows: Option<seq<FetchedRow>>, total: Option<nat>)

  /** The screen as it first renders: page 1, filters from the URL's query
      parameters (`get(key) || ''`), nothing loaded yet; the effect runs
      after the first render too, so page 1 is read at once. */
  function Initial(city: Option<string>, category: Option<string>, search: Option<string>): (r: (TableState, seq<Effect>))
    ensures r.0.page == 1 && r.0.data == [] && r.0.count.None? && r.0.error.None?
    ensures r.0.filters == Filters(OrEmpty(city), OrEmpty(category), OrEmpty(search))
    ensures r.0.filters.city == "" <==> city.None? || city == Some("")
    ensures r.0.filters.category == "" <==> category.None? || category == Some("")
    ensures r.0.filters.search == "" <==> search.None? || search == Some("")
    ensures r.1 == [Select(BusinessQuery(r.0.filters, 1))]
  {
    var st := TableState([], None, None, 1, Filters(OrEmpty(city), OrEmpty(category), OrEmpty(search)));
    (st, [Select(BusinessQuery(st.filters, st.page))])
  }

  /** `loadBusinesses` after the reply arrives. An error clears the rows and
      keeps the old count; a success replaces rows and count. The error
      message is never cleared. */
  function ApplyFetch(st: TableState, reply: FetchReply): (r: TableState)
    ensures r.page == st.page && r.filters == st.filters
    ensures reply.FetchFailed? ==>
      r.data == [] && r.count == st.count && r.error == Some(reply.message)
    ensures reply.Fetched? ==> r.count == reply.total && r.error == st.error
    ensures reply.Fetched? && reply.rows.None? ==> r.data == []
    ensures reply.Fetched? && reply.rows.Some? ==>
      && |r.data| == |reply.rows.value|
      && forall i :: 0 <= i < |r.data| ==>
           r.data[i] == ListedRow(reply.rows.value[i].business, NormaliseEmbed(reply.rows.value[i].categories))
  {
    match reply
    case FetchFailed(message) => st.(data := [], error := Some(message))
    case Fetched(rows, total) =>
      var fetched := if rows.Some? then rows.value else [];
      var listed := seq(|fetched|, i requires 0 <= i < |fetched| =>
                          ListedRow(fetched[i].business, NormaliseEmbed(fetched[i].categories)));
      st.(data := listed, count := total)
  }

  datatype Event =
    | CityTyped(city: string)
    | CategoryChosen(category: string)
    | SearchTyped(search: string)
    | PreviousClicked
    | NextClicked
    | FetchReplied(reply: FetchReply)

  /** One event. A change of page or of any filter starts a new read of the
      current page under the current filters; changing a filter does not
      reset the page. */
  function Step(st: TableState, ev: Event): (r: (TableState, seq<Effect>))
    ensures st.page >= 1 ==> r.0.page >= 1
    ensures (ev.CityTyped? || ev.CategoryChosen? || ev.SearchTyped?) ==> r.0.page == st.page
    ensures ev.NextClicked? ==> r.0.page <= TotalPages(st.count)
    // what each event sets
    ensures ev.CityTyped? ==> r.0 == st.(filters := st.filters.(city := ev.city))
    ensures ev.CategoryChosen? ==> r.0 == st.(filters := st.filters.(category := ev.category))
    ensures ev.SearchTyped? ==> r.0 == st.(filters := st.filters.(search := ev.search))
    ensures ev.PreviousClicked? ==> r.0 == st.(page := PreviousPage(st.page))
    ensures ev.NextClicked? ==> r.0 == st.(page := NextPage(st.page, TotalPages(st.count)))
    ensures ev.FetchReplied? ==> r.0 == ApplyFetch(st, ev.reply) && r.1 == []
    ensures |r.1| > 0 <==> (r.0.page, r.0.filters) != (st.page, st.filters)
    ensures |r.1| > 0 ==> r.1 == [Select(BusinessQuery(r.0.filters, r.0.page))]
  {
    var next := match ev
      case CityTyped(city) => st.(filters := st.filters.(city := city))
      case CategoryChosen(category) => st.(filters := st.filters.(category := category))
      case SearchTyped(search) => st.(filters := st.filters.(search := search))
      case PreviousClicked => st.(page := PreviousPage(st.page))
      case NextClicked => st.(page := NextPage(st.page, TotalPages(st.count)))
      case FetchReplied(reply) => ApplyFetch(st, reply);
    if (next.page, next.filters) != (st.page, st.filters) then
      (next, [Select(BusinessQuery(next.filters, next.page))])
    else
      (next, [])
  }

  /** The state after a sequence of events, and the reads issued on the
      way, in order. */
  function RunEffects(st: TableState, events: seq<Event>): (TableState, seq<Effect>)
    decreases |events|
  {
    if |events| == 0 then (st, [])
    else
      var (next, issued) := Step(st, events[0]);
      var (last, later) := RunEffects(next, events[1..]);
      (last, issued + later)
  }

  /** The state after a sequence of events. */
  function Run(st: TableState, events: seq<Event>): TableState
  {
    RunEffects(st, events).0
  }

  /** The read most recently issued: the last `Select` among `issued`, or
      `latest` when there is none. */
  function LastRead(latest: Query, issued: seq<Effect>): Query
    decreases |issued|
  {
    if |issued| == 0 then latest
    else if issued[|issued| - 1].Select? then issued[|issued| - 1].query
    else LastRead(latest, issued[..|issued| - 1])
  }

  lemma {:induction false} LastReadAppend(latest: Query, a: seq<Effect>, b: seq<Effect>)
    ensures LastRead(latest, a + b) == LastRead(LastRead(latest, a), b)
    decreases |b|
  {
    if |b| == 0 {
      assert a + b == a;
    } else {
      assert (a + b)[..|a + b| - 1] == a + b[..|b| - 1];
      LastReadAppend(latest, a, b[..|b| - 1]);
    }
  }

  /** The read most recently issued is always the one for the page and
      filters the screen now holds: every change of either is followed by
      a read, and nothing else issues one. */
  lemma {:induction false} LatestReadMatches(st: TableState, events: seq<Event>, latest: Query)
    requires latest == BusinessQuery(st.filters, st.page)
    ensures LastRead(latest, RunEffects(st, events).1)
      == BusinessQuery(RunEffects(st, events).0.filters, RunEffects(st, events).0.page)
    decreases |events|
  {
    if |events| > 0 {
      var (next, issued) := Step(st, events[0]);
      var later := RunEffects(next, events[1..]).1;
      assert LastRead(latest, issued) == BusinessQuery(next.filters, next.page);
      LatestReadMatches(next, events[1..], LastRead(latest, issued));
      LastReadAppend(latest, issued, later);
    }
  }

  /** From the first render on, the latest read matches the screen. */
  lemma MountedReadMatches(city: Option<string>, category: Option<string>, search: Option<string>,
                           events: seq<Event>)
    ensures var (st, mounted) := Initial(city, category, search);
      LastRead(mounted[0].query, RunEffects(st, events).1)
        == BusinessQuery(Run(st, events).filters, Run(st, events).page)
  {
    var (st, mounted) := Initial(city, category, search);
    LatestReadMatches(st, events, mounted[0].query);
  }

  /** The page never drops below 1, whatever happens on the screen, so every
      read asks for a range starting at a non-negative index. */
  lemma {:induction false} PageStaysPositive(st: TableState, events: seq<Event>)
    requires st.page >= 1
    ensures Run(st, events).page >= 1
    ensures PageRange(Run(st, events).page).0 >= 0
    decreases |events|
  {
    if |events| > 0 {
      PageStaysPositive(Step(st, events[0]).0, events[1..]);
      assert Run(st, events) == Run(Step(st, events[0]).0, events[1..]);
    }
  }

  /** Only a failed read writes the error, so once shown it stays shown. */
  lemma {:induction false} ErrorIsSticky(st: TableState, events: seq<Event>)
    requires st.error.Some?
    ensures Run(st, events).error.Some?
    decreases |events|
  {
    if |events| > 0 {
      ErrorIsSticky(Step(st, events[0]).0, events[1..]);
      assert Run(st, events) == Run(Step(st, events[0]).0, events[1..]);
    }
  }
}
