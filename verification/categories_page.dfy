/**
 * The categories list screen (admin/app/dashboard/categories/page.tsx): a
 * single read of at most 50 categories ordered by Arabic name, and delete
 * with confirmation followed by a reload. The user's answer to the
 * confirmation and the database's replies are inputs.
 */
module CategoriesPage {
  import opened Base
  import opened Schema
  import opened Effects

  const PageLimit := 50

  /** The read `loadCategories` issues. */
  const LoadQuery := Query("categories", "name_ar", true, [], None, Some(PageLimit))

  datatype ScreenState = ScreenState(categories: seq<CategoryRow>, error: Option<string>)

  /** The reply to the read. */
  datatype LoadReply = LoadFailed(message: string) | Loaded(rows: Option<seq<CategoryRow>>)

  /** Whether a reply keeps to the read's limit. */
  predicate WithinLimit(reply: LoadReply)
  {
    reply.Loaded? && reply.rows.Some? ==> |reply.rows.value| <= PageLimit
  }

  /** `loadCategories` after the reply arrives: an error is shown and the
      categories already listed stay; a success lists the rows (none for a
      null reply) and leaves any earlier error in place. */
  function ApplyLoad(st: ScreenState, reply: LoadReply): (r: ScreenState)
    ensures reply.LoadFailed? ==> r.categories == st.categories && r.error == Some(reply.message)
    ensures reply.Loaded? ==> r.error == st.error
    ensures reply.Loaded? ==> r.categories == (if reply.rows.Some? then reply.rows.value else [])
    ensures WithinLimit(reply) && |st.categories| <= PageLimit ==> |r.categories| <= PageLimit
  {
    match reply
    case LoadFailed(message) => st.(error := Some(message))
    case Loaded(rows) => st.(categories := if rows.Some? then rows.value else [])
  }

  /** A press of a Delete button, with everything that decides its effect:
      the answer to "Delete this category?", the delete's error, and the
      reply to the reload that follows a successful delete. */
  datatype DeleteRequest = DeleteRequest(
    id: string,
    confirmed: bool,
    deleteError: Option<string>,
    reload: LoadReply)

  /** `handleDelete`: nothing without confirmation; a failed delete shows its
      error and does not reload; a successful one reloads the list. */
  function HandleDelete(st: ScreenState, req: DeleteRequest): (r: (ScreenState, seq<Effect>))
    ensures !req.confirmed ==> r == (st, [])
    ensures req.confirmed ==> |r.1| >= 1 && r.1[0] == DeleteCategory(req.id)
    ensures req.confirmed && req.deleteError.Some? ==>
      r.1 == [DeleteCategory(req.id)]
      && r.0 == ScreenState(st.categories, req.deleteError)
    ensures req.confirmed && req.deleteError.None? ==>
      r.1 == [DeleteCategory(req.id), Select(LoadQuery)]
      && r.0 == ApplyLoad(st, req.reload)
    ensures Select(LoadQuery) in r.1 <==> req.confirmed && req.deleteError.None?
  {
    if !req.confirmed then (st, [])
    else if req.deleteError.Some? then
      (st.(error := req.deleteError), [DeleteCategory(req.id)])
    else
      (ApplyLoad(st, req.reload), [DeleteCategory(req.id), Select(LoadQuery)])
  }

  /** The screen as it first renders: no categories and no error, with
      `loadCategories` started by the mount effect. */
  function Initial(): (r: (ScreenState, seq<Effect>))
    ensures r.0.categories == [] && r.0.error.None?
    ensures r.1 == [Select(LoadQuery)]
  {
    (ScreenState([], None), [Select(LoadQuery)])
  }

  datatype Event = LoadReplied(reply: LoadReply) | DeletePressed(request: DeleteRequest)

  /** One event: a reply to the read applies it and calls nothing; a press
      of Delete is `HandleDelete`, with its calls. */
  function Step(st: ScreenState, ev: Event): (r: (ScreenState, seq<Effect>))
    ensures ev.LoadReplied? ==> r == (ApplyLoad(st, ev.reply), [])
    ensures ev.DeletePressed? ==> r == HandleDelete(st, ev.request)
  {
    match ev
    case LoadReplied(reply) => (ApplyLoad(st, reply), [])
    case DeletePressed(request) => HandleDelete(st, request)
  }

  /** The state after a sequence of events, with every call made on the way. */
  function RunEffects(st: ScreenState, events: seq<Event>): (ScreenState, seq<Effect>)
    decreases |events|
  {
    if |events| == 0 then (st, [])
    else
      var (next, issued) := Step(st, events[0]);
      var (last, later) := RunEffects(next, events[1..]);
      (last, issued + later)
  }

  function Run(st: ScreenState, events: seq<Event>): ScreenState
  {
    RunEffects(st, events).0
  }

  /** Nothing on the screen ever clears the error once it is set. */
  lemma {:induction false} ErrorIsSticky(st: ScreenState, events: seq<Event>)
    requires st.error.Some?
    ensures Run(st, events).error.Some?
    decreases |events|
  {
    if |events| > 0 {
      assert Run(st, events) == Run(Step(st, events[0]).0, events[1..]);
      ErrorIsSticky(Step(st, events[0]).0, events[1..]);
    }
  }

  /** An event that puts an error on the screen: a failed read, or a
      confirmed delete that fails or whose reload fails. */
  predicate Fails(ev: Event)
  {
    || (ev.LoadReplied? && ev.reply.LoadFailed?)
    || (ev.DeletePressed? && ev.request.confirmed
        && (ev.request.deleteError.Some? || ev.request.reload.LoadFailed?))
  }

  /** An error is on the screen exactly when one was there before or some
      event failed. */
  lemma {:induction false} ErrorIffFailure(st: ScreenState, events: seq<Event>)
    ensures Run(st, events).error.Some? <==>
      st.error.Some? || exists i :: 0 <= i < |events| && Fails(events[i])
    decreases |events|
  {
    if |events| > 0 {
      var next := Step(st, events[0]).0;
      assert Run(st, events) == Run(next, events[1..]);
      ErrorIffFailure(next, events[1..]);
      assert next.error.Some? <==> st.error.Some? || Fails(events[0]);
      if exists i :: 0 <= i < |events| && Fails(events[i]) {
        var i :| 0 <= i < |events| && Fails(events[i]);
        if i > 0 {
          assert Fails(events[1..][i - 1]);
        }
      }
      if exists i :: 0 <= i < |events[1..]| && Fails(events[1..][i]) {
        var i :| 0 <= i < |events[1..]| && Fails(events[1..][i]);
        assert Fails(events[i + 1]);
      }
    }
  }

  /** From the first render, the screen shows an error exactly when some
      read or delete has failed. */
  lemma MountedErrorIffFailure(events: seq<Event>)
    ensures Run(Initial().0, events).error.Some? <==>
      exists i :: 0 <= i < |events| && Fails(events[i])
  {
    ErrorIffFailure(Initial().0, events);
  }

  /** The screen reads nothing but the 50 categories ordered by Arabic
      name: the mount read and every reload after a delete. */
  lemma {:induction false} OnlyLoadQueryIsRead(st: ScreenState, events: seq<Event>)
    ensures forall e :: e in RunEffects(st, events).1 && e.Select? ==> e.query == LoadQuery
    decreases |events|
  {
    if |events| > 0 {
      var (next, issued) := Step(st, events[0]);
      OnlyLoadQueryIsRead(next, events[1..]);
      assert RunEffects(st, events).1 == issued + RunEffects(next, events[1..]).1;
    }
  }

  /** When every reply keeps to the limit, the screen never lists more than
      50 categories. */
  lemma {:induction false} ListStaysWithinLimit(st: ScreenState, events: seq<Event>)
    requires |st.categories| <= PageLimit
    requires forall i :: 0 <= i < |events| ==>
      (events[i].LoadReplied? ==> WithinLimit(events[i].reply))
      && (events[i].DeletePressed? ==> WithinLimit(events[i].request.reload))
    ensures |Run(st, events).categories| <= PageLimit
    decreases |events|
  {
    if |events| > 0 {
      assert forall i :: 0 <= i < |events[1..]| ==> events[1..][i] == events[i + 1];
      assert Run(st, events) == Run(Step(st, events[0]).0, events[1..]);
      ListStaysWithinLimit(Step(st, events[0]).0, events[1..]);
    }
  }

  /** From the first render, when every reply keeps to the limit, the
      screen never lists more than 50 categories. */
  lemma MountedListStaysWithinLimit(events: seq<Event>)
    requires forall i :: 0 <= i < |events| ==>
      (events[i].LoadReplied? ==> WithinLimit(events[i].reply))
      && (events[i].DeletePressed? ==> WithinLimit(events[i].request.reload))
    ensures |Run(Initial().0, events).categories| <= PageLimit
  {
    ListStaysWithinLimit(Initial().0, events);
  }
}
