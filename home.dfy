/** The event roster page (site/src/home/presenter/HomePage.js): the list of
    events the signed-in user can see, a loading flag, and the join/leave
    handlers that patch one record after the server confirms. */
module Home {
  import opened Replies

  /** One event record as the server sends it. Only `id_event` and
      `is_in_event` are read or written here; every other property of the
      record is kept, untouched, in `rest`. */
  datatype Event = Event(idEvent: int, isInEvent: bool, rest: map<string, string>)

  /** What the page body shows. */
  datatype Screen = LoadingView | EventNotFound | Grid(items: seq<Event>)

  /** Some record of `events` has id `id`. */
  predicate HasId(events: seq<Event>, id: int)
  {
    exists j :: 0 <= j < |events| && events[j].idEvent == id
  }

  /** No two records share an id. */
  predicate UniqueIds(events: seq<Event>)
  {
    forall j, k :: 0 <= j < k < |events| ==> events[j].idEvent != events[k].idEvent
  }

  /** The index that the search loop of `updateEvent` ends with: the loop
      never breaks, so it is the LAST index whose id matches, and -1 when
      none does. */
  function LastIndex(events: seq<Event>, id: int): (r: int)
    ensures -1 <= r < |events|
    ensures r == -1 <==> !HasId(events, id)
    ensures r >= 0 ==> events[r].idEvent == id
    ensures forall j :: r < j < |events| ==> events[j].idEvent != id
  {
    if |events| == 0 then -1
    else if events[|events| - 1].idEvent == id then |events| - 1
    else LastIndex(events[..|events| - 1], id)
  }

  /** The `for` loop of `updateEvent`: scans every record and remembers the
      last one whose id matches. */
  method FindLastIndex(events: seq<Event>, id: int) returns (index: int)
    ensures index == LastIndex(events, id)
  {
    index := -1;
    for i := 0 to |events|
      invariant index == LastIndex(events[..i], id)
    {
      assert events[..i + 1][..i] == events[..i];
      if events[i].idEvent == id {
        index := i;
      }
    }
    assert events[..|events|] == events;
  }

  /** The list `updateEvent` installs: a copy of `events` in which the record
      the search found has `is_in_event` set to `entered`. The source would
      throw at `tempEvents[-1]` when the id is absent, hence the requires. */
  function Patched(events: seq<Event>, id: int, entered: bool): (r: seq<Event>)
    requires HasId(events, id)
    ensures |r| == |events|
    ensures forall k :: 0 <= k < |r| ==>
              r[k].idEvent == events[k].idEvent && r[k].rest == events[k].rest
    ensures forall k :: 0 <= k < |r| ==>
              r[k].isInEvent == (if k == LastIndex(events, id) then entered else events[k].isInEvent)
  {
    var i := LastIndex(events, id);
    events[i := events[i].(isInEvent := entered)]
  }

  /** With unique ids the patch touches exactly the record whose id is `id`:
      that record's flag becomes `entered`, every other record is unchanged,
      and the ids stay unique. */
  lemma PatchedUnique(events: seq<Event>, id: int, entered: bool)
    requires UniqueIds(events) && HasId(events, id)
    ensures UniqueIds(Patched(events, id, entered))
    ensures forall k :: 0 <= k < |events| && events[k].idEvent == id ==>
              Patched(events, id, entered)[k] == events[k].(isInEvent := entered)
    ensures forall k :: 0 <= k < |events| && events[k].idEvent != id ==>
              Patched(events, id, entered)[k] == events[k]
  {
  }

  /** The patch is idempotent: repeating it with the same flag changes nothing. */
  lemma PatchedTwice(events: seq<Event>, id: int, entered: bool)
    requires HasId(events, id)
    ensures HasId(Patched(events, id, entered), id)
    ensures Patched(Patched(events, id, entered), id, entered) == Patched(events, id, entered)
  {
  }

  /** `showEvents`: the empty-state card for an empty list, otherwise the
      grid over every event in order. */
  function ShowEvents(events: seq<Event>): (v: Screen)
    ensures v == EventNotFound <==> events == []
    ensures v.Grid? <==> events != []
    ensures v.Grid? ==> v.items == events
  {
    if |events| == 0 then EventNotFound else Grid(events)
  }

  /** The page body: the loading view while `loading` holds, whatever the
      list is; otherwise what `showEvents` chooses. */
  function Render(loading: bool, events: seq<Event>): (v: Screen)
    ensures v == LoadingView <==> loading
    ensures v == EventNotFound <==> !loading && events == []
    ensures v.Grid? <==> !loading && events != []
    ensures v.Grid? ==> v.items == events
  {
    if loading then LoadingView else ShowEvents(events)
  }

  /** The state of one mounted `HomePage`. */
  class HomePage {
    var events: seq<Event>
    var loading: bool
    var toasts: seq<Toast>

    /** `useState([])` and `useState(true)`. */
    constructor ()
      ensures events == [] && loading && toasts == []
    {
      events := [];
      loading := true;
      toasts := [];
    }

    /** What the page shows in its current state. */
    function View(): (v: Screen)
      reads this
    {
      Render(loading, events)
    }

    /** The effect's first step: the flag is raised before the fetch is issued. */
    method BeginFetch()
      modifies this
      ensures loading
      ensures events == old(events) && toasts == old(toasts)
    {
      loading := true;
    }

    /** The fetch resolved with `data`: the list is replaced wholesale and the
      flag is lowered. */
    method OnEventsFetched(data: seq<Event>)
      modifies this
      ensures events == data && !loading
      ensures toasts == old(toasts)
    {
      events := data;
      loading := false;
    }

    /** `updateEvent`: search, copy, write the one flag, install the copy. */
    method UpdateEvent(idEvent: int, entered: bool)
      requires HasId(events, idEvent)
      modifies this
      ensures events == Patched(old(events), idEvent, entered)
      ensures loading == old(loading) && toasts == old(toasts)
    {
      var index := FindLastIndex(events, idEvent);
      var tempEvents := events;
      tempEvents := tempEvents[index := tempEvents[index].(isInEvent := entered)];
      events := tempEvents;
    }

    /** `onEnterEvent`, once `enterInEvent` has resolved with `result`: a
      reply with a message records one error toast and leaves the list
      alone; any other reply marks the event as joined. */
    method OnEnterEvent(idEvent: int, result: Reply<()>)
      requires !HasMessage(result) ==> HasId(events, idEvent)
      modifies this
      ensures HasMessage(result) ==>
                events == old(events) && toasts == old(toasts) + [ErrorToast(result.message.value)]
      ensures !HasMessage(result) ==>
                events == Patched(old(events), idEvent, true) && toasts == old(toasts)
      ensures loading == old(loading)
    {
      if HasMessage(result) {
        toasts := toasts + [ErrorToast(result.message.value)];
        return;
      }
      UpdateEvent(idEvent, true);
    }

    /** `onExitEvent`, once `exitOfEvent` has resolved with `result`: the same
      rule, clearing the membership flag on success. */
    method OnExitEvent(idEvent: int, result: Reply<()>)
      requires !HasMessage(result) ==> HasId(events, idEvent)
      modifies this
      ensures HasMessage(result) ==>
                events == old(events) && toasts == old(toasts) + [ErrorToast(result.message.value)]
      ensures !HasMessage(result) ==>
                events == Patched(old(events), idEvent, false) && toasts == old(toasts)
      ensures loading == old(loading)
    {
      if HasMessage(result) {
        toasts := toasts + [ErrorToast(result.message.value)];
        return;
      }
      UpdateEvent(idEvent, false);
    }
  }

  /** A client that runs the roster through a failed and a confirmed join and
      through a second fetch, using only the contracts above. */
  method RosterScenario(r1: map<string, string>, r2: map<string, string>, later: seq<Event>)
  {
    var page := new HomePage();
    assert page.View() == LoadingView;
    var fetched := [Event(1, false, r1), Event(2, false, r2)];
    page.OnEventsFetched(fetched);
    assert page.View() == Grid(fetched);

    var refused := Reply(Some("Estamos com problemas"), ());
    page.OnEnterEvent(1, refused);
    assert page.events == fetched;
    assert page.toasts == [ErrorToast("Estamos com problemas")];

    assert fetched[0].idEvent == 1;
    page.OnEnterEvent(1, Reply(None, ()));
    assert LastIndex(fetched, 1) == 0;
    assert page.events == [Event(1, true, r1), Event(2, false, r2)];
    assert |page.toasts| == 1;

    page.BeginFetch();
    assert page.View() == LoadingView;
    page.OnEventsFetched(later);
    assert page.events == later;
    assert later == [] ==> page.View() == EventNotFound;
  }
}
