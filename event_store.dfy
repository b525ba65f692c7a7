/** The in-memory event store behind the `/events` routes: an insertion-ordered
    list of event records that the handlers read, append to, patch in place
    and filter. HTTP requests are modelled as their inputs (query arguments,
    the JSON body as a map from key to string, the generated id) and responses
    as a payload with a status code. */
module EventRoutes {

  import opened Wrappers
  import opened Dates

  /** One entry of the store: a dict with exactly these seven keys. */
  datatype Event = Event(
    id: string,
    title: string,
    description: string,
    startDate: string,
    endDate: string,
    time: string,
    location: string)

  /** A JSON request body, key to value. */
  type Body = map<string, string>

  /** The keys every stored event has. */
  const EventKeys: set<string> := {"id", "title", "description", "start_date", "end_date", "time", "location"}

  /** The keys an update may overwrite; "id" is not among them. */
  const UpdatableKeys: set<string> := {"title", "description", "start_date", "end_date", "time", "location"}

  /** `event[key]`, seen as a dict. */
  function Get(e: Event, key: string): (v: Option<string>)
    ensures v.Some? <==> key in EventKeys
  {
    match key
    case "id" => Some(e.id)
    case "title" => Some(e.title)
    case "description" => Some(e.description)
    case "start_date" => Some(e.startDate)
    case "end_date" => Some(e.endDate)
    case "time" => Some(e.time)
    case "location" => Some(e.location)
    case _ => None
  }

  /** `d.get(key, default)` on a request body. */
  function BodyGet(d: Body, key: string, default: string): string {
    if key in d then d[key] else default
  }

  const InvalidDateFormat := "Invalid date format. Use 'YYYY-MM-DD'"
  const TitleAndStartRequired := "Title and start date are required"
  const EventNotFound := "Event not found"
  const EventCreated := "Event created successfully"
  const EventUpdated := "Event updated successfully"
  const EventDeleted := "Event deleted successfully"

  datatype Payload =
    | EventList(events: seq<Event>)
    | EventMessage(message: string, event: Event)
    | Message(message: string)
    | Error(error: string)
      /** The framework's own page for an exception nothing caught. */
    | InternalServerError

  datatype Response = Response(payload: Payload, status: int)

  /** Index of the first event with this id, in list order. */
  function FirstIndex(events: seq<Event>, id: string): (r: Option<nat>)
    ensures r.None? <==> forall k :: 0 <= k < |events| ==> events[k].id != id
    ensures r.Some? ==> r.value < |events| && events[r.value].id == id
    ensures r.Some? ==> forall k :: 0 <= k < r.value ==> events[k].id != id
  {
    if events == [] then None
    else if events[0].id == id then Some(0)
    else match FirstIndex(events[1..], id)
      case None => None
      case Some(k) => Some(k + 1)
  }

  /** A query argument counts only when present and non-empty (Python truthiness). */
  predicate Supplied(arg: Option<string>) {
    arg.Some? && arg.value != ""
  }

  predicate InRange(d: Date, lo: Date, hi: Date) {
    DateLe(lo, d) && DateLe(d, hi)
  }

  /** The comprehension's condition for one event: its start date parses and
      lies in [lo, hi]. */
  predicate StartsInRange(e: Event, lo: Date, hi: Date) {
    ParseYmd(e.startDate).Some? && InRange(ParseYmd(e.startDate).value, lo, hi)
  }

  /** The list comprehension of `get_events`: the events whose parsed start date
      lies in [lo, hi], in their stored order, or None when some stored start
      date does not parse. */
  function FilterByStartDate(events: seq<Event>, lo: Date, hi: Date): (r: Option<seq<Event>>)
    ensures r.Some? ==> IsSubseq(r.value, events)
  {
    if events == [] then Some([])
    else
      var init, x := events[..|events| - 1], events[|events| - 1];
      match FilterByStartDate(init, lo, hi)
      case None => None
      case Some(rest) =>
        assert events == init + [x];
        if ParseYmd(x.startDate).None? then None
        else if StartsInRange(x, lo, hi) then
          SubseqReflexive([x]);
          SubseqAppend(rest, init, [x], [x]);
          Some(rest + [x])
        else
          SubseqEmpty([x]);
          SubseqAppend(rest, init, [], [x]);
          assert rest + [] == rest;
          Some(rest)
  }

  /** One step of the comprehension: it succeeds on a non-empty list exactly
      when it succeeds on all but the last event and that event's start date
      parses, and then extends the shorter result by the last event exactly
      when that event is in range. */
  lemma FilterByStartDateSnoc(events: seq<Event>, lo: Date, hi: Date)
    requires events != []
    ensures FilterByStartDate(events, lo, hi).Some? <==>
      FilterByStartDate(events[..|events| - 1], lo, hi).Some? && ParseYmd(events[|events| - 1].startDate).Some?
    ensures FilterByStartDate(events, lo, hi).Some? ==>
      FilterByStartDate(events, lo, hi).value == FilterByStartDate(events[..|events| - 1], lo, hi).value + (if StartsInRange(events[|events| - 1], lo, hi) then [events[|events| - 1]] else [])
  {
    if FilterByStartDate(events, lo, hi).Some? {
      var rest := FilterByStartDate(events[..|events| - 1], lo, hi).value;
      assert rest + [] == rest;
    }
  }

  /** The comprehension fails exactly when some stored start date does not parse. */
  lemma {:induction false} FilterByStartDateFails(events: seq<Event>, lo: Date, hi: Date)
    ensures FilterByStartDate(events, lo, hi).Some? <==> forall k :: 0 <= k < |events| ==> ParseYmd(events[k].startDate).Some?
  {
    if events != [] {
      var init := events[..|events| - 1];
      MultisetSnoc(events);
      FilterByStartDateSnoc(events, lo, hi);
      FilterByStartDateFails(init, lo, hi);
      assert forall k :: 0 <= k < |init| ==> events[k] == init[k];
    }
  }

  /** A successful comprehension keeps every in-range event as often as it is
      stored, and nothing else. */
  lemma {:induction false} FilterByStartDateCounts(events: seq<Event>, lo: Date, hi: Date)
    requires FilterByStartDate(events, lo, hi).Some?
    ensures forall e ::
      multiset(FilterByStartDate(events, lo, hi).value)[e] == if StartsInRange(e, lo, hi) then multiset(events)[e] else 0
  {
    if events != [] {
      var init, x := events[..|events| - 1], events[|events| - 1];
      MultisetSnoc(events);
      FilterByStartDateSnoc(events, lo, hi);
      FilterByStartDateCounts(init, lo, hi);
      var r, rest := FilterByStartDate(events, lo, hi).value, FilterByStartDate(init, lo, hi).value;
      var kept := if StartsInRange(x, lo, hi) then [x] else [];
      assert multiset(r) == multiset(rest) + multiset(kept);
      forall e
        ensures multiset(r)[e] == if StartsInRange(e, lo, hi) then multiset(events)[e] else 0
      {
        if e != x { assert multiset(kept)[e] == 0 && multiset{x}[e] == 0; }
      }
    }
  }

  /** The comprehension fails exactly when some stored start date does not
      parse; when it succeeds it keeps exactly the events in range, each as
      often as it is stored. */
  lemma FilterByStartDateMeans(events: seq<Event>, lo: Date, hi: Date)
    ensures FilterByStartDate(events, lo, hi).Some? <==> forall k :: 0 <= k < |events| ==> ParseYmd(events[k].startDate).Some?
    ensures FilterByStartDate(events, lo, hi).Some? ==>
      forall e :: multiset(FilterByStartDate(events, lo, hi).value)[e] ==
        if StartsInRange(e, lo, hi) then multiset(events)[e] else 0
    ensures FilterByStartDate(events, lo, hi).Some? ==>
      forall e :: e in FilterByStartDate(events, lo, hi).value <==> e in events && StartsInRange(e, lo, hi)
  {
    FilterByStartDateFails(events, lo, hi);
    if FilterByStartDate(events, lo, hi).Some? {
      FilterByStartDateCounts(events, lo, hi);
    }
  }

  /** The list that `delete_event` rebinds the store to: every event whose id
      differs, in their original order. */
  function WithoutId(events: seq<Event>, id: string): (r: seq<Event>)
    ensures IsSubseq(r, events)
    ensures forall e :: e in r <==> e in events && e.id != id
    ensures forall e :: multiset(r)[e] == if e.id != id then multiset(events)[e] else 0
    ensures (exists k :: 0 <= k < |events| && events[k].id == id) ==> |r| < |events|
  {
    if events == [] then []
    else
      var rest := WithoutId(events[1..], id);
      assert events == [events[0]] + events[1..];
      assert multiset(events) == multiset{events[0]} + multiset(events[1..]);
      SubseqLength(rest, events[1..]);
      if events[0].id == id then
        SubseqSkip(events[0], rest, events[1..]);
        rest
      else
        SubseqCons(events[0], rest, events[1..]);
        [events[0]] + rest
  }

  /** `add_event`'s check: a body that is present, non-empty, and has a
      non-empty title and start date. */
  predicate Creatable(body: Option<Body>) {
    body.Some? && body.value != map[]
    && BodyGet(body.value, "title", "") != ""
    && BodyGet(body.value, "start_date", "") != ""
  }

  /** The record `add_event` builds from a body that passed the check. */
  function NewEvent(body: Body, id: string): (e: Event)
    requires "start_date" in body && "title" in body
    ensures Get(e, "id") == Some(id)
    ensures forall k :: k in {"title", "start_date"} ==> Get(e, k) == Some(body[k])
    ensures forall k :: k in {"description", "time", "location"} ==> Get(e, k) == Some(BodyGet(body, k, ""))
    ensures Get(e, "end_date") == Some(BodyGet(body, "end_date", body["start_date"]))
  {
    Event(id, body["title"], BodyGet(body, "description", ""), body["start_date"],
          BodyGet(body, "end_date", body["start_date"]), BodyGet(body, "time", ""),
          BodyGet(body, "location", ""))
  }

  /** `event.update({...})` in `update_event`: each updatable key takes the
      body's value when the body has it, and every other key keeps its value. */
  function Patch(e: Event, body: Body): (r: Event)
    ensures forall k :: k in EventKeys ==>
      Get(r, k) == if k in UpdatableKeys && k in body then Some(body[k]) else Get(e, k)
  {
    e.(title := BodyGet(body, "title", e.title),
       description := BodyGet(body, "description", e.description),
       startDate := BodyGet(body, "start_date", e.startDate),
       endDate := BodyGet(body, "end_date", e.endDate),
       time := BodyGet(body, "time", e.time),
       location := BodyGet(body, "location", e.location))
  }

  /** The module-level `events_db` list and the handlers that use it. */
  class EventStore {

    var events: seq<Event>

    constructor ()
      ensures events == []
    {
      events := [];
    }

    /** `find_event`: scan in list order and stop at the first matching id;
        the index stands for the dict object the handler gets back. */
    method FindEvent(id: string) returns (r: Option<nat>)
      ensures r.None? <==> forall k :: 0 <= k < |events| ==> events[k].id != id
      ensures r.Some? ==> r.value < |events| && events[r.value].id == id
      ensures r.Some? ==> forall k :: 0 <= k < r.value ==> events[k].id != id
    {
      var i := 0;
      while i < |events|
        invariant 0 <= i <= |events|
        invariant forall k :: 0 <= k < i ==> events[k].id != id
      {
        if events[i].id == id {
          return Some(i);
        }
        i := i + 1;
      }
      return None;
    }

    /** `GET /events`: the whole list unless both bounds are supplied; with
        both, the events whose start date lies in the inclusive range, or 400
        when a bound or a stored start date does not parse. The store is not
        changed (the method has no modifies clause). */
    method GetEvents(startArg: Option<string>, endArg: Option<string>) returns (resp: Response)
      ensures !(Supplied(startArg) && Supplied(endArg)) ==> resp == Response(EventList(events), 200)
      ensures resp.status == 200 ==> resp.payload.EventList? && IsSubseq(resp.payload.events, events)
      ensures resp.status == 400 <==>
        Supplied(startArg) && Supplied(endArg) &&
        (ParseYmd(startArg.value).None? || ParseYmd(endArg.value).None? ||
         exists k :: 0 <= k < |events| && ParseYmd(events[k].startDate).None?)
      ensures resp.status == 400 ==> resp.payload == Error(InvalidDateFormat)
      ensures resp.status in {200, 400}
      ensures Supplied(startArg) && Supplied(endArg) && resp.status == 200 ==>
        forall e :: e in resp.payload.events <==>
          e in events && StartsInRange(e, ParseYmd(startArg.value).value, ParseYmd(endArg.value).value)
      ensures Supplied(startArg) && Supplied(endArg) && resp.status == 200 ==>
        forall e :: multiset(resp.payload.events)[e] ==
          if StartsInRange(e, ParseYmd(startArg.value).value, ParseYmd(endArg.value).value)
          then multiset(events)[e] else 0
    {
      if Supplied(startArg) && Supplied(endArg) {
        var lo := ParseYmd(startArg.value);
        var hi := ParseYmd(endArg.value);
        if lo.None? || hi.None? {
          return Response(Error(InvalidDateFormat), 400);
        }
        var filtered := FilterByStartDate(events, lo.value, hi.value);
        FilterByStartDateMeans(events, lo.value, hi.value);
        if filtered.None? {
          return Response(Error(InvalidDateFormat), 400);
        }
        return Response(EventList(filtered.value), 200);
      }
      resp := Response(EventList(events), 200);
      assert IsSubseq(events, events) by { SubseqReflexive(events); }
    }

    /** `POST /events`: 400 and no change unless the body has a title and a
        start date; otherwise one new event at the end, with the defaults of
        `NewEvent`, and 201. `newId` is the `uuid4()` the handler draws. */
    method AddEvent(body: Option<Body>, newId: string) returns (resp: Response)
      modifies this
      ensures !Creatable(body) ==> events == old(events) && resp == Response(Error(TitleAndStartRequired), 400)
      ensures Creatable(body) ==>
        && events == old(events) + [NewEvent(body.value, newId)]
        && resp == Response(EventMessage(EventCreated, NewEvent(body.value, newId)), 201)
      ensures Creatable(body) && (forall k :: 0 <= k < |old(events)| ==> old(events)[k].id != newId) ==>
        FirstIndex(events, newId) == Some(|events| - 1)
    {
      if !Creatable(body) {
        return Response(Error(TitleAndStartRequired), 400);
      }
      var e := NewEvent(body.value, newId);
      events := events + [e];
      if forall k :: 0 <= k < |old(events)| ==> old(events)[k].id != newId {
        FirstIndexUnique(events, newId, |events| - 1);
      }
      resp := Response(EventMessage(EventCreated, e), 201);
    }

    /** `PUT /events/<id>`: 404 and no change for an unknown id; a JSON `null`
        body makes `data.get` raise outside any handler (500, no change);
        otherwise the first event with that id is patched where it stands,
        without any validation, and 200. */
    method UpdateEvent(id: string, body: Option<Body>) returns (resp: Response)
      modifies this
      ensures FirstIndex(old(events), id).None? ==>
        events == old(events) && resp == Response(Error(EventNotFound), 404)
      ensures FirstIndex(old(events), id).Some? && body.None? ==>
        events == old(events) && resp == Response(InternalServerError, 500)
      ensures FirstIndex(old(events), id).Some? && body.Some? ==>
        var i := FirstIndex(old(events), id).value;
        && events == old(events)[i := Patch(old(events)[i], body.value)]
        && events[i].id == id
        && resp == Response(EventMessage(EventUpdated, events[i]), 200)
    {
      var found := FindEvent(id);
      if found.None? {
        return Response(Error(EventNotFound), 404);
      }
      if body.None? {
        return Response(InternalServerError, 500);
      }
      var i := found.value;
      FirstIndexUnique(events, id, i);
      events := events[i := Patch(events[i], body.value)];
      resp := Response(EventMessage(EventUpdated, events[i]), 200);
    }

    /** `DELETE /events/<id>`: 404 and no change for an unknown id; otherwise
        every event with that id is removed, the rest keep their order, and 200. */
    method DeleteEvent(id: string) returns (resp: Response)
      modifies this
      ensures FirstIndex(old(events), id).None? ==>
        events == old(events) && resp == Response(Error(EventNotFound), 404)
      ensures FirstIndex(old(events), id).Some? ==>
        && events == WithoutId(old(events), id)
        && FirstIndex(events, id).None?
        && resp == Response(Message(EventDeleted), 200)
    {
      var found := FindEvent(id);
      if found.None? {
        return Response(Error(EventNotFound), 404);
      }
      FirstIndexUnique(events, id, found.value);
      events := WithoutId(events, id);
      resp := Response(Message(EventDeleted), 200);
    }
  }

  /** The first-match index is determined by its three defining properties. */
  lemma FirstIndexUnique(events: seq<Event>, id: string, i: nat)
    requires i < |events| && events[i].id == id
    requires forall k :: 0 <= k < i ==> events[k].id != id
    ensures FirstIndex(events, id) == Some(i)
  {
  }
}
