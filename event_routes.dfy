/** The event endpoints: list, detail, create, update and delete, over the one shared event
    list of the store. */
module EventRoutes {
  import opened Common
  import opened Database

  datatype EventListBody = EventListBody(success: bool, count: int, events: seq<Event>)
  datatype EventBody = EventBody(success: bool, event: Event)
  datatype EventMessageBody = EventMessageBody(success: bool, message: string, event: Event)
  datatype MessageBody = MessageBody(success: bool, message: string)

  const EventNotFound := "Event not found"

  /** list_events: initialise the list if it is empty, then report it with its length. */
  method ListEvents(store: Store) returns (r: Response<EventListBody>)
    modifies store`events
    ensures store.events == InitEvents(old(store.events))
    ensures r.Ok? && r.body.count == |r.body.events| && r.body.events == store.events
  {
    if store.events == [] {
      store.InitDb();
    }
    r := Ok(EventListBody(true, |store.events|, store.events));
  }

  /** get_event_detail: the first event with this id, or 404. */
  method GetEventDetail(store: Store, id: string) returns (r: Response<EventBody>)
    ensures r.Ok? || r == NotFound(EventNotFound)
    ensures r.NotFound? <==> NoEventWithId(store.events, id)
    ensures r.Ok? ==> exists k :: IsFirstMatch(store.events, id, k) && r.body == EventBody(true, store.events[k])
  {
    var event := store.GetEvent(id);
    if event.None? {
      return NotFound(EventNotFound);
    }
    r := Ok(EventBody(true, event.value));
  }

  /** create_event: append the event's dictionary to the list. */
  method CreateEvent(store: Store, event: Event) returns (r: Response<EventMessageBody>)
    modifies store`events
    ensures store.events == old(store.events) + [event]
    ensures r == Ok(EventMessageBody(true, "Event created successfully", event))
  {
    var added := store.AddEvent(event);
    r := Ok(EventMessageBody(true, "Event created successfully", event));
  }

  /** The keys of an event dictionary. */
  datatype Field = Id | Name | Location | Description | StartTime | EndTime | Capacity | Attendees

  /** The keys in the order `model_dump()` yields them. */
  const DumpOrder: seq<Field> := [Id, Name, Location, Description, StartTime, EndTime, Capacity, Attendees]

  lemma DumpOrderListsEveryField(f: Field)
    ensures f in DumpOrder
  {
  }

  /** A dictionary value: a string, an integer or None. */
  datatype Value = Str(s: string) | Int(n: int) | NoneValue

  function OptionalStr(o: Option<string>): Value {
    if o.Some? then Str(o.value) else NoneValue
  }

  /** `event[key]`. */
  function FieldValue(e: Event, f: Field): (v: Value)
    ensures v.NoneValue? ==> f in {Description, StartTime, EndTime, Capacity}
  {
    match f
    case Id => Str(e.id)
    case Name => Str(e.name)
    case Location => Str(e.location)
    case Description => OptionalStr(e.description)
    case StartTime => OptionalStr(e.startTime)
    case EndTime => OptionalStr(e.endTime)
    case Capacity => if e.capacity.Some? then Int(e.capacity.value) else NoneValue
    case Attendees => Int(e.attendees)
  }

  /** Two event dictionaries with the same value under every key are the same event. */
  lemma FieldsDetermineEvent(a: Event, b: Event)
    requires forall f :: FieldValue(a, f) == FieldValue(b, f)
    ensures a == b
  {
    assert FieldValue(a, Id) == FieldValue(b, Id);
    assert FieldValue(a, Name) == FieldValue(b, Name);
    assert FieldValue(a, Location) == FieldValue(b, Location);
    assert FieldValue(a, Description) == FieldValue(b, Description);
    assert FieldValue(a, StartTime) == FieldValue(b, StartTime);
    assert FieldValue(a, EndTime) == FieldValue(b, EndTime);
    assert FieldValue(a, Capacity) == FieldValue(b, Capacity);
    assert FieldValue(a, Attendees) == FieldValue(b, Attendees);
  }

  /** The value `v` has the type the schema gives key `f`. */
  predicate Fits(f: Field, v: Value) {
    if f in {Capacity, Attendees} then v.Int? else v.Str?
  }

  /** `event[key] = value`, for a value of the key's type. */
  function Assign(e: Event, f: Field, v: Value): (r: Event)
    requires Fits(f, v)
    ensures FieldValue(r, f) == v
    ensures forall g :: g != f ==> FieldValue(r, g) == FieldValue(e, g)
  {
    match f
    case Id => e.(id := v.s)
    case Name => e.(name := v.s)
    case Location => e.(location := v.s)
    case Description => e.(description := Some(v.s))
    case StartTime => e.(startTime := Some(v.s))
    case EndTime => e.(endTime := Some(v.s))
    case Capacity => e.(capacity := Some(v.n))
    case Attendees => e.(attendees := v.n)
  }

  /** The value update_event leaves under key `f`: the new one unless it is None. */
  function MergedValue(existing: Event, data: Event, f: Field): (v: Value)
    ensures f in {Id, Name, Location, Attendees} ==> v == FieldValue(data, f)
    ensures v == NoneValue ==> FieldValue(existing, f) == NoneValue && FieldValue(data, f) == NoneValue
    ensures v == FieldValue(data, f) || v == FieldValue(existing, f)
  {
    if FieldValue(data, f) != NoneValue then FieldValue(data, f) else FieldValue(existing, f)
  }

  /** The event after an update with `data`, record by record: the required keys and
      `attendees` (which defaults to 0, never None) always take the new value; an optional key
      keeps its old value when the new one is None. */
  function Merge(existing: Event, data: Event): (r: Event)
    ensures forall f :: FieldValue(r, f) == MergedValue(existing, data, f)
    ensures r.id == data.id && r.name == data.name && r.location == data.location
    ensures r.attendees == data.attendees
  {
    Event(data.id, data.name, data.location,
          if data.description.Some? then data.description else existing.description,
          if data.startTime.Some? then data.startTime else existing.startTime,
          if data.endTime.Some? then data.endTime else existing.endTime,
          if data.capacity.Some? then data.capacity else existing.capacity,
          data.attendees)
  }

  /** update_event: overwrite, in the first event with this id, every key whose new value is
      not None; 404 if there is no such event. */
  method UpdateEvent(store: Store, id: string, data: Event) returns (r: Response<EventMessageBody>)
    modifies store`events
    ensures NoEventWithId(old(store.events), id) ==>
              r == NotFound(EventNotFound) && store.events == old(store.events)
    ensures forall k :: IsFirstMatch(old(store.events), id, k) ==>
              && store.events == old(store.events)[k := Merge(old(store.events)[k], data)]
              && r == Ok(EventMessageBody(true, "Event updated successfully", Merge(old(store.events)[k], data)))
  {
    var k := store.IndexOfEvent(id);
    if k == -1 {
      return NotFound(EventNotFound);
    }
    var event := store.events[k];
    ghost var before := event;
    var i := 0;
    while i < |DumpOrder|
      invariant 0 <= i <= |DumpOrder|
      invariant forall j :: 0 <= j < i ==> FieldValue(event, DumpOrder[j]) == MergedValue(before, data, DumpOrder[j])
      invariant forall j :: i <= j < |DumpOrder| ==> FieldValue(event, DumpOrder[j]) == FieldValue(before, DumpOrder[j])
    {
      var key := DumpOrder[i];
      var value := FieldValue(data, key);
      if value != NoneValue {
        event := Assign(event, key, value);
      }
      i := i + 1;
    }
    forall f ensures FieldValue(event, f) == FieldValue(Merge(before, data), f) {
      DumpOrderListsEveryField(f);
    }
    FieldsDetermineEvent(event, Merge(before, data));
    store.events := store.events[k := event];
    r := Ok(EventMessageBody(true, "Event updated successfully", event));
  }

  /** The comprehension of delete_event: every event whose id differs, in order. */
  function WithoutId(events: seq<Event>, id: string): (r: seq<Event>)
    ensures |r| <= |events|
    ensures forall i :: 0 <= i < |r| ==> r[i].id != id && r[i] in events
    ensures forall i :: 0 <= i < |events| && events[i].id != id ==> events[i] in r
    decreases |events|
  {
    if events == [] then []
    else
      var rest := WithoutId(events[1..], id);
      if events[0].id != id then [events[0]] + rest else rest
  }

  /** Filtering a list without the id leaves it as it is. */
  lemma {:induction false} WithoutIdNoMatch(events: seq<Event>, id: string)
    requires NoEventWithId(events, id)
    ensures WithoutId(events, id) == events
    decreases |events|
  {
    if events != [] {
      var x, rest := events[0], events[1..];
      assert NoEventWithId(rest, id) by {
        assert forall j :: 0 <= j < |rest| ==> rest[j] == events[j + 1];
      }
      WithoutIdNoMatch(rest, id);
      assert events == [x] + rest;
    }
  }

  /** Filtering a list with an event with the id `id` at position `k` makes it shorter. */
  lemma {:induction false} WithoutIdShrinks(events: seq<Event>, id: string, k: int)
    requires 0 <= k < |events| && events[k].id == id
    ensures |WithoutId(events, id)| < |events|
    decreases |events|
  {
    if k > 0 {
      var rest := events[1..];
      assert rest[k - 1] == events[k];
      WithoutIdShrinks(rest, id, k - 1);
    }
  }

  /** Filtering removes something exactly when some event carries the id. */
  lemma WithoutIdKeepsLength(events: seq<Event>, id: string)
    ensures |WithoutId(events, id)| == |events| <==> NoEventWithId(events, id)
    ensures NoEventWithId(events, id) ==> WithoutId(events, id) == events
  {
    if NoEventWithId(events, id) {
      WithoutIdNoMatch(events, id);
    } else {
      var k :| 0 <= k < |events| && events[k].id == id;
      WithoutIdShrinks(events, id, k);
    }
  }

  /** Filtering keeps the surviving events in their order: it distributes over concatenation. */
  lemma {:induction false} WithoutIdAppend(a: seq<Event>, b: seq<Event>, id: string)
    ensures WithoutId(a + b, id) == WithoutId(a, id) + WithoutId(b, id)
    decreases |a|
  {
    if a == [] {
      assert a + b == b;
    } else {
      assert (a + b)[1..] == a[1..] + b;
      WithoutIdAppend(a[1..], b, id);
    }
  }

  /** delete_event: drop every event with this id; 404 exactly when the length did not change. */
  method DeleteEvent(store: Store, id: string) returns (r: Response<MessageBody>)
    modifies store`events
    ensures store.events == WithoutId(old(store.events), id)
    ensures r.NotFound? <==> NoEventWithId(old(store.events), id)
    ensures r == if |store.events| == |old(store.events)| then NotFound(EventNotFound)
                 else Ok(MessageBody(true, "Event deleted successfully"))
  {
    var initialCount := |store.events|;
    WithoutIdKeepsLength(store.events, id);
    store.events := WithoutId(store.events, id);
    if |store.events| == initialCount {
      return NotFound(EventNotFound);
    }
    r := Ok(MessageBody(true, "Event deleted successfully"));
  }
}
