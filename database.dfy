/** The in-memory database: the event list, the shared PROOFS dictionary (holding both the
    verifier's usage records and the recorded proofs) and the user table. */
module Database {
  import opened Common

  /** An event dictionary, with the keys of the pydantic Event schema. Times are kept as
      opaque strings. */
  datatype Event = Event(
    id: string,
    name: string,
    location: string,
    description: Option<string>,
    startTime: Option<string>,
    endTime: Option<string>,
    capacity: Option<int>,
    attendees: int)

  /** A value of the PROOFS dictionary. The verifier stores usage records under the hash of a
      code; add_proof stores proof records under whatever key it is given. Only proof records
      have a "user_address" key. */
  datatype Entry =
    | UsageRecord(verifiedAt: int, eventId: string)
    | ProofRecord(userAddress: string, eventId: string, timestamp: string, txHash: string)

  datatype User = User(name: string, email: string, createdAt: string, proofsCount: int)

  /** The four events init_db installs. */
  function SampleEvents(): seq<Event> {
    [
      Event("1", "College Tech Fest", "Main Campus",
            Some("Annual technology festival showcasing student innovations"),
            Some("2024-02-01T09:00:00"), Some("2024-02-01T18:00:00"), Some(500), 0),
      Event("2", "Morning Fitness Challenge", "Hostel Ground",
            Some("Daily fitness and wellness challenge"),
            Some("2024-02-01T06:00:00"), Some("2024-02-01T07:00:00"), Some(100), 0),
      Event("3", "Cultural Dance Night", "Auditorium",
            Some("Celebration of diverse cultural performances"),
            Some("2024-02-02T19:00:00"), Some("2024-02-02T22:00:00"), Some(300), 0),
      Event("4", "Music Competition", "Amphitheater",
            Some("Inter-hostel music competition"),
            Some("2024-02-03T18:00:00"), Some("2024-02-03T21:00:00"), Some(200), 0)
    ]
  }

  /** The event list after init_db: the samples if the list was empty, otherwise untouched. */
  function InitEvents(events: seq<Event>): (r: seq<Event>)
    ensures |r| == if events == [] then 4 else |events|
    ensures events != [] ==> r == events
    ensures events == [] ==> forall i :: 0 <= i < |r| ==> r[i].attendees == 0
  {
    if events == [] then SampleEvents() else events
  }

  /** Calling init_db twice has the effect of calling it once. */
  lemma InitEventsIdempotent(events: seq<Event>)
    ensures InitEvents(InitEvents(events)) == InitEvents(events)
  {
  }

  /** `k` is the position of the first event whose id is `id`. */
  predicate IsFirstMatch(events: seq<Event>, id: string, k: int) {
    0 <= k < |events| && events[k].id == id && forall j :: 0 <= j < k ==> events[j].id != id
  }

  predicate NoEventWithId(events: seq<Event>, id: string) {
    forall j :: 0 <= j < |events| ==> events[j].id != id
  }

  predicate NoDuplicates(keys: seq<string>) {
    forall i, j :: 0 <= i < j < |keys| ==> keys[i] != keys[j]
  }

  /** The values of a dictionary in the order of its keys. */
  function ValuesInOrder(keys: seq<string>, m: map<string, Entry>): (vs: seq<Entry>)
    requires forall i :: 0 <= i < |keys| ==> keys[i] in m
  {
    seq(|keys|, i requires 0 <= i < |keys| => m[keys[i]])
  }

  /** The comprehension of get_user_proofs: the values whose "user_address" is `addr`, in
      order. Reading "user_address" of a usage record raises KeyError, hence the requires. */
  function SelectByUser(values: seq<Entry>, addr: string): (r: seq<Entry>)
    requires forall i :: 0 <= i < |values| ==> values[i].ProofRecord?
    ensures |r| <= |values|
    ensures forall i :: 0 <= i < |r| ==> r[i].ProofRecord? && r[i].userAddress == addr && r[i] in values
    ensures forall i :: 0 <= i < |values| && values[i].userAddress == addr ==> values[i] in r
    decreases |values|
  {
    if values == [] then []
    else
      var rest := SelectByUser(values[1..], addr);
      if values[0].userAddress == addr then [values[0]] + rest else rest
  }

  /** The selection keeps dictionary order: it distributes over concatenation. */
  lemma {:induction false} SelectByUserAppend(a: seq<Entry>, b: seq<Entry>, addr: string)
    requires forall i :: 0 <= i < |a| ==> a[i].ProofRecord?
    requires forall i :: 0 <= i < |b| ==> b[i].ProofRecord?
    ensures SelectByUser(a + b, addr) == SelectByUser(a, addr) + SelectByUser(b, addr)
    decreases |a|
  {
    if a == [] {
      assert a + b == b;
    } else {
      assert (a + b)[1..] == a[1..] + b;
      SelectByUserAppend(a[1..], b, addr);
    }
  }

  /** How many times the selection holds each entry: as often as the input does if the entry
      belongs to `addr`, never otherwise. */
  lemma {:induction false} SelectByUserCounts(values: seq<Entry>, addr: string, e: Entry)
    requires forall i :: 0 <= i < |values| ==> values[i].ProofRecord?
    ensures multiset(SelectByUser(values, addr))[e] ==
            if e.ProofRecord? && e.userAddress == addr then multiset(values)[e] else 0
    decreases |values|
  {
    if values != [] {
      var x, rest := values[0], values[1..];
      SelectByUserCounts(rest, addr, e);
      assert values == [x] + rest;
      var sel := SelectByUser(rest, addr);
      if x.userAddress == addr {
        assert SelectByUser(values, addr) == [x] + sel;
        assert multiset([x] + sel) == multiset{x} + multiset(sel);
      } else {
        assert SelectByUser(values, addr) == sel;
      }
      assert multiset(values) == multiset{x} + multiset(rest);
    }
  }

  class Store {
    var events: seq<Event>
    var proofs: map<string, Entry>
    /** The keys of `proofs` in insertion order, Python's dictionary order. */
    var proofKeys: seq<string>
    var users: map<string, User>

    ghost predicate Valid()
      reads this
    {
      && NoDuplicates(proofKeys)
      && (forall k :: k in proofs <==> k in proofKeys)
    }

    /** The state at import time: every table empty. */
    constructor ()
      ensures Valid()
      ensures events == [] && proofs == map[] && proofKeys == [] && users == map[]
    {
      events := [];
      proofs := map[];
      proofKeys := [];
      users := map[];
    }

    /** `PROOFS.values()`, in dictionary order. */
    function ProofValues(): (vs: seq<Entry>)
      reads this
      requires Valid()
      ensures |vs| == |proofKeys|
      ensures forall i :: 0 <= i < |vs| ==> vs[i] == proofs[proofKeys[i]]
    {
      ValuesInOrder(proofKeys, proofs)
    }

    /** init_db: install the sample events when the list is empty. */
    method InitDb()
      modifies this`events
      ensures events == InitEvents(old(events))
    {
      if events == [] {
        events := SampleEvents();
      }
    }

    /** add_event: append and return the argument. */
    method AddEvent(event: Event) returns (r: Event)
      modifies this`events
      ensures events == old(events) + [event]
      ensures r == event
    {
      events := events + [event];
      r := event;
    }

    /** The search loop of get_event: the position of the first event with this id, or -1. */
    method IndexOfEvent(id: string) returns (k: int)
      ensures -1 <= k < |events|
      ensures k == -1 <==> NoEventWithId(events, id)
      ensures k != -1 ==> IsFirstMatch(events, id, k)
    {
      var i := 0;
      while i < |events|
        invariant 0 <= i <= |events|
        invariant NoEventWithId(events[..i], id)
      {
        if events[i].id == id {
          return i;
        }
        i := i + 1;
      }
      assert events[..i] == events;
      return -1;
    }

    /** get_event: the first event with this id, or None. */
    method GetEvent(id: string) returns (r: Option<Event>)
      ensures r.None? <==> NoEventWithId(events, id)
      ensures r.Some? ==> exists k :: IsFirstMatch(events, id, k) && r.value == events[k]
    {
      var k := IndexOfEvent(id);
      r := if k == -1 then None else Some(events[k]);
    }

    /** `PROOFS[key] = value`: insert at the end, or overwrite in place keeping the key's
        position. */
    method SetProof(key: string, value: Entry)
      requires Valid()
      modifies this`proofs, this`proofKeys
      ensures Valid()
      ensures proofs == old(proofs)[key := value]
      ensures proofKeys == if key in old(proofs) then old(proofKeys) else old(proofKeys) + [key]
      ensures |ProofValues()| == if key in old(proofs) then |old(ProofValues())| else |old(ProofValues())| + 1
      ensures forall i :: 0 <= i < |old(proofKeys)| ==>
                ProofValues()[i] == if old(proofKeys)[i] == key then value else old(ProofValues())[i]
      ensures key !in old(proofs) ==> ProofValues()[|old(proofKeys)|] == value
    {
      if key !in proofs {
        proofKeys := proofKeys + [key];
      }
      proofs := proofs[key := value];
    }

    /** add_proof: store a proof record under `qrHash`, overwriting any entry there. */
    method AddProof(qrHash: string, userAddress: string, eventId: string, txHash: string, recordedAt: string)
      requires Valid()
      modifies this`proofs, this`proofKeys
      ensures Valid()
      ensures proofs == old(proofs)[qrHash := ProofRecord(userAddress, eventId, recordedAt, txHash)]
      ensures proofKeys == if qrHash in old(proofs) then old(proofKeys) else old(proofKeys) + [qrHash]
    {
      SetProof(qrHash, ProofRecord(userAddress, eventId, recordedAt, txHash));
    }

    /** Every PROOFS value has a "user_address" key, so get_user_proofs does not raise. */
    predicate AllHaveUserAddress()
      reads this
    {
      forall k :: k in proofs ==> proofs[k].ProofRecord?
    }

    /** get_user_proofs: the stored values belonging to `addr`, in dictionary order. */
    function GetUserProofs(addr: string): (r: seq<Entry>)
      reads this
      requires Valid()
      requires AllHaveUserAddress()
      ensures forall i :: 0 <= i < |r| ==> r[i].ProofRecord? && r[i].userAddress == addr && r[i] in proofs.Values
      ensures forall k :: k in proofs && proofs[k].userAddress == addr ==> proofs[k] in r
      ensures forall e :: multiset(r)[e] == if e.ProofRecord? && e.userAddress == addr then multiset(ProofValues())[e] else 0
    {
      var vs := ProofValues();
      forall e ensures multiset(SelectByUser(vs, addr))[e] ==
                       if e.ProofRecord? && e.userAddress == addr then multiset(vs)[e] else 0 {
        SelectByUserCounts(vs, addr, e);
      }
      forall k | k in proofs && proofs[k].userAddress == addr ensures proofs[k] in SelectByUser(vs, addr) {
        var i :| 0 <= i < |proofKeys| && proofKeys[i] == k;
        assert vs[i] == proofs[k];
      }
      SelectByUser(vs, addr)
    }

    /** register_user: (re)write the user's record with a zero proof count. */
    method RegisterUser(addr: string, name: string, email: string, createdAt: string)
      modifies this`users
      ensures users == old(users)[addr := User(name, email, createdAt, 0)]
    {
      users := users[addr := User(name, email, createdAt, 0)];
    }

    /** get_user: `USERS.get(addr)`. */
    function GetUser(addr: string): (r: Option<User>)
      reads this
      ensures r.Some? <==> addr in users
      ensures r.Some? ==> r.value == users[addr]
    {
      if addr in users then Some(users[addr]) else None
    }
  }

  /** After register_user(a, n, e), get_user(a) gives name n, email e and no proofs. */
  method RegisterThenGet(store: Store, addr: string, name: string, email: string, createdAt: string)
      returns (u: Option<User>)
    modifies store`users
    ensures u.Some? && u.value.name == name && u.value.email == email && u.value.proofsCount == 0
  {
    store.RegisterUser(addr, name, email, createdAt);
    u := store.GetUser(addr);
  }
}
