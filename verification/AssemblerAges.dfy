/** When each assembler last received a fragment, and the expiry of those that have been idle for ten round trips. */
module AssemblerAges {

  datatype Event =
    | Stored(id: nat, now: int)               // a fragment has been stored
    | Completed(id: nat)                      // the packet is complete, its assembler removed
    | Expiry(now: int, roundTrip: int)

  function Next(last: map<nat, int>, event: Event): map<nat, int> {
    match event
    case Stored(id, now) => last[id := now]
    case Completed(id) => last - {id}
    case Expiry(now, roundTrip) => map id | id in last && !(now > last[id] + 10 * roundTrip) :: last[id]
  }

  function After(events: seq<Event>): map<nat, int> {
    if events == [] then map[] else Next(After(events[..|events| - 1]), events[|events| - 1])
  }

  /** The `j`th event is the last that has stored a fragment of the packet, which has not been completed since. */
  predicate LastStored(events: seq<Event>, id: nat, j: nat)
    requires j < |events|
  {
    && events[j].Stored? && events[j].id == id
    && forall i :: j < i < |events| && !events[i].Expiry? ==> events[i].id != id
  }

  /** No expiry since the `j`th event came more than ten round trips after it. */
  predicate NeverOld(events: seq<Event>, j: nat)
    requires j < |events| && events[j].Stored?
  {
    forall i :: j < i < |events| && events[i].Expiry? ==> events[i].now - events[j].now <= 10 * events[i].roundTrip
  }

  predicate IsKept(events: seq<Event>, id: nat, j: nat)
    requires j < |events|
  {
    LastStored(events, id, j) && NeverOld(events, j)
  }

  /**
   * An assembler exists if and only if a fragment has been stored in it, its packet has not been completed since, and
   * every expiry since came within ten round trips of its latest fragment.
   */
  lemma {:induction false} KeptExactly(events: seq<Event>, id: nat)
    ensures id in After(events) <==> exists j | 0 <= j < |events| :: IsKept(events, id, j)
    ensures forall j :: 0 <= j < |events| && IsKept(events, id, j) ==> After(events)[id] == events[j].now
    decreases |events|
  {
    if events != [] {
      var n := |events| - 1;
      var before, event := events[..n], events[n];
      KeptExactly(before, id);
      assert IsKept(events, id, n) <==> event.Stored? && event.id == id;
      forall j | 0 <= j < n ensures IsKept(events, id, j) <==> IsKept(before, id, j) && Spares(event, id, before[j]) {
        KeptMore(events, before, event, id, j);
      }
      if id in After(events) && !(event.Stored? && event.id == id) {
        var j :| 0 <= j < n && IsKept(before, id, j);
        assert IsKept(events, id, j);
      }
    }
  }

  /** The event leaves an assembler whose latest fragment came with `stored`. */
  predicate Spares(event: Event, id: nat, stored: Event) {
    match event
    case Stored(i, _) => i != id
    case Completed(i) => i != id
    case Expiry(now, roundTrip) => stored.Stored? && now - stored.now <= 10 * roundTrip
  }

  lemma {:induction false} KeptMore(events: seq<Event>, before: seq<Event>, event: Event, id: nat, j: nat)
    requires events == before + [event] && j < |before|
    ensures IsKept(events, id, j) <==> IsKept(before, id, j) && Spares(event, id, before[j])
  {
    if IsKept(events, id, j) {
      assert events[|before|] == event;
      forall i | j < i < |before| ensures events[i] == before[i] {
      }
    }
  }

  /** The fragment that sets off an expiry does not lose its own assembler, nor any that is not older than it. */
  lemma JustStoredIsKept(last: map<nat, int>, id: nat, now: int, roundTrip: int)
    requires roundTrip >= 0
    ensures id in Next(Next(last, Stored(id, now)), Expiry(now, roundTrip))
  {
  }
}
