/**
 The repository, the ticket service and the background jobs as they are written: methods that
 update the tables in place. Each is proved to make exactly the step its request stands for.
 */
module Stores {
  import opened Wrappers
  import opened Fsm
  import opened Tickets
  import opened Queueing
  import opened Serial

  class Store {
    const site: Site
    var rows: seq<Row>
    var keys: seq<KeyRecord>
    var now: Time
    var published: seq<Id>

    ghost function State(): Db
      reads this
    {
      Db(rows, keys, now, published)
    }

    constructor (site: Site)
      ensures this.site == site && State() == EMPTY_DB
    {
      this.site := site;
      rows, keys, now, published := [], [], 0, [];
    }

    // ---------- ticket_repo ----------

    method NextNumber(location: Id) returns (number: nat)
      ensures number == MaxNumber(rows, location) + 1
    {
      var max := 0;
      for i := 0 to |rows|
        invariant max == MaxNumber(rows[..i], location)
      {
        assert rows[..i + 1][..i] == rows[..i];
        var t := rows[i].ticket;
        if t.location == location && t.number > max {
          max := t.number;
        }
      }
      assert rows[..|rows|] == rows;
      number := max + 1;
    }

    method GetIdempotencyKey(tenant: Id, key: string) returns (found: Option<KeyRecord>)
      ensures found == Lookup(keys, now, tenant, key)
    {
      for i := 0 to |keys|
        invariant Lookup(keys, now, tenant, key) == Lookup(keys[i..], now, tenant, key)
      {
        if IsFor(keys[i], tenant, key) && keys[i].expiresAt > now {
          return Some(keys[i]);
        }
      }
      found := None;
    }

    /** False when the insert raises: the key overflows its column, or the unique constraint holds it. */
    method SaveIdempotencyKey(tenant: Id, key: string, hash: Hash, resource: Id) returns (saved: bool)
      modifies this`keys
      ensures saved <==> |key| <= 255 && !Recorded(old(keys), tenant, key)
      ensures keys == if saved then old(keys) + [KeyRecord(tenant, key, hash, resource, now + TTL)] else old(keys)
    {
      if |key| > MAX_KEY {
        return false;
      }
      for i := 0 to |keys|
        invariant forall j :: 0 <= j < i ==> !IsFor(keys[j], tenant, key)
      {
        if IsFor(keys[i], tenant, key) {
          return false;
        }
      }
      keys := keys + [KeyRecord(tenant, key, hash, resource, now + TTL)];
      saved := true;
    }

    method CallNextTicket(location: Id, counter: Id, service: Option<Id>) returns (pick: Option<nat>)
      modifies this`rows
      ensures Picks(old(rows), {}, location, service, pick)
      ensures rows == if pick.None? then old(rows) else Claimed(old(rows), pick.value, counter, now)
    {
      pick := SelectNext(rows, {}, location, service);
      if pick.Some? {
        var row := rows[pick.value];
        var ticket := row.ticket.(status := Called, calledAt := Some(now), counter := Some(counter));
        var event := Event(Entered(Called), Some(Waiting), now);
        rows := rows[pick.value := Row(ticket, row.log + [event], row.visits)];
      }
    }

    method TransitionStatus(id: nat, target: Status) returns (result: Result<Status, InvalidTransition>)
      requires id < |rows|
      modifies this`rows
      ensures result == Transition(old(rows)[id].ticket.status, target)
      ensures result.Err? ==> rows == old(rows)
      ensures result.Ok? ==>
        var row := old(rows)[id];
        var event := Event(Entered(target), Some(row.ticket.status), now);
        var ticket := row.ticket.(
          status := target,
          startedAt := if target == InService then Some(now) else row.ticket.startedAt,
          completedAt := if target in {Completed, Canceled, NoShow} then Some(now) else row.ticket.completedAt);
        rows == old(rows)[id := Row(ticket, row.log + [event], row.visits)]
    {
      var row := rows[id];
      var current := row.ticket.status;
      result := Transition(current, target);
      if result.Ok? {
        var ticket := row.ticket.(status := target);
        if target == InService {
          ticket := ticket.(startedAt := Some(now));
        } else if target == Completed || target == Canceled || target == NoShow {
          ticket := ticket.(completedAt := Some(now));
        }
        var event := Event(EventTypeFor(current, target), Some(current), now);
        rows := rows[id := Row(ticket, row.log + [event], row.visits)];
      }
    }

    // ---------- ticket_service, counters, kiosk ----------

    method ReplayCheck(tenant: Id, header: Option<string>, hash: Option<Hash>) returns (early: Option<Response>)
      ensures early == Precheck(State(), tenant, header, hash)
    {
      early := None;
      if header.Some? && header.value != "" {
        var existing := GetIdempotencyKey(tenant, header.value);
        if existing.Some? {
          if hash.Some? && existing.value.hash != hash.value {
            early := Some(Conflict);
          } else if existing.value.resource < |rows| {
            early := Some(Replayed(existing.value.resource));
          }
        }
      }
    }

    method PublishSignage(location: Id)
      modifies this`published
      ensures published == old(published) + [location]
    {
      published := published + [location];
    }

    /** What follows the first commit: save the record, then publish. */
    method SaveAndPublish(id: nat, tenant: Id, header: Option<string>, hash: Hash) returns (resp: Response)
      requires id < |rows|
      modifies this`keys, this`published
      ensures (resp, State()) == Finish(old(State()), rows, id, tenant, header, hash)
    {
      if header.Some? && header.value != "" {
        var saved := SaveIdempotencyKey(tenant, header.value, hash, id);
        if !saved {
          return SaveFailed(id);
        }
      }
      PublishSignage(rows[id].ticket.location);
      resp := Done(id);
    }

    method InsertTicket(tenant: Id, location: Id, service: Option<Id>, priority: Priority) returns (id: nat)
      modifies this`rows
      ensures id == |old(rows)| && rows == Inserted(old(State()), tenant, location, service, priority)
    {
      var number := NextNumber(location);
      id := |rows|;
      rows := rows + [NewRow(NewTicket(tenant, location, service, number, priority, now))];
    }

    method CreateTicket(tenant: Id, location: Id, service: Option<Id>, priority: Priority, key: Option<string>)
      returns (resp: Response)
      modifies this
      ensures Step(site, old(State()), Create(tenant, location, service, priority, key), resp, State())
    {
      var early := ReplayCheck(tenant, key, None);
      if early.Some? {
        return early.value;
      }
      if !Exists(site, Some(location), service) {
        return Broken;
      }
      var id := InsertTicket(tenant, location, service, priority);
      resp := SaveAndPublish(id, tenant, key, site.hash(CreateBody(location, service, priority)));
    }

    method KioskCreateTicket(location: Id, service: Option<Id>, key: Option<string>) returns (resp: Response)
      modifies this
      ensures Step(site, old(State()), Kiosk(location, service, key), resp, State())
    {
      if location !in site.locations {
        return NotFound;
      }
      var tenant := site.locations[location];
      var early := ReplayCheck(tenant, key, None);
      if early.Some? {
        return early.value;
      }
      if !Exists(site, Some(location), service) {
        return Broken;
      }
      var id := InsertTicket(tenant, location, service, 5);
      resp := SaveAndPublish(id, tenant, key, site.hash(KioskBody(location, service)));
    }

    method CallNext(tenant: Id, counter: Id, service: Option<Id>, key: Option<string>) returns (resp: Response)
      modifies this
      ensures Step(site, old(State()), Request.CallNext(tenant, counter, service, key), resp, State())
    {
      if counter !in site.counters {
        return NotFound;
      }
      var location := site.counters[counter];
      if location !in site.locations || site.locations[location] != tenant {
        return Forbidden;
      }
      var hash := site.hash(CallNextBody(service));
      var early := ReplayCheck(tenant, key, Some(hash));
      if early.Some? {
        return early.value;
      }
      var pick := CallNextTicket(location, counter, service);
      if pick.None? {
        return Empty;
      }
      resp := SaveAndPublish(pick.value, tenant, key, hash);
    }

    /** `get_or_404` and the tenant check. */
    method Fetch(tenant: Id, id: Id) returns (refused: Option<Response>)
      ensures refused ==
        if id >= |rows| then Some(NotFound) else if rows[id].ticket.tenant != tenant then Some(Forbidden) else None
    {
      if id >= |rows| {
        return Some(NotFound);
      }
      refused := if rows[id].ticket.tenant != tenant then Some(Forbidden) else None;
    }

    method HoldTicket(tenant: Id, id: Id) returns (resp: Response)
      modifies this
      ensures Step(site, old(State()), Request.Hold(tenant, id), resp, State())
    {
      var refused := Fetch(tenant, id);
      if refused.Some? {
        return refused.value;
      }
      var result := TransitionStatus(id, Status.Hold);
      if result.Err? {
        return Conflict;
      }
      resp := SaveAndPublish(id, tenant, None, 0);
    }

    method CancelTicket(tenant: Id, id: Id) returns (resp: Response)
      modifies this
      ensures Step(site, old(State()), Request.Cancel(tenant, id), resp, State())
    {
      var refused := Fetch(tenant, id);
      if refused.Some? {
        return refused.value;
      }
      var result := TransitionStatus(id, Canceled);
      if result.Err? {
        return Conflict;
      }
      resp := SaveAndPublish(id, tenant, None, 0);
    }

    method ReportNoShow(tenant: Id, id: Id) returns (resp: Response)
      modifies this
      ensures Step(site, old(State()), Request.ReportNoShow(tenant, id), resp, State())
    {
      var refused := Fetch(tenant, id);
      if refused.Some? {
        return refused.value;
      }
      var result := TransitionStatus(id, NoShow);
      if result.Err? {
        return Conflict;
      }
      resp := SaveAndPublish(id, tenant, None, 0);
    }

    method StartService(tenant: Id, id: Id, key: Option<string>) returns (resp: Response)
      modifies this
      ensures Step(site, old(State()), Request.Start(tenant, id, key), resp, State())
    {
      var hash := site.hash(TicketBody(id));
      var early := ReplayCheck(tenant, key, Some(hash));
      if early.Some? {
        return early.value;
      }
      var refused := Fetch(tenant, id);
      if refused.Some? {
        return refused.value;
      }
      var result := TransitionStatus(id, InService);
      if result.Err? {
        return Conflict;
      }
      var row := rows[id];
      rows := rows[id := row.(visits := row.visits + [Interaction(row.ticket.counter, now, None)])];
      assert rows == old(rows)[id := Effect(old(rows)[id], old(rows)[id].ticket.status, Action.Start, now)];
      resp := SaveAndPublish(id, tenant, key, hash);
    }

    method CompleteTicket(tenant: Id, id: Id, key: Option<string>) returns (resp: Response)
      modifies this
      ensures Step(site, old(State()), Request.Complete(tenant, id, key), resp, State())
    {
      var hash := site.hash(TicketBody(id));
      var early := ReplayCheck(tenant, key, Some(hash));
      if early.Some? {
        return early.value;
      }
      var refused := Fetch(tenant, id);
      if refused.Some? {
        return refused.value;
      }
      var result := TransitionStatus(id, Completed);
      if result.Err? {
        return Conflict;
      }
      var row := rows[id];
      rows := rows[id := row.(visits := Closed(row.visits, now))];
      assert rows == old(rows)[id := Effect(old(rows)[id], old(rows)[id].ticket.status, Action.Complete, now)];
      resp := SaveAndPublish(id, tenant, key, hash);
    }

    method TransferTicket(tenant: Id, id: Id, service: Id, location: Option<Id>) returns (resp: Response)
      modifies this
      ensures Step(site, old(State()), Request.Transfer(tenant, id, service, location), resp, State())
    {
      var refused := Fetch(tenant, id);
      if refused.Some? {
        return refused.value;
      }
      var before := rows;
      var result := TransitionStatus(id, Transferred);
      if result.Err? {
        return Conflict;
      }
      if !Exists(site, location, Some(service)) {
        rows := before; // the transaction rolls back
        return Broken;
      }
      var row := rows[id];
      var place := if location.Some? then location.value else row.ticket.location;
      var ticket := row.ticket.(service := Some(service), location := place, counter := None, status := Waiting);
      rows := rows[id := Row(ticket, row.log + [Event(Entered(Waiting), None, now)], row.visits)];
      assert rows ==
        old(rows)[id := Effect(old(rows)[id], old(rows)[id].ticket.status, Action.Transfer(service, location), now)];
      resp := SaveAndPublish(id, tenant, None, 0);
    }

    // ---------- workers ----------

    method StuckTickets() returns (stuck: seq<nat>)
      ensures NoRepeats(stuck)
      ensures forall id: nat :: id in stuck <==> id < |rows| && Stuck(rows[id], now)
    {
      stuck := [];
      for i := 0 to |rows|
        invariant NoRepeats(stuck)
        invariant forall id: nat :: id in stuck <==> id < i && Stuck(rows[id], now)
      {
        if Stuck(rows[i], now) {
          stuck := stuck + [i];
        }
      }
    }

    method AutoNoShowCalledTickets()
      modifies this`rows
      ensures Step(site, old(State()), Request.Sweep, Ack, State())
    {
      var stuck := StuckTickets();
      for k := 0 to |stuck|
        invariant |rows| == |old(rows)|
        invariant forall id: nat :: id < |rows| ==>
          rows[id] == if id in stuck[..k] then SweptRow(old(rows)[id], now) else old(rows)[id]
      {
        var id := stuck[k];
        assert id in stuck && id !in stuck[..k];
        assert stuck[..k + 1] == stuck[..k] + [id];
        var row := rows[id];
        var ticket := row.ticket.(status := NoShow, completedAt := Some(now));
        rows := rows[id := Row(ticket, row.log + [Event(Entered(NoShow), None, now)], row.visits)];
      }
      assert stuck[..|stuck|] == stuck;
      assert rows == SweptRows(old(rows), now);
    }

    method CleanupIdempotencyKeys()
      modifies this`keys
      ensures Step(site, old(State()), Request.Cleanup, Ack, State())
      ensures forall r :: r in keys <==> r in old(keys) && r.expiresAt >= now
    {
      var kept: seq<KeyRecord> := [];
      for i := 0 to |keys|
        invariant keys == old(keys)
        invariant kept + Cleaned(keys[i..], now) == Cleaned(keys, now)
      {
        if keys[i].expiresAt >= now {
          kept := kept + [keys[i]];
        }
      }
      assert kept + [] == kept;
      CleanedKeeps(keys, now);
      keys := kept;
    }

    method AdvanceClock(seconds: Time)
      modifies this`now
      ensures Step(site, old(State()), Request.Tick(seconds), Ack, State())
    {
      now := now + seconds;
    }
  }
}
