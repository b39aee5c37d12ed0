/**
 What every request and job answers and writes, column by column. Nothing here is stated through the
 functions the steps are computed with: these theorems say what those functions must amount to.
 */
module Outcomes {
  import opened Wrappers
  import opened Fsm
  import opened Tickets
  import opened SerialRows
  import opened Queueing
  import opened Serial
  import opened Idempotency

  // ---------- idempotency, as the tables show it ----------

  /** An empty header is no key. */
  predicate NamesKey(header: Option<string>) {
    header.Some? && header.value != ""
  }

  /** An unexpired record of the tenant and the key. */
  ghost predicate Answers(db: Db, tenant: Id, header: Option<string>, r: KeyRecord) {
    NamesKey(header) && r in db.keys && r.tenant == tenant && r.key == header.value && r.expiresAt > db.now
  }

  ghost predicate Unanswered(db: Db, tenant: Id, header: Option<string>) {
    forall r :: r in db.keys ==> !Answers(db, tenant, header, r)
  }

  /** The key is too long for its column, or has a record, expired or not. */
  ghost predicate KeyRefused(db: Db, tenant: Id, header: Option<string>) {
    && NamesKey(header)
    && (|header.value| > 255 || exists r :: r in db.keys && r.tenant == tenant && r.key == header.value)
  }

  /**
   What follows the commit of an effect on ticket `id`: a record for 24 hours, if a key is named, and one
   publication to the ticket's location; or neither, if the record is refused.
   */
  ghost predicate Finished(
    db: Db, tenant: Id, header: Option<string>, hash: Hash, id: nat, resp: Response, after: Db)
    requires id < |after.rows|
  {
    && after.now == db.now
    && if KeyRefused(db, tenant, header) then
         resp == SaveFailed(id) && after.keys == db.keys && after.published == db.published
       else
         && resp == Done(id)
         && after.keys == db.keys +
              (if NamesKey(header) then [KeyRecord(tenant, header.value, hash, id, db.now + 86400)] else [])
         && after.published == db.published + [after.rows[id].ticket.location]
  }

  lemma KeyRefusedIff(db: Db, tenant: Id, header: Option<string>)
    ensures KeyRefused(db, tenant, header) <==>
      ActiveKey(header).Some? && Unsavable(db.keys, tenant, ActiveKey(header).value)
  {
    if ActiveKey(header).Some? {
      var key := ActiveKey(header).value;
      assert forall i :: 0 <= i < |db.keys| && IsFor(db.keys[i], tenant, key) ==> db.keys[i] in db.keys;
    }
  }

  lemma FinishIs(db: Db, rows: seq<Row>, id: nat, tenant: Id, header: Option<string>, hash: Hash)
    requires id < |rows|
    ensures
      var (resp, after) := Finish(db, rows, id, tenant, header, hash);
      after.rows == rows && Finished(db, tenant, header, hash, id, resp, after)
  {
    KeyRefusedIff(db, tenant, header);
  }

  lemma PrecheckIs(db: Db, tenant: Id, header: Option<string>, hash: Option<Hash>)
    requires Valid(db)
    ensures Precheck(db, tenant, header, hash).None? <==> Unanswered(db, tenant, header)
    ensures forall r :: Answers(db, tenant, header, r) ==>
      Precheck(db, tenant, header, hash) ==
        Some(if hash.Some? && r.hash != hash.value then Conflict else Replayed(r.resource))
  {
    match ActiveKey(header)
    case None =>
    case Some(key) =>
      PrecheckIff(db, tenant, header, hash, key);
      forall r | Answers(db, tenant, header, r)
        ensures Lookup(db.keys, db.now, tenant, key) == Some(r) && r.resource < |db.rows|
      {
        LookupIff(db.keys, db.now, tenant, key, r);
      }
      if Lookup(db.keys, db.now, tenant, key).Some? {
        var r := Lookup(db.keys, db.now, tenant, key).value;
        LookupIff(db.keys, db.now, tenant, key, r);
        assert Answers(db, tenant, header, r);
      }
  }

  /** A request that compares bodies gets the recorded ticket, or a conflict. */
  ghost predicate Compared(db: Db, tenant: Id, header: Option<string>, hash: Hash, resp: Response, after: Db) {
    forall r :: Answers(db, tenant, header, r) ==>
      after == db && resp == if r.hash == hash then Replayed(r.resource) else Conflict
  }

  // ---------- creation ----------

  /** One more than every number at the location, starting with 1 and leaving no gap at the top. */
  ghost predicate IsNextNumber(rows: seq<Row>, location: Id, number: nat) {
    && number > 0
    && (forall j :: 0 <= j < |rows| && rows[j].ticket.location == location ==> rows[j].ticket.number < number)
    && (number == 1 ||
        exists j :: 0 <= j < |rows| && rows[j].ticket.location == location && rows[j].ticket.number == number - 1)
  }

  ghost predicate Inserts(
    site: Site, db: Db, tenant: Id, location: Id, service: Option<Id>, priority: Priority,
    header: Option<string>, hash: Hash, resp: Response, after: Db)
  {
    if location !in site.locations || (service.Some? && service.value !in site.services) then
      resp == Broken && after == db
    else
      && |after.rows| == |db.rows| + 1 && after.rows[..|db.rows|] == db.rows
      && var number := after.rows[|db.rows|].ticket.number;
         && IsNextNumber(db.rows, location, number)
         && after.rows[|db.rows|] == Row(
              Ticket(tenant, location, service, None, number, Waiting, priority, db.now, None, None, None),
              [Event(Entered(Created), None, db.now)], [])
         && Finished(db, tenant, header, hash, |db.rows|, resp, after)
  }

  lemma {:induction false} MaxIs(rows: seq<Row>, location: Id)
    ensures IsNextNumber(rows, location, MaxNumber(rows, location) + 1)
  {
    if rows != [] {
      var init, n := rows[..|rows| - 1], |rows| - 1;
      MaxIs(init, location);
      var max := MaxNumber(rows, location);
      forall j | 0 <= j < |rows| && rows[j].ticket.location == location ensures rows[j].ticket.number < max + 1 {
        assert j < n ==> rows[j] == init[j];
      }
      if max > 0 && max == MaxNumber(init, location) {
        var j :| 0 <= j < |init| && init[j].ticket.location == location && init[j].ticket.number == max;
        assert rows[j] == init[j];
      } else if max > 0 {
        assert rows[n].ticket.location == location && rows[n].ticket.number == max;
      }
    }
  }

  lemma CreationIs(site: Site, db: Db, tenant: Id, location: Id, service: Option<Id>, priority: Priority,
                   header: Option<string>, hash: Hash)
    ensures
      var (resp, after) := Creation(site, db, tenant, location, service, priority, header, hash);
      Inserts(site, db, tenant, location, service, priority, header, hash, resp, after)
  {
    MaxIs(db.rows, location);
    FinishIs(db, Inserted(db, tenant, location, service, priority), |db.rows|, tenant, header, hash);
  }

  lemma CreateOutcome(site: Site, db: Db, req: Request, resp: Response, after: Db)
    requires Valid(db) && req.Create? && Step(site, db, req, resp, after)
    ensures forall r :: Answers(db, req.tenant, req.key, r) ==> after == db && resp == Replayed(r.resource)
    ensures Unanswered(db, req.tenant, req.key) ==>
      Inserts(site, db, req.tenant, req.location, req.service, req.priority, req.key,
              site.hash(CreateBody(req.location, req.service, req.priority)), resp, after)
  {
    PrecheckIs(db, req.tenant, req.key, None);
    CreationIs(site, db, req.tenant, req.location, req.service, req.priority, req.key,
               site.hash(CreateBody(req.location, req.service, req.priority)));
  }

  /** The kiosk's tenant is the location's, its priority 5. */
  lemma KioskOutcome(site: Site, db: Db, req: Request, resp: Response, after: Db)
    requires Valid(db) && req.Kiosk? && Step(site, db, req, resp, after)
    ensures req.location !in site.locations ==> resp == NotFound && after == db
    ensures req.location in site.locations ==>
      var tenant := site.locations[req.location];
      && (forall r :: Answers(db, tenant, req.key, r) ==> after == db && resp == Replayed(r.resource))
      && (Unanswered(db, tenant, req.key) ==>
            Inserts(site, db, tenant, req.location, req.service, 5, req.key,
                    site.hash(KioskBody(req.location, req.service)), resp, after))
  {
    if req.location in site.locations {
      var tenant := site.locations[req.location];
      PrecheckIs(db, tenant, req.key, None);
      CreationIs(site, db, tenant, req.location, req.service, 5, req.key,
                 site.hash(KioskBody(req.location, req.service)));
    }
  }

  // ---------- call-next ----------

  /** Waiting at the location, for the service asked for if one is. */
  predicate Wanted(t: Ticket, location: Id, service: Option<Id>) {
    t.location == location && t.status == Waiting && (service.Some? ==> t.service == service)
  }

  /** Better priority, or the same and created earlier. */
  predicate ComesFirst(a: Ticket, b: Ticket) {
    a.priority < b.priority || (a.priority == b.priority && a.createdAt < b.createdAt)
  }

  /** The row `id` is rewritten and no other. */
  ghost predicate OnlyChanges(before: seq<Row>, after: seq<Row>, id: nat) {
    id < |before| == |after| && forall j :: 0 <= j < |before| && j != id ==> after[j] == before[j]
  }

  /** A wanted ticket, before which no wanted ticket comes, is called to the counter. */
  ghost predicate Calls(db: Db, counter: Id, location: Id, service: Option<Id>, id: nat, after: Db) {
    && OnlyChanges(db.rows, after.rows, id)
    && var before := db.rows[id];
       && Wanted(before.ticket, location, service)
       && (forall j :: 0 <= j < |db.rows| && Wanted(db.rows[j].ticket, location, service) ==>
             !ComesFirst(db.rows[j].ticket, before.ticket))
       && after.rows[id] == Row(
            before.ticket.(status := Called, calledAt := Some(db.now), counter := Some(counter)),
            before.log + [Event(Entered(Called), Some(Waiting), db.now)], before.visits)
  }

  lemma MatchesIsWanted(rows: seq<Row>, location: Id, service: Option<Id>)
    ensures forall j :: 0 <= j < |rows| ==>
      (Matches(rows[j], location, service) <==> Wanted(rows[j].ticket, location, service))
  {
  }

  lemma CallsIs(db: Db, counter: Id, location: Id, service: Option<Id>, id: nat, after: Db)
    requires IsNext(db.rows, {}, location, service, id) && after.rows == Claimed(db.rows, id, counter, db.now)
    ensures Calls(db, counter, location, service, id, after)
  {
    MatchesIsWanted(db.rows, location, service);
    forall j | 0 <= j < |db.rows| && Wanted(db.rows[j].ticket, location, service)
      ensures !ComesFirst(db.rows[j].ticket, db.rows[id].ticket)
    {
      assert Matches(db.rows[j], location, service);
    }
  }

  /** An unknown counter, another tenant's counter, a replay, an empty queue, or a call. */
  lemma CallNextOutcome(site: Site, db: Db, req: Request, resp: Response, after: Db)
    requires Valid(db) && req.CallNext? && Step(site, db, req, resp, after)
    ensures req.counter !in site.counters ==> resp == NotFound && after == db
    ensures req.counter in site.counters ==>
      var location, hash := site.counters[req.counter], site.hash(CallNextBody(req.service));
      if location !in site.locations || site.locations[location] != req.tenant then
        resp == Forbidden && after == db
      else
        && Compared(db, req.tenant, req.key, hash, resp, after)
        && (Unanswered(db, req.tenant, req.key) ==>
              if forall j :: 0 <= j < |db.rows| ==> !Wanted(db.rows[j].ticket, location, req.service) then
                resp == Empty && after == db
              else
                && (resp.Done? || resp.SaveFailed?)
                && Calls(db, req.counter, location, req.service, resp.id, after)
                && Finished(db, req.tenant, req.key, hash, resp.id, resp, after))
  {
    if req.counter in site.counters {
      var location, hash := site.counters[req.counter], site.hash(CallNextBody(req.service));
      if location in site.locations && site.locations[location] == req.tenant {
        PrecheckIs(db, req.tenant, req.key, Some(hash));
        if Unanswered(db, req.tenant, req.key) {
          UnansweredCall(site, db, req, resp, after);
        }
      }
    }
  }

  lemma UnansweredCall(site: Site, db: Db, req: Request, resp: Response, after: Db)
    requires Valid(db) && req.CallNext? && Step(site, db, req, resp, after) && Unanswered(db, req.tenant, req.key)
    requires req.counter in site.counters && site.counters[req.counter] in site.locations
    requires site.locations[site.counters[req.counter]] == req.tenant
    ensures
      var location, hash := site.counters[req.counter], site.hash(CallNextBody(req.service));
      if forall j :: 0 <= j < |db.rows| ==> !Wanted(db.rows[j].ticket, location, req.service) then
        resp == Empty && after == db
      else
        && (resp.Done? || resp.SaveFailed?)
        && Calls(db, req.counter, location, req.service, resp.id, after)
        && Finished(db, req.tenant, req.key, hash, resp.id, resp, after)
  {
    var location, hash := site.counters[req.counter], site.hash(CallNextBody(req.service));
    PrecheckIs(db, req.tenant, req.key, Some(hash));
    MatchesIsWanted(db.rows, location, req.service);
    if resp == Empty {
      forall j | 0 <= j < |db.rows| ensures !Wanted(db.rows[j].ticket, location, req.service) {
        assert !Matches(db.rows[j], location, req.service);
      }
    } else {
      var rows := Claimed(db.rows, resp.id, req.counter, db.now);
      FinishIs(db, rows, resp.id, req.tenant, req.key, hash);
      CallsIs(db, req.counter, location, req.service, resp.id, after);
    }
  }

  // ---------- requests on one ticket ----------

  predicate IsTicketRequest(req: Request) {
    req.Hold? || req.Cancel? || req.ReportNoShow? || req.Start? || req.Complete? || req.Transfer?
  }

  /** The statuses from which each request succeeds. */
  predicate Accepts(req: Request, status: Status)
    requires IsTicketRequest(req)
  {
    match req
    case Cancel(_, _) => !IsTerminal(status)
    case ReportNoShow(_, _) => status == Waiting || status == Called
    case Start(_, _, _) => status == Called
    case _ => status == InService
  }

  /** The status entered; a transferred ticket is at once put back in a queue. */
  function Enters(req: Request): Status
    requires IsTicketRequest(req)
  {
    match req
    case Hold(_, _) => Status.Hold
    case Cancel(_, _) => Canceled
    case ReportNoShow(_, _) => NoShow
    case Start(_, _, _) => InService
    case Complete(_, _, _) => Completed
    case Transfer(_, _, _, _) => Transferred
  }

  /** The ticket's columns afterwards; those not named keep their values. */
  function TicketAfter(req: Request, t: Ticket, now: Time): Ticket
    requires IsTicketRequest(req)
  {
    match req
    case Hold(_, _) => t.(status := Status.Hold)
    case Cancel(_, _) => t.(status := Canceled, completedAt := Some(now))
    case ReportNoShow(_, _) => t.(status := NoShow, completedAt := Some(now))
    case Start(_, _, _) => t.(status := InService, startedAt := Some(now))
    case Complete(_, _, _) => t.(status := Completed, completedAt := Some(now))
    case Transfer(_, _, service, location) =>
      t.(status := Waiting, service := Some(service), counter := None,
         location := if location.Some? then location.value else t.location)
  }

  /** Start opens an interaction at the ticket's counter, completion ends the open ones. */
  ghost predicate VisitsAfter(req: Request, before: Row, visits: seq<Interaction>, now: Time) {
    if req.Start? then visits == before.visits + [Interaction(before.ticket.counter, now, None)]
    else if req.Complete? then
      && |visits| == |before.visits|
      && forall i :: 0 <= i < |visits| ==>
           && visits[i].counter == before.visits[i].counter && visits[i].startedAt == before.visits[i].startedAt
           && visits[i].endedAt ==
                if before.visits[i].endedAt.None? then Some(now) else before.visits[i].endedAt
    else visits == before.visits
  }

  /** The event names the status that was read. */
  ghost predicate Written(req: Request, before: Row, read: Status, after: Row, now: Time)
    requires IsTicketRequest(req)
  {
    && after.ticket == TicketAfter(req, before.ticket, now)
    && after.log == before.log + [Event(Entered(Enters(req)), Some(read), now)]
         + (if req.Transfer? then [Event(Entered(Waiting), None, now)] else [])
    && VisitsAfter(req, before, after.visits, now)
  }

  lemma EffectIs(req: Request, row: Row, read: Status, now: Time)
    requires IsTicketRequest(req)
    ensures Written(req, row, read, Effect(row, read, ActionOf(req), now), now)
  {
    if !req.Transfer? {
      var log := row.log + [Event(Entered(Enters(req)), Some(read), now)];
      assert log + [] == log;
    }
  }

  lemma AcceptsIffPermits(req: Request, status: Status)
    requires IsTicketRequest(req) && status !in {Created, Transferred}
    ensures Accepts(req, status) <==> Permits(status, ActionOf(req))
  {
  }

  function HeaderOf(req: Request): Option<string>
    requires IsTicketRequest(req)
  {
    if req.Start? || req.Complete? then req.key else None
  }

  /** Where a transfer leads exists. */
  predicate TargetsExist(site: Site, req: Request) {
    req.Transfer? ==>
      req.targetService in site.services && (req.targetLocation.Some? ==> req.targetLocation.value in site.locations)
  }

  /** The answers to a request no record answers, in the order of the checks; only success writes. */
  ghost predicate Decided(site: Site, db: Db, req: Request, hash: Hash, resp: Response, after: Db)
    requires IsTicketRequest(req)
  {
    if req.id >= |db.rows| then resp == NotFound && after == db
    else if db.rows[req.id].ticket.tenant != req.tenant then resp == Forbidden && after == db
    else if !Accepts(req, db.rows[req.id].ticket.status) then resp == Conflict && after == db
    else if !TargetsExist(site, req) then resp == Broken && after == db
    else
      && OnlyChanges(db.rows, after.rows, req.id)
      && Written(req, db.rows[req.id], db.rows[req.id].ticket.status, after.rows[req.id], db.now)
      && Finished(db, req.tenant, HeaderOf(req), hash, req.id, resp, after)
  }

  lemma OnTicketIs(db: Db, req: Request)
    requires Valid(db) && IsTicketRequest(req)
    ensures OnTicket(db, req.tenant, req.id, ActionOf(req)) ==
      if req.id >= |db.rows| then Err(NotFound)
      else
        var row := db.rows[req.id];
        if row.ticket.tenant != req.tenant then Err(Forbidden)
        else if !Accepts(req, row.ticket.status) then Err(Conflict)
        else Ok(db.rows[req.id := Effect(row, row.ticket.status, ActionOf(req), db.now)])
  {
    if req.id < |db.rows| {
      assert Orderly(db.rows[req.id], db.now);
      AcceptsIffPermits(req, db.rows[req.id].ticket.status);
    }
  }

  lemma UpdateIs(site: Site, db: Db, req: Request, hash: Hash)
    requires Valid(db) && IsTicketRequest(req) && !req.Transfer?
    ensures
      var (resp, after) := UpdateTicket(db, req.tenant, req.id, ActionOf(req), HeaderOf(req), hash);
      Decided(site, db, req, hash, resp, after)
  {
    OnTicketIs(db, req);
    match OnTicket(db, req.tenant, req.id, ActionOf(req))
    case Err(_) =>
    case Ok(rows) =>
      EffectIs(req, db.rows[req.id], db.rows[req.id].ticket.status, db.now);
      FinishIs(db, rows, req.id, req.tenant, HeaderOf(req), hash);
  }

  lemma TransferIs(site: Site, db: Db, req: Request)
    requires Valid(db) && req.Transfer?
    ensures
      var (resp, after) := Serve(site, db, req);
      Decided(site, db, req, 0, resp, after)
  {
    OnTicketIs(db, req);
    match OnTicket(db, req.tenant, req.id, ActionOf(req))
    case Err(_) =>
    case Ok(rows) =>
      EffectIs(req, db.rows[req.id], db.rows[req.id].ticket.status, db.now);
      FinishIs(db, rows, req.id, req.tenant, None, 0);
  }

  /** Hold, cancel, no-show, start, complete and transfer: every answer with its cause, every column. */
  lemma TicketOutcome(site: Site, db: Db, req: Request, resp: Response, after: Db)
    requires Valid(db) && IsTicketRequest(req) && Step(site, db, req, resp, after)
    ensures
      var hash := if req.Start? || req.Complete? then site.hash(TicketBody(req.id)) else 0;
      && Compared(db, req.tenant, HeaderOf(req), hash, resp, after)
      && (Unanswered(db, req.tenant, HeaderOf(req)) ==> Decided(site, db, req, hash, resp, after))
  {
    if req.Transfer? {
      TransferIs(site, db, req);
    } else if req.Start? || req.Complete? {
      var hash := site.hash(TicketBody(req.id));
      PrecheckIs(db, req.tenant, req.key, Some(hash));
      UpdateIs(site, db, req, hash);
    } else {
      UpdateIs(site, db, req, 0);
    }
  }

  /** Unless a record answers it, a request takes effect exactly on the tenant's own ticket in an accepting status. */
  lemma AcceptedIff(site: Site, db: Db, req: Request, resp: Response, after: Db)
    requires Valid(db) && Step(site, db, req, resp, after) && IsTicketRequest(req)
    requires Unanswered(db, req.tenant, HeaderOf(req))
    ensures Effective(resp) <==>
      && req.id < |db.rows| && db.rows[req.id].ticket.tenant == req.tenant
      && Accepts(req, db.rows[req.id].ticket.status) && TargetsExist(site, req)
    ensures !Effective(resp) ==> after == db
    ensures Effective(resp) ==>
      if KeyRefused(db, req.tenant, HeaderOf(req)) then resp == SaveFailed(req.id) && after.published == db.published
      else
        && resp == Done(req.id) && req.id < |after.rows|
        && after.published == db.published + [after.rows[req.id].ticket.location]
  {
    TicketOutcome(site, db, req, resp, after);
  }

  // ---------- jobs and the clock ----------

  /** A sweep turns exactly the tickets CALLED over five minutes ago into NO_SHOW, one event each. */
  lemma SweepIsExact(site: Site, db: Db, resp: Response, after: Db)
    requires Valid(db) && Step(site, db, Sweep, resp, after)
    ensures resp == Ack && |after.rows| == |db.rows|
    ensures after.keys == db.keys && after.published == db.published && after.now == db.now
    ensures forall id :: 0 <= id < |db.rows| ==>
      var row, swept := db.rows[id], after.rows[id];
      if row.ticket.status == Called && row.ticket.calledAt.value + 300 < db.now then
        && swept.ticket == row.ticket.(status := NoShow, completedAt := Some(db.now))
        && swept.log == row.log + [Event(Entered(NoShow), None, db.now)]
        && swept.visits == row.visits
      else swept == row
  {
    forall id | 0 <= id < |db.rows| ensures db.rows[id].ticket.status == Called ==> db.rows[id].ticket.calledAt.Some? {
      assert Orderly(db.rows[id], db.now);
    }
  }

  /** Cleanup deletes exactly the records that expired before now, and touches nothing else. */
  lemma CleanupOutcome(site: Site, db: Db, resp: Response, after: Db)
    requires Step(site, db, Cleanup, resp, after)
    ensures forall r :: r in after.keys <==> r in db.keys && r.expiresAt >= db.now
    ensures resp == Ack && after == db.(keys := after.keys)
  {
    CleanedKeeps(db.keys, db.now);
  }

  /** After a cleanup a key that had a record can be saved exactly if that record had expired before. */
  lemma CleanupFreesKeys(site: Site, db: Db, resp: Response, after: Db, r: KeyRecord)
    requires Valid(db) && Step(site, db, Cleanup, resp, after) && r in db.keys
    ensures !KeyRefused(after, r.tenant, Some(r.key)) <==> r.key == "" || r.expiresAt < db.now
  {
    CleanupOutcome(site, db, resp, after);
    assert |r.key| <= 255;
    forall other | other in db.keys && other.tenant == r.tenant && other.key == r.key ensures other == r {
      SameKeySameRecord(db.keys, other, r);
    }
  }

  lemma TickOutcome(site: Site, db: Db, seconds: Time, resp: Response, after: Db)
    requires Step(site, db, Tick(seconds), resp, after)
    ensures resp == Ack && after == db.(now := db.now + seconds)
  {
  }
}
