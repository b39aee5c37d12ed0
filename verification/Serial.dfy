/**
 Requests and background jobs that run one at a time, as steps between database states. Within a
 request every clock reading is the same instant; both commits of a keyed request happen.
 */
module Serial {
  import opened Wrappers
  import opened Fsm
  import opened Tickets
  import opened SerialRows
  import opened Queueing

  type Hash = nat

  datatype Body =
    | CreateBody(location: Id, service: Option<Id>, priority: Priority)
    | KioskBody(location: Id, service: Option<Id>)
    | CallNextBody(service: Option<Id>)
    | TicketBody(id: Id)

  /** Fixed data: tenant of each location, location of each counter, the services, and the body hash. */
  datatype Site = Site(locations: map<Id, Id>, counters: map<Id, Id>, services: set<Id>, hash: Body -> Hash)

  datatype KeyRecord = KeyRecord(tenant: Id, key: string, hash: Hash, resource: Id, expiresAt: Time)

  /** Tables, clock, and the channel publications made so far. A ticket's id is its row position. */
  datatype Db = Db(rows: seq<Row>, keys: seq<KeyRecord>, now: Time, published: seq<Id>)

  datatype Request =
    | Create(tenant: Id, location: Id, service: Option<Id>, priority: Priority, key: Option<string>)
    | Kiosk(location: Id, service: Option<Id>, key: Option<string>)
    | CallNext(tenant: Id, counter: Id, service: Option<Id>, key: Option<string>)
    | Hold(tenant: Id, id: Id)
    | Cancel(tenant: Id, id: Id)
    | ReportNoShow(tenant: Id, id: Id)
    | Start(tenant: Id, id: Id, key: Option<string>)
    | Complete(tenant: Id, id: Id, key: Option<string>)
    | Transfer(tenant: Id, id: Id, targetService: Id, targetLocation: Option<Id>)
    | Sweep
    | Cleanup
    | Tick(seconds: Time)

  datatype Response =
    | Done(id: Id)         // the request took effect on this ticket
    | Replayed(id: Id)     // an idempotency record answered
    | Empty                // call-next found no ticket
    | NotFound | Forbidden | Conflict
    | Broken               // a foreign key refused the write, and nothing changed
    | SaveFailed(id: Id)   // the effect is committed, then saving the record raised
    | Ack                  // a background job or the clock

  const TTL: Time := 86400
  const KIOSK_PRIORITY: Priority := 5
  const EMPTY_DB := Db([], [], 0, [])

  // ---------- idempotency records ----------

  /** An empty header counts as no key. */
  function ActiveKey(header: Option<string>): Option<string> {
    if header == Some("") then None else header
  }

  predicate IsFor(r: KeyRecord, tenant: Id, key: string) {
    r.tenant == tenant && r.key == key
  }

  /** Lookup sees unexpired records only. */
  function Lookup(keys: seq<KeyRecord>, now: Time, tenant: Id, key: string): Option<KeyRecord> {
    if keys == [] then None
    else if IsFor(keys[0], tenant, key) && keys[0].expiresAt > now then Some(keys[0])
    else Lookup(keys[1..], now, tenant, key)
  }

  /** The unique constraint sees every record, expired or not. */
  predicate Recorded(keys: seq<KeyRecord>, tenant: Id, key: string) {
    exists i :: 0 <= i < |keys| && IsFor(keys[i], tenant, key)
  }

  /** Width of the key column. */
  const MAX_KEY: nat := 255

  /** Saving a record raises: the key is too long for its column, or some record already bears it. */
  predicate Unsavable(keys: seq<KeyRecord>, tenant: Id, key: string) {
    |key| > MAX_KEY || Recorded(keys, tenant, key)
  }

  /** Cleanup deletes what expired strictly before `now`. */
  function Cleaned(keys: seq<KeyRecord>, now: Time): seq<KeyRecord> {
    if keys == [] then []
    else (if keys[0].expiresAt < now then [] else [keys[0]]) + Cleaned(keys[1..], now)
  }

  /** The response of the replay check, or None when the request goes on. Creation ignores the hash. */
  function Precheck(db: Db, tenant: Id, header: Option<string>, hash: Option<Hash>): Option<Response> {
    match ActiveKey(header)
    case None => None
    case Some(key) =>
      match Lookup(db.keys, db.now, tenant, key)
      case None => None
      case Some(r) =>
        if hash.Some? && r.hash != hash.value then Some(Conflict)
        else if r.resource < |db.rows| then Some(Replayed(r.resource))
        else None
  }

  /** Commit the new rows, then save the record, then publish to the ticket's location. */
  function Finish(db: Db, rows: seq<Row>, id: Id, tenant: Id, header: Option<string>, hash: Hash): (Response, Db)
    requires id < |rows|
  {
    var published := db.published + [rows[id].ticket.location];
    match ActiveKey(header)
    case None => (Done(id), db.(rows := rows, published := published))
    case Some(key) =>
      if Unsavable(db.keys, tenant, key) then (SaveFailed(id), db.(rows := rows))
      else
        var r := KeyRecord(tenant, key, hash, id, db.now + TTL);
        (Done(id), db.(rows := rows, keys := db.keys + [r], published := published))
  }

  // ---------- requests ----------

  function Inserted(db: Db, tenant: Id, location: Id, service: Option<Id>, priority: Priority): seq<Row> {
    var number := MaxNumber(db.rows, location) + 1;
    db.rows + [NewRow(NewTicket(tenant, location, service, number, priority, db.now))]
  }

  /** Fetch, tenant check, state-machine check, write. */
  function OnTicket(db: Db, tenant: Id, id: Id, a: Action): (r: Result<seq<Row>, Response>)
    requires !a.Claim? && !a.AutoNoShow?
    ensures r.Ok? ==> id < |r.value| == |db.rows|
  {
    if id >= |db.rows| then Err(NotFound)
    else
      var row := db.rows[id];
      if row.ticket.tenant != tenant then Err(Forbidden)
      else if !Permits(row.ticket.status, a) then Err(Conflict)
      else Ok(db.rows[id := Effect(row, row.ticket.status, a, db.now)])
  }

  /** The rows a ticket's foreign keys would point at exist. */
  predicate Exists(site: Site, location: Option<Id>, service: Option<Id>) {
    && (location.Some? ==> location.value in site.locations)
    && (service.Some? ==> service.value in site.services)
  }

  function Creation(
    site: Site, db: Db, tenant: Id, location: Id, service: Option<Id>, priority: Priority,
    header: Option<string>, hash: Hash): (Response, Db)
  {
    if !Exists(site, Some(location), service) then (Broken, db)
    else Finish(db, Inserted(db, tenant, location, service, priority), |db.rows|, tenant, header, hash)
  }

  function TransferTicket(
    site: Site, db: Db, tenant: Id, id: Id, service: Id, location: Option<Id>): (Response, Db)
  {
    match OnTicket(db, tenant, id, Action.Transfer(service, location))
    case Err(e) => (e, db)
    case Ok(rows) =>
      if !Exists(site, location, Some(service)) then (Broken, db)
      else Finish(db, rows, id, tenant, None, 0)
  }

  function UpdateTicket(db: Db, tenant: Id, id: Id, a: Action, header: Option<string>, hash: Hash): (Response, Db)
    requires !a.Claim? && !a.AutoNoShow?
  {
    match OnTicket(db, tenant, id, a)
    case Err(e) => (e, db)
    case Ok(rows) => Finish(db, rows, id, tenant, header, hash)
  }

  function SweptRow(row: Row, now: Time): Row {
    if Stuck(row, now) then Effect(row, Called, AutoNoShow, now) else row
  }

  function SweptRows(rows: seq<Row>, now: Time): (r: seq<Row>)
    ensures |r| == |rows|
    ensures forall i :: 0 <= i < |r| ==> r[i] == SweptRow(rows[i], now)
  {
    seq(|rows|, i requires 0 <= i < |rows| => SweptRow(rows[i], now))
  }

  function Serve(site: Site, db: Db, req: Request): (Response, Db)
    requires !req.CallNext?
  {
    match req
    case Create(tenant, location, service, priority, key) =>
      (match Precheck(db, tenant, key, None)
       case Some(resp) => (resp, db)
       case None =>
         Creation(site, db, tenant, location, service, priority, key,
                  site.hash(CreateBody(location, service, priority))))
    case Kiosk(location, service, key) =>
      if location !in site.locations then (NotFound, db)
      else
        var tenant := site.locations[location];
        (match Precheck(db, tenant, key, None)
         case Some(resp) => (resp, db)
         case None =>
           Creation(site, db, tenant, location, service, KIOSK_PRIORITY, key,
                    site.hash(KioskBody(location, service))))
    case Hold(tenant, id) => UpdateTicket(db, tenant, id, PutOnHold, None, 0)
    case Cancel(tenant, id) => UpdateTicket(db, tenant, id, Action.Cancel, None, 0)
    case ReportNoShow(tenant, id) => UpdateTicket(db, tenant, id, Action.ReportNoShow, None, 0)
    case Start(tenant, id, key) =>
      var hash := site.hash(TicketBody(id));
      (match Precheck(db, tenant, key, Some(hash))
       case Some(resp) => (resp, db)
       case None => UpdateTicket(db, tenant, id, Action.Start, key, hash))
    case Complete(tenant, id, key) =>
      var hash := site.hash(TicketBody(id));
      (match Precheck(db, tenant, key, Some(hash))
       case Some(resp) => (resp, db)
       case None => UpdateTicket(db, tenant, id, Action.Complete, key, hash))
    case Transfer(tenant, id, service, location) => TransferTicket(site, db, tenant, id, service, location)
    case Sweep => (Ack, db.(rows := SweptRows(db.rows, db.now)))
    case Cleanup => (Ack, db.(keys := Cleaned(db.keys, db.now)))
    case Tick(seconds) => (Ack, db.(now := db.now + seconds))
  }

  /** Call-next, whose choice among tied tickets PostgreSQL leaves open. */
  ghost predicate CallNextStep(site: Site, db: Db, req: Request, resp: Response, after: Db)
    requires req.CallNext?
  {
    if req.counter !in site.counters then resp == NotFound && after == db
    else
      var location := site.counters[req.counter];
      if location !in site.locations || site.locations[location] != req.tenant then resp == Forbidden && after == db
      else
        var hash := site.hash(CallNextBody(req.service));
        match Precheck(db, req.tenant, req.key, Some(hash))
        case Some(early) => resp == early && after == db
        case None =>
          if resp == Empty then after == db && Picks(db.rows, {}, location, req.service, None)
          else
            && (resp.Done? || resp.SaveFailed?)
            && IsNext(db.rows, {}, location, req.service, resp.id)
            && (resp, after) ==
                 Finish(db, Claimed(db.rows, resp.id, req.counter, db.now), resp.id, req.tenant, req.key, hash)
  }

  ghost predicate Step(site: Site, db: Db, req: Request, resp: Response, after: Db) {
    if req.CallNext? then CallNextStep(site, db, req, resp, after)
    else (resp, after) == Serve(site, db, req)
  }

  // ---------- runs ----------

  datatype Entry = Entry(req: Request, resp: Response, db: Db)

  /** The database before entry `i`, or after the last one. */
  function At(start: Db, trace: seq<Entry>, i: nat): Db
    requires i <= |trace|
  {
    if i == 0 then start else trace[i - 1].db
  }

  function End(start: Db, trace: seq<Entry>): Db {
    At(start, trace, |trace|)
  }

  ghost predicate Run(site: Site, start: Db, trace: seq<Entry>) {
    forall i :: 0 <= i < |trace| ==> Step(site, At(start, trace, i), trace[i].req, trace[i].resp, trace[i].db)
  }

  /** Runs with the same databases and entries up to `i` make the same step there. */
  lemma SameStepAt(site: Site, start: Db, trace: seq<Entry>, init: seq<Entry>, i: nat)
    requires init <= trace && i < |init|
    requires Step(site, At(start, trace, i), trace[i].req, trace[i].resp, trace[i].db)
    ensures Step(site, At(start, init, i), init[i].req, init[i].resp, init[i].db)
  {
    assert At(start, init, i) == At(start, trace, i) && init[i] == trace[i];
  }

  lemma RunPrefix(site: Site, start: Db, trace: seq<Entry>, init: seq<Entry>)
    requires Run(site, start, trace) && init <= trace
    ensures Run(site, start, init)
  {
    forall i | 0 <= i < |init| ensures Step(site, At(start, init, i), init[i].req, init[i].resp, init[i].db) {
      SameStepAt(site, start, trace, init, i);
    }
  }

  lemma RunInit(site: Site, start: Db, trace: seq<Entry>)
    requires trace != [] && Run(site, start, trace)
    ensures Run(site, start, trace[..|trace| - 1])
    ensures
      var last := trace[|trace| - 1];
      Step(site, End(start, trace[..|trace| - 1]), last.req, last.resp, last.db) && End(start, trace) == last.db
  {
    var n := |trace| - 1;
    RunPrefix(site, start, trace, trace[..n]);
    assert Step(site, At(start, trace, n), trace[n].req, trace[n].resp, trace[n].db);
    assert End(start, trace[..n]) == At(start, trace, n);
  }

  lemma TwoSteps(site: Site, db: Db, a: Entry, b: Entry)
    requires Step(site, db, a.req, a.resp, a.db) && Step(site, a.db, b.req, b.resp, b.db)
    ensures Run(site, db, [a, b])
  {
    var trace := [a, b];
    forall i | 0 <= i < 2 ensures Step(site, At(db, trace, i), trace[i].req, trace[i].resp, trace[i].db) {
    }
  }

  lemma RunConcat(site: Site, start: Db, a: seq<Entry>, b: seq<Entry>)
    requires Run(site, start, a) && Run(site, End(start, a), b)
    ensures Run(site, start, a + b) && End(start, a + b) == End(End(start, a), b)
  {
    forall i | 0 <= i < |a + b|
      ensures Step(site, At(start, a + b, i), (a + b)[i].req, (a + b)[i].resp, (a + b)[i].db)
    {
      if i < |a| {
        assert At(start, a + b, i) == At(start, a, i);
      } else {
        assert At(start, a + b, i) == At(End(start, a), b, i - |a|) && (a + b)[i] == b[i - |a|];
      }
    }
  }

  // ---------- how a step may change the rows ----------

  /** One row rewritten by a permitted action on its live status. */
  ghost predicate Acted(before: seq<Row>, after: seq<Row>, id: nat, a: Action, now: Time) {
    && id < |before|
    && Permits(before[id].ticket.status, a)
    && after == before[id := Effect(before[id], before[id].ticket.status, a, now)]
  }

  datatype Change =
    | Same
    | Added(tenant: Id, location: Id, service: Option<Id>, priority: Priority)
    | Changed(id: nat, act: Action)
    | SweptAll

  /** The effect of a step on the ticket table, whatever its response. */
  ghost predicate HasChange(db: Db, after: Db, c: Change) {
    match c
    case Same => after.rows == db.rows
    case Added(tenant, location, service, priority) =>
      after.rows == Inserted(db, tenant, location, service, priority)
    case Changed(id, a) => !a.AutoNoShow? && Acted(db.rows, after.rows, id, a, db.now)
    case SweptAll => after.rows == SweptRows(db.rows, db.now)
  }

  function ActionOf(req: Request): Action {
    match req
    case Hold(_, _) => PutOnHold
    case Cancel(_, _) => Action.Cancel
    case ReportNoShow(_, _) => Action.ReportNoShow
    case Start(_, _, _) => Action.Start
    case Complete(_, _, _) => Action.Complete
    case Transfer(_, _, service, location) => Action.Transfer(service, location)
    case CallNext(_, counter, _, _) => Claim(counter)
    case _ => AutoNoShow
  }

  /** A step took effect on a ticket. */
  predicate Effective(resp: Response) {
    resp.Done? || resp.SaveFailed?
  }

  function ChangeOf(site: Site, req: Request, resp: Response): Change {
    if req.Sweep? then SweptAll
    else if !Effective(resp) then Same
    else
      match req
      case Create(tenant, location, service, priority, _) => Added(tenant, location, service, priority)
      case Kiosk(location, service, _) =>
        if location in site.locations then Added(site.locations[location], location, service, KIOSK_PRIORITY) else Same
      case _ => Changed(resp.id, ActionOf(req))
  }

  lemma UpdateTicketChange(db: Db, tenant: Id, id: Id, a: Action, header: Option<string>, hash: Hash)
    requires !a.Claim? && !a.AutoNoShow?
    ensures
      var (resp, after) := UpdateTicket(db, tenant, id, a, header, hash);
      && HasChange(db, after, if Effective(resp) then Changed(resp.id, a) else Same) && after.now == db.now
  {
  }

  lemma CreationChange(site: Site, db: Db, req: Request)
    requires req.Create? || req.Kiosk?
    ensures
      var (resp, after) := Serve(site, db, req);
      HasChange(db, after, ChangeOf(site, req, resp)) && after.now == db.now
  {
  }

  lemma KeyedChange(site: Site, db: Db, req: Request)
    requires req.Start? || req.Complete?
    ensures
      var (resp, after) := Serve(site, db, req);
      HasChange(db, after, ChangeOf(site, req, resp)) && after.now == db.now
  {
    UpdateTicketChange(db, req.tenant, req.id, ActionOf(req), req.key, site.hash(TicketBody(req.id)));
  }

  lemma TransferChange(site: Site, db: Db, req: Request)
    requires req.Transfer?
    ensures
      var (resp, after) := Serve(site, db, req);
      HasChange(db, after, ChangeOf(site, req, resp)) && after.now == db.now
  {
  }

  lemma CreationId(site: Site, db: Db, req: Request)
    requires req.Create? || req.Kiosk?
    ensures Effective(Serve(site, db, req).0) ==> Serve(site, db, req).0.id == |db.rows|
  {
  }

  lemma ServeChange(site: Site, db: Db, req: Request)
    requires !req.CallNext?
    ensures
      var (resp, after) := Serve(site, db, req);
      && HasChange(db, after, ChangeOf(site, req, resp))
      && after.now >= db.now && (req.Tick? || after.now == db.now)
  {
    if req.Create? || req.Kiosk? {
      CreationChange(site, db, req);
    } else if req.Start? || req.Complete? {
      KeyedChange(site, db, req);
    } else if req.Transfer? {
      TransferChange(site, db, req);
    } else if req.Hold? || req.Cancel? || req.ReportNoShow? {
      UpdateTicketChange(db, req.tenant, req.id, ActionOf(req), None, 0);
    }
  }

  lemma CallNextChange(site: Site, db: Db, req: Request, resp: Response, after: Db)
    requires req.CallNext? && CallNextStep(site, db, req, resp, after)
    ensures HasChange(db, after, ChangeOf(site, req, resp)) && after.now == db.now
  {
  }

  lemma StepChange(site: Site, db: Db, req: Request, resp: Response, after: Db)
    requires Step(site, db, req, resp, after)
    ensures HasChange(db, after, ChangeOf(site, req, resp))
    ensures after.now >= db.now && (req.Tick? || after.now == db.now)
  {
    if req.CallNext? { CallNextChange(site, db, req, resp, after); } else { ServeChange(site, db, req); }
  }

  // ---------- validity of every reachable state ----------

  ghost predicate KeysUnique(keys: seq<KeyRecord>) {
    forall i, j :: 0 <= i < j < |keys| ==> !IsFor(keys[j], keys[i].tenant, keys[i].key)
  }

  ghost predicate Valid(db: Db) {
    && (forall id :: 0 <= id < |db.rows| ==> Orderly(db.rows[id], db.now))
    && KeysUnique(db.keys)
    && KeysFit(db)
  }

  /** Records point at tickets, and their keys fit the column. */
  ghost predicate KeysFit(db: Db) {
    forall i :: 0 <= i < |db.keys| ==> db.keys[i].resource < |db.rows| && |db.keys[i].key| <= MAX_KEY
  }

  lemma ChangeKeepsOrderly(db: Db, after: Db, c: Change)
    requires HasChange(db, after, c)
    requires forall id :: 0 <= id < |db.rows| ==> Orderly(db.rows[id], db.now)
    ensures forall id :: 0 <= id < |after.rows| ==> Orderly(after.rows[id], db.now)
  {
    match c
    case Same =>
    case Added(_, _, _, _) => NewRowOrderly(after.rows[|db.rows|].ticket, db.now);
    case Changed(id, a) => EffectOrderly(db.rows[id], a, db.now);
    case SweptAll =>
      forall id | 0 <= id < |db.rows| ensures Orderly(after.rows[id], db.now) {
        if Stuck(db.rows[id], db.now) { EffectOrderly(db.rows[id], AutoNoShow, db.now); }
      }
  }

  lemma {:induction false} CleanedKeeps(keys: seq<KeyRecord>, now: Time)
    ensures forall r :: r in Cleaned(keys, now) <==> r in keys && r.expiresAt >= now
    ensures KeysUnique(keys) ==> KeysUnique(Cleaned(keys, now))
  {
    if keys != [] {
      var rest := Cleaned(keys[1..], now);
      CleanedKeeps(keys[1..], now);
      if KeysUnique(keys) {
        forall j | 0 <= j < |rest| ensures !IsFor(rest[j], keys[0].tenant, keys[0].key) {
          assert rest[j] in keys[1..];
        }
      }
    }
  }

  /** The keys table is kept, cleaned, or extended by one record no other of which bears its key. */
  ghost predicate KeysStep(db: Db, req: Request, resp: Response, after: Db) {
    || after.keys == db.keys
    || (req.Cleanup? && after.keys == Cleaned(db.keys, db.now))
    || (exists r: KeyRecord :: KeySaved(db, r, resp, after))
  }

  ghost predicate KeySaved(db: Db, r: KeyRecord, resp: Response, after: Db) {
    && resp == Done(r.resource) && r.resource < |after.rows|
    && after.keys == db.keys + [r]
    && r.expiresAt == db.now + TTL
    && !Unsavable(db.keys, r.tenant, r.key)
  }

  lemma StepKeys(site: Site, db: Db, req: Request, resp: Response, after: Db)
    requires Step(site, db, req, resp, after)
    ensures KeysStep(db, req, resp, after) && |db.rows| <= |after.rows|
  {
    if after.keys != db.keys && !req.Cleanup? {
      assert KeySaved(db, after.keys[|db.keys|], resp, after);
    }
  }

  lemma {:induction false} RunGrows(site: Site, start: Db, trace: seq<Entry>)
    requires Run(site, start, trace)
    ensures |start.rows| <= |End(start, trace).rows|
  {
    if trace != [] {
      var n := |trace| - 1;
      RunInit(site, start, trace);
      RunGrows(site, start, trace[..n]);
      StepKeys(site, End(start, trace[..n]), trace[n].req, trace[n].resp, trace[n].db);
    }
  }

  lemma StepKeepsKeys(site: Site, db: Db, req: Request, resp: Response, after: Db)
    requires Step(site, db, req, resp, after) && KeysUnique(db.keys)
    requires KeysFit(db)
    ensures KeysUnique(after.keys) && KeysFit(after)
  {
    StepKeys(site, db, req, resp, after);
    if req.Cleanup? {
      CleanedKeeps(db.keys, db.now);
      forall i | 0 <= i < |after.keys|
        ensures after.keys[i].resource < |after.rows| && |after.keys[i].key| <= MAX_KEY
      {
        assert after.keys[i] in db.keys;
      }
    }
  }

  lemma StepKeepsValid(site: Site, db: Db, req: Request, resp: Response, after: Db)
    requires Step(site, db, req, resp, after) && Valid(db)
    ensures Valid(after)
  {
    StepChange(site, db, req, resp, after);
    ChangeKeepsOrderly(db, after, ChangeOf(site, req, resp));
    StepKeepsKeys(site, db, req, resp, after);
    forall id | 0 <= id < |after.rows| ensures Orderly(after.rows[id], after.now) {
      OrderlyLater(after.rows[id], db.now, after.now);
    }
  }

  lemma {:induction false} RunKeepsValid(site: Site, start: Db, trace: seq<Entry>)
    requires Run(site, start, trace) && Valid(start)
    ensures Valid(End(start, trace))
  {
    if trace != [] {
      var n := |trace| - 1;
      RunInit(site, start, trace);
      RunKeepsValid(site, start, trace[..n]);
      StepKeepsValid(site, End(start, trace[..n]), trace[n].req, trace[n].resp, trace[n].db);
    }
  }
}
