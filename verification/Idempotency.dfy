/** Replay of keyed requests, and what expired records do to it. */
module Idempotency {
  import opened Wrappers
  import opened Fsm
  import opened Tickets
  import opened Queueing
  import opened Serial

  // ---------- lookup ----------

  /** With unique keys, lookup finds a record exactly when that record is stored and unexpired. */
  lemma {:induction false} LookupIff(keys: seq<KeyRecord>, now: Time, tenant: Id, key: string, r: KeyRecord)
    requires KeysUnique(keys)
    ensures Lookup(keys, now, tenant, key) == Some(r) <==>
      r in keys && r.tenant == tenant && r.key == key && r.expiresAt > now
  {
    if keys != [] {
      LookupIff(keys[1..], now, tenant, key, r);
      if r in keys[1..] {
        var j :| 1 <= j < |keys| && keys[j] == r;
        assert !IsFor(keys[j], keys[0].tenant, keys[0].key);
      }
    }
  }

  // ---------- replay ----------

  /** Tenant, key header and body hash of a keyed request, and whether a replay compares the hash. */
  datatype Credentials = Credentials(tenant: Id, header: Option<string>, hash: Hash, compared: bool)

  function CredentialsOf(site: Site, req: Request): Option<Credentials> {
    match req
    case Create(tenant, location, service, priority, key) =>
      Some(Credentials(tenant, key, site.hash(CreateBody(location, service, priority)), false))
    case Kiosk(location, service, key) =>
      if location !in site.locations then None
      else Some(Credentials(site.locations[location], key, site.hash(KioskBody(location, service)), false))
    case CallNext(tenant, counter, service, key) =>
      if counter !in site.counters || site.counters[counter] !in site.locations
         || site.locations[site.counters[counter]] != tenant then None
      else Some(Credentials(tenant, key, site.hash(CallNextBody(service)), true))
    case Start(tenant, id, key) => Some(Credentials(tenant, key, site.hash(TicketBody(id)), true))
    case Complete(tenant, id, key) => Some(Credentials(tenant, key, site.hash(TicketBody(id)), true))
    case _ => None
  }

  /** The request bears the record's tenant and key. */
  ghost predicate Bears(site: Site, req: Request, r: KeyRecord) {
    var c := CredentialsOf(site, req);
    c.Some? && c.value.tenant == r.tenant && ActiveKey(c.value.header) == Some(r.key)
  }

  /** Its body is not compared, or has the recorded hash. */
  ghost predicate SameBody(site: Site, req: Request, r: KeyRecord) {
    var c := CredentialsOf(site, req);
    c.Some? && (c.value.compared ==> c.value.hash == r.hash)
  }

  /** The check that precedes a keyed request finds the record. */
  lemma LiveRecordFound(db: Db, header: Option<string>, hash: Option<Hash>, r: KeyRecord)
    requires Valid(db) && r in db.keys && r.expiresAt > db.now && ActiveKey(header) == Some(r.key)
    ensures Precheck(db, r.tenant, header, hash) ==
      Some(if hash.Some? && r.hash != hash.value then Conflict else Replayed(r.resource))
  {
    LookupIff(db.keys, db.now, r.tenant, r.key, r);
    assert r.resource < |db.rows|;
  }

  lemma LiveRecordAnswers(site: Site, db: Db, req: Request, resp: Response, after: Db, r: KeyRecord)
    requires Valid(db) && Step(site, db, req, resp, after)
    requires r in db.keys && r.expiresAt > db.now && Bears(site, req, r)
    ensures after == db
    ensures resp == if SameBody(site, req, r) then Replayed(r.resource) else Conflict
  {
    var c := CredentialsOf(site, req).value;
    LiveRecordFound(db, c.header, if c.compared then Some(c.hash) else None, r);
  }

  lemma StepKeepsRecord(site: Site, db: Db, req: Request, resp: Response, after: Db, r: KeyRecord)
    requires Step(site, db, req, resp, after) && r in db.keys && r.expiresAt > after.now
    ensures r in after.keys && db.now <= after.now
  {
    StepKeys(site, db, req, resp, after);
    StepChange(site, db, req, resp, after);
    CleanedKeeps(db.keys, db.now);
  }

  lemma {:induction false} RunKeepsRecord(site: Site, start: Db, trace: seq<Entry>, r: KeyRecord)
    requires Run(site, start, trace) && r in start.keys && r.expiresAt > End(start, trace).now
    ensures r in End(start, trace).keys && start.now <= End(start, trace).now
  {
    if trace != [] {
      var n := |trace| - 1;
      RunInit(site, start, trace);
      var db, last := End(start, trace[..n]), trace[n];
      StepChange(site, db, last.req, last.resp, last.db);
      RunKeepsRecord(site, start, trace[..n], r);
      StepKeepsRecord(site, db, last.req, last.resp, last.db, r);
    }
  }

  /**
   After any serial run, while a record is unexpired, a request bearing its key changes nothing:
   it gets the recorded ticket, or a conflict if its body is compared and differs.
   */
  lemma ReplayIsStable(site: Site, start: Db, trace: seq<Entry>, r: KeyRecord, req: Request, resp: Response, after: Db)
    requires Valid(start) && Run(site, start, trace) && r in start.keys
    requires r.expiresAt > End(start, trace).now
    requires Bears(site, req, r) && Step(site, End(start, trace), req, resp, after)
    ensures after == End(start, trace)
    ensures resp == if SameBody(site, req, r) then Replayed(r.resource) else Conflict
  {
    RunKeepsRecord(site, start, trace, r);
    RunKeepsValid(site, start, trace);
    LiveRecordAnswers(site, End(start, trace), req, resp, after, r);
  }

  /** A keyed request that succeeds leaves the record a retry will find. */
  lemma SuccessIsRecorded(site: Site, db: Db, req: Request, id: Id, after: Db)
    requires Step(site, db, req, Done(id), after)
    requires CredentialsOf(site, req).Some? && ActiveKey(CredentialsOf(site, req).value.header).Some?
    ensures
      var c := CredentialsOf(site, req).value;
      KeyRecord(c.tenant, ActiveKey(c.header).value, c.hash, id, db.now + TTL) in after.keys
  {
  }

  /** Retrying a keyed request within a day, whatever ran in between, returns the same ticket and does nothing. */
  lemma RetryWithinADay(site: Site, db: Db, req: Request, id: Id, mid: Db, trace: seq<Entry>, resp: Response, after: Db)
    requires Valid(db) && Step(site, db, req, Done(id), mid) && Run(site, mid, trace)
    requires CredentialsOf(site, req).Some? && ActiveKey(CredentialsOf(site, req).value.header).Some?
    ensures End(mid, trace).now < db.now + 86400 && Step(site, End(mid, trace), req, resp, after) ==>
      resp == Replayed(id) && after == End(mid, trace)
  {
    var c := CredentialsOf(site, req).value;
    var r := KeyRecord(c.tenant, ActiveKey(c.header).value, c.hash, id, db.now + TTL);
    SuccessIsRecorded(site, db, req, id, mid);
    StepKeepsValid(site, db, req, Done(id), mid);
    if End(mid, trace).now < db.now + 86400 && Step(site, End(mid, trace), req, resp, after) {
      ReplayIsStable(site, mid, trace, r, req, resp, after);
    }
  }

  // ---------- which keyed requests take effect ----------

  ghost predicate Keyed(site: Site, req: Request, tenant: Id, key: string) {
    var c := CredentialsOf(site, req);
    c.Some? && c.value.tenant == tenant && ActiveKey(c.value.header) == Some(key)
  }

  predicate OwnIn(db: Db, tenant: Id, id: Id, status: Status) {
    id < |db.rows| && db.rows[id].ticket.tenant == tenant && db.rows[id].ticket.status == status
  }

  /** A keyed request would take effect if no record answered it. */
  ghost predicate Ready(site: Site, db: Db, req: Request)
    requires CredentialsOf(site, req).Some?
  {
    match req
    case CallNext(_, counter, service, _) => MatchingIds(db.rows, site.counters[counter], service) != {}
    case Start(tenant, id, _) => OwnIn(db, tenant, id, Called)
    case Complete(tenant, id, _) => OwnIn(db, tenant, id, InService)
    case Create(_, location, service, _, _) => Exists(site, Some(location), service)
    case Kiosk(location, service, _) => Exists(site, Some(location), service)
  }

  lemma PrecheckIff(db: Db, tenant: Id, header: Option<string>, hash: Option<Hash>, key: string)
    requires Valid(db) && ActiveKey(header) == Some(key)
    ensures Precheck(db, tenant, header, hash).None? <==> Lookup(db.keys, db.now, tenant, key).None?
    ensures Precheck(db, tenant, header, hash).Some? ==> !Effective(Precheck(db, tenant, header, hash).value)
  {
    if Lookup(db.keys, db.now, tenant, key).Some? {
      var r := Lookup(db.keys, db.now, tenant, key).value;
      LookupIff(db.keys, db.now, tenant, key, r);
      assert r.resource < |db.rows|;
    }
  }

  lemma CallNextEffectiveIff(site: Site, db: Db, req: Request, resp: Response, after: Db, tenant: Id, key: string)
    requires Valid(db) && Step(site, db, req, resp, after) && req.CallNext? && Keyed(site, req, tenant, key)
    ensures Effective(resp) <==> Lookup(db.keys, db.now, tenant, key).None? && Ready(site, db, req)
    ensures Effective(resp) ==>
      && IsNext(db.rows, {}, site.counters[req.counter], req.service, resp.id)
      && after.rows == Claimed(db.rows, resp.id, req.counter, db.now)
  {
    PrecheckIff(db, tenant, req.key, Some(site.hash(CallNextBody(req.service))), key);
    var queue := MatchingIds(db.rows, site.counters[req.counter], req.service);
    if Effective(resp) {
      assert resp.id in queue;
    } else if queue != {} {
      var id :| id in queue;
      assert Matches(db.rows[id], site.counters[req.counter], req.service);
    }
  }

  lemma CreationEffectiveIff(site: Site, db: Db, req: Request, tenant: Id, key: string)
    requires Valid(db) && (req.Create? || req.Kiosk?) && Keyed(site, req, tenant, key)
    ensures Effective(Serve(site, db, req).0) <==> Lookup(db.keys, db.now, tenant, key).None? && Ready(site, db, req)
  {
    PrecheckIff(db, tenant, req.key, None, key);
  }

  lemma TicketEffectiveIff(site: Site, db: Db, req: Request, tenant: Id, key: string)
    requires Valid(db) && (req.Start? || req.Complete?) && Keyed(site, req, tenant, key)
    ensures Effective(Serve(site, db, req).0) <==> Lookup(db.keys, db.now, tenant, key).None? && Ready(site, db, req)
  {
    PrecheckIff(db, tenant, req.key, Some(site.hash(TicketBody(req.id))), key);
    assert Permits(Called, Action.Start) && Permits(InService, Action.Complete);
  }

  /** The save fails exactly on a key too long or already stored, and then nothing is published. */
  lemma SaveFailsIff(site: Site, db: Db, req: Request, resp: Response, after: Db, tenant: Id, key: string)
    requires Step(site, db, req, resp, after) && Keyed(site, req, tenant, key) && Effective(resp)
    ensures resp.SaveFailed? <==> Unsavable(db.keys, tenant, key)
    ensures resp.SaveFailed? ==> after.keys == db.keys && after.published == db.published
  {
  }

  /** A keyed request takes effect exactly if lookup finds no record and it is ready. */
  lemma EffectiveIff(site: Site, db: Db, req: Request, resp: Response, after: Db, tenant: Id, key: string)
    requires Valid(db) && Step(site, db, req, resp, after) && Keyed(site, req, tenant, key)
    ensures Effective(resp) <==> Lookup(db.keys, db.now, tenant, key).None? && Ready(site, db, req)
    ensures Effective(resp) && Unsavable(db.keys, tenant, key) ==>
      resp == SaveFailed(resp.id) && after.keys == db.keys && after.published == db.published
    ensures Effective(resp) && !Unsavable(db.keys, tenant, key) ==> resp == Done(resp.id)
  {
    if req.CallNext? {
      CallNextEffectiveIff(site, db, req, resp, after, tenant, key);
    } else if req.Create? || req.Kiosk? {
      CreationEffectiveIff(site, db, req, tenant, key);
    } else {
      TicketEffectiveIff(site, db, req, tenant, key);
    }
    if Effective(resp) {
      SaveFailsIff(site, db, req, resp, after, tenant, key);
    }
  }

  // ---------- keys that are never stored, and expired records that cleanup has not reached ----------

  lemma OverlongInvisible(db: Db, tenant: Id, key: string)
    requires Valid(db) && |key| > MAX_KEY
    ensures Lookup(db.keys, db.now, tenant, key).None?
  {
    if Lookup(db.keys, db.now, tenant, key).Some? {
      LookupIff(db.keys, db.now, tenant, key, Lookup(db.keys, db.now, tenant, key).value);
    }
  }

  /** A keyed request, any serial run, and the same request again within a day of the first. */
  ghost predicate Retried(
    site: Site, db: Db, req: Request, r1: Response, mid: Db, trace: seq<Entry>, r2: Response, after: Db)
  {
    && Valid(db) && Step(site, db, req, r1, mid) && Run(site, mid, trace)
    && Step(site, End(mid, trace), req, r2, after)
    && End(mid, trace).now < db.now + TTL
  }

  /**
   Both attempts take effect if and only if both times the request is ready and lookup finds nothing,
   and the first time the key is too long or a record of it, necessarily expired, is stored nevertheless.
   */
  lemma RetryIff(site: Site, db: Db, req: Request, tenant: Id, key: string,
                 r1: Response, mid: Db, trace: seq<Entry>, r2: Response, after: Db)
    requires Retried(site, db, req, r1, mid, trace, r2, after) && Keyed(site, req, tenant, key)
    ensures Effective(r1) && Effective(r2) <==>
      && Unsavable(db.keys, tenant, key) && Lookup(db.keys, db.now, tenant, key).None? && Ready(site, db, req)
      && Lookup(End(mid, trace).keys, End(mid, trace).now, tenant, key).None? && Ready(site, End(mid, trace), req)
  {
    var last := End(mid, trace);
    StepKeepsValid(site, db, req, r1, mid);
    RunKeepsValid(site, mid, trace);
    EffectiveIff(site, db, req, r1, mid, tenant, key);
    EffectiveIff(site, last, req, r2, after, tenant, key);
    if Effective(r1) && !Unsavable(db.keys, tenant, key) {
      RetryWithinADay(site, db, req, r1.id, mid, trace, r2, after);
    }
  }

  ghost predicate NoCleanup(trace: seq<Entry>) {
    forall i :: 0 <= i < |trace| ==> !trace[i].req.Cleanup?
  }

  lemma {:induction false} RunKeepsExpired(site: Site, start: Db, trace: seq<Entry>, r: KeyRecord)
    requires Run(site, start, trace) && NoCleanup(trace) && r in start.keys
    ensures r in End(start, trace).keys && start.now <= End(start, trace).now
  {
    if trace != [] {
      var n := |trace| - 1;
      RunInit(site, start, trace);
      var db, last := End(start, trace[..n]), trace[n];
      RunKeepsExpired(site, start, trace[..n], r);
      StepKeys(site, db, last.req, last.resp, last.db);
      StepChange(site, db, last.req, last.resp, last.db);
    }
  }

  lemma SameKeySameRecord(keys: seq<KeyRecord>, a: KeyRecord, b: KeyRecord)
    requires KeysUnique(keys) && a in keys && b in keys && IsFor(a, b.tenant, b.key)
    ensures a == b
  {
    var i :| 0 <= i < |keys| && keys[i] == a;
    var j :| 0 <= j < |keys| && keys[j] == b;
    assert !(i < j) && !(j < i);
  }

  /** Until cleanup runs, an expired record keeps its key both unanswered and unsavable. */
  lemma ExpiredStaysInvisible(site: Site, start: Db, trace: seq<Entry>, tenant: Id, key: string)
    requires Valid(start) && Run(site, start, trace) && NoCleanup(trace)
    requires Recorded(start.keys, tenant, key) && Lookup(start.keys, start.now, tenant, key).None?
    ensures Lookup(End(start, trace).keys, End(start, trace).now, tenant, key).None?
    ensures Recorded(End(start, trace).keys, tenant, key)
  {
    var i :| 0 <= i < |start.keys| && IsFor(start.keys[i], tenant, key);
    var r := start.keys[i];
    LookupIff(start.keys, start.now, tenant, key, r);
    RunKeepsExpired(site, start, trace, r);
    RunKeepsValid(site, start, trace);
    var last := End(start, trace);
    if Lookup(last.keys, last.now, tenant, key).Some? {
      var other := Lookup(last.keys, last.now, tenant, key).value;
      LookupIff(last.keys, last.now, tenant, key, other);
      SameKeySameRecord(last.keys, r, other);
    }
  }

  /** So does a key too long for its column, with cleanups or without. */
  lemma UnsavableStaysInvisible(site: Site, start: Db, trace: seq<Entry>, tenant: Id, key: string)
    requires Valid(start) && Run(site, start, trace) && (|key| <= MAX_KEY ==> NoCleanup(trace))
    requires Unsavable(start.keys, tenant, key) && Lookup(start.keys, start.now, tenant, key).None?
    ensures Lookup(End(start, trace).keys, End(start, trace).now, tenant, key).None?
    ensures Unsavable(End(start, trace).keys, tenant, key)
  {
    if |key| > MAX_KEY {
      RunKeepsValid(site, start, trace);
      OverlongInvisible(End(start, trace), tenant, key);
    } else {
      ExpiredStaysInvisible(site, start, trace, tenant, key);
    }
  }

  /**
   A keyed creation, from the staff endpoint or the kiosk, repeated within a day before cleanup runs
   creates two tickets if and only if its service and location exist and its key is too long or an
   expired record of it was stored; neither ticket is then published.
   */
  lemma CreationRetryIff(site: Site, db: Db, req: Request, tenant: Id, key: string,
                         r1: Response, mid: Db, trace: seq<Entry>, r2: Response, after: Db)
    requires req.Create? || req.Kiosk?
    requires Retried(site, db, req, r1, mid, trace, r2, after) && Keyed(site, req, tenant, key)
    requires |key| <= MAX_KEY ==> NoCleanup(trace)
    ensures Effective(r1) && Effective(r2) <==>
      && Unsavable(db.keys, tenant, key) && Lookup(db.keys, db.now, tenant, key).None?
      && Exists(site, Some(req.location), req.service)
    ensures Effective(r1) && Effective(r2) ==>
      && r1 == SaveFailed(|db.rows|) && r2 == SaveFailed(|after.rows| - 1) && r1.id < r2.id
      && mid.published == db.published && after.published == End(mid, trace).published
  {
    var last := End(mid, trace);
    RetryIff(site, db, req, tenant, key, r1, mid, trace, r2, after);
    StepKeepsValid(site, db, req, r1, mid);
    RunKeepsValid(site, mid, trace);
    EffectiveIff(site, db, req, r1, mid, tenant, key);
    EffectiveIff(site, last, req, r2, after, tenant, key);
    StepChange(site, db, req, r1, mid);
    StepChange(site, last, req, r2, after);
    RunGrows(site, mid, trace);
    if Unsavable(db.keys, tenant, key) && Lookup(db.keys, db.now, tenant, key).None? {
      UnsavableStaysInvisible(site, mid, trace, tenant, key);
    }
  }

  /**
   A keyed call-next sent twice in a row calls two tickets if and only if its key is too long or an
   expired record of it is stored, and at least two tickets match; neither call is then published.
   */
  lemma CallNextRetryIff(site: Site, db: Db, req: Request, tenant: Id, key: string,
                         r1: Response, mid: Db, r2: Response, after: Db)
    requires req.CallNext? && Retried(site, db, req, r1, mid, [], r2, after) && Keyed(site, req, tenant, key)
    ensures Effective(r1) && Effective(r2) <==>
      && Unsavable(db.keys, tenant, key) && Lookup(db.keys, db.now, tenant, key).None?
      && |MatchingIds(db.rows, site.counters[req.counter], req.service)| >= 2
    ensures Effective(r1) && Effective(r2) ==>
      r1 == SaveFailed(r1.id) && r2 == SaveFailed(r2.id) && r1.id != r2.id && after.published == db.published
  {
    var location := site.counters[req.counter];
    RetryIff(site, db, req, tenant, key, r1, mid, [], r2, after);
    StepKeepsValid(site, db, req, r1, mid);
    CallNextEffectiveIff(site, db, req, r1, mid, tenant, key);
    CallNextEffectiveIff(site, mid, req, r2, after, tenant, key);
    EffectiveIff(site, db, req, r1, mid, tenant, key);
    EffectiveIff(site, mid, req, r2, after, tenant, key);
    if Effective(r1) {
      ClaimRemovesOne(db.rows, location, req.service, r1.id, req.counter, db.now);
    }
  }

  lemma NotReadyAgain(site: Site, db: Db, req: Request, resp: Response, after: Db)
    requires req.Start? || req.Complete?
    requires Step(site, db, req, resp, after) && Effective(resp)
    ensures !Ready(site, after, req)
  {
    assert resp.id == req.id;
    StepChange(site, db, req, resp, after);
  }

  /** Starting or completing twice in a row never takes effect twice, whatever is stored. */
  lemma TicketRetrySafe(site: Site, db: Db, req: Request, tenant: Id, key: string,
                        r1: Response, mid: Db, r2: Response, after: Db)
    requires req.Start? || req.Complete?
    requires Retried(site, db, req, r1, mid, [], r2, after) && Keyed(site, req, tenant, key)
    ensures !(Effective(r1) && Effective(r2))
  {
    RetryIff(site, db, req, tenant, key, r1, mid, [], r2, after);
    if Effective(r1) { NotReadyAgain(site, db, req, r1, mid); }
  }

  function Served(site: Site, db: Db, req: Request): Entry
    requires !req.CallNext?
  {
    var (resp, after) := Serve(site, db, req);
    Entry(req, resp, after)
  }

  /** The first record of a key is stored, and a day later lookup no longer sees it. */
  lemma FirstSave(site: Site, db: Db, req: Request, resp: Response, after: Db, tenant: Id, key: string)
    requires Step(site, db, req, resp, after) && Keyed(site, req, tenant, key) && db.keys == [] && resp.Done?
    ensures Recorded(after.keys, tenant, key) && |after.published| == |db.published| + 1
    ensures Lookup(after.keys, db.now + TTL, tenant, key) == None
  {
    assert |after.keys| == 1 && IsFor(after.keys[0], tenant, key);
    assert Lookup(after.keys[1..], db.now + TTL, tenant, key) == None;
  }

  /** A keyed creation, staff or kiosk, for a service and location that exist. */
  ghost predicate Creates(site: Site, req: Request, tenant: Id, key: string) {
    && (req.Create? || req.Kiosk?) && Keyed(site, req, tenant, key)
    && Exists(site, Some(req.location), req.service)
  }

  /** With a key that is neither answered nor savable, one more creation takes effect and fails its save. */
  lemma StaleCreation(site: Site, db: Db, req: Request, tenant: Id, key: string) returns (after: Db)
    requires Valid(db) && Creates(site, req, tenant, key)
    requires Unsavable(db.keys, tenant, key) && Lookup(db.keys, db.now, tenant, key).None?
    ensures Step(site, db, req, SaveFailed(|db.rows|), after) && Valid(after) && |after.rows| == |db.rows| + 1
    ensures after.keys == db.keys && after.now == db.now && after.published == db.published
  {
    var e := Served(site, db, req);
    after := e.db;
    EffectiveIff(site, db, req, e.resp, after, tenant, key);
    StepChange(site, db, req, e.resp, after);
    CreationId(site, db, req);
    StepKeepsValid(site, db, req, e.resp, after);
  }

  /** The first creation and the day after it. */
  lemma FirstCreation(site: Site, db: Db, req: Request, tenant: Id, key: string) returns (trace: seq<Entry>)
    requires Valid(db) && db.keys == [] && Creates(site, req, tenant, key) && |key| <= MAX_KEY
    ensures Run(site, db, trace) && |trace| == 2 && Valid(End(db, trace))
    ensures trace[0].req == req && trace[0].resp == Done(|db.rows|) && trace[1].req == Tick(TTL)
    ensures
      var after := End(db, trace);
      && |after.rows| == |db.rows| + 1 && |after.published| == |db.published| + 1
      && Recorded(after.keys, tenant, key) && Lookup(after.keys, after.now, tenant, key) == None
  {
    var e := Served(site, db, req);
    EffectiveIff(site, db, req, e.resp, e.db, tenant, key);
    StepChange(site, db, req, e.resp, e.db);
    CreationId(site, db, req);
    FirstSave(site, db, req, e.resp, e.db, tenant, key);
    var day := Served(site, e.db, Tick(TTL));
    TwoSteps(site, db, e, day);
    trace := [e, day];
    RunKeepsValid(site, db, trace);
  }

  lemma StaleCreations(site: Site, db: Db, req: Request, tenant: Id, key: string) returns (trace: seq<Entry>)
    requires Valid(db) && Creates(site, req, tenant, key)
    requires Unsavable(db.keys, tenant, key) && Lookup(db.keys, db.now, tenant, key).None?
    ensures Run(site, db, trace) && |trace| == 2 && trace[0].req == trace[1].req == req
    ensures trace[0].resp == SaveFailed(|db.rows|) && trace[1].resp == SaveFailed(|db.rows| + 1)
    ensures |End(db, trace).rows| == |db.rows| + 2 && End(db, trace).published == db.published
  {
    var db2 := StaleCreation(site, db, req, tenant, key);
    var db3 := StaleCreation(site, db2, req, tenant, key);
    var e2, e3 := Entry(req, SaveFailed(|db.rows|), db2), Entry(req, SaveFailed(|db2.rows|), db3);
    TwoSteps(site, db, e2, e3);
    trace := [e2, e3];
  }

  /** Such a record is reachable: created once, then twice a day later, a keyed ticket becomes three. */
  lemma CreationRetriedAfterADay(site: Site, db: Db, req: Request, tenant: Id, key: string)
    returns (trace: seq<Entry>)
    requires Valid(db) && db.keys == [] && Creates(site, req, tenant, key) && |key| <= MAX_KEY
    ensures Run(site, db, trace) && |trace| == 4
    ensures trace[0].req == trace[2].req == trace[3].req == req && trace[1].req == Tick(TTL)
    ensures trace[0].resp == Done(|db.rows|)
    ensures trace[2].resp == SaveFailed(|db.rows| + 1) && trace[3].resp == SaveFailed(|db.rows| + 2)
    ensures |End(db, trace).rows| == |db.rows| + 3 && |End(db, trace).published| == |db.published| + 1
  {
    var first := FirstCreation(site, db, req, tenant, key);
    var again := StaleCreations(site, End(db, first), req, tenant, key);
    RunConcat(site, db, first, again);
    trace := first + again;
    assert trace[0] == first[0] && trace[1] == first[1] && trace[2] == again[0] && trace[3] == again[1];
  }

  /**
   A key too long for its column needs no day and no record: sent twice, to whatever database, it
   creates two tickets and announces neither.
   */
  lemma OverlongKeyCreatesTwice(site: Site, db: Db, req: Request, tenant: Id, key: string) returns (trace: seq<Entry>)
    requires Valid(db) && Creates(site, req, tenant, key) && |key| > MAX_KEY
    ensures Run(site, db, trace) && |trace| == 2 && trace[0].req == trace[1].req == req
    ensures trace[0].resp == SaveFailed(|db.rows|) && trace[1].resp == SaveFailed(|db.rows| + 1)
    ensures |End(db, trace).rows| == |db.rows| + 2 && End(db, trace).published == db.published
  {
    OverlongInvisible(db, tenant, key);
    trace := StaleCreations(site, db, req, tenant, key);
  }

  /** Call-next of a ticket that may be taken. */
  lemma CallNextCan(site: Site, db: Db, req: Request, tenant: Id, key: string, id: nat)
    returns (resp: Response, after: Db)
    requires Valid(db) && req.CallNext? && Keyed(site, req, tenant, key)
    requires IsNext(db.rows, {}, site.counters[req.counter], req.service, id)
    requires Lookup(db.keys, db.now, tenant, key).None?
    ensures Step(site, db, req, resp, after) && Effective(resp) && resp.id == id
    ensures after.rows == Claimed(db.rows, id, req.counter, db.now) && after.now == db.now
  {
    PrecheckIff(db, tenant, req.key, Some(site.hash(CallNextBody(req.service))), key);
    var hash := site.hash(CallNextBody(req.service));
    var result := Finish(db, Claimed(db.rows, id, req.counter, db.now), id, tenant, req.key, hash);
    resp, after := result.0, result.1;
  }

  /** Tickets from `first` on wait at the location, all alike. */
  ghost predicate AlikeFrom(rows: seq<Row>, location: Id, first: nat) {
    && first <= |rows|
    && (forall id :: 0 <= id < first ==> rows[id].ticket.status != Waiting)
    && forall id :: first <= id < |rows| ==>
         Matches(rows[id], location, None) && rows[id].ticket.priority == 5 && rows[id].ticket.createdAt == 0
  }

  lemma AlikeCall(rows: seq<Row>, location: Id, first: nat, counter: Id, at: Time)
    requires AlikeFrom(rows, location, first) && first < |rows|
    ensures IsNext(rows, {}, location, None, first) && AlikeFrom(Claimed(rows, first, counter, at), location, first + 1)
  {
  }

  lemma ThreeCreations(site: Site, tenant: Id, location: Id) returns (trace: seq<Entry>)
    requires location in site.locations
    ensures Run(site, EMPTY_DB, trace) && |trace| == 3
    ensures
      var db := End(EMPTY_DB, trace);
      |db.rows| == 3 && AlikeFrom(db.rows, location, 0) && db.keys == [] && db.now == 0 && |db.published| == 3
  {
    var req := Create(tenant, location, None, 5, None);
    var first := Served(site, EMPTY_DB, req);
    var second := Served(site, first.db, req);
    var third := Served(site, second.db, req);
    trace := [first, second, third];
  }

  /** With a key that is neither answered nor savable, one more call takes the next ticket and fails its save. */
  lemma StaleCall(site: Site, db: Db, req: Request, tenant: Id, key: string, first: nat)
    returns (resp: Response, after: Db)
    requires Valid(db) && req.CallNext? && req.service.None? && Keyed(site, req, tenant, key)
    requires AlikeFrom(db.rows, site.counters[req.counter], first) && first < |db.rows|
    requires Unsavable(db.keys, tenant, key) && Lookup(db.keys, db.now, tenant, key).None?
    ensures Step(site, db, req, resp, after) && resp == SaveFailed(first) && Valid(after)
    ensures AlikeFrom(after.rows, site.counters[req.counter], first + 1) && |after.rows| == |db.rows|
    ensures after.keys == db.keys && after.now == db.now && after.published == db.published
  {
    AlikeCall(db.rows, site.counters[req.counter], first, req.counter, db.now);
    resp, after := CallNextCan(site, db, req, tenant, key, first);
    EffectiveIff(site, db, req, resp, after, tenant, key);
    StepKeepsValid(site, db, req, resp, after);
  }

  /** The first call and the day after it. */
  lemma FirstCall(site: Site, db: Db, req: Request, tenant: Id, key: string) returns (trace: seq<Entry>)
    requires Valid(db) && req.CallNext? && req.service.None? && Keyed(site, req, tenant, key) && |key| <= MAX_KEY
    requires AlikeFrom(db.rows, site.counters[req.counter], 0) && |db.rows| > 0 && db.keys == []
    ensures Run(site, db, trace) && |trace| == 2 && Valid(End(db, trace))
    ensures trace[0].req == req && trace[0].resp == Done(0) && trace[1].req == Tick(TTL)
    ensures
      var after := End(db, trace);
      && AlikeFrom(after.rows, site.counters[req.counter], 1)
      && |after.rows| == |db.rows| && |after.published| == |db.published| + 1
      && Recorded(after.keys, tenant, key) && Lookup(after.keys, after.now, tenant, key) == None
  {
    AlikeCall(db.rows, site.counters[req.counter], 0, req.counter, db.now);
    var resp, next := CallNextCan(site, db, req, tenant, key, 0);
    EffectiveIff(site, db, req, resp, next, tenant, key);
    FirstSave(site, db, req, resp, next, tenant, key);
    var day := Served(site, next, Tick(TTL));
    TwoSteps(site, db, Entry(req, resp, next), day);
    trace := [Entry(req, resp, next), day];
    RunKeepsValid(site, db, trace);
  }

  lemma StaleCalls(site: Site, db: Db, req: Request, tenant: Id, key: string, first: nat) returns (trace: seq<Entry>)
    requires Valid(db) && req.CallNext? && req.service.None? && Keyed(site, req, tenant, key)
    requires AlikeFrom(db.rows, site.counters[req.counter], first) && first + 2 <= |db.rows|
    requires Unsavable(db.keys, tenant, key) && Lookup(db.keys, db.now, tenant, key).None?
    ensures Run(site, db, trace) && |trace| == 2 && trace[0].req == trace[1].req == req
    ensures trace[0].resp == SaveFailed(first) && trace[1].resp == SaveFailed(first + 1)
    ensures End(db, trace).published == db.published
  {
    var r2, db2 := StaleCall(site, db, req, tenant, key, first);
    var r3, db3 := StaleCall(site, db2, req, tenant, key, first + 1);
    TwoSteps(site, db, Entry(req, r2, db2), Entry(req, r3, db3));
    trace := [Entry(req, r2, db2), Entry(req, r3, db3)];
  }

  lemma CallsRetried(site: Site, db: Db, req: Request, tenant: Id, key: string) returns (trace: seq<Entry>)
    requires Valid(db) && req.CallNext? && req.service.None? && Keyed(site, req, tenant, key) && |key| <= MAX_KEY
    requires AlikeFrom(db.rows, site.counters[req.counter], 0) && |db.rows| == 3 && db.keys == []
    ensures Run(site, db, trace) && |trace| == 4 && trace[1].req == Tick(TTL)
    ensures trace[0].req == trace[2].req == trace[3].req == req
    ensures trace[0].resp == Done(0) && trace[2].resp == SaveFailed(1) && trace[3].resp == SaveFailed(2)
    ensures |End(db, trace).published| == |db.published| + 1
  {
    var called := FirstCall(site, db, req, tenant, key);
    var again := StaleCalls(site, End(db, called), req, tenant, key, 1);
    RunConcat(site, db, called, again);
    trace := called + again;
    assert trace[0] == called[0] && trace[1] == called[1] && trace[2] == again[0] && trace[3] == again[1];
  }

  /** A keyed call-next answered, and sent twice a day later, calls three tickets and announces one. */
  lemma CallNextRetriedAfterADay(site: Site, tenant: Id, counter: Id, key: string) returns (trace: seq<Entry>)
    requires Keyed(site, CallNext(tenant, counter, None, Some(key)), tenant, key) && |key| <= MAX_KEY
    ensures Run(site, EMPTY_DB, trace) && |trace| == 7
    ensures trace[3].req == trace[5].req == trace[6].req == CallNext(tenant, counter, None, Some(key))
    ensures trace[4].req == Tick(TTL)
    ensures trace[3].resp == Done(0) && trace[5].resp == SaveFailed(1) && trace[6].resp == SaveFailed(2)
    ensures |End(EMPTY_DB, trace).published| == 4
  {
    var created := ThreeCreations(site, tenant, site.counters[counter]);
    RunKeepsValid(site, EMPTY_DB, created);
    var called := CallsRetried(site, End(EMPTY_DB, created), CallNext(tenant, counter, None, Some(key)), tenant, key);
    RunConcat(site, EMPTY_DB, created, called);
    trace := created + called;
  }

  /** And a call-next sent twice with such a key calls two tickets and announces neither. */
  lemma OverlongKeyCallsTwice(site: Site, tenant: Id, counter: Id, key: string) returns (trace: seq<Entry>)
    requires Keyed(site, CallNext(tenant, counter, None, Some(key)), tenant, key) && |key| > MAX_KEY
    ensures Run(site, EMPTY_DB, trace) && |trace| == 5
    ensures trace[3].req == trace[4].req == CallNext(tenant, counter, None, Some(key))
    ensures trace[3].resp == SaveFailed(0) && trace[4].resp == SaveFailed(1)
    ensures |End(EMPTY_DB, trace).published| == 3
  {
    var created := ThreeCreations(site, tenant, site.counters[counter]);
    RunKeepsValid(site, EMPTY_DB, created);
    var db := End(EMPTY_DB, created);
    OverlongInvisible(db, tenant, key);
    var called := StaleCalls(site, db, CallNext(tenant, counter, None, Some(key)), tenant, key, 0);
    RunConcat(site, EMPTY_DB, created, called);
    trace := created + called;
  }

  // ---------- cleanup ----------

  /** The same database, except that `cleaned` may lack records that have expired. */
  ghost predicate OnlyExpiredGone(kept: Db, cleaned: Db) {
    && kept.rows == cleaned.rows && kept.now == cleaned.now && kept.published == cleaned.published
    && KeysUnique(kept.keys) && KeysUnique(cleaned.keys)
    && (forall r :: r in cleaned.keys ==> r in kept.keys)
    && forall r :: r in kept.keys && r.expiresAt >= kept.now ==> r in cleaned.keys
  }

  lemma SameLookup(kept: Db, cleaned: Db, tenant: Id, key: string)
    requires OnlyExpiredGone(kept, cleaned)
    ensures Lookup(kept.keys, kept.now, tenant, key) == Lookup(cleaned.keys, cleaned.now, tenant, key)
  {
    match Lookup(kept.keys, kept.now, tenant, key)
    case Some(r) =>
      LookupIff(kept.keys, kept.now, tenant, key, r);
      LookupIff(cleaned.keys, cleaned.now, tenant, key, r);
    case None =>
      if Lookup(cleaned.keys, cleaned.now, tenant, key).Some? {
        var r := Lookup(cleaned.keys, cleaned.now, tenant, key).value;
        LookupIff(kept.keys, kept.now, tenant, key, r);
        LookupIff(cleaned.keys, cleaned.now, tenant, key, r);
      }
  }

  lemma SamePrecheck(kept: Db, cleaned: Db, tenant: Id, header: Option<string>, hash: Option<Hash>)
    requires OnlyExpiredGone(kept, cleaned)
    ensures Precheck(kept, tenant, header, hash) == Precheck(cleaned, tenant, header, hash)
  {
    match ActiveKey(header)
    case None =>
    case Some(key) => SameLookup(kept, cleaned, tenant, key);
  }

  lemma FewerUnsavable(kept: Db, cleaned: Db, tenant: Id, key: string)
    requires OnlyExpiredGone(kept, cleaned) && !Unsavable(kept.keys, tenant, key)
    ensures !Unsavable(cleaned.keys, tenant, key)
  {
    forall i | 0 <= i < |cleaned.keys| ensures !IsFor(cleaned.keys[i], tenant, key) {
      assert cleaned.keys[i] in kept.keys;
    }
  }

  /** A finish that saves its record here saves it there. */
  lemma SameFinish(kept: Db, cleaned: Db, rows: seq<Row>, id: Id, tenant: Id, header: Option<string>, hash: Hash)
    requires OnlyExpiredGone(kept, cleaned) && id < |rows|
    requires !Finish(kept, rows, id, tenant, header, hash).0.SaveFailed?
    ensures
      var (resp, after) := Finish(kept, rows, id, tenant, header, hash);
      var (resp2, after2) := Finish(cleaned, rows, id, tenant, header, hash);
      resp2 == resp && OnlyExpiredGone(after, after2)
  {
    match ActiveKey(header)
    case None =>
    case Some(key) => FewerUnsavable(kept, cleaned, tenant, key);
  }

  lemma SameUpdate(kept: Db, cleaned: Db, tenant: Id, id: Id, a: Action, header: Option<string>, hash: Hash)
    requires OnlyExpiredGone(kept, cleaned) && !a.Claim? && !a.AutoNoShow?
    requires !UpdateTicket(kept, tenant, id, a, header, hash).0.SaveFailed?
    ensures
      var (resp, after) := UpdateTicket(kept, tenant, id, a, header, hash);
      var (resp2, after2) := UpdateTicket(cleaned, tenant, id, a, header, hash);
      resp2 == resp && OnlyExpiredGone(after, after2)
  {
    assert OnTicket(cleaned, tenant, id, a) == OnTicket(kept, tenant, id, a);
    match OnTicket(kept, tenant, id, a)
    case Err(_) =>
    case Ok(rows) => SameFinish(kept, cleaned, rows, id, tenant, header, hash);
  }

  lemma SameCreation(site: Site, kept: Db, cleaned: Db, tenant: Id, location: Id, service: Option<Id>,
                     priority: Priority, header: Option<string>, hash: Hash)
    requires OnlyExpiredGone(kept, cleaned)
    requires !Creation(site, kept, tenant, location, service, priority, header, hash).0.SaveFailed?
    ensures
      var (resp, after) := Creation(site, kept, tenant, location, service, priority, header, hash);
      var (resp2, after2) := Creation(site, cleaned, tenant, location, service, priority, header, hash);
      resp2 == resp && OnlyExpiredGone(after, after2)
  {
    var rows := Inserted(kept, tenant, location, service, priority);
    assert Inserted(cleaned, tenant, location, service, priority) == rows;
    if Exists(site, Some(location), service) {
      SameFinish(kept, cleaned, rows, |kept.rows|, tenant, header, hash);
    }
  }

  lemma SameTransfer(site: Site, kept: Db, cleaned: Db, tenant: Id, id: Id, service: Id, location: Option<Id>)
    requires OnlyExpiredGone(kept, cleaned)
    ensures
      var (resp, after) := TransferTicket(site, kept, tenant, id, service, location);
      var (resp2, after2) := TransferTicket(site, cleaned, tenant, id, service, location);
      resp2 == resp && OnlyExpiredGone(after, after2)
  {
    var act := Action.Transfer(service, location);
    assert OnTicket(cleaned, tenant, id, act) == OnTicket(kept, tenant, id, act);
    if OnTicket(kept, tenant, id, act).Ok? {
      SameFinish(kept, cleaned, OnTicket(kept, tenant, id, act).value, id, tenant, None, 0);
    }
  }

  lemma SameServe(site: Site, kept: Db, cleaned: Db, req: Request)
    requires OnlyExpiredGone(kept, cleaned) && !req.CallNext? && !Serve(site, kept, req).0.SaveFailed?
    ensures Serve(site, cleaned, req).0 == Serve(site, kept, req).0
    ensures OnlyExpiredGone(Serve(site, kept, req).1, Serve(site, cleaned, req).1)
  {
    match req
    case Create(tenant, location, service, priority, header) =>
      SamePrecheck(kept, cleaned, tenant, header, None);
      if Precheck(kept, tenant, header, None).None? {
        SameCreation(site, kept, cleaned, tenant, location, service, priority, header,
                     site.hash(CreateBody(location, service, priority)));
      }
    case Kiosk(location, service, header) =>
      if location in site.locations {
        var tenant := site.locations[location];
        SamePrecheck(kept, cleaned, tenant, header, None);
        if Precheck(kept, tenant, header, None).None? {
          SameCreation(site, kept, cleaned, tenant, location, service, KIOSK_PRIORITY, header,
                       site.hash(KioskBody(location, service)));
        }
      }
    case Start(tenant, id, header) =>
      var hash := site.hash(TicketBody(id));
      SamePrecheck(kept, cleaned, tenant, header, Some(hash));
      if Precheck(kept, tenant, header, Some(hash)).None? {
        SameUpdate(kept, cleaned, tenant, id, Action.Start, header, hash);
      }
    case Complete(tenant, id, header) =>
      var hash := site.hash(TicketBody(id));
      SamePrecheck(kept, cleaned, tenant, header, Some(hash));
      if Precheck(kept, tenant, header, Some(hash)).None? {
        SameUpdate(kept, cleaned, tenant, id, Action.Complete, header, hash);
      }
    case Hold(tenant, id) => SameUpdate(kept, cleaned, tenant, id, PutOnHold, None, 0);
    case Cancel(tenant, id) => SameUpdate(kept, cleaned, tenant, id, Action.Cancel, None, 0);
    case ReportNoShow(tenant, id) => SameUpdate(kept, cleaned, tenant, id, Action.ReportNoShow, None, 0);
    case Transfer(tenant, id, service, location) =>
      SameTransfer(site, kept, cleaned, tenant, id, service, location);
    case Cleanup =>
      CleanedKeeps(kept.keys, kept.now);
      CleanedKeeps(cleaned.keys, cleaned.now);
    case _ =>
  }

  lemma SameCallNext(site: Site, kept: Db, cleaned: Db, req: Request, resp: Response, after: Db) returns (after2: Db)
    requires OnlyExpiredGone(kept, cleaned) && req.CallNext?
    requires CallNextStep(site, kept, req, resp, after) && !resp.SaveFailed?
    ensures CallNextStep(site, cleaned, req, resp, after2) && OnlyExpiredGone(after, after2)
  {
    var hash := site.hash(CallNextBody(req.service));
    SamePrecheck(kept, cleaned, req.tenant, req.key, Some(hash));
    after2 := cleaned;
    if resp.Done? {
      var rows := Claimed(kept.rows, resp.id, req.counter, kept.now);
      SameFinish(kept, cleaned, rows, resp.id, req.tenant, req.key, hash);
      after2 := Finish(cleaned, rows, resp.id, req.tenant, req.key, hash).1;
    }
  }

  /** A step whose save, if any, succeeds goes the same way on the cleaner database. */
  lemma SameStep(site: Site, kept: Db, cleaned: Db, req: Request, resp: Response, after: Db) returns (after2: Db)
    requires OnlyExpiredGone(kept, cleaned) && Step(site, kept, req, resp, after) && !resp.SaveFailed?
    ensures Step(site, cleaned, req, resp, after2) && OnlyExpiredGone(after, after2)
  {
    if req.CallNext? {
      after2 := SameCallNext(site, kept, cleaned, req, resp, after);
    } else {
      SameServe(site, kept, cleaned, req);
      after2 := Serve(site, cleaned, req).1;
    }
  }

  /** The requests of the trace with cleanups inserted anywhere. */
  ghost predicate Padded(trace: seq<Entry>, reqs: seq<Request>)
    decreases |reqs|
  {
    if reqs == [] then trace == []
    else
      var m := |reqs| - 1;
      || (reqs[m].Cleanup? && Padded(trace, reqs[..m]))
      || (trace != [] && trace[|trace| - 1].req == reqs[m] && Padded(trace[..|trace| - 1], reqs[..m]))
  }

  /** Entry by entry the same responses and databases, up to inserted cleanups and the expired records they took. */
  ghost predicate SameButCleanups(start: Db, trace: seq<Entry>, cleaned: seq<Entry>)
    decreases |cleaned|
  {
    && OnlyExpiredGone(End(start, trace), End(start, cleaned))
    && if cleaned == [] then trace == []
       else
         var last := cleaned[|cleaned| - 1];
         || (last.req.Cleanup? && last.resp == Ack && SameButCleanups(start, trace, cleaned[..|cleaned| - 1]))
         || (&& trace != [] && trace[|trace| - 1].req == last.req && trace[|trace| - 1].resp == last.resp
             && SameButCleanups(start, trace[..|trace| - 1], cleaned[..|cleaned| - 1]))
  }

  ghost predicate SavesSucceed(trace: seq<Entry>) {
    forall i :: 0 <= i < |trace| ==> !trace[i].resp.SaveFailed?
  }

  lemma RunSnoc(site: Site, start: Db, trace: seq<Entry>, e: Entry)
    requires Run(site, start, trace) && Step(site, End(start, trace), e.req, e.resp, e.db)
    ensures Run(site, start, trace + [e]) && End(start, trace + [e]) == e.db
  {
    var longer := trace + [e];
    forall i | 0 <= i < |longer| ensures Step(site, At(start, longer, i), longer[i].req, longer[i].resp, longer[i].db) {
      assert At(start, longer, i) == At(start, trace, i);
      assert i < |trace| ==> longer[i] == trace[i];
    }
  }

  function Requests(trace: seq<Entry>): seq<Request> {
    seq(|trace|, i requires 0 <= i < |trace| => trace[i].req)
  }

  lemma CleaningKeeps(kept: Db, cleaned: Db)
    requires OnlyExpiredGone(kept, cleaned)
    ensures OnlyExpiredGone(kept, cleaned.(keys := Cleaned(cleaned.keys, cleaned.now)))
  {
    CleanedKeeps(cleaned.keys, cleaned.now);
  }

  lemma SnocCleanup(start: Db, trace: seq<Entry>, cleaned: seq<Entry>, e: Entry)
    requires SameButCleanups(start, trace, cleaned) && OnlyExpiredGone(End(start, trace), e.db)
    requires e.req == Cleanup && e.resp == Ack
    ensures SameButCleanups(start, trace, cleaned + [e]) && Requests(cleaned + [e]) == Requests(cleaned) + [Cleanup]
  {
    assert (cleaned + [e])[..|cleaned|] == cleaned;
    assert End(start, cleaned + [e]) == e.db;
  }

  lemma SnocSame(start: Db, trace: seq<Entry>, cleaned: seq<Entry>, e: Entry)
    requires trace != [] && SameButCleanups(start, trace[..|trace| - 1], cleaned)
    requires OnlyExpiredGone(End(start, trace), e.db)
    requires e.req == trace[|trace| - 1].req && e.resp == trace[|trace| - 1].resp
    ensures SameButCleanups(start, trace, cleaned + [e]) && Requests(cleaned + [e]) == Requests(cleaned) + [e.req]
  {
    assert (cleaned + [e])[..|cleaned|] == cleaned;
    assert End(start, cleaned + [e]) == e.db;
  }

  /** One more cleanup after the cleaner run. */
  lemma AddCleanup(site: Site, start: Db, trace: seq<Entry>, cleaned: seq<Entry>) returns (longer: seq<Entry>)
    requires Run(site, start, cleaned) && SameButCleanups(start, trace, cleaned)
    ensures Run(site, start, longer) && SameButCleanups(start, trace, longer)
    ensures Requests(longer) == Requests(cleaned) + [Cleanup]
  {
    var db := End(start, cleaned);
    var e := Served(site, db, Cleanup);
    CleaningKeeps(End(start, trace), db);
    RunSnoc(site, start, cleaned, e);
    SnocCleanup(start, trace, cleaned, e);
    longer := cleaned + [e];
  }

  /** One more step of both runs. */
  lemma AddSame(site: Site, start: Db, trace: seq<Entry>, cleaned: seq<Entry>) returns (longer: seq<Entry>)
    requires trace != [] && Run(site, start, trace) && !trace[|trace| - 1].resp.SaveFailed?
    requires Run(site, start, cleaned) && SameButCleanups(start, trace[..|trace| - 1], cleaned)
    ensures Run(site, start, longer) && SameButCleanups(start, trace, longer)
    ensures Requests(longer) == Requests(cleaned) + [trace[|trace| - 1].req]
  {
    var n := |trace| - 1;
    var last := trace[n];
    RunInit(site, start, trace);
    var after := SameStep(site, End(start, trace[..n]), End(start, cleaned), last.req, last.resp, last.db);
    var e := Entry(last.req, last.resp, after);
    RunSnoc(site, start, cleaned, e);
    SnocSame(start, trace, cleaned, e);
    longer := cleaned + [e];
  }

  lemma {:induction false} CleanupsInserted(site: Site, start: Db, trace: seq<Entry>, reqs: seq<Request>)
    returns (cleaned: seq<Entry>)
    requires KeysUnique(start.keys) && Run(site, start, trace) && SavesSucceed(trace) && Padded(trace, reqs)
    decreases |reqs|
    ensures Run(site, start, cleaned) && SameButCleanups(start, trace, cleaned) && Requests(cleaned) == reqs
  {
    if reqs == [] {
      cleaned := [];
    } else {
      var m := |reqs| - 1;
      assert reqs == reqs[..m] + [reqs[m]];
      if reqs[m].Cleanup? && Padded(trace, reqs[..m]) {
        cleaned := CleanupsInserted(site, start, trace, reqs[..m]);
        cleaned := AddCleanup(site, start, trace, cleaned);
      } else {
        RunInit(site, start, trace);
        cleaned := CleanupsInserted(site, start, trace[..|trace| - 1], reqs[..m]);
        cleaned := AddSame(site, start, trace, cleaned);
      }
    }
  }

  /**
   Cleanups inserted anywhere in a run whose saves all succeed are invisible: the padded run exists,
   with the same responses, rows and publications, and every later lookup gives the same answer.
   */
  lemma CleanupInvisible(site: Site, start: Db, trace: seq<Entry>, reqs: seq<Request>, tenant: Id, key: string)
    returns (cleaned: seq<Entry>)
    requires KeysUnique(start.keys) && Run(site, start, trace) && SavesSucceed(trace) && Padded(trace, reqs)
    ensures Run(site, start, cleaned) && SameButCleanups(start, trace, cleaned) && Requests(cleaned) == reqs
    ensures
      var kept, db := End(start, trace), End(start, cleaned);
      Lookup(kept.keys, kept.now, tenant, key) == Lookup(db.keys, db.now, tenant, key)
  {
    cleaned := CleanupsInserted(site, start, trace, reqs);
    SameLookup(End(start, trace), End(start, cleaned), tenant, key);
  }
}
