/** Properties of every serial run: histories, stamps, the sweep's bound, the waiting count. */
module SerialSafety {
  import opened Wrappers
  import opened Fsm
  import opened Tickets
  import opened SerialRows
  import opened Queueing
  import opened Serial

  /**
   In any serial run from the empty database every ticket's log replays to its status, has the
   length its status and transfers fix (so never more than 5 + 4 per transfer), records true
   previous statuses in time order, and carries ordered stamps.
   */
  lemma SerialHistories(site: Site, trace: seq<Entry>, id: nat)
    requires Run(site, EMPTY_DB, trace) && id < |End(EMPTY_DB, trace).rows|
    ensures
      var db := End(EMPTY_DB, trace);
      var row := db.rows[id];
      && Replay(row.log) == row.ticket.status && row.ticket.status !in {Created, Transferred}
      && LifecycleCount(row.ticket.status, row.log) && |row.log| <= 5 + 4 * Tally(row.log, Transferred)
      && FromFaithful(row.log) && LogTimesOk(row.log, db.now)
      && StampsOk(row.ticket, db.now) && StampsMatchLog(row.ticket, row.log)
      && VisitsMatch(row.ticket, row.visits)
  {
    RunKeepsValid(site, EMPTY_DB, trace);
    assert Orderly(End(EMPTY_DB, trace).rows[id], End(EMPTY_DB, trace).now);
  }

  /** Every duration the KPI queries average is non-negative, stamps left by transfers included. */
  lemma DurationsNonNegative(site: Site, trace: seq<Entry>, id: nat)
    requires Run(site, EMPTY_DB, trace) && id < |End(EMPTY_DB, trace).rows|
    ensures
      var t := End(EMPTY_DB, trace).rows[id].ticket;
      && (t.calledAt.Some? ==> t.calledAt.value - t.createdAt >= 0)
      && (t.completedAt.Some? && t.startedAt.Some? ==> t.completedAt.value - t.startedAt.value >= 0)
  {
    SerialHistories(site, trace, id);
  }

  // ---------- queues ----------

  /** A transferred ticket waits at its new queue in the place its priority and age give it. */
  lemma TransferRequeues(site: Site, db: Db, req: Request, resp: Response, after: Db, other: nat)
    requires Step(site, db, req, resp, after) && req.Transfer? && resp.Done? && resp.id < |db.rows|
    ensures |after.rows| == |db.rows| && resp.id == req.id
    ensures
      var place := if req.targetLocation.Some? then req.targetLocation.value else db.rows[req.id].ticket.location;
      Matches(after.rows[req.id], place, Some(req.targetService))
    ensures other < |db.rows| && other != req.id ==>
      && after.rows[other] == db.rows[other]
      && (Before(after.rows[req.id].ticket, after.rows[other].ticket) <==>
            Before(db.rows[req.id].ticket, db.rows[other].ticket))
      && (Before(after.rows[other].ticket, after.rows[req.id].ticket) <==>
            Before(db.rows[other].ticket, db.rows[req.id].ticket))
  {
  }

  /** A new ticket joins the queue asked for, behind every waiting ticket of the same or better priority. */
  lemma ArrivalGoesToTheBack(site: Site, db: Db, req: Request, id: Id, after: Db, other: nat)
    requires Valid(db) && Step(site, db, req, Done(id), after) && (req.Create? || req.Kiosk?)
    ensures id == |db.rows| && |after.rows| == |db.rows| + 1 && Matches(after.rows[id], req.location, req.service)
    ensures after.rows[id].ticket.priority == if req.Create? then req.priority else 5
    ensures other < |db.rows| ==> after.rows[other] == db.rows[other]
    ensures other < |db.rows| && db.rows[other].ticket.priority <= after.rows[id].ticket.priority ==>
      Before(db.rows[other].ticket, after.rows[id].ticket)
  {
    StepChange(site, db, req, Done(id), after);
    if other < |db.rows| { assert Orderly(db.rows[other], db.now); }
  }

  // ---------- the waiting count ----------

  /** Arrivals minus departures, read from the logs of the tickets now at a location. */
  function BalanceAt(rows: seq<Row>, location: Id): int {
    if rows == [] then 0
    else
      var row := rows[|rows| - 1];
      BalanceAt(rows[..|rows| - 1], location) + if row.ticket.location == location then Balance(row.log) else 0
  }

  lemma {:induction false} CountIsBalance(rows: seq<Row>, now: Time, location: Id)
    requires forall id :: 0 <= id < |rows| ==> Orderly(rows[id], now)
    ensures WaitingCount(rows, location) == BalanceAt(rows, location)
  {
    if rows != [] { CountIsBalance(rows[..|rows| - 1], now, location); }
  }

  lemma WaitingCountConserved(site: Site, trace: seq<Entry>, location: Id)
    requires Run(site, EMPTY_DB, trace)
    ensures WaitingCount(End(EMPTY_DB, trace).rows, location) == BalanceAt(End(EMPTY_DB, trace).rows, location)
  {
    RunKeepsValid(site, EMPTY_DB, trace);
    CountIsBalance(End(EMPTY_DB, trace).rows, End(EMPTY_DB, trace).now, location);
  }

  // ---------- the sweep ----------

  /** When the last sweep ran, or when the run began. */
  function LastSweep(start: Db, trace: seq<Entry>): Time {
    if trace == [] then start.now
    else if trace[|trace| - 1].req.Sweep? then trace[|trace| - 1].db.now
    else LastSweep(start, trace[..|trace| - 1])
  }

  /** Called tickets were called at most five minutes before `sweep`. */
  ghost predicate CallsSince(rows: seq<Row>, sweep: Time) {
    forall id :: 0 <= id < |rows| && rows[id].ticket.status == Called ==>
      rows[id].ticket.calledAt.Some? && sweep <= rows[id].ticket.calledAt.value + NO_SHOW_AFTER
  }

  lemma ChangeKeepsCalls(db: Db, after: Db, c: Change, sweep: Time)
    requires HasChange(db, after, c) && sweep <= db.now && CallsSince(db.rows, sweep)
    ensures CallsSince(after.rows, if c.SweptAll? then db.now else sweep)
  {
    if c.Changed? {
      assert forall id :: 0 <= id < |db.rows| && id != c.id ==> after.rows[id] == db.rows[id];
    }
  }

  lemma {:induction false} RunKeepsCalls(site: Site, start: Db, trace: seq<Entry>)
    requires Run(site, start, trace) && CallsSince(start.rows, start.now)
    ensures LastSweep(start, trace) <= End(start, trace).now
    ensures CallsSince(End(start, trace).rows, LastSweep(start, trace))
  {
    if trace != [] {
      var n := |trace| - 1;
      RunInit(site, start, trace);
      RunKeepsCalls(site, start, trace[..n]);
      var db, last := End(start, trace[..n]), trace[n];
      StepChange(site, db, last.req, last.resp, last.db);
      ChangeKeepsCalls(db, last.db, ChangeOf(site, last.req, last.resp), LastSweep(start, trace[..n]));
    }
  }

  /**
   In any run a ticket still CALLED was called at most five minutes before the last sweep; so while that
   sweep is at most ten minutes old, nobody has been CALLED for over fifteen.
   */
  lemma CalledAtMostFifteenMinutes(site: Site, trace: seq<Entry>, id: nat)
    requires Run(site, EMPTY_DB, trace) && id < |End(EMPTY_DB, trace).rows|
    requires End(EMPTY_DB, trace).rows[id].ticket.status == Called
    ensures
      var db, sweep := End(EMPTY_DB, trace), LastSweep(EMPTY_DB, trace);
      var called := db.rows[id].ticket.calledAt;
      && called.Some? && sweep <= called.value + 300
      && (db.now <= sweep + 600 ==> db.now <= called.value + 900)
  {
    RunKeepsCalls(site, EMPTY_DB, trace);
  }
}
