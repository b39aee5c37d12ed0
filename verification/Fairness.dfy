/** How long a waiting ticket can be overtaken. */
module Fairness {
  import opened Wrappers
  import opened Fsm
  import opened Tickets
  import opened SerialRows
  import opened Queueing
  import opened Serial

  /** WAITING tickets of the same location that call-next may take before ticket `id`. */
  ghost function Ahead(rows: seq<Row>, id: nat): set<nat>
    requires id < |rows|
  {
    set j: nat | j < |rows| && j != id && Matches(rows[j], rows[id].ticket.location, None)
      && Before(rows[j].ticket, rows[id].ticket)
  }

  /** The step is a call-next without service filter at the location, and it made its selection. */
  predicate IsCall(site: Site, req: Request, resp: Response, location: Id) {
    && req.CallNext? && req.service.None?
    && req.counter in site.counters && site.counters[req.counter] == location
    && (Effective(resp) || resp == Empty)
  }

  /** The step creates a ticket, or transfers one in, that may be taken before ticket `id`. */
  ghost predicate Overtakes(db: Db, req: Request, resp: Response, after: Db, id: nat)
  {
    && id < |db.rows|
    && (req.Create? || req.Kiosk? || req.Transfer?)
    && Effective(resp) && resp.id < |after.rows|
    && after.rows[resp.id].ticket.location == db.rows[id].ticket.location
    && Before(after.rows[resp.id].ticket, db.rows[id].ticket)
  }

  ghost function Calls(site: Site, trace: seq<Entry>, location: Id): nat {
    if trace == [] then 0
    else
      var last := trace[|trace| - 1];
      Calls(site, trace[..|trace| - 1], location) + if IsCall(site, last.req, last.resp, location) then 1 else 0
  }

  ghost function Overtakers(start: Db, trace: seq<Entry>, id: nat): nat {
    if trace == [] then 0
    else
      var init, last := trace[..|trace| - 1], trace[|trace| - 1];
      Overtakers(start, init, id) +
      if Overtakes(End(start, init), last.req, last.resp, last.db, id) then 1 else 0
  }

  lemma SubsetCard(a: set<nat>, b: set<nat>)
    requires a <= b
    ensures |a| <= |b|
  {
    if a != {} {
      var x :| x in a;
      SubsetCard(a - {x}, b - {x});
    }
  }

  /** A call takes a ticket ahead of one that stays waiting. */
  lemma CallTakesOneAhead(site: Site, db: Db, req: Request, resp: Response, after: Db, id: nat)
    requires Step(site, db, req, resp, after) && id < |db.rows| && id < |after.rows|
    requires db.rows[id].ticket.status == Waiting && after.rows[id].ticket.status == Waiting
    requires IsCall(site, req, resp, db.rows[id].ticket.location)
    ensures |Ahead(after.rows, id)| == |Ahead(db.rows, id)| - 1
  {
    var location := db.rows[id].ticket.location;
    assert Matches(db.rows[id], location, None);
    assert Effective(resp);
    assert IsNext(db.rows, {}, location, None, resp.id);
    assert resp.id in Ahead(db.rows, id);
    assert Ahead(after.rows, id) == Ahead(db.rows, id) - {resp.id};
  }

  /** Any change that leaves the ticket waiting puts at most the overtaking row ahead of it. */
  lemma ChangeAhead(db: Db, after: Db, c: Change, id: nat)
    requires HasChange(db, after, c) && id < |db.rows|
    requires forall j :: 0 <= j < |db.rows| ==> db.rows[j].ticket.status !in {Created, Transferred}
    requires db.rows[id].ticket.status == Waiting && id < |after.rows| && after.rows[id].ticket.status == Waiting
    ensures after.rows[id] == db.rows[id]
    ensures
      var newcomer := if c.Added? then {|db.rows|} else if c.Changed? && c.act.Transfer? then {c.id} else {};
      Ahead(after.rows, id) <= Ahead(db.rows, id) + newcomer
  {
    match c
    case Changed(j, a) =>
      assert Permits(db.rows[j].ticket.status, a);
      assert j != id;
    case _ =>
  }

  /** Whoever came in ahead overtook. */
  lemma NewcomerOvertakes(db: Db, req: Request, resp: Response, after: Db, c: Change, id: nat)
    requires id < |db.rows| && id < |after.rows| && after.rows[id] == db.rows[id]
    requires
      var newcomer := if c.Added? then {|db.rows|} else if c.Changed? && c.act.Transfer? then {c.id} else {};
      Ahead(after.rows, id) <= Ahead(db.rows, id) + newcomer
    requires c.Added? ==> (req.Create? || req.Kiosk?) && Effective(resp) && resp.id == |db.rows|
    requires c.Changed? && c.act.Transfer? ==> req.Transfer? && Effective(resp) && resp.id == c.id
    ensures Ahead(after.rows, id) <=
      Ahead(db.rows, id) + if Overtakes(db, req, resp, after, id) then {resp.id} else {}
  {
    forall j | j in Ahead(after.rows, id) && j !in Ahead(db.rows, id)
      ensures Overtakes(db, req, resp, after, id) && j == resp.id
    {
    }
  }

  lemma StepAheadSubset(site: Site, db: Db, req: Request, resp: Response, after: Db, id: nat)
    requires Step(site, db, req, resp, after) && Valid(db) && id < |db.rows| && id < |after.rows|
    requires db.rows[id].ticket.status == Waiting && after.rows[id].ticket.status == Waiting
    ensures after.rows[id] == db.rows[id]
    ensures Ahead(after.rows, id) <=
      Ahead(db.rows, id) + if Overtakes(db, req, resp, after, id) then {resp.id} else {}
  {
    var c := ChangeOf(site, req, resp);
    StepChange(site, db, req, resp, after);
    forall j | 0 <= j < |db.rows| ensures db.rows[j].ticket.status !in {Created, Transferred} {
      assert Orderly(db.rows[j], db.now);
    }
    ChangeAhead(db, after, c, id);
    if c.Added? { CreationId(site, db, req); }
    NewcomerOvertakes(db, req, resp, after, c, id);
  }

  lemma StepAhead(site: Site, db: Db, req: Request, resp: Response, after: Db, id: nat)
    requires Step(site, db, req, resp, after) && Valid(db) && id < |db.rows| && id < |after.rows|
    requires db.rows[id].ticket.status == Waiting && after.rows[id].ticket.status == Waiting
    ensures after.rows[id] == db.rows[id]
    ensures
      (if IsCall(site, req, resp, db.rows[id].ticket.location) then 1 else 0) + |Ahead(after.rows, id)|
      <= |Ahead(db.rows, id)| + if Overtakes(db, req, resp, after, id) then 1 else 0
  {
    StepAheadSubset(site, db, req, resp, after, id);
    if IsCall(site, req, resp, db.rows[id].ticket.location) {
      CallTakesOneAhead(site, db, req, resp, after, id);
    } else {
      SubsetCard(Ahead(after.rows, id),
                 Ahead(db.rows, id) + if Overtakes(db, req, resp, after, id) then {resp.id} else {});
    }
  }

  ghost predicate WaitsAt(db: Db, id: nat) {
    id < |db.rows| && db.rows[id].ticket.status == Waiting
  }

  ghost predicate WaitsThroughout(start: Db, trace: seq<Entry>, id: nat) {
    forall i :: 0 <= i <= |trace| ==> WaitsAt(At(start, trace, i), id)
  }

  ghost predicate HasLeft(db: Db, id: nat) {
    id < |db.rows| && db.rows[id].ticket.status != Waiting
  }

  lemma RowsStay(site: Site, start: Db, trace: seq<Entry>, i: nat)
    requires Run(site, start, trace) && i <= |trace|
    ensures |start.rows| <= |At(start, trace, i).rows|
  {
    RunPrefix(site, start, trace, trace[..i]);
    RunGrows(site, start, trace[..i]);
    assert End(start, trace[..i]) == At(start, trace, i);
  }

  lemma WaitsInit(start: Db, trace: seq<Entry>, id: nat)
    requires WaitsThroughout(start, trace, id)
    ensures WaitsAt(start, id) && WaitsAt(End(start, trace), id)
    ensures trace != [] ==> WaitsThroughout(start, trace[..|trace| - 1], id)
  {
    assert At(start, trace, 0) == start;
    if trace != [] {
      var init := trace[..|trace| - 1];
      forall i | 0 <= i <= |init| ensures WaitsAt(At(start, init, i), id) {
        assert At(start, init, i) == At(start, trace, i);
      }
    }
  }

  /** Calls made while a ticket waits are paid for by those ahead of it and those that came in ahead. */
  lemma {:induction false} CallsArePaidFor(site: Site, start: Db, trace: seq<Entry>, id: nat)
    requires Run(site, start, trace) && Valid(start) && WaitsThroughout(start, trace, id)
    ensures WaitsAt(start, id) && WaitsAt(End(start, trace), id)
    ensures End(start, trace).rows[id] == start.rows[id]
    ensures
      Calls(site, trace, start.rows[id].ticket.location) + |Ahead(End(start, trace).rows, id)|
      <= |Ahead(start.rows, id)| + Overtakers(start, trace, id)
  {
    WaitsInit(start, trace, id);
    if trace != [] {
      var n := |trace| - 1;
      RunInit(site, start, trace);
      RunKeepsValid(site, start, trace[..n]);
      CallsArePaidFor(site, start, trace[..n], id);
      StepAhead(site, End(start, trace[..n]), trace[n].req, trace[n].resp, trace[n].db, id);
    }
  }

  /**
   With r tickets ahead, a ticket has stopped waiting by the time of r + 1 unfiltered call-nexts at
   its location, plus one for each ticket that came in ahead of it meanwhile.
   */
  lemma BoundedOvertaking(site: Site, start: Db, trace: seq<Entry>, id: nat)
    requires Run(site, start, trace) && Valid(start) && id < |start.rows|
    ensures
      Calls(site, trace, start.rows[id].ticket.location)
        >= |Ahead(start.rows, id)| + 1 + Overtakers(start, trace, id) ==>
        exists i :: 0 <= i <= |trace| && HasLeft(At(start, trace, i), id)
  {
    if WaitsThroughout(start, trace, id) {
      CallsArePaidFor(site, start, trace, id);
    } else {
      var i :| 0 <= i <= |trace| && !WaitsAt(At(start, trace, i), id);
      RowsStay(site, start, trace, i);
    }
  }

  /**
   A later arrival overtakes exactly when its priority is strictly better, or equal with the clock
   not yet past the waiting ticket's creation instant.
   */
  lemma ArrivalOvertakesIff(db: Db, id: nat, tenant: Id, service: Option<Id>, priority: Priority)
    requires Valid(db) && id < |db.rows|
    ensures
      var t := db.rows[id].ticket;
      var arrived := Inserted(db, tenant, t.location, service, priority)[|db.rows|].ticket;
      Before(arrived, t) <==> priority < t.priority || (priority == t.priority && db.now == t.createdAt)
  {
    assert Orderly(db.rows[id], db.now);
  }
}
