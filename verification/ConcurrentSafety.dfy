/** What every interleaving keeps, for any number of transactions and steps. */
module ConcurrentSafety {
  import opened Wrappers
  import opened Fsm
  import opened Tickets
  import opened Queueing
  import opened Interleaving

  /**
   Although checks are made on stale reads: every ticket's history is a walk in the state machine
   ending in its status, CREATED and TRANSFERRED are never committed, and later steps only append
   to logs and never leave a terminal status.
   */
  lemma StateMachineSafety(steps: seq<Step>, more: seq<Step>)
    requires Legal(EMPTY, steps) && Legal(Exec(EMPTY, steps), more)
    ensures
      var rows, later := Exec(EMPTY, steps).rows, Exec(Exec(EMPTY, steps), more).rows;
      && |rows| <= |later|
      && forall id :: 0 <= id < |rows| ==>
           var row := rows[id];
           && WalksMachine(row.log) && Replay(row.log) == row.ticket.status
           && row.ticket.status !in {Created, Transferred}
           && row.log <= later[id].log
           && (IsTerminal(row.ticket.status) ==> later[id].ticket.status == row.ticket.status)
  {
    RunKeepsInv(EMPTY, steps);
    RunKeepsInv(Exec(EMPTY, steps), more);
  }

  /**
   No two open transactions hold one ticket; between two committed calls of a ticket it was
   re-queued, so it is called at most once more than it is transferred.
   */
  lemma NoDoubleCall(steps: seq<Step>)
    requires Legal(EMPTY, steps)
    ensures LocksExclusive(Exec(EMPTY, steps).open)
    ensures forall id :: 0 <= id < |Exec(EMPTY, steps).rows| ==>
      var log := Exec(EMPTY, steps).rows[id].log;
      CalledOncePerQueueing(log) && Tally(log, Called) <= 1 + Tally(log, Transferred)
  {
    RunKeepsInv(EMPTY, steps);
  }

  /**
   A ticket has one interaction per IN_SERVICE event; they are all closed once it is COMPLETED,
   none is closed before, and an IN_SERVICE ticket has an open one.
   */
  lemma InteractionsAccounted(steps: seq<Step>)
    requires Legal(EMPTY, steps)
    ensures forall id :: 0 <= id < |Exec(EMPTY, steps).rows| ==>
      var row := Exec(EMPTY, steps).rows[id];
      && |row.visits| == Tally(row.log, InService)
      && (row.ticket.status == Completed ==> forall v :: v in row.visits ==> v.endedAt.Some?)
      && (row.ticket.status != Completed ==> forall v :: v in row.visits ==> v.endedAt.None?)
      && (row.ticket.status == InService ==> exists v :: v in row.visits && v.endedAt.None?)
  {
    RunKeepsInv(EMPTY, steps);
    var rows := Exec(EMPTY, steps).rows;
    forall id | 0 <= id < |rows| && rows[id].ticket.status == InService
      ensures exists v :: v in rows[id].visits && v.endedAt.None?
    {
      assert rows[id].visits[0] in rows[id].visits;
    }
  }

  // ---------- call-nexts that overlap ----------

  /** Matching WAITING tickets that no open transaction has locked. */
  ghost function Free(s: Sys, location: Id, service: Option<Id>): set<nat> {
    set id: nat | id < |s.rows| && Matches(s.rows[id], location, service) && id !in Locked(s)
  }

  /** Only call-nexts on this queue, unlocked reads, and commits of call-nexts. */
  ghost predicate OnlyCalls(s: Sys, steps: seq<Step>, location: Id, service: Option<Id>)
    requires Legal(s, steps)
    decreases |steps|
  {
    steps == [] ||
    (&& (match steps[0]
         case CallNext(_, l, v, _, _, _) => l == location && v == service
         case Commit(x) => s.open[x].Updating? && s.open[x].act.Claim?
         case Read(_, _, _, _) => true
         case _ => false)
     && OnlyCalls(Next(s, steps[0]), steps[1..], location, service))
  }

  function PicksOf(steps: seq<Step>): seq<Option<nat>> {
    if steps == [] then []
    else if steps[0].CallNext? then [steps[0].pick] + PicksOf(steps[1..])
    else PicksOf(steps[1..])
  }

  lemma CallTakesFree(s: Sys, step: Step)
    requires Inv(s) && Enabled(s, step) && step.CallNext?
    ensures step.pick.None? ==> Free(s, step.location, step.service) == {}
    ensures step.pick.Some? ==>
      && step.pick.value in Free(s, step.location, step.service)
      && Free(Next(s, step), step.location, step.service) == Free(s, step.location, step.service) - {step.pick.value}
  {
    if step.pick.Some? {
      var after := Next(s, step);
      forall id ensures IsLocked(after.open, id) <==> IsLocked(s.open, id) || id == step.pick.value {
        if IsLocked(s.open, id) {
          var y :| y in s.open && Holds(s.open[y], id);
          assert y in after.open && Holds(after.open[y], id);
        }
        if id == step.pick.value { assert Holds(after.open[step.x], id); }
      }
    }
  }

  lemma CallCommitKeepsFree(s: Sys, x: nat, location: Id, service: Option<Id>)
    requires Inv(s) && Enabled(s, Commit(x)) && s.open[x].Updating? && s.open[x].act.Claim?
    ensures Free(Next(s, Commit(x)), location, service) == Free(s, location, service)
  {
    var after := Next(s, Commit(x));
    assert TxnOk(s.rows, s.open[x]);
    forall id: nat | id < |s.rows|
      ensures id in s.open[x].pending ==> !Matches(after.rows[id], location, service) && IsLocked(s.open, id)
      ensures id !in s.open[x].pending ==>
        after.rows[id] == s.rows[id] && (IsLocked(after.open, id) <==> IsLocked(s.open, id))
    {
      if id in s.open[x].pending {
        assert Holds(s.open[x], id);
      } else if IsLocked(s.open, id) {
        var y :| y in s.open && Holds(s.open[y], id);
        assert y in after.open && Holds(after.open[y], id);
      }
    }
  }

  lemma ReadKeepsFree(s: Sys, step: Step, location: Id, service: Option<Id>)
    requires Enabled(s, step) && step.Read?
    ensures Free(Next(s, step), location, service) == Free(s, location, service)
  {
    var after := Next(s, step);
    forall id ensures IsLocked(after.open, id) <==> IsLocked(s.open, id) {
      if IsLocked(s.open, id) {
        var y :| y in s.open && Holds(s.open[y], id);
        assert y in after.open && Holds(after.open[y], id);
      }
    }
  }

  /** Distinct tickets out of `free`, in some order, and nothing once they are used up. */
  ghost predicate TakesAll(picks: seq<Option<nat>>, free: set<nat>) {
    && (forall k :: 0 <= k < |picks| ==> (picks[k].Some? <==> k < |free|))
    && (forall k :: 0 <= k < |picks| && picks[k].Some? ==> picks[k].value in free)
    && (forall j, k :: 0 <= j < k < |picks| && picks[k].Some? ==> picks[j] != picks[k])
  }

  lemma TakesAllCons(pick: Option<nat>, rest: seq<Option<nat>>, free: set<nat>)
    requires if pick.Some? then pick.value in free && TakesAll(rest, free - {pick.value})
             else free == {} && TakesAll(rest, free)
    ensures TakesAll([pick] + rest, free)
  {
    var picks := [pick] + rest;
    forall k | 1 <= k < |picks| ensures picks[k] == rest[k - 1] {}
  }

  /**
   Call-nexts overlapping in any way take distinct free tickets, and one comes back empty only
   when every free ticket has already been taken.
   */
  lemma {:induction false} OverlappingCallsConserveWork(s: Sys, steps: seq<Step>, location: Id, service: Option<Id>)
    requires Inv(s) && Legal(s, steps) && OnlyCalls(s, steps, location, service)
    decreases |steps|
    ensures TakesAll(PicksOf(steps), Free(s, location, service))
  {
    if steps != [] {
      var step, next, rest := steps[0], Next(s, steps[0]), PicksOf(steps[1..]);
      StepKeepsInv(s, step);
      OverlappingCallsConserveWork(next, steps[1..], location, service);
      match step
      case CallNext(_, _, _, _, _, pick) =>
        CallTakesFree(s, step);
        TakesAllCons(pick, rest, Free(s, location, service));
      case Commit(x) => CallCommitKeepsFree(s, x, location, service);
      case Read(_, _, _, _) => ReadKeepsFree(s, step, location, service);
    }
  }
}
