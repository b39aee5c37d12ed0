/**
 Serial runs are among the interleaved ones; and what stale reads can do in the others.
 */
module Refinement {
  import opened Wrappers
  import opened Fsm
  import opened Tickets
  import opened SerialRows
  import opened Queueing
  import opened Interleaving
  import Serial

  lemma {:induction false} Append(s: Sys, a: seq<Step>, b: seq<Step>)
    requires Legal(s, a) && Legal(Exec(s, a), b)
    decreases |a|
    ensures Legal(s, a + b) && Exec(s, a + b) == Exec(Exec(s, a), b)
  {
    if a == [] {
      assert a + b == b;
    } else {
      var ab := a + b;
      assert ab[0] == a[0] && ab[1..] == a[1..] + b;
      Append(Next(s, a[0]), a[1..], b);
      assert Legal(s, ab) && Exec(s, ab) == Exec(Next(s, a[0]), ab[1..]);
    }
  }

  lemma One(s: Sys, step: Step)
    requires Enabled(s, step)
    ensures Legal(s, [step]) && Exec(s, [step]) == Next(s, step)
  {
    assert [step][1..] == [];
    assert Legal(Next(s, step), []);
  }

  lemma Two(s: Sys, step: Step, last: Step)
    requires Enabled(s, step) && Enabled(Next(s, step), last)
    ensures Legal(s, [step, last]) && Exec(s, [step, last]) == Next(Next(s, step), last)
  {
    One(s, step);
    One(Next(s, step), last);
    Append(s, [step], [last]);
    assert [step] + [last] == [step, last];
  }

  /** A request whose read, write and commit follow each other, whatever else is open elsewhere. */
  lemma RequestRuns(s: Sys, x: nat, id: nat, a: Action, at: Time) returns (steps: seq<Step>)
    requires x !in s.open && id < |s.rows| && !IsLocked(s.open, id)
    requires !a.Claim? && !a.AutoNoShow? && Permits(s.rows[id].ticket.status, a)
    ensures Legal(s, steps)
    ensures Exec(s, steps) == s.(rows := s.rows[id := Effect(s.rows[id], s.rows[id].ticket.status, a, at)])
  {
    FreshReadPasses(s.rows[id].ticket.status, a);
    var s1 := Next(s, Read(x, a, id, at));
    forall y | y in s1.open && y != x ensures !Holds(s1.open[y], id) {
      assert s1.open[y] == s.open[y];
    }
    var s2 := Next(s1, Write(x, id));
    One(s, Read(x, a, id, at));
    Two(s1, Write(x, id), Commit(x));
    steps := [Read(x, a, id, at)] + [Write(x, id), Commit(x)];
    Append(s, [Read(x, a, id, at)], [Write(x, id), Commit(x)]);
    assert Next(s2, Commit(x)).rows == s.rows[id := Effect(s.rows[id], s.rows[id].ticket.status, a, at)];
    assert s2.open - {x} == s.open;
  }

  // ---------- every serial run is an interleaved run ----------

  lemma CallRuns(rows: seq<Row>, location: Id, service: Option<Id>, i: nat, counter: Id, at: Time)
    returns (steps: seq<Step>)
    requires IsNext(rows, {}, location, service, i)
    ensures Legal(Sys(rows, map[]), steps) && Exec(Sys(rows, map[]), steps) == Sys(Claimed(rows, i, counter, at), map[])
  {
    var s := Sys(rows, map[]);
    var call := CallNext(0, location, service, counter, at, Some(i));
    assert Locked(s) == {};
    steps := [call, Commit(0)];
    Two(s, call, Commit(0));
    assert Next(Next(s, call), Commit(0)).rows == Claimed(rows, i, counter, at);
  }

  lemma CreationRuns(db: Serial.Db, tenant: Id, location: Id, service: Option<Id>, priority: Priority)
    returns (steps: seq<Step>)
    ensures Legal(Sys(db.rows, map[]), steps)
    ensures Exec(Sys(db.rows, map[]), steps) == Sys(Serial.Inserted(db, tenant, location, service, priority), map[])
  {
    var s := Sys(db.rows, map[]);
    var read := ReadNumber(0, tenant, location, service, priority, db.now);
    steps := [read, Commit(0)];
    Two(s, read, Commit(0));
  }

  /** Only this sweep is open, it read exactly the stuck tickets, and wrote some of them. */
  ghost predicate SweepOpen(s: Sys, x: nat, at: Time) {
    && s.open.Keys == {x} && s.open[x].Updating? && s.open[x].act == AutoNoShow && s.open[x].at == at
    && (forall id: nat :: id in s.open[x].seen <==> id < |s.rows| && Stuck(s.rows[id], at))
    && (forall id :: id in s.open[x].seen ==> s.open[x].seen[id] == Called)
    && (forall id :: id in s.open[x].pending ==>
          id in s.open[x].seen && s.open[x].pending[id] == Effect(s.rows[id], Called, AutoNoShow, at))
  }

  lemma SweepWrites(s: Sys, x: nat, at: Time, id: nat)
    requires SweepOpen(s, x, at) && id in s.open[x].seen && id !in s.open[x].pending
    ensures Enabled(s, Write(x, id)) && SweepOpen(Next(s, Write(x, id)), x, at)
    ensures
      var next := Next(s, Write(x, id));
      && next.rows == s.rows && next.open[x].seen == s.open[x].seen
      && next.open[x].pending.Keys == s.open[x].pending.Keys + {id}
  {
  }

  lemma SweepCommits(s: Sys, x: nat, at: Time)
    requires SweepOpen(s, x, at) && s.open[x].pending.Keys == s.open[x].seen.Keys
    ensures Enabled(s, Commit(x)) && Next(s, Commit(x)) == Sys(Serial.SweptRows(s.rows, at), map[])
  {
    assert Committed(s.rows, s.open[x]) == Serial.SweptRows(s.rows, at);
  }

  /** The writes of an open sweep, one ticket at a time, and its commit. */
  lemma {:induction false} SweepFinishes(s: Sys, x: nat, at: Time) returns (steps: seq<Step>)
    requires SweepOpen(s, x, at)
    decreases |s.open[x].seen.Keys - s.open[x].pending.Keys|
    ensures Legal(s, steps) && Exec(s, steps) == Sys(Serial.SweptRows(s.rows, at), map[])
  {
    var txn := s.open[x];
    if txn.pending.Keys == txn.seen.Keys {
      steps := [Commit(x)];
      SweepCommits(s, x, at);
      One(s, Commit(x));
    } else {
      var id :| id in txn.seen && id !in txn.pending;
      SweepWrites(s, x, at, id);
      var s1 := Next(s, Write(x, id));
      assert s1.open[x].seen.Keys - s1.open[x].pending.Keys == txn.seen.Keys - txn.pending.Keys - {id};
      var rest := SweepFinishes(s1, x, at);
      One(s, Write(x, id));
      steps := [Write(x, id)] + rest;
      Append(s, [Write(x, id)], rest);
    }
  }

  lemma SweepRuns(rows: seq<Row>, at: Time) returns (steps: seq<Step>)
    ensures Legal(Sys(rows, map[]), steps) && Exec(Sys(rows, map[]), steps) == Sys(Serial.SweptRows(rows, at), map[])
  {
    var s := Sys(rows, map[]);
    var rest := SweepFinishes(Next(s, SweepRead(0, at)), 0, at);
    One(s, SweepRead(0, at));
    steps := [SweepRead(0, at)] + rest;
    Append(s, [SweepRead(0, at)], rest);
  }

  lemma StepRuns(site: Serial.Site, db: Serial.Db, req: Serial.Request, resp: Serial.Response, after: Serial.Db)
    returns (steps: seq<Step>)
    requires Serial.Step(site, db, req, resp, after)
    ensures Legal(Sys(db.rows, map[]), steps) && Exec(Sys(db.rows, map[]), steps) == Sys(after.rows, map[])
  {
    Serial.StepChange(site, db, req, resp, after);
    match Serial.ChangeOf(site, req, resp)
    case Same => steps := [];
    case Added(tenant, location, service, priority) => steps := CreationRuns(db, tenant, location, service, priority);
    case SweptAll => steps := SweepRuns(db.rows, db.now);
    case Changed(id, a) =>
      if a.Claim? {
        steps := CallRuns(db.rows, site.counters[req.counter], req.service, id, a.counter, db.now);
      } else {
        steps := RequestRuns(Sys(db.rows, map[]), 0, id, a, db.now);
      }
  }

  /** So whatever holds of every interleaved run holds of every serial one. */
  lemma {:induction false} SerialRunIsInterleaved(site: Serial.Site, trace: seq<Serial.Entry>)
    returns (steps: seq<Step>)
    requires Serial.Run(site, Serial.EMPTY_DB, trace)
    ensures Legal(EMPTY, steps) && Exec(EMPTY, steps) == Sys(Serial.End(Serial.EMPTY_DB, trace).rows, map[])
  {
    steps := [];
    if trace != [] {
      var n := |trace| - 1;
      Serial.RunInit(site, Serial.EMPTY_DB, trace);
      var before := SerialRunIsInterleaved(site, trace[..n]);
      var last := StepRuns(site, Serial.End(Serial.EMPTY_DB, trace[..n]), trace[n].req, trace[n].resp, trace[n].db);
      steps := before + last;
      Append(EMPTY, before, last);
    }
  }

  // ---------- what stale reads can do ----------

  /** A write leaves the log faithful exactly when the status it read is still the live one. */
  lemma FaithfulIffFresh(row: Row, read: Status, a: Action, at: Time)
    requires Sound(row) && FromFaithful(row.log) && !a.Claim? && !a.AutoNoShow?
    ensures FromFaithful(Effect(row, read, a, at).log) <==> read == row.ticket.status
  {
    var after := Effect(row, read, a, at);
    assert after.log[..|row.log|] == row.log;
    assert after.log[|row.log|].fromStatus == Some(read);
    if read == row.ticket.status {
      FromSnoc(row.log, after.log[|row.log|]);
      if a.Transfer? { FromSnoc(row.log + [after.log[|row.log|]], after.log[|row.log| + 1]); }
    }
  }

  /** The other two actions log what they know: call-next WAITING, the sweep nothing. */
  lemma QueryWritesFaithful(row: Row, a: Action, at: Time)
    requires Sound(row) && (a.Claim? || a.AutoNoShow?) && (a.Claim? ==> row.ticket.status == Waiting)
    ensures FromFaithful(Effect(row, Waiting, a, at).log) <==> FromFaithful(row.log)
  {
    var after := Effect(row, Waiting, a, at);
    assert after.log == row.log + [after.log[|row.log|]];
    if FromFaithful(row.log) {
      FromSnoc(row.log, after.log[|row.log|]);
    } else if FromFaithful(after.log) {
      FromPrefix(row.log, after.log);
    }
  }

  lemma FromPrefix(log: seq<Event>, longer: seq<Event>)
    requires log <= longer && FromFaithful(longer)
    ensures FromFaithful(log)
  {
    forall i | 0 <= i < |log| && log[i].fromStatus.Some? ensures i > 0 && Replay(log[..i]) == log[i].fromStatus.value {
      assert longer[i] == log[i] && longer[..i] == log[..i];
    }
  }

  /** If this commits a request's write of the ticket, the status it read is still the live one. */
  ghost predicate FreshCommit(s: Sys, step: Step, id: nat) {
    step.Commit? && step.x in s.open && Holds(s.open[step.x], id) && id < |s.rows| && id in s.open[step.x].seen ==>
      s.open[step.x].act.Claim? || s.open[step.x].act.AutoNoShow?
      || s.open[step.x].seen[id] == s.rows[id].ticket.status
  }

  ghost predicate AllFresh(s: Sys, steps: seq<Step>, id: nat)
    requires Legal(s, steps)
    decreases |steps|
  {
    steps == [] || (FreshCommit(s, steps[0], id) && AllFresh(Next(s, steps[0]), steps[1..], id))
  }

  /** Every previous status the ticket's log records is true. */
  ghost predicate Faithful(s: Sys, id: nat) {
    id < |s.rows| ==> FromFaithful(s.rows[id].log)
  }

  lemma WriteFaithfulIff(row: Row, read: Status, a: Action, at: Time)
    requires Sound(row) && (a.Claim? ==> row.ticket.status == Waiting)
    ensures FromFaithful(Effect(row, read, a, at).log) <==>
      FromFaithful(row.log) && (a.Claim? || a.AutoNoShow? || read == row.ticket.status)
  {
    if a.Claim? || a.AutoNoShow? {
      QueryWritesFaithful(row, a, at);
    } else if FromFaithful(row.log) {
      FaithfulIffFresh(row, read, a, at);
    } else if FromFaithful(Effect(row, read, a, at).log) {
      FromPrefix(row.log, Effect(row, read, a, at).log);
    }
  }

  lemma StepFaithfulIff(s: Sys, step: Step, id: nat)
    requires Inv(s) && Enabled(s, step)
    ensures Faithful(Next(s, step), id) <==> Faithful(s, id) && FreshCommit(s, step, id)
  {
    if step.Commit? {
      var txn := s.open[step.x];
      assert TxnOk(s.rows, txn);
      if id < |s.rows| && Holds(txn, id) {
        WriteFaithfulIff(s.rows[id], txn.seen[id], txn.act, txn.at);
      }
    }
  }

  lemma {:induction false} RunFaithfulIff(s: Sys, steps: seq<Step>, id: nat)
    requires Inv(s) && Legal(s, steps)
    decreases |steps|
    ensures Faithful(Exec(s, steps), id) <==> Faithful(s, id) && AllFresh(s, steps, id)
  {
    if steps != [] {
      StepFaithfulIff(s, steps[0], id);
      StepKeepsInv(s, steps[0]);
      RunFaithfulIff(Next(s, steps[0]), steps[1..], id);
    }
  }

  /**
   In any interleaved run, all previous statuses a ticket's log records are true if and only if every
   committed request on it had read the status it found when committing.
   */
  lemma HistoryFaithfulIffAllFresh(steps: seq<Step>, id: nat)
    requires Legal(EMPTY, steps) && id < |Exec(EMPTY, steps).rows|
    ensures FromFaithful(Exec(EMPTY, steps).rows[id].log) <==> AllFresh(EMPTY, steps, id)
  {
    RunFaithfulIff(EMPTY, steps, id);
  }

  /** Two cancellations that both read WAITING both succeed, and the second logs a false previous status. */
  lemma TwoCancellations(s: Sys, id: nat, at: Time) returns (steps: seq<Step>)
    requires Inv(s) && s.open == map[] && id < |s.rows| && s.rows[id].ticket.status == Waiting
    ensures Legal(s, steps) && Exec(s, steps).open == map[] && |Exec(s, steps).rows| == |s.rows|
    ensures
      var row := Exec(s, steps).rows[id];
      && row.ticket.status == Canceled && |row.log| == |s.rows[id].log| + 2
      && !FromFaithful(row.log)
  {
    var read := Read(1, Cancel, id, at);
    var s1 := Next(s, read);
    One(s, read);
    var mid := RequestRuns(s1, 2, id, Cancel, at);
    var s2 := Exec(s1, mid);
    var s3 := Next(s2, Write(1, id));
    Append(s, [read], mid);
    Two(s2, Write(1, id), Commit(1));
    steps := ([read] + mid) + [Write(1, id), Commit(1)];
    Append(s, [read] + mid, [Write(1, id), Commit(1)]);
    var row := Effect(s2.rows[id], Waiting, Cancel, at);
    assert s3.open[1].pending[id] == row;
    assert Next(s3, Commit(1)).open == map[];
    assert row.log[..|row.log| - 1] == s2.rows[id].log;
    assert row.log[|row.log| - 1].fromStatus == Some(Waiting);
  }

  /** A stale sweep's write goes through exactly when the ticket is CALLED still, re-queued, or already NO_SHOW. */
  lemma StaleSweepPassesIff(live: Status)
    ensures TriggerPasses(live, AutoNoShow) <==> live in {Called, Waiting, NoShow}
  {
    TriggerIsTable(live, NoShow);
  }

  // ---------- which rows a sweep's late write hits ----------

  /** Every call-next of the run reads its clock at most five minutes before `at`. */
  ghost predicate ClaimsSince(steps: seq<Step>, at: Time) {
    forall i :: 0 <= i < |steps| && steps[i].CallNext? ==> at <= steps[i].at + NO_SHOW_AFTER
  }

  /** Since the sweep read the row it is the same, or has been rewritten and is not stuck at `at`. */
  ghost predicate SameOrFresh(s: Sys, id: nat, row: Row, at: Time) {
    && id < |s.rows|
    && (s.rows[id] == row || (|row.log| < |s.rows[id].log| && !Stuck(s.rows[id], at)))
    && forall y :: y in s.open && Holds(s.open[y], id) && s.open[y].act.Claim? ==> at <= s.open[y].at + NO_SHOW_AFTER
  }

  lemma RewrittenIsFresh(row: Row, read: Status, a: Action, when: Time, at: Time)
    requires TriggerPasses(row.ticket.status, a) && (a.Claim? ==> at <= when + NO_SHOW_AFTER)
    requires row.ticket.status != Created
    ensures |row.log| < |Effect(row, read, a, when).log| && !Stuck(Effect(row, read, a, when), at)
  {
  }

  lemma StepSameOrFresh(s: Sys, step: Step, id: nat, row: Row, at: Time)
    requires Inv(s) && Enabled(s, step) && SameOrFresh(s, id, row, at)
    requires step.CallNext? ==> at <= step.at + NO_SHOW_AFTER
    ensures SameOrFresh(Next(s, step), id, row, at)
  {
    var next := Next(s, step);
    if step.Commit? && Holds(s.open[step.x], id) {
      var txn := s.open[step.x];
      assert TxnOk(s.rows, txn) && Sound(s.rows[id]);
      RewrittenIsFresh(s.rows[id], txn.seen[id], txn.act, txn.at, at);
    } else {
      assert next.rows[id] == s.rows[id];
    }
    forall y | y in next.open && Holds(next.open[y], id) && next.open[y].act.Claim?
      ensures at <= next.open[y].at + NO_SHOW_AFTER
    {
      if y in s.open && Holds(s.open[y], id) { assert next.open[y].at == s.open[y].at; }
    }
  }

  lemma {:induction false} RunSameOrFresh(s: Sys, steps: seq<Step>, id: nat, row: Row, at: Time)
    requires Inv(s) && Legal(s, steps) && ClaimsSince(steps, at) && SameOrFresh(s, id, row, at)
    decreases |steps|
    ensures SameOrFresh(Exec(s, steps), id, row, at)
  {
    if steps != [] {
      StepSameOrFresh(s, steps[0], id, row, at);
      StepKeepsInv(s, steps[0]);
      RunSameOrFresh(Next(s, steps[0]), steps[1..], id, row, at);
    }
  }

  /**
   Whatever runs between a sweep's query and its writes, a row the query found is stuck no longer,
   by the query's own instant, if and only if it has been rewritten since.
   */
  lemma SweptWronglyIffRewritten(s: Sys, x: nat, at: Time, steps: seq<Step>, id: nat)
    requires Inv(s) && Enabled(s, SweepRead(x, at)) && id in Next(s, SweepRead(x, at)).open[x].seen
    requires Legal(Next(s, SweepRead(x, at)), steps) && ClaimsSince(steps, at)
    ensures
      var live := Exec(Next(s, SweepRead(x, at)), steps).rows;
      id < |live| && (!Stuck(live[id], at) <==> |s.rows[id].log| < |live[id].log|)
  {
    var s1 := Next(s, SweepRead(x, at));
    StepKeepsInv(s, SweepRead(x, at));
    forall y | y in s1.open && Holds(s1.open[y], id) ensures !s1.open[y].act.Claim? {
      assert TxnOk(s1.rows, s1.open[y]);
    }
    RunSameOrFresh(s1, steps, id, s.rows[id], at);
  }

  // ---------- a sweep rewrites all it found, or nothing ----------

  /** No step of the run begins transaction `x`. */
  ghost predicate NotBegun(steps: seq<Step>, x: nat) {
    forall i :: 0 <= i < |steps| ==> steps[i].x == x ==> steps[i].Write? || steps[i].Commit? || steps[i].Abort?
  }

  /** While a transaction stays open, what it read, does and when stay what they were. */
  lemma {:induction false} OpenKeepsPurpose(s: Sys, steps: seq<Step>, x: nat)
    requires Legal(s, steps) && NotBegun(steps, x) && x in s.open && s.open[x].Updating?
    decreases |steps|
    ensures
      var last := Exec(s, steps);
      x in last.open ==>
        && last.open[x].Updating? && last.open[x].act == s.open[x].act
        && last.open[x].at == s.open[x].at && last.open[x].seen == s.open[x].seen
  {
    if steps != [] {
      var next := Next(s, steps[0]);
      OnlyCommitsShow(s, steps[0]);
      if steps[0].x == x && steps[0].Write? { WriteOutcome(s, x, steps[0].id); }
      if x in next.open {
        OpenKeepsPurpose(next, steps[1..], x);
      } else {
        GoneStaysGone(next, steps[1..], x);
      }
    }
  }

  /** A transaction that is over, by refusal, abort or commit, writes and commits nothing more. */
  lemma {:induction false} GoneStaysGone(s: Sys, steps: seq<Step>, x: nat)
    requires Legal(s, steps) && NotBegun(steps, x) && x !in s.open
    decreases |steps|
    ensures x !in Exec(s, steps).open
    ensures forall i :: 0 <= i < |steps| ==> steps[i].x != x
  {
    if steps != [] {
      OnlyCommitsShow(s, steps[0]);
      GoneStaysGone(Next(s, steps[0]), steps[1..], x);
    }
  }

  /** The open sweep has read these rows, at this instant, as CALLED or not. */
  ghost predicate FoundAt(rows: seq<Row>, txn: Txn, at: Time) {
    && txn.Updating? && txn.act == AutoNoShow && txn.at == at
    && forall id: nat :: id in txn.seen <==> id < |rows| && Stuck(rows[id], at)
  }

  lemma SweepFinds(s: Sys, x: nat, at: Time, steps: seq<Step>)
    requires Inv(s) && Enabled(s, SweepRead(x, at)) && Legal(Next(s, SweepRead(x, at)), steps) && NotBegun(steps, x)
    requires x in Exec(Next(s, SweepRead(x, at)), steps).open
    ensures
      var last := Exec(Next(s, SweepRead(x, at)), steps);
      Inv(last) && |s.rows| <= |last.rows| && FoundAt(s.rows, last.open[x], at)
  {
    var s1 := Next(s, SweepRead(x, at));
    StepKeepsInv(s, SweepRead(x, at));
    RunKeepsInv(s1, steps);
    assert FoundAt(s.rows, s1.open[x], at);
    OpenKeepsPurpose(s1, steps, x);
  }

  /** Every ticket it found goes from CALLED, WAITING or NO_SHOW to NO_SHOW, and no other ticket changes. */
  ghost predicate MarksFound(rows: seq<Row>, live: seq<Row>, after: seq<Row>, at: Time) {
    && |rows| <= |live| == |after|
    && forall id: nat :: id < |live| ==>
         if id < |rows| && Stuck(rows[id], at) then
           && live[id].ticket.status in {Called, Waiting, NoShow}
           && after[id].ticket == live[id].ticket.(status := NoShow, completedAt := Some(at))
           && after[id].log == live[id].log + [Event(Entered(NoShow), None, at)]
         else after[id] == live[id]
  }

  lemma CommitMarks(rows: seq<Row>, s: Sys, x: nat, at: Time)
    requires Inv(s) && |rows| <= |s.rows| && Enabled(s, Commit(x)) && FoundAt(rows, s.open[x], at)
    ensures MarksFound(rows, s.rows, Next(s, Commit(x)).rows, at)
  {
    var txn := s.open[x];
    CommitOutcome(s, x);
    assert TxnOk(s.rows, txn);
    forall id: nat | id < |s.rows| && id in txn.pending ensures s.rows[id].ticket.status in {Called, Waiting, NoShow} {
      StaleSweepPassesIff(s.rows[id].ticket.status);
    }
  }

  /**
   A sweep that comes to its commit marks every ticket its query found NO_SHOW, each of which was
   CALLED, WAITING or NO_SHOW until then, and no other ticket.
   */
  lemma SweepCommitsAllItFound(s: Sys, x: nat, at: Time, steps: seq<Step>)
    requires Inv(s) && Enabled(s, SweepRead(x, at)) && Legal(Next(s, SweepRead(x, at)), steps) && NotBegun(steps, x)
    requires Enabled(Exec(Next(s, SweepRead(x, at)), steps), Commit(x))
    ensures
      var last := Exec(Next(s, SweepRead(x, at)), steps);
      MarksFound(s.rows, last.rows, Next(last, Commit(x)).rows, at)
  {
    SweepFinds(s, x, at, steps);
    CommitMarks(s.rows, Exec(Next(s, SweepRead(x, at)), steps), x, at);
  }

  /** If the trigger refuses one of its writes, it marks none: whatever follows, it never commits. */
  lemma RefusedSweepMarksNone(s: Sys, x: nat, id: nat, steps: seq<Step>)
    requires Enabled(s, Write(x, id)) && s.open[x].act.AutoNoShow?
    requires s.rows[id].ticket.status !in {Called, Waiting, NoShow}
    requires Legal(Next(s, Write(x, id)), steps) && NotBegun(steps, x)
    ensures Next(s, Write(x, id)).rows == s.rows
    ensures forall i :: 0 <= i < |steps| ==> steps[i].x != x
  {
    WriteOutcome(s, x, id);
    GoneStaysGone(Next(s, Write(x, id)), steps, x);
  }

  /** Start and transfer a called ticket while other transactions stay open. */
  lemma ServedAndMoved(s: Sys, id: nat, service: Id, at: Time) returns (steps: seq<Step>)
    requires s.open.Keys == {9} && !Holds(s.open[9], id) && id < |s.rows| && s.rows[id].ticket.status == Called
    ensures Legal(s, steps) && Exec(s, steps).open == s.open && |Exec(s, steps).rows| == |s.rows|
    ensures Exec(s, steps).rows[id].ticket.status == Waiting
  {
    var served := RequestRuns(s, 1, id, Start, at);
    var moved := RequestRuns(Exec(s, served), 2, id, Transfer(service, None), at);
    steps := served + moved;
    Append(s, served, moved);
  }

  /** So a ticket served and transferred while the sweep runs can be marked NO_SHOW in its new queue. */
  lemma SweepTakesRequeuedTicket(s: Sys, id: nat, service: Id, at: Time) returns (before: seq<Step>, after: seq<Step>)
    requires s.open == map[] && id < |s.rows| && Stuck(s.rows[id], at)
    requires forall j: nat :: j < |s.rows| && Stuck(s.rows[j], at) ==> j == id
    ensures Legal(s, before) && |Exec(s, before).rows| == |s.rows|
    ensures Exec(s, before).rows[id].ticket.status == Waiting
    ensures Legal(Exec(s, before), after) && |Exec(Exec(s, before), after).rows| == |s.rows|
    ensures Exec(Exec(s, before), after).rows[id].ticket.status == NoShow
  {
    var read := SweepRead(9, at);
    var s1 := Next(s, read);
    assert s1.open[9].seen.Keys == {id};
    One(s, read);
    var mid := ServedAndMoved(s1, id, service, at);
    before := [read] + mid;
    Append(s, [read], mid);
    after := [Write(9, id), Commit(9)];
    Two(Exec(s, before), Write(9, id), Commit(9));
  }
}
