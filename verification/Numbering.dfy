/** Ticket numbers: dense and in order when creation is atomic, and the race when it is not. */
module Numbering {
  import opened Wrappers
  import opened Fsm
  import opened Tickets
  import opened Queueing
  import opened Interleaving
  import Serial

  lemma {:induction false} MaxBounds(rows: seq<Row>, location: Id, id: nat)
    requires id < |rows| && rows[id].ticket.location == location
    ensures rows[id].ticket.number <= MaxNumber(rows, location)
  {
    if id < |rows| - 1 {
      assert rows[id] == rows[..|rows| - 1][id];
      MaxBounds(rows[..|rows| - 1], location, id);
    }
  }

  lemma {:induction false} MaxReached(rows: seq<Row>, location: Id)
    requires MaxNumber(rows, location) > 0
    ensures HasNumber(rows, location, MaxNumber(rows, location))
  {
    var t := rows[|rows| - 1].ticket;
    if t.location == location && t.number == MaxNumber(rows, location) {
    } else {
      MaxReached(rows[..|rows| - 1], location);
      var id :| 0 <= id < |rows| - 1 && rows[..|rows| - 1][id].ticket.location == location
        && rows[..|rows| - 1][id].ticket.number == MaxNumber(rows, location);
      assert rows[id].ticket.location == location;
    }
  }

  ghost predicate HasNumber(rows: seq<Row>, location: Id, number: nat) {
    exists id :: 0 <= id < |rows| && rows[id].ticket.location == location && rows[id].ticket.number == number
  }

  /** Nobody was moved to another location and no number was rewritten. */
  ghost predicate SamePlaces(rows: seq<Row>, after: seq<Row>) {
    && |rows| == |after|
    && forall id :: 0 <= id < |rows| ==>
         after[id].ticket.location == rows[id].ticket.location && after[id].ticket.number == rows[id].ticket.number
  }

  lemma {:induction false} SamePlacesSameMax(rows: seq<Row>, after: seq<Row>, location: Id)
    requires SamePlaces(rows, after)
    ensures MaxNumber(rows, location) == MaxNumber(after, location)
    ensures CountAt(rows, location) == CountAt(after, location)
  {
    if rows != [] { SamePlacesSameMax(rows[..|rows| - 1], after[..|rows| - 1], location); }
  }

  // ---------- serial runs ----------

  function CountAt(rows: seq<Row>, location: Id): nat {
    if rows == [] then 0
    else CountAt(rows[..|rows| - 1], location) + if rows[|rows| - 1].ticket.location == location then 1 else 0
  }

  /** The n-th ticket created at a location is number n. */
  ghost predicate InOrder(rows: seq<Row>) {
    forall id :: 0 <= id < |rows| ==>
      rows[id].ticket.number == CountAt(rows[..id + 1], rows[id].ticket.location)
  }

  lemma {:induction false} InOrderMax(rows: seq<Row>, location: Id)
    requires InOrder(rows)
    ensures MaxNumber(rows, location) == CountAt(rows, location)
  {
    if rows != [] {
      var init := rows[..|rows| - 1];
      assert rows[..|rows|] == rows;
      forall id | 0 <= id < |init| ensures init[id].ticket.number == CountAt(init[..id + 1], init[id].ticket.location) {
        assert init[..id + 1] == rows[..id + 1];
      }
      InOrderMax(init, location);
    }
  }

  lemma InOrderSnoc(rows: seq<Row>, row: Row)
    requires InOrder(rows) && row.ticket.number == MaxNumber(rows, row.ticket.location) + 1
    ensures InOrder(rows + [row])
  {
    var after := rows + [row];
    InOrderMax(rows, row.ticket.location);
    forall id | 0 <= id < |after|
      ensures after[id].ticket.number == CountAt(after[..id + 1], after[id].ticket.location)
    {
      if id < |rows| {
        assert after[..id + 1] == rows[..id + 1];
      } else {
        assert after[..id + 1] == after && after[..|rows|] == rows;
      }
    }
  }

  lemma InOrderFrame(rows: seq<Row>, after: seq<Row>)
    requires InOrder(rows) && SamePlaces(rows, after)
    ensures InOrder(after)
  {
    forall id | 0 <= id < |after|
      ensures after[id].ticket.number == CountAt(after[..id + 1], after[id].ticket.location)
    {
      SamePlacesSameMax(rows[..id + 1], after[..id + 1], after[id].ticket.location);
    }
  }

  /** A transfer, if this is one, does not name another location than the ticket's own. */
  ghost predicate StaysPut(db: Serial.Db, req: Serial.Request, resp: Serial.Response) {
    req.Transfer? && resp.Done? && resp.id < |db.rows| ==>
      req.targetLocation in {None, Some(db.rows[resp.id].ticket.location)}
  }

  ghost predicate NoRelocation(start: Serial.Db, trace: seq<Serial.Entry>) {
    forall i :: 0 <= i < |trace| ==> StaysPut(Serial.At(start, trace, i), trace[i].req, trace[i].resp)
  }

  lemma NoRelocationInit(start: Serial.Db, trace: seq<Serial.Entry>)
    requires trace != [] && NoRelocation(start, trace)
    ensures
      var n := |trace| - 1;
      NoRelocation(start, trace[..n]) && StaysPut(Serial.End(start, trace[..n]), trace[n].req, trace[n].resp)
  {
    var n := |trace| - 1;
    forall i | 0 <= i < n ensures StaysPut(Serial.At(start, trace[..n], i), trace[..n][i].req, trace[..n][i].resp) {
      assert Serial.At(start, trace[..n], i) == Serial.At(start, trace, i);
    }
    assert Serial.End(start, trace[..n]) == Serial.At(start, trace, n);
  }

  lemma StepKeepsOrder(site: Serial.Site, db: Serial.Db, req: Serial.Request, resp: Serial.Response, after: Serial.Db)
    requires Serial.Step(site, db, req, resp, after) && InOrder(db.rows) && StaysPut(db, req, resp)
    ensures InOrder(after.rows)
  {
    Serial.StepChange(site, db, req, resp, after);
    ChangeKeepsOrder(db, after, Serial.ChangeOf(site, req, resp));
  }

  lemma ChangeKeepsOrder(db: Serial.Db, after: Serial.Db, c: Serial.Change)
    requires Serial.HasChange(db, after, c) && InOrder(db.rows)
    requires c.Changed? && c.id < |db.rows| && c.act.Transfer? ==>
      c.act.location in {None, Some(db.rows[c.id].ticket.location)}
    ensures InOrder(after.rows)
  {
    if c.Added? {
      InOrderSnoc(db.rows, after.rows[|db.rows|]);
    } else {
      InOrderFrame(db.rows, after.rows);
    }
  }

  /** Through both creation paths, numbers at each location are 1, 2, ... in creation order. */
  lemma {:induction false} SerialNumbersInOrder(site: Serial.Site, trace: seq<Serial.Entry>)
    requires Serial.Run(site, Serial.EMPTY_DB, trace) && NoRelocation(Serial.EMPTY_DB, trace)
    ensures InOrder(Serial.End(Serial.EMPTY_DB, trace).rows)
  {
    if trace != [] {
      var n := |trace| - 1;
      Serial.RunInit(site, Serial.EMPTY_DB, trace);
      NoRelocationInit(Serial.EMPTY_DB, trace);
      SerialNumbersInOrder(site, trace[..n]);
      StepKeepsOrder(site, Serial.End(Serial.EMPTY_DB, trace[..n]), trace[n].req, trace[n].resp, trace[n].db);
    }
  }

  // ---------- serial runs that move tickets between locations ----------

  /** No two tickets of one location share a number. */
  ghost predicate NumbersDistinct(rows: seq<Row>) {
    forall i, j :: 0 <= i < j < |rows| && rows[i].ticket.location == rows[j].ticket.location ==>
      rows[i].ticket.number != rows[j].ticket.number
  }

  /** A transfer that succeeds into another location where its ticket's number is in use. */
  ghost predicate EntersTaken(db: Serial.Db, req: Serial.Request, resp: Serial.Response) {
    && req.Transfer? && resp.Done? && resp.id < |db.rows| && req.targetLocation.Some?
    && req.targetLocation.value != db.rows[resp.id].ticket.location
    && HasNumber(db.rows, req.targetLocation.value, db.rows[resp.id].ticket.number)
  }

  lemma InsertKeepsDistinct(rows: seq<Row>, row: Row)
    requires NumbersDistinct(rows) && row.ticket.number == MaxNumber(rows, row.ticket.location) + 1
    ensures NumbersDistinct(rows + [row])
  {
    forall i | 0 <= i < |rows| && rows[i].ticket.location == row.ticket.location
      ensures rows[i].ticket.number != row.ticket.number
    {
      MaxBounds(rows, row.ticket.location, i);
    }
  }

  lemma MoveDistinctIff(rows: seq<Row>, after: seq<Row>, id: nat, location: Id)
    requires NumbersDistinct(rows) && id < |rows| && location != rows[id].ticket.location
    requires |after| == |rows| && after == rows[id := after[id]]
    requires after[id].ticket.location == location && after[id].ticket.number == rows[id].ticket.number
    ensures NumbersDistinct(after) <==> !HasNumber(rows, location, rows[id].ticket.number)
  {
    if HasNumber(rows, location, rows[id].ticket.number) {
      var k :| 0 <= k < |rows| && rows[k].ticket.location == location
        && rows[k].ticket.number == rows[id].ticket.number;
      assert k != id && after[k] == rows[k];
    }
  }

  lemma FrameKeepsDistinct(rows: seq<Row>, after: seq<Row>)
    requires SamePlaces(rows, after) && NumbersDistinct(rows)
    ensures NumbersDistinct(after)
  {
  }

  /** The same, on the change a step makes to the table. */
  ghost predicate MovesToTaken(rows: seq<Row>, c: Serial.Change) {
    && c.Changed? && c.act.Transfer? && c.id < |rows| && c.act.location.Some?
    && c.act.location.value != rows[c.id].ticket.location
    && HasNumber(rows, c.act.location.value, rows[c.id].ticket.number)
  }

  lemma ChangeDistinctIff(db: Serial.Db, after: Serial.Db, c: Serial.Change)
    requires Serial.HasChange(db, after, c) && NumbersDistinct(db.rows)
    ensures NumbersDistinct(after.rows) <==> !MovesToTaken(db.rows, c)
  {
    if c.Added? {
      InsertKeepsDistinct(db.rows, after.rows[|db.rows|]);
    } else if c.Changed? && c.act.Transfer? && c.act.location.Some?
              && c.act.location.value != db.rows[c.id].ticket.location {
      EffectKeepsNumber(db.rows[c.id], db.rows[c.id].ticket.status, c.act, db.now);
      MoveDistinctIff(db.rows, after.rows, c.id, c.act.location.value);
    } else {
      FrameKeepsDistinct(db.rows, after.rows);
    }
  }

  lemma EntersTakenIsChange(site: Serial.Site, db: Serial.Db, req: Serial.Request, resp: Serial.Response)
    requires !req.CallNext? && resp == Serial.Serve(site, db, req).0
    ensures EntersTaken(db, req, resp) <==> MovesToTaken(db.rows, Serial.ChangeOf(site, req, resp))
  {
    if req.Transfer? { TransferSavesNothing(site, db, req); }
  }

  lemma TransferSavesNothing(site: Serial.Site, db: Serial.Db, req: Serial.Request)
    requires req.Transfer?
    ensures !Serial.Serve(site, db, req).0.SaveFailed?
  {
  }

  lemma StepDistinctIff(site: Serial.Site, db: Serial.Db, req: Serial.Request, resp: Serial.Response, after: Serial.Db)
    requires Serial.Step(site, db, req, resp, after) && NumbersDistinct(db.rows)
    ensures NumbersDistinct(after.rows) <==> !EntersTaken(db, req, resp)
  {
    Serial.StepChange(site, db, req, resp, after);
    ChangeDistinctIff(db, after, Serial.ChangeOf(site, req, resp));
    if !req.CallNext? { EntersTakenIsChange(site, db, req, resp); }
  }

  /** Throughout the run, numbers at each location are pairwise distinct. */
  ghost predicate AlwaysDistinct(start: Serial.Db, trace: seq<Serial.Entry>) {
    forall i :: 0 <= i <= |trace| ==> NumbersDistinct(Serial.At(start, trace, i).rows)
  }

  ghost predicate NeverEntersTaken(start: Serial.Db, trace: seq<Serial.Entry>) {
    forall i :: 0 <= i < |trace| ==> !EntersTaken(Serial.At(start, trace, i), trace[i].req, trace[i].resp)
  }

  lemma DistinctSnoc(start: Serial.Db, trace: seq<Serial.Entry>)
    requires trace != []
    ensures
      var n := |trace| - 1;
      AlwaysDistinct(start, trace) <==> AlwaysDistinct(start, trace[..n]) && NumbersDistinct(trace[n].db.rows)
  {
    var n := |trace| - 1;
    assert forall i :: 0 <= i <= n ==> Serial.At(start, trace[..n], i) == Serial.At(start, trace, i);
    assert Serial.At(start, trace, n + 1) == trace[n].db;
  }

  lemma LastStepDistinctIff(site: Serial.Site, start: Serial.Db, trace: seq<Serial.Entry>)
    requires trace != [] && Serial.Run(site, start, trace) && AlwaysDistinct(start, trace[..|trace| - 1])
    ensures
      var n := |trace| - 1;
      NumbersDistinct(trace[n].db.rows) <==> !EntersTaken(Serial.At(start, trace, n), trace[n].req, trace[n].resp)
  {
    var n := |trace| - 1;
    var db := Serial.At(start, trace[..n], n);
    assert NumbersDistinct(db.rows) && db == Serial.At(start, trace, n);
    StepDistinctIff(site, db, trace[n].req, trace[n].resp, trace[n].db);
  }

  lemma TakenSnoc(start: Serial.Db, trace: seq<Serial.Entry>)
    requires trace != []
    ensures
      var n := |trace| - 1;
      NeverEntersTaken(start, trace) <==>
        NeverEntersTaken(start, trace[..n]) && !EntersTaken(Serial.At(start, trace, n), trace[n].req, trace[n].resp)
  {
    var n := |trace| - 1;
    assert forall i :: 0 <= i <= n ==> Serial.At(start, trace[..n], i) == Serial.At(start, trace, i);
    assert forall i :: 0 <= i < n ==> trace[..n][i] == trace[i];
  }

  /**
   In a serial run the numbers at each location stay distinct if and only if no transfer takes a ticket
   into another location where its number is in use.
   */
  lemma {:induction false} DistinctIffNoneEntersTaken(site: Serial.Site, trace: seq<Serial.Entry>)
    requires Serial.Run(site, Serial.EMPTY_DB, trace)
    ensures AlwaysDistinct(Serial.EMPTY_DB, trace) <==> NeverEntersTaken(Serial.EMPTY_DB, trace)
  {
    if trace != [] {
      Serial.RunInit(site, Serial.EMPTY_DB, trace);
      DistinctIffNoneEntersTaken(site, trace[..|trace| - 1]);
      DistinctSnoc(Serial.EMPTY_DB, trace);
      TakenSnoc(Serial.EMPTY_DB, trace);
      if AlwaysDistinct(Serial.EMPTY_DB, trace[..|trace| - 1]) {
        LastStepDistinctIff(site, Serial.EMPTY_DB, trace);
      }
    }
  }

  /** Number 1 of one location, called, started, and moved to a location that has its own number 1. */
  lemma MoveOne(site: Serial.Site, db: Serial.Db, counter: Id, away: Id, service: Id) returns (trace: seq<Serial.Entry>)
    requires away in site.locations && service in site.services
    requires counter in site.counters && site.counters[counter] in site.locations && |db.rows| == 2
    requires Matches(db.rows[0], site.counters[counter], None) && !Matches(db.rows[1], site.counters[counter], None)
    requires db.rows[0].ticket.tenant == site.locations[site.counters[counter]]
    ensures Serial.Run(site, db, trace) && |Serial.End(db, trace).rows| == 2
    ensures
      var rows := Serial.End(db, trace).rows;
      && rows[0].ticket.location == away && rows[0].ticket.number == db.rows[0].ticket.number
      && rows[1] == db.rows[1]
  {
    var tenant := db.rows[0].ticket.tenant;
    var hash := site.hash(Serial.CallNextBody(None));
    var called := Serial.Finish(db, Claimed(db.rows, 0, counter, db.now), 0, tenant, None, hash).1;
    assert called.rows[0].ticket.status == Called;
    var call := Serial.Entry(Serial.CallNext(tenant, counter, None, None), Serial.Done(0), called);
    assert Serial.Step(site, db, call.req, call.resp, call.db);
    var (r2, started) := Serial.Serve(site, called, Serial.Request.Start(tenant, 0, None));
    assert started.rows[0].ticket.status == InService;
    var (r3, moved) := Serial.Serve(site, started, Serial.Request.Transfer(tenant, 0, service, Some(away)));
    trace := [
      call,
      Serial.Entry(Serial.Request.Start(tenant, 0, None), r2, started),
      Serial.Entry(Serial.Request.Transfer(tenant, 0, service, Some(away)), r3, moved)];
  }

  lemma CreatedAt(site: Serial.Site, db: Serial.Db, tenant: Id, location: Id) returns (e: Serial.Entry)
    requires location in site.locations
    ensures Serial.Step(site, db, e.req, e.resp, e.db)
    ensures |e.db.rows| == |db.rows| + 1 && e.db.rows[..|db.rows|] == db.rows
    ensures Matches(e.db.rows[|db.rows|], location, None) && e.db.rows[|db.rows|].ticket.tenant == tenant
    ensures e.db.rows[|db.rows|].ticket.number == MaxNumber(db.rows, location) + 1
  {
    var req := Serial.Create(tenant, location, None, 5, None);
    var (resp, after) := Serial.Serve(site, db, req);
    e := Serial.Entry(req, resp, after);
  }

  lemma FirstNumbers(row: Row, location: Id)
    ensures MaxNumber([], location) == 0
    ensures row.ticket.location != location ==> MaxNumber([row], location) == 0
  {
    assert [row][..0] == [];
  }

  /** Without any race, two tickets of one location share number 1. */
  lemma TransferIntoTakenNumber(site: Serial.Site, counter: Id, away: Id, service: Id)
    returns (trace: seq<Serial.Entry>)
    requires away in site.locations && service in site.services
    requires counter in site.counters && site.counters[counter] in site.locations && away != site.counters[counter]
    ensures Serial.Run(site, Serial.EMPTY_DB, trace)
    ensures
      var rows := Serial.End(Serial.EMPTY_DB, trace).rows;
      && |rows| == 2 && rows[0].ticket.location == rows[1].ticket.location == away
      && rows[0].ticket.number == rows[1].ticket.number == 1
  {
    var home := site.counters[counter];
    var first := CreatedAt(site, Serial.EMPTY_DB, site.locations[home], home);
    var second := CreatedAt(site, first.db, site.locations[home], away);
    Serial.TwoSteps(site, Serial.EMPTY_DB, first, second);
    assert first.db.rows == [first.db.rows[0]];
    assert second.db.rows[0] == second.db.rows[..1][0];
    FirstNumbers(first.db.rows[0], home);
    FirstNumbers(first.db.rows[0], away);
    var moved := MoveOne(site, second.db, counter, away, service);
    Serial.RunConcat(site, Serial.EMPTY_DB, [first, second], moved);
    trace := [first, second] + moved;
  }

  // ---------- interleaved creations ----------

  /** Every number up to the largest is in use. */
  ghost predicate Dense(rows: seq<Row>, location: Id) {
    forall n: nat :: 1 <= n <= MaxNumber(rows, location) ==> HasNumber(rows, location, n)
  }

  ghost predicate NumbersInv(s: Sys, location: Id) {
    && Dense(s.rows, location)
    && forall x :: x in s.open && s.open[x].Creating? && s.open[x].draft.location == location ==>
         1 <= s.open[x].draft.number <= MaxNumber(s.rows, location) + 1
  }

  /** The step commits no move to another location. */
  ghost predicate Stays(s: Sys, step: Step) {
    step.Commit? && step.x in s.open && s.open[step.x].Updating? ==>
      forall id :: id in s.open[step.x].pending && id < |s.rows| ==>
        s.open[step.x].pending[id].ticket.location == s.rows[id].ticket.location
  }

  ghost predicate AllStay(s: Sys, steps: seq<Step>)
    requires Legal(s, steps)
    decreases |steps|
  {
    steps == [] || (Stays(s, steps[0]) && AllStay(Next(s, steps[0]), steps[1..]))
  }

  lemma HasNumberFrame(rows: seq<Row>, after: seq<Row>, location: Id, n: nat)
    requires HasNumber(rows, location, n) && |rows| <= |after|
    requires forall id :: 0 <= id < |rows| ==>
      after[id].ticket.location == rows[id].ticket.location && after[id].ticket.number == rows[id].ticket.number
    ensures HasNumber(after, location, n)
  {
    var id :| 0 <= id < |rows| && rows[id].ticket.location == location && rows[id].ticket.number == n;
    assert after[id].ticket.location == location && after[id].ticket.number == n;
  }

  lemma InsertKeepsDense(rows: seq<Row>, draft: Ticket, location: Id)
    requires Dense(rows, location)
    requires draft.location == location ==> 1 <= draft.number <= MaxNumber(rows, location) + 1
    ensures Dense(rows + [NewRow(draft)], location)
    ensures MaxNumber(rows, location) <= MaxNumber(rows + [NewRow(draft)], location)
  {
    var after := rows + [NewRow(draft)];
    assert after[..|rows|] == rows;
    forall n: nat | 1 <= n <= MaxNumber(after, location) ensures HasNumber(after, location, n) {
      if n <= MaxNumber(rows, location) {
        HasNumberFrame(rows, after, location, n);
      } else {
        assert after[|rows|].ticket.location == location && after[|rows|].ticket.number == n;
      }
    }
  }

  lemma EffectKeepsNumber(row: Row, read: Status, a: Action, at: Time)
    ensures Effect(row, read, a, at).ticket.number == row.ticket.number
  {
  }

  lemma UpdateSamePlaces(s: Sys, x: nat)
    requires Inv(s) && Enabled(s, Commit(x)) && Stays(s, Commit(x)) && s.open[x].Updating?
    ensures SamePlaces(s.rows, Committed(s.rows, s.open[x]))
  {
    var txn := s.open[x];
    assert TxnOk(s.rows, txn);
    forall id: nat | id < |s.rows| && id in txn.pending
      ensures txn.pending[id].ticket.number == s.rows[id].ticket.number
    {
      EffectKeepsNumber(s.rows[id], txn.seen[id], txn.act, txn.at);
    }
  }

  lemma DenseFrame(rows: seq<Row>, after: seq<Row>, location: Id)
    requires SamePlaces(rows, after) && Dense(rows, location)
    ensures Dense(after, location) && MaxNumber(after, location) == MaxNumber(rows, location)
  {
    SamePlacesSameMax(rows, after, location);
    forall n: nat | 1 <= n <= MaxNumber(rows, location) ensures HasNumber(after, location, n) {
      HasNumberFrame(rows, after, location, n);
    }
  }

  lemma InsertKeepsNumbers(s: Sys, x: nat, location: Id)
    requires NumbersInv(s, location) && Enabled(s, Commit(x)) && s.open[x].Creating?
    ensures NumbersInv(Next(s, Commit(x)), location)
  {
    InsertKeepsDense(s.rows, s.open[x].draft, location);
  }

  lemma UpdateKeepsNumbers(s: Sys, x: nat, location: Id)
    requires Inv(s) && NumbersInv(s, location) && Enabled(s, Commit(x)) && Stays(s, Commit(x)) && s.open[x].Updating?
    ensures NumbersInv(Next(s, Commit(x)), location)
  {
    UpdateSamePlaces(s, x);
    DenseFrame(s.rows, Committed(s.rows, s.open[x]), location);
  }

  lemma StepKeepsNumbers(s: Sys, step: Step, location: Id)
    requires Inv(s) && NumbersInv(s, location) && Enabled(s, step) && Stays(s, step)
    ensures NumbersInv(Next(s, step), location)
  {
    if step.Commit? {
      if s.open[step.x].Creating? {
        InsertKeepsNumbers(s, step.x, location);
      } else {
        UpdateKeepsNumbers(s, step.x, location);
      }
    } else {
      assert Next(s, step).rows == s.rows;
    }
  }

  lemma {:induction false} RunKeepsNumbers(s: Sys, steps: seq<Step>, location: Id)
    requires Inv(s) && NumbersInv(s, location) && Legal(s, steps) && AllStay(s, steps)
    decreases |steps|
    ensures NumbersInv(Exec(s, steps), location)
  {
    if steps != [] {
      StepKeepsInv(s, steps[0]);
      StepKeepsNumbers(s, steps[0], location);
      RunKeepsNumbers(Next(s, steps[0]), steps[1..], location);
    }
  }

  /** In every interleaving: while reading the maximum again would give the same number, it is unused. */
  lemma SameMaximumNoDuplicate(s: Sys, x: nat)
    requires x in s.open && s.open[x].Creating?
    ensures
      var draft := s.open[x].draft;
      MaxNumber(s.rows, draft.location) + 1 == draft.number ==> !HasNumber(s.rows, draft.location, draft.number)
  {
    var draft := s.open[x].draft;
    if HasNumber(s.rows, draft.location, draft.number) {
      var id :| 0 <= id < |s.rows| && s.rows[id].ticket.location == draft.location
        && s.rows[id].ticket.number == draft.number;
      MaxBounds(s.rows, draft.location, id);
    }
  }

  /**
   The allocation is not atomic: without moves between locations, a creation about to insert number n
   duplicates a number exactly when reading the number again would no longer give n.
   */
  lemma DuplicateIffMaximumMoved(steps: seq<Step>, x: nat)
    requires Legal(EMPTY, steps) && AllStay(EMPTY, steps)
    requires x in Exec(EMPTY, steps).open && Exec(EMPTY, steps).open[x].Creating?
    ensures
      var s := Exec(EMPTY, steps);
      var draft := s.open[x].draft;
      HasNumber(s.rows, draft.location, draft.number) <==> MaxNumber(s.rows, draft.location) + 1 != draft.number
  {
    var s := Exec(EMPTY, steps);
    var draft := s.open[x].draft;
    RunKeepsNumbers(EMPTY, steps, draft.location);
    SameMaximumNoDuplicate(s, x);
  }

  /** The step inserts a number that reading the maximum again would no longer give. */
  ghost predicate InsertsMoved(s: Sys, step: Step) {
    && step.Commit? && step.x in s.open && s.open[step.x].Creating?
    && MaxNumber(s.rows, s.open[step.x].draft.location) + 1 != s.open[step.x].draft.number
  }

  ghost predicate NeverInsertsMoved(s: Sys, steps: seq<Step>)
    requires Legal(s, steps)
    decreases |steps|
  {
    steps == [] || (!InsertsMoved(s, steps[0]) && NeverInsertsMoved(Next(s, steps[0]), steps[1..]))
  }

  lemma InsertDistinctIff(rows: seq<Row>, draft: Ticket)
    requires Dense(rows, draft.location) && 1 <= draft.number <= MaxNumber(rows, draft.location) + 1
    ensures NumbersDistinct(rows + [NewRow(draft)]) <==>
      NumbersDistinct(rows) && MaxNumber(rows, draft.location) + 1 == draft.number
  {
    var after := rows + [NewRow(draft)];
    if draft.number == MaxNumber(rows, draft.location) + 1 {
      if NumbersDistinct(rows) { InsertKeepsDistinct(rows, NewRow(draft)); }
    } else {
      assert HasNumber(rows, draft.location, draft.number);
      var id :| 0 <= id < |rows| && rows[id].ticket.location == draft.location
        && rows[id].ticket.number == draft.number;
      assert after[id] == rows[id] && after[|rows|].ticket == draft;
    }
    if NumbersDistinct(after) {
      forall i, j | 0 <= i < j < |rows| && rows[i].ticket.location == rows[j].ticket.location
        ensures rows[i].ticket.number != rows[j].ticket.number
      {
        assert after[i] == rows[i] && after[j] == rows[j];
      }
    }
  }

  lemma StepKeepsDistinctIff(s: Sys, step: Step)
    requires Inv(s) && Enabled(s, step) && Stays(s, step)
    requires forall location :: NumbersInv(s, location)
    ensures NumbersDistinct(Next(s, step).rows) <==> NumbersDistinct(s.rows) && !InsertsMoved(s, step)
  {
    if step.Commit? {
      if s.open[step.x].Creating? {
        var draft := s.open[step.x].draft;
        assert NumbersInv(s, draft.location);
        InsertDistinctIff(s.rows, draft);
      } else {
        UpdateSamePlaces(s, step.x);
        var after := Next(s, step).rows;
        assert SamePlaces(after, s.rows);
        if NumbersDistinct(s.rows) { FrameKeepsDistinct(s.rows, after); }
        if NumbersDistinct(after) { FrameKeepsDistinct(after, s.rows); }
      }
    } else {
      assert Next(s, step).rows == s.rows;
    }
  }

  lemma {:induction false} RunDistinctIff(s: Sys, steps: seq<Step>)
    requires Inv(s) && Legal(s, steps) && AllStay(s, steps)
    requires forall location :: NumbersInv(s, location)
    decreases |steps|
    ensures NumbersDistinct(Exec(s, steps).rows) <==> NumbersDistinct(s.rows) && NeverInsertsMoved(s, steps)
  {
    if steps != [] {
      StepKeepsInv(s, steps[0]);
      forall location ensures NumbersInv(Next(s, steps[0]), location) {
        StepKeepsNumbers(s, steps[0], location);
      }
      StepKeepsDistinctIff(s, steps[0]);
      RunDistinctIff(Next(s, steps[0]), steps[1..]);
    }
  }

  /**
   In any interleaved run without moves between locations, numbers at each location are pairwise
   distinct if and only if no creation inserted a number after the maximum it had read was raised.
   */
  lemma DistinctIffNoInsertMoved(steps: seq<Step>)
    requires Legal(EMPTY, steps) && AllStay(EMPTY, steps)
    ensures NumbersDistinct(Exec(EMPTY, steps).rows) <==> NeverInsertsMoved(EMPTY, steps)
  {
    RunDistinctIff(EMPTY, steps);
  }

  /** Two number reads before either insert: two tickets of one location share number 1. */
  lemma TwoCreationsRace(location: Id, priority: Priority) returns (steps: seq<Step>)
    ensures Legal(EMPTY, steps)
    ensures
      var rows := Exec(EMPTY, steps).rows;
      |rows| == 2 && rows[0].ticket.location == rows[1].ticket.location == location
      && rows[0].ticket.number == rows[1].ticket.number == 1
  {
    var read1, read2 := ReadNumber(1, 0, location, None, priority, 0), ReadNumber(2, 0, location, None, priority, 0);
    steps := [read1, read2, Commit(1), Commit(2)];
    var s1 := Next(EMPTY, read1);
    var s2 := Next(s1, read2);
    var s3 := Next(s2, Commit(1));
    var s4 := Next(s3, Commit(2));
    assert steps[1..] == [read2, Commit(1), Commit(2)] && steps[1..][1..] == [Commit(1), Commit(2)];
    assert steps[1..][1..][1..] == [Commit(2)] && steps[1..][1..][1..][1..] == [];
    assert Legal(s4, []) && Exec(s4, []) == s4;
    assert Legal(s3, [Commit(2)]) && Exec(s3, [Commit(2)]) == s4;
    assert Legal(s2, steps[1..][1..]) && Exec(s2, steps[1..][1..]) == s4;
    assert Legal(s1, steps[1..]) && Exec(s1, steps[1..]) == s4;
  }
}
