/**
 READ COMMITTED transactions over the ticket table, interleaved at read, write and commit.
 A request reads a ticket without a lock and checks the status it read; its write later takes the
 row lock and passes the trigger on the live row; the lock is held until commit or abort.
 Call-next selects, locks and updates in one statement. A creation reads its number and inserts later.
 */
module Interleaving {
  import opened Wrappers
  import opened Fsm
  import opened Tickets
  import opened Queueing

  datatype Txn =
    | Updating(act: Action, at: Time, seen: map<nat, Status>, pending: map<nat, Row>)
    | Creating(draft: Ticket)

  datatype Sys = Sys(rows: seq<Row>, open: map<nat, Txn>)

  datatype Step =
    | Read(x: nat, act: Action, id: nat, at: Time)
    | SweepRead(x: nat, at: Time)
    | Write(x: nat, id: nat)
    | CallNext(x: nat, location: Id, service: Option<Id>, counter: Id, at: Time, pick: Option<nat>)
    | ReadNumber(x: nat, tenant: Id, location: Id, service: Option<Id>, priority: Priority, at: Time)
    | Commit(x: nat)
    | Abort(x: nat)

  const EMPTY := Sys([], map[])

  predicate Holds(txn: Txn, id: nat) {
    txn.Updating? && id in txn.pending
  }

  ghost predicate IsLocked(open: map<nat, Txn>, id: nat) {
    exists y :: y in open && Holds(open[y], id)
  }

  ghost predicate LockedByOther(open: map<nat, Txn>, x: nat, id: nat) {
    exists y :: y in open && y != x && Holds(open[y], id)
  }

  ghost function Locked(s: Sys): set<nat> {
    set id: nat | id < |s.rows| && IsLocked(s.open, id)
  }

  ghost predicate Enabled(s: Sys, step: Step) {
    match step
    case Read(x, act, id, _) => x !in s.open && id < |s.rows| && !act.Claim? && !act.AutoNoShow?
    case SweepRead(x, _) => x !in s.open
    case Write(x, id) =>
      && x in s.open && s.open[x].Updating? && !s.open[x].act.Claim? && id < |s.rows|
      && id in s.open[x].seen && id !in s.open[x].pending
      && !LockedByOther(s.open, x, id)
    case CallNext(x, location, service, _, _, pick) =>
      x !in s.open && Picks(s.rows, Locked(s), location, service, pick)
    case ReadNumber(x, _, _, _, _, _) => x !in s.open
    case Commit(x) => x in s.open && (s.open[x].Updating? ==> s.open[x].pending.Keys == s.open[x].seen.Keys)
    case Abort(x) => x in s.open
  }

  /** What a commit makes visible. */
  function Committed(rows: seq<Row>, txn: Txn): seq<Row> {
    match txn
    case Updating(_, _, _, pending) =>
      seq(|rows|, i requires 0 <= i < |rows| => if i in pending then pending[i] else rows[i])
    case Creating(draft) => rows + [NewRow(draft)]
  }

  ghost function Next(s: Sys, step: Step): Sys
    requires Enabled(s, step)
  {
    match step
    case Read(x, act, id, at) =>
      var status := s.rows[id].ticket.status;
      if Permits(status, act) then s.(open := s.open[x := Updating(act, at, map[id := status], map[])])
      else s
    case SweepRead(x, at) =>
      var seen := map id: nat | id < |s.rows| && Stuck(s.rows[id], at) :: s.rows[id].ticket.status;
      s.(open := s.open[x := Updating(AutoNoShow, at, seen, map[])])
    case Write(x, id) =>
      var txn := s.open[x];
      if TriggerPasses(s.rows[id].ticket.status, txn.act) then
        var row := Effect(s.rows[id], txn.seen[id], txn.act, txn.at);
        s.(open := s.open[x := txn.(pending := txn.pending[id := row])])
      else s.(open := s.open - {x})
    case CallNext(x, _, _, counter, at, pick) =>
      if pick.None? then s
      else
        var row := Effect(s.rows[pick.value], Waiting, Claim(counter), at);
        s.(open := s.open[x := Updating(Claim(counter), at, map[pick.value := Waiting], map[pick.value := row])])
    case ReadNumber(x, tenant, location, service, priority, at) =>
      var number := MaxNumber(s.rows, location) + 1;
      s.(open := s.open[x := Creating(NewTicket(tenant, location, service, number, priority, at))])
    case Commit(x) => Sys(Committed(s.rows, s.open[x]), s.open - {x})
    case Abort(x) => s.(open := s.open - {x})
  }

  ghost predicate Legal(s: Sys, steps: seq<Step>)
    decreases |steps|
  {
    steps == [] || (Enabled(s, steps[0]) && Legal(Next(s, steps[0]), steps[1..]))
  }

  ghost function Exec(s: Sys, steps: seq<Step>): Sys
    requires Legal(s, steps)
    decreases |steps|
  {
    if steps == [] then s else Exec(Next(s, steps[0]), steps[1..])
  }

  // ---------- the invariant ----------

  /**
   A pending row is what the request makes of the row as committed now: nothing moved under the lock.
   Only the sweep writes several rows.
   */
  ghost predicate TxnOk(rows: seq<Row>, txn: Txn) {
    match txn
    case Updating(act, at, seen, pending) =>
      && (forall id :: id in seen ==> id < |rows| && Permits(seen[id], act))
      && (act.AutoNoShow? || forall i, j :: i in seen && j in seen ==> i == j)
      && (forall id :: id in pending ==>
            && id in seen
            && TriggerPasses(rows[id].ticket.status, act)
            && (act.Claim? ==> rows[id].ticket.status == Waiting)
            && pending[id] == Effect(rows[id], seen[id], act, at))
    case Creating(draft) => draft.status == Waiting
  }

  ghost predicate LocksExclusive(open: map<nat, Txn>) {
    forall x, y, id :: x in open && y in open && Holds(open[x], id) && Holds(open[y], id) ==> x == y
  }

  ghost predicate Inv(s: Sys) {
    && (forall id :: 0 <= id < |s.rows| ==> Sound(s.rows[id]))
    && (forall x :: x in s.open ==> TxnOk(s.rows, s.open[x]))
    && LocksExclusive(s.open)
  }

  /** Rows only move forward: none disappears, logs grow at the end, terminal statuses stay. */
  ghost predicate Grows(before: seq<Row>, after: seq<Row>) {
    && |before| <= |after|
    && forall id :: 0 <= id < |before| ==>
         && before[id].log <= after[id].log
         && (IsTerminal(before[id].ticket.status) ==> after[id].ticket.status == before[id].ticket.status)
  }

  lemma CommitRows(s: Sys, x: nat)
    requires Inv(s) && Enabled(s, Commit(x))
    ensures Grows(s.rows, Committed(s.rows, s.open[x]))
    ensures forall id :: 0 <= id < |Committed(s.rows, s.open[x])| ==> Sound(Committed(s.rows, s.open[x])[id])
  {
    assert TxnOk(s.rows, s.open[x]);
    match s.open[x]
    case Creating(draft) => NewRowSound(draft);
    case Updating(act, at, seen, pending) =>
      forall id | 0 <= id < |s.rows| && id in pending
        ensures Sound(pending[id]) && s.rows[id].log <= pending[id].log
        ensures IsTerminal(s.rows[id].ticket.status) ==> pending[id].ticket.status == s.rows[id].ticket.status
      {
        EffectSound(s.rows[id], seen[id], act, at);
      }
  }

  /** The other transactions still hold what they computed: their rows were not touched. */
  lemma CommitSparesOthers(s: Sys, x: nat, y: nat)
    requires Inv(s) && Enabled(s, Commit(x)) && y in s.open && y != x
    ensures TxnOk(Committed(s.rows, s.open[x]), s.open[y])
  {
    var after := Committed(s.rows, s.open[x]);
    assert TxnOk(s.rows, s.open[y]);
    if s.open[y].Updating? {
      forall id | id in s.open[y].pending ensures after[id] == s.rows[id] {
        assert Holds(s.open[y], id);
        assert !Holds(s.open[x], id);
      }
    }
  }

  lemma CommitKeepsInv(s: Sys, x: nat)
    requires Inv(s) && Enabled(s, Commit(x))
    ensures Inv(Next(s, Commit(x))) && Grows(s.rows, Next(s, Commit(x)).rows)
  {
    CommitRows(s, x);
    forall y | y in s.open && y != x ensures TxnOk(Committed(s.rows, s.open[x]), s.open[y]) {
      CommitSparesOthers(s, x, y);
    }
  }

  lemma HoldMoreKeepsLocks(open: map<nat, Txn>, x: nat, txn: Txn, id: nat)
    requires LocksExclusive(open) && x in open && !LockedByOther(open, x, id)
    requires forall i :: Holds(txn, i) ==> i == id || Holds(open[x], i)
    ensures LocksExclusive(open[x := txn])
  {
    var after := open[x := txn];
    forall y, z, i | y in after && z in after && Holds(after[y], i) && Holds(after[z], i) ensures y == z {
      assert y != x ==> Holds(open[y], i);
      assert z != x ==> Holds(open[z], i);
    }
  }

  lemma WriteKeepsInv(s: Sys, x: nat, id: nat)
    requires Inv(s) && Enabled(s, Write(x, id))
    ensures Inv(Next(s, Write(x, id)))
  {
    var after := Next(s, Write(x, id));
    assert TxnOk(s.rows, s.open[x]);
    if x in after.open {
      HoldMoreKeepsLocks(s.open, x, after.open[x], id);
      assert after.open == s.open[x := after.open[x]];
    } else {
      DropKeepsInv(s, x);
    }
    forall y | y in after.open ensures TxnOk(s.rows, after.open[y]) {
      assert y != x ==> after.open[y] == s.open[y];
    }
  }

  lemma BeginKeepsInv(s: Sys, x: nat, txn: Txn)
    requires Inv(s) && x !in s.open && TxnOk(s.rows, txn)
    requires forall id :: Holds(txn, id) ==> !IsLocked(s.open, id)
    ensures Inv(s.(open := s.open[x := txn]))
  {
  }

  lemma DropKeepsInv(s: Sys, x: nat)
    requires Inv(s)
    ensures Inv(s.(open := s.open - {x}))
  {
  }

  lemma ReadKeepsInv(s: Sys, x: nat, act: Action, id: nat, at: Time)
    requires Inv(s) && Enabled(s, Read(x, act, id, at))
    ensures Inv(Next(s, Read(x, act, id, at)))
  {
    var status := s.rows[id].ticket.status;
    if Permits(status, act) { BeginKeepsInv(s, x, Updating(act, at, map[id := status], map[])); }
  }

  lemma CallNextKeepsInv(s: Sys, step: Step)
    requires Inv(s) && Enabled(s, step) && step.CallNext?
    ensures Inv(Next(s, step))
  {
    if step.pick.Some? {
      assert step.pick.value !in Locked(s);
      BeginKeepsInv(s, step.x, Next(s, step).open[step.x]);
    }
  }

  lemma StepKeepsInv(s: Sys, step: Step)
    requires Inv(s) && Enabled(s, step)
    ensures Inv(Next(s, step)) && Grows(s.rows, Next(s, step).rows)
  {
    match step
    case Read(x, act, id, at) => ReadKeepsInv(s, x, act, id, at);
    case SweepRead(x, at) => BeginKeepsInv(s, x, Next(s, step).open[x]);
    case Write(x, id) => WriteKeepsInv(s, x, id);
    case CallNext(_, _, _, _, _, _) => CallNextKeepsInv(s, step);
    case ReadNumber(x, _, _, _, _, _) => BeginKeepsInv(s, x, Next(s, step).open[x]);
    case Commit(x) => CommitKeepsInv(s, x);
    case Abort(x) => DropKeepsInv(s, x);
  }

  lemma {:induction false} RunKeepsInv(s: Sys, steps: seq<Step>)
    requires Inv(s) && Legal(s, steps)
    decreases |steps|
    ensures Inv(Exec(s, steps)) && Grows(s.rows, Exec(s, steps).rows)
  {
    if steps != [] {
      StepKeepsInv(s, steps[0]);
      RunKeepsInv(Next(s, steps[0]), steps[1..]);
    }
  }

  // ---------- what a step shows, and to whom ----------

  /** Other transactions are left as they are. */
  ghost predicate OnlyMoves(s: Sys, next: Sys, x: nat) {
    forall y :: y != x ==> (y in next.open <==> y in s.open) && (y in s.open ==> next.open[y] == s.open[y])
  }

  /** Only a commit changes the table, and a step moves no transaction but its own. */
  lemma OnlyCommitsShow(s: Sys, step: Step)
    requires Enabled(s, step)
    ensures !step.Commit? ==> Next(s, step).rows == s.rows
    ensures OnlyMoves(s, Next(s, step), step.x)
    ensures step.Commit? || step.Abort? ==> step.x !in Next(s, step).open
  {
  }

  /** An update commits the rows it has written, a creation one new row after the others. */
  lemma CommitOutcome(s: Sys, x: nat)
    requires Enabled(s, Commit(x))
    ensures
      var txn, after := s.open[x], Next(s, Commit(x)).rows;
      if txn.Creating? then
        && |after| == |s.rows| + 1 && after[..|s.rows|] == s.rows
        && after[|s.rows|] == Row(txn.draft, [Event(Entered(Created), None, txn.draft.createdAt)], [])
      else
        && |after| == |s.rows|
        && forall id: nat :: id < |after| ==> after[id] == if id in txn.pending then txn.pending[id] else s.rows[id]
  {
  }

  /** The first status change a request writes is one the trigger refuses. */
  predicate Refused(live: Status, act: Action) {
    Target(act) != live && Target(act) !in ValidTargets(live)
  }

  /**
   A write the trigger refuses ends its transaction, with nothing of it left; one it accepts adds its
   row to the transaction and takes nothing from what it has read or written.
   */
  lemma WriteOutcome(s: Sys, x: nat, id: nat)
    requires Enabled(s, Write(x, id))
    ensures
      var txn, next := s.open[x], Next(s, Write(x, id));
      if Refused(s.rows[id].ticket.status, txn.act) then next == s.(open := s.open - {x})
      else
        && x in next.open && next.open[x].Updating? && next.open[x].seen == txn.seen
        && next.open[x].act == txn.act && next.open[x].at == txn.at
        && next.open[x].pending.Keys == txn.pending.Keys + {id}
        && forall other :: other in txn.pending ==> next.open[x].pending[other] == txn.pending[other]
  {
    TriggerIsTable(s.rows[id].ticket.status, Target(s.open[x].act));
  }
}
