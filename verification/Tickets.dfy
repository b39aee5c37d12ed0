/**
 The ticket row, its append-only log and its interactions, and what each request does to a row
 once it holds that row's lock. Both the serial store and the interleaved transactions are built
 from the one function `Effect`.
 */
module Tickets {
  import opened Wrappers
  import opened Fsm

  type Id = nat
  type Time = nat
  type Priority = p: int | 1 <= p <= 10 witness 5

  datatype Ticket = Ticket(
    tenant: Id, location: Id, service: Option<Id>, counter: Option<Id>, number: nat,
    status: Status, priority: Priority, createdAt: Time,
    calledAt: Option<Time>, startedAt: Option<Time>, completedAt: Option<Time>)

  datatype Event = Event(kind: EventType, fromStatus: Option<Status>, at: Time)

  datatype Interaction = Interaction(counter: Option<Id>, startedAt: Time, endedAt: Option<Time>)

  datatype Row = Row(ticket: Ticket, log: seq<Event>, visits: seq<Interaction>)

  /** The part of a request that runs while it holds the ticket's row lock. */
  datatype Action =
    | Claim(counter: Id) | PutOnHold | Cancel | ReportNoShow | Start | Complete
    | Transfer(service: Id, location: Option<Id>)
    | AutoNoShow

  // ---------- what a request writes ----------

  function NewTicket(tenant: Id, location: Id, service: Option<Id>, number: nat, priority: Priority, at: Time): Ticket {
    Ticket(tenant, location, service, None, number, Waiting, priority, at, None, None, None)
  }

  /** A created ticket is stored as WAITING while its first event says CREATED. */
  function NewRow(t: Ticket): Row {
    Row(t, [Event(Entered(Created), None, t.createdAt)], [])
  }

  function Target(a: Action): Status {
    match a
    case Claim(_) => Called
    case PutOnHold => Hold
    case Cancel => Canceled
    case ReportNoShow => NoShow
    case Start => InService
    case Complete => Completed
    case Transfer(_, _) => Transferred
    case AutoNoShow => NoShow
  }

  /** The check a request makes on the status it read, which may be stale when it writes. */
  predicate Permits(read: Status, a: Action) {
    match a
    case Claim(_) => read == Waiting
    case AutoNoShow => read == Called
    case _ => Transition(read, Target(a)).Ok?
  }

  /** The trigger's verdict on every status write of the request, on the live row. */
  predicate TriggerPasses(live: Status, a: Action) {
    TriggerAllows(live, Target(a)) && (a.Transfer? ==> TriggerAllows(Transferred, Waiting))
  }

  /** The assignments `transition_status` makes to the ticket. */
  function Stamped(t: Ticket, target: Status, at: Time): Ticket {
    var moved := t.(status := target);
    if target == InService then moved.(startedAt := Some(at))
    else if IsTerminal(target) then moved.(completedAt := Some(at))
    else moved
  }

  function Closed(visits: seq<Interaction>, at: Time): (r: seq<Interaction>)
    ensures |r| == |visits|
    ensures forall i :: 0 <= i < |r| ==> r[i].endedAt.Some?
  {
    seq(|visits|, i requires 0 <= i < |visits| =>
      if visits[i].endedAt.None? then visits[i].(endedAt := Some(at)) else visits[i])
  }

  /** The row after the request's statements, issued at `at` by a writer that read status `read`. */
  function Effect(row: Row, read: Status, a: Action, at: Time): Row {
    var t := row.ticket;
    match a
    case Claim(counter) =>
      Row(t.(status := Called, calledAt := Some(at), counter := Some(counter)),
          row.log + [Event(Entered(Called), Some(Waiting), at)], row.visits)
    case AutoNoShow =>
      Row(t.(status := NoShow, completedAt := Some(at)),
          row.log + [Event(Entered(NoShow), None, at)], row.visits)
    case Transfer(service, location) =>
      var moved := Stamped(t, Transferred, at);
      var place := if location.Some? then location.value else moved.location;
      Row(moved.(service := Some(service), location := place, counter := None, status := Waiting),
          row.log + [Event(EventTypeFor(read, Transferred), Some(read), at)] + [Event(Entered(Waiting), None, at)],
          row.visits)
    case _ =>
      var visits :=
        if a.Start? then row.visits + [Interaction(t.counter, at, None)]
        else if a.Complete? then Closed(row.visits, at)
        else row.visits;
      Row(Stamped(t, Target(a), at), row.log + [Event(EventTypeFor(read, Target(a)), Some(read), at)], visits)
  }

  /** Seconds a ticket may stay CALLED before the sweep takes it. */
  const NO_SHOW_AFTER: Time := 300

  /** The sweep's query: called more than five minutes before `now`. */
  predicate Stuck(row: Row, now: Time) {
    && row.ticket.status == Called
    && row.ticket.calledAt.Some?
    && row.ticket.calledAt.value + NO_SHOW_AFTER < now
  }

  /** `select coalesce(max(number), 0)` over a location. */
  function MaxNumber(rows: seq<Row>, location: Id): nat {
    if rows == [] then 0
    else
      var rest, t := MaxNumber(rows[..|rows| - 1], location), rows[|rows| - 1].ticket;
      if t.location == location && t.number > rest then t.number else rest
  }

  /** The signage count: WAITING tickets at a location. */
  function WaitingCount(rows: seq<Row>, location: Id): nat {
    if rows == [] then 0
    else
      var t := rows[|rows| - 1].ticket;
      WaitingCount(rows[..|rows| - 1], location) + if t.location == location && t.status == Waiting then 1 else 0
  }

  // ---------- reading the log ----------

  /** The status a log stands for; CREATED stands for WAITING. */
  function Replay(log: seq<Event>): Status {
    if log == [] then Created
    else match log[|log| - 1].kind
      case NoteAdded => Replay(log[..|log| - 1])
      case Entered(s) => if s == Created then Waiting else s
  }

  function Tally(log: seq<Event>, s: Status): nat {
    if log == [] then 0
    else Tally(log[..|log| - 1], s) + if log[|log| - 1].kind == Entered(s) then 1 else 0
  }

  lemma TallySnoc(log: seq<Event>, e: Event, s: Status)
    ensures Tally(log + [e], s) == Tally(log, s) + if e.kind == Entered(s) then 1 else 0
  {
    assert (log + [e])[..|log|] == log;
  }

  // ---------- invariants that survive every interleaving ----------

  /** The whole history is a walk in the state machine, stutters allowed. */
  ghost predicate WalksMachine(log: seq<Event>) {
    forall i :: 1 <= i < |log| ==> Moves(Replay(log[..i]), Replay(log[..i + 1]))
  }

  /** Between two calls of one ticket it was put back in a queue. */
  ghost predicate CalledOncePerQueueing(log: seq<Event>) {
    forall i, j :: 0 <= i < j < |log| && log[i].kind == Entered(Called) && log[j].kind == Entered(Called) ==>
      exists k :: i < k < j && log[k].kind == Entered(Waiting)
  }

  ghost predicate EveryCallRequeued(log: seq<Event>) {
    forall i :: 0 <= i < |log| && log[i].kind == Entered(Called) ==>
      exists k :: i < k < |log| && log[k].kind == Entered(Waiting)
  }

  ghost predicate CallsCounted(status: Status, log: seq<Event>) {
    var calls, requeues := Tally(log, Called), Tally(log, Waiting);
    && requeues == Tally(log, Transferred)
    && requeues <= calls <= requeues + 1
    && (status == Waiting ==> calls == requeues)
    && (status in {Called, InService, Hold, Completed} ==> calls == requeues + 1)
  }

  ghost predicate HistoryOk(status: Status, log: seq<Event>) {
    && |log| > 0
    && log[0].kind == Entered(Created)
    && status !in {Created, Transferred}
    && Replay(log) == status
    && WalksMachine(log)
    && CalledOncePerQueueing(log)
    && (status == Waiting ==> EveryCallRequeued(log))
    && CallsCounted(status, log)
  }

  ghost predicate VisitsOk(status: Status, log: seq<Event>, visits: seq<Interaction>) {
    && |visits| == Tally(log, InService)
    && (forall i :: 0 <= i < |visits| ==> (visits[i].endedAt.Some? <==> status == Completed))
    && (status == InService ==> |visits| > 0)
  }

  ghost predicate Sound(row: Row) {
    HistoryOk(row.ticket.status, row.log) && VisitsOk(row.ticket.status, row.log, row.visits)
  }

  lemma NewRowSound(t: Ticket)
    requires t.status == Waiting
    ensures Sound(NewRow(t))
  {
    var log := NewRow(t).log;
    assert log == [] + log;
    forall s ensures Tally(log, s) == if s == Created then 1 else 0 {
      TallySnoc([], log[0], s);
    }
  }

  lemma WalkSnoc(log: seq<Event>, e: Event)
    requires |log| > 0 && WalksMachine(log)
    requires Moves(Replay(log), Replay(log + [e]))
    ensures WalksMachine(log + [e])
  {
    var longer := log + [e];
    forall i | 1 <= i < |longer| ensures Moves(Replay(longer[..i]), Replay(longer[..i + 1])) {
      assert longer[..i] == log[..i];
      if i < |log| {
        assert longer[..i + 1] == log[..i + 1];
      } else {
        assert log[..i] == log && longer[..i + 1] == longer;
      }
    }
  }

  lemma CallsSnoc(log: seq<Event>, e: Event)
    requires CalledOncePerQueueing(log)
    requires e.kind == Entered(Called) ==> EveryCallRequeued(log)
    ensures CalledOncePerQueueing(log + [e])
    ensures EveryCallRequeued(log) && e.kind != Entered(Called) ==> EveryCallRequeued(log + [e])
    ensures e.kind == Entered(Waiting) ==> EveryCallRequeued(log + [e])
  {
    var longer := log + [e];
    forall i, j | 0 <= i < j < |longer| && longer[i].kind == Entered(Called) && longer[j].kind == Entered(Called)
      ensures exists k :: i < k < j && longer[k].kind == Entered(Waiting)
    {
      assert longer[i] == log[i];
      if j < |log| {
        assert longer[j] == log[j];
        var k :| i < k < j && log[k].kind == Entered(Waiting);
        assert longer[k] == log[k];
      } else {
        var k :| i < k < |log| && log[k].kind == Entered(Waiting);
        assert longer[k] == log[k];
      }
    }
    if EveryCallRequeued(log) && e.kind != Entered(Called) {
      forall i | 0 <= i < |longer| && longer[i].kind == Entered(Called)
        ensures exists k :: i < k < |longer| && longer[k].kind == Entered(Waiting)
      {
        assert longer[i] == log[i];
        var k :| i < k < |log| && log[k].kind == Entered(Waiting);
        assert longer[k] == log[k];
      }
    }
    if e.kind == Entered(Waiting) {
      assert longer[|log|] == e;
    }
  }

  /** One more event, entering a status other than the queueing ones. */
  lemma HistorySnoc(status: Status, log: seq<Event>, e: Event, s: Status)
    requires HistoryOk(status, log)
    requires e.kind == Entered(s) && s !in {Created, Waiting, Transferred}
    requires Moves(status, s) && (s == Called ==> status == Waiting)
    ensures HistoryOk(s, log + [e])
  {
    WalkSnoc(log, e);
    CallsSnoc(log, e);
    TallySnoc(log, e, Called);
    TallySnoc(log, e, Waiting);
    TallySnoc(log, e, Transferred);
  }

  /** The two events of a transfer. */
  lemma HistoryRequeue(log: seq<Event>, out: Event, back: Event)
    requires HistoryOk(InService, log)
    requires out.kind == Entered(Transferred) && back.kind == Entered(Waiting)
    ensures HistoryOk(Waiting, log + [out] + [back])
  {
    var mid := log + [out];
    WalkSnoc(log, out);
    WalkSnoc(mid, back);
    CallsSnoc(log, out);
    CallsSnoc(mid, back);
    forall s ensures Tally(mid + [back], s) ==
        Tally(log, s) + (if s == Transferred then 1 else 0) + if s == Waiting then 1 else 0 {
      TallySnoc(log, out, s);
      TallySnoc(mid, back, s);
    }
  }

  lemma EffectHistory(row: Row, read: Status, a: Action, at: Time)
    requires Sound(row) && Permits(read, a) && TriggerPasses(row.ticket.status, a)
    requires a.Claim? ==> row.ticket.status == Waiting
    ensures HistoryOk(Effect(row, read, a, at).ticket.status, Effect(row, read, a, at).log)
  {
    var after := Effect(row, read, a, at);
    TriggerIsTable(row.ticket.status, Target(a));
    if a.Transfer? {
      HistoryRequeue(row.log, after.log[|row.log|], after.log[|row.log| + 1]);
    } else {
      HistorySnoc(row.ticket.status, row.log, after.log[|row.log|], Target(a));
    }
  }

  lemma VisitsSnoc(
    status: Status, log: seq<Event>, visits: seq<Interaction>, e: Event, s: Status, now: seq<Interaction>)
    requires VisitsOk(status, log, visits) && e.kind == Entered(s) && Moves(status, s)
    requires
      if s == InService then |now| == |visits| + 1 && now[..|visits|] == visits && now[|visits|].endedAt.None?
      else if s == Completed then |now| == |visits| && forall i :: 0 <= i < |now| ==> now[i].endedAt.Some?
      else now == visits
    ensures VisitsOk(s, log + [e], now)
  {
    TallySnoc(log, e, InService);
    assert s == InService ==> forall i :: 0 <= i < |visits| ==> now[i] == now[..|visits|][i];
  }

  lemma VisitsRequeue(row: Row, out: Event, back: Event)
    requires VisitsOk(row.ticket.status, row.log, row.visits) && Moves(row.ticket.status, Transferred)
    requires row.ticket.status !in {Created, Transferred}
    requires out.kind == Entered(Transferred) && back.kind == Entered(Waiting)
    ensures VisitsOk(Waiting, row.log + [out] + [back], row.visits)
  {
    VisitsSnoc(row.ticket.status, row.log, row.visits, out, Transferred, row.visits);
    VisitsSnoc(Transferred, row.log + [out], row.visits, back, Waiting, row.visits);
  }

  lemma EffectVisits(row: Row, read: Status, a: Action, at: Time)
    requires VisitsOk(row.ticket.status, row.log, row.visits)
    requires Moves(row.ticket.status, Target(a)) && row.ticket.status !in {Created, Transferred}
    ensures
      var after := Effect(row, read, a, at);
      VisitsOk(after.ticket.status, after.log, after.visits)
  {
    var after := Effect(row, read, a, at);
    var e := after.log[|row.log|];
    if a.Transfer? {
      VisitsRequeue(row, e, after.log[|row.log| + 1]);
    } else {
      assert after.log == row.log + [e] && after.ticket.status == Target(a);
      VisitsSnoc(row.ticket.status, row.log, row.visits, e, Target(a), after.visits);
    }
  }

  /**
   The heart of concurrent safety: a write decided on a stale read, but let through by the
   trigger on the live row, keeps the row sound.
   */
  lemma EffectSound(row: Row, read: Status, a: Action, at: Time)
    requires Sound(row) && Permits(read, a) && TriggerPasses(row.ticket.status, a)
    requires a.Claim? ==> row.ticket.status == Waiting
    ensures Sound(Effect(row, read, a, at))
    ensures row.log < Effect(row, read, a, at).log
    ensures IsTerminal(row.ticket.status) ==> Effect(row, read, a, at).ticket.status == row.ticket.status
  {
    TriggerIsTable(row.ticket.status, Target(a));
    EffectHistory(row, read, a, at);
    EffectVisits(row, read, a, at);
  }

  /** A check made on the live status is never overruled by the trigger. */
  lemma FreshReadPasses(live: Status, a: Action)
    requires Permits(live, a)
    ensures TriggerPasses(live, a)
  {
    TriggerIsTable(live, Target(a));
  }
}
