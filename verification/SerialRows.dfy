/**
 What a row satisfies when every request runs alone, so that the status it reads is the live one:
 event counts fixed by the number of transfers, faithful `from_status` columns, ordered stamps,
 and a log whose arrivals and departures balance the WAITING count.
 */
module SerialRows {
  import opened Wrappers
  import opened Fsm
  import opened Tickets

  /** The number of events is fixed by status and number of transfers. */
  ghost predicate LifecycleCount(status: Status, log: seq<Event>) {
    var base := 4 * Tally(log, Transferred);
    match status
    case Waiting => |log| == base + 1
    case Called => |log| == base + 2
    case InService => |log| == base + 3
    case Hold => |log| == base + 4
    case Completed => |log| == base + 4
    case Canceled => base + 2 <= |log| <= base + 5
    case NoShow => base + 2 <= |log| <= base + 3
    case _ => false
  }

  /** Every recorded previous status is what the log before the event replays to. */
  ghost predicate FromFaithful(log: seq<Event>) {
    forall i :: 0 <= i < |log| && log[i].fromStatus.Some? ==> i > 0 && Replay(log[..i]) == log[i].fromStatus.value
  }

  /** CREATED + WAITING - CALLED - (CANCELED and NO_SHOW recorded as leaving WAITING). */
  function Balance(log: seq<Event>): int {
    if log == [] then 0
    else
      var e := log[|log| - 1];
      Balance(log[..|log| - 1]) +
      if e.kind == Entered(Created) || e.kind == Entered(Waiting) then 1
      else if e.kind == Entered(Called) then -1
      else if (e.kind == Entered(Canceled) || e.kind == Entered(NoShow)) && e.fromStatus == Some(Waiting) then -1
      else 0
  }

  /** `a` is unset or at most `b`. */
  predicate NotAfter(a: Option<Time>, b: Time) {
    a.Some? ==> a.value <= b
  }

  ghost predicate StampsOk(t: Ticket, now: Time) {
    && t.createdAt <= now
    && NotAfter(t.calledAt, now) && NotAfter(t.startedAt, now) && NotAfter(t.completedAt, now)
    && (t.calledAt.Some? ==> t.createdAt <= t.calledAt.value)
    && (t.startedAt.Some? ==> t.calledAt.Some? && t.createdAt <= t.startedAt.value)
    && (t.status == Called ==> t.calledAt.Some?)
    && (t.status in {InService, Hold, Completed} ==>
          t.startedAt.Some? && t.createdAt <= t.calledAt.value <= t.startedAt.value)
    && (t.completedAt.Some? <==> IsTerminal(t.status))
    && (t.completedAt.Some? ==>
          t.createdAt <= t.completedAt.value && NotAfter(t.calledAt, t.completedAt.value)
          && NotAfter(t.startedAt, t.completedAt.value))
  }

  /** Reading a ticket's events in order of `occurred_at` is reading them in log order. */
  ghost predicate LogTimesOk(log: seq<Event>, now: Time) {
    && (forall i :: 0 <= i < |log| ==> log[i].at <= now)
    && (forall i, j :: 0 <= i < j < |log| ==> log[i].at <= log[j].at)
  }

  /** The stamp of the current stage is the time of the event that entered it. */
  ghost predicate StampsMatchLog(t: Ticket, log: seq<Event>) {
    log != [] && log[0].at == t.createdAt &&
    var last := log[|log| - 1].at;
    && (t.status == Called ==> t.calledAt == Some(last))
    && (t.status == InService ==> t.startedAt == Some(last))
    && (IsTerminal(t.status) ==> t.completedAt == Some(last))
  }

  /** The latest visit is at the counter that called the ticket; completion closes every visit at once. */
  ghost predicate VisitsMatch(t: Ticket, visits: seq<Interaction>) {
    && (t.status == Waiting ==> t.counter.None?)
    && (t.status in {Called, InService, Hold, Completed} ==> t.counter.Some?)
    && (t.status in {InService, Hold, Completed} ==>
          && visits != [] && visits[|visits| - 1].counter == t.counter
          && Some(visits[|visits| - 1].startedAt) == t.startedAt)
    && (visits != [] ==> t.startedAt.Some?)
    && (forall i :: 0 <= i < |visits| ==> visits[i].startedAt <= t.startedAt.value)
    && (t.status == Completed ==> forall i :: 0 <= i < |visits| ==> visits[i].endedAt == t.completedAt)
  }

  /** Counts, previous statuses and arrivals, read from the log. */
  ghost predicate LogOk(row: Row) {
    && LifecycleCount(row.ticket.status, row.log)
    && FromFaithful(row.log)
    && Balance(row.log) == (if row.ticket.status == Waiting then 1 else 0)
  }

  /** Stamps, event times and visits. */
  ghost predicate TimesOk(row: Row, now: Time) {
    && StampsOk(row.ticket, now)
    && LogTimesOk(row.log, now)
    && StampsMatchLog(row.ticket, row.log)
    && VisitsMatch(row.ticket, row.visits)
  }

  ghost predicate Orderly(row: Row, now: Time) {
    Sound(row) && LogOk(row) && TimesOk(row, now)
  }

  lemma NewRowOrderly(t: Ticket, now: Time)
    requires t.status == Waiting && t.createdAt == now
    requires t.calledAt.None? && t.startedAt.None? && t.completedAt.None? && t.counter.None?
    ensures Orderly(NewRow(t), now)
  {
    NewRowSound(t);
    var log := NewRow(t).log;
    assert log == [] + log;
    TallySnoc([], log[0], Transferred);
    BalanceSnoc([], log[0]);
  }

  lemma BalanceSnoc(log: seq<Event>, e: Event)
    ensures Balance(log + [e]) == Balance(log) + Balance([e])
  {
    assert (log + [e])[..|log|] == log;
    assert [e][..0] == [];
  }

  lemma FromSnoc(log: seq<Event>, e: Event)
    requires FromFaithful(log)
    requires e.fromStatus.Some? ==> |log| > 0 && Replay(log) == e.fromStatus.value
    ensures FromFaithful(log + [e])
  {
    var longer := log + [e];
    forall i | 0 <= i < |longer| && longer[i].fromStatus.Some?
      ensures i > 0 && Replay(longer[..i]) == longer[i].fromStatus.value
    {
      assert longer[..i] == log[..i];
      if i < |log| {
        assert longer[i] == log[i];
      } else {
        assert log[..i] == log;
      }
    }
  }

  lemma EffectStamps(row: Row, a: Action, now: Time)
    requires StampsOk(row.ticket, now) && row.ticket.status !in {Created, Transferred}
    requires Permits(row.ticket.status, a)
    ensures StampsOk(Effect(row, row.ticket.status, a, now).ticket, now)
  {
  }

  /** One more event, read on the live status, entering a status other than the queueing ones. */
  lemma CountsSnoc(status: Status, log: seq<Event>, e: Event, s: Status)
    requires LifecycleCount(status, log) && Balance(log) == (if status == Waiting then 1 else 0)
    requires e.kind == Entered(s) && s !in {Created, Waiting, Transferred} && s in ValidTargets(status)
    requires e.fromStatus == Some(status) || (e.fromStatus.None? && status == Called)
    ensures LifecycleCount(s, log + [e]) && Balance(log + [e]) == 0
  {
    TallySnoc(log, e, Transferred);
    BalanceSnoc(log, e);
    assert [e][..0] == [];
  }

  /** The two events of a transfer. */
  lemma CountsRequeue(log: seq<Event>, out: Event, back: Event)
    requires LifecycleCount(InService, log) && Balance(log) == 0
    requires out.kind == Entered(Transferred) && back.kind == Entered(Waiting)
    ensures LifecycleCount(Waiting, log + [out] + [back]) && Balance(log + [out] + [back]) == 1
  {
    TallySnoc(log, out, Transferred);
    TallySnoc(log + [out], back, Transferred);
    BalanceSnoc(log, out);
    BalanceSnoc(log + [out], back);
    assert [out][..0] == [] && [back][..0] == [];
  }

  lemma EffectCounts(row: Row, a: Action, now: Time)
    requires LifecycleCount(row.ticket.status, row.log) && Permits(row.ticket.status, a)
    requires Balance(row.log) == (if row.ticket.status == Waiting then 1 else 0)
    ensures
      var after := Effect(row, row.ticket.status, a, now);
      && LifecycleCount(after.ticket.status, after.log)
      && Balance(after.log) == if after.ticket.status == Waiting then 1 else 0
  {
    var after := Effect(row, row.ticket.status, a, now);
    var e := after.log[|row.log|];
    if a.Transfer? {
      CountsRequeue(row.log, e, after.log[|row.log| + 1]);
    } else {
      CountsSnoc(row.ticket.status, row.log, e, Target(a));
    }
  }

  lemma EffectFrom(row: Row, a: Action, now: Time)
    requires FromFaithful(row.log) && row.log != [] && Replay(row.log) == row.ticket.status
    requires Permits(row.ticket.status, a)
    ensures FromFaithful(Effect(row, row.ticket.status, a, now).log)
  {
    var after := Effect(row, row.ticket.status, a, now);
    FromSnoc(row.log, after.log[|row.log|]);
    if a.Transfer? {
      FromSnoc(row.log + [after.log[|row.log|]], after.log[|row.log| + 1]);
    }
  }

  lemma SameVisitsMatch(t: Ticket, now: Ticket, visits: seq<Interaction>)
    requires VisitsMatch(t, visits) && now.startedAt == t.startedAt && now.status !in {InService, Completed}
    requires now.status == Waiting ==> now.counter.None?
    requires now.status in {Called, Hold} ==> now.counter.Some?
    requires now.status == Hold ==> t.status == InService && now.counter == t.counter
    ensures VisitsMatch(now, visits)
  {
  }

  lemma StartMatches(t: Ticket, visits: seq<Interaction>, now: Time)
    requires VisitsMatch(t, visits) && StampsOk(t, now) && t.status == Called
    ensures VisitsMatch(Stamped(t, InService, now), visits + [Interaction(t.counter, now, None)])
  {
  }

  lemma CompleteMatches(t: Ticket, visits: seq<Interaction>, now: Time)
    requires VisitsMatch(t, visits) && t.status == InService
    requires forall i :: 0 <= i < |visits| ==> visits[i].endedAt.None?
    ensures VisitsMatch(Stamped(t, Completed, now), Closed(visits, now))
  {
    var closed := Closed(visits, now);
    assert forall i :: 0 <= i < |visits| ==> closed[i] == visits[i].(endedAt := Some(now));
  }

  lemma EffectVisitsMatch(row: Row, a: Action, now: Time)
    requires StampsOk(row.ticket, now) && VisitsMatch(row.ticket, row.visits) && Permits(row.ticket.status, a)
    requires row.ticket.status !in {Created, Transferred}
    requires row.ticket.status != Completed ==> forall i :: 0 <= i < |row.visits| ==> row.visits[i].endedAt.None?
    ensures
      var after := Effect(row, row.ticket.status, a, now);
      VisitsMatch(after.ticket, after.visits)
  {
    var after := Effect(row, row.ticket.status, a, now);
    match a
    case Start => StartMatches(row.ticket, row.visits, now);
    case Complete => CompleteMatches(row.ticket, row.visits, now);
    case _ =>
      assert after.visits == row.visits;
      SameVisitsMatch(row.ticket, after.ticket, row.visits);
  }

  lemma EffectTimes(row: Row, a: Action, now: Time)
    requires row.log != [] && LogTimesOk(row.log, now) && StampsMatchLog(row.ticket, row.log)
    requires Permits(row.ticket.status, a) && row.ticket.status !in {Created, Transferred}
    ensures
      var after := Effect(row, row.ticket.status, a, now);
      LogTimesOk(after.log, now) && StampsMatchLog(after.ticket, after.log)
  {
    var after := Effect(row, row.ticket.status, a, now);
    assert after.log[0] == row.log[0];
    assert forall i :: |row.log| <= i < |after.log| ==> after.log[i].at == now;
    assert forall i :: 0 <= i < |row.log| ==> after.log[i] == row.log[i];
  }

  lemma EffectLogOk(row: Row, a: Action, now: Time)
    requires LogOk(row) && row.log != [] && Replay(row.log) == row.ticket.status && Permits(row.ticket.status, a)
    ensures LogOk(Effect(row, row.ticket.status, a, now))
  {
    EffectCounts(row, a, now);
    EffectFrom(row, a, now);
  }

  lemma EffectTimesOk(row: Row, a: Action, now: Time)
    requires TimesOk(row, now) && Permits(row.ticket.status, a) && row.ticket.status !in {Created, Transferred}
    requires row.ticket.status != Completed ==> forall i :: 0 <= i < |row.visits| ==> row.visits[i].endedAt.None?
    ensures TimesOk(Effect(row, row.ticket.status, a, now), now)
  {
    EffectStamps(row, a, now);
    EffectTimes(row, a, now);
    EffectVisitsMatch(row, a, now);
  }

  /** A request that runs alone and passes its own check keeps the row orderly. */
  lemma EffectOrderly(row: Row, a: Action, now: Time)
    requires Orderly(row, now) && Permits(row.ticket.status, a)
    ensures Orderly(Effect(row, row.ticket.status, a, now), now)
  {
    FreshReadPasses(row.ticket.status, a);
    EffectSound(row, row.ticket.status, a, now);
    EffectLogOk(row, a, now);
    EffectTimesOk(row, a, now);
  }

  lemma OrderlyLater(row: Row, now: Time, later: Time)
    requires Orderly(row, now) && now <= later
    ensures Orderly(row, later)
  {
  }
}
