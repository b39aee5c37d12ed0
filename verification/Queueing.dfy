/** Which ticket call-next takes, and what repeating it does to a whole queue. */
module Queueing {
  import opened Wrappers
  import opened Fsm
  import opened Tickets

  /** WHERE clause of call-next. */
  predicate Matches(row: Row, location: Id, service: Option<Id>) {
    && row.ticket.location == location
    && row.ticket.status == Waiting
    && (service.None? || row.ticket.service == service)
  }

  /** ORDER BY priority, created_at may put `a` before `b`; ties allow both orders. */
  predicate Before(a: Ticket, b: Ticket) {
    a.priority < b.priority || (a.priority == b.priority && a.createdAt <= b.createdAt)
  }

  /** `i` may be returned: a least matching ticket among those no other transaction has locked. */
  ghost predicate IsNext(rows: seq<Row>, locked: set<nat>, location: Id, service: Option<Id>, i: nat) {
    && i < |rows| && i !in locked && Matches(rows[i], location, service)
    && forall j: nat :: j < |rows| && j !in locked && Matches(rows[j], location, service) ==>
         Before(rows[i].ticket, rows[j].ticket)
  }

  ghost predicate Picks(rows: seq<Row>, locked: set<nat>, location: Id, service: Option<Id>, pick: Option<nat>) {
    match pick
    case Some(i) => IsNext(rows, locked, location, service, i)
    case None => forall j: nat :: j < |rows| && Matches(rows[j], location, service) ==> j in locked
  }

  /** The select of call-next, scanning the table and skipping locked rows. */
  method SelectNext(rows: seq<Row>, locked: set<nat>, location: Id, service: Option<Id>) returns (pick: Option<nat>)
    ensures Picks(rows, locked, location, service, pick)
    ensures pick.Some? ==>
      && pick.value < |rows| && pick.value !in locked
      && var t := rows[pick.value].ticket;
         t.location == location && t.status == Waiting && (service.Some? ==> t.service == service)
    ensures forall j: nat :: j < |rows| && j !in locked ==>
      var t := rows[j].ticket;
      t.location == location && t.status == Waiting && (service.Some? ==> t.service == service) ==>
        && pick.Some?
        && var first := rows[pick.value].ticket;
           first.priority < t.priority || (first.priority == t.priority && first.createdAt <= t.createdAt)
  {
    pick := None;
    for i := 0 to |rows|
      invariant pick.Some? ==> pick.value < i && pick.value !in locked && Matches(rows[pick.value], location, service)
      invariant forall j: nat :: j < i && j !in locked && Matches(rows[j], location, service) ==>
        pick.Some? && Before(rows[pick.value].ticket, rows[j].ticket)
    {
      if i !in locked && Matches(rows[i], location, service) {
        if pick.None? || !Before(rows[pick.value].ticket, rows[i].ticket) {
          pick := Some(i);
        }
      }
    }
    assert forall j: nat :: j < |rows| && j !in locked && Matches(rows[j], location, service) ==> pick.Some?;
  }

  // ---------- draining a queue ----------

  datatype Call = Call(id: nat, counter: Id, at: Time)

  function Claimed(rows: seq<Row>, i: nat, counter: Id, at: Time): seq<Row>
    requires i < |rows|
  {
    rows[i := Effect(rows[i], Waiting, Claim(counter), at)]
  }

  ghost predicate CallRun(rows: seq<Row>, location: Id, service: Option<Id>, calls: seq<Call>)
    decreases |calls|
  {
    calls == [] ||
    (&& IsNext(rows, {}, location, service, calls[0].id)
     && CallRun(Claimed(rows, calls[0].id, calls[0].counter, calls[0].at), location, service, calls[1..]))
  }

  ghost function AfterCalls(rows: seq<Row>, location: Id, service: Option<Id>, calls: seq<Call>): seq<Row>
    requires CallRun(rows, location, service, calls)
    decreases |calls|
  {
    if calls == [] then rows
    else AfterCalls(Claimed(rows, calls[0].id, calls[0].counter, calls[0].at), location, service, calls[1..])
  }

  ghost function MatchingIds(rows: seq<Row>, location: Id, service: Option<Id>): set<nat> {
    set i: nat | i < |rows| && Matches(rows[i], location, service)
  }

  ghost predicate NoRepeats(ids: seq<nat>) {
    forall i, j :: 0 <= i < j < |ids| ==> ids[i] != ids[j]
  }

  ghost predicate Sorted(rows: seq<Row>, ids: seq<nat>) {
    && (forall i :: 0 <= i < |ids| ==> ids[i] < |rows|)
    && forall i, j :: 0 <= i < j < |ids| ==> Before(rows[ids[i]].ticket, rows[ids[j]].ticket)
  }

  ghost function Elements(ids: seq<nat>): set<nat> {
    set id | id in ids
  }

  function CalledIds(calls: seq<Call>): (ids: seq<nat>)
    ensures |ids| == |calls|
    ensures forall i :: 0 <= i < |ids| ==> ids[i] == calls[i].id
  {
    seq(|calls|, i requires 0 <= i < |calls| => calls[i].id)
  }

  lemma ClaimRemovesOne(rows: seq<Row>, location: Id, service: Option<Id>, i: nat, counter: Id, at: Time)
    requires IsNext(rows, {}, location, service, i)
    ensures MatchingIds(Claimed(rows, i, counter, at), location, service) == MatchingIds(rows, location, service) - {i}
    ensures |MatchingIds(rows, location, service)| ==
      |MatchingIds(Claimed(rows, i, counter, at), location, service)| + 1
  {
    assert i in MatchingIds(rows, location, service);
  }

  /** Exactly the tickets `ids`, all different, left the queue, and no other row changed. */
  ghost predicate Leaves(rows: seq<Row>, after: seq<Row>, location: Id, service: Option<Id>, ids: seq<nat>) {
    && |after| == |rows|
    && (forall id: nat :: id in MatchingIds(after, location, service) <==>
          id in MatchingIds(rows, location, service) && id !in ids)
    && (forall id: nat :: id < |rows| && id !in ids ==> after[id] == rows[id])
    && |MatchingIds(rows, location, service)| == |ids| + |MatchingIds(after, location, service)|
  }

  lemma LeavesCons(rows: seq<Row>, next: seq<Row>, after: seq<Row>, location: Id, service: Option<Id>,
                   id: nat, ids: seq<nat>)
    requires Leaves(rows, next, location, service, [id]) && Leaves(next, after, location, service, ids)
    ensures Leaves(rows, after, location, service, [id] + ids)
  {
    forall j: nat ensures j in [id] + ids <==> j == id || j in ids {
    }
  }

  lemma ClaimLeaves(rows: seq<Row>, location: Id, service: Option<Id>, i: nat, counter: Id, at: Time)
    requires IsNext(rows, {}, location, service, i)
    ensures Leaves(rows, Claimed(rows, i, counter, at), location, service, [i])
  {
    ClaimRemovesOne(rows, location, service, i, counter, at);
  }

  /**
   A run of successful calls takes exactly the called tickets out of the queue, one per call,
   and touches no other row; so it is no longer than the queue.
   */
  lemma {:induction false} CallRunRemoves(rows: seq<Row>, location: Id, service: Option<Id>, calls: seq<Call>)
    requires CallRun(rows, location, service, calls)
    decreases |calls|
    ensures Leaves(rows, AfterCalls(rows, location, service, calls), location, service, CalledIds(calls))
  {
    if calls != [] {
      var c := calls[0];
      var next := Claimed(rows, c.id, c.counter, c.at);
      ClaimLeaves(rows, location, service, c.id, c.counter, c.at);
      CallRunRemoves(next, location, service, calls[1..]);
      var after := AfterCalls(rows, location, service, calls);
      LeavesCons(rows, next, after, location, service, c.id, CalledIds(calls[1..]));
      assert CalledIds(calls) == [c.id] + CalledIds(calls[1..]);
    }
  }

  /** It takes them in queue order and none twice. */
  lemma {:induction false} CallRunInOrder(rows: seq<Row>, location: Id, service: Option<Id>, calls: seq<Call>)
    requires CallRun(rows, location, service, calls)
    decreases |calls|
    ensures forall i :: 0 <= i < |calls| ==> CalledIds(calls)[i] in MatchingIds(rows, location, service)
    ensures NoRepeats(CalledIds(calls)) && Sorted(rows, CalledIds(calls))
  {
    if calls != [] {
      var c := calls[0];
      var next := Claimed(rows, c.id, c.counter, c.at);
      ClaimRemovesOne(rows, location, service, c.id, c.counter, c.at);
      CallRunInOrder(next, location, service, calls[1..]);
      var ids, rest := CalledIds(calls), CalledIds(calls[1..]);
      forall i | 1 <= i < |ids| ensures ids[i] == rest[i - 1] && ids[i] in MatchingIds(next, location, service) {
      }
      forall i, j | 0 <= i < j < |ids| ensures Before(rows[ids[i]].ticket, rows[ids[j]].ticket) {
        if i > 0 {
          assert Before(next[rest[i - 1]].ticket, next[rest[j - 1]].ticket);
        }
      }
    }
  }

  /** The run ends because call-next returned null. */
  ghost predicate Drains(rows: seq<Row>, location: Id, service: Option<Id>, calls: seq<Call>) {
    && CallRun(rows, location, service, calls)
    && Picks(AfterCalls(rows, location, service, calls), {}, location, service, None)
  }

  /** Calling until null ends, whatever the table: each call leaves one ticket less. */
  method Drain(rows: seq<Row>, location: Id, service: Option<Id>, counter: Id, at: Time) returns (calls: seq<Call>)
    ensures Drains(rows, location, service, calls)
    decreases |MatchingIds(rows, location, service)|
  {
    var pick := SelectNext(rows, {}, location, service);
    if pick.None? {
      calls := [];
    } else {
      ClaimRemovesOne(rows, location, service, pick.value, counter, at);
      var rest := Drain(Claimed(rows, pick.value, counter, at), location, service, counter, at);
      calls := [Call(pick.value, counter, at)] + rest;
    }
  }

  /** Draining is sorting: a duplicate-free enumeration of the matching tickets, in order. */
  lemma DrainingSorts(rows: seq<Row>, location: Id, service: Option<Id>, calls: seq<Call>)
    requires Drains(rows, location, service, calls)
    ensures NoRepeats(CalledIds(calls)) && Sorted(rows, CalledIds(calls))
    ensures Elements(CalledIds(calls)) == MatchingIds(rows, location, service)
    ensures |calls| == |MatchingIds(rows, location, service)|
    ensures |AfterCalls(rows, location, service, calls)| == |rows|
    ensures forall i: nat :: i < |rows| && !Matches(rows[i], location, service) ==>
      AfterCalls(rows, location, service, calls)[i] == rows[i]
  {
    CallRunRemoves(rows, location, service, calls);
    CallRunInOrder(rows, location, service, calls);
    var after := AfterCalls(rows, location, service, calls);
    assert MatchingIds(after, location, service) == {};
    forall id | id in MatchingIds(rows, location, service) ensures id in CalledIds(calls) {
      assert id !in MatchingIds(after, location, service);
    }
  }

  /** No two of the tickets tie on (priority, created_at). */
  ghost predicate KeysDistinct(rows: seq<Row>, ids: set<nat>) {
    && (forall i :: i in ids ==> i < |rows|)
    && forall i, j :: i in ids && j in ids && i != j ==>
         !(Before(rows[i].ticket, rows[j].ticket) && Before(rows[j].ticket, rows[i].ticket))
  }

  lemma SortedTail(rows: seq<Row>, a: seq<nat>)
    requires a != [] && NoRepeats(a) && Sorted(rows, a)
    ensures NoRepeats(a[1..]) && Sorted(rows, a[1..])
    ensures Elements(a[1..]) == Elements(a) - {a[0]} && a[0] in Elements(a)
  {
  }

  lemma HeadsAgree(rows: seq<Row>, ids: set<nat>, a: seq<nat>, b: seq<nat>)
    requires a != [] && b != [] && Sorted(rows, a) && Sorted(rows, b) && KeysDistinct(rows, ids)
    requires Elements(a) == Elements(b) <= ids
    ensures a[0] == b[0]
  {
    assert a[0] in Elements(b) && b[0] in Elements(a);
    var k :| 0 <= k < |b| && b[k] == a[0];
    var m :| 0 <= m < |a| && a[m] == b[0];
  }

  lemma SameElements(a: seq<nat>, b: seq<nat>)
    requires Elements(a) == Elements(b)
    ensures a == [] <==> b == []
  {
    assert a != [] ==> a[0] in Elements(a);
    assert b != [] ==> b[0] in Elements(b);
  }

  lemma {:induction false} SortedListUnique(rows: seq<Row>, ids: set<nat>, a: seq<nat>, b: seq<nat>)
    requires NoRepeats(a) && NoRepeats(b) && Sorted(rows, a) && Sorted(rows, b)
    requires KeysDistinct(rows, ids) && Elements(a) == Elements(b) <= ids
    ensures a == b
  {
    SameElements(a, b);
    if a != [] {
      HeadsAgree(rows, ids, a, b);
      SortedTail(rows, a);
      SortedTail(rows, b);
      SortedListUnique(rows, ids, a[1..], b[1..]);
      assert a == [a[0]] + a[1..];
    }
  }

  /** Without ties there is one sorted list of the matching tickets, and draining returns it. */
  lemma DrainIsTheSortedList(rows: seq<Row>, location: Id, service: Option<Id>, calls: seq<Call>, sorted: seq<nat>)
    requires Drains(rows, location, service, calls)
    requires NoRepeats(sorted) && Sorted(rows, sorted)
    requires KeysDistinct(rows, MatchingIds(rows, location, service))
    requires Elements(sorted) == MatchingIds(rows, location, service)
    ensures CalledIds(calls) == sorted
  {
    DrainingSorts(rows, location, service, calls);
    SortedListUnique(rows, MatchingIds(rows, location, service), sorted, CalledIds(calls));
  }
}
