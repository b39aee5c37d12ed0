/**
 The queries behind the signage board of one location, what they say of the tickets, and which changes
 of the table they show.
 */
module Boards {
  import opened Wrappers
  import opened Fsm
  import opened Tickets

  datatype BoardEntry = BoardEntry(
    id: nat, number: nat, status: Status, counter: Option<Id>, service: Option<Id>, calledAt: Option<Time>)

  datatype Board = Board(serving: seq<BoardEntry>, called: seq<BoardEntry>, waiting: nat)

  // ---------- the queries ----------

  function EntryOf(id: nat, t: Ticket): BoardEntry {
    BoardEntry(id, t.number, t.status, t.counter, t.service, t.calledAt)
  }

  function EntriesOf(rows: seq<Row>, location: Id, status: Status): seq<BoardEntry> {
    if rows == [] then []
    else
      var id := |rows| - 1;
      var t := rows[id].ticket;
      EntriesOf(rows[..id], location, status) +
      if t.location == location && t.status == status
      then [EntryOf(id, t)] else []
  }

  /** ORDER BY called_at DESC, in which nulls come first. */
  predicate NewerOrSame(a: BoardEntry, b: BoardEntry) {
    a.calledAt.None? || (b.calledAt.Some? && a.calledAt.value >= b.calledAt.value)
  }

  function Insert(e: BoardEntry, sorted: seq<BoardEntry>): seq<BoardEntry> {
    if sorted == [] || NewerOrSame(e, sorted[0]) then [e] + sorted
    else [sorted[0]] + Insert(e, sorted[1..])
  }

  function NewestFirst(entries: seq<BoardEntry>): seq<BoardEntry> {
    if entries == [] then [] else Insert(entries[0], NewestFirst(entries[1..]))
  }

  function Limit(entries: seq<BoardEntry>, n: nat): seq<BoardEntry> {
    if |entries| <= n then entries else entries[..n]
  }

  function ServingQuery(rows: seq<Row>, location: Id): seq<BoardEntry> {
    Limit(NewestFirst(EntriesOf(rows, location, InService)), 5)
  }

  function CalledQuery(rows: seq<Row>, location: Id): seq<BoardEntry> {
    Limit(NewestFirst(EntriesOf(rows, location, Called)), 10)
  }

  /** What the board of a location should show now. */
  function BoardOf(rows: seq<Row>, location: Id): Board {
    Board(ServingQuery(rows, location), CalledQuery(rows, location), WaitingCount(rows, location))
  }

  ghost predicate Descending(entries: seq<BoardEntry>) {
    forall i, j :: 0 <= i < j < |entries| ==> NewerOrSame(entries[i], entries[j])
  }

  lemma {:induction false} InsertSorts(e: BoardEntry, sorted: seq<BoardEntry>)
    requires Descending(sorted)
    ensures Descending(Insert(e, sorted)) && multiset(Insert(e, sorted)) == multiset(sorted) + multiset{e}
  {
    if sorted != [] && !NewerOrSame(e, sorted[0]) {
      InsertSorts(e, sorted[1..]);
      var rest := Insert(e, sorted[1..]);
      assert sorted == [sorted[0]] + sorted[1..];
      forall i | 0 <= i < |rest| ensures NewerOrSame(sorted[0], rest[i]) {
        assert rest[i] in multiset(rest);
        assert rest[i] == e || rest[i] in sorted[1..];
      }
    }
  }

  /** A list on the board is the matching tickets, latest call first. */
  lemma {:induction false} NewestFirstSorts(entries: seq<BoardEntry>)
    ensures Descending(NewestFirst(entries)) && multiset(NewestFirst(entries)) == multiset(entries)
  {
    if entries != [] {
      NewestFirstSorts(entries[1..]);
      InsertSorts(entries[0], NewestFirst(entries[1..]));
      assert entries == [entries[0]] + entries[1..];
    }
  }

  // ---------- removing entries from a board ----------

  /** The entries of other tickets. */
  function Without(entries: seq<BoardEntry>, ids: set<nat>): seq<BoardEntry> {
    if entries == [] then []
    else (if entries[0].id in ids then [] else [entries[0]]) + Without(entries[1..], ids)
  }

  function IdsOf(entries: seq<BoardEntry>): set<nat> {
    set e | e in entries :: e.id
  }

  lemma {:induction false} WithoutSnoc(entries: seq<BoardEntry>, e: BoardEntry, ids: set<nat>)
    ensures Without(entries + [e], ids) == Without(entries, ids) + if e.id in ids then [] else [e]
  {
    if entries == [] {
      assert entries + [e] == [e] && [e][1..] == [];
    } else {
      assert (entries + [e])[1..] == entries[1..] + [e];
      WithoutSnoc(entries[1..], e, ids);
    }
  }

  lemma {:induction false} WithoutKeeps(entries: seq<BoardEntry>, ids: set<nat>)
    ensures forall e :: e in Without(entries, ids) <==> e in entries && e.id !in ids
    ensures IdsOf(entries) !! ids ==> Without(entries, ids) == entries
  {
    if entries != [] {
      WithoutKeeps(entries[1..], ids);
      assert entries[0] in entries && IdsOf(entries[1..]) <= IdsOf(entries);
    }
  }

  lemma WithoutCons(e: BoardEntry, rest: seq<BoardEntry>, ids: set<nat>)
    ensures Without([e] + rest, ids) == if e.id in ids then Without(rest, ids) else [e] + Without(rest, ids)
  {
    assert ([e] + rest)[1..] == rest;
  }

  lemma InsertCons(e: BoardEntry, first: BoardEntry, rest: seq<BoardEntry>)
    ensures Insert(e, [first] + rest) ==
      if NewerOrSame(e, first) then [e] + ([first] + rest) else [first] + Insert(e, rest)
  {
    assert ([first] + rest)[1..] == rest;
  }

  lemma {:induction false} InsertWithout(e: BoardEntry, sorted: seq<BoardEntry>, ids: set<nat>)
    requires Descending(sorted)
    ensures Without(Insert(e, sorted), ids) ==
      if e.id in ids then Without(sorted, ids) else Insert(e, Without(sorted, ids))
  {
    if sorted == [] || NewerOrSame(e, sorted[0]) {
      WithoutCons(e, sorted, ids);
      var rest := Without(sorted, ids);
      WithoutKeeps(sorted, ids);
      if rest != [] {
        assert rest[0] in rest;
        assert NewerOrSame(e, rest[0]);
      }
    } else {
      var first, tail := sorted[0], sorted[1..];
      assert sorted == [first] + tail;
      InsertWithout(e, tail, ids);
      WithoutCons(first, tail, ids);
      WithoutCons(first, Insert(e, tail), ids);
      InsertCons(e, first, Without(tail, ids));
    }
  }

  /** Sorting and removing commute. */
  lemma {:induction false} NewestFirstWithout(entries: seq<BoardEntry>, ids: set<nat>)
    ensures NewestFirst(Without(entries, ids)) == Without(NewestFirst(entries), ids)
  {
    if entries != [] {
      var first, tail := entries[0], entries[1..];
      assert entries == [first] + tail;
      NewestFirstWithout(tail, ids);
      NewestFirstSorts(tail);
      InsertWithout(first, NewestFirst(tail), ids);
      WithoutCons(first, tail, ids);
      assert ([first] + Without(tail, ids))[1..] == Without(tail, ids);
    }
  }

  lemma {:induction false} WithoutConcat(a: seq<BoardEntry>, b: seq<BoardEntry>, ids: set<nat>)
    ensures Without(a + b, ids) == Without(a, ids) + Without(b, ids)
  {
    if a == [] {
      assert a + b == b;
    } else {
      assert (a + b)[1..] == a[1..] + b;
      WithoutConcat(a[1..], b, ids);
    }
  }

  /** A limited list survives a removal exactly when no listed entry is removed. */
  lemma LimitWithout(entries: seq<BoardEntry>, ids: set<nat>, n: nat)
    ensures Limit(Without(entries, ids), n) == Limit(entries, n) <==> IdsOf(Limit(entries, n)) !! ids
  {
    var listed := Limit(entries, n);
    WithoutKeeps(entries, ids);
    WithoutKeeps(listed, ids);
    if IdsOf(listed) !! ids {
      if |entries| > n {
        assert entries == entries[..n] + entries[n..];
        WithoutConcat(entries[..n], entries[n..], ids);
      }
    } else {
      var id :| id in IdsOf(listed) && id in ids;
      var e :| e in listed && e.id == id;
      assert e !in Limit(Without(entries, ids), n);
    }
  }

  // ---------- what a row contributes to a board ----------

  datatype View = Absent | Queued | Listed(entry: BoardEntry)

  /** A row's contribution to the board of a location, before the lists are limited. */
  function ViewOf(rows: seq<Row>, location: Id, id: nat): View {
    if id >= |rows| || rows[id].ticket.location != location then Absent
    else
      var t := rows[id].ticket;
      if t.status == Waiting then Queued
      else if t.status in {Called, InService} then Listed(EntryOf(id, t))
      else Absent
  }

  /** It counts in, or is listed on, the board. */
  ghost predicate Shown(rows: seq<Row>, location: Id, id: nat) {
    || ViewOf(rows, location, id) == Queued
    || id in IdsOf(ServingQuery(rows, location))
    || id in IdsOf(CalledQuery(rows, location))
  }

  lemma ViewOfPrefix(rows: seq<Row>, location: Id, n: nat, id: nat)
    requires n <= |rows|
    ensures ViewOf(rows[..n], location, id) == if id < n then ViewOf(rows, location, id) else Absent
  {
  }

  lemma {:induction false} EntryIsView(rows: seq<Row>, location: Id, status: Status, e: BoardEntry)
    requires status in {Called, InService}
    ensures e in EntriesOf(rows, location, status) <==>
      e.status == status && ViewOf(rows, location, e.id) == Listed(e)
  {
    if rows != [] {
      var id := |rows| - 1;
      EntryIsView(rows[..id], location, status, e);
      ViewOfPrefix(rows, location, id, e.id);
    }
  }

  lemma LimitedAreEntries(entries: seq<BoardEntry>, n: nat, e: BoardEntry)
    requires e in Limit(NewestFirst(entries), n)
    ensures e in entries
  {
    NewestFirstSorts(entries);
    assert e in multiset(NewestFirst(entries));
  }

  /** What a list on the board says of a ticket is its view. */
  lemma ListedIsView(rows: seq<Row>, location: Id, e: BoardEntry)
    requires e in ServingQuery(rows, location) || e in CalledQuery(rows, location)
    ensures ViewOf(rows, location, e.id) == Listed(e)
  {
    if e in ServingQuery(rows, location) {
      LimitedAreEntries(EntriesOf(rows, location, InService), 5, e);
      EntryIsView(rows, location, InService, e);
    } else {
      LimitedAreEntries(EntriesOf(rows, location, Called), 10, e);
      EntryIsView(rows, location, Called, e);
    }
  }

  lemma ShownHasView(rows: seq<Row>, location: Id, id: nat)
    requires Shown(rows, location, id)
    ensures ViewOf(rows, location, id) != Absent
  {
    if id in IdsOf(ServingQuery(rows, location)) {
      var e :| e in ServingQuery(rows, location) && e.id == id;
      ListedIsView(rows, location, e);
    } else if id in IdsOf(CalledQuery(rows, location)) {
      var e :| e in CalledQuery(rows, location) && e.id == id;
      ListedIsView(rows, location, e);
    }
  }

  ghost function QueuedIds(rows: seq<Row>, location: Id): set<nat> {
    set id: nat | id < |rows| && ViewOf(rows, location, id) == Queued
  }

  lemma QueuedSnoc(rows: seq<Row>, location: Id)
    requires rows != []
    ensures
      var id := |rows| - 1;
      var rest := QueuedIds(rows[..id], location);
      id !in rest
      && QueuedIds(rows, location) == if ViewOf(rows, location, id) == Queued then rest + {id} else rest
  {
    var id := |rows| - 1;
    forall j: nat | j < id ensures j in QueuedIds(rows[..id], location) <==> j in QueuedIds(rows, location) {
      ViewOfPrefix(rows, location, id, j);
    }
  }

  lemma {:induction false} CountIsQueued(rows: seq<Row>, location: Id)
    ensures WaitingCount(rows, location) == |QueuedIds(rows, location)|
  {
    if rows != [] {
      QueuedSnoc(rows, location);
      CountIsQueued(rows[..|rows| - 1], location);
    }
  }

  // ---------- what a board says ----------

  /** The entry shows its ticket: the columns are the ticket's own. */
  ghost predicate Describes(rows: seq<Row>, location: Id, status: Status, e: BoardEntry) {
    && e.id < |rows|
    && var t := rows[e.id].ticket;
       && t.location == location && t.status == status && e.status == status
       && e.number == t.number && e.counter == t.counter && e.service == t.service && e.calledAt == t.calledAt
  }

  /** Called later, or as late, or without a stamp: NULLs come first in descending order. */
  predicate CalledNoEarlier(a: Option<Time>, b: Option<Time>) {
    a.None? || (b.Some? && a.value >= b.value)
  }

  ghost predicate NotOn(list: seq<BoardEntry>, id: nat) {
    forall i :: 0 <= i < |list| ==> list[i].id != id
  }

  /** The list is a SELECT of the location's tickets in the status, latest call first, with a limit. */
  ghost predicate IsSelection(rows: seq<Row>, location: Id, status: Status, limit: nat, list: seq<BoardEntry>) {
    && |list| <= limit
    && (forall i :: 0 <= i < |list| ==> Describes(rows, location, status, list[i]))
    && (forall i, j :: 0 <= i < j < |list| ==>
          list[i].id != list[j].id && CalledNoEarlier(list[i].calledAt, list[j].calledAt))
    && forall id: nat ::
         (&& id < |rows| && rows[id].ticket.location == location && rows[id].ticket.status == status
          && NotOn(list, id)) ==>
         |list| == limit && forall i :: 0 <= i < |list| ==> CalledNoEarlier(list[i].calledAt, rows[id].ticket.calledAt)
  }

  lemma {:induction false} EntriesOnce(rows: seq<Row>, location: Id, status: Status, e: BoardEntry)
    ensures multiset(EntriesOf(rows, location, status))[e] <= 1
    ensures e in EntriesOf(rows, location, status) ==> e.id < |rows|
  {
    if rows != [] {
      EntriesOnce(rows[..|rows| - 1], location, status, e);
    }
  }

  lemma OnceMeansDistinct(list: seq<BoardEntry>, i: nat, j: nat)
    requires i < j < |list| && list[i] == list[j]
    ensures multiset(list)[list[i]] >= 2
  {
    assert list == list[..j] + list[j..];
    assert list[i] in list[..j] && list[j] in list[j..];
    assert list[i] in multiset(list[..j]) && list[j] in multiset(list[j..]);
  }

  lemma SortedAt(rows: seq<Row>, location: Id, status: Status, i: nat)
    requires status in {Called, InService} && i < |NewestFirst(EntriesOf(rows, location, status))|
    ensures Describes(rows, location, status, NewestFirst(EntriesOf(rows, location, status))[i])
    ensures forall j :: i < j < |NewestFirst(EntriesOf(rows, location, status))| ==>
      var sorted := NewestFirst(EntriesOf(rows, location, status));
      sorted[i].id != sorted[j].id && CalledNoEarlier(sorted[i].calledAt, sorted[j].calledAt)
  {
    var entries := EntriesOf(rows, location, status);
    var sorted := NewestFirst(entries);
    NewestFirstSorts(entries);
    LimitedAreEntries(entries, |sorted|, sorted[i]);
    EntryIsView(rows, location, status, sorted[i]);
    forall j | i < j < |sorted|
      ensures sorted[i].id != sorted[j].id && CalledNoEarlier(sorted[i].calledAt, sorted[j].calledAt)
    {
      assert NewerOrSame(sorted[i], sorted[j]);
      LimitedAreEntries(entries, |sorted|, sorted[j]);
      EntryIsView(rows, location, status, sorted[j]);
      if sorted[i].id == sorted[j].id {
        OnceMeansDistinct(sorted, i, j);
        EntriesOnce(rows, location, status, sorted[i]);
      }
    }
  }

  lemma LimitKeeps(entries: seq<BoardEntry>, n: nat, k: nat)
    requires k < |entries|
    ensures k < n ==> k < |Limit(entries, n)| && Limit(entries, n)[k] == entries[k]
  {
  }

  lemma Unlisted(rows: seq<Row>, location: Id, status: Status, limit: nat, id: nat)
    requires status in {Called, InService} && id < |rows|
    requires rows[id].ticket.location == location && rows[id].ticket.status == status
    requires NotOn(Limit(NewestFirst(EntriesOf(rows, location, status)), limit), id)
    ensures
      var list := Limit(NewestFirst(EntriesOf(rows, location, status)), limit);
      |list| == limit && forall i :: 0 <= i < |list| ==> CalledNoEarlier(list[i].calledAt, rows[id].ticket.calledAt)
  {
    var entries := EntriesOf(rows, location, status);
    var sorted, e := NewestFirst(entries), EntryOf(id, rows[id].ticket);
    EntryIsView(rows, location, status, e);
    NewestFirstSorts(entries);
    assert e in multiset(sorted);
    var k :| 0 <= k < |sorted| && sorted[k] == e;
    LimitKeeps(sorted, limit, k);
    forall i | 0 <= i < limit ensures CalledNoEarlier(sorted[i].calledAt, e.calledAt) {
      SortedAt(rows, location, status, i);
    }
  }

  lemma SelectionIs(rows: seq<Row>, location: Id, status: Status, limit: nat)
    requires status in {Called, InService}
    ensures IsSelection(rows, location, status, limit, Limit(NewestFirst(EntriesOf(rows, location, status)), limit))
  {
    var sorted := NewestFirst(EntriesOf(rows, location, status));
    var list := Limit(sorted, limit);
    forall i | 0 <= i < |list|
      ensures Describes(rows, location, status, list[i])
      ensures forall j :: i < j < |list| ==>
        list[i].id != list[j].id && CalledNoEarlier(list[i].calledAt, list[j].calledAt)
    {
      SortedAt(rows, location, status, i);
    }
    forall id: nat | id < |rows| && rows[id].ticket.location == location && rows[id].ticket.status == status
        && NotOn(list, id)
      ensures |list| == limit
      ensures forall i :: 0 <= i < |list| ==> CalledNoEarlier(list[i].calledAt, rows[id].ticket.calledAt)
    {
      Unlisted(rows, location, status, limit, id);
    }
  }

  lemma WaitingIs(rows: seq<Row>, location: Id)
    ensures WaitingCount(rows, location) ==
      |set id: nat | id < |rows| && rows[id].ticket.location == location && rows[id].ticket.status == Waiting|
  {
    CountIsQueued(rows, location);
    assert QueuedIds(rows, location) ==
      set id: nat | id < |rows| && rows[id].ticket.location == location && rows[id].ticket.status == Waiting;
  }

  /** The board: the five latest in service, the ten latest called, and the number waiting. */
  lemma BoardSays(rows: seq<Row>, location: Id)
    ensures IsSelection(rows, location, InService, 5, BoardOf(rows, location).serving)
    ensures IsSelection(rows, location, Called, 10, BoardOf(rows, location).called)
    ensures BoardOf(rows, location).waiting ==
      |set id: nat | id < |rows| && rows[id].ticket.location == location && rows[id].ticket.status == Waiting|
  {
    SelectionIs(rows, location, InService, 5);
    SelectionIs(rows, location, Called, 10);
    WaitingIs(rows, location);
  }

  // ---------- rows that leave a board ----------

  /** The tickets `gone` contribute nothing afterwards, and every other ticket what it did. */
  ghost predicate Removes(rows: seq<Row>, after: seq<Row>, location: Id, gone: set<nat>) {
    && |rows| <= |after|
    && forall id: nat :: id < |after| ==>
         ViewOf(after, location, id) == if id in gone then Absent else ViewOf(rows, location, id)
  }

  lemma RemovesPrefix(rows: seq<Row>, after: seq<Row>, location: Id, gone: set<nat>)
    requires Removes(rows, after, location, gone) && after != []
    ensures
      var n := |after| - 1;
      Removes(Upto(rows, n), after[..n], location, gone)
  {
    var n := |after| - 1;
    forall id: nat | id < n
      ensures ViewOf(after[..n], location, id) == if id in gone then Absent else ViewOf(Upto(rows, n), location, id)
    {
      ViewOfPrefix(after, location, n, id);
      ViewOfPrefix(rows, location, |Upto(rows, n)|, id);
    }
  }

  /** The first `n` rows, or all if they are fewer. */
  function Upto(rows: seq<Row>, n: nat): seq<Row> {
    if |rows| <= n then rows else rows[..n]
  }

  function EntriesIn(view: View, status: Status): seq<BoardEntry> {
    if view.Listed? && view.entry.status == status then [view.entry] else []
  }

  lemma EntriesSnoc(rows: seq<Row>, location: Id, status: Status, n: nat)
    requires status in {Called, InService}
    requires |rows| <= n + 1
    ensures EntriesOf(rows, location, status) ==
      EntriesOf(Upto(rows, n), location, status) + EntriesIn(ViewOf(rows, location, n), status)
  {
  }

  lemma WithoutOne(entries: seq<BoardEntry>, id: nat, view: View, status: Status, ids: set<nat>)
    requires view.Listed? ==> view.entry.id == id
    ensures Without(entries + EntriesIn(view, status), ids) ==
      Without(entries, ids) + EntriesIn(if id in ids then Absent else view, status)
  {
    if EntriesIn(view, status) != [] {
      WithoutSnoc(entries, view.entry, ids);
    } else {
      assert entries + [] == entries;
    }
  }

  lemma {:induction false} RemovesEntries(
    rows: seq<Row>, after: seq<Row>, location: Id, gone: set<nat>, status: Status)
    requires Removes(rows, after, location, gone) && status in {Called, InService}
    decreases |after|
    ensures EntriesOf(after, location, status) == Without(EntriesOf(rows, location, status), gone)
  {
    if after != [] {
      var id := |after| - 1;
      RemovesPrefix(rows, after, location, gone);
      RemovesEntries(Upto(rows, id), after[..id], location, gone, status);
      EntriesSnoc(after, location, status, id);
      EntriesSnoc(rows, location, status, id);
      WithoutOne(EntriesOf(Upto(rows, id), location, status), id, ViewOf(rows, location, id), status, gone);
    }
  }

  lemma RemovesCount(rows: seq<Row>, after: seq<Row>, location: Id, gone: set<nat>)
    requires Removes(rows, after, location, gone)
    ensures WaitingCount(after, location) == WaitingCount(rows, location) <==>
      forall id :: id in gone ==> ViewOf(rows, location, id) != Queued
  {
    CountIsQueued(rows, location);
    CountIsQueued(after, location);
    var before, now := QueuedIds(rows, location), QueuedIds(after, location);
    assert now == before - gone;
    if before !! gone {
      assert now == before;
    } else {
      var id :| id in before && id in gone;
      assert |before - gone| < |before| by { SmallerWithout(before, gone, id); }
    }
  }

  lemma SmallerWithout(a: set<nat>, b: set<nat>, x: nat)
    requires x in a && x in b
    ensures |a - b| < |a|
  {
    assert |a| == |a - b| + |a * b|;
    assert x in a * b;
  }

  /** The board is as before exactly when nothing that left was shown. */
  lemma BoardKeptIff(rows: seq<Row>, after: seq<Row>, location: Id, gone: set<nat>)
    requires Removes(rows, after, location, gone)
    ensures BoardOf(after, location) == BoardOf(rows, location) <==>
      forall id :: id in gone ==> !Shown(rows, location, id)
  {
    RemovesCount(rows, after, location, gone);
    var serving, called := EntriesOf(rows, location, InService), EntriesOf(rows, location, Called);
    RemovesEntries(rows, after, location, gone, InService);
    RemovesEntries(rows, after, location, gone, Called);
    NewestFirstWithout(serving, gone);
    NewestFirstWithout(called, gone);
    LimitWithout(NewestFirst(serving), gone, 5);
    LimitWithout(NewestFirst(called), gone, 10);
  }

  // ---------- one row that changes on a board ----------

  /** The ticket's contribution changes, and was or comes to be shown. */
  ghost predicate ShownChange(rows: seq<Row>, after: seq<Row>, location: Id, id: nat) {
    && ViewOf(rows, location, id) != ViewOf(after, location, id)
    && (Shown(rows, location, id) || Shown(after, location, id))
  }

  ghost predicate SameButOne(rows: seq<Row>, after: seq<Row>, location: Id, id: nat) {
    forall j: nat :: j != id ==> ViewOf(after, location, j) == ViewOf(rows, location, j)
  }

  /** The same table with one row off every board. */
  function Hidden(rows: seq<Row>, id: nat): seq<Row> {
    if id < |rows| then rows[id := rows[id].(ticket := rows[id].ticket.(status := Completed))] else rows
  }

  lemma HiddenRemoves(rows: seq<Row>, location: Id, id: nat)
    ensures Removes(rows, Hidden(rows, id), location, {id})
  {
  }

  lemma UnshownChangeKeepsBoard(rows: seq<Row>, after: seq<Row>, location: Id, id: nat)
    requires |rows| <= |after| && SameButOne(rows, after, location, id)
    requires !Shown(rows, location, id) && !Shown(after, location, id)
    ensures BoardOf(after, location) == BoardOf(rows, location)
  {
    HiddenRemoves(rows, location, id);
    HiddenRemoves(after, location, id);
    BoardKeptIff(rows, Hidden(rows, id), location, {id});
    BoardKeptIff(after, Hidden(after, id), location, {id});
    forall j: nat ensures ViewOf(Hidden(after, id), location, j) == ViewOf(Hidden(rows, id), location, j) {
      assert ViewOf(after, location, j) == ViewOf(rows, location, j) || j == id;
    }
    assert Removes(Hidden(rows, id), Hidden(after, id), location, {});
    BoardKeptIff(Hidden(rows, id), Hidden(after, id), location, {});
  }

  lemma ShownOnOneBoardOnly(rows: seq<Row>, after: seq<Row>, location: Id, id: nat)
    requires SameButOne(rows, after, location, id) && Shown(rows, location, id)
    requires ViewOf(rows, location, id) != ViewOf(after, location, id)
    ensures BoardOf(after, location) != BoardOf(rows, location)
  {
    if ViewOf(rows, location, id) == Queued {
      CountIsQueued(rows, location);
      CountIsQueued(after, location);
      assert QueuedIds(rows, location) == QueuedIds(after, location) + {id};
      assert id !in QueuedIds(after, location);
    } else if BoardOf(after, location) == BoardOf(rows, location) {
      ShownEntry(rows, location, id);
      var e := ViewOf(rows, location, id).entry;
      ListedIsView(after, location, e);
    }
  }

  lemma ShownEntry(rows: seq<Row>, location: Id, id: nat)
    requires Shown(rows, location, id) && ViewOf(rows, location, id) != Queued
    ensures ViewOf(rows, location, id).Listed?
    ensures
      var e := ViewOf(rows, location, id).entry;
      e.id == id && (e in ServingQuery(rows, location) || e in CalledQuery(rows, location))
  {
    var e :| (e in ServingQuery(rows, location) || e in CalledQuery(rows, location)) && e.id == id;
    ListedIsView(rows, location, e);
  }

  /** When one ticket at most changes, the board does exactly if that change shows. */
  lemma OneChangeShows(rows: seq<Row>, after: seq<Row>, location: Id, id: nat)
    requires |rows| <= |after| && SameButOne(rows, after, location, id)
    ensures BoardOf(after, location) == BoardOf(rows, location) <==> !ShownChange(rows, after, location, id)
  {
    if ViewOf(rows, location, id) == ViewOf(after, location, id) {
      assert Removes(rows, after, location, {});
      BoardKeptIff(rows, after, location, {});
    } else if Shown(rows, location, id) {
      ShownOnOneBoardOnly(rows, after, location, id);
    } else if Shown(after, location, id) {
      ShownOnOneBoardOnly(after, rows, location, id);
    } else {
      UnshownChangeKeepsBoard(rows, after, location, id);
    }
  }
}
