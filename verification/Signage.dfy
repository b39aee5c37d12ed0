/**
 The signage board of one location: writers commit and then publish, the stream subscribes and then
 takes a snapshot, and takes a new one for each message. The snapshot's queries run at different
 moments, with any transaction steps in between.
 */
module Signage {
  import opened Wrappers
  import opened Fsm
  import opened Tickets
  import opened Boards
  import opened Interleaving
  import Serial
  import Idempotency

  // ---------- the protocol ----------

  /** A snapshot under construction has the answers of the queries run so far. */
  datatype Stream =
    | Off
    | Building(serving: Option<seq<BoardEntry>>, called: Option<seq<BoardEntry>>, waiting: Option<nat>)
    | Showing(board: Board)

  datatype RecordKey = RecordKey(tenant: Id, key: string)

  /**
   `keys`: idempotency records stored. `due`: requests that have committed and will publish to this
   location once their record, if they bear a key, is saved. `owed`: publications under way; `inbox`:
   messages unread.
   */
  datatype World = World(
    sys: Sys, keys: set<RecordKey>, due: seq<Option<RecordKey>>, owed: nat, inbox: nat, stream: Stream)

  datatype Act =
    | Db(step: Step)                                // anything but a commit
    | Commits(x: nat, header: Option<RecordKey>)    // the commit of a request, with the key it bears
    | Save(i: nat)                                  // its second commit; if that raises, nothing is published
    | StoreKey(k: RecordKey) | DropKey(k: RecordKey) // other requests' records, and cleanup
    | Publish | LosePublish
    | Subscribe | QueryServing | QueryCalled | QueryWaiting | Emit
    | Consume | Heartbeat

  /** The request behind the transaction publishes to the location its ticket has afterwards. */
  ghost predicate PublishesTo(txn: Txn, location: Id) {
    match txn
    case Creating(draft) => draft.location == location
    case Updating(act, _, _, pending) =>
      !act.AutoNoShow? && exists id :: id in pending && pending[id].ticket.location == location
  }

  /** The requests that accept an idempotency key. */
  predicate TakesKey(txn: Txn) {
    txn.Creating? || txn.act.Claim? || txn.act.Start? || txn.act.Complete?
  }

  /** Without a key there is nothing to save. */
  predicate Savable(keys: set<RecordKey>, header: Option<RecordKey>) {
    header.Some? ==> |header.value.key| <= Serial.MAX_KEY && header.value !in keys
  }

  ghost predicate Can(w: World, act: Act) {
    match act
    case Db(step) => Enabled(w.sys, step) && !step.Commit?
    case Commits(x, header) => Enabled(w.sys, Commit(x)) && (header.Some? ==> TakesKey(w.sys.open[x]))
    case Save(i) => i < |w.due|
    case StoreKey(_) => true
    case DropKey(_) => true
    case Publish => w.owed > 0
    case LosePublish => w.owed > 0
    case Subscribe => w.stream.Off?
    case QueryServing => w.stream.Building? && w.stream.serving.None?
    case QueryCalled => w.stream.Building? && w.stream.serving.Some? && w.stream.called.None?
    case QueryWaiting => w.stream.Building? && w.stream.called.Some? && w.stream.waiting.None?
    case Emit => w.stream.Building? && w.stream.serving.Some? && w.stream.called.Some? && w.stream.waiting.Some?
    case Consume => w.stream.Showing? && w.inbox > 0
    case Heartbeat => w.stream.Showing? && w.inbox == 0
  }

  ghost function Do(w: World, act: Act, location: Id): World
    requires Can(w, act)
  {
    match act
    case Db(step) => w.(sys := Next(w.sys, step))
    case Commits(x, header) =>
      var due := if PublishesTo(w.sys.open[x], location) then w.due + [header] else w.due;
      w.(sys := Next(w.sys, Commit(x)), due := due)
    case Save(i) =>
      var rest, header := w.due[..i] + w.due[i + 1..], w.due[i];
      if !Savable(w.keys, header) then w.(due := rest)
      else
        w.(due := rest, owed := w.owed + 1, keys := if header.Some? then w.keys + {header.value} else w.keys)
    case StoreKey(k) => w.(keys := w.keys + {k})
    case DropKey(k) => w.(keys := w.keys - {k})
    case Publish => w.(owed := w.owed - 1, inbox := if w.stream.Off? then w.inbox else w.inbox + 1)
    case LosePublish => w.(owed := w.owed - 1)
    case Subscribe => w.(stream := Building(None, None, None))
    case QueryServing => w.(stream := w.stream.(serving := Some(ServingQuery(w.sys.rows, location))))
    case QueryCalled => w.(stream := w.stream.(called := Some(CalledQuery(w.sys.rows, location))))
    case QueryWaiting => w.(stream := w.stream.(waiting := Some(WaitingCount(w.sys.rows, location))))
    case Emit => w.(stream := Showing(Board(w.stream.serving.value, w.stream.called.value, w.stream.waiting.value)))
    case Consume => w.(inbox := w.inbox - 1, stream := Building(None, None, None))
    case Heartbeat => w
  }

  // ---------- what a commit changes ----------

  ghost predicate ChangesShown(s: Sys, x: nat, location: Id)
    requires Enabled(s, Commit(x))
  {
    exists id: nat :: ShownChange(s.rows, Committed(s.rows, s.open[x]), location, id)
  }

  lemma SweepRemoves(s: Sys, x: nat, location: Id)
    requires Inv(s) && Enabled(s, Commit(x)) && s.open[x].Updating? && s.open[x].act.AutoNoShow?
    ensures Removes(s.rows, Committed(s.rows, s.open[x]), location, s.open[x].pending.Keys)
  {
    assert TxnOk(s.rows, s.open[x]);
  }

  lemma RemovalShows(rows: seq<Row>, after: seq<Row>, location: Id, gone: set<nat>, id: nat)
    requires |rows| == |after| && Removes(rows, after, location, gone)
    ensures ShownChange(rows, after, location, id) <==> id in gone && Shown(rows, location, id)
  {
    if Shown(rows, location, id) { ShownHasView(rows, location, id); }
    if Shown(after, location, id) { ShownHasView(after, location, id); }
  }

  lemma SweepChanges(s: Sys, x: nat, location: Id)
    requires Inv(s) && Enabled(s, Commit(x)) && s.open[x].Updating? && s.open[x].act.AutoNoShow?
    ensures BoardOf(Committed(s.rows, s.open[x]), location) == BoardOf(s.rows, location) <==>
      !ChangesShown(s, x, location)
  {
    var after, gone := Committed(s.rows, s.open[x]), s.open[x].pending.Keys;
    SweepRemoves(s, x, location);
    BoardKeptIff(s.rows, after, location, gone);
    forall id: nat ensures ShownChange(s.rows, after, location, id) <==> id in gone && Shown(s.rows, location, id) {
      RemovalShows(s.rows, after, location, gone, id);
    }
  }

  lemma OthersUnchanged(rows: seq<Row>, after: seq<Row>, location: Id, id: nat)
    requires |rows| <= |after| && SameButOne(rows, after, location, id)
    ensures forall j: nat :: ShownChange(rows, after, location, j) ==> j == id
  {
  }

  /** A commit changes a board exactly if it changes a ticket shown there before or after. */
  lemma CommitChangesBoardIff(s: Sys, x: nat, location: Id)
    requires Inv(s) && Enabled(s, Commit(x))
    ensures BoardOf(Committed(s.rows, s.open[x]), location) != BoardOf(s.rows, location) <==>
      ChangesShown(s, x, location)
  {
    var txn, after := s.open[x], Committed(s.rows, s.open[x]);
    assert TxnOk(s.rows, txn);
    if txn.Updating? && txn.act.AutoNoShow? {
      SweepChanges(s, x, location);
    } else {
      var id: nat := |s.rows|;
      if txn.Updating? && txn.pending.Keys != {} { id :| id in txn.pending; }
      assert SameButOne(s.rows, after, location, id);
      OneChangeShows(s.rows, after, location, id);
      OthersUnchanged(s.rows, after, location, id);
    }
  }

  /**
   A save takes its own entry from those due and no other. If it succeeds it stores its key and owes one
   publication; if not, nothing else happens.
   */
  lemma SaveOutcome(w: World, i: nat, location: Id)
    requires Can(w, Save(i))
    ensures
      var next, header := Do(w, Save(i), location), w.due[i];
      && next.sys == w.sys && next.inbox == w.inbox && next.stream == w.stream
      && |next.due| == |w.due| - 1
      && (forall j :: 0 <= j < |next.due| ==> next.due[j] == if j < i then w.due[j] else w.due[j + 1])
      && if header.Some? && (|header.value.key| > 255 || header.value in w.keys) then
           next.owed == w.owed && next.keys == w.keys
         else
           && next.owed == w.owed + 1
           && forall k :: k in next.keys <==> k in w.keys || header == Some(k)
  {
  }

  /** A stored key blocks its save until it is dropped; other keys are not affected. */
  lemma StoredKeysBlock(w: World, k: RecordKey, other: RecordKey, location: Id)
    requires other != k
    ensures !Savable(Do(w, StoreKey(k), location).keys, Some(k))
    ensures Savable(Do(w, DropKey(k), location).keys, Some(k)) <==> |k.key| <= 255
    ensures Savable(Do(w, StoreKey(k), location).keys, Some(other)) <==> Savable(w.keys, Some(other))
    ensures Savable(Do(w, DropKey(k), location).keys, Some(other)) <==> Savable(w.keys, Some(other))
  {
  }

  /** The transaction that makes a serial step. */
  function TxnOf(req: Serial.Request, resp: Serial.Response, db: Serial.Db, after: Serial.Db): Txn
    requires Serial.Effective(resp) && resp.id < |after.rows|
  {
    if resp.id >= |db.rows| then Creating(after.rows[resp.id].ticket)
    else
      Updating(Serial.ActionOf(req), db.now, map[resp.id := db.rows[resp.id].ticket.status],
               map[resp.id := after.rows[resp.id]])
  }

  function StoredKeys(db: Serial.Db): set<RecordKey> {
    set r | r in db.keys :: RecordKey(r.tenant, r.key)
  }

  /** A request that took effect has published exactly to the locations `PublishesTo` says, if its save succeeded. */
  lemma PublishesAsServed(site: Serial.Site, db: Serial.Db, req: Serial.Request, resp: Serial.Response,
                          after: Serial.Db, location: Id)
    requires Serial.Step(site, db, req, resp, after) && Serial.Effective(resp)
    ensures resp.id < |after.rows|
    ensures (after.published == db.published + [location]) <==>
      resp.Done? && PublishesTo(TxnOf(req, resp, db, after), location)
    ensures resp.SaveFailed? ==> after.published == db.published
  {
    StepPublishes(site, db, req, resp, after);
    var place := after.rows[resp.id].ticket.location;
    PublishesOne(req, resp, db, after, location);
    if resp.Done? {
      assert after.published[|db.published|] == place;
      assert location == place ==> after.published == db.published + [location];
    }
  }

  lemma PublishesOne(req: Serial.Request, resp: Serial.Response, db: Serial.Db, after: Serial.Db, location: Id)
    requires Serial.Effective(resp) && resp.id < |after.rows| && !req.Sweep?
    requires resp.id < |db.rows| ==> !Serial.ActionOf(req).AutoNoShow?
    ensures PublishesTo(TxnOf(req, resp, db, after), location) <==> after.rows[resp.id].ticket.location == location
  {
    var txn := TxnOf(req, resp, db, after);
    if txn.Updating? { assert resp.id in txn.pending; }
  }

  /** The ticket is there, and a successful save published its location. */
  ghost predicate Published(db: Serial.Db, resp: Serial.Response, after: Serial.Db)
    requires Serial.Effective(resp)
  {
    && resp.id < |after.rows|
    && after.published ==
         if resp.Done? then db.published + [after.rows[resp.id].ticket.location] else db.published
  }

  lemma FinishPublishes(db: Serial.Db, rows: seq<Row>, id: nat, tenant: Id, header: Option<string>, hash: Serial.Hash)
    requires id < |rows|
    ensures
      var (resp, after) := Serial.Finish(db, rows, id, tenant, header, hash);
      Serial.Effective(resp) && resp.id == id && after.rows == rows && Published(db, resp, after)
  {
  }

  lemma CreationPublishes(site: Serial.Site, db: Serial.Db, req: Serial.Request)
    requires (req.Create? || req.Kiosk?) && Serial.Effective(Serial.Serve(site, db, req).0)
    ensures Published(db, Serial.Serve(site, db, req).0, Serial.Serve(site, db, req).1)
  {
  }

  lemma UpdatePublishes(site: Serial.Site, db: Serial.Db, req: Serial.Request)
    requires !req.CallNext? && !req.Create? && !req.Kiosk? && Serial.Effective(Serial.Serve(site, db, req).0)
    ensures Published(db, Serial.Serve(site, db, req).0, Serial.Serve(site, db, req).1)
    ensures Serial.Serve(site, db, req).0.id < |db.rows| && !Serial.ActionOf(req).AutoNoShow? && !req.Sweep?
  {
  }

  lemma StepPublishes(site: Serial.Site, db: Serial.Db, req: Serial.Request, resp: Serial.Response, after: Serial.Db)
    requires Serial.Step(site, db, req, resp, after) && Serial.Effective(resp)
    ensures Published(db, resp, after)
    ensures resp.id >= |db.rows| ==> req.Create? || req.Kiosk?
    ensures !req.Sweep? && (resp.id < |db.rows| ==> !Serial.ActionOf(req).AutoNoShow?)
  {
    if req.CallNext? {
    } else if req.Create? || req.Kiosk? {
      CreationPublishes(site, db, req);
      Serial.CreationId(site, db, req);
    } else {
      UpdatePublishes(site, db, req);
    }
  }

  /** And its save succeeded exactly if its key was savable. */
  lemma SavedAsServed(site: Serial.Site, db: Serial.Db, req: Serial.Request, resp: Serial.Response,
                      after: Serial.Db, tenant: Id, key: string)
    requires Serial.Step(site, db, req, resp, after) && Serial.Effective(resp)
    requires Idempotency.Keyed(site, req, tenant, key)
    ensures resp.Done? <==> Savable(StoredKeys(db), Some(RecordKey(tenant, key)))
    ensures resp.id < |after.rows| && TakesKey(TxnOf(req, resp, db, after))
  {
    Idempotency.SaveFailsIff(site, db, req, resp, after, tenant, key);
    StepPublishes(site, db, req, resp, after);
    var k := RecordKey(tenant, key);
    if k in StoredKeys(db) {
      var r :| r in db.keys && RecordKey(r.tenant, r.key) == k;
      var i :| 0 <= i < |db.keys| && db.keys[i] == r;
      assert Serial.IsFor(db.keys[i], tenant, key);
    }
    if Serial.Recorded(db.keys, tenant, key) {
      var i :| 0 <= i < |db.keys| && Serial.IsFor(db.keys[i], tenant, key);
      assert db.keys[i] in db.keys;
      assert k in StoredKeys(db);
    }
  }

  // ---------- no update is lost ----------

  /** Legal acts in which no publication is lost, no save fails, and commits change shown tickets aloud only. */
  ghost predicate Play(w: World, acts: seq<Act>, location: Id)
    decreases |acts|
  {
    acts == [] ||
    (&& Can(w, acts[0])
     && !acts[0].LosePublish?
     && (acts[0].Save? ==> Savable(w.keys, w.due[acts[0].i]))
     && (acts[0].Commits? ==> PublishesTo(w.sys.open[acts[0].x], location) || !ChangesShown(w.sys, acts[0].x, location))
     && Play(Do(w, acts[0], location), acts[1..], location))
  }

  ghost function Played(w: World, acts: seq<Act>, location: Id): World
    requires Play(w, acts, location)
    decreases |acts|
  {
    if acts == [] then w else Played(Do(w, acts[0], location), acts[1..], location)
  }

  /** What the stream has collected or shows agrees with the table now. */
  ghost predicate UpToDate(w: World, location: Id) {
    match w.stream
    case Off => true
    case Building(serving, called, waiting) =>
      && (serving.Some? ==> serving.value == ServingQuery(w.sys.rows, location))
      && (called.Some? ==> called.value == CalledQuery(w.sys.rows, location))
      && (waiting.Some? ==> waiting.value == WaitingCount(w.sys.rows, location))
    case Showing(board) => board == BoardOf(w.sys.rows, location)
  }

  ghost predicate NothingLost(w: World, location: Id) {
    |w.due| + w.owed + w.inbox > 0 || UpToDate(w, location)
  }

  lemma CommitKeepsNothingLost(w: World, act: Act, location: Id)
    requires Inv(w.sys) && NothingLost(w, location) && act.Commits? && Can(w, act)
    requires PublishesTo(w.sys.open[act.x], location) || !ChangesShown(w.sys, act.x, location)
    ensures Inv(Do(w, act, location).sys) && NothingLost(Do(w, act, location), location)
  {
    StepKeepsInv(w.sys, Commit(act.x));
    CommitChangesBoardIff(w.sys, act.x, location);
  }

  lemma ActKeepsNothingLost(w: World, act: Act, location: Id)
    requires Inv(w.sys) && NothingLost(w, location) && Play(w, [act], location)
    ensures Can(w, act)
    ensures Inv(Do(w, act, location).sys) && NothingLost(Do(w, act, location), location)
  {
    match act
    case Db(step) =>
      StepKeepsInv(w.sys, step);
      assert Next(w.sys, step).rows == w.sys.rows;
    case Commits(x, _) => CommitKeepsNothingLost(w, act, location);
    case _ =>
  }

  lemma {:induction false} PlayKeepsNothingLost(w: World, acts: seq<Act>, location: Id)
    requires Inv(w.sys) && NothingLost(w, location) && Play(w, acts, location)
    decreases |acts|
    ensures NothingLost(Played(w, acts, location), location)
  {
    if acts != [] {
      assert Play(Do(w, acts[0], location), [], location) && [acts[0]][1..] == [];
      ActKeepsNothingLost(w, acts[0], location);
      PlayKeepsNothingLost(Do(w, acts[0], location), acts[1..], location);
    }
  }

  /** Nothing awaits saving, publication or reading. */
  predicate Quiet(w: World) {
    w.due == [] && w.owed == 0 && w.inbox == 0
  }

  /**
   Whatever was interleaved, transactions open, saves due or publications owed when the stream began
   included: once it has read its messages and nothing awaits publication, the board shows the current
   waiting count, called list and in-service list.
   */
  lemma SignageConverges(w: World, acts: seq<Act>, location: Id)
    requires Inv(w.sys) && w.stream.Off? && Play(w, acts, location)
    ensures
      var last := Played(w, acts, location);
      last.stream.Showing? && Quiet(last) ==> last.stream.board == BoardOf(last.sys.rows, location)
  {
    PlayKeepsNothingLost(w, acts, location);
  }

  // ---------- when a commit does show ----------

  /** The stream's answer to one message. */
  ghost function Answered(w: World, location: Id): World
    requires w.stream.Showing? && w.inbox > 0
  {
    Do(Do(Do(Do(Do(w, Consume, location), QueryServing, location), QueryCalled, location), QueryWaiting, location),
       Emit, location)
  }

  /** Save what is due, deliver the publication, if any, and refresh once. */
  ghost function Refreshed(w: World, location: Id): World
    requires w.stream.Showing?
  {
    var saved := if w.due == [] then w else Do(w, Save(0), location);
    if saved.owed == 0 then saved else Answered(Do(saved, Publish, location), location)
  }

  ghost predicate Settled(w: World, location: Id) {
    w.stream.Showing? && Quiet(w) && w.stream.board == BoardOf(w.sys.rows, location)
  }

  lemma AnsweredShows(w: World, location: Id)
    requires w.stream.Showing? && w.inbox > 0
    ensures Answered(w, location) == w.(inbox := w.inbox - 1, stream := Showing(BoardOf(w.sys.rows, location)))
  {
  }

  /** The commit is announced to the location: its request publishes there and its record can be saved. */
  ghost predicate Announced(w: World, x: nat, header: Option<RecordKey>, location: Id)
    requires x in w.sys.open
  {
    PublishesTo(w.sys.open[x], location) && Savable(w.keys, header)
  }

  lemma RefreshedDue(w: World, header: Option<RecordKey>, location: Id)
    requires w.stream.Showing? && w.due == [header] && w.owed == 0 && w.inbox == 0
    ensures Refreshed(w, location).sys == w.sys && Quiet(Refreshed(w, location))
    ensures Refreshed(w, location).stream ==
      if Savable(w.keys, header) then Showing(BoardOf(w.sys.rows, location)) else w.stream
  {
    var saved := Do(w, Save(0), location);
    assert saved.due == [] && saved.sys == w.sys && saved.stream == w.stream && saved.inbox == 0;
    if Savable(w.keys, header) {
      AnsweredShows(Do(saved, Publish, location), location);
    }
  }

  lemma RefreshShows(w: World, x: nat, header: Option<RecordKey>, location: Id)
    requires Settled(w, location) && Can(w, Commits(x, header))
    ensures
      Settled(Refreshed(Do(w, Commits(x, header), location), location), location) <==>
        || Announced(w, x, header, location)
        || BoardOf(Committed(w.sys.rows, w.sys.open[x]), location) == BoardOf(w.sys.rows, location)
  {
    var next := Do(w, Commits(x, header), location);
    assert next.sys.rows == Committed(w.sys.rows, w.sys.open[x]) && next.stream == w.stream;
    if PublishesTo(w.sys.open[x], location) {
      RefreshedDue(next, header, location);
    }
  }

  /**
   From a settled board, a commit is followed by a settled board exactly when it is announced or changes
   no ticket that is shown before or after: waiting, among the five latest being served, or among the
   ten latest called.
   */
  lemma CommitShownIff(w: World, x: nat, header: Option<RecordKey>, location: Id)
    requires Inv(w.sys) && Settled(w, location) && Can(w, Commits(x, header))
    ensures
      Settled(Refreshed(Do(w, Commits(x, header), location), location), location) <==>
        Announced(w, x, header, location) || !ChangesShown(w.sys, x, location)
  {
    RefreshShows(w, x, header, location);
    CommitChangesBoardIff(w.sys, x, location);
  }

  // ---------- boards that go stale ----------

  /** The one row, with a transaction that has rewritten it and is about to commit. */
  function AboutToCommit(row: Row, act: Action, at: Time): Sys {
    var read := row.ticket.status;
    Sys([row], map[0 := Updating(act, at, map[0 := read], map[0 := Effect(row, read, act, at)])])
  }

  /** A settled board over one ticket. */
  ghost function SettledWorld(s: Sys, keys: set<RecordKey>, location: Id): World {
    World(s, keys, [], 0, 0, Showing(BoardOf(s.rows, location)))
  }

  lemma SingleIsShown(row: Row)
    requires row.ticket.status in {Waiting, Called, InService}
    ensures Shown([row], row.ticket.location, 0)
  {
    var t := row.ticket;
    var e := EntryOf(0, t);
    assert [row][..0] == [];
    if t.status != Waiting {
      assert EntriesOf([], t.location, t.status) == [];
      assert EntriesOf([row], t.location, t.status) == [] + [e] == [e];
      assert [e][1..] == [];
      assert NewestFirst([e]) == [e] && e in [e];
    }
  }

  lemma AboutToCommitOk(row: Row, act: Action, at: Time)
    requires Sound(row) && Permits(row.ticket.status, act) && row.ticket.status in {Waiting, Called, InService}
    ensures Inv(AboutToCommit(row, act, at)) && Enabled(AboutToCommit(row, act, at), Commit(0))
    ensures ChangesShown(AboutToCommit(row, act, at), 0, row.ticket.location)
  {
    var s := AboutToCommit(row, act, at);
    FreshReadPasses(row.ticket.status, act);
    SingleIsShown(row);
    EffectChangesView(row, act, at);
    assert Committed(s.rows, s.open[0]) == [Effect(row, row.ticket.status, act, at)];
    assert ShownChange(s.rows, Committed(s.rows, s.open[0]), row.ticket.location, 0);
  }

  lemma UnannouncedGoesStale(row: Row, act: Action, at: Time, keys: set<RecordKey>, header: Option<RecordKey>)
    requires Sound(row) && Permits(row.ticket.status, act) && row.ticket.status in {Waiting, Called, InService}
    requires header.Some? ==> TakesKey(AboutToCommit(row, act, at).open[0])
    requires
      var location := row.ticket.location;
      !Announced(SettledWorld(AboutToCommit(row, act, at), keys, location), 0, header, location)
    ensures
      var location := row.ticket.location;
      var w := SettledWorld(AboutToCommit(row, act, at), keys, location);
      && Settled(w, location) && Can(w, Commits(0, header))
      && !Settled(Refreshed(Do(w, Commits(0, header), location), location), location)
  {
    var s, location := AboutToCommit(row, act, at), row.ticket.location;
    AboutToCommitOk(row, act, at);
    CommitShownIff(SettledWorld(s, keys, location), 0, header, location);
  }

  /** A request that acts on the status it read changes what its ticket contributes. */
  lemma EffectChangesView(row: Row, act: Action, at: Time)
    requires Permits(row.ticket.status, act) && row.ticket.status in {Waiting, Called, InService}
    ensures
      ViewOf([Effect(row, row.ticket.status, act, at)], row.ticket.location, 0) != ViewOf([row], row.ticket.location, 0)
  {
    assert Effect(row, row.ticket.status, act, at).ticket.status != row.ticket.status;
  }

  /** A sweep of the only called ticket: the board goes on showing it as called. */
  lemma SweepLeavesBoardStale(row: Row, at: Time) returns (w: World)
    requires Sound(row) && Stuck(row, at)
    ensures w.sys == Sys([row], map[]) && Settled(w, row.ticket.location)
    ensures Enabled(w.sys, SweepRead(0, at)) && Enabled(Next(w.sys, SweepRead(0, at)), Write(0, 0))
    ensures
      var location := row.ticket.location;
      var swept := Next(Next(w.sys, SweepRead(0, at)), Write(0, 0));
      && Can(w.(sys := swept), Commits(0, None))
      && !Settled(Refreshed(Do(w.(sys := swept), Commits(0, None), location), location), location)
  {
    w := SettledWorld(Sys([row], map[]), {}, row.ticket.location);
    var s1 := Next(w.sys, SweepRead(0, at));
    assert s1.open[0].seen == map[0 := Called];
    FreshReadPasses(Called, AutoNoShow);
    assert Next(s1, Write(0, 0)) == AboutToCommit(row, AutoNoShow, at);
    UnannouncedGoesStale(row, AutoNoShow, at, {}, None);
  }

  /** A ticket in service moved to another location: the old board goes on serving it. */
  lemma TransferAwayLeavesBoardStale(row: Row, service: Id, target: Id, at: Time) returns (w: World)
    requires Sound(row) && row.ticket.status == InService && target != row.ticket.location
    ensures w.sys == Sys([row], map[]) && Settled(w, row.ticket.location)
    ensures
      var location, read := row.ticket.location, Read(0, Transfer(service, Some(target)), 0, at);
      && Enabled(w.sys, read) && Enabled(Next(w.sys, read), Write(0, 0))
      && var moved := Next(Next(w.sys, read), Write(0, 0));
         && Can(w.(sys := moved), Commits(0, None)) && PublishesTo(moved.open[0], target)
         && !Settled(Refreshed(Do(w.(sys := moved), Commits(0, None), location), location), location)
  {
    var act := Transfer(service, Some(target));
    w := SettledWorld(Sys([row], map[]), {}, row.ticket.location);
    var s1 := Next(w.sys, Read(0, act, 0, at));
    FreshReadPasses(InService, act);
    assert Next(s1, Write(0, 0)) == AboutToCommit(row, act, at);
    assert AboutToCommit(row, act, at).open[0].pending[0].ticket.location == target;
    UnannouncedGoesStale(row, act, at, {}, None);
  }

  /** A call-next whose record cannot be saved: the board goes on counting its ticket as waiting. */
  lemma FailedSaveLeavesBoardStale(row: Row, counter: Id, at: Time, keys: set<RecordKey>, k: RecordKey)
    returns (w: World)
    requires Sound(row) && row.ticket.status == Waiting && (|k.key| > 255 || k in keys)
    ensures w.sys == Sys([row], map[]) && w.keys == keys && Settled(w, row.ticket.location)
    ensures
      var location := row.ticket.location;
      var call := CallNext(0, location, None, counter, at, Some(0));
      && Enabled(w.sys, call)
      && var called := w.(sys := Next(w.sys, call));
         && Can(called, Commits(0, Some(k))) && PublishesTo(called.sys.open[0], location)
         && !Settled(Refreshed(Do(called, Commits(0, Some(k)), location), location), location)
  {
    var location := row.ticket.location;
    w := SettledWorld(Sys([row], map[]), keys, location);
    var call := CallNext(0, location, None, counter, at, Some(0));
    assert Next(w.sys, call) == AboutToCommit(row, Claim(counter), at);
    assert AboutToCommit(row, Claim(counter), at).open[0].pending[0].ticket.location == location;
    UnannouncedGoesStale(row, Claim(counter), at, keys, Some(k));
  }
}
