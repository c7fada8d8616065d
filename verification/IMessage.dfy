/**
 The iMessage row cursor: one `imsg` child at a time, rows handed over one at a time across crashes
 and replays (packages/gateway-imessage/src/adapter.ts).

 The code between two awaits is one step. A session is numbered by its `startChild`.
 */
module IMessage {
  import opened Options

  /** A row as `handleRow` sees it: its id when numeric, and whether it makes an event. */
  datatype Row = Row(id: Option<int>, forHandler: bool)

  datatype Item = Item(session: nat, row: Row)

  datatype Turn = NoTurn | InHandler(item: Item)

  /** The shared promise of `connect()`: where its `openSession` is. */
  datatype Opening = Waiting(session: nat) | Answered(session: nat, granted: bool) | Done(result: bool)

  datatype State = State(
    session: Option<nat>,
    handler: bool,
    connected: bool,
    connecting: Option<Opening>,
    lastRowId: Option<int>,
    rows: seq<Item>,
    turn: Turn,
    since: seq<Option<int>>,  // the cursor each child was subscribed with
    sent: seq<nat>,           // how many rows each child has written
    open: set<nat>,           // children whose line client is open
    calls: seq<Row>           // rows the handler was called with
  )

  datatype Event =
    | Connect(spawns: bool, writable: bool)
    | SubscribeSettles(granted: bool)
    | OpenResumes
    | OpeningCleared
    | Disconnect
    | SendEndsChild(session: nat)
    | ChildCloses(session: nat)
    | Notify(session: nat, row: Row)
    | TakeRow
    | HandlerReturns
    | OnInbound
    | Unsubscribe

  const INITIAL := State(None, false, false, None, None, [], NoTurn, [], [], {}, [])

  predicate Enabled(s: State, e: Event) {
    match e
    case SubscribeSettles(_) => s.connecting.Some? && s.connecting.value.Waiting?
    case OpenResumes => s.connecting.Some? && s.connecting.value.Answered?
    case OpeningCleared => s.connecting.Some? && s.connecting.value.Done?
    case SendEndsChild(k) => k < |s.since|
    case ChildCloses(k) => k in s.open
    case Notify(k, _) => k in s.open && k < |s.sent|
    case TakeRow => s.rows != [] && s.turn.NoTurn?
    case HandlerReturns => s.turn.InHandler?
    case _ => true
  }

  // ---- specification of the steps ----

  function OnConnect(s: State, spawns: bool, writable: bool): State {
    if s.connected || s.connecting.Some? then s
    else if !spawns then s.(connecting := Some(Done(false)))
    else
      var k := |s.since|;
      s.(session := Some(k), open := s.open + {k}, since := s.since + [s.lastRowId], sent := s.sent + [0],
         connecting := Some(if writable then Waiting(k) else Answered(k, false)))
  }

  /** The line client of `k` closes: its pending subscription is answered, and the session is over. */
  function EndSession(s: State, k: nat): State {
    s.(session := if s.session == Some(k) then None else s.session,
       connected := s.connected && s.session != Some(k),
       open := s.open - {k},
       connecting := if s.connecting == Some(Waiting(k)) then Some(Answered(k, false)) else s.connecting)
  }

  function OnOpenResumes(s: State): State
    requires s.connecting.Some? && s.connecting.value.Answered?
  {
    var k := s.connecting.value.session;
    if s.connecting.value.granted && s.session == Some(k) then
      s.(connected := true, connecting := Some(Done(true)))
    else
      (if s.session == Some(k) then EndSession(s, k) else s).(connecting := Some(Done(false)))
  }

  predicate Stale(s: State, item: Item) {
    || s.session != Some(item.session)
    || (item.row.id.Some? && s.lastRowId.Some? && item.row.id.value <= s.lastRowId.value)
  }

  function Moved(cursor: Option<int>, id: Option<int>): Option<int> {
    match id
    case None => cursor
    case Some(r) => if cursor.Some? && cursor.value > r then cursor else id
  }

  function OnTakeRow(s: State): State
    requires s.rows != []
  {
    var item, s' := s.rows[0], s.(rows := s.rows[1..]);
    if Stale(s, item) then s'
    else if !item.row.forHandler then s'.(lastRowId := Moved(s.lastRowId, item.row.id))
    else if !s.handler then s'
    else s'.(turn := InHandler(item), calls := s.calls + [item.row])
  }

  function Step(s: State, e: Event): State
    requires Enabled(s, e)
  {
    match e
    case Connect(spawns, writable) => OnConnect(s, spawns, writable)
    case SubscribeSettles(granted) => s.(connecting := Some(Answered(s.connecting.value.session, granted)))
    case OpenResumes => OnOpenResumes(s)
    case OpeningCleared => s.(connecting := None)
    case Disconnect => if s.session.Some? then EndSession(s, s.session.value) else s
    case SendEndsChild(k) => EndSession(s, k)
    case ChildCloses(k) => EndSession(s, k)
    case Notify(k, row) => s.(rows := s.rows + [Item(k, row)], sent := s.sent[k := s.sent[k] + 1])
    case TakeRow => OnTakeRow(s)
    case HandlerReturns => s.(turn := NoTurn, lastRowId := Moved(s.lastRowId, s.turn.item.row.id))
    case OnInbound => s.(handler := true)
    case Unsubscribe => s.(handler := false)
  }

  ghost predicate Possible(s: State, events: seq<Event>)
    decreases |events|
  {
    events == [] || (Enabled(s, events[0]) && Possible(Step(s, events[0]), events[1..]))
  }

  ghost function After(s: State, events: seq<Event>): State
    requires Possible(s, events)
    decreases |events|
  {
    if events == [] then s else After(Step(s, events[0]), events[1..])
  }

  lemma {:induction false} Extend(s0: State, es: seq<Event>, s: State, e: Event)
    requires Possible(s0, es) && After(s0, es) == s && Enabled(s, e)
    ensures Possible(s0, es + [e]) && After(s0, es + [e]) == Step(s, e)
    decreases |es|
  {
    if es == [] {
      assert (es + [e])[1..] == [] && (es + [e])[0] == e;
    } else {
      Extend(Step(s0, es[0]), es[1..], s, e);
      assert (es + [e])[0] == es[0] && (es + [e])[1..] == es[1..] + [e];
    }
  }

  // ---- what every step keeps ----

  /** One child at a time: the newest, while it is the session. */
  ghost predicate OneSession(s: State) {
    && |s.sent| == |s.since|
    && s.open == (if s.session.Some? then {s.session.value} else {})
    && (s.session.Some? ==> s.session.value + 1 == |s.since|)
    && (s.connected ==> s.session.Some? && (s.connecting.None? || s.connecting.value.Done?))
    && (s.connecting.None? || s.connecting.value.Done? ==> (s.connected <==> s.session.Some?))
    && (s.connecting.Some? ==>
          match s.connecting.value
          case Waiting(k) => s.session == Some(k)
          case Answered(k, _) => k + 1 == |s.since|
          case Done(_) => true)
    && (forall i :: 0 <= i < |s.rows| ==> s.rows[i].session < |s.since|)
    && (s.turn.InHandler? ==> s.turn.item.session < |s.since|)
  }

  predicate Before(a: Option<int>, b: Option<int>) {
    a.Some? && b.Some? ==> a.value < b.value
  }

  predicate IdsIncrease(calls: seq<Row>) {
    forall i, j :: 0 <= i < j < |calls| ==> Before(calls[i].id, calls[j].id)
  }

  predicate Covered(cursor: Option<int>, id: Option<int>) {
    id.Some? ==> cursor.Some? && id.value <= cursor.value
  }

  /** The cursor covers every row handed over, except the one still in its handler. */
  ghost predicate CursorCovers(s: State) {
    var finished := if s.turn.InHandler? then |s.calls| - 1 else |s.calls|;
    && IdsIncrease(s.calls)
    && finished >= 0
    && (forall i :: 0 <= i < finished ==> Covered(s.lastRowId, s.calls[i].id))
    && (s.turn.InHandler? ==> s.calls[finished] == s.turn.item.row && Before(s.lastRowId, s.turn.item.row.id))
  }

  /** Only a row that makes an event is ever in the handler. */
  predicate TurnIsEvent(s: State) {
    s.turn.InHandler? ==> s.turn.item.row.forHandler
  }

  ghost predicate Inv(s: State) {
    OneSession(s) && CursorCovers(s) && TurnIsEvent(s)
  }

  lemma {:induction false} StepKeeps(s: State, e: Event)
    requires Inv(s) && Enabled(s, e)
    ensures Inv(Step(s, e))
  {
    StepKeepsOneSession(s, e);
    if e.TakeRow? {
      TakeRowCovers(s);
    } else if e.HandlerReturns? {
      ReturnCovers(s);
    } else {
      OtherCovers(s, e);
    }
  }

  lemma {:induction false} StepKeepsOneSession(s: State, e: Event)
    requires OneSession(s) && Enabled(s, e)
    ensures OneSession(Step(s, e))
  {
    if e.Connect? || e.SubscribeSettles? || e.OpenResumes? || e.OpeningCleared? {
      OpeningKeepsOneSession(s, e);
    } else if e.Notify? || e.TakeRow? || e.HandlerReturns? || e.OnInbound? || e.Unsubscribe? {
      RowsKeepOneSession(s, e);
    } else {
      EndKeepsOneSession(s, e);
    }
  }

  lemma {:induction false} OpeningKeepsOneSession(s: State, e: Event)
    requires OneSession(s) && Enabled(s, e)
    requires e.Connect? || e.SubscribeSettles? || e.OpenResumes? || e.OpeningCleared?
    ensures OneSession(Step(s, e))
  {
  }

  lemma {:induction false} RowsKeepOneSession(s: State, e: Event)
    requires OneSession(s) && Enabled(s, e)
    requires e.Notify? || e.TakeRow? || e.HandlerReturns? || e.OnInbound? || e.Unsubscribe?
    ensures OneSession(Step(s, e))
  {
  }

  lemma {:induction false} EndKeepsOneSession(s: State, e: Event)
    requires OneSession(s) && Enabled(s, e) && (e.Disconnect? || e.SendEndsChild? || e.ChildCloses?)
    ensures OneSession(Step(s, e))
  {
  }

  lemma {:induction false} OtherCovers(s: State, e: Event)
    requires Inv(s) && Enabled(s, e) && !e.TakeRow? && !e.HandlerReturns?
    ensures CursorCovers(Step(s, e))
  {
  }

  lemma {:induction false} TakeRowCovers(s: State)
    requires Inv(s) && Enabled(s, TakeRow)
    ensures CursorCovers(OnTakeRow(s))
  {
  }

  lemma {:induction false} ReturnCovers(s: State)
    requires Inv(s) && Enabled(s, HandlerReturns)
    ensures CursorCovers(Step(s, HandlerReturns))
  {
  }

  lemma {:induction false} RunsKeep(s: State, events: seq<Event>)
    requires Inv(s) && Possible(s, events)
    ensures Inv(After(s, events))
    decreases |events|
  {
    if events != [] {
      StepKeeps(s, events[0]);
      RunsKeep(Step(s, events[0]), events[1..]);
    }
  }

  /**
   On every run, over crashes, disconnects and reconnects and whatever rows the children write: the
   handler is called with strictly increasing row ids, and at most one child is connected.
   */
  lemma {:induction false} CallsNeverRepeat(events: seq<Event>)
    requires Possible(INITIAL, events)
    ensures IdsIncrease(After(INITIAL, events).calls)
    ensures |After(INITIAL, events).open| <= 1
  {
    RunsKeep(INITIAL, events);
  }

  // ---- no row is skipped ----

  /** The message table: ids strictly increasing. */
  ghost predicate IsTable(db: seq<Row>) {
    && (forall i :: 0 <= i < |db| ==> db[i].id.Some?)
    && (forall i, j :: 0 <= i < j < |db| ==> db[i].id.value < db[j].id.value)
  }

  /** How many rows of the table are at or below the cursor. */
  ghost function Position(db: seq<Row>, cursor: int): (k: nat)
    requires IsTable(db)
    ensures k <= |db|
    ensures forall i :: 0 <= i < |db| ==> (i < k <==> db[i].id.value <= cursor)
    decreases |db|
  {
    if db == [] || db[|db| - 1].id.value <= cursor then |db| else Position(db[..|db| - 1], cursor)
  }

  function ForHandler(rows: seq<Row>): seq<Row> {
    if rows == [] then []
    else ForHandler(rows[..|rows| - 1])
         + (if rows[|rows| - 1].forHandler then [rows[|rows| - 1]] else [])
  }

  /** The rows of one session still waiting for their turn, in order. */
  function Queued(rows: seq<Item>, k: nat): seq<Row> {
    if rows == [] then []
    else (if rows[0].session == k then [rows[0].row] else []) + Queued(rows[1..], k)
  }

  lemma {:induction false} QueuedAppend(rows: seq<Item>, item: Item, k: nat)
    ensures Queued(rows + [item], k) == Queued(rows, k) + (if item.session == k then [item.row] else [])
  {
    if rows == [] {
    } else {
      QueuedAppend(rows[1..], item, k);
      assert (rows + [item])[1..] == rows[1..] + [item];
    }
  }

  /**
   The index in the table of the first row child `k` writes: the one after its cursor. A child
   subscribed without a cursor begins wherever `begins` says.
   */
  ghost function StartOf(db: seq<Row>, begins: nat -> nat, s: State, k: nat): nat
    requires IsTable(db) && k < |s.since|
  {
    if s.since[k].Some? then Position(db, s.since[k].value) else begins(k)
  }

  /** How far in the table child `k` has written. */
  ghost function Written(db: seq<Row>, begins: nat -> nat, s: State, k: nat): nat
    requires IsTable(db) && k < |s.since| && k < |s.sent|
  {
    StartOf(db, begins, s, k) + s.sent[k]
  }

  /** What `watch.subscribe` promises: a child writes the rows of the table in order, from its start on. */
  ghost predicate Replays(db: seq<Row>, begins: nat -> nat, s: State, e: Event)
    requires IsTable(db) && Enabled(s, e)
  {
    e.Notify? ==>
      e.session < |s.since| && var next := Written(db, begins, s, e.session); next < |db| && e.row == db[next]
  }

  /** Every row is written as `imsg` promises and the handler stays subscribed. */
  ghost predicate Faithful(db: seq<Row>, begins: nat -> nat, s: State, events: seq<Event>)
    requires IsTable(db) && Possible(s, events)
    decreases |events|
  {
    events == [] ||
    (Replays(db, begins, s, events[0]) && !events[0].Unsubscribe?
     && Faithful(db, begins, Step(s, events[0]), events[1..]))
  }

  /** These rows are the ones of the table just before `written`, and start no later than `limit`. */
  ghost predicate Stretch(db: seq<Row>, waiting: seq<Row>, written: nat, limit: nat) {
    && |waiting| <= written <= |db|
    && waiting == db[written - |waiting|..written]
    && written - |waiting| <= limit
  }

  lemma {:induction false} StretchPop(db: seq<Row>, waiting: seq<Row>, written: nat, limit: nat)
    requires Stretch(db, waiting, written, limit) && waiting != []
    ensures waiting[0] == db[written - |waiting|]
    ensures Stretch(db, waiting[1..], written, written - |waiting| + 1)
  {
  }

  lemma {:induction false} StretchPush(db: seq<Row>, waiting: seq<Row>, written: nat, limit: nat)
    requires Stretch(db, waiting, written, limit) && written < |db|
    ensures Stretch(db, waiting + [db[written]], written + 1, limit)
  {
  }

  /** The index of the first row from `i` on that makes an event, or the end of the table. */
  function NextEvent(db: seq<Row>, i: nat): (j: nat)
    ensures i <= j && (i <= |db| ==> j <= |db|) && (j < |db| ==> db[j].forHandler)
    ensures forall n :: i <= n < j ==> n < |db| && !db[n].forHandler
    decreases |db| - i
  {
    if i < |db| && !db[i].forHandler then NextEvent(db, i + 1) else i
  }

  /** How far ahead the current child's rows may start with no event between: past the running row, if any. */
  function Limit(db: seq<Row>, s: State, due: nat): nat {
    NextEvent(db, if s.turn.InHandler? then NextEvent(db, due) + 1 else due)
  }

  /** The current child's rows: those waiting are the last it wrote, and no event lies before them unhandled. */
  ghost predicate StreamAgrees(db: seq<Row>, begins: nat -> nat, s: State, due: nat)
    requires IsTable(db)
  {
    s.session.Some? ==>
      && s.session.value < |s.since| == |s.sent|
      && Stretch(db, Queued(s.rows, s.session.value), Written(db, begins, s, s.session.value), Limit(db, s, due))
  }

  /** The row in the handler, if any, is the next event. */
  predicate TurnIsDue(db: seq<Row>, s: State, due: nat) {
    s.turn.InHandler? ==> NextEvent(db, due) < |db| && s.turn.item.row == db[NextEvent(db, due)]
  }

  /** The handler and the current child are where the cursor says. */
  ghost predicate InStep(db: seq<Row>, begins: nat -> nat, s: State) {
    && IsTable(db) && s.handler && s.lastRowId.Some?
    && TurnIsDue(db, s, Position(db, s.lastRowId.value))
    && StreamAgrees(db, begins, s, Position(db, s.lastRowId.value))
  }

  function Running(s: State): seq<Row> {
    if s.turn.InHandler? then [s.turn.item.row] else []
  }

  /** From `base` on, the handler got exactly the rows from index `k0` up to the cursor, and the running one. */
  ghost predicate CallsAgree(db: seq<Row>, s: State, due: nat, k0: nat, base: nat) {
    k0 <= due <= |db| && base <= |s.calls| && s.calls[base..] == ForHandler(db[k0..due]) + Running(s)
  }

  ghost predicate NoGap(db: seq<Row>, begins: nat -> nat, s: State, k0: nat, base: nat) {
    InStep(db, begins, s) && CallsAgree(db, s, Position(db, s.lastRowId.value), k0, base)
  }

  lemma {:induction false} PositionAt(db: seq<Row>, i: nat)
    requires IsTable(db) && i < |db|
    ensures Position(db, db[i].id.value) == i + 1
  {
    var k := Position(db, db[i].id.value);
    assert i < k;
    assert i + 1 < |db| ==> db[i].id.value < db[i + 1].id.value;
  }

  lemma {:induction false} QueuedNone(rows: seq<Item>, k: nat)
    requires forall i :: 0 <= i < |rows| ==> rows[i].session < k
    ensures Queued(rows, k) == []
  {
    if rows != [] {
      QueuedNone(rows[1..], k);
    }
  }

  lemma {:induction false} ForHandlerNext(db: seq<Row>, k0: nat, due: nat)
    requires k0 <= due < |db|
    ensures ForHandler(db[k0..due + 1]) == ForHandler(db[k0..due]) + (if db[due].forHandler then [db[due]] else [])
  {
    var longer := db[k0..due + 1];
    assert longer[..|longer| - 1] == db[k0..due] && longer[|longer| - 1] == db[due];
  }

  lemma {:induction false} ForHandlerSkips(db: seq<Row>, k0: nat, due: nat, upto: nat)
    requires k0 <= due <= upto <= |db| && forall n :: due <= n < upto ==> !db[n].forHandler
    ensures ForHandler(db[k0..upto]) == ForHandler(db[k0..due])
    decreases upto
  {
    if due < upto {
      var last := upto - 1;
      ForHandlerSkips(db, k0, due, last);
      ForHandlerNext(db, k0, last);
      assert last + 1 == upto && !db[last].forHandler;
    }
  }

  lemma {:induction false} ConnectStaysInStep(db: seq<Row>, begins: nat -> nat, s: State, spawns: bool, writable: bool)
    requires InStep(db, begins, s) && OneSession(s)
    ensures InStep(db, begins, OnConnect(s, spawns, writable))
  {
    var t := OnConnect(s, spawns, writable);
    if t.session == s.session {
      OtherStaysInStep(db, begins, s, t);
    } else {
      NewChildInStep(db, begins, s, t, Position(db, s.lastRowId.value));
    }
  }

  /** A new child begins at the cursor. */
  lemma {:induction false} NewChildInStep(db: seq<Row>, begins: nat -> nat, s: State, t: State, due: nat)
    requires InStep(db, begins, s) && due == Position(db, s.lastRowId.value)
    requires t.handler && t.rows == s.rows && t.turn == s.turn && t.lastRowId == s.lastRowId
    requires t.since == s.since + [s.lastRowId] && |t.since| == |t.sent| && t.sent[|s.since|] == 0
    requires t.session == Some(|s.since|) && forall i :: 0 <= i < |s.rows| ==> s.rows[i].session < |s.since|
    ensures InStep(db, begins, t)
  {
    QueuedNone(s.rows, |s.since|);
    assert Written(db, begins, t, |s.since|) == due;
    assert Stretch(db, [], due, due) && due <= Limit(db, t, due);
  }

  lemma {:induction false} NotifyStaysInStep(db: seq<Row>, begins: nat -> nat, s: State, k: nat, row: Row)
    requires InStep(db, begins, s) && s.session == Some(k) && Enabled(s, Notify(k, row))
    requires Replays(db, begins, s, Notify(k, row))
    ensures InStep(db, begins, Step(s, Notify(k, row)))
  {
    var t, due, written := Step(s, Notify(k, row)), Position(db, s.lastRowId.value), Written(db, begins, s, k);
    QueuedAppend(s.rows, Item(k, row), k);
    StretchPush(db, Queued(s.rows, k), written, Limit(db, s, due));
    assert Written(db, begins, t, k) == written + 1 && Limit(db, t, due) == Limit(db, s, due);
  }

  /**
   The row at the head of the queue, when it is the current child's, is at the cursor already or the
   next row due, with no event between; the rest of the child's rows follow it.
   */
  lemma {:induction false} HeadIsDue(db: seq<Row>, s: State, k: nat, due: nat, written: nat) returns (first: nat)
    requires IsTable(db) && s.rows != [] && s.session == Some(k) && s.rows[0].session == k && s.lastRowId.Some?
    requires due == Position(db, s.lastRowId.value) && Stretch(db, Queued(s.rows, k), written, NextEvent(db, due))
    ensures first < |db| && first <= NextEvent(db, due) && s.rows[0].row == db[first]
    ensures Stale(s, s.rows[0]) <==> first < due
    ensures Stretch(db, Queued(s.rows[1..], k), written, first + 1)
  {
    var waiting := Queued(s.rows, k);
    assert waiting[0] == s.rows[0].row && waiting[1..] == Queued(s.rows[1..], k);
    StretchPop(db, waiting, written, NextEvent(db, due));
    first := written - |waiting|;
    assert first < due <==> db[first].id.value <= s.lastRowId.value;
  }

  /** A row dropped without a turn leaves everything but the queue as it is. */
  lemma {:induction false} DropStaysInStep(db: seq<Row>, begins: nat -> nat, s: State)
    requires InStep(db, begins, s) && Enabled(s, TakeRow) && Stale(s, s.rows[0])
    ensures InStep(db, begins, s.(rows := s.rows[1..]))
  {
    if s.session.Some? {
      var k, due, t := s.session.value, Position(db, s.lastRowId.value), s.(rows := s.rows[1..]);
      var written := Written(db, begins, s, k);
      if s.rows[0].session == k {
        var first := HeadIsDue(db, s, k, due, written);
        assert first + 1 <= due <= NextEvent(db, due);
      } else {
        QueuedForeign(s.rows, k);
      }
      assert Written(db, begins, t, k) == written && Limit(db, t, due) == Limit(db, s, due) == NextEvent(db, due);
    }
  }

  lemma {:induction false} QueuedForeign(rows: seq<Item>, k: nat)
    requires rows != [] && rows[0].session != k
    ensures Queued(rows, k) == Queued(rows[1..], k)
  {
  }

  /** The turn of the next row due: it reaches the handler, or the cursor passes it as its own. */
  lemma {:induction false} TakeDueStaysInStep(db: seq<Row>, begins: nat -> nat, s: State) returns (first: nat)
    requires InStep(db, begins, s) && Enabled(s, TakeRow) && !Stale(s, s.rows[0])
    ensures var due := Position(db, s.lastRowId.value);
            due <= first <= NextEvent(db, due) && first < |db| && s.rows[0].row == db[first]
    ensures OnTakeRow(s).lastRowId == if db[first].forHandler then s.lastRowId else db[first].id
    ensures InStep(db, begins, OnTakeRow(s))
  {
    var due, k := Position(db, s.lastRowId.value), s.rows[0].session;
    var written := Written(db, begins, s, k);
    first := HeadIsDue(db, s, k, due, written);
    PositionAt(db, first);
    TakenStaysInStep(db, begins, s, OnTakeRow(s), due, first);
  }

  /** The state `t` after row `first` had its turn. */
  lemma {:induction false} TakenStaysInStep(
      db: seq<Row>, begins: nat -> nat, s: State, t: State, due: nat, first: nat)
    requires IsTable(db) && t.handler && s.session.Some? && t.session == s.session
    requires s.session.value < |s.since| == |s.sent| && t.since == s.since && t.sent == s.sent
    requires t.lastRowId.Some? && due <= first <= NextEvent(db, due) && first < |db|
    requires Position(db, t.lastRowId.value) == if db[first].forHandler then due else first + 1
    requires t.turn == if db[first].forHandler then InHandler(Item(s.session.value, db[first])) else NoTurn
    requires Stretch(db, Queued(t.rows, t.session.value), Written(db, begins, s, s.session.value), first + 1)
    ensures InStep(db, begins, t)
  {
    assert Written(db, begins, t, t.session.value) == Written(db, begins, s, s.session.value);
    assert Limit(db, t, Position(db, t.lastRowId.value)) == NextEvent(db, first + 1);
  }

  lemma {:induction false} ReturnStaysInStep(db: seq<Row>, begins: nat -> nat, s: State)
    requires InStep(db, begins, s) && CursorCovers(s) && Enabled(s, HandlerReturns)
    ensures var due := Position(db, s.lastRowId.value);
            && NextEvent(db, due) < |db|
            && Position(db, Step(s, HandlerReturns).lastRowId.value) == NextEvent(db, due) + 1
    ensures InStep(db, begins, Step(s, HandlerReturns))
  {
    var t, next := Step(s, HandlerReturns), NextEvent(db, Position(db, s.lastRowId.value));
    PositionAt(db, next);
    if s.session.Some? {
      assert Written(db, begins, t, s.session.value) == Written(db, begins, s, s.session.value);
    }
  }

  /** A step that leaves the rows, the turn and the cursor alone, and ends the session or keeps it. */
  lemma {:induction false} OtherStaysInStep(db: seq<Row>, begins: nat -> nat, s: State, t: State)
    requires InStep(db, begins, s) && t.handler
    requires t.session == s.session || t.session.None?
    requires t.rows == s.rows && t.turn == s.turn && t.lastRowId == s.lastRowId
    requires t.since == s.since && t.sent == s.sent
    ensures InStep(db, begins, t)
  {
    if t.session.Some? {
      var k := t.session.value;
      assert Written(db, begins, t, k) == Written(db, begins, s, k);
    }
  }

  lemma {:induction false} SessionStaysOrEnds(s: State, e: Event)
    requires Enabled(s, e) && !e.Connect? && !e.Notify? && !e.TakeRow? && !e.HandlerReturns? && !e.Unsubscribe?
    ensures var t := Step(s, e);
            && (t.session == s.session || t.session.None?) && (s.handler ==> t.handler)
            && t.rows == s.rows && t.turn == s.turn && t.calls == s.calls && t.lastRowId == s.lastRowId
            && t.since == s.since && t.sent == s.sent
  {
  }

  lemma {:induction false} TakeRowLeavesNoGap(db: seq<Row>, begins: nat -> nat, s: State, k0: nat, base: nat)
    requires Inv(s) && NoGap(db, begins, s, k0, base) && Enabled(s, TakeRow)
    ensures NoGap(db, begins, OnTakeRow(s), k0, base)
  {
    if Stale(s, s.rows[0]) {
      DropStaysInStep(db, begins, s);
      assert OnTakeRow(s) == s.(rows := s.rows[1..]);
    } else {
      TakeDueLeavesNoGap(db, begins, s, Position(db, s.lastRowId.value), k0, base);
    }
  }

  /** The turn of the next row due hands it over, or passes it when it makes no event. */
  lemma {:induction false} TakeDueLeavesNoGap(
      db: seq<Row>, begins: nat -> nat, s: State, due: nat, k0: nat, base: nat)
    requires NoGap(db, begins, s, k0, base) && Enabled(s, TakeRow) && !Stale(s, s.rows[0])
    requires due == Position(db, s.lastRowId.value)
    ensures NoGap(db, begins, OnTakeRow(s), k0, base)
  {
    var first := TakeDueStaysInStep(db, begins, s);
    PositionAt(db, first);
    TakenAgrees(db, s, due, first, k0, base);
  }

  lemma {:induction false} TakenAgrees(db: seq<Row>, s: State, due: nat, first: nat, k0: nat, base: nat)
    requires IsTable(db) && s.handler && Enabled(s, TakeRow) && !Stale(s, s.rows[0])
    requires CallsAgree(db, s, due, k0, base)
    requires due <= first <= NextEvent(db, due) && first < |db| && s.rows[0].row == db[first]
    ensures CallsAgree(db, OnTakeRow(s), if db[first].forHandler then due else first + 1, k0, base)
  {
    if db[first].forHandler {
      assert OnTakeRow(s).calls[base..] == s.calls[base..] + [db[first]];
    } else {
      ForHandlerSkips(db, k0, due, first + 1);
    }
  }

  lemma {:induction false} ReturnLeavesNoGap(db: seq<Row>, begins: nat -> nat, s: State, k0: nat, base: nat)
    requires Inv(s) && NoGap(db, begins, s, k0, base) && Enabled(s, HandlerReturns)
    ensures NoGap(db, begins, Step(s, HandlerReturns), k0, base)
  {
    var due, t := Position(db, s.lastRowId.value), Step(s, HandlerReturns);
    var next := NextEvent(db, due);
    ReturnStaysInStep(db, begins, s);
    ReturnedAgrees(db, s, t, due, next, k0, base);
  }

  lemma {:induction false} ReturnedAgrees(
      db: seq<Row>, s: State, t: State, due: nat, next: nat, k0: nat, base: nat)
    requires next == NextEvent(db, due) < |db| && Running(s) == [db[next]]
    requires CallsAgree(db, s, due, k0, base) && t.turn.NoTurn? && t.calls == s.calls
    ensures CallsAgree(db, t, next + 1, k0, base)
  {
    ForHandlerSkips(db, k0, due, next);
    ForHandlerNext(db, k0, next);
  }

  lemma {:induction false} StepLeavesNoGap(db: seq<Row>, begins: nat -> nat, s: State, e: Event, k0: nat, base: nat)
    requires Inv(s) && NoGap(db, begins, s, k0, base)
    requires Enabled(s, e) && Replays(db, begins, s, e) && !e.Unsubscribe?
    ensures NoGap(db, begins, Step(s, e), k0, base)
  {
    if e.Connect? {
      ConnectStaysInStep(db, begins, s, e.spawns, e.writable);
    } else if e.Notify? {
      NotifyStaysInStep(db, begins, s, e.session, e.row);
    } else if e.TakeRow? {
      TakeRowLeavesNoGap(db, begins, s, k0, base);
    } else if e.HandlerReturns? {
      ReturnLeavesNoGap(db, begins, s, k0, base);
    } else {
      SessionStaysOrEnds(s, e);
      OtherStaysInStep(db, begins, s, Step(s, e));
    }
  }

  lemma {:induction false} RunsLeaveNoGap(
      db: seq<Row>, begins: nat -> nat, s: State, events: seq<Event>, k0: nat, base: nat)
    requires Inv(s) && NoGap(db, begins, s, k0, base)
    requires Possible(s, events) && Faithful(db, begins, s, events)
    ensures NoGap(db, begins, After(s, events), k0, base)
    decreases |events|
  {
    if events != [] {
      StepLeavesNoGap(db, begins, s, events[0], k0, base);
      StepKeeps(s, events[0]);
      RunsLeaveNoGap(db, begins, Step(s, events[0]), events[1..], k0, base);
    }
  }

  /** How many handler calls are over. */
  function FinishedCalls(s: State): int {
    if s.turn.InHandler? then |s.calls| - 1 else |s.calls|
  }

  /**
   From any reachable state with a cursor whose handler and current child are in step with it, over
   every further run in which the children replay the table and the handler stays: the handler is
   called with exactly the rows after that cursor up to the present one, once each, in order. A state
   with no session is in step as soon as the row still in its handler, if any, is the next one due.
   */
  lemma {:induction false} EveryRowOnce(
      db: seq<Row>, begins: nat -> nat, past: seq<Event>, s: State, events: seq<Event>, t: State)
    requires Possible(INITIAL, past) && s == After(INITIAL, past) && InStep(db, begins, s)
    requires Possible(s, events) && Faithful(db, begins, s, events) && t == After(s, events)
    ensures InStep(db, begins, t) && 0 <= FinishedCalls(s) <= |t.calls|
    ensures var from, upto := Position(db, s.lastRowId.value), Position(db, t.lastRowId.value);
            from <= upto && t.calls[FinishedCalls(s)..] == ForHandler(db[from..upto]) + Running(t)
  {
    RunsKeep(INITIAL, past);
    var from := Position(db, s.lastRowId.value);
    assert db[from..from] == [];
    assert s.calls[FinishedCalls(s)..] == Running(s);
    RunsLeaveNoGap(db, begins, s, events, from, FinishedCalls(s));
  }

  /** The present child wrote the whole table and its rows had their turn. */
  ghost predicate Drained(db: seq<Row>, begins: nat -> nat, t: State)
    requires IsTable(db)
  {
    && t.turn.NoTurn? && t.session.Some? && t.session.value < |t.since| == |t.sent|
    && Queued(t.rows, t.session.value) == [] && Written(db, begins, t, t.session.value) == |db|
  }

  lemma {:induction false} NothingLeft(db: seq<Row>, begins: nat -> nat, t: State, k0: nat, base: nat)
    requires NoGap(db, begins, t, k0, base) && Drained(db, begins, t)
    ensures k0 <= |db| && base <= |t.calls| && t.calls[base..] == ForHandler(db[k0..])
  {
    NoEventLeft(db, t, Position(db, t.lastRowId.value), k0, base);
  }

  lemma {:induction false} NoEventLeft(db: seq<Row>, t: State, due: nat, k0: nat, base: nat)
    requires CallsAgree(db, t, due, k0, base) && t.turn.NoTurn? && |db| <= NextEvent(db, due)
    ensures t.calls[base..] == ForHandler(db[k0..])
  {
    ForHandlerSkips(db, k0, due, |db|);
    assert db[k0..|db|] == db[k0..];
  }

  /** Once the present child has written the whole table and its rows have had their turn, none is missing. */
  lemma {:induction false} CaughtUp(
      db: seq<Row>, begins: nat -> nat, past: seq<Event>, s: State, events: seq<Event>, t: State)
    requires Possible(INITIAL, past) && s == After(INITIAL, past) && InStep(db, begins, s)
    requires Possible(s, events) && Faithful(db, begins, s, events) && t == After(s, events)
    requires Drained(db, begins, t)
    ensures 0 <= FinishedCalls(s) <= |t.calls|
    ensures t.calls[FinishedCalls(s)..] == ForHandler(db[Position(db, s.lastRowId.value)..])
  {
    EveryRowOnce(db, begins, past, s, events, t);
    NothingLeft(db, begins, t, Position(db, s.lastRowId.value), FinishedCalls(s));
  }

  /** A `connect()` nothing disturbs, from any reachable state with none pending, is connected after the cursor. */
  lemma {:induction false} UndisturbedConnects(past: seq<Event>, s: State) returns (t: State)
    requires Possible(INITIAL, past) && s == After(INITIAL, past)
    requires !s.connected && s.connecting.None?
    ensures var quiet := [Event.Connect(true, true)] + [SubscribeSettles(true)] + [OpenResumes];
            Possible(s, quiet) && t == After(s, quiet)
    ensures t.connected && t.session == Some(|s.since|) && t.since == s.since + [s.lastRowId] && t.open == {|s.since|}
  {
    RunsKeep(INITIAL, past);
    var e1, e2 := Event.Connect(true, true), SubscribeSettles(true);
    var s1 := Step(s, e1);
    var s2 := Step(s1, e2);
    t := Step(s2, OpenResumes);
    Extend(s, [], s, e1);
    assert [] + [e1] == [e1];
    Extend(s, [e1], s1, e2);
    Extend(s, [e1] + [e2], s2, OpenResumes);
  }

  // ---- the first cursor ----

  /** A child started while the first row ever is still in its handler, and so without a cursor. */
  predicate BlindRestart(s: State, e: Event) {
    && e.Connect? && e.spawns && !s.connected && s.connecting.None?
    && s.lastRowId.None? && s.turn.InHandler?
  }

  /** Such a child begins past row `i`, an event that came after the running row. */
  ghost predicate JumpsOver(db: seq<Row>, begins: nat -> nat, s: State, e: Event, i: nat) {
    && BlindRestart(s, e)
    && begins(s.turn.item.session) < i < begins(|s.since|) && i < |db| && db[i].forHandler
  }

  ghost predicate Jumps(db: seq<Row>, begins: nat -> nat, s: State, e: Event) {
    exists i :: JumpsOver(db, begins, s, e, i)
  }

  ghost predicate NoJump(db: seq<Row>, begins: nat -> nat, s: State, events: seq<Event>)
    requires Possible(s, events)
    decreases |events|
  {
    events == [] ||
    (!Jumps(db, begins, s, events[0]) && NoJump(db, begins, Step(s, events[0]), events[1..]))
  }

  /** No cursor yet: no call is over, and until the first one the current child's rows wait from its start on. */
  ghost predicate FirstTurn(db: seq<Row>, begins: nat -> nat, s: State) {
    && IsTable(db) && s.handler && s.lastRowId.None?
    && (forall k :: 0 <= k < |s.since| ==> s.since[k].None?)
    && s.calls == Running(s)
    && (s.turn.InHandler? ==>
          begins(s.turn.item.session) < |db| && s.turn.item.row == db[begins(s.turn.item.session)])
    && (s.session.Some? ==>
          && s.session.value < |s.since| == |s.sent|
          && (s.turn.NoTurn? ==> FromStart(db, begins, s, s.session.value)))
  }

  /** All the child wrote is waiting. */
  ghost predicate FromStart(db: seq<Row>, begins: nat -> nat, s: State, k: nat)
    requires k < |s.sent|
  {
    begins(k) + s.sent[k] <= |db| && Queued(s.rows, k) == db[begins(k)..begins(k) + s.sent[k]]
  }

  /** No event lies between the running first row and what waits of the child's rows. */
  ghost predicate Follows(db: seq<Row>, begins: nat -> nat, s: State, k: nat)
    requires s.turn.InHandler? && k < |s.sent|
  {
    Stretch(db, Queued(s.rows, k), begins(k) + s.sent[k], NextEvent(db, begins(s.turn.item.session) + 1))
  }

  ghost predicate NotYet(db: seq<Row>, begins: nat -> nat, s: State) {
    && FirstTurn(db, begins, s)
    && (s.turn.InHandler? && s.session.Some? ==> Follows(db, begins, s, s.session.value))
  }

  /** The first row to have its turn is the one its child started with. */
  lemma {:induction false} FirstRow(db: seq<Row>, begins: nat -> nat, s: State, k: nat)
    requires Inv(s) && FirstTurn(db, begins, s) && Enabled(s, TakeRow)
    requires s.session == Some(k) && s.rows[0].session == k
    ensures begins(k) < |db| && s.rows[0].row == db[begins(k)] && !Stale(s, s.rows[0])
    ensures Stretch(db, Queued(s.rows[1..], k), begins(k) + s.sent[k], begins(k) + 1)
  {
    var waiting, k0 := Queued(s.rows, k), begins(k);
    assert waiting[0] == s.rows[0].row && waiting[1..] == Queued(s.rows[1..], k);
    assert waiting[0] == db[k0] && waiting[1..] == db[k0 + 1..k0 + s.sent[k]];
  }

  lemma {:induction false} FirstTake(db: seq<Row>, begins: nat -> nat, s: State) returns (k0: nat)
    requires Inv(s) && NotYet(db, begins, s) && Enabled(s, TakeRow)
    ensures NotYet(db, begins, OnTakeRow(s)) || NoGap(db, begins, OnTakeRow(s), k0, 0)
  {
    var head := s.rows[0];
    k0 := begins(head.session);
    if s.session == Some(head.session) {
      FirstRowTaken(db, begins, s, head.session);
    } else if s.session.Some? {
      QueuedForeign(s.rows, s.session.value);
    }
  }

  lemma {:induction false} FirstRowTaken(db: seq<Row>, begins: nat -> nat, s: State, k: nat)
    requires Inv(s) && NotYet(db, begins, s) && Enabled(s, TakeRow)
    requires s.session == Some(k) && s.rows[0].session == k
    ensures NotYet(db, begins, OnTakeRow(s)) || NoGap(db, begins, OnTakeRow(s), begins(k), 0)
  {
    FirstRow(db, begins, s, k);
    if !s.rows[0].row.forHandler { FirstCursorSet(db, begins, OnTakeRow(s), begins(k)); }
  }

  /** The cursor was just set by the first row, and no event lies between it and the rows of the current child. */
  lemma {:induction false} FirstCursorSet(db: seq<Row>, begins: nat -> nat, t: State, k0: nat)
    requires IsTable(db) && k0 < |db| && t.handler && t.lastRowId == db[k0].id && t.turn.NoTurn?
    requires t.calls == if db[k0].forHandler then [db[k0]] else []
    requires t.session.Some? ==>
               && t.session.value < |t.since| == |t.sent| && t.since[t.session.value].None?
               && Stretch(db, Queued(t.rows, t.session.value), begins(t.session.value) + t.sent[t.session.value],
                          NextEvent(db, k0 + 1))
    ensures NoGap(db, begins, t, k0, 0)
  {
    PositionAt(db, k0);
    FirstRowOnly(db, k0);
    if t.session.Some? {
      var k := t.session.value;
      assert Written(db, begins, t, k) == begins(k) + t.sent[k];
    }
    assert t.calls[0..] == t.calls;
  }

  lemma {:induction false} FirstRowOnly(db: seq<Row>, k0: nat)
    requires k0 < |db|
    ensures ForHandler(db[k0..k0 + 1]) == if db[k0].forHandler then [db[k0]] else []
  {
    ForHandlerNext(db, k0, k0);
    assert db[k0..k0] == [];
  }

  lemma {:induction false} FirstReturn(db: seq<Row>, begins: nat -> nat, s: State) returns (k0: nat)
    requires Inv(s) && NotYet(db, begins, s) && Enabled(s, HandlerReturns)
    ensures NoGap(db, begins, Step(s, HandlerReturns), k0, 0)
  {
    k0 := begins(s.turn.item.session);
    FirstCursorSet(db, begins, Step(s, HandlerReturns), k0);
  }

  lemma {:induction false} FirstConnect(db: seq<Row>, begins: nat -> nat, s: State, e: Event)
    requires Inv(s) && FirstTurn(db, begins, s) && e.Connect? && forall k :: begins(k) <= |db|
    ensures FirstTurn(db, begins, Step(s, e))
    ensures NotYet(db, begins, s) && !Jumps(db, begins, s, e) ==> NotYet(db, begins, Step(s, e))
  {
    var t := Step(s, e);
    if t.session != s.session {
      var k := t.session.value;
      QueuedNone(s.rows, k);
      assert db[begins(k)..begins(k)] == [];
      if s.turn.InHandler? && !Jumps(db, begins, s, e) {
        var next := NextEvent(db, begins(s.turn.item.session) + 1);
        assert next < begins(k) ==> JumpsOver(db, begins, s, e, next);
      }
    }
  }

  lemma {:induction false} FirstNotify(db: seq<Row>, begins: nat -> nat, s: State, e: Event)
    requires OneSession(s) && FirstTurn(db, begins, s) && e.Notify? && Enabled(s, e) && Replays(db, begins, s, e)
    ensures FirstTurn(db, begins, Step(s, e))
    ensures NotYet(db, begins, s) ==> NotYet(db, begins, Step(s, e))
  {
    var k := e.session;
    assert s.session == Some(k) && Written(db, begins, s, k) == begins(k) + s.sent[k];
    if s.turn.NoTurn? {
      FirstWaits(db, begins, s, k, e.row);
    } else if NotYet(db, begins, s) {
      FirstFollows(db, begins, s, k, e.row, begins(k) + s.sent[k]);
    }
  }

  lemma {:induction false} FirstWaits(db: seq<Row>, begins: nat -> nat, s: State, k: nat, row: Row)
    requires FirstTurn(db, begins, s) && Enabled(s, Notify(k, row)) && s.turn.NoTurn? && s.session == Some(k)
    requires begins(k) + s.sent[k] < |db| && row == db[begins(k) + s.sent[k]]
    ensures FirstTurn(db, begins, Step(s, Notify(k, row)))
  {
    QueuedAppend(s.rows, Item(k, row), k);
    SlicePush(db, begins(k), begins(k) + s.sent[k]);
  }

  lemma {:induction false} FirstFollows(db: seq<Row>, begins: nat -> nat, s: State, k: nat, row: Row, written: nat)
    requires Enabled(s, Notify(k, row)) && s.turn.InHandler? && Follows(db, begins, s, k)
    requires written == begins(k) + s.sent[k] < |db| && row == db[written]
    ensures Follows(db, begins, Step(s, Notify(k, row)), k)
  {
    QueuedAppend(s.rows, Item(k, row), k);
    StretchPush(db, Queued(s.rows, k), written, NextEvent(db, begins(s.turn.item.session) + 1));
    assert begins(k) + Step(s, Notify(k, row)).sent[k] == written + 1;
  }

  lemma {:induction false} SlicePush(db: seq<Row>, from: nat, upto: nat)
    requires from <= upto < |db|
    ensures db[from..upto] + [db[upto]] == db[from..upto + 1]
  {
  }

  /** A step that leaves the rows, the turn and the cursor alone, and ends the session or keeps it. */
  lemma {:induction false} FirstOther(db: seq<Row>, begins: nat -> nat, s: State, t: State)
    requires NotYet(db, begins, s) && t.handler && (t.session == s.session || t.session.None?)
    requires t.rows == s.rows && t.turn == s.turn && t.lastRowId == s.lastRowId
    requires t.since == s.since && t.sent == s.sent && t.calls == s.calls
    ensures NotYet(db, begins, t)
  {
  }

  /** One step before the first cursor. */
  lemma {:induction false} FirstStep(db: seq<Row>, begins: nat -> nat, s: State, e: Event) returns (k0: nat)
    requires Inv(s) && NotYet(db, begins, s) && forall k :: begins(k) <= |db|
    requires Enabled(s, e) && Replays(db, begins, s, e) && !e.Unsubscribe? && !Jumps(db, begins, s, e)
    ensures NotYet(db, begins, Step(s, e)) || NoGap(db, begins, Step(s, e), k0, 0)
  {
    k0 := 0;
    var t := Step(s, e);
    if e.TakeRow? {
      k0 := FirstTake(db, begins, s);
    } else if e.HandlerReturns? {
      k0 := FirstReturn(db, begins, s);
    } else if e.Connect? {
      FirstConnect(db, begins, s, e);
    } else if e.Notify? {
      FirstNotify(db, begins, s, e);
    } else {
      SessionStaysOrEnds(s, e);
      FirstOther(db, begins, s, t);
    }
  }

  lemma {:induction false} RunsFromTheStart(db: seq<Row>, begins: nat -> nat, s: State, events: seq<Event>)
    returns (k0: nat)
    requires Inv(s) && NotYet(db, begins, s) && forall k :: begins(k) <= |db|
    requires Possible(s, events) && Faithful(db, begins, s, events) && NoJump(db, begins, s, events)
    ensures NotYet(db, begins, After(s, events)) || NoGap(db, begins, After(s, events), k0, 0)
    decreases |events|
  {
    k0 := 0;
    if events != [] {
      var t := Step(s, events[0]);
      k0 := FirstStep(db, begins, s, events[0]);
      StepKeeps(s, events[0]);
      if NotYet(db, begins, t) {
        k0 := RunsFromTheStart(db, begins, t, events[1..]);
      } else {
        RunsLeaveNoGap(db, begins, t, events[1..], k0, 0);
      }
    }
  }

  /** The adapter's life: a handler is subscribed first and stays, and the children replay the table. */
  ghost predicate Serves(db: seq<Row>, begins: nat -> nat, events: seq<Event>, t: State)
    requires IsTable(db)
  {
    var s := Step(INITIAL, OnInbound);
    Possible(s, events) && Faithful(db, begins, s, events) && t == After(s, events)
  }

  ghost predicate NeverJumps(db: seq<Row>, begins: nat -> nat, events: seq<Event>) {
    var s := Step(INITIAL, OnInbound);
    Possible(s, events) && NoJump(db, begins, s, events)
  }

  /**
   From the adapter's creation, first session included, over every run in which no child jumps over an
   event: the handler is called with exactly the rows from the first one it got up to the present one,
   once each, in order, and with all of them once the present child wrote the whole table.
   */
  lemma {:induction false} EveryRowFromTheFirst(db: seq<Row>, begins: nat -> nat, events: seq<Event>, t: State)
    returns (k0: nat)
    requires IsTable(db) && forall k :: begins(k) <= |db|
    requires Serves(db, begins, events, t) && NeverJumps(db, begins, events)
    ensures t.lastRowId.None? ==> t.calls == Running(t)
    ensures t.lastRowId.Some? ==>
              && InStep(db, begins, t) && k0 <= Position(db, t.lastRowId.value)
              && t.calls == ForHandler(db[k0..Position(db, t.lastRowId.value)]) + Running(t)
              && (Drained(db, begins, t) ==> t.calls == ForHandler(db[k0..]))
  {
    k0 := RunsFromTheStart(db, begins, Step(INITIAL, OnInbound), events);
    assert t.calls[0..] == t.calls;
    if t.lastRowId.Some? && Drained(db, begins, t) { NothingLeft(db, begins, t, k0, 0); }
  }

  // ---- a child that jumps over an event ----

  /**
   Event `i` was skipped: it came after the first row handed over, and was not handed over although the
   cursor is past it or the present child has nothing left to write.
   */
  ghost predicate Skipped(db: seq<Row>, begins: nat -> nat, t: State, i: nat)
    requires IsTable(db)
  {
    && i < |db| && db[i].forHandler && db[i] !in t.calls
    && t.calls != [] && t.calls[0].id.Some? && t.calls[0].id.value < db[i].id.value
    && ((t.lastRowId.Some? && db[i].id.value <= t.lastRowId.value) || Drained(db, begins, t))
  }

  lemma {:induction false} ForHandlerHas(rows: seq<Row>, row: Row)
    ensures row in ForHandler(rows) <==> row in rows && row.forHandler
  {
    if rows != [] {
      ForHandlerHas(rows[..|rows| - 1], row);
      assert rows == rows[..|rows| - 1] + [rows[|rows| - 1]];
    }
  }

  lemma {:induction false} NoneSkipped(db: seq<Row>, begins: nat -> nat, events: seq<Event>, t: State, i: nat)
    requires IsTable(db) && forall k :: begins(k) <= |db|
    requires Serves(db, begins, events, t) && NeverJumps(db, begins, events)
    ensures !Skipped(db, begins, t, i)
  {
    var k0 := EveryRowFromTheFirst(db, begins, events, t);
    if Skipped(db, begins, t, i) && t.lastRowId.Some? {
      NotSkipped(db, begins, t, k0, i);
    }
  }

  lemma {:induction false} NotSkipped(db: seq<Row>, begins: nat -> nat, t: State, k0: nat, i: nat)
    requires InStep(db, begins, t) && k0 <= Position(db, t.lastRowId.value)
    requires t.calls == ForHandler(db[k0..Position(db, t.lastRowId.value)]) + Running(t)
    requires Drained(db, begins, t) ==> t.calls == ForHandler(db[k0..])
    requires i < |db| && t.calls != [] && t.calls[0].id.Some? && t.calls[0].id.value < db[i].id.value
    requires db[i].forHandler
    requires db[i].id.value <= t.lastRowId.value || Drained(db, begins, t)
    ensures db[i] in t.calls
  {
    var due := Position(db, t.lastRowId.value);
    var upto := if Drained(db, begins, t) then |db| else due;
    assert db[k0..|db|] == db[k0..];
    FirstIsLater(db, t, k0, due);
    assert k0 <= i < upto;
    assert db[k0..upto][i - k0] == db[i];
    ForHandlerHas(db[k0..upto], db[i]);
  }

  /** The first call is of a row from index `k0` on. */
  lemma {:induction false} FirstIsLater(db: seq<Row>, t: State, k0: nat, due: nat)
    requires IsTable(db) && k0 <= due <= |db| && TurnIsDue(db, t, due)
    requires t.calls == ForHandler(db[k0..due]) + Running(t) && t.calls != [] && t.calls[0].id.Some?
    ensures forall i :: 0 <= i < |db| && t.calls[0].id.value < db[i].id.value ==> k0 <= i
  {
    var row := t.calls[0];
    var n: nat;
    if ForHandler(db[k0..due]) == [] {
      n := NextEvent(db, due);
    } else {
      assert row in ForHandler(db[k0..due]);
      ForHandlerHas(db[k0..due], row);
      var j :| 0 <= j < due - k0 && db[k0..due][j] == row;
      n := k0 + j;
    }
    assert db[n] == row && k0 <= n;
  }

  lemma {:induction false} FaithfulChain(
      db: seq<Row>, begins: nat -> nat, s: State, es: seq<Event>, t: State, fs: seq<Event>)
    requires IsTable(db) && Possible(s, es) && Faithful(db, begins, s, es) && After(s, es) == t
    requires Possible(t, fs) && Faithful(db, begins, t, fs)
    ensures Possible(s, es + fs) && Faithful(db, begins, s, es + fs) && After(s, es + fs) == After(t, fs)
    decreases |es|
  {
    if es == [] {
      assert es + fs == fs;
    } else {
      FaithfulChain(db, begins, Step(s, es[0]), es[1..], t, fs);
      assert (es + fs)[0] == es[0] && (es + fs)[1..] == es[1..] + fs;
    }
  }

  lemma {:induction false} FaithfulExtends(
      db: seq<Row>, begins: nat -> nat, s0: State, es: seq<Event>, s: State, e: Event)
    requires IsTable(db) && Possible(s0, es) && Faithful(db, begins, s0, es) && After(s0, es) == s && Enabled(s, e)
    requires Replays(db, begins, s, e) && !e.Unsubscribe?
    ensures Possible(s0, es + [e]) && After(s0, es + [e]) == Step(s, e) && Faithful(db, begins, s0, es + [e])
  {
    assert [e][1..] == [];
    FaithfulChain(db, begins, s0, es, s, [e]);
  }

  lemma {:induction false} TurnStaysFirst(db: seq<Row>, begins: nat -> nat, s: State, e: Event)
    requires Inv(s) && FirstTurn(db, begins, s) && forall k :: begins(k) <= |db|
    requires Enabled(s, e) && Replays(db, begins, s, e) && !e.Unsubscribe?
    ensures Step(s, e).lastRowId.Some? || FirstTurn(db, begins, Step(s, e))
  {
    if e.TakeRow? {
      if s.session == Some(s.rows[0].session) {
        FirstRow(db, begins, s, s.rows[0].session);
      } else if s.session.Some? {
        QueuedForeign(s.rows, s.session.value);
      }
    } else if e.Connect? {
      FirstConnect(db, begins, s, e);
    } else if e.Notify? {
      FirstNotify(db, begins, s, e);
    } else if !e.HandlerReturns? {
      SessionStaysOrEnds(s, e);
    }
  }

  lemma {:induction false} RunsTurnFirst(db: seq<Row>, begins: nat -> nat, s: State, events: seq<Event>)
    requires Inv(s) && (s.lastRowId.Some? || FirstTurn(db, begins, s)) && forall k :: begins(k) <= |db|
    requires IsTable(db) && Possible(s, events) && Faithful(db, begins, s, events)
    ensures After(s, events).lastRowId.Some? || FirstTurn(db, begins, After(s, events))
    decreases |events|
  {
    if events != [] {
      StepKeeps(s, events[0]);
      if s.lastRowId.None? { TurnStaysFirst(db, begins, s, events[0]); }
      RunsTurnFirst(db, begins, Step(s, events[0]), events[1..]);
    }
  }

  /** Rows of ended sessions at the head of the queue are dropped. */
  lemma {:induction false} OldRowsDrop(db: seq<Row>, begins: nat -> nat, s: State, gone: seq<Item>, rows: seq<Item>)
    returns (events: seq<Event>)
    requires IsTable(db) && s.rows == gone + rows && s.turn.NoTurn? && s.session.Some?
    requires forall i :: 0 <= i < |gone| ==> gone[i].session < s.session.value
    ensures Possible(s, events) && Faithful(db, begins, s, events) && After(s, events) == s.(rows := rows)
    decreases |gone|
  {
    events := [];
    if gone == [] {
      assert s.rows == rows;
    } else {
      assert s.rows[0] == gone[0] && s.rows[1..] == gone[1..] + rows;
      var rest := OldRowsDrop(db, begins, Step(s, TakeRow), gone[1..], rows);
      events := [TakeRow] + rest;
      assert events[0] == TakeRow && events[1..] == rest;
    }
  }

  /** Once the second child is connected, and before it wrote anything. */
  function Replaced(s: State): State {
    s.(session := Some(|s.since|), connected := true, connecting := Some(Done(true)),
       since := s.since + [None], sent := s.sent + [0], open := s.open + {|s.since|})
  }

  lemma {:induction false} BlindConnects(db: seq<Row>, begins: nat -> nat, s: State) returns (events: seq<Event>)
    requires IsTable(db) && Inv(s) && BlindRestart(s, Event.Connect(true, true))
    ensures Possible(s, events) && Faithful(db, begins, s, events) && After(s, events) == Replaced(s)
  {
    var e1, e2 := Event.Connect(true, true), SubscribeSettles(true);
    var s1 := Step(s, e1);
    var s2 := Step(s1, e2);
    FaithfulExtends(db, begins, s, [], s, e1);
    FaithfulExtends(db, begins, s, [] + [e1], s1, e2);
    FaithfulExtends(db, begins, s, [] + [e1] + [e2], s2, OpenResumes);
    events := [] + [e1] + [e2] + [OpenResumes];
  }

  /** A child that begins at the end of the table writes nothing: what it jumped over is missing. */
  lemma {:induction false} NothingWritten(db: seq<Row>, begins: nat -> nat, s: State, k0: nat)
    returns (events: seq<Event>, t: State)
    requires IsTable(db) && Inv(s) && s.turn.InHandler? && k0 < |db| && s.turn.item.row == db[k0]
    requires s.session == Some(|s.since| - 1) && s.lastRowId.None? && |s.since| == |s.sent|
    requires s.since[|s.since| - 1].None? && s.sent[|s.since| - 1] == 0 && begins(|s.since| - 1) == |db|
    requires forall i :: 0 <= i < |s.rows| ==> s.rows[i].session < |s.since| - 1
    ensures Possible(s, events) && Faithful(db, begins, s, events) && t == After(s, events)
    ensures t == s.(turn := NoTurn, lastRowId := db[k0].id, rows := []) && Drained(db, begins, t)
  {
    var s1 := Step(s, HandlerReturns);
    FaithfulExtends(db, begins, s, [], s, HandlerReturns);
    assert s1.rows == s1.rows + [];
    var drops := OldRowsDrop(db, begins, s1, s1.rows, []);
    FaithfulChain(db, begins, s, [] + [HandlerReturns], s1, drops);
    events := [] + [HandlerReturns] + drops;
    t := s1.(rows := []);
    assert Written(db, begins, t, |s.since| - 1) == |db|;
  }

  /** Otherwise its first row has its turn, and the cursor passes what it jumped over. */
  lemma {:induction false} FirstOfReplaced(db: seq<Row>, begins: nat -> nat, s: State, k0: nat, b: nat)
    returns (events: seq<Event>, t: State)
    requires IsTable(db) && Inv(s) && s.turn.InHandler? && k0 < b < |db| && s.turn.item.row == db[k0]
    requires s.session == Some(|s.since| - 1) && s.lastRowId.None? && |s.since| == |s.sent| && s.handler
    requires s.since[|s.since| - 1].None? && s.sent[|s.since| - 1] == 0 && begins(|s.since| - 1) == b
    requires forall i :: 0 <= i < |s.rows| ==> s.rows[i].session < |s.since| - 1
    ensures Possible(s, events) && Faithful(db, begins, s, events) && t == After(s, events)
    ensures t.turn.NoTurn? && t.lastRowId == db[b].id && t.connected == s.connected
    ensures t.calls == s.calls + (if db[b].forHandler then [db[b]] else [])
  {
    var k := |s.since| - 1;
    var e, s1 := Notify(k, db[b]), s.(rows := s.rows + [Item(k, db[b])], sent := s.sent[k := 1]);
    assert Written(db, begins, s, k) == b;
    FaithfulExtends(db, begins, s, [], s, e);
    var s2 := Step(s1, HandlerReturns);
    FaithfulExtends(db, begins, s, [] + [e], s1, HandlerReturns);
    var drops := OldRowsDrop(db, begins, s2, s.rows, [Item(k, db[b])]);
    FaithfulChain(db, begins, s, [] + [e] + [HandlerReturns], s2, drops);
    var es, s3 := [] + [e] + [HandlerReturns] + drops, s2.(rows := [Item(k, db[b])]);
    assert db[k0].id.value < db[b].id.value;
    t := Step(s3, TakeRow);
    FaithfulExtends(db, begins, s, es, s3, TakeRow);
    events := es + [TakeRow];
    if db[b].forHandler {
      FaithfulExtends(db, begins, s, events, t, HandlerReturns);
      events := events + [HandlerReturns];
      t := Step(t, HandlerReturns);
    }
  }

  /** From every state where a child that jumps over event `i` can start, one run leaves `i` skipped. */
  lemma {:induction false} JumpSkips(db: seq<Row>, begins: nat -> nat, past: seq<Event>, s: State, i: nat)
    returns (events: seq<Event>, t: State)
    requires IsTable(db) && forall k :: begins(k) <= |db|
    requires Serves(db, begins, past, s) && JumpsOver(db, begins, s, Event.Connect(true, true), i)
    ensures Possible(s, events) && Faithful(db, begins, s, events) && t == After(s, events)
    ensures t.connected && Skipped(db, begins, t, i)
    ensures begins(|s.since|) < |db| ==> forall more :: Possible(t, more) ==> db[i] !in After(t, more).calls
  {
    var start := Step(INITIAL, OnInbound);
    RunsKeep(start, past);
    RunsTurnFirst(db, begins, start, past);
    var k0, b, s1 := begins(s.turn.item.session), begins(|s.since|), Replaced(s);
    var opens := BlindConnects(db, begins, s);
    var rest: seq<Event>;
    RunsKeep(s, opens);
    assert db[k0].id.value < db[i].id.value;
    if b == |db| {
      rest, t := NothingWritten(db, begins, s1, k0);
    } else {
      assert db[i].id.value < db[b].id.value;
      rest, t := FirstOfReplaced(db, begins, s1, k0, b);
      RunsKeep(s1, rest);
      forall more | Possible(t, more)
        ensures db[i] !in After(t, more).calls
      {
        SkippedForGood(db, k0, b, i, t, more);
      }
    }
    FaithfulChain(db, begins, s, opens, s1, rest);
    events := opens + rest;
  }

  /** Every call after a moment is of a row past the cursor of that moment. */
  lemma {:induction false} CallsAbove(s: State, events: seq<Event>, calls: seq<Row>, cursor: int)
    requires Possible(s, events) && s.lastRowId.Some? && cursor <= s.lastRowId.value
    requires calls <= s.calls && forall j :: |calls| <= j < |s.calls| ==> Before(Some(cursor), s.calls[j].id)
    ensures var later := After(s, events).calls;
            calls <= later && forall j :: |calls| <= j < |later| ==> Before(Some(cursor), later[j].id)
    decreases |events|
  {
    if events != [] {
      CallsAbove(Step(s, events[0]), events[1..], calls, cursor);
    }
  }

  lemma {:induction false} SkippedForGood(db: seq<Row>, a: nat, b: nat, i: nat, t: State, more: seq<Event>)
    requires IsTable(db) && a < i < b < |db| && Possible(t, more) && t.lastRowId == db[b].id
    requires t.calls == [db[a]] + (if db[b].forHandler then [db[b]] else [])
    ensures db[i] !in After(t, more).calls
  {
    CallsAbove(t, more, t.calls, db[b].id.value);
    var later := After(t, more).calls;
    assert db[a].id.value < db[i].id.value < db[b].id.value;
    forall j | 0 <= j < |later|
      ensures later[j] != db[i]
    {
      assert j < |t.calls| ==> later[j] == t.calls[j];
    }
  }

  /** The first child of a run that jumps. */
  lemma {:induction false} FirstJump(db: seq<Row>, begins: nat -> nat, s: State, events: seq<Event>)
    returns (past: seq<Event>, t: State, i: nat)
    requires IsTable(db) && Possible(s, events) && Faithful(db, begins, s, events) && !NoJump(db, begins, s, events)
    ensures Possible(s, past) && Faithful(db, begins, s, past) && t == After(s, past)
    ensures JumpsOver(db, begins, t, Event.Connect(true, true), i)
    decreases |events|
  {
    if Jumps(db, begins, s, events[0]) {
      i :| JumpsOver(db, begins, s, events[0], i);
      past, t := [], s;
    } else {
      var rest;
      rest, t, i := FirstJump(db, begins, Step(s, events[0]), events[1..]);
      past := [events[0]] + rest;
      assert past[0] == events[0] && past[1..] == rest;
    }
  }

  /** Whatever the table: a run can skip an event if and only if a run can start a child that jumps over one. */
  lemma {:induction false} SkipsExactlyWhenJumping(db: seq<Row>, begins: nat -> nat)
    requires IsTable(db) && forall k :: begins(k) <= |db|
    ensures (exists events, t, i :: Serves(db, begins, events, t) && Skipped(db, begins, t, i)) <==>
            (exists events, t :: Serves(db, begins, events, t) && !NeverJumps(db, begins, events))
  {
    if events, t, i :| Serves(db, begins, events, t) && Skipped(db, begins, t, i) {
      if NeverJumps(db, begins, events) { NoneSkipped(db, begins, events, t, i); }
    }
    if events, t :| Serves(db, begins, events, t) && !NeverJumps(db, begins, events) {
      var past, s, i := FirstJump(db, begins, Step(INITIAL, OnInbound), events);
      var more, u := JumpSkips(db, begins, past, s, i);
      FaithfulChain(db, begins, Step(INITIAL, OnInbound), past, s, more);
      assert Serves(db, begins, past + more, u);
    }
  }

  // ---- the class ----

  class IMessageAdapter {
    var session: Option<nat>
    var handler: bool
    var connected: bool
    var connecting: Option<Opening>
    var lastRowId: Option<int>
    var rows: seq<Item>
    var turn: Turn
    var since: seq<Option<int>>
    var open: set<nat>
    ghost var sent: seq<nat>
    ghost var calls: seq<Row>
    ghost var events: seq<Event>  // everything that happened to this object

    ghost function View(): State
      reads this
    {
      State(session, handler, connected, connecting, lastRowId, rows, turn, since, sent, open, calls)
    }

    ghost predicate Valid()
      reads this
    {
      Possible(INITIAL, events) && View() == After(INITIAL, events)
    }

    constructor ()
      ensures Valid() && View() == INITIAL
    {
      session, handler, connected, connecting, lastRowId := None, false, false, None, None;
      rows, turn, since, open, sent, calls, events := [], NoTurn, [], {}, [], [], [];
    }

    /** `connect()`: answer at once, share the pending start, or start a child (lines 74-82, 175-182). */
    method Connect(spawns: bool, writable: bool) returns (answer: Option<bool>)
      requires Valid()
      modifies this
      ensures Valid() && View() == Step(old(View()), Event.Connect(spawns, writable))
      ensures events == old(events) + [Event.Connect(spawns, writable)]
      ensures answer == if old(connected) then Some(true) else None
    {
      RunsKeep(INITIAL, events);
      Extend(INITIAL, events, View(), Event.Connect(spawns, writable));
      events := events + [Event.Connect(spawns, writable)];
      if connected { return Some(true); }
      answer := None;
      if connecting.Some? { return; }
      if !spawns {
        connecting := Some(Done(false));
        return;
      }
      var k := StartChild();
      connecting := Some(if writable then Waiting(k) else Answered(k, false));
    }

    method StartChild() returns (k: nat)
      requires |since| == |sent|
      modifies this`session, this`since, this`sent, this`open
      ensures k == |old(since)| && session == Some(k) && open == old(open) + {k}
      ensures since == old(since) + [lastRowId] && sent == old(sent) + [0]
    {
      k := |since|;
      session, open := Some(k), open + {k};
      since, sent := since + [lastRowId], sent + [0];
    }

    /** The answer to `watch.subscribe`, or its timeout. */
    method OnSubscribeAnswer(granted: bool)
      requires Valid() && Enabled(View(), SubscribeSettles(granted))
      modifies this
      ensures Valid() && View() == Step(old(View()), SubscribeSettles(granted))
      ensures events == old(events) + [SubscribeSettles(granted)]
    {
      Extend(INITIAL, events, View(), SubscribeSettles(granted));
      events := events + [SubscribeSettles(granted)];
      connecting := Some(Answered(connecting.value.session, granted));
    }

    /** `openSession` resumes (lines 183-190). */
    method ResumeOpen()
      requires Valid() && Enabled(View(), OpenResumes)
      modifies this
      ensures Valid() && View() == Step(old(View()), OpenResumes) && events == old(events) + [OpenResumes]
    {
      Extend(INITIAL, events, View(), OpenResumes);
      events := events + [OpenResumes];
      var Answered(k, granted) := connecting.value;
      if granted && session == Some(k) {
        connected, connecting := true, Some(Done(true));
        return;
      }
      if session == Some(k) { End(k); }
      connecting := Some(Done(false));
    }

    /** The `finally` of line 78. */
    method ClearConnecting()
      requires Valid() && Enabled(View(), OpeningCleared)
      modifies this
      ensures Valid() && View() == Step(old(View()), OpeningCleared) && events == old(events) + [OpeningCleared]
    {
      Extend(INITIAL, events, View(), OpeningCleared);
      events := events + [OpeningCleared];
      connecting := None;
    }

    method Disconnect()
      requires Valid()
      modifies this
      ensures Valid() && View() == Step(old(View()), Event.Disconnect) && events == old(events) + [Event.Disconnect]
      ensures session.None? && !connected && open == {}
    {
      RunsKeep(INITIAL, events);
      Extend(INITIAL, events, View(), Event.Disconnect);
      events := events + [Event.Disconnect];
      if session.None? { return; }
      End(session.value);
    }

    /** `endSession`: the current session is forgotten first, then its line client closes (lines 219-239). */
    method End(k: nat)
      modifies this`session, this`connected, this`open, this`connecting
      ensures View() == EndSession(old(View()), k)
    {
      if session == Some(k) {
        session, connected := None, false;
      }
      CloseClient(k);
    }

    method CloseClient(k: nat)
      modifies this`open, this`connecting
      ensures open == old(open) - {k}
      ensures connecting == if old(connecting) == Some(Waiting(k)) then Some(Answered(k, false)) else old(connecting)
    {
      open := open - {k};
      if connecting == Some(Waiting(k)) { connecting := Some(Answered(k, false)); }
    }

    /** A `send` answer that ends its child (line 158). */
    method EndAfterSend(k: nat)
      requires Valid() && Enabled(View(), SendEndsChild(k))
      modifies this
      ensures Valid() && View() == Step(old(View()), SendEndsChild(k)) && events == old(events) + [SendEndsChild(k)]
    {
      Extend(INITIAL, events, View(), SendEndsChild(k));
      events := events + [SendEndsChild(k)];
      End(k);
    }

    /** The child exits: its client closes, then `onChildClosed` runs (lines 241-246). */
    method OnChildClosed(k: nat)
      requires Valid() && Enabled(View(), ChildCloses(k))
      modifies this
      ensures Valid() && View() == Step(old(View()), ChildCloses(k)) && events == old(events) + [ChildCloses(k)]
    {
      Extend(INITIAL, events, View(), ChildCloses(k));
      events := events + [ChildCloses(k)];
      CloseClient(k);
      if session != Some(k) { return; }
      session, connected := None, false;
    }

    method OnNotification(k: nat, row: Row)
      requires Valid() && Enabled(View(), Notify(k, row))
      modifies this
      ensures Valid() && View() == Step(old(View()), Notify(k, row)) && events == old(events) + [Notify(k, row)]
    {
      Extend(INITIAL, events, View(), Notify(k, row));
      events := events + [Notify(k, row)];
      rows := rows + [Item(k, row)];
      sent := sent[k := sent[k] + 1];
    }

    /** `handleRow` up to its await (lines 266-276); `called` when the handler was. */
    method HandleRow() returns (called: bool)
      requires Valid() && Enabled(View(), TakeRow)
      modifies this
      ensures Valid() && View() == Step(old(View()), TakeRow) && events == old(events) + [TakeRow]
      ensures called <==> turn.InHandler?
      ensures IdsIncrease(calls)
    {
      Extend(INITIAL, events, View(), TakeRow);
      events := events + [TakeRow];
      CallsNeverRepeat(events);
      var item := rows[0];
      rows := rows[1..];
      called := false;
      if session != Some(item.session) { return; }
      var id := item.row.id;
      if id.Some? && lastRowId.Some? && id.value <= lastRowId.value { return; }
      if !item.row.forHandler {
        MoveCursor(id);
      } else if handler {
        turn, called := InHandler(item), true;
        calls := calls + [item.row];
      }
    }

    /** The handler's promise settles, by return or throw (lines 274-276). */
    method OnHandlerReturn()
      requires Valid() && Enabled(View(), HandlerReturns)
      modifies this
      ensures Valid() && View() == Step(old(View()), HandlerReturns) && events == old(events) + [HandlerReturns]
    {
      Extend(INITIAL, events, View(), HandlerReturns);
      events := events + [HandlerReturns];
      MoveCursor(turn.item.row.id);
      turn := NoTurn;
    }

    method MoveCursor(id: Option<int>)
      modifies this`lastRowId
      ensures lastRowId == Moved(old(lastRowId), id)
    {
      if id.Some? && !(lastRowId.Some? && lastRowId.value > id.value) { lastRowId := id; }
    }

    method SetHandler(present: bool)
      requires Valid()
      modifies this
      ensures Valid() && View() == Step(old(View()), if present then OnInbound else Unsubscribe)
      ensures events == old(events) + [if present then OnInbound else Unsubscribe]
    {
      Extend(INITIAL, events, View(), if present then OnInbound else Unsubscribe);
      events := events + [if present then OnInbound else Unsubscribe];
      handler := present;
    }
  }
}
