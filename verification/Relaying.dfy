/** The producing half of the notification path as a step machine: services commit outbox
    rows, and any number of relay replicas drain them in overlapping transactions. */
module Relaying {
  import opened Base
  import Inbox
  import Outbox

  /** An open drain transaction: whose outbox it drains, the rows it has locked, how far it has
      come, and the marks it has made but not committed. */
  datatype Drain = Drain(source: string, batch: seq<Uuid>, pos: nat, stopped: bool, writes: map<Uuid, Outbox.Row>)

  datatype State = State(
    rows: map<Uuid, Outbox.Row>,  // committed outbox rows, by event id
    order: seq<Uuid>,             // their ids by created_at
    drains: map<nat, Drain>)      // open drain transactions, by replica

  /** A row may commit later than rows created after it, so it may come to stand anywhere. */
  datatype Step =
    | Enqueue(row: Outbox.Row, at: nat)
    | BeginDrain(replica: nat, source: string, batch: seq<Uuid>)
    | RelayRow(replica: nat, ok: bool, copies: nat)
    | CommitDrain(replica: nat)
    | AbortDrain(replica: nat)

  /** What the relay of the row's own producer makes of it. */
  function Work(r: Outbox.Row): Outbox.Work { Outbox.WorkOf(r.payload, Outbox.Retires(r.source)) }

  /** Whether there is anything in the row to deliver. */
  predicate Carries(r: Outbox.Row) { Outbox.HasBody(Work(r)) }

  predicate Raises(r: Outbox.Row) { Work(r).Raise? }

  function MessageOf(r: Outbox.Row): Inbox.Message
    requires Carries(r)
  {
    Inbox.Message(r.id, r.source, Work(r).body)
  }

  /** Whether some open drain holds the row lock of `e`. */
  ghost predicate Locked(s: State, e: Uuid) {
    exists r :: r in s.drains && e in s.drains[r].batch
  }

  /** Whether the drain has a row to work on next. */
  predicate Working(s: State, r: nat) {
    r in s.drains && !s.drains[r].stopped && s.drains[r].pos < |s.drains[r].batch|
    && s.drains[r].batch[s.drains[r].pos] in s.rows
  }

  function Current(s: State, r: nat): Outbox.Row
    requires Working(s, r)
  {
    s.rows[s.drains[r].batch[s.drains[r].pos]]
  }

  /** A row a new drain of that producer may take. */
  ghost predicate Free(s: State, source: string, e: Uuid) {
    e in s.rows && s.rows[e].source == source && !s.rows[e].published && !Locked(s, e)
  }

  /** How one turn of the loop may go: a row that raises always fails, one with nothing to send
      never does, and a publish may leave up to two copies behind whatever it reports, with
      success meaning at least one. */
  predicate Turn(r: Outbox.Row, ok: bool, copies: nat) {
    if Raises(r) then !ok && copies == 0
    else if Carries(r) then copies <= 2 && (ok ==> 1 <= copies)
    else ok && copies == 0
  }

  /** A drain may start on any free rows of one producer: what SKIP LOCKED hands out when other
      transactions come and go is some of them. `Oldest` below is what it hands out undisturbed. */
  ghost predicate Enabled(s: State, t: Step) {
    match t
    case Enqueue(row, at) =>
      row.id !in s.rows && !row.published && row.attempts == 0 && row.lastError == None && at <= |s.order|
    case BeginDrain(r, source, batch) =>
      && r !in s.drains && 0 < |batch| <= Outbox.BATCH_SIZE && Distinct(batch)
      && (forall e :: e in batch ==> Free(s, source, e))
    case RelayRow(r, ok, copies) => Working(s, r) && Turn(Current(s, r), ok, copies)
    case CommitDrain(r) => r in s.drains && (s.drains[r].stopped || s.drains[r].pos == |s.drains[r].batch|)
    case AbortDrain(r) => r in s.drains
  }

  /** One turn of the relay's loop, inside the drain's own transaction. */
  function Relayed(d: Drain, row: Outbox.Row, ok: bool): Drain
    requires d.pos < |d.batch|
  {
    var mark := if ok then Outbox.Settle(row, Outbox.Retires(row.source)) else Outbox.RecordAttempt(row);
    d.(writes := d.writes[d.batch[d.pos] := mark], pos := if ok then d.pos + 1 else d.pos, stopped := !ok)
  }

  ghost function Apply(s: State, t: Step): State
    requires Enabled(s, t)
  {
    match t
    case Enqueue(row, at) => s.(rows := s.rows[row.id := row], order := s.order[..at] + [row.id] + s.order[at..])
    case BeginDrain(r, source, batch) => s.(drains := s.drains[r := Drain(source, batch, 0, false, map[])])
    case RelayRow(r, ok, copies) => s.(drains := s.drains[r := Relayed(s.drains[r], Current(s, r), ok)])
    case CommitDrain(r) => s.(rows := s.rows + s.drains[r].writes, drains := s.drains - {r})
    case AbortDrain(r) => s.(drains := s.drains - {r})
  }

  // ---------------------------------------------------------------- invariant

  /** How many rows of its batch a drain has marked. */
  function Touched(d: Drain): nat { if d.stopped then d.pos + 1 else d.pos }

  /** The row is about the same event. */
  predicate SameEvent(w: Outbox.Row, r: Outbox.Row) {
    w.id == r.id && w.source == r.source && w.payload == r.payload && w.key == r.key
  }

  /** A row that raises is never published, and one that was given up has its error. */
  predicate RowFine(r: Outbox.Row) {
    r.published ==> !Raises(r) && (Work(r).Retire? ==> r.lastError.Some?)
  }

  ghost predicate DrainOk(rows: map<Uuid, Outbox.Row>, d: Drain) {
    && Touched(d) <= |d.batch| && Distinct(d.batch)
    && (forall e :: e in d.batch ==> e in rows && !rows[e].published && rows[e].source == d.source)
    && (forall e :: e in d.writes <==> e in d.batch[..Touched(d)])
    && (forall e :: e in d.writes && e in rows ==> SameEvent(d.writes[e], rows[e]) && RowFine(d.writes[e]))
    && (forall e :: e in d.writes ==> (d.writes[e].published <==> e in d.batch[..d.pos]))
  }

  ghost predicate DrainsOk(s: State) {
    forall r :: r in s.drains ==> DrainOk(s.rows, s.drains[r])
  }

  /** No outbox row is in two open drain transactions. */
  ghost predicate Exclusive(s: State) {
    forall r, q, e :: r in s.drains && q in s.drains && e in s.drains[r].batch && e in s.drains[q].batch ==> r == q
  }

  ghost predicate RowsOk(s: State) {
    forall e :: e in s.rows ==> s.rows[e].id == e && RowFine(s.rows[e])
  }

  ghost predicate OrderOk(s: State) {
    Distinct(s.order) && forall e :: e in s.order <==> e in s.rows
  }

  ghost predicate Inv(s: State) {
    RowsOk(s) && OrderOk(s) && DrainsOk(s) && Exclusive(s)
  }

  /** Rows are only ever added, keep their event, and a published row never changes again. */
  ghost predicate RowsGrow(a: map<Uuid, Outbox.Row>, b: map<Uuid, Outbox.Row>) {
    forall e :: e in a ==> e in b && SameEvent(b[e], a[e]) && (a[e].published ==> b[e] == a[e])
  }

  lemma RowsPersist(s: State, t: Step)
    requires Inv(s) && Enabled(s, t)
    ensures RowsGrow(s.rows, Apply(s, t).rows) && RowsOk(Apply(s, t))
  {
    if t.CommitDrain? {
      assert DrainOk(s.rows, s.drains[t.replica]);
    }
  }

  lemma OrderStaysOk(s: State, t: Step)
    requires OrderOk(s) && DrainsOk(s) && Enabled(s, t)
    ensures OrderOk(Apply(s, t))
  {
    if t.Enqueue? {
      var order' := Apply(s, t).order;
      assert forall i :: 0 <= i < |order'| ==>
                order'[i] == if i < t.at then s.order[i] else if i == t.at then t.row.id else s.order[i - 1];
      forall e | e in s.order ensures e in order' {
        var i :| 0 <= i < |s.order| && s.order[i] == e;
        assert order'[if i < t.at then i else i + 1] == e;
      }
    } else if t.CommitDrain? {
      assert DrainOk(s.rows, s.drains[t.replica]);
    }
  }

  lemma RelayedOk(rows: map<Uuid, Outbox.Row>, d: Drain, ok: bool, copies: nat)
    requires DrainOk(rows, d) && !d.stopped && d.pos < |d.batch| && Turn(rows[d.batch[d.pos]], ok, copies)
    ensures DrainOk(rows, Relayed(d, rows[d.batch[d.pos]], ok))
  {
    assert d.batch[..d.pos + 1] == d.batch[..d.pos] + [d.batch[d.pos]];
    assert d.batch[d.pos] in d.batch;
  }

  /** Committing one drain leaves every other open drain exactly the rows it read. */
  lemma CommitKeepsOthers(s: State, r: nat, q: nat)
    requires Inv(s) && r in s.drains && q in s.drains && q != r
    ensures DrainOk(s.rows + s.drains[r].writes, s.drains[q])
  {
    assert DrainOk(s.rows, s.drains[r]) && DrainOk(s.rows, s.drains[q]);
    var rows' := s.rows + s.drains[r].writes;
    forall e | e in s.drains[q].batch ensures e in rows' && rows'[e] == s.rows[e] {
      assert e !in s.drains[r].batch;
    }
    assert forall e :: e in s.drains[q].writes ==> e in s.drains[q].batch;
  }

  lemma StaysExclusive(s: State, t: Step)
    requires Exclusive(s) && Enabled(s, t)
    ensures Exclusive(Apply(s, t))
  {
  }

  lemma InvStep(s: State, t: Step)
    requires Inv(s) && Enabled(s, t)
    ensures Inv(Apply(s, t))
  {
    RowsPersist(s, t);
    OrderStaysOk(s, t);
    StaysExclusive(s, t);
    var s' := Apply(s, t);
    match t
    case Enqueue(row, _) =>
      forall q | q in s'.drains ensures DrainOk(s'.rows, s'.drains[q]) {
        assert DrainOk(s.rows, s.drains[q]);
      }
    case BeginDrain(r, source, batch) =>
    case RelayRow(r, ok, copies) =>
      RelayedOk(s.rows, s.drains[r], ok, copies);
    case CommitDrain(r) =>
      forall q | q in s'.drains ensures DrainOk(s'.rows, s'.drains[q]) {
        CommitKeepsOthers(s, r, q);
      }
    case AbortDrain(r) =>
  }

  /** A drain in its loop always has its next row at hand, and some turn is always possible, so
      an open drain can always go on to its commit. */
  lemma LoopNeverStuck(s: State, r: nat)
    requires Inv(s) && r in s.drains
    ensures Enabled(s, CommitDrain(r)) ||
            (Working(s, r) && Enabled(s, RelayRow(r, !Raises(Current(s, r)), if Carries(Current(s, r)) then 1 else 0)))
  {
    assert DrainOk(s.rows, s.drains[r]);
    var d := s.drains[r];
    assert d.pos < |d.batch| ==> d.batch[d.pos] in d.batch;
  }

  // ---------------------------------------------------------------- the order of the outbox

  /** `SELECT ... ORDER BY created_at LIMIT 100 FOR UPDATE SKIP LOCKED` for one producer. */
  ghost function Oldest(s: State, source: string, order: seq<Uuid>, limit: nat): seq<Uuid>
    decreases |order|
  {
    if order == [] || limit == 0 then []
    else if Free(s, source, order[0]) then [order[0]] + Oldest(s, source, order[1..], limit - 1)
    else Oldest(s, source, order[1..], limit)
  }

  ghost function Selected(s: State, source: string): seq<Uuid> { Oldest(s, source, s.order, Outbox.BATCH_SIZE) }

  /** `x` is `e` or stands before it. */
  ghost predicate UpTo(order: seq<Uuid>, x: Uuid, e: Uuid) {
    exists i, j :: 0 <= i <= j < |order| && order[i] == x && order[j] == e
  }

  lemma {:induction false} OldestSpec(s: State, source: string, order: seq<Uuid>, limit: nat)
    requires Distinct(order)
    ensures var batch := Oldest(s, source, order, limit);
            && |batch| <= limit && Distinct(batch)
            && (forall e :: e in batch ==> e in order && Free(s, source, e))
            && (batch == [] && limit > 0 ==> forall e :: e in order ==> !Free(s, source, e))
    decreases |order|
  {
    if order != [] && limit > 0 {
      var free := Free(s, source, order[0]);
      OldestSpec(s, source, order[1..], if free then limit - 1 else limit);
      assert order == [order[0]] + order[1..];
    }
  }

  lemma {:induction false} OldestKeepsOrder(s: State, source: string, order: seq<Uuid>, limit: nat, x: Uuid, e: Uuid)
    requires UpTo(order, x, e) && Free(s, source, x) && e in Oldest(s, source, order, limit) && Distinct(order)
    ensures UpTo(Oldest(s, source, order, limit), x, e)
    decreases |order|
  {
    var i, j :| 0 <= i <= j < |order| && order[i] == x && order[j] == e;
    var batch := Oldest(s, source, order, limit);
    OldestSpec(s, source, order[1..], if Free(s, source, order[0]) then limit - 1 else limit);
    if i == 0 {
      assert batch[0] == x;
    } else {
      assert order[1..][i - 1] == x && order[1..][j - 1] == e;
      var rest := Oldest(s, source, order[1..], if Free(s, source, order[0]) then limit - 1 else limit);
      assert e in rest;
      OldestKeepsOrder(s, source, order[1..], if Free(s, source, order[0]) then limit - 1 else limit, x, e);
      var a, b :| 0 <= a <= b < |rest| && rest[a] == x && rest[b] == e;
      if Free(s, source, order[0]) {
        assert batch[a + 1] == x && batch[b + 1] == e;
      }
    }
  }

  /** The first row the SELECT would take stands before every other free one. */
  lemma {:induction false} OldestHead(s: State, source: string, order: seq<Uuid>, limit: nat, e: Uuid)
    requires e in order && Free(s, source, e) && limit > 0
    ensures var batch := Oldest(s, source, order, limit); batch != [] && UpTo(order, batch[0], e)
    decreases |order|
  {
    var batch := Oldest(s, source, order, limit);
    var k :| 0 <= k < |order| && order[k] == e;
    if Free(s, source, order[0]) {
      assert order[0] == batch[0] && order[k] == e;
    } else {
      assert order[1..][k - 1] == e;
      OldestHead(s, source, order[1..], limit, e);
      var i, j :| 0 <= i <= j < |order[1..]| && order[1..][i] == batch[0] && order[1..][j] == e;
      assert order[i + 1] == batch[0] && order[j + 1] == e;
    }
  }
}
