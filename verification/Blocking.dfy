/** What an outbox row that makes its relay raise does to the rows behind it. */
module Blocking {
  import opened Base
  import Outbox
  import opened Relaying

  /** A drain that takes what the SELECT returns undisturbed, with no other drain of the same
      producer open. */
  ghost predicate Orderly(s: State, t: Step) {
    t.BeginDrain? ==>
      t.batch == Selected(s, t.source) && forall r :: r in s.drains ==> s.drains[r].source != t.source
  }

  /** The drain has not come past `x`, and `e` is not before `x` in its batch. */
  ghost predicate HeldBehind(d: Drain, x: Uuid, e: Uuid) {
    exists i, j :: d.pos <= i <= j < |d.batch| && d.batch[i] == x && d.batch[j] == e
  }

  /** `e` is pending and `x`, which raises, is `e` or stands before it. */
  ghost predicate Behind(s: State, x: Uuid, e: Uuid) {
    && x in s.rows && e in s.rows && Raises(s.rows[x]) && s.rows[x].source == s.rows[e].source
    && !s.rows[e].published && UpTo(s.order, x, e)
  }

  ghost predicate HeldBack(s: State, x: Uuid, e: Uuid) {
    Behind(s, x, e) && forall r :: r in s.drains && e in s.drains[r].batch ==> HeldBehind(s.drains[r], x, e)
  }

  lemma UpToInsert(order: seq<Uuid>, at: nat, id: Uuid, x: Uuid, e: Uuid)
    requires UpTo(order, x, e) && at <= |order|
    ensures UpTo(order[..at] + [id] + order[at..], x, e)
  {
    var order' := order[..at] + [id] + order[at..];
    var i, j :| 0 <= i <= j < |order| && order[i] == x && order[j] == e;
    assert order'[if i < at then i else i + 1] == x && order'[if j < at then j else j + 1] == e;
  }

  /** A turn of the loop does not get past a row that raises. */
  lemma TurnStaysBehind(s: State, r: nat, ok: bool, copies: nat, x: Uuid, e: Uuid)
    requires Inv(s) && Enabled(s, RelayRow(r, ok, copies)) && x in s.rows && Raises(s.rows[x])
    requires HeldBehind(s.drains[r], x, e)
    ensures HeldBehind(Apply(s, RelayRow(r, ok, copies)).drains[r], x, e)
  {
    var d, d' := s.drains[r], Apply(s, RelayRow(r, ok, copies)).drains[r];
    var i, j :| d.pos <= i <= j < |d.batch| && d.batch[i] == x && d.batch[j] == e;
    assert d'.pos <= i && d'.batch == d.batch;
  }

  /** A commit publishes nothing the drain has not come past. */
  lemma CommitLeavesBehind(s: State, r: nat, x: Uuid, e: Uuid)
    requires Inv(s) && Enabled(s, CommitDrain(r)) && HeldBack(s, x, e)
    ensures !Apply(s, CommitDrain(r)).rows[e].published
  {
    var d := s.drains[r];
    assert DrainOk(s.rows, d);
    if e in d.writes {
      assert e in d.batch;
      var i, j :| d.pos <= i <= j < |d.batch| && d.batch[i] == x && d.batch[j] == e;
      assert e !in d.batch[..d.pos];
    }
  }

  lemma StaysBehind(s: State, t: Step, x: Uuid, e: Uuid)
    requires Inv(s) && Enabled(s, t) && HeldBack(s, x, e)
    ensures Behind(Apply(s, t), x, e)
  {
    RowsPersist(s, t);
    match t
    case Enqueue(row, at) => UpToInsert(s.order, at, row.id, x, e);
    case CommitDrain(r) => CommitLeavesBehind(s, r, x, e);
    case _ =>
  }

  /** The step takes `e`, if it does, in the SELECT's own batch and while no other drain holds `x`. */
  ghost predicate NotPast(s: State, t: Step, x: Uuid, e: Uuid) {
    t.BeginDrain? && e in t.batch ==> t.batch == Selected(s, t.source) && !Locked(s, x)
  }

  /** Drains of one producer that do not overlap never take a row past another. */
  lemma OrderlyIsNotPast(s: State, t: Step, x: Uuid, e: Uuid)
    requires Inv(s) && Enabled(s, t) && Orderly(s, t) && Behind(s, x, e)
    ensures NotPast(s, t, x, e)
  {
    if t.BeginDrain? && e in t.batch {
      assert Free(s, t.source, e);
      forall q | q in s.drains ensures x !in s.drains[q].batch { assert DrainOk(s.rows, s.drains[q]); }
    }
  }

  /** Exactly when a SELECT reaches past a row that raises: a batch with `e` in it leaves out the
      raising `x` before it if and only if another drain holds `x`. */
  lemma OvertakesIff(s: State, x: Uuid, e: Uuid)
    requires Inv(s) && Behind(s, x, e) && e in Selected(s, s.rows[e].source)
    ensures x !in Selected(s, s.rows[e].source) <==> Locked(s, x)
  {
    var source := s.rows[e].source;
    OldestSpec(s, source, s.order, Outbox.BATCH_SIZE);
    if !Locked(s, x) {
      assert RowFine(s.rows[x]) && Free(s, source, x);
      OldestKeepsOrder(s, source, s.order, Outbox.BATCH_SIZE, x, e);
    }
  }

  lemma BeginsBehind(s: State, r: nat, source: string, batch: seq<Uuid>, x: Uuid, e: Uuid)
    requires Inv(s) && Enabled(s, BeginDrain(r, source, batch)) && Behind(s, x, e) && e in batch
    requires NotPast(s, BeginDrain(r, source, batch), x, e)
    ensures HeldBehind(Drain(source, batch, 0, false, map[]), x, e)
  {
    assert Free(s, source, e);
    assert RowFine(s.rows[x]) && Free(s, source, x);
    OldestKeepsOrder(s, source, s.order, Outbox.BATCH_SIZE, x, e);
    var i, j :| 0 <= i <= j < |batch| && batch[i] == x && batch[j] == e;
  }

  lemma StaysHeldBack(s: State, t: Step, x: Uuid, e: Uuid)
    requires Inv(s) && Enabled(s, t) && NotPast(s, t, x, e) && HeldBack(s, x, e)
    ensures HeldBack(Apply(s, t), x, e)
  {
    StaysBehind(s, t, x, e);
    var s' := Apply(s, t);
    forall r | r in s'.drains && e in s'.drains[r].batch ensures HeldBehind(s'.drains[r], x, e) {
      if t.BeginDrain? && t.replica == r {
        BeginsBehind(s, r, t.source, t.batch, x, e);
      } else if t.RelayRow? && t.replica == r {
        TurnStaysBehind(s, r, t.ok, t.copies, x, e);
      }
    }
  }
}
