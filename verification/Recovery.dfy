/** What happens when nothing fails any more: whatever went wrong before, every schedule of the
    relays and consumers comes to an end, and where it ends every event has reached its fate.
    Rows behind one that makes their relay raise are the only ones left pending. */
module Recovery {
  import opened Base
  import Inbox
  import Outbox
  import Relaying
  import Blocking
  import Consuming
  import opened Delivery

  // ---------------------------------------------------------------- healthy steps

  ghost predicate StartsRaising(p: Relaying.State, batch: seq<Uuid>) {
    batch != [] && batch[0] in p.rows && Relaying.Raises(p.rows[batch[0]])
  }

  /** Neither a failure nor new input. A relay fails at no row but one that raises; a drain takes
      the SELECT's batch, and one whose first row raises, which only counts an attempt on it, is
      not counted as a step. */
  ghost predicate Healthy(s: State, t: Step)
    requires Enabled(s, t)
  {
    match t
    case Produce(Enqueue(_, _)) => false
    case Produce(BeginDrain(_, source, batch)) =>
      batch == Relaying.Selected(s.p, source) && !StartsRaising(s.p, batch)
    case Produce(RelayRow(r, ok, _)) => ok || Relaying.Raises(Relaying.Current(s.p, r))
    case Produce(CommitDrain(_)) => true
    case Produce(AbortDrain(_)) => false
    case Consume(cs) => !cs.Fail? && !cs.LoseConnection? && !cs.Replay? && !cs.HttpCreate? && !cs.MarkRead?
  }

  ghost predicate HealthyRun(s: State, steps: seq<Step>)
    requires Legal(s, steps)
    decreases |steps|
  {
    steps == [] || (Healthy(s, steps[0]) && HealthyRun(Apply(s, steps[0]), steps[1..]))
  }

  // ---------------------------------------------------------------- a measure

  ghost function SumOf<V>(m: map<nat, V>, cost: V -> nat): nat
    decreases |m|
  {
    if m == map[] then 0
    else
      var k :| k in m;
      cost(m[k]) + SumOf(m - {k}, cost)
  }

  lemma {:induction false} SumOfWithout<V>(m: map<nat, V>, cost: V -> nat, k: nat)
    requires k in m
    ensures SumOf(m, cost) == cost(m[k]) + SumOf(m - {k}, cost)
    decreases |m|
  {
    var j :| j in m && SumOf(m, cost) == cost(m[j]) + SumOf(m - {j}, cost);
    if j != k {
      SumOfWithout(m - {j}, cost, k);
      SumOfWithout(m - {k}, cost, j);
      assert m - {j} - {k} == m - {k} - {j};
    }
  }

  lemma SumOfUpdate<V>(m: map<nat, V>, cost: V -> nat, k: nat, v: V)
    ensures SumOf(m[k := v], cost) + (if k in m then cost(m[k]) else 0) == SumOf(m, cost) + cost(v)
  {
    SumOfWithout(m[k := v], cost, k);
    assert m[k := v] - {k} == m - {k};
    if k in m {
      SumOfWithout(m, cost, k);
    } else {
      assert m - {k} == m;
    }
  }

  /** Each turn left may put two messages on the queue, and then there is the commit. */
  function DrainCost(d: Relaying.Drain): nat {
    if d.stopped || d.pos >= |d.batch| then 1 else 1 + 11 * (|d.batch| - d.pos)
  }

  function DeliveryCost(d: Consuming.Delivery): nat {
    match d.phase
    case Received => 4
    case Inserted => 3
    case Committed => 1
    case Duplicate => 1
    case Failing => 1
  }

  /** The drain is sure to publish the first row of its batch, `e`. */
  predicate Claims(d: Relaying.Drain, e: Uuid) {
    d.batch != [] && d.batch[0] == e && !(d.stopped && d.pos == 0)
  }

  ghost predicate Claimed(p: Relaying.State, e: Uuid) {
    exists r :: r in p.drains && Claims(p.drains[r], e)
  }

  ghost function Unclaimed(p: Relaying.State): set<Uuid> {
    set e | e in p.rows && !p.rows[e].published && !Relaying.Raises(p.rows[e]) && !Claimed(p, e)
  }

  const DRAIN_BOUND := 11 * Outbox.BATCH_SIZE + 2

  ghost function ProducerMeasure(p: Relaying.State): nat {
    DRAIN_BOUND * |Unclaimed(p)| + SumOf(p.drains, DrainCost)
  }

  ghost function ConsumerMeasure(c: Consuming.State): nat { 5 * |c.queue| + SumOf(c.inflight, DeliveryCost) }

  ghost function Measure(s: State): nat { ProducerMeasure(s.p) + ConsumerMeasure(s.c) }

  lemma SubsetSize<T>(a: set<T>, b: set<T>)
    requires a <= b
    ensures |a| <= |b|
    decreases a
  {
    if x :| x in a {
      SubsetSize(a - {x}, b - {x});
    }
  }

  lemma FewerUnclaimed(p: Relaying.State, p': Relaying.State)
    requires Unclaimed(p') <= Unclaimed(p)
    ensures DRAIN_BOUND * |Unclaimed(p')| <= DRAIN_BOUND * |Unclaimed(p)|
  {
    SubsetSize(Unclaimed(p'), Unclaimed(p));
  }

  lemma BeginClaims(p: Relaying.State, r: nat, source: string, batch: seq<Uuid>)
    requires Relaying.Enabled(p, Relaying.BeginDrain(r, source, batch)) && !StartsRaising(p, batch)
    ensures var p' := Relaying.Apply(p, Relaying.BeginDrain(r, source, batch));
            batch[0] in Unclaimed(p) && Unclaimed(p') <= Unclaimed(p) - {batch[0]}
  {
    var p' := Relaying.Apply(p, Relaying.BeginDrain(r, source, batch));
    var e := batch[0];
    assert Relaying.Free(p, source, e);
    assert Claims(p'.drains[r], e);
    forall f | Claimed(p, f) ensures Claimed(p', f) {
      var q :| q in p.drains && Claims(p.drains[q], f);
      assert p'.drains[q] == p.drains[q];
    }
    forall q | q in p.drains ensures !Claims(p.drains[q], e) {
      assert p.drains[q].batch != [] ==> p.drains[q].batch[0] in p.drains[q].batch;
    }
  }

  lemma BeginDecreases(p: Relaying.State, r: nat, source: string, batch: seq<Uuid>)
    requires Relaying.Enabled(p, Relaying.BeginDrain(r, source, batch)) && !StartsRaising(p, batch)
    ensures ProducerMeasure(Relaying.Apply(p, Relaying.BeginDrain(r, source, batch))) < ProducerMeasure(p)
  {
    var p' := Relaying.Apply(p, Relaying.BeginDrain(r, source, batch));
    BeginClaims(p, r, source, batch);
    SubsetSize(Unclaimed(p'), Unclaimed(p) - {batch[0]});
    SumOfUpdate(p.drains, DrainCost, r, p'.drains[r]);
    assert DrainCost(p'.drains[r]) < DRAIN_BOUND;
  }

  lemma TurnKeepsClaims(p: Relaying.State, r: nat, ok: bool, copies: nat, e: Uuid)
    requires Relaying.Enabled(p, Relaying.RelayRow(r, ok, copies)) && (ok || Relaying.Raises(Relaying.Current(p, r)))
    requires Claimed(p, e) && e in p.rows
    ensures Relaying.Raises(p.rows[e]) || Claimed(Relaying.Apply(p, Relaying.RelayRow(r, ok, copies)), e)
  {
    var p' := Relaying.Apply(p, Relaying.RelayRow(r, ok, copies));
    var q :| q in p.drains && Claims(p.drains[q], e);
    assert Relaying.Raises(p.rows[e]) || Claims(p'.drains[q], e);
  }

  lemma TurnKeepsUnclaimed(p: Relaying.State, r: nat, ok: bool, copies: nat)
    requires Relaying.Enabled(p, Relaying.RelayRow(r, ok, copies)) && (ok || Relaying.Raises(Relaying.Current(p, r)))
    ensures Unclaimed(Relaying.Apply(p, Relaying.RelayRow(r, ok, copies))) <= Unclaimed(p)
  {
    forall e | e in p.rows && Claimed(p, e)
      ensures Relaying.Raises(p.rows[e]) || Claimed(Relaying.Apply(p, Relaying.RelayRow(r, ok, copies)), e)
    {
      TurnKeepsClaims(p, r, ok, copies, e);
    }
  }

  lemma TurnDecreases(p: Relaying.State, r: nat, ok: bool, copies: nat)
    requires Relaying.Enabled(p, Relaying.RelayRow(r, ok, copies)) && (ok || Relaying.Raises(Relaying.Current(p, r)))
    ensures ProducerMeasure(Relaying.Apply(p, Relaying.RelayRow(r, ok, copies))) + 11 <= ProducerMeasure(p)
  {
    var p' := Relaying.Apply(p, Relaying.RelayRow(r, ok, copies));
    TurnKeepsUnclaimed(p, r, ok, copies);
    FewerUnclaimed(p, p');
    SumOfUpdate(p.drains, DrainCost, r, p'.drains[r]);
  }

  lemma CommitKeepsClaims(p: Relaying.State, r: nat, e: Uuid)
    requires Relaying.Enabled(p, Relaying.CommitDrain(r)) && Relaying.DrainOk(p.rows, p.drains[r])
    requires Claimed(p, e) && e in p.rows
    ensures var p' := Relaying.Apply(p, Relaying.CommitDrain(r)); p'.rows[e].published || Claimed(p', e)
  {
    var p', d := Relaying.Apply(p, Relaying.CommitDrain(r)), p.drains[r];
    var q :| q in p.drains && Claims(p.drains[q], e);
    if q == r {
      assert d.batch[..d.pos][0] == e && d.batch[..Relaying.Touched(d)][0] == e;
    } else {
      assert Claims(p'.drains[q], e);
    }
  }

  lemma CommitKeepsUnclaimed(p: Relaying.State, r: nat)
    requires Relaying.Inv(p) && Relaying.Enabled(p, Relaying.CommitDrain(r))
    ensures Unclaimed(Relaying.Apply(p, Relaying.CommitDrain(r))) <= Unclaimed(p)
  {
    var p' := Relaying.Apply(p, Relaying.CommitDrain(r));
    assert Relaying.DrainOk(p.rows, p.drains[r]);
    Relaying.RowsPersist(p, Relaying.CommitDrain(r));
    forall e | e in p.rows && Claimed(p, e) ensures p'.rows[e].published || Claimed(p', e) {
      CommitKeepsClaims(p, r, e);
    }
    assert p'.rows.Keys == p.rows.Keys;
  }

  lemma CommitDecreases(p: Relaying.State, r: nat)
    requires Relaying.Inv(p) && Relaying.Enabled(p, Relaying.CommitDrain(r))
    ensures ProducerMeasure(Relaying.Apply(p, Relaying.CommitDrain(r))) < ProducerMeasure(p)
  {
    CommitKeepsUnclaimed(p, r);
    FewerUnclaimed(p, Relaying.Apply(p, Relaying.CommitDrain(r)));
    SumOfWithout(p.drains, DrainCost, r);
  }

  lemma ConsumeDecreases(c: Consuming.State, cs: Consuming.Step)
    requires Consuming.Enabled(c, cs)
    requires !cs.Fail? && !cs.LoseConnection? && !cs.Replay? && !cs.HttpCreate? && !cs.MarkRead?
    ensures ConsumerMeasure(Consuming.Apply(c, cs)) < ConsumerMeasure(c)
  {
    var c' := Consuming.Apply(c, cs);
    if cs.d in c'.inflight {
      SumOfUpdate(c.inflight, DeliveryCost, cs.d, c'.inflight[cs.d]);
    } else {
      SumOfWithout(c.inflight, DeliveryCost, cs.d);
    }
  }

  lemma QueueGrowth(queue: multiset<Inbox.Message>, m: Inbox.Message, copies: nat)
    requires copies <= 2
    ensures |queue[m := queue[m] + copies]| == |queue| + copies
  {
    var more := if copies == 0 then multiset{} else if copies == 1 then multiset{m} else multiset{m, m};
    assert queue[m := queue[m] + copies] == queue + more;
  }

  lemma HealthyStepDecreases(s: State, t: Step)
    requires Inv(s) && Enabled(s, t) && Healthy(s, t)
    ensures Measure(Apply(s, t)) < Measure(s)
  {
    match t
    case Produce(BeginDrain(r, source, batch)) => BeginDecreases(s.p, r, source, batch);
    case Produce(RelayRow(r, ok, copies)) =>
      TurnDecreases(s.p, r, ok, copies);
      if Relaying.Carries(Relaying.Current(s.p, r)) {
        QueueGrowth(s.c.queue, Relaying.MessageOf(Relaying.Current(s.p, r)), copies);
      }
    case Produce(CommitDrain(r)) => CommitDecreases(s.p, r);
    case Consume(cs) => ConsumeDecreases(s.c, cs);
    case _ =>
  }

  lemma {:induction false} HealthyRunsAreBounded(s: State, steps: seq<Step>)
    requires Inv(s) && Legal(s, steps) && HealthyRun(s, steps)
    ensures |steps| + Measure(Exec(s, steps)) <= Measure(s)
    decreases |steps|
  {
    if steps != [] {
      InvStep(s, steps[0]);
      HealthyStepDecreases(s, steps[0]);
      HealthyRunsAreBounded(Apply(s, steps[0]), steps[1..]);
    }
  }

  // ---------------------------------------------------------------- where they end

  /** Nothing is open or on its way, and no producer's SELECT would start on a row that can be
      relayed. */
  ghost predicate Settled(s: State) {
    && s.p.drains == map[] && s.c.queue == multiset{} && s.c.inflight == map[]
    && forall source :: Relaying.Selected(s.p, source) == [] || StartsRaising(s.p, Relaying.Selected(s.p, source))
  }

  /** A delivery in a consumer's hands can go on, or wait for one that can. */
  lemma ConsumersNeverStuck(c: Consuming.State, d: nat) returns (cs: Consuming.Step)
    requires Consuming.KeysOk(c) && d in c.inflight
    ensures Consuming.Enabled(c, cs)
    ensures !cs.Fail? && !cs.LoseConnection? && !cs.Replay? && !cs.HttpCreate? && !cs.MarkRead?
  {
    var m := c.inflight[d].msg;
    assert Consuming.In(c, d, c.inflight[d].phase);
    match c.inflight[d].phase
    case Inserted => cs := Consuming.CommitEvent(d, 0);
    case Committed => cs := Consuming.Acknowledge(d);
    case Duplicate => cs := Consuming.Acknowledge(d);
    case Failing => cs := Consuming.DeadLetter(d);
    case Received =>
      if Inbox.Accept(m).None? {
        cs := Consuming.RejectMalformed(d);
      } else if m.eventId in c.processed {
        cs := Consuming.SeeDuplicate(d);
      } else if Consuming.KeyHeld(c, m.eventId) {
        var h :| Consuming.In(c, h, Consuming.Inserted) && c.inflight[h].msg.eventId == m.eventId;
        cs := Consuming.CommitEvent(h, 0);
      } else {
        cs := Consuming.InsertKey(d);
      }
  }

  /** Unless everything is settled some healthy step can be taken, and one that starts a drain
      only when no other is open. */
  lemma NextHealthyStep(s: State) returns (t: Step)
    requires Inv(s) && !Settled(s)
    ensures Enabled(s, t) && Healthy(s, t) && Steady(s, t)
  {
    if r :| r in s.p.drains {
      Relaying.LoopNeverStuck(s.p, r);
      if Relaying.Enabled(s.p, Relaying.CommitDrain(r)) {
        t := Produce(Relaying.CommitDrain(r));
      } else {
        var row := Relaying.Current(s.p, r);
        t := Produce(Relaying.RelayRow(r, !Relaying.Raises(row), if Relaying.Carries(row) then 1 else 0));
      }
    } else if d :| d in s.c.inflight {
      var cs := ConsumersNeverStuck(s.c, d);
      t := Consume(cs);
    } else if m :| m in s.c.queue {
      t := Consume(Consuming.Deliver(0, m));
    } else {
      assert s.p.drains == map[] && s.c.inflight == map[] && s.c.queue == multiset{};
      var source :| Relaying.Selected(s.p, source) != [] && !StartsRaising(s.p, Relaying.Selected(s.p, source));
      Relaying.OldestSpec(s.p, source, s.p.order, Outbox.BATCH_SIZE);
      t := Produce(Relaying.BeginDrain(0, source, Relaying.Selected(s.p, source)));
    }
  }

  /** The step keeps drains of one producer apart in time. */
  ghost predicate Steady(s: State, t: Step) { t.Produce? ==> Blocking.Orderly(s.p, t.ps) }

  ghost predicate SteadyRun(s: State, steps: seq<Step>)
    requires Legal(s, steps)
    decreases |steps|
  {
    steps == [] || (Steady(s, steps[0]) && SteadyRun(Apply(s, steps[0]), steps[1..]))
  }

  /** A row that makes its relay raise is `e` or stands before it in the same outbox. */
  ghost predicate Blocked(s: State, e: Uuid) {
    e in s.p.rows && exists x ::
      x in s.p.rows && Relaying.Raises(s.p.rows[x]) && s.p.rows[x].source == s.p.rows[e].source
      && Relaying.UpTo(s.p.order, x, e)
  }

  /** What became of the event: still pending, and then only because it is blocked; retired with
      its error; with nothing to send; or applied or dead-lettered. */
  ghost predicate AtRest(s: State, e: Uuid)
    requires e in s.p.rows
  {
    var row := s.p.rows[e];
    && (!row.published ==> Blocked(s, e))
    && (row.published && Relaying.Work(row).Retire? ==> row.lastError.Some?)
    && (row.published && Relaying.Carries(row) ==> e in s.c.processed || exists m :: m in s.c.dead && m.eventId == e)
  }

  lemma SettledAtRest(s: State, e: Uuid)
    requires Inv(s) && Settled(s) && e in s.p.rows
    ensures AtRest(s, e)
  {
    var row := s.p.rows[e];
    if !row.published {
      assert Relaying.Free(s.p, row.source, e);
      Relaying.OldestHead(s.p, row.source, s.p.order, Outbox.BATCH_SIZE, e);
      Relaying.OldestSpec(s.p, row.source, s.p.order, Outbox.BATCH_SIZE);
      var x := Relaying.Selected(s.p, row.source)[0];
      assert Relaying.Free(s.p, row.source, x);
    } else if Relaying.Carries(row) {
      assert Consuming.Accounted(s.c, e);
    }
  }

  /** Every schedule settles. From every reachable state, whatever failed before, a continuation
      without failures and new input has no more steps than the measure of that state, and if it
      goes on until no healthy step is left every event is at rest. */
  lemma EveryScheduleSettles(past: seq<Step>, future: seq<Step>)
    requires Legal(INIT, past) && Legal(Exec(INIT, past), future) && HealthyRun(Exec(INIT, past), future)
    ensures |future| <= Measure(Exec(INIT, past))
    ensures var s := Exec(Exec(INIT, past), future);
            (forall t :: Enabled(s, t) ==> !Healthy(s, t)) ==> Settled(s) && forall e :: e in s.p.rows ==> AtRest(s, e)
  {
    InvInit();
    InvRun(INIT, past);
    InvRun(Exec(INIT, past), future);
    HealthyRunsAreBounded(Exec(INIT, past), future);
    var s := Exec(Exec(INIT, past), future);
    if forall t :: Enabled(s, t) ==> !Healthy(s, t) {
      StuckIsSettled(s);
    }
  }

  /** Where no healthy step is left everything is at rest. */
  lemma StuckIsSettled(s: State)
    requires Inv(s) && forall t :: Enabled(s, t) ==> !Healthy(s, t)
    ensures Settled(s) && forall e :: e in s.p.rows ==> AtRest(s, e)
  {
    if !Settled(s) {
      var t := NextHealthyStep(s);
      assert false;
    }
    forall e | e in s.p.rows ensures AtRest(s, e) { SettledAtRest(s, e); }
  }

  // ---------------------------------------------------------------- what stays blocked

  /** No drain takes `e` while another holds the raising `x` before it. */
  ghost predicate NeverPast(s: State, steps: seq<Step>, x: Uuid, e: Uuid)
    requires Legal(s, steps)
    decreases |steps|
  {
    steps == [] || ((steps[0].Produce? ==> Blocking.NotPast(s.p, steps[0].ps, x, e))
                    && NeverPast(Apply(s, steps[0]), steps[1..], x, e))
  }

  /** A pending row that is in no open drain and has a raising row at or before it stays pending in
      every run, healthy or not, in which no drain takes it while another holds that row. */
  lemma {:induction false} BlockedRowsStay(s: State, steps: seq<Step>, x: Uuid, e: Uuid)
    requires Inv(s) && Legal(s, steps) && NeverPast(s, steps, x, e) && Blocking.HeldBack(s.p, x, e)
    ensures e in Exec(s, steps).p.rows && !Exec(s, steps).p.rows[e].published
    decreases |steps|
  {
    if steps != [] {
      InvStep(s, steps[0]);
      if steps[0].Produce? { Blocking.StaysHeldBack(s.p, steps[0].ps, x, e); }
      BlockedRowsStay(Apply(s, steps[0]), steps[1..], x, e);
    }
  }

  /** Which is so when drains of one producer do not overlap. */
  lemma {:induction false} SteadyIsNeverPast(s: State, steps: seq<Step>, x: Uuid, e: Uuid)
    requires Inv(s) && Legal(s, steps) && SteadyRun(s, steps) && Blocking.HeldBack(s.p, x, e)
    ensures NeverPast(s, steps, x, e)
    decreases |steps|
  {
    if steps != [] {
      InvStep(s, steps[0]);
      if steps[0].Produce? {
        Blocking.OrderlyIsNotPast(s.p, steps[0].ps, x, e);
        Blocking.StaysHeldBack(s.p, steps[0].ps, x, e);
      }
      SteadyIsNeverPast(Apply(s, steps[0]), steps[1..], x, e);
    }
  }

  /** The turn an open drain takes when nothing fails. */
  function GoodTurn(row: Outbox.Row, r: nat): Relaying.Step {
    Relaying.RelayRow(r, !Relaying.Raises(row), if Relaying.Carries(row) then 1 else 0)
  }

  lemma TurnAdvances(p: Relaying.State, r: nat)
    requires Relaying.Working(p, r)
    ensures var t := GoodTurn(Relaying.Current(p, r), r);
            && Relaying.Enabled(p, t)
            && var d, d1 := p.drains[r], Relaying.Apply(p, t).drains[r];
            && d1.batch == d.batch && d.pos <= d1.pos <= |d.batch| && DrainCost(d1) < DrainCost(d)
            && (!Relaying.Raises(Relaying.Current(p, r)) ==> d1.pos == d.pos + 1)
  {
  }

  /** An open drain goes on to its commit, and what it has come past is published. */
  lemma {:induction false} DrainFinishes(s: State, r: nat) returns (steps: seq<Step>)
    requires Inv(s) && r in s.p.drains
    ensures Legal(s, steps)
    ensures s.p.drains[r].pos <= |s.p.drains[r].batch|
    ensures Published(Exec(s, steps).p, s.p.drains[r].batch[..s.p.drains[r].pos])
    decreases DrainCost(s.p.drains[r])
  {
    var d := s.p.drains[r];
    assert Relaying.DrainOk(s.p.rows, d);
    Relaying.LoopNeverStuck(s.p, r);
    if Relaying.Enabled(s.p, Relaying.CommitDrain(r)) {
      var t := Produce(Relaying.CommitDrain(r));
      CommitPublishes(s.p, r);
      LegalSnoc(s, [], t);
      steps := [] + [t];
    } else {
      TurnAdvances(s.p, r);
      var t := Produce(GoodTurn(Relaying.Current(s.p, r), r));
      InvStep(s, t);
      var s1 := Apply(s, t);
      var rest := DrainFinishes(s1, r);
      LegalCons(s, t, rest);
      steps := [t] + rest;
      PublishedBefore(Exec(s1, rest).p, d.batch, d.pos, s1.p.drains[r].pos);
    }
  }

  ghost predicate Published(p: Relaying.State, ids: seq<Uuid>) {
    forall e :: e in ids ==> e in p.rows && p.rows[e].published
  }

  lemma PublishedBefore(p: Relaying.State, batch: seq<Uuid>, a: nat, b: nat)
    requires a <= b <= |batch| && Published(p, batch[..b])
    ensures Published(p, batch[..a])
  {
    assert forall e :: e in batch[..a] ==> e in batch[..b];
  }

  lemma CommitPublishes(p: Relaying.State, r: nat)
    requires Relaying.Enabled(p, Relaying.CommitDrain(r)) && Relaying.DrainOk(p.rows, p.drains[r])
    ensures Published(Relaying.Apply(p, Relaying.CommitDrain(r)), p.drains[r].batch[..p.drains[r].pos])
  {
    var d := p.drains[r];
    assert forall e :: e in d.batch[..d.pos] ==> e in d.batch[..Relaying.Touched(d)];
  }

  /** A drain that starts with a row that does not raise gets it published. */
  lemma FirstRowGoes(s: State, r: nat, source: string, batch: seq<Uuid>) returns (steps: seq<Step>)
    requires Inv(s) && Relaying.Enabled(s.p, Relaying.BeginDrain(r, source, batch)) && !StartsRaising(s.p, batch)
    ensures Legal(s, steps) && Published(Exec(s, steps).p, batch[..1])
  {
    var begin := Produce(Relaying.BeginDrain(r, source, batch));
    assert Relaying.Free(s.p, source, batch[0]);
    InvStep(s, begin);
    var s1 := Apply(s, begin);
    assert Relaying.Current(s1.p, r) == s.p.rows[batch[0]];
    TurnAdvances(s1.p, r);
    var turn := Produce(GoodTurn(s.p.rows[batch[0]], r));
    InvStep(s1, turn);
    var rest := DrainFinishes(Apply(s1, turn), r);
    LegalCons(s1, turn, rest);
    LegalCons(s, begin, [turn] + rest);
    steps := [begin] + ([turn] + rest);
  }

  /** And it is not so otherwise. While one replica holds the row that raises, another whose
      SELECT starts with a row behind it gets that row published: the rows before it were locked
      or published, and the first replica's batch of 100 ended before it. */
  lemma SecondReplicaOvertakes(s: State, r: nat, x: Uuid, e: Uuid) returns (steps: seq<Step>)
    requires Inv(s) && r !in s.p.drains && Blocking.Behind(s.p, x, e) && Relaying.Locked(s.p, x)
    requires !Relaying.Raises(s.p.rows[e])
    requires var batch := Relaying.Selected(s.p, s.p.rows[e].source); batch != [] && batch[0] == e
    ensures Legal(s, steps) && e in Exec(s, steps).p.rows && Exec(s, steps).p.rows[e].published
  {
    var source := s.p.rows[e].source;
    var batch := Relaying.Selected(s.p, source);
    Relaying.OldestSpec(s.p, source, s.p.order, Outbox.BATCH_SIZE);
    steps := FirstRowGoes(s, r, source, batch);
    assert batch[..1][0] == e;
  }

  // ---------------------------------------------------------------- recovery

  ghost predicate IsReplay(t: Step) { t.Consume? && t.cs.Replay? }

  /** Nothing fails, an operator may replay dead letters, and drains of one producer do not
      overlap. */
  ghost predicate GoodStep(s: State, t: Step) {
    Enabled(s, t) && (IsReplay(t) || Healthy(s, t)) && Steady(s, t)
  }

  ghost predicate GoodRun(s: State, steps: seq<Step>)
    decreases |steps|
  {
    steps == [] || (GoodStep(s, steps[0]) && GoodRun(Apply(s, steps[0]), steps[1..]))
  }

  lemma {:induction false} GoodRunAppend(s: State, a: seq<Step>, b: seq<Step>)
    requires Legal(s, a) && GoodRun(s, a) && GoodRun(Exec(s, a), b)
    ensures GoodRun(s, a + b)
    decreases |a|
  {
    if a == [] {
      assert a + b == b;
    } else {
      assert (a + b)[1..] == a[1..] + b;
      GoodRunAppend(Apply(s, a[0]), a[1..], b);
    }
  }

  lemma {:induction false} GoodRunIsSteady(s: State, steps: seq<Step>)
    requires Legal(s, steps) && GoodRun(s, steps)
    ensures SteadyRun(s, steps)
    decreases |steps|
  {
    if steps != [] {
      GoodRunIsSteady(Apply(s, steps[0]), steps[1..]);
    }
  }

  /** Only messages the schema refuses are dead-lettered, and no delivery is about to be. */
  ghost predicate DeadRefused(c: Consuming.State) {
    && (forall m :: m in c.dead ==> Inbox.Accept(m).None?)
    && (forall d :: !Consuming.In(c, d, Consuming.Failing))
  }

  lemma ProducerFrame(p: Relaying.State, ps: Relaying.Step)
    requires Relaying.DrainsOk(p) && Relaying.Enabled(p, ps) && !ps.Enqueue?
    ensures var p' := Relaying.Apply(p, ps); p'.rows.Keys == p.rows.Keys && p'.order == p.order
  {
    if ps.CommitDrain? {
      assert Relaying.DrainOk(p.rows, p.drains[ps.replica]);
    }
  }

  lemma StaysRefused(c: Consuming.State, cs: Consuming.Step)
    requires Consuming.Enabled(c, cs) && DeadRefused(c) && !cs.Fail?
    ensures DeadRefused(Consuming.Apply(c, cs))
  {
    var c' := Consuming.Apply(c, cs);
    forall d ensures !Consuming.In(c', d, Consuming.Failing) {
      assert !Consuming.In(c, d, Consuming.Failing);
    }
  }

  /** What the healthy steps leave alone. */
  lemma HealthyFrame(s: State, t: Step)
    requires Inv(s) && Enabled(s, t) && Healthy(s, t)
    ensures var s' := Apply(s, t);
            && s'.p.rows.Keys == s.p.rows.Keys && s'.p.order == s.p.order
            && (DeadRefused(s.c) ==> DeadRefused(s'.c))
  {
    if t.Produce? {
      ProducerFrame(s.p, t.ps);
      assert forall d :: Consuming.In(Apply(s, t).c, d, Consuming.Failing) <==> Consuming.In(s.c, d, Consuming.Failing);
    } else if DeadRefused(s.c) {
      StaysRefused(s.c, t.cs);
    }
  }

  /** Going on until everything is settled. */
  lemma {:induction false} RunToRest(s: State) returns (steps: seq<Step>)
    requires Inv(s)
    ensures Legal(s, steps) && GoodRun(s, steps) && Settled(Exec(s, steps))
    ensures var s' := Exec(s, steps);
            && s'.p.rows.Keys == s.p.rows.Keys && s'.p.order == s.p.order
            && (DeadRefused(s.c) ==> DeadRefused(s'.c))
    decreases Measure(s)
  {
    if Settled(s) {
      steps := [];
    } else {
      var t := NextHealthyStep(s);
      HealthyStepDecreases(s, t);
      HealthyFrame(s, t);
      InvStep(s, t);
      var rest := RunToRest(Apply(s, t));
      steps := [t] + rest;
      assert steps[1..] == rest;
    }
  }

  lemma {:induction false} ReplayAll(s: State) returns (steps: seq<Step>)
    ensures Legal(s, steps) && GoodRun(s, steps)
    ensures Exec(s, steps) == s.(c := s.c.(queue := s.c.queue + s.c.dead, dead := multiset{}))
    decreases |s.c.dead|
  {
    if m :| m in s.c.dead {
      var t := Consume(Consuming.Replay(m));
      var rest := ReplayAll(Apply(s, t));
      steps := [t] + rest;
      assert steps[1..] == rest;
      assert s.c.queue + multiset{m} + (s.c.dead - multiset{m}) == s.c.queue + s.c.dead;
    } else {
      assert s.c.dead == multiset{};
      assert s.c.queue + s.c.dead == s.c.queue;
      steps := [];
    }
  }

  /** Applied exactly when the schema accepts it, dead-lettered otherwise. */
  ghost predicate Delivered(s: State, e: Uuid)
    requires e in s.p.rows && Relaying.Carries(s.p.rows[e])
  {
    if Inbox.Accept(Relaying.MessageOf(s.p.rows[e])).Some? then e in s.c.processed
    else e !in s.c.processed && exists m :: m in s.c.dead && m.eventId == e
  }

  lemma RestDelivered(s: State, e: Uuid)
    requires Inv(s) && DeadRefused(s.c) && e in s.p.rows && AtRest(s, e)
    requires s.p.rows[e].published && Relaying.Carries(s.p.rows[e])
    ensures Delivered(s, e)
  {
    var p := Promised(s.p.rows);
    assert e in p && p[e] == Relaying.MessageOf(s.p.rows[e]);
    if e !in s.c.processed {
      var m :| m in s.c.dead && m.eventId == e;
      assert Consuming.Present(s.c, m) && Consuming.Genuine(p, m);
    }
  }

  /** Recovery. From every reachable state, after any failures, there is a continuation in which
      nothing fails and no step but an operator's replay is out of the ordinary, after which
      every published event is applied, or dead-lettered if the schema refuses it. A row is left
      pending only if it is blocked; and of the rows that were pending and in no open drain
      exactly the blocked ones are. */
  lemma AlwaysRecoverable(past: seq<Step>) returns (future: seq<Step>)
    requires Legal(INIT, past)
    ensures Legal(Exec(INIT, past), future) && GoodRun(Exec(INIT, past), future)
    ensures var s, s' := Exec(INIT, past), Exec(Exec(INIT, past), future);
            && Settled(s') && s'.p.rows.Keys == s.p.rows.Keys
            && forall e :: e in s'.p.rows ==>
                 && (s'.p.rows[e].published && Relaying.Carries(s'.p.rows[e]) ==> Delivered(s', e))
                 && (!s'.p.rows[e].published ==> Blocked(s', e))
                 && (!s.p.rows[e].published && !Relaying.Locked(s.p, e) && Blocked(s, e) ==> !s'.p.rows[e].published)
  {
    InvInit();
    InvRun(INIT, past);
    var s0 := Exec(INIT, past);
    var a := RunToRest(s0);
    InvRun(s0, a);
    var s1 := Exec(s0, a);
    var b := ReplayAll(s1);
    InvRun(s1, b);
    var s2 := Exec(s1, b);
    var c := RunToRest(s2);
    InvRun(s2, c);
    var s3 := Exec(s2, c);
    LegalAppend(s1, b, c);
    LegalAppend(s0, a, b + c);
    GoodRunAppend(s1, b, c);
    GoodRunAppend(s0, a, b + c);
    future := a + (b + c);
    GoodRunIsSteady(s0, future);
    forall e | e in s3.p.rows
      ensures s3.p.rows[e].published && Relaying.Carries(s3.p.rows[e]) ==> Delivered(s3, e)
      ensures !s3.p.rows[e].published ==> Blocked(s3, e)
      ensures !s0.p.rows[e].published && !Relaying.Locked(s0.p, e) && Blocked(s0, e) ==> !s3.p.rows[e].published
    {
      SettledAtRest(s3, e);
      if s3.p.rows[e].published && Relaying.Carries(s3.p.rows[e]) { RestDelivered(s3, e); }
      if !s0.p.rows[e].published && !Relaying.Locked(s0.p, e) && Blocked(s0, e) {
        var x :| x in s0.p.rows && Relaying.Raises(s0.p.rows[x]) && s0.p.rows[x].source == s0.p.rows[e].source
                 && Relaying.UpTo(s0.p.order, x, e);
        SteadyIsNeverPast(s0, future, x, e);
        BlockedRowsStay(s0, future, x, e);
      }
    }
  }
}
