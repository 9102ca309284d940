/** The whole notification path: producers, relays, broker and consumers composed. Every
    step of either half may be interleaved with every other, and every failure the code can
    meet is a step, so the legal runs cover whatever the deployed system does. */
module Delivery {
  import opened Base
  import Inbox
  import Outbox
  import Relaying
  import Consuming

  datatype State = State(p: Relaying.State, c: Consuming.State)

  const INIT := State(Relaying.State(map[], [], map[]), Consuming.State(multiset{}, map[], multiset{}, [], {}))

  datatype Step = Produce(ps: Relaying.Step) | Consume(cs: Consuming.Step)

  ghost predicate Enabled(s: State, t: Step) {
    match t
    case Produce(ps) => Relaying.Enabled(s.p, ps)
    case Consume(cs) => Consuming.Enabled(s.c, cs)
  }

  /** What a producer step leaves on the broker's queue. */
  ghost function QueueAfter(s: State, ps: Relaying.Step): multiset<Inbox.Message>
    requires Relaying.Enabled(s.p, ps)
  {
    if ps.RelayRow? && Relaying.Carries(Relaying.Current(s.p, ps.replica)) then
      var m := Relaying.MessageOf(Relaying.Current(s.p, ps.replica));
      s.c.queue[m := s.c.queue[m] + ps.copies]
    else s.c.queue
  }

  ghost function Apply(s: State, t: Step): State
    requires Enabled(s, t)
  {
    match t
    case Produce(ps) => State(Relaying.Apply(s.p, ps), s.c.(queue := QueueAfter(s, ps)))
    case Consume(cs) => s.(c := Consuming.Apply(s.c, cs))
  }

  /** A run: each step is enabled where it is taken. */
  ghost predicate Legal(s: State, steps: seq<Step>)
    decreases |steps|
  {
    steps == [] || (Enabled(s, steps[0]) && Legal(Apply(s, steps[0]), steps[1..]))
  }

  ghost function Exec(s: State, steps: seq<Step>): State
    requires Legal(s, steps)
    decreases |steps|
  {
    if steps == [] then s else Exec(Apply(s, steps[0]), steps[1..])
  }

  // ---------------------------------------------------------------- runs put together

  lemma LegalCons(s: State, t: Step, rest: seq<Step>)
    requires Enabled(s, t) && Legal(Apply(s, t), rest)
    ensures Legal(s, [t] + rest) && Exec(s, [t] + rest) == Exec(Apply(s, t), rest)
  {
    assert ([t] + rest)[1..] == rest;
  }

  lemma {:induction false} LegalAppend(s: State, a: seq<Step>, b: seq<Step>)
    requires Legal(s, a) && Legal(Exec(s, a), b)
    ensures Legal(s, a + b) && Exec(s, a + b) == Exec(Exec(s, a), b)
    decreases |a|
  {
    if a == [] {
      assert a + b == b;
    } else {
      assert (a + b)[1..] == a[1..] + b;
      LegalAppend(Apply(s, a[0]), a[1..], b);
    }
  }

  lemma LegalSnoc(s: State, steps: seq<Step>, t: Step)
    requires Legal(s, steps) && Enabled(Exec(s, steps), t)
    ensures Legal(s, steps + [t]) && Exec(s, steps + [t]) == Apply(Exec(s, steps), t)
  {
    var s' := Exec(s, steps);
    assert Legal(Apply(s', t), []) && [t] + [] == [t];
    LegalCons(s', t, []);
    LegalAppend(s, steps, [t]);
  }

  // ---------------------------------------------------------------- invariant

  /** The one message each committed row may put on the broker. */
  ghost function Promised(rows: map<Uuid, Outbox.Row>): Consuming.Promise {
    map e | e in rows && Relaying.Carries(rows[e]) :: Relaying.MessageOf(rows[e])
  }

  /** A row marked published, committed or not, has its event on the far side already. */
  ghost predicate NothingLost(s: State) {
    && (forall e :: e in s.p.rows && s.p.rows[e].published && Relaying.Carries(s.p.rows[e]) ==>
          Consuming.Accounted(s.c, e))
    && (forall r, e :: r in s.p.drains && MarkedPublished(s.p.drains[r], e) ==> Consuming.Accounted(s.c, e))
  }

  predicate MarkedPublished(d: Relaying.Drain, e: Uuid) {
    e in d.writes && d.writes[e].published && Relaying.Carries(d.writes[e])
  }

  ghost predicate Inv(s: State) {
    && Relaying.Inv(s.p)
    && Consuming.Inv(s.c, Promised(s.p.rows))
    && NothingLost(s)
  }

  lemma ProduceKeepsConsumers(s: State, ps: Relaying.Step)
    requires Inv(s) && Relaying.Enabled(s.p, ps)
    ensures Consuming.Inv(Apply(s, Produce(ps)).c, Promised(Relaying.Apply(s.p, ps).rows))
  {
    Relaying.RowsPersist(s.p, ps);
    var rows, rows' := s.p.rows, Relaying.Apply(s.p, ps).rows;
    var q := QueueAfter(s, ps);
    forall e | e in Promised(rows) ensures e in Promised(rows') && Promised(rows')[e] == Promised(rows)[e] {
      assert Relaying.SameEvent(rows'[e], rows[e]);
    }
    forall m | m in q && m !in s.c.queue ensures Consuming.Genuine(Promised(rows'), m) {
      var row := Relaying.Current(s.p, ps.replica);
      assert m == Relaying.MessageOf(row);
      assert row.id in rows && rows[row.id] == row;
    }
    Consuming.ProducersMayAdd(s.c, Promised(rows), Promised(rows'), q);
  }

  lemma QueueGrowthKeepsAccounted(c: Consuming.State, q: multiset<Inbox.Message>, e: Uuid)
    requires Consuming.Accounted(c, e) && forall m :: m in c.queue ==> m in q
    ensures Consuming.Accounted(c.(queue := q), e)
  {
    if m :| m in c.queue && m.eventId == e {
      assert m in q;
    }
  }

  lemma ProduceLosesNothing(s: State, ps: Relaying.Step)
    requires Inv(s) && Relaying.Enabled(s.p, ps)
    ensures NothingLost(Apply(s, Produce(ps)))
  {
    var s' := Apply(s, Produce(ps));
    forall e | Consuming.Accounted(s.c, e) ensures Consuming.Accounted(s'.c, e) {
      QueueGrowthKeepsAccounted(s.c, QueueAfter(s, ps), e);
    }
    if ps.RelayRow? {
      var row := Relaying.Current(s.p, ps.replica);
      if ps.ok && Relaying.Carries(row) {
        var m := Relaying.MessageOf(row);
        assert m in s'.c.queue && m.eventId == row.id;
      }
      forall r, e | r in s'.p.drains && MarkedPublished(s'.p.drains[r], e) ensures Consuming.Accounted(s'.c, e) {
        assert MarkedPublished(s.p.drains[r], e) || (r == ps.replica && ps.ok && e == row.id);
      }
    } else if ps.CommitDrain? {
      forall e | e in s'.p.rows && s'.p.rows[e].published && Relaying.Carries(s'.p.rows[e])
        ensures Consuming.Accounted(s'.c, e)
      {
        if e in s.p.drains[ps.replica].writes { assert MarkedPublished(s.p.drains[ps.replica], e); }
      }
    }
  }

  lemma InvStep(s: State, t: Step)
    requires Inv(s) && Enabled(s, t)
    ensures Inv(Apply(s, t))
  {
    match t
    case Produce(ps) =>
      Relaying.InvStep(s.p, ps);
      ProduceKeepsConsumers(s, ps);
      ProduceLosesNothing(s, ps);
    case Consume(cs) =>
      Consuming.InvStep(s.c, Promised(s.p.rows), cs);
      forall e | Consuming.Accounted(s.c, e) ensures Consuming.Accounted(Consuming.Apply(s.c, cs), e) {
        Consuming.AccountedStays(s.c, cs, e);
      }
  }

  lemma {:induction false} InvRun(s: State, steps: seq<Step>)
    requires Inv(s) && Legal(s, steps)
    ensures Inv(Exec(s, steps))
    decreases |steps|
  {
    if steps != [] {
      InvStep(s, steps[0]);
      InvRun(Apply(s, steps[0]), steps[1..]);
    }
  }

  lemma InvInit()
    ensures Inv(INIT)
  {
  }

  // ---------------------------------------------------------------- safety of every run

  /** No event is lost. In every reachable state each committed outbox row that carries
      notifications is still to be published, or applied in the inbox, or queued, or in a
      consumer's hands, or dead-lettered; a row its relay cannot decode is still pending or
      retired with its error on record, and one its relay raises on is still pending. */
  lemma NoEventLost(steps: seq<Step>, e: Uuid)
    requires Legal(INIT, steps) && e in Exec(INIT, steps).p.rows
    ensures var s := Exec(INIT, steps);
            var row := s.p.rows[e];
            && (Relaying.Carries(row) ==>
                  || !row.published
                  || e in s.c.processed
                  || (exists m :: m in s.c.queue && m.eventId == e)
                  || (exists d :: d in s.c.inflight && s.c.inflight[d].msg.eventId == e)
                  || (exists m :: m in s.c.dead && m.eventId == e))
            && (Relaying.Work(row).Retire? ==> !row.published || row.lastError.Some?)
            && (Relaying.Raises(row) ==> !row.published)
  {
    InvInit();
    InvRun(INIT, steps);
  }

  /** Exactly once in effect. In every reachable state the rows the inbox holds of an event, at the
      positions `at`, are the notifications its outbox row was committed with, accepted, each once
      and in order, when processed_event holds the id, and there are none otherwise. */
  lemma ExactlyOnce(steps: seq<Step>, e: Uuid) returns (at: seq<nat>)
    requires Legal(INIT, steps)
    ensures Consuming.RowsOf(Exec(INIT, steps).c.inbox, e, at)
    ensures Consuming.NotesAt(Exec(INIT, steps).c.inbox, at, Consuming.NotesFrom(Exec(INIT, steps).c.inbox, e))
    ensures var s := Exec(INIT, steps);
            if e in s.c.processed then
              && e in s.p.rows && s.p.rows[e].id == e && s.p.rows[e].payload.Decodable?
              && |at| == |s.p.rows[e].payload.notes| > 0
              && Inbox.AcceptEnvelope(s.p.rows[e].source, s.p.rows[e].payload.notes)
                 == Some(Consuming.NotesFrom(s.c.inbox, e))
              && forall i :: 0 <= i < |at| ==>
                   at[i] < |s.c.inbox|
                   && Inbox.AcceptNote(s.p.rows[e].payload.notes[i]) == Some(s.c.inbox[at[i]].row.note)
            else at == []
  {
    InvInit();
    InvRun(INIT, steps);
    var s := Exec(INIT, steps);
    at := Consuming.NotesFromAre(s.c.inbox, e);
    if e in s.c.processed {
      Inbox.AcceptNotesEach(s.p.rows[e].payload.notes);
    }
  }

  /** In every reachable state every in-app notification is sent or read, with its time. */
  lemma {:induction false} InAppIsSent(s: State, steps: seq<Step>)
    requires Consuming.RowsSettled(s.c) && Legal(s, steps)
    ensures Consuming.RowsSettled(Exec(s, steps).c)
    decreases |steps|
  {
    if steps != [] {
      if steps[0].Consume? { Consuming.RowsStaySettled(s.c, steps[0].cs); }
      InAppIsSent(Apply(s, steps[0]), steps[1..]);
    }
  }

  /** Relay exclusion. In every reachable state no outbox row is in two open drain
      transactions, and none that is committed as published is in any. */
  lemma RelaysExcludeEachOther(steps: seq<Step>, r: nat, q: nat, e: Uuid)
    requires Legal(INIT, steps)
    requires var s := Exec(INIT, steps).p;
             r in s.drains && q in s.drains && e in s.drains[r].batch && e in s.drains[q].batch
    ensures r == q && e in Exec(INIT, steps).p.rows && !Exec(INIT, steps).p.rows[e].published
  {
    InvInit();
    InvRun(INIT, steps);
    assert Relaying.DrainOk(Exec(INIT, steps).p.rows, Exec(INIT, steps).p.drains[r]);
  }

  /** Whether the step selects or publishes the row of event `e`. */
  ghost predicate Handles(s: State, t: Step, e: Uuid)
    requires Enabled(s, t)
  {
    t.Produce? && ((t.ps.BeginDrain? && e in t.ps.batch)
                   || (t.ps.RelayRow? && Relaying.Current(s.p, t.ps.replica).id == e))
  }

  /** Once committed as published, a row is never selected or published again, nor changed. */
  lemma {:induction false} PublishedIsFinal(s: State, steps: seq<Step>, e: Uuid)
    requires Inv(s) && Legal(s, steps) && e in s.p.rows && s.p.rows[e].published
    ensures e in Exec(s, steps).p.rows && Exec(s, steps).p.rows[e] == s.p.rows[e]
    ensures steps != [] ==> !Handles(s, steps[0], e)
    decreases |steps|
  {
    if steps != [] {
      var t := steps[0];
      if t.Produce? {
        Relaying.RowsPersist(s.p, t.ps);
        if t.ps.RelayRow? {
          assert Relaying.DrainOk(s.p.rows, s.p.drains[t.ps.replica]);
          var d := s.p.drains[t.ps.replica];
          assert d.batch[d.pos] in d.batch;
        }
      }
      InvStep(s, t);
      PublishedIsFinal(Apply(s, t), steps[1..], e);
    }
  }

  /** The two previous facts over whole runs: after any first part of a run in which the row
      became published, no step of the rest touches it. */
  lemma {:induction false} PublishedOnceCommitted(before: seq<Step>, after: seq<Step>, e: Uuid)
    requires Legal(INIT, before) && Legal(Exec(INIT, before), after)
    requires e in Exec(INIT, before).p.rows && Exec(INIT, before).p.rows[e].published
    ensures forall k :: 0 <= k < |after| ==>
              && Legal(Exec(INIT, before), after[..k])
              && Enabled(Exec(Exec(INIT, before), after[..k]), after[k])
              && !Handles(Exec(Exec(INIT, before), after[..k]), after[k], e)
  {
    InvInit();
    InvRun(INIT, before);
    var s := Exec(INIT, before);
    forall k | 0 <= k < |after|
      ensures Legal(s, after[..k])
      ensures Enabled(Exec(s, after[..k]), after[k]) && !Handles(Exec(s, after[..k]), after[k], e)
    {
      assert after == after[..k] + after[k..];
      LegalSplit(s, after[..k], after[k..]);
      NotHandledAt(s, after[..k], after[k..], e);
    }
  }

  lemma NotHandledAt(s: State, first: seq<Step>, rest: seq<Step>, e: Uuid)
    requires Inv(s) && Legal(s, first) && Legal(Exec(s, first), rest) && rest != []
    requires e in s.p.rows && s.p.rows[e].published
    ensures Enabled(Exec(s, first), rest[0]) && !Handles(Exec(s, first), rest[0], e)
  {
    InvRun(s, first);
    PublishedIsFinal(s, first, e);
    PublishedIsFinal(Exec(s, first), rest, e);
  }

  lemma {:induction false} LegalSplit(s: State, a: seq<Step>, b: seq<Step>)
    requires Legal(s, a + b)
    ensures Legal(s, a) && Legal(Exec(s, a), b) && Exec(s, a + b) == Exec(Exec(s, a), b)
    decreases |a|
  {
    if a == [] {
      assert a + b == b;
    } else {
      assert (a + b)[1..] == a[1..] + b;
      LegalSplit(Apply(s, a[0]), a[1..], b);
    }
  }
}
