/** The services' own methods as runs of the step machines: what `Relay.Drain` and
    `InboxStore.Handle` do in one call is what the steps they consist of do one after another. */
module Links {
  import opened Base
  import Inbox
  import Outbox
  import Relaying
  import Consuming
  import opened Delivery

  // ---------------------------------------------------------------- one delivery

  function Rows(inbox: seq<Consuming.Stored>): seq<Inbox.Row> {
    seq(|inbox|, i requires 0 <= i < |inbox| => inbox[i].row)
  }

  /** The first part: the key is inserted and the transaction committed. */
  lemma EventCommitted(s: State, d: nat, now: int) returns (steps: seq<Step>)
    requires Consuming.In(s.c, d, Consuming.Received) && Inbox.Accept(s.c.inflight[d].msg).Some?
    requires var e := s.c.inflight[d].msg.eventId; e !in s.c.processed && !Consuming.KeyHeld(s.c, e)
    ensures Legal(s, steps)
    ensures var s', m := Exec(s, steps), s.c.inflight[d].msg;
            && s'.p == s.p && s'.c.queue == s.c.queue && s'.c.dead == s.c.dead
            && s'.c.inflight == s.c.inflight[d := Consuming.Delivery(m, Consuming.Committed)]
            && Rows(s'.c.inbox) == Rows(s.c.inbox) + Inbox.BuildAll(Inbox.Accept(m).value, now)
            && s'.c.processed == s.c.processed + {m.eventId}
  {
    var s1 := Apply(s, Consume(Consuming.InsertKey(d)));
    LegalSnoc(s, [], Consume(Consuming.InsertKey(d)));
    steps := [] + [Consume(Consuming.InsertKey(d))];
    LegalSnoc(s, steps, Consume(Consuming.CommitEvent(d, now)));
    steps := steps + [Consume(Consuming.CommitEvent(d, now))];
    assert s1.c.inflight[d := Consuming.Delivery(s.c.inflight[d].msg, Consuming.Committed)]
        == s.c.inflight[d := Consuming.Delivery(s.c.inflight[d].msg, Consuming.Committed)];
  }

  /** What is left of a delivery once it is out of the consumer's hands. */
  ghost predicate Gone(s: State, s': State, d: nat, disposition: Inbox.Disposition)
    requires d in s.c.inflight
  {
    && s'.p == s.p && s'.c.inflight == s.c.inflight - {d} && s'.c.queue == s.c.queue
    && s'.c.inbox == s.c.inbox && s'.c.processed == s.c.processed
    && s'.c.dead == if disposition == Inbox.Ack then s.c.dead else s.c.dead + multiset{s.c.inflight[d].msg}
  }

  lemma FailsAway(s: State, d: nat) returns (steps: seq<Step>)
    requires d in s.c.inflight
    ensures Legal(s, steps) && Gone(s, Exec(s, steps), d, Inbox.DeadLetter)
  {
    var s1 := Apply(s, Consume(Consuming.Fail(d)));
    LegalSnoc(s, [], Consume(Consuming.Fail(d)));
    steps := [] + [Consume(Consuming.Fail(d))];
    LegalSnoc(s, steps, Consume(Consuming.DeadLetter(d)));
    steps := steps + [Consume(Consuming.DeadLetter(d))];
    assert s1.c.inflight - {d} == s.c.inflight - {d};
  }

  /** A delivery that changes nothing: refused, failing before its commit, or a repetition. */
  lemma NothingApplied(s: State, d: nat, fault: Inbox.Fault) returns (steps: seq<Step>)
    requires Consuming.In(s.c, d, Consuming.Received)
    requires var m := s.c.inflight[d].msg;
             Inbox.Accept(m).None? || fault == Inbox.FailsBeforeCommit || m.eventId in s.c.processed
    ensures Legal(s, steps)
    ensures Gone(s, Exec(s, steps), d,
                 if Inbox.Accept(s.c.inflight[d].msg).None? || fault == Inbox.FailsBeforeCommit then Inbox.DeadLetter
                 else Inbox.Ack)
  {
    if Inbox.Accept(s.c.inflight[d].msg).None? {
      LegalSnoc(s, [], Consume(Consuming.RejectMalformed(d)));
      steps := [] + [Consume(Consuming.RejectMalformed(d))];
    } else if fault == Inbox.FailsBeforeCommit {
      steps := FailsAway(s, d);
    } else {
      var s1 := Apply(s, Consume(Consuming.SeeDuplicate(d)));
      LegalSnoc(s, [], Consume(Consuming.SeeDuplicate(d)));
      steps := [] + [Consume(Consuming.SeeDuplicate(d))];
      LegalSnoc(s, steps, Consume(Consuming.Acknowledge(d)));
      steps := steps + [Consume(Consuming.Acknowledge(d))];
      assert s1.c.inflight - {d} == s.c.inflight - {d};
    }
  }

  /** An undisturbed `Handle` is a run: inbox, processed events and the message's whereabouts end
      as its specification says, whatever fault strikes. */
  lemma HandleIsARun(s: State, d: nat, processed: map<Uuid, string>, fault: Inbox.Fault, now: int)
      returns (steps: seq<Step>)
    requires Consuming.In(s.c, d, Consuming.Received) && !Consuming.KeyHeld(s.c, s.c.inflight[d].msg.eventId)
    requires s.c.processed == processed.Keys
    ensures Legal(s, steps)
    ensures var s', m := Exec(s, steps), s.c.inflight[d].msg;
            var h := Inbox.HandleSpec(Rows(s.c.inbox), processed, m, fault, now);
            && Rows(s'.c.inbox) == h.rows && s'.c.processed == h.processed.Keys
            && s'.p == s.p && s'.c.queue == s.c.queue && s'.c.inflight == s.c.inflight - {d}
            && s'.c.dead == if h.disposition == Inbox.Ack then s.c.dead else s.c.dead + multiset{m}
  {
    var m := s.c.inflight[d].msg;
    if Inbox.Accept(m).None? || fault == Inbox.FailsBeforeCommit || m.eventId in processed {
      steps := NothingApplied(s, d, fault);
    } else {
      var begin := EventCommitted(s, d, now);
      var s1 := Exec(s, begin);
      var end := LeavesAfterCommit(s1, d, fault);
      LegalAppend(s, begin, end);
      steps := begin + end;
      assert s1.c.inflight - {d} == s.c.inflight - {d};
    }
  }

  lemma LeavesAfterCommit(s: State, d: nat, fault: Inbox.Fault) returns (steps: seq<Step>)
    requires Consuming.In(s.c, d, Consuming.Committed)
    ensures Legal(s, steps)
    ensures Gone(s, Exec(s, steps), d, if fault == Inbox.FailsAfterCommit then Inbox.DeadLetter else Inbox.Ack)
  {
    if fault == Inbox.FailsAfterCommit {
      steps := FailsAway(s, d);
    } else {
      LegalSnoc(s, [], Consume(Consuming.Acknowledge(d)));
      steps := [] + [Consume(Consuming.Acknowledge(d))];
    }
  }

  // ---------------------------------------------------------------- one drain

  /** One producer's outbox, oldest row first. */
  function Table(rows: map<Uuid, Outbox.Row>, order: seq<Uuid>, source: string): seq<Outbox.Row> {
    if order == [] then []
    else
      (if order[0] in rows && rows[order[0]].source == source then [rows[order[0]]] else [])
      + Table(rows, order[1..], source)
  }

  /** The table as an open transaction sees it. */
  function Overlay(table: seq<Outbox.Row>, w: map<Uuid, Outbox.Row>): (t: seq<Outbox.Row>)
    ensures |t| == |table|
    ensures forall i :: 0 <= i < |t| ==> t[i] == if table[i].id in w then w[table[i].id] else table[i]
  {
    seq(|table|, i requires 0 <= i < |table| => if table[i].id in w then w[table[i].id] else table[i])
  }

  function IdsAt(table: seq<Outbox.Row>, ps: seq<nat>): (ids: seq<Uuid>)
    ensures |ids| == |ps|
    ensures forall i :: 0 <= i < |ps| && ps[i] < |table| ==> ids[i] == table[ps[i]].id
  {
    seq(|ps|, i requires 0 <= i < |ps| => if ps[i] < |table| then table[ps[i]].id else NIL_UUID)
  }

  ghost function LockedIds(p: Relaying.State): set<Uuid> { set e | e in p.rows && Relaying.Locked(p, e) }

  ghost predicate Keyed(rows: map<Uuid, Outbox.Row>) { forall e :: e in rows ==> rows[e].id == e }

  ghost predicate RowsOf(t: seq<Outbox.Row>, rows: map<Uuid, Outbox.Row>, order: seq<Uuid>, source: string) {
    forall i :: 0 <= i < |t| ==>
      t[i].id in order && t[i].id in rows && rows[t[i].id] == t[i] && t[i].source == source
  }

  ghost predicate DistinctKeys(t: seq<Outbox.Row>) {
    forall i, j :: 0 <= i < j < |t| ==> t[i].id != t[j].id
  }

  lemma {:induction false} TableRows(rows: map<Uuid, Outbox.Row>, order: seq<Uuid>, source: string)
    requires Keyed(rows)
    ensures RowsOf(Table(rows, order, source), rows, order, source)
    decreases |order|
  {
    if order != [] {
      TableRows(rows, order[1..], source);
      TableHead(rows, order, source);
      MoreRows(rows, order, source, Table(rows, order[1..], source));
    }
  }

  lemma MoreRows(rows: map<Uuid, Outbox.Row>, order: seq<Uuid>, source: string, rest: seq<Outbox.Row>)
    requires Keyed(rows) && order != [] && RowsOf(rest, rows, order[1..], source)
    ensures RowsOf(rest, rows, order, source)
    ensures order[0] in rows && rows[order[0]].source == source ==> RowsOf([rows[order[0]]] + rest, rows, order, source)
  {
    assert forall e :: e in order[1..] ==> e in order;
  }

  lemma {:induction false} TableSpec(rows: map<Uuid, Outbox.Row>, order: seq<Uuid>, source: string)
    requires Keyed(rows) && Distinct(order)
    ensures RowsOf(Table(rows, order, source), rows, order, source) && DistinctKeys(Table(rows, order, source))
    decreases |order|
  {
    TableRows(rows, order, source);
    if order != [] {
      TableSpec(rows, order[1..], source);
      TableHead(rows, order, source);
      if order[0] in rows && rows[order[0]].source == source {
        assert order[0] !in order[1..];
        NewKey(rows[order[0]], Table(rows, order[1..], source), order[1..]);
      }
    }
  }

  lemma NewKey(r: Outbox.Row, rest: seq<Outbox.Row>, ids: seq<Uuid>)
    requires DistinctKeys(rest) && r.id !in ids && forall i :: 0 <= i < |rest| ==> rest[i].id in ids
    ensures DistinctKeys([r] + rest)
  {
  }

  /** The walk's SELECT and the machine's take the same rows. */
  lemma {:induction false} SelectIsOldest(p: Relaying.State, source: string, order: seq<Uuid>, table: seq<Outbox.Row>,
                                          at: nat, limit: nat)
    requires Keyed(p.rows) && at <= |table| && table[at..] == Table(p.rows, order, source)
    ensures IdsAt(table, Outbox.Select(table, at, LockedIds(p), limit)) == Relaying.Oldest(p, source, order, limit)
    decreases |order|
  {
    if order != [] && limit > 0 {
      var e := order[0];
      TableHead(p.rows, order, source);
      if e in p.rows && p.rows[e].source == source {
        TableTail(table, at, p.rows[e], Table(p.rows, order[1..], source));
        var free := Outbox.Eligible(table[at], LockedIds(p));
        assert free <==> Relaying.Free(p, source, e);
        SelectIsOldest(p, source, order[1..], table, at + 1, if free then limit - 1 else limit);
        SelectHead(table, at, LockedIds(p), limit);
      } else {
        SelectIsOldest(p, source, order[1..], table, at, limit);
      }
    }
  }

  lemma TableTail(table: seq<Outbox.Row>, at: nat, r: Outbox.Row, rest: seq<Outbox.Row>)
    requires at <= |table| && table[at..] == [r] + rest
    ensures at < |table| && table[at] == r && table[at + 1..] == rest
  {
    assert table[at..][0] == r && table[at..][1..] == rest;
  }

  /** What the SELECT does with the row it stands at. */
  lemma SelectHead(table: seq<Outbox.Row>, at: nat, locked: set<Uuid>, limit: nat)
    requires at < |table| && limit > 0
    ensures var free := Outbox.Eligible(table[at], locked);
            var rest := Outbox.Select(table, at + 1, locked, if free then limit - 1 else limit);
            IdsAt(table, Outbox.Select(table, at, locked, limit)) ==
            if free then [table[at].id] + IdsAt(table, rest) else IdsAt(table, rest)
  {
  }

  /** Committing the marks makes the transaction's view the table. */
  lemma {:induction false} CommitIsOverlay(rows: map<Uuid, Outbox.Row>, w: map<Uuid, Outbox.Row>, order: seq<Uuid>,
      source: string)
    requires Keyed(rows) && forall e :: e in w ==> e in rows && Relaying.SameEvent(w[e], rows[e])
    ensures Table(rows + w, order, source) == Overlay(Table(rows, order, source), w)
    decreases |order|
  {
    if order != [] {
      CommitIsOverlay(rows, w, order[1..], source);
      TableHead(rows, order, source);
      TableHead(rows + w, order, source);
      if order[0] in rows && rows[order[0]].source == source {
        OverlayHead(rows[order[0]], Table(rows, order[1..], source), w);
      }
    }
  }

  lemma TableHead(rows: map<Uuid, Outbox.Row>, order: seq<Uuid>, source: string)
    requires order != []
    ensures Table(rows, order, source) ==
            if order[0] in rows && rows[order[0]].source == source
            then [rows[order[0]]] + Table(rows, order[1..], source) else Table(rows, order[1..], source)
  {
    assert [] + Table(rows, order[1..], source) == Table(rows, order[1..], source);
  }

  lemma OverlayHead(r: Outbox.Row, rest: seq<Outbox.Row>, w: map<Uuid, Outbox.Row>)
    ensures Overlay([r] + rest, w) == [if r.id in w then w[r.id] else r] + Overlay(rest, w)
  {
  }

  /** One turn's messages on the queue. */
  lemma QueueWithCopies(queue: multiset<Inbox.Message>, m: Inbox.Message, copies: nat)
    requires copies <= 2
    ensures queue[m := queue[m] + copies] == queue + multiset(Outbox.Repeat(m, copies))
  {
    var r := Outbox.Repeat(m, copies);
    if copies == 1 {
      assert r == [m];
    } else if copies == 2 {
      assert r == [m, m];
    } else {
      assert r == [];
    }
  }

  /** One more mark changes one row of the view. */
  lemma OverlayMark(table: seq<Outbox.Row>, w: map<Uuid, Outbox.Row>, p: nat, mark: Outbox.Row)
    requires p < |table| && DistinctKeys(table)
    ensures Overlay(table, w[table[p].id := mark]) == Overlay(table, w)[p := mark]
  {
  }

  /** The turn of the loop that a publish going like `t` makes. */
  function TurnOf(row: Outbox.Row, r: nat, t: Outbox.Tries): Relaying.Step {
    Relaying.RelayRow(r, !Outbox.Halts(row, Outbox.Retires(row.source), t),
                      if Relaying.Carries(row) then Outbox.Copies(t) else 0)
  }

  lemma TurnEnabled(p: Relaying.State, r: nat, t: Outbox.Tries)
    requires Relaying.Working(p, r)
    ensures Relaying.Enabled(p, TurnOf(Relaying.Current(p, r), r, t))
  {
    Outbox.CopiesBound(t);
  }

  /** The queue after such a turn. */
  lemma TurnSends(s: State, r: nat, t: Outbox.Tries)
    requires Relaying.Working(s.p, r)
    ensures var row := Relaying.Current(s.p, r);
            Relaying.Enabled(s.p, TurnOf(row, r, t))
            && QueueAfter(s, TurnOf(row, r, t)) ==
                 s.c.queue + multiset(Outbox.SentBy(row, Outbox.Retires(row.source), t))
  {
    var row := Relaying.Current(s.p, r);
    TurnEnabled(s.p, r, t);
    Outbox.CopiesBound(t);
    if Relaying.Carries(row) {
      QueueWithCopies(s.c.queue, Relaying.MessageOf(row), Outbox.Copies(t));
    }
  }

  /** The drain has marked no row it has still to come to, and each mark under the row's own id. */
  ghost predicate Ahead(d: Relaying.Drain) {
    && Distinct(d.batch) && !d.stopped && d.pos <= |d.batch|
    && (forall k :: d.pos <= k < |d.batch| ==> d.batch[k] !in d.writes)
    && (forall x :: x in d.writes ==> d.writes[x].id == x)
  }

  /** The walk and an open drain are at the same point, with the same rows before them. */
  ghost predicate InStep(d: Relaying.Drain, table: seq<Outbox.Row>, a: Outbox.Report, rest: seq<nat>) {
    Ahead(d) && a.rows == Overlay(table, d.writes) && IdsAt(a.rows, rest) == d.batch[d.pos..]
  }

  /** The table the drain started from. */
  ghost predicate Reads(rows: map<Uuid, Outbox.Row>, source: string, table: seq<Outbox.Row>) {
    && (forall i :: 0 <= i < |table| ==>
          table[i].id in rows && rows[table[i].id] == table[i] && table[i].source == source)
    && DistinctKeys(table)
  }

  /** The row the walk comes to next is the drain's current one. */
  lemma NextRow(d: Relaying.Drain, table: seq<Outbox.Row>, a: Outbox.Report, rest: seq<nat>)
    requires InStep(d, table, a, rest) && rest != [] && rest[0] < |table|
    ensures a.rows[rest[0]] == table[rest[0]] && d.pos < |d.batch| && d.batch[d.pos] == table[rest[0]].id
  {
    assert d.batch[d.pos..][0] == d.batch[d.pos] && a.rows[rest[0]].id == d.batch[d.pos];
  }

  lemma StaysAhead(d: Relaying.Drain, row: Outbox.Row)
    requires Ahead(d) && d.pos < |d.batch| && row.id == d.batch[d.pos]
    ensures Ahead(Relaying.Relayed(d, row, true))
  {
  }

  lemma SameIds(rows: seq<Outbox.Row>, rows': seq<Outbox.Row>, sel: seq<nat>, batch: seq<Uuid>)
    requires sel != [] && |rows| == |rows'| && forall i :: 0 <= i < |rows| ==> rows'[i].id == rows[i].id
    requires IdsAt(rows, sel) == batch
    ensures IdsAt(rows', sel[1..]) == batch[1..]
  {
    forall i | 0 <= i < |sel| - 1 ensures IdsAt(rows', sel[1..])[i] == batch[1..][i] {
      assert IdsAt(rows, sel)[i + 1] == batch[i + 1];
    }
  }

  /** One turn on the row both have come to keeps the walk and the drain in step, or ends both. */
  lemma TurnInStep(d: Relaying.Drain, table: seq<Outbox.Row>, a: Outbox.Report, rest: seq<nat>, retires: bool,
                   t: Outbox.Tries)
    requires InStep(d, table, a, rest) && rest != [] && rest[0] < |table| && DistinctKeys(table)
    requires Outbox.Retires(table[rest[0]].source) == retires
    ensures a.rows[rest[0]] == table[rest[0]] && d.pos < |d.batch| && d.batch[d.pos] == table[rest[0]].id
    ensures var halts := Outbox.Halts(table[rest[0]], retires, t);
            var d1 := Relaying.Relayed(d, table[rest[0]], !halts);
            if halts then d1.stopped && Outbox.Halted(a, rest[0], retires, t).rows == Overlay(table, d1.writes)
            else InStep(d1, table, Outbox.Settled(a, rest[0], retires, t), rest[1..])
  {
    var p := rest[0];
    NextRow(d, table, a, rest);
    var halts := Outbox.Halts(table[p], retires, t);
    var mark := if halts then Outbox.RecordAttempt(table[p]) else Outbox.Settle(table[p], retires);
    MarkedInStep(d, table, a, p, rest, mark);
    if !halts { StaysAhead(d, table[p]); }
  }

  /** A mark on the next row shows in the transaction's view, and the rows behind stay the same. */
  lemma MarkedInStep(d: Relaying.Drain, table: seq<Outbox.Row>, a: Outbox.Report, p: nat, sel: seq<nat>,
                     mark: Outbox.Row)
    requires p < |table| && DistinctKeys(table) && a.rows == Overlay(table, d.writes) && a.rows[p] == table[p]
    requires d.pos < |d.batch| && d.batch[d.pos] == table[p].id && mark.id == table[p].id
    requires sel != [] && IdsAt(a.rows, sel) == d.batch[d.pos..]
    ensures Overlay(table, d.writes[d.batch[d.pos] := mark]) == a.rows[p := mark]
    ensures IdsAt(a.rows[p := mark], sel[1..]) == d.batch[d.pos + 1..]
  {
    OverlayMark(table, d.writes, p, mark);
    SameIds(a.rows, a.rows[p := mark], sel, d.batch[d.pos..]);
    assert d.batch[d.pos..][1..] == d.batch[d.pos + 1..];
  }

  lemma TurnRelays(p: Relaying.State, r: nat, row: Outbox.Row, t: Outbox.Tries)
    requires Relaying.Working(p, r) && Relaying.Current(p, r) == row
    ensures Relaying.Enabled(p, TurnOf(row, r, t))
    ensures Relaying.Apply(p, TurnOf(row, r, t)) ==
            p.(drains := p.drains[r := Relaying.Relayed(p.drains[r], row,
                !Outbox.Halts(row, Outbox.Retires(row.source), t))])
  {
    TurnEnabled(p, r, t);
  }

  /** One turn taken by the machine. */
  lemma TurnTaken(s: State, r: nat, row: Outbox.Row, t: Outbox.Tries, base: multiset<Inbox.Message>,
      queue: seq<Inbox.Message>)
    returns (s': State)
    requires Relaying.Working(s.p, r) && Relaying.Current(s.p, r) == row && s.c.queue == base + multiset(queue)
    ensures Enabled(s, Produce(TurnOf(row, r, t))) && s' == Apply(s, Produce(TurnOf(row, r, t)))
    ensures s'.p == s.p.(drains := s.p.drains[r :=
              Relaying.Relayed(s.p.drains[r], row, !Outbox.Halts(row, Outbox.Retires(row.source), t))])
    ensures s'.c == s.c.(queue := base + multiset(queue + Outbox.SentBy(row, Outbox.Retires(row.source), t)))
  {
    TurnRelays(s.p, r, row, t);
    TurnSends(s, r, t);
    s' := Apply(s, Produce(TurnOf(row, r, t)));
    var sent := Outbox.SentBy(row, Outbox.Retires(row.source), t);
    assert multiset(queue + sent) == multiset(queue) + multiset(sent);
  }

  /** What the rest of a drain's loop makes of the drain and puts on the broker. */
  datatype Loop = Loop(drain: Relaying.Drain, sent: seq<Inbox.Message>)

  predicate Over(rows: map<Uuid, Outbox.Row>, d: Relaying.Drain) {
    d.stopped || d.pos >= |d.batch| || d.batch[d.pos] !in rows
  }

  /** One turn's mark. */
  function Turned(rows: map<Uuid, Outbox.Row>, d: Relaying.Drain, t: Outbox.Tries): Relaying.Drain
    requires !Over(rows, d)
  {
    var row := rows[d.batch[d.pos]];
    Relaying.Relayed(d, row, !Outbox.Halts(row, Outbox.Retires(row.source), t))
  }

  /** One turn's messages. */
  function Sent(rows: map<Uuid, Outbox.Row>, d: Relaying.Drain, t: Outbox.Tries): seq<Inbox.Message>
    requires !Over(rows, d)
  {
    var row := rows[d.batch[d.pos]];
    Outbox.SentBy(row, Outbox.Retires(row.source), t)
  }

  function RunLoop(rows: map<Uuid, Outbox.Row>, d: Relaying.Drain, tries: seq<Outbox.Tries>, n: nat): Loop
    requires n <= |tries|
    decreases |tries| - n
  {
    if Over(rows, d) || n == |tries| then Loop(d, [])
    else
      var rest := RunLoop(rows, Turned(rows, d, tries[n]), tries, n + 1);
      Loop(rest.drain, Sent(rows, d, tries[n]) + rest.sent)
  }

  /** A state that differs in one drain and in what was sent. */
  ghost function Later(s: State, r: nat, d: Relaying.Drain, sent: seq<Inbox.Message>): State {
    State(s.p.(drains := s.p.drains[r := d]), s.c.(queue := s.c.queue + multiset(sent)))
  }

  lemma LaterTwice(s: State, r: nat, d1: Relaying.Drain, sent1: seq<Inbox.Message>, d2: Relaying.Drain,
      sent2: seq<Inbox.Message>)
    ensures Later(Later(s, r, d1, sent1), r, d2, sent2) == Later(s, r, d2, sent1 + sent2)
  {
    assert s.p.drains[r := d1][r := d2] == s.p.drains[r := d2];
    assert multiset(sent1 + sent2) == multiset(sent1) + multiset(sent2);
  }

  lemma TurnIsLater(s: State, r: nat, t: Outbox.Tries) returns (step: Step)
    requires r in s.p.drains && !Over(s.p.rows, s.p.drains[r])
    ensures Enabled(s, step)
    ensures Apply(s, step) == Later(s, r, Turned(s.p.rows, s.p.drains[r], t), Sent(s.p.rows, s.p.drains[r], t))
  {
    var row := Relaying.Current(s.p, r);
    assert s.c.queue == s.c.queue + multiset([]);
    var s1 := TurnTaken(s, r, row, t, s.c.queue, []);
    assert [] + Sent(s.p.rows, s.p.drains[r], t) == Sent(s.p.rows, s.p.drains[r], t);
    step := Produce(TurnOf(row, r, t));
  }

  /** The loop as a run of the machine. */
  lemma {:induction false} LoopIsARun(s: State, r: nat, d: Relaying.Drain, tries: seq<Outbox.Tries>, n: nat)
    returns (steps: seq<Step>)
    requires r in s.p.drains && s.p.drains[r] == d && n <= |tries|
    ensures Legal(s, steps)
    ensures var loop := RunLoop(s.p.rows, d, tries, n); Exec(s, steps) == Later(s, r, loop.drain, loop.sent)
    decreases |tries| - n
  {
    if Over(s.p.rows, d) || n == |tries| {
      steps := [];
      assert s.p.drains[r := d] == s.p.drains && s.c.queue + multiset([]) == s.c.queue;
    } else {
      var d1, sent := Turned(s.p.rows, d, tries[n]), Sent(s.p.rows, d, tries[n]);
      var step := TurnIsLater(s, r, tries[n]);
      var s1 := Later(s, r, d1, sent);
      var rest := LoopIsARun(s1, r, d1, tries, n + 1);
      var loop := RunLoop(s.p.rows, d1, tries, n + 1);
      LaterTwice(s, r, d1, sent, loop.drain, loop.sent);
      LegalCons(s, step, rest);
      steps := [step] + rest;
    }
  }

  /** The loop as the reference walk. */
  lemma {:induction false} LoopIsTheWalk(rows: map<Uuid, Outbox.Row>, d: Relaying.Drain, source: string,
                                         table: seq<Outbox.Row>, a: Outbox.Report, at: nat, locked: set<Uuid>,
                                         left: nat, tries: seq<Outbox.Tries>, n: nat, rest: seq<nat>,
                                         spec: Outbox.Report)
    returns (loop: Loop)
    requires Reads(rows, source, table) && InStep(d, table, a, rest) && n + left == |tries|
    requires Outbox.OnWalk(spec, a, at, locked, Outbox.Retires(source), left, tries, n, rest)
    ensures loop == RunLoop(rows, d, tries, n) && WalkDone(loop, table, a.queue, spec)
    decreases left, 1
  {
    if rest == [] {
      loop := LoopAtEnd(rows, d, source, table, a, at, locked, left, tries, n, spec);
    } else {
      var b, d1 := WalkTurn(rows, d, source, table, a, at, locked, left, tries, n, rest, spec);
      var more := LoopAfterTurn(rows, d1, source, table, b, rest[0] + 1, locked, left - 1, tries, n + 1, rest[1..],
                                spec);
      loop := LoopGoesOn(rows, d, more, table, a.queue, b.queue, tries, n, spec);
    }
  }

  /** After a turn the loop is over, or it goes on with the walk. */
  lemma {:induction false} LoopAfterTurn(rows: map<Uuid, Outbox.Row>, d: Relaying.Drain, source: string,
                                         table: seq<Outbox.Row>, a: Outbox.Report, at: nat, locked: set<Uuid>,
                                         left: nat, tries: seq<Outbox.Tries>, n: nat, rest: seq<nat>,
                                         spec: Outbox.Report)
    returns (loop: Loop)
    requires Reads(rows, source, table) && n + left == |tries|
    requires AfterTurn(rows, d, source, table, a, at, locked, left, tries, n, rest, spec)
    ensures loop == RunLoop(rows, d, tries, n) && WalkDone(loop, table, a.queue, spec)
    decreases left + 1, 0
  {
    if d.stopped {
      loop := Loop(d, []);
    } else {
      loop := LoopIsTheWalk(rows, d, source, table, a, at, locked, left, tries, n, rest, spec);
    }
  }

  /** What a turn leaves: both at their end, or both at the next row. */
  ghost predicate AfterTurn(rows: map<Uuid, Outbox.Row>, d: Relaying.Drain, source: string, table: seq<Outbox.Row>,
                            a: Outbox.Report, at: nat, locked: set<Uuid>, left: nat, tries: seq<Outbox.Tries>, n: nat,
                            rest: seq<nat>, spec: Outbox.Report)
    requires n <= |tries|
  {
    if d.stopped then RunLoop(rows, d, tries, n) == Loop(d, []) && WalkDone(Loop(d, []), table, a.queue, spec)
    else InStep(d, table, a, rest) && Outbox.OnWalk(spec, a, at, locked, Outbox.Retires(source), left, tries, n, rest)
  }

  /** Loop and walk have come to the same end. */
  ghost predicate WalkDone(loop: Loop, table: seq<Outbox.Row>, queue: seq<Inbox.Message>, spec: Outbox.Report) {
    && Overlay(table, loop.drain.writes) == spec.rows && spec.queue == queue + loop.sent
    && (loop.drain.stopped || loop.drain.pos == |loop.drain.batch|)
  }

  lemma LoopAtEnd(rows: map<Uuid, Outbox.Row>, d: Relaying.Drain, source: string, table: seq<Outbox.Row>,
                  a: Outbox.Report, at: nat, locked: set<Uuid>, left: nat, tries: seq<Outbox.Tries>, n: nat,
                  spec: Outbox.Report)
    returns (loop: Loop)
    requires InStep(d, table, a, []) && Outbox.OnWalk(spec, a, at, locked, Outbox.Retires(source), left, tries, n, [])
    ensures loop == RunLoop(rows, d, tries, n) && WalkDone(loop, table, a.queue, spec)
  {
    Outbox.OnWalkEnd(spec, a, at, locked, Outbox.Retires(source), left, tries, n);
    loop := Loop(d, []);
    assert |IdsAt(a.rows, [])| == |d.batch[d.pos..]|;
    assert d.pos == |d.batch| && a.queue + [] == a.queue;
  }

  lemma LoopGoesOn(rows: map<Uuid, Outbox.Row>, d: Relaying.Drain, more: Loop, table: seq<Outbox.Row>,
                   queue: seq<Inbox.Message>, queue1: seq<Inbox.Message>, tries: seq<Outbox.Tries>, n: nat,
                   spec: Outbox.Report)
    returns (loop: Loop)
    requires n < |tries| && !Over(rows, d) && more == RunLoop(rows, Turned(rows, d, tries[n]), tries, n + 1)
    requires queue1 == queue + Sent(rows, d, tries[n]) && WalkDone(more, table, queue1, spec)
    ensures loop == RunLoop(rows, d, tries, n) && WalkDone(loop, table, queue, spec)
  {
    var sent := Sent(rows, d, tries[n]);
    assert queue + sent + more.sent == queue + (sent + more.sent);
    loop := Loop(more.drain, sent + more.sent);
  }

  /** One turn of the loop is one step of the walk: it stops both, or both go on from `b`. */
  lemma WalkTurn(rows: map<Uuid, Outbox.Row>, d: Relaying.Drain, source: string, table: seq<Outbox.Row>,
                 a: Outbox.Report, at: nat, locked: set<Uuid>, left: nat, tries: seq<Outbox.Tries>, n: nat,
                 rest: seq<nat>, spec: Outbox.Report)
    returns (b: Outbox.Report, d1: Relaying.Drain)
    requires Reads(rows, source, table) && InStep(d, table, a, rest) && rest != []
    requires Outbox.OnWalk(spec, a, at, locked, Outbox.Retires(source), left, tries, n, rest)
    ensures left > 0 && !Over(rows, d) && d1 == Turned(rows, d, tries[n])
    ensures b.queue == a.queue + Sent(rows, d, tries[n])
    ensures n < |tries|
    ensures AfterTurn(rows, d1, source, table, b, rest[0] + 1, locked, left - 1, tries, n + 1, rest[1..], spec)
  {
    var p, retires := rest[0], Outbox.Retires(source);
    Outbox.OnWalkTurn(spec, a, at, locked, retires, left, tries, n, rest);
    TurnInStep(d, table, a, rest, retires, tries[n]);
    SameTurn(rows, d, source, table, p, tries[n]);
    d1 := Turned(rows, d, tries[n]);
    b := if d1.stopped then Outbox.Halted(a, p, retires, tries[n]) else Outbox.Settled(a, p, retires, tries[n]);
    if d1.stopped {
      LoopStopped(rows, d1, table, b, tries, n + 1);
    }
  }

  lemma SameTurn(rows: map<Uuid, Outbox.Row>, d: Relaying.Drain, source: string, table: seq<Outbox.Row>, p: nat,
                 t: Outbox.Tries)
    requires Reads(rows, source, table) && p < |table|
    requires !d.stopped && d.pos < |d.batch| && d.batch[d.pos] == table[p].id
    ensures !Over(rows, d) && Sent(rows, d, t) == Outbox.SentBy(table[p], Outbox.Retires(source), t)
    ensures Turned(rows, d, t) == Relaying.Relayed(d, table[p], !Outbox.Halts(table[p], Outbox.Retires(source), t))
  {
  }

  lemma LoopStopped(rows: map<Uuid, Outbox.Row>, d: Relaying.Drain, table: seq<Outbox.Row>, spec: Outbox.Report,
                    tries: seq<Outbox.Tries>, n: nat)
    requires d.stopped && n <= |tries| && Overlay(table, d.writes) == spec.rows
    ensures RunLoop(rows, d, tries, n) == Loop(d, []) && WalkDone(Loop(d, []), table, spec.queue, spec)
  {
    assert spec.queue + [] == spec.queue;
  }

  /** The loop keeps the drain in order. */
  lemma {:induction false} LoopKeepsOk(rows: map<Uuid, Outbox.Row>, d: Relaying.Drain, tries: seq<Outbox.Tries>, n: nat)
    requires n <= |tries| && Relaying.DrainOk(rows, d)
    ensures Relaying.DrainOk(rows, RunLoop(rows, d, tries, n).drain)
    decreases |tries| - n
  {
    if !Over(rows, d) && n < |tries| {
      var row := rows[d.batch[d.pos]];
      Outbox.CopiesBound(tries[n]);
      Relaying.RelayedOk(rows, d, !Outbox.Halts(row, Outbox.Retires(row.source), tries[n]),
                         if Relaying.Carries(row) then Outbox.Copies(tries[n]) else 0);
      LoopKeepsOk(rows, Turned(rows, d, tries[n]), tries, n + 1);
    }
  }

  /** A new drain and the walk start at the same point. */
  lemma DrainStarts(p: Relaying.State, r: nat, source: string)
    requires Relaying.Inv(p) && r !in p.drains && Relaying.Selected(p, source) != []
    ensures var batch, table := Relaying.Selected(p, source), Table(p.rows, p.order, source);
            var d := Relaying.Drain(source, batch, 0, false, map[]);
            && Relaying.Enabled(p, Relaying.BeginDrain(r, source, batch)) && Relaying.DrainOk(p.rows, d)
            && Reads(p.rows, source, table)
            && InStep(d, table, Outbox.Report(table, [], 0), Outbox.Select(table, 0, LockedIds(p), Outbox.BATCH_SIZE))
  {
    var batch, table := Relaying.Selected(p, source), Table(p.rows, p.order, source);
    Relaying.OldestSpec(p, source, p.order, Outbox.BATCH_SIZE);
    Relaying.InvStep(p, Relaying.BeginDrain(r, source, batch));
    TableSpec(p.rows, p.order, source);
    assert table[0..] == table && batch[0..] == batch;
    SelectIsOldest(p, source, p.order, table, 0, Outbox.BATCH_SIZE);
    assert Overlay(table, map[]) == table;
    assert Relaying.Apply(p, Relaying.BeginDrain(r, source, batch)).drains[r] ==
        Relaying.Drain(source, batch, 0, false, map[]);
  }

  /** An undisturbed `Drain` is a run: table and broker end as the reference walk leaves them,
      however each publish goes, and no other drain is touched. */
  lemma DrainIsARun(s: State, r: nat, source: string, tries: seq<Outbox.Tries>) returns (steps: seq<Step>)
    requires Inv(s) && r !in s.p.drains && |tries| == Outbox.BATCH_SIZE && Relaying.Selected(s.p, source) != []
    ensures Legal(s, steps)
    ensures var s', table := Exec(s, steps), Table(s.p.rows, s.p.order, source);
            var d := Outbox.DrainSpec(Outbox.Report(table, [], 0), 0, LockedIds(s.p), Outbox.Retires(source),
                                      Outbox.BATCH_SIZE, tries, 0);
            && Table(s'.p.rows, s'.p.order, source) == d.rows
            && s'.c == s.c.(queue := s.c.queue + multiset(d.queue))
            && s'.p.order == s.p.order && s'.p.drains == s.p.drains
  {
    var batch, table := Relaying.Selected(s.p, source), Table(s.p.rows, s.p.order, source);
    var d0 := Relaying.Drain(source, batch, 0, false, map[]);
    DrainStarts(s.p, r, source);
    var spec := Outbox.DrainSpec(Outbox.Report(table, [], 0), 0, LockedIds(s.p), Outbox.Retires(source),
                                 Outbox.BATCH_SIZE, tries, 0);
    var loop := LoopIsTheWalk(s.p.rows, d0, source, table, Outbox.Report(table, [], 0), 0, LockedIds(s.p),
                              Outbox.BATCH_SIZE, tries, 0,
                              Outbox.Select(table, 0, LockedIds(s.p), Outbox.BATCH_SIZE), spec);
    LoopKeepsOk(s.p.rows, d0, tries, 0);
    steps := BeginLoopCommit(s, r, d0, tries);
    CommitsTo(s.p.rows, loop.drain, s.p.order, source);
    assert [] + loop.sent == loop.sent;
  }

  /** Beginning and looping as steps. */
  lemma BeginAndLoop(s: State, r: nat, d: Relaying.Drain, tries: seq<Outbox.Tries>) returns (steps: seq<Step>)
    requires Relaying.Enabled(s.p, Relaying.BeginDrain(r, d.source, d.batch))
    requires d == Relaying.Drain(d.source, d.batch, 0, false, map[])
    ensures Legal(s, steps)
    ensures var loop := RunLoop(s.p.rows, d, tries, 0); Exec(s, steps) == Later(s, r, loop.drain, loop.sent)
  {
    var loop := RunLoop(s.p.rows, d, tries, 0);
    var begin := Produce(Relaying.BeginDrain(r, d.source, d.batch));
    assert s.c.queue + multiset([]) == s.c.queue;
    var s1 := Later(s, r, d, []);
    assert Apply(s, begin) == s1;
    var turns := LoopIsARun(s1, r, d, tries, 0);
    LegalCons(s, begin, turns);
    LaterTwice(s, r, d, [], loop.drain, loop.sent);
    assert [] + loop.sent == loop.sent;
    steps := [begin] + turns;
  }

  /** And committing. */
  lemma CommitLater(s: State, r: nat, d: Relaying.Drain, sent: seq<Inbox.Message>)
    requires r !in s.p.drains && (d.stopped || d.pos == |d.batch|)
    ensures var s', commit := Later(s, r, d, sent), Produce(Relaying.CommitDrain(r));
            && Enabled(s', commit)
            && Apply(s', commit) == State(s.p.(rows := s.p.rows + d.writes), s.c.(queue := s.c.queue + multiset(sent)))
  {
    assert s.p.drains[r := d] - {r} == s.p.drains;
  }

  lemma BeginLoopCommit(s: State, r: nat, d: Relaying.Drain, tries: seq<Outbox.Tries>) returns (steps: seq<Step>)
    requires Relaying.Enabled(s.p, Relaying.BeginDrain(r, d.source, d.batch))
    requires d == Relaying.Drain(d.source, d.batch, 0, false, map[])
    requires var d' := RunLoop(s.p.rows, d, tries, 0).drain; d'.stopped || d'.pos == |d'.batch|
    ensures Legal(s, steps)
    ensures var loop := RunLoop(s.p.rows, d, tries, 0);
            Exec(s, steps) == State(s.p.(rows := s.p.rows + loop.drain.writes),
                                    s.c.(queue := s.c.queue + multiset(loop.sent)))
  {
    var loop := RunLoop(s.p.rows, d, tries, 0);
    var turns := BeginAndLoop(s, r, d, tries);
    CommitLater(s, r, loop.drain, loop.sent);
    LegalSnoc(s, turns, Produce(Relaying.CommitDrain(r)));
    steps := turns + [Produce(Relaying.CommitDrain(r))];
  }

  lemma CommitsTo(rows: map<Uuid, Outbox.Row>, d: Relaying.Drain, order: seq<Uuid>, source: string)
    requires Relaying.DrainOk(rows, d) && Keyed(rows)
    ensures Table(rows + d.writes, order, source) == Overlay(Table(rows, order, source), d.writes)
  {
    assert forall e :: e in d.writes ==> e in d.batch;
    CommitIsOverlay(rows, d.writes, order, source);
  }
}
