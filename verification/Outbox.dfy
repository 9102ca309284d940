/** The transactional outbox and the relay that drains it, as request-service,
    admin-service and offer-service each carry it. */
module Outbox {
  import opened Base
  import Inbox

  const BATCH_SIZE := 100

  /** What the payload column may hold: JSON null; a number or a boolean; an object, a string
      or an array that is no list of notifications, with the number of entries Python's `list`
      finds in it; or a list of notifications. */
  datatype Payload =
    | Null
    | Scalar(raw: string)
    | Malformed(raw: string, entries: nat)
    | Decodable(notes: seq<Inbox.RawNote>)

  datatype Row = Row(id: Uuid, source: string, key: string, payload: Payload,
                     published: bool, attempts: nat, lastError: Option<string>)

  /** `Enqueue`: nothing is written for an empty list. */
  function Enqueue(rows: seq<Row>, id: Uuid, source: string, key: string,
                   notes: seq<Inbox.RawNote>): seq<Row>
  {
    if notes == [] then rows
    else rows + [Row(id, source, key, Decodable(notes), false, 0, None)]
  }

  /** What a relay makes of a payload before it publishes: gives the row up, raises, or has a
      body to send, of which an empty list needs no sending. */
  datatype Work = Retire | Raise | Publish(body: Inbox.Body)

  /** The Go relays unmarshal the payload: null is an empty list, and what is no list of
      notifications is retired. offer-service's relay has no such branch: it takes `list` of the
      payload, which raises on null, numbers and booleans and sends anything else as it stands. */
  function WorkOf(p: Payload, retires: bool): Work {
    match p
    case Null => if retires then Publish(Inbox.Notes([])) else Raise
    case Scalar(_) => if retires then Retire else Raise
    case Malformed(raw, n) =>
      if retires then Retire else if n == 0 then Publish(Inbox.Notes([])) else Publish(Inbox.Junk(raw))
    case Decodable(notes) => Publish(Inbox.Notes(notes))
  }

  const OFFER_SERVICE := "offer-service"

  /** Which producers' relays retire what they cannot decode. */
  predicate Retires(source: string) { source != OFFER_SERVICE }

  /** Whether there is anything to send. */
  predicate HasBody(w: Work) { w.Publish? && w.body != Inbox.Notes([]) }

  const DECODE_ERROR := "undecodable payload"
  const PUBLISH_ERROR := "publish failed"

  function MarkPublished(r: Row): Row {
    r.(published := true, attempts := r.attempts + 1, lastError := None)
  }

  function MarkFailed(r: Row): Row {
    r.(published := true, attempts := r.attempts + 1, lastError := Some(DECODE_ERROR))
  }

  function RecordAttempt(r: Row): Row {
    r.(attempts := r.attempts + 1, lastError := Some(PUBLISH_ERROR))
  }

  // ---------------------------------------------------------------- publisher

  /** How one attempt of a publish goes: the time is up before it starts, no channel can
      be had, the send reports an error (whether or not the broker took the message), or
      the send succeeds. */
  datatype Try = Expired | DialFails | SendFails(accepted: bool) | Sends

  datatype Tries = Tries(first: Try, second: Try)

  predicate Delivers(t: Tries) {
    t.first.Sends? || (!t.first.Expired? && t.second.Sends?)
  }

  function CopiesOf(t: Try): nat {
    if t.Sends? || (t.SendFails? && t.accepted) then 1 else 0
  }

  /** How many copies of the message the broker holds afterwards. */
  function Copies(t: Tries): nat {
    if t.first.Expired? || t.first.Sends? then CopiesOf(t.first)
    else CopiesOf(t.first) + CopiesOf(t.second)
  }

  /** Success means the broker has it at least once; failure proves nothing; and two is
      the most one call can leave behind. */
  lemma CopiesBound(t: Tries)
    ensures Delivers(t) ==> 1 <= Copies(t)
    ensures Copies(t) <= 2
  {
  }

  function Repeat(m: Inbox.Message, n: nat): (s: seq<Inbox.Message>)
    ensures |s| == n && forall i :: 0 <= i < n ==> s[i] == m
  {
    seq(n, i => m)
  }

  class Publisher {
    var connected: bool
    var queue: seq<Inbox.Message>

    constructor ()
      ensures !connected && queue == []
    {
      connected, queue := false, [];
    }

    /** `PublishEvent`: at most two attempts, the connection dropped after each failure. The first is
        made unless the time is up; the second if the first was made and failed and there is time
        left. Each attempt made leaves a copy if it succeeds, or if it fails after the broker took
        the message. */
    method PublishEvent(id: Uuid, source: string, body: Inbox.Body, tries: Tries) returns (ok: bool)
      modifies this
      ensures body == Inbox.Notes([]) ==> ok && queue == old(queue) && connected == old(connected)
      ensures body != Inbox.Notes([]) ==> ok == Delivers(tries)
      ensures body != Inbox.Notes([]) ==>
                (ok <==> tries.first.Sends? || (!tries.first.Expired? && tries.second.Sends?))
      ensures body != Inbox.Notes([]) ==>
                var one := tries.first.Sends? || (tries.first.SendFails? && tries.first.accepted);
                var two := && !tries.first.Expired? && !tries.first.Sends?
                           && (tries.second.Sends? || (tries.second.SendFails? && tries.second.accepted));
                && |queue| == |old(queue)| + (if one then 1 else 0) + (if two then 1 else 0)
                && queue[..|old(queue)|] == old(queue)
                && forall i :: |old(queue)| <= i < |queue| ==> queue[i] == Inbox.Message(id, source, body)
      ensures body != Inbox.Notes([]) ==>
                && queue == old(queue) + Repeat(Inbox.Message(id, source, body), Copies(tries))
                && (ok ==> 1 <= Copies(tries)) && Copies(tries) <= 2
      ensures body != Inbox.Notes([]) ==> connected == if tries.first.Expired? then old(connected) else ok
    {
      if body == Inbox.Notes([]) {
        return true;
      }
      CopiesBound(tries);
      ok := false;
      var n := 0;
      while n < 2 && !ok
        invariant n <= 2
        invariant n == 0 ==> !ok && queue == old(queue) && connected == old(connected)
        invariant n == 1 ==>
                    && ok == tries.first.Sends? && connected == ok
                    && !tries.first.Expired?
                    && queue == old(queue) + Repeat(Inbox.Message(id, source, body), CopiesOf(tries.first))
        invariant n == 2 ==>
                    && ok == Delivers(tries) && connected == ok
                    && !tries.first.Expired?
                    && queue == old(queue) + Repeat(Inbox.Message(id, source, body), Copies(tries))
      {
        var t := if n == 0 then tries.first else tries.second;
        if t.Expired? {
          break;
        }
        connected := !t.DialFails?;
        if CopiesOf(t) == 1 {
          queue := queue + [Inbox.Message(id, source, body)];
        }
        ok := t.Sends?;
        connected := ok;
        n := n + 1;
      }
    }
  }

  // ---------------------------------------------------------------- drain

  /** Whether FOR UPDATE SKIP LOCKED hands the row to this drain. */
  predicate Eligible(r: Row, locked: set<Uuid>) {
    !r.published && r.id !in locked
  }

  /** Whether the loop stops at this row. */
  predicate Halts(r: Row, retires: bool, t: Tries) {
    var w := WorkOf(r.payload, retires);
    w.Raise? || (HasBody(w) && !Delivers(t))
  }

  function Settle(r: Row, retires: bool): Row {
    if WorkOf(r.payload, retires).Retire? then MarkFailed(r) else MarkPublished(r)
  }

  /** The messages one row puts on the broker. */
  function SentBy(r: Row, retires: bool, t: Tries): seq<Inbox.Message> {
    var w := WorkOf(r.payload, retires);
    if HasBody(w) then Repeat(Inbox.Message(r.id, r.source, w.body), Copies(t)) else []
  }

  /** The table, the broker's queue and the count of published rows. */
  datatype Report = Report(rows: seq<Row>, queue: seq<Inbox.Message>, published: nat)

  /** What the loop makes of the row at `p` when it does not stop there. */
  function Settled(a: Report, p: nat, retires: bool, t: Tries): Report
    requires p < |a.rows|
  {
    var row := a.rows[p];
    Report(a.rows[p := Settle(row, retires)], a.queue + SentBy(row, retires, t),
           if WorkOf(row.payload, retires).Publish? then a.published + 1 else a.published)
  }

  /** What it leaves when it does. */
  function Halted(a: Report, p: nat, retires: bool, t: Tries): Report
    requires p < |a.rows|
  {
    Report(a.rows[p := RecordAttempt(a.rows[p])], a.queue + SentBy(a.rows[p], retires, t), a.published)
  }

  /** The reference meaning of one committed drain: a single walk over the table in
      `created_at` order. `n` numbers the publishes, so `tries[n]` is how the n-th went. */
  function DrainSpec(a: Report, at: nat, locked: set<Uuid>, retires: bool, budget: nat,
                     tries: seq<Tries>, n: nat): (d: Report)
    requires n + budget <= |tries|
    ensures |d.rows| == |a.rows|
    decreases |a.rows| - at
  {
    if at >= |a.rows| || budget == 0 then a
    else if !Eligible(a.rows[at], locked) then
      DrainSpec(a, at + 1, locked, retires, budget, tries, n)
    else if Halts(a.rows[at], retires, tries[n]) then
      Halted(a, at, retires, tries[n])
    else
      DrainSpec(Settled(a, at, retires, tries[n]), at + 1, locked, retires, budget - 1, tries, n + 1)
  }

  /** A drain only ever adds to the broker. */
  lemma {:induction false} QueueGrows(a: Report, at: nat, locked: set<Uuid>, retires: bool, budget: nat,
                                      tries: seq<Tries>, n: nat)
    requires n + budget <= |tries|
    ensures a.queue <= DrainSpec(a, at, locked, retires, budget, tries, n).queue
    decreases |a.rows| - at
  {
    if at < |a.rows| && budget > 0 {
      if !Eligible(a.rows[at], locked) {
        QueueGrows(a, at + 1, locked, retires, budget, tries, n);
      } else if !Halts(a.rows[at], retires, tries[n]) {
        QueueGrows(Settled(a, at, retires, tries[n]), at + 1, locked, retires, budget - 1, tries, n + 1);
      }
    }
  }

  /** `SELECT ... ORDER BY created_at LIMIT $1 FOR UPDATE SKIP LOCKED`, as positions in the
      table from `at` on. */
  function Select(rows: seq<Row>, at: nat, locked: set<Uuid>, limit: nat): (s: seq<nat>)
    ensures |s| <= limit
    ensures s != [] ==> at <= s[0] < |rows| && Eligible(rows[s[0]], locked)
    decreases |rows| - at
  {
    if at >= |rows| || limit == 0 then []
    else if Eligible(rows[at], locked) then [at] + Select(rows, at + 1, locked, limit - 1)
    else Select(rows, at + 1, locked, limit)
  }

  lemma {:induction false} SelectIgnoresPrefix(rows: seq<Row>, rows': seq<Row>, at: nat,
                                               locked: set<Uuid>, limit: nat)
    requires |rows| == |rows'| && forall i :: at <= i < |rows| ==> rows[i] == rows'[i]
    ensures Select(rows, at, locked, limit) == Select(rows', at, locked, limit)
    decreases |rows| - at
  {
    if at < |rows| && limit > 0 {
      SelectIgnoresPrefix(rows, rows', at + 1, locked, if Eligible(rows[at], locked) then limit - 1 else limit);
    }
  }

  /** The walk has nothing to do until the next row the SELECT would return; there it
      stops, or settles the row and goes on behind it. */
  lemma {:induction false} WalkStep(a: Report, at: nat, locked: set<Uuid>, retires: bool,
                                    budget: nat, tries: seq<Tries>, n: nat)
    requires n + budget <= |tries|
    ensures var s := Select(a.rows, at, locked, budget);
            var d := DrainSpec(a, at, locked, retires, budget, tries, n);
            if s == [] then d == a
            else
              && budget > 0
              && if Halts(a.rows[s[0]], retires, tries[n]) then d == Halted(a, s[0], retires, tries[n])
                 else
                   var b := Settled(a, s[0], retires, tries[n]);
                   && d == DrainSpec(b, s[0] + 1, locked, retires, budget - 1, tries, n + 1)
                   && s[1..] == Select(b.rows, s[0] + 1, locked, budget - 1)
    decreases |a.rows| - at
  {
    if at < |a.rows| && budget > 0 {
      if Eligible(a.rows[at], locked) {
        SelectIgnoresPrefix(a.rows, Settled(a, at, retires, tries[n]).rows, at + 1, locked, budget - 1);
      } else {
        WalkStep(a, at + 1, locked, retires, budget, tries, n);
      }
    }
  }

  /** The loop has come to `a` and has the rows `rest` before it; the walk from there ends in
      `spec`. */
  ghost predicate OnWalk(spec: Report, a: Report, at: nat, locked: set<Uuid>, retires: bool, left: nat,
                         tries: seq<Tries>, n: nat, rest: seq<nat>)
  {
    && n + left <= |tries| && rest == Select(a.rows, at, locked, left)
    && spec == DrainSpec(a, at, locked, retires, left, tries, n)
  }

  lemma OnWalkEnd(spec: Report, a: Report, at: nat, locked: set<Uuid>, retires: bool, left: nat, tries: seq<Tries>,
                  n: nat)
    requires OnWalk(spec, a, at, locked, retires, left, tries, n, [])
    ensures spec == a
  {
    WalkStep(a, at, locked, retires, left, tries, n);
  }

  lemma OnWalkTurn(spec: Report, a: Report, at: nat, locked: set<Uuid>, retires: bool, left: nat, tries: seq<Tries>,
                   n: nat, rest: seq<nat>)
    requires OnWalk(spec, a, at, locked, retires, left, tries, n, rest) && rest != []
    ensures left > 0 && rest[0] < |a.rows|
    ensures if Halts(a.rows[rest[0]], retires, tries[n]) then spec == Halted(a, rest[0], retires, tries[n])
            else OnWalk(spec, Settled(a, rest[0], retires, tries[n]), rest[0] + 1, locked, retires, left - 1, tries,
                        n + 1, rest[1..])
  {
    WalkStep(a, at, locked, retires, left, tries, n);
  }

  /** One row sent: what the publisher was asked to do and what became of the row, written out. */
  ghost predicate Sent(r: Row, body: Inbox.Body, t: Tries, before: seq<Inbox.Message>, after: seq<Inbox.Message>,
                       r': Row, ok: bool) {
    var one := t.first.Sends? || (t.first.SendFails? && t.first.accepted);
    var two := !t.first.Expired? && !t.first.Sends? && (t.second.Sends? || (t.second.SendFails? && t.second.accepted));
    && (ok <==> t.first.Sends? || (!t.first.Expired? && t.second.Sends?))
    && |after| == |before| + (if one then 1 else 0) + (if two then 1 else 0) && after[..|before|] == before
    && (forall i :: |before| <= i < |after| ==> after[i] == Inbox.Message(r.id, r.source, body))
    && r' == r.(published := r.published || ok, attempts := r.attempts + 1,
                lastError := if ok then None else Some(PUBLISH_ERROR))
  }

  class Relay {
    const retires: bool
    const publisher: Publisher
    var outbox: seq<Row>

    constructor (publisher: Publisher, retires: bool)
      ensures this.publisher == publisher && this.retires == retires && outbox == []
    {
      this.publisher, this.retires := publisher, retires;
      outbox := [];
    }

    /** One turn of the loop: publish the row, then mark it in the transaction. */
    method RelayRow(tx: seq<Row>, p: nat, published: nat, t: Tries)
      returns (tx': seq<Row>, published': nat, goOn: bool)
      requires p < |tx|
      modifies publisher
      ensures goOn == !Halts(tx[p], retires, t)
      ensures Report(tx', publisher.queue, published') ==
              if goOn then Settled(Report(tx, old(publisher.queue), published), p, retires, t)
              else Halted(Report(tx, old(publisher.queue), published), p, retires, t)
      ensures |old(publisher.queue)| <= |publisher.queue|
      ensures |tx'| == |tx| && forall i :: 0 <= i < |tx| && i != p ==> tx'[i] == tx[i]
      // a list of notifications, or what a relay without a retire branch sends as it stands
      ensures tx[p].payload.Decodable? && tx[p].payload.notes != [] ==>
                Sent(tx[p], Inbox.Notes(tx[p].payload.notes), t, old(publisher.queue), publisher.queue, tx'[p], goOn)
      ensures tx[p].payload.Malformed? && !retires && tx[p].payload.entries > 0 ==>
                Sent(tx[p], Inbox.Junk(tx[p].payload.raw), t, old(publisher.queue), publisher.queue, tx'[p], goOn)
      // nothing to send
      ensures (tx[p].payload == Decodable([]) || (tx[p].payload.Null? && retires)
               || (tx[p].payload.Malformed? && !retires && tx[p].payload.entries == 0)) ==>
                && goOn && publisher.queue == old(publisher.queue)
                && tx'[p] == tx[p].(published := true, attempts := tx[p].attempts + 1, lastError := None)
      // given up, or raised on
      ensures (tx[p].payload.Scalar? || tx[p].payload.Malformed?) && retires ==>
                && goOn && publisher.queue == old(publisher.queue)
                && tx'[p] == tx[p].(published := true, attempts := tx[p].attempts + 1, lastError := Some(DECODE_ERROR))
      ensures (tx[p].payload.Scalar? || tx[p].payload.Null?) && !retires ==>
                && !goOn && publisher.queue == old(publisher.queue)
                && tx'[p] == tx[p].(attempts := tx[p].attempts + 1, lastError := Some(PUBLISH_ERROR))
      ensures published' == published + if goOn && tx'[p].lastError.None? then 1 else 0
    {
      var row := tx[p];
      var work := WorkOf(row.payload, retires);
      published' := published;
      if work.Retire? {
        goOn, tx' := true, tx[p := MarkFailed(row)];
        return;
      }
      goOn := false;
      if work.Publish? {
        goOn := publisher.PublishEvent(row.id, row.source, work.body, t);
      }
      if !goOn {
        tx' := tx[p := RecordAttempt(row)];
        return;
      }
      tx', published' := tx[p := MarkPublished(row)], published + 1;
    }

    /** The loop of `drain` over the batch, marking rows on the transaction's own view of
        the table. */
    method RelayBatch(batch: seq<nat>, limit: nat, locked: set<Uuid>, tries: seq<Tries>, statementFails: seq<bool>,
                      ghost spec: Report)
      returns (tx: seq<Row>, published: nat, ok: bool, ghost at: nat, ghost left: nat)
      requires |tries| == |statementFails| == limit
      requires batch == Select(outbox, 0, locked, limit)
      requires spec == DrainSpec(Report(outbox, publisher.queue, 0), 0, locked, retires, limit, tries, 0)
      modifies publisher
      ensures |old(publisher.queue)| <= |publisher.queue| && left <= limit
      ensures spec == DrainSpec(Report(tx, publisher.queue, published), at, locked, retires, left, tries, limit - left)
      ensures ok ==> spec == Report(tx, publisher.queue, published)
      ensures (forall j :: 0 <= j < limit ==> !statementFails[j]) ==> ok
    {
      tx, published, ok := outbox, 0, true;
      at, left := 0, limit;
      var j, rest := 0, batch;
      while rest != []
        invariant ok && limit == left + j
        invariant |old(publisher.queue)| <= |publisher.queue|
        invariant OnWalk(spec, Report(tx, publisher.queue, published), at, locked, retires, left, tries, j, rest)
        decreases |rest|
      {
        OnWalkTurn(spec, Report(tx, publisher.queue, published), at, locked, retires, left, tries, j, rest);
        var p, goOn := rest[0], true;
        tx, published, goOn := RelayRow(tx, p, published, tries[j]);
        at, left := p + 1, if goOn then left - 1 else 0;
        ok := !statementFails[j];
        if !goOn || !ok {
          return;
        }
        j, rest := j + 1, rest[1..];
      }
      OnWalkEnd(spec, Report(tx, publisher.queue, published), at, locked, retires, left, tries, j);
    }

    /** `drain`: read a batch, publish and mark row by row inside one transaction, commit.
        A failing statement or commit rolls every mark back, while what was published
        stays published. */
    method Drain(locked: set<Uuid>, tries: seq<Tries>, statementFails: seq<bool>, commitFails: bool)
      returns (published: nat, committed: bool)
      requires |tries| == |statementFails| == BATCH_SIZE
      modifies this, publisher
      ensures var d := DrainSpec(Report(old(outbox), old(publisher.queue), 0), 0, locked, retires, BATCH_SIZE,
                tries, 0);
              if committed then d == Report(outbox, publisher.queue, published)
              else outbox == old(outbox) && old(publisher.queue) <= publisher.queue <= d.queue
      ensures !commitFails && (forall j :: 0 <= j < BATCH_SIZE ==> !statementFails[j]) ==> committed
    {
      ghost var spec := DrainSpec(Report(outbox, publisher.queue, 0), 0, locked, retires, BATCH_SIZE, tries, 0);
      QueueGrows(Report(outbox, publisher.queue, 0), 0, locked, retires, BATCH_SIZE, tries, 0);
      var batch := Select(outbox, 0, locked, BATCH_SIZE);
      var tx, n, ok, at, left := RelayBatch(batch, BATCH_SIZE, locked, tries, statementFails, spec);
      QueueGrows(Report(tx, publisher.queue, n), at, locked, retires, left, tries, BATCH_SIZE - left);
      published := n;
      committed := ok && !commitFails;
      if committed {
        outbox := tx;
      }
    }
  }

  // ---------------------------------------------------------------- what a drain means

  /** How many of the rows in `[at, hi)` a drain may take. */
  function EligibleIn(rows: seq<Row>, at: nat, hi: nat, locked: set<Uuid>): nat
    requires hi <= |rows|
    decreases hi - at
  {
    if at >= hi then 0
    else (if Eligible(rows[at], locked) then 1 else 0) + EligibleIn(rows, at + 1, hi, locked)
  }

  lemma {:induction false} EligibleInFrame(rows: seq<Row>, rows': seq<Row>, at: nat, hi: nat, locked: set<Uuid>)
    requires hi <= |rows| == |rows'| && forall i :: at <= i < hi ==> rows[i] == rows'[i]
    ensures EligibleIn(rows, at, hi, locked) == EligibleIn(rows', at, hi, locked)
    decreases hi - at
  {
    if at < hi {
      EligibleInFrame(rows, rows', at + 1, hi, locked);
    }
  }

  /** What a drain that reached `cut` leaves at row `i`. */
  function RowAfter(rows: seq<Row>, at: nat, locked: set<Uuid>, retires: bool, cut: nat, halted: bool, i: nat): Row
    requires i < |rows|
  {
    if at <= i < cut && Eligible(rows[i], locked) then Settle(rows[i], retires)
    else if halted && i == cut then RecordAttempt(rows[i])
    else rows[i]
  }

  /** A committed drain settles exactly a prefix of the eligible rows: up to `cut` every
      eligible row is settled, the row at `cut` is the one that stopped it (still pending,
      attempt recorded) or there was none, and nothing behind it is touched. Rows that were
      not eligible are never touched, and the budget is used up unless it stopped or ran out
      of rows. */
  lemma {:induction false} DrainSettlesPrefix(a: Report, at: nat, locked: set<Uuid>, retires: bool,
                                              budget: nat, tries: seq<Tries>, n: nat)
    returns (cut: nat, halted: bool)
    requires n + budget <= |tries| && at <= |a.rows|
    ensures at <= cut <= |a.rows| && (halted ==> cut < |a.rows| && Eligible(a.rows[cut], locked))
    ensures var d := DrainSpec(a, at, locked, retires, budget, tries, n);
            forall i :: 0 <= i < |a.rows| ==> d.rows[i] == RowAfter(a.rows, at, locked, retires, cut, halted, i)
    ensures EligibleIn(a.rows, at, cut, locked) <= budget
    ensures !halted && cut < |a.rows| ==> EligibleIn(a.rows, at, cut, locked) == budget
    ensures halted ==> EligibleIn(a.rows, at, cut, locked) < budget
                       && Halts(a.rows[cut], retires, tries[n + EligibleIn(a.rows, at, cut, locked)])
    decreases |a.rows| - at
  {
    if at >= |a.rows| || budget == 0 {
      cut, halted := at, false;
    } else if !Eligible(a.rows[at], locked) {
      cut, halted := DrainSettlesPrefix(a, at + 1, locked, retires, budget, tries, n);
    } else if Halts(a.rows[at], retires, tries[n]) {
      cut, halted := at, true;
    } else {
      var b := Settled(a, at, retires, tries[n]);
      cut, halted := DrainSettlesPrefix(b, at + 1, locked, retires, budget - 1, tries, n + 1);
      EligibleInFrame(a.rows, b.rows, at + 1, cut, locked);
      forall i | 0 <= i < |a.rows|
        ensures RowAfter(b.rows, at + 1, locked, retires, cut, halted, i) ==
                  RowAfter(a.rows, at, locked, retires, cut, halted, i)
      {
        assert i != at ==> b.rows[i] == a.rows[i];
      }
    }
  }

  /** The three ways a drain marks a row: done with, no error left on it; retired with its error
      because it cannot be decoded; or tried in vain, still pending, with the error. */
  predicate Marked(before: Row, after: Row, retires: bool) {
    var w := WorkOf(before.payload, retires);
    && after == before.(published := after.published, attempts := before.attempts + 1, lastError := after.lastError)
    && (after.published ==> !w.Raise? && (after.lastError.None? <==> w.Publish?))
    && (!after.published ==> after.lastError.Some?)
  }

  /** Every row a drain changes was eligible and is marked in one of those ways, at most one
      of them as tried in vain; the event a row stands for never changes. */
  lemma DrainMarksRows(a: Report, locked: set<Uuid>, retires: bool, tries: seq<Tries>) returns (stop: Option<nat>)
    requires |tries| == BATCH_SIZE
    ensures var d := DrainSpec(a, 0, locked, retires, BATCH_SIZE, tries, 0);
            forall i :: 0 <= i < |a.rows| && d.rows[i] != a.rows[i] ==>
              && Eligible(a.rows[i], locked) && Marked(a.rows[i], d.rows[i], retires)
              && (!d.rows[i].published <==> stop == Some(i))
  {
    var cut, halted := DrainSettlesPrefix(a, 0, locked, retires, BATCH_SIZE, tries, 0);
    stop := if halted then Some(cut) else None;
    RaisingStays(a, 0, locked, retires, BATCH_SIZE, tries, 0);
    var d := DrainSpec(a, 0, locked, retires, BATCH_SIZE, tries, 0);
    forall i | 0 <= i < |a.rows| && d.rows[i] != a.rows[i]
      ensures Eligible(a.rows[i], locked) && Marked(a.rows[i], d.rows[i], retires)
      ensures !d.rows[i].published <==> stop == Some(i)
    {
      assert d.rows[i] == RowAfter(a.rows, 0, locked, retires, cut, halted, i);
    }
  }

  /** Whether the relay raises on the row every time it comes to it. */
  predicate Raises(r: Row, retires: bool) { WorkOf(r.payload, retires).Raise? }

  /** Such a row is never marked published, and every row keeps its payload. */
  lemma {:induction false} RaisingStays(a: Report, at: nat, locked: set<Uuid>, retires: bool, budget: nat,
                                        tries: seq<Tries>, n: nat)
    requires n + budget <= |tries|
    ensures var d := DrainSpec(a, at, locked, retires, budget, tries, n);
            forall i :: 0 <= i < |a.rows| ==>
              && d.rows[i].payload == a.rows[i].payload
              && (Raises(a.rows[i], retires) && !a.rows[i].published ==> !d.rows[i].published)
    decreases |a.rows| - at
  {
    if at < |a.rows| && budget > 0 {
      if !Eligible(a.rows[at], locked) {
        RaisingStays(a, at + 1, locked, retires, budget, tries, n);
      } else if !Halts(a.rows[at], retires, tries[n]) {
        RaisingStays(Settled(a, at, retires, tries[n]), at + 1, locked, retires, budget - 1, tries, n + 1);
      }
    }
  }

  /** Exactly which payloads make a relay raise. */
  lemma RaisesIff(r: Row, retires: bool)
    ensures Raises(r, retires) <==> !retires && (r.payload.Null? || r.payload.Scalar?)
  {
  }

  // ---------------------------------------------------------------- progress

  ghost predicate Healthy(tries: seq<Tries>) {
    forall i :: 0 <= i < |tries| ==> Delivers(tries[i])
  }

  /** No pending row makes the relay raise. */
  ghost predicate NoneRaises(rows: seq<Row>, retires: bool) {
    forall i :: 0 <= i < |rows| && !rows[i].published ==> !Raises(rows[i], retires)
  }

  ghost predicate Smooth(rows: seq<Row>, retires: bool, tries: seq<Tries>) {
    Healthy(tries) && NoneRaises(rows, retires)
  }

  /** The unpublished rows from `at` on. */
  function PendingFrom(rows: seq<Row>, at: nat): nat
    decreases |rows| - at
  {
    if at >= |rows| then 0
    else (if rows[at].published then 0 else 1) + PendingFrom(rows, at + 1)
  }

  function Pending(rows: seq<Row>): nat { PendingFrom(rows, 0) }

  lemma {:induction false} PendingUpdate(rows: seq<Row>, from: nat, at: nat, r: Row)
    requires at < |rows|
    ensures PendingFrom(rows[at := r], from) + (if from <= at && !rows[at].published then 1 else 0)
            == PendingFrom(rows, from) + if from <= at && !r.published then 1 else 0
    decreases |rows| - from
  {
    if from < |rows| {
      PendingUpdate(rows, from + 1, at, r);
    }
  }

  lemma {:induction false} SmoothWalk(a: Report, at: nat, retires: bool, budget: nat, tries: seq<Tries>, n: nat)
    requires n + budget <= |tries| && Smooth(a.rows, retires, tries)
    ensures var d := DrainSpec(a, at, {}, retires, budget, tries, n);
            && Pending(d.rows) == Pending(a.rows) - (if budget <= PendingFrom(a.rows,
                 at) then budget else PendingFrom(a.rows, at))
            && Smooth(d.rows, retires, tries)
    decreases |a.rows| - at
  {
    if at < |a.rows| && budget > 0 {
      if !Eligible(a.rows[at], {}) {
        SmoothWalk(a, at + 1, retires, budget, tries, n);
      } else {
        var b := Settled(a, at, retires, tries[n]);
        SmoothWalk(b, at + 1, retires, budget - 1, tries, n + 1);
        PendingUpdate(a.rows, 0, at, Settle(a.rows[at], retires));
        PendingUpdate(a.rows, at + 1, at, Settle(a.rows[at], retires));
      }
    }
  }

  /** `k` drains in a row, nobody else draining and nothing enqueued meanwhile. */
  function Drains(a: Report, retires: bool, tries: seq<Tries>, k: nat): Report
    requires |tries| == BATCH_SIZE
  {
    if k == 0 then a
    else DrainSpec(Drains(a, retires, tries, k - 1), 0, {}, retires, BATCH_SIZE, tries, 0)
  }

  /** With a broker that takes every publish, k drains clear 100 k pending rows: none of n
      is left exactly when k is at least n / 100 rounded up. */
  lemma {:induction false} HealthyDrainsClear(a: Report, retires: bool, tries: seq<Tries>, k: nat)
    requires |tries| == BATCH_SIZE && Smooth(a.rows, retires, tries)
    ensures var left := Pending(Drains(a, retires, tries, k).rows);
            && left == (if Pending(a.rows) <= 100 * k then 0 else Pending(a.rows) - 100 * k)
            && (left == 0 <==> k >= (Pending(a.rows) + 99) / 100)
    ensures Smooth(Drains(a, retires, tries, k).rows, retires, tries)
  {
    if k > 0 {
      HealthyDrainsClear(a, retires, tries, k - 1);
      SmoothWalk(Drains(a, retires, tries, k - 1), 0, retires, BATCH_SIZE, tries, 0);
    }
  }

  lemma {:induction false} RaisingStaysPending(a: Report, retires: bool, tries: seq<Tries>, k: nat, i: nat)
    requires |tries| == BATCH_SIZE && i < |a.rows| && !a.rows[i].published && Raises(a.rows[i], retires)
    ensures var rows := Drains(a, retires, tries, k).rows;
            |rows| == |a.rows| && !rows[i].published && Raises(rows[i], retires)
  {
    if k > 0 {
      RaisingStaysPending(a, retires, tries, k - 1, i);
      RaisingStays(Drains(a, retires, tries, k - 1), 0, {}, retires, BATCH_SIZE, tries, 0);
    }
  }

  lemma {:induction false} PendingFromPositive(rows: seq<Row>, from: nat, i: nat)
    requires from <= i < |rows| && !rows[i].published
    ensures PendingFrom(rows, from) > 0
    decreases i - from
  {
    if from < i {
      PendingFromPositive(rows, from + 1, i);
    }
  }

  /** When a relay clears its queue. With a broker that takes every publish, k drains leave
      none of n pending rows exactly when k is at least n / 100 rounded up and no pending row
      makes the relay raise. For the Go relays that second half always holds; for
      offer-service's it fails on null, numbers and booleans and on nothing else. */
  lemma ClearsIff(a: Report, retires: bool, tries: seq<Tries>, k: nat)
    requires |tries| == BATCH_SIZE && Healthy(tries)
    ensures Pending(Drains(a, retires, tries, k).rows) == 0
            <==> k >= (Pending(a.rows) + 99) / 100 && NoneRaises(a.rows, retires)
    ensures retires ==> NoneRaises(a.rows, retires)
  {
    if NoneRaises(a.rows, retires) {
      HealthyDrainsClear(a, retires, tries, k);
    } else {
      var i :| 0 <= i < |a.rows| && !a.rows[i].published && Raises(a.rows[i], retires);
      RaisingStaysPending(a, retires, tries, k, i);
      PendingFromPositive(Drains(a, retires, tries, k).rows, 0, i);
    }
  }

  /** The pending row at `at` is the first that makes the relay raise. */
  ghost predicate FirstRaising(rows: seq<Row>, retires: bool, at: nat) {
    && at < |rows| && !rows[at].published && Raises(rows[at], retires)
    && NoneRaises(rows[..at], retires)
  }

  lemma {:induction false} EligibleInSplit(rows: seq<Row>, from: nat, mid: nat, hi: nat, locked: set<Uuid>)
    requires from <= mid <= hi <= |rows|
    ensures EligibleIn(rows, from, hi, locked) ==
              EligibleIn(rows, from, mid, locked) + EligibleIn(rows, mid, hi, locked)
    decreases mid - from
  {
    if from < mid {
      EligibleInSplit(rows, from + 1, mid, hi, locked);
    }
  }

  lemma {:induction false} NoneEligibleIn(rows: seq<Row>, from: nat, hi: nat, locked: set<Uuid>)
    requires hi <= |rows| && forall i :: from <= i < hi ==> !Eligible(rows[i], locked)
    ensures EligibleIn(rows, from, hi, locked) == 0
    decreases hi - from
  {
    if from < hi {
      NoneEligibleIn(rows, from + 1, hi, locked);
    }
  }

  /** One drain in front of a row that raises: up to a batch of the rows before it go, and
      nothing from it on is published. */
  lemma DrainBeforeRaising(a: Report, at: nat, retires: bool, tries: seq<Tries>)
    requires |tries| == BATCH_SIZE && Healthy(tries) && FirstRaising(a.rows, retires, at)
    ensures var rows := DrainSpec(a, 0, {}, retires, BATCH_SIZE, tries, 0).rows;
            var before, left := EligibleIn(a.rows, 0, at, {}), EligibleIn(rows, 0, at, {});
            && FirstRaising(rows, retires, at) && left == (if before <= BATCH_SIZE then 0 else before - BATCH_SIZE)
            && forall i :: at < i < |rows| ==> rows[i] == a.rows[i]
  {
    var rows := DrainSpec(a, 0, {}, retires, BATCH_SIZE, tries, 0).rows;
    var cut, halted := DrainSettlesPrefix(a, 0, {}, retires, BATCH_SIZE, tries, 0);
    RaisingStays(a, 0, {}, retires, BATCH_SIZE, tries, 0);
    assert rows[at] == RowAfter(a.rows, 0, {}, retires, cut, halted, at);
    assert cut <= at;
    assert forall i :: 0 <= i < at && !a.rows[i].published ==> a.rows[..at][i] == a.rows[i];
    assert halted ==> Raises(a.rows[cut], retires);
    assert halted ==> cut == at;
    forall i | 0 <= i < |rows| && i != at
      ensures if i < cut then !Eligible(rows[i], {}) else rows[i] == a.rows[i]
    {
      assert rows[i] == RowAfter(a.rows, 0, {}, retires, cut, halted, i);
    }
    EligibleInSplit(a.rows, 0, cut, at, {});
    EligibleInSplit(rows, 0, cut, at, {});
    NoneEligibleIn(rows, 0, cut, {});
    EligibleInFrame(a.rows, rows, cut, at, {});
    forall i | 0 <= i < at && !rows[..at][i].published ensures !Raises(rows[..at][i], retires) {
      assert a.rows[..at][i] == a.rows[i];
    }
  }

  /** What a blocked queue does deliver: with a healthy broker, k drains publish the rows before
      the first one that raises, 100 at a time, and no number of drains publishes or changes
      anything behind it. */
  lemma {:induction false} RaisingRowBlocksQueue(a: Report, at: nat, retires: bool, tries: seq<Tries>, k: nat)
    requires |tries| == BATCH_SIZE && Healthy(tries) && FirstRaising(a.rows, retires, at)
    ensures var rows := Drains(a, retires, tries, k).rows;
            var before := EligibleIn(a.rows, 0, at, {});
            && |rows| == |a.rows| && FirstRaising(rows, retires, at)
            && EligibleIn(rows, 0, at, {}) == (if before <= 100 * k then 0 else before - 100 * k)
            && forall i :: at < i < |rows| ==> rows[i] == a.rows[i]
  {
    if k > 0 {
      RaisingRowBlocksQueue(a, at, retires, tries, k - 1);
      DrainBeforeRaising(Drains(a, retires, tries, k - 1), at, retires, tries);
    }
  }
}
