/** The consuming half of the notification path as a step machine: the broker's queue and
    dead-letter queue, deliveries in the hands of concurrent consumers, and the inbox. */
module Consuming {
  import opened Base
  import Inbox

  /** How far a consumer has come with one delivered message. `Inserted` is an open
      transaction that holds the processed-event key. */
  datatype Phase = Received | Inserted | Committed | Duplicate | Failing

  datatype Delivery = Delivery(msg: Inbox.Message, phase: Phase)

  /** A notification row, and the event it came from (none for the HTTP path). The origin
      is not a column; it is what the exactly-once claim is about. */
  datatype Stored = Stored(origin: Option<Uuid>, row: Inbox.Row)

  datatype State = State(
    queue: multiset<Inbox.Message>,  // ready in notification.events
    inflight: map<nat, Delivery>,     // delivered, not yet acknowledged
    dead: multiset<Inbox.Message>,   // notification.events.dlq
    inbox: seq<Stored>,               // committed notification rows
    processed: set<Uuid>)             // committed processed_event keys

  datatype Step =
    | Deliver(d: nat, msg: Inbox.Message)  // the broker hands the message to a consumer
    | RejectMalformed(d: nat)               // the schema refuses it
    | InsertKey(d: nat)                     // the key is free: the insert goes through
    | SeeDuplicate(d: nat)                  // the key is taken: DuplicateEvent
    | CommitEvent(d: nat, now: int)
    | Fail(d: nat)                          // any other exception, before or after the commit
    | DeadLetter(d: nat)
    | Acknowledge(d: nat)
    | LoseConnection(d: nat)                // crash or lost ack: rolled back and redelivered
    | Replay(msg: Inbox.Message)           // an operator returns a dead letter
    | HttpCreate(note: Inbox.Note, now: int)
    | MarkRead(at: nat)

  predicate In(s: State, d: nat, phase: Phase) {
    d in s.inflight && s.inflight[d].phase == phase
  }

  /** Whether some open consumer transaction holds the processed-event key `e`; a second
      insert of it waits for that transaction to end. */
  ghost predicate KeyHeld(s: State, e: Uuid) {
    exists d :: In(s, d, Inserted) && s.inflight[d].msg.eventId == e
  }

  ghost predicate Enabled(s: State, t: Step) {
    match t
    case Deliver(d, m) => d !in s.inflight && m in s.queue
    case RejectMalformed(d) => In(s, d, Received) && Inbox.Accept(s.inflight[d].msg).None?
    case InsertKey(d) =>
      && In(s, d, Received) && Inbox.Accept(s.inflight[d].msg).Some?
      && s.inflight[d].msg.eventId !in s.processed && !KeyHeld(s, s.inflight[d].msg.eventId)
    case SeeDuplicate(d) =>
      && In(s, d, Received) && Inbox.Accept(s.inflight[d].msg).Some? && s.inflight[d].msg.eventId in s.processed
    case CommitEvent(d, now) => In(s, d, Inserted) && Inbox.Accept(s.inflight[d].msg).Some?
    case Fail(d) => d in s.inflight
    case DeadLetter(d) => In(s, d, Failing)
    case Acknowledge(d) => In(s, d, Committed) || In(s, d, Duplicate)
    case LoseConnection(d) => d in s.inflight
    case Replay(m) => m in s.dead
    case HttpCreate(note, now) => true
    case MarkRead(at) => at < |s.inbox| && s.inbox[at].row.status == Inbox.Sent
  }

  function Tag(e: Uuid, rows: seq<Inbox.Row>): (s: seq<Stored>)
    ensures |s| == |rows| && forall i :: 0 <= i < |rows| ==> s[i] == Stored(Some(e), rows[i])
  {
    seq(|rows|, i requires 0 <= i < |rows| => Stored(Some(e), rows[i]))
  }

  function SetPhase(s: State, d: nat, phase: Phase): State
    requires d in s.inflight
  {
    s.(inflight := s.inflight[d := s.inflight[d].(phase := phase)])
  }

  function Drop(s: State, d: nat): State { s.(inflight := s.inflight - {d}) }

  function ReadRow(r: Stored): Stored { r.(row := r.row.(status := Inbox.Read)) }

  ghost function Apply(s: State, t: Step): State
    requires Enabled(s, t)
  {
    match t
    case Deliver(d, m) => s.(queue := s.queue - multiset{m}, inflight := s.inflight[d := Delivery(m, Received)])
    case RejectMalformed(d) => Drop(s, d).(dead := s.dead + multiset{s.inflight[d].msg})
    case InsertKey(d) => SetPhase(s, d, Inserted)
    case SeeDuplicate(d) => SetPhase(s, d, Duplicate)
    case CommitEvent(d, now) =>
      var m := s.inflight[d].msg;
      SetPhase(s, d, Committed).(inbox := s.inbox + Tag(m.eventId, Inbox.BuildAll(Inbox.Accept(m).value, now)),
                                 processed := s.processed + {m.eventId})
    case Fail(d) => SetPhase(s, d, Failing)
    case DeadLetter(d) => Drop(s, d).(dead := s.dead + multiset{s.inflight[d].msg})
    case Acknowledge(d) => Drop(s, d)
    case LoseConnection(d) => Drop(s, d).(queue := s.queue + multiset{s.inflight[d].msg})
    case Replay(m) => s.(dead := s.dead - multiset{m}, queue := s.queue + multiset{m})
    case HttpCreate(note, now) => s.(inbox := s.inbox + [Stored(None, Inbox.Build(note, now))])
    case MarkRead(at) => s.(inbox := s.inbox[at := ReadRow(s.inbox[at])])
  }

  // ---------------------------------------------------------------- invariant

  /** What the producers have promised: for each event, the one message that may carry it. */
  type Promise = map<Uuid, Inbox.Message>

  predicate Genuine(p: Promise, m: Inbox.Message) {
    m.eventId in p && p[m.eventId] == m
  }

  /** Where a message can be. */
  ghost predicate Present(s: State, m: Inbox.Message) {
    m in s.queue || m in s.dead || exists d :: d in s.inflight && s.inflight[d].msg == m
  }

  ghost predicate MessagesOk(s: State, p: Promise) {
    forall m :: Present(s, m) ==> Genuine(p, m)
  }

  /** An open transaction holds only the key of an event not applied yet. */
  ghost predicate HeldKeysFree(s: State) {
    forall d :: In(s, d, Inserted) ==> s.inflight[d].msg.eventId !in s.processed
  }

  /** And only for a message the schema accepted. */
  ghost predicate HeldAccepted(s: State) {
    forall d :: In(s, d, Inserted) ==> Inbox.Accept(s.inflight[d].msg).Some?
  }

  /** An acknowledgement is due only for an applied event. */
  ghost predicate AcksDue(s: State) {
    forall d :: In(s, d, Committed) || In(s, d, Duplicate) ==> s.inflight[d].msg.eventId in s.processed
  }

  /** No two open transactions hold the same key. */
  ghost predicate OneHolder(s: State) {
    forall d, c ::
      (In(s, d, Inserted) && In(s, c, Inserted) && s.inflight[d].msg.eventId == s.inflight[c].msg.eventId)
      ==> d == c
  }

  ghost predicate KeysOk(s: State) { HeldKeysFree(s) && HeldAccepted(s) && AcksDue(s) && OneHolder(s) }

  /** The notifications the inbox holds for one event, in order, whatever has since
      happened to their status. */
  function NotesFrom(inbox: seq<Stored>, e: Uuid): seq<Inbox.Note> {
    if inbox == [] then []
    else
      var last := inbox[|inbox| - 1];
      NotesFrom(inbox[..|inbox| - 1], e) + if last.origin == Some(e) then [last.row.note] else []
  }

  /** The positions of the event's rows, in order. */
  ghost predicate RowsOf(inbox: seq<Stored>, e: Uuid, at: seq<nat>) {
    Increasing(at) && forall k: int :: k in at <==> 0 <= k < |inbox| && inbox[k].origin == Some(e)
  }

  /** Their notifications. */
  ghost predicate NotesAt(inbox: seq<Stored>, at: seq<nat>, notes: seq<Inbox.Note>) {
    |notes| == |at| && forall i :: 0 <= i < |at| ==> at[i] < |inbox| && notes[i] == inbox[at[i]].row.note
  }

  lemma RowsOfMore(inbox: seq<Stored>, r: Stored, e: Uuid, at: seq<nat>, notes: seq<Inbox.Note>)
    requires RowsOf(inbox, e, at) && NotesAt(inbox, at, notes)
    ensures r.origin == Some(e) ==>
              RowsOf(inbox + [r], e, at + [|inbox|]) && NotesAt(inbox + [r], at + [|inbox|], notes + [r.row.note])
    ensures r.origin != Some(e) ==> RowsOf(inbox + [r], e, at) && NotesAt(inbox + [r], at, notes)
  {
    var all := inbox + [r];
    assert forall k :: 0 <= k < |inbox| ==> all[k] == inbox[k];
    assert forall i :: 0 <= i < |at| ==> at[i] in at;
  }

  /** What `NotesFrom` lists are the rows of the event and no others, once each and in order. */
  lemma {:induction false} NotesFromAre(inbox: seq<Stored>, e: Uuid) returns (at: seq<nat>)
    ensures RowsOf(inbox, e, at) && NotesAt(inbox, at, NotesFrom(inbox, e))
  {
    if inbox == [] {
      at := [];
    } else {
      var n := |inbox| - 1;
      var before := NotesFromAre(inbox[..n], e);
      RowsOfMore(inbox[..n], inbox[n], e, before, NotesFrom(inbox[..n], e));
      at := if inbox[n].origin == Some(e) then before + [n] else before;
      assert inbox[..n] + [inbox[n]] == inbox;
      assert NotesFrom(inbox[..n], e) + [] == NotesFrom(inbox[..n], e);
    }
  }

  /** Exactly the promised notifications, once, for the events recorded as processed, and
      nothing for any other. */
  ghost predicate InboxOk(s: State, p: Promise) {
    && (forall e :: e in s.processed ==>
          e in p && Inbox.Accept(p[e]).Some? && NotesFrom(s.inbox, e) == Inbox.Accept(p[e]).value)
    && (forall e :: e !in s.processed ==> NotesFrom(s.inbox, e) == [])
  }

  ghost predicate Inv(s: State, p: Promise) {
    MessagesOk(s, p) && KeysOk(s) && InboxOk(s, p)
  }

  /** The event has reached the broker and is not forgotten: applied, queued, in a consumer's
      hands or dead-lettered. */
  ghost predicate Accounted(s: State, e: Uuid) {
    || e in s.processed
    || (exists m :: m in s.queue && m.eventId == e)
    || (exists d :: d in s.inflight && s.inflight[d].msg.eventId == e)
    || (exists m :: m in s.dead && m.eventId == e)
  }

  // ---------------------------------------------------------------- preservation

  /** No step of the broker or a consumer makes up a message. */
  lemma NoMessageFromNowhere(s: State, t: Step, m: Inbox.Message)
    requires Enabled(s, t) && Present(Apply(s, t), m)
    ensures Present(s, m)
  {
    var s' := Apply(s, t);
    if m in s'.queue || m in s'.dead {
    } else {
      var d :| d in s'.inflight && s'.inflight[d].msg == m;
      assert (d in s.inflight && s.inflight[d].msg == m) || m in s.queue;
    }
  }

  lemma MessagesStayOk(s: State, p: Promise, t: Step)
    requires MessagesOk(s, p) && Enabled(s, t)
    ensures MessagesOk(Apply(s, t), p)
  {
    forall m | Present(Apply(s, t), m) ensures Genuine(p, m) {
      NoMessageFromNowhere(s, t, m);
    }
  }

  lemma HeldKeysStayFree(s: State, t: Step)
    requires HeldKeysFree(s) && OneHolder(s) && Enabled(s, t)
    ensures HeldKeysFree(Apply(s, t))
  {
    var s' := Apply(s, t);
    forall d | In(s', d, Inserted) ensures s'.inflight[d].msg.eventId !in s'.processed {
      if !t.InsertKey? || t.d != d {
        assert In(s, d, Inserted);
        if t.CommitEvent? {
          assert In(s, t.d, Inserted);
        }
      }
    }
  }

  lemma HeldStaysAccepted(s: State, t: Step)
    requires HeldAccepted(s) && Enabled(s, t)
    ensures HeldAccepted(Apply(s, t))
  {
    var s' := Apply(s, t);
    forall d | In(s', d, Inserted) ensures Inbox.Accept(s'.inflight[d].msg).Some? {
      assert In(s, d, Inserted) || (t.InsertKey? && t.d == d);
    }
  }

  lemma AcksStayDue(s: State, t: Step)
    requires AcksDue(s) && Enabled(s, t)
    ensures AcksDue(Apply(s, t))
  {
    var s' := Apply(s, t);
    forall d | In(s', d, Committed) || In(s', d, Duplicate) ensures s'.inflight[d].msg.eventId in s'.processed {
      assert In(s, d, Committed) || In(s, d, Duplicate) || ((t.CommitEvent? || t.SeeDuplicate?) && t.d == d);
    }
  }

  lemma StaysOneHolder(s: State, t: Step)
    requires OneHolder(s) && Enabled(s, t)
    ensures OneHolder(Apply(s, t))
  {
    var s' := Apply(s, t);
    forall d, c | In(s', d, Inserted) && In(s', c, Inserted) && s'.inflight[d].msg.eventId == s'.inflight[c].msg.eventId
      ensures d == c
    {
      assert (In(s, d, Inserted) && s.inflight[d] == s'.inflight[d]) || (t.InsertKey? && t.d == d);
      assert (In(s, c, Inserted) && s.inflight[c] == s'.inflight[c]) || (t.InsertKey? && t.d == c);
      assert t.InsertKey? ==> !KeyHeld(s, s.inflight[t.d].msg.eventId);
    }
  }

  lemma KeysStayOk(s: State, t: Step)
    requires KeysOk(s) && Enabled(s, t)
    ensures KeysOk(Apply(s, t))
  {
    HeldKeysStayFree(s, t);
    HeldStaysAccepted(s, t);
    AcksStayDue(s, t);
    StaysOneHolder(s, t);
  }

  lemma QueuedStaysAccounted(s: State, t: Step, m: Inbox.Message)
    requires Enabled(s, t) && m in s.queue
    ensures Accounted(Apply(s, t), m.eventId)
  {
    var s' := Apply(s, t);
    if m !in s'.queue {
      assert s'.inflight[t.d].msg == m;
    }
  }

  lemma DeadStaysAccounted(s: State, t: Step, m: Inbox.Message)
    requires Enabled(s, t) && m in s.dead
    ensures Accounted(Apply(s, t), m.eventId)
  {
    var s' := Apply(s, t);
    assert m in s'.dead || m in s'.queue;
  }

  lemma InflightStaysAccounted(s: State, t: Step, d: nat)
    requires KeysOk(s) && Enabled(s, t) && d in s.inflight
    ensures Accounted(Apply(s, t), s.inflight[d].msg.eventId)
  {
    var s' := Apply(s, t);
    var m := s.inflight[d].msg;
    if d in s'.inflight {
      assert s'.inflight[d].msg == m;
    } else if !t.Acknowledge? {
      assert m in s'.queue || m in s'.dead;
    }
  }

  /** What is accounted for stays accounted for: only an applied event is acknowledged. */
  lemma AccountedStays(s: State, t: Step, e: Uuid)
    requires KeysOk(s) && Enabled(s, t) && Accounted(s, e)
    ensures Accounted(Apply(s, t), e)
  {
    if e in s.processed {
      assert e in Apply(s, t).processed;
    } else if m :| m in s.queue && m.eventId == e {
      QueuedStaysAccounted(s, t, m);
    } else if m :| m in s.dead && m.eventId == e {
      DeadStaysAccounted(s, t, m);
    } else {
      var d :| d in s.inflight && s.inflight[d].msg.eventId == e;
      InflightStaysAccounted(s, t, d);
    }
  }

  lemma {:induction false} NotesFromAppend(a: seq<Stored>, b: seq<Stored>, e: Uuid)
    ensures NotesFrom(a + b, e) == NotesFrom(a, e) + NotesFrom(b, e)
  {
    if b == [] {
      assert a + b == a;
    } else {
      NotesFromAppend(a, b[..|b| - 1], e);
      assert (a + b)[..|a + b| - 1] == a + b[..|b| - 1];
    }
  }

  lemma {:induction false} NotesFromTag(ns: seq<Inbox.Note>, now: int, e: Uuid, f: Uuid)
    ensures NotesFrom(Tag(e, Inbox.BuildAll(ns, now)), f) == if e == f then ns else []
  {
    var tagged := Tag(e, Inbox.BuildAll(ns, now));
    if ns != [] {
      var n := |ns| - 1;
      NotesFromTag(ns[..n], now, e, f);
      assert tagged[..n] == Tag(e, Inbox.BuildAll(ns[..n], now));
      assert ns[..n] + [ns[n]] == ns;
    }
  }

  lemma {:induction false} NotesFromMarkRead(inbox: seq<Stored>, at: nat, e: Uuid)
    requires at < |inbox|
    ensures NotesFrom(inbox[at := ReadRow(inbox[at])], e) == NotesFrom(inbox, e)
  {
    var n := |inbox| - 1;
    var inbox' := inbox[at := ReadRow(inbox[at])];
    if at < n {
      NotesFromMarkRead(inbox[..n], at, e);
      assert inbox'[..n] == inbox[..n][at := ReadRow(inbox[at])];
    } else {
      assert inbox'[..n] == inbox[..n];
    }
  }

  lemma NotesFromCommit(inbox: seq<Stored>, ns: seq<Inbox.Note>, now: int, e: Uuid, f: Uuid)
    ensures NotesFrom(inbox + Tag(e, Inbox.BuildAll(ns, now)), f) == NotesFrom(inbox, f) + if e == f then ns else []
  {
    NotesFromAppend(inbox, Tag(e, Inbox.BuildAll(ns, now)), f);
    NotesFromTag(ns, now, e, f);
  }

  /** Adding the promised notifications of one unprocessed event, and its key, keeps the
      inbox what it should be. */
  lemma InboxOkWithEvent(s: State, p: Promise, s': State, id: Uuid)
    requires InboxOk(s, p) && id !in s.processed && id in p && Inbox.Accept(p[id]).Some?
    requires s'.processed == s.processed + {id}
    requires forall e ::
               NotesFrom(s'.inbox, e) == NotesFrom(s.inbox, e) + if id == e then Inbox.Accept(p[id]).value else []
    ensures InboxOk(s', p)
  {
    forall e ensures NotesFrom(s'.inbox, e) == if id == e then Inbox.Accept(p[id]).value else NotesFrom(s.inbox, e) {
      assert NotesFrom(s.inbox, e) + [] == NotesFrom(s.inbox, e);
    }
  }

  lemma CommitKeepsInboxOk(s: State, p: Promise, d: nat, now: int)
    requires Inv(s, p) && Enabled(s, CommitEvent(d, now))
    ensures InboxOk(Apply(s, CommitEvent(d, now)), p)
  {
    var m := s.inflight[d].msg;
    assert Present(s, m) && Genuine(p, m) && In(s, d, Inserted);
    forall e {
      NotesFromCommit(s.inbox, Inbox.Accept(m).value, now, m.eventId, e);
    }
    InboxOkWithEvent(s, p, Apply(s, CommitEvent(d, now)), m.eventId);
  }

  lemma InboxStaysOk(s: State, p: Promise, t: Step)
    requires Inv(s, p) && Enabled(s, t)
    ensures InboxOk(Apply(s, t), p)
  {
    var s' := Apply(s, t);
    match t
    case CommitEvent(d, now) =>
      CommitKeepsInboxOk(s, p, d, now);
    case HttpCreate(note, now) =>
      forall e ensures NotesFrom(s'.inbox, e) == NotesFrom(s.inbox, e) {
        NotesFromAppend(s.inbox, [Stored(None, Inbox.Build(note, now))], e);
      }
    case MarkRead(at) =>
      forall e ensures NotesFrom(s'.inbox, e) == NotesFrom(s.inbox, e) {
        NotesFromMarkRead(s.inbox, at, e);
      }
    case _ =>
  }

  /** Every in-app row is sent or read, with its time; any other is pending. */
  ghost predicate RowsSettled(s: State) {
    forall i :: 0 <= i < |s.inbox| ==> Inbox.Settled(s.inbox[i].row)
  }

  lemma RowsStaySettled(s: State, t: Step)
    requires RowsSettled(s) && Enabled(s, t)
    ensures RowsSettled(Apply(s, t))
  {
    if t.CommitEvent? {
      var notes := Inbox.Accept(s.inflight[t.d].msg).value;
      forall i | 0 <= i < |notes| ensures Inbox.Settled(Inbox.Build(notes[i], t.now)) {
        Inbox.BuildStores(notes[i], t.now);
      }
    } else if t.HttpCreate? {
      Inbox.BuildStores(t.note, t.now);
    }
  }

  lemma InvStep(s: State, p: Promise, t: Step)
    requires Inv(s, p) && Enabled(s, t)
    ensures Inv(Apply(s, t), p)
  {
    MessagesStayOk(s, p, t);
    KeysStayOk(s, t);
    InboxStaysOk(s, p, t);
  }

  /** The producers may promise more events and add copies of promised messages. */
  lemma ProducersMayAdd(s: State, p: Promise, p': Promise, queue': multiset<Inbox.Message>)
    requires Inv(s, p)
    requires forall e :: e in p ==> e in p' && p'[e] == p[e]
    requires forall m :: m in queue' ==> m in s.queue || Genuine(p', m)
    ensures Inv(s.(queue := queue'), p')
  {
    var s' := s.(queue := queue');
    assert forall d, f :: In(s', d, f) <==> In(s, d, f);
    forall m | Present(s', m) ensures Genuine(p', m) {
      if Present(s, m) { assert Genuine(p, m); }
    }
  }
}
