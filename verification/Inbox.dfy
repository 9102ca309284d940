/** notification-service: the wire schema, the notification table with its CHECK
    constraints, and the transaction that records one event. */
module Inbox {
  import opened Base

  const MAX_BULK := 500

  // ---------------------------------------------------------------- trimming

  /** The characters Python's `str.strip` removes. */
  predicate IsSpace(c: char) {
    var n := c as int;
    || 9 <= n <= 13 || 28 <= n <= 32 || n == 0x85 || n == 0xA0 || n == 0x1680
    || 0x2000 <= n <= 0x200A || n == 0x2028 || n == 0x2029 || n == 0x202F
    || n == 0x205F || n == 0x3000
  }

  function TrimLeft(p: char -> bool, s: string): string {
    if s != "" && p(s[0]) then TrimLeft(p, s[1..]) else s
  }

  function TrimRight(p: char -> bool, s: string): string {
    if s != "" && p(s[|s| - 1]) then TrimRight(p, s[..|s| - 1]) else s
  }

  function Trim(p: char -> bool, s: string): string {
    TrimRight(p, TrimLeft(p, s))
  }

  function Strip(s: string): string { Trim(IsSpace, s) }

  /** PostgreSQL's one-argument `btrim`, which removes spaces only. */
  function BTrim(s: string): string { Trim(c => c == ' ', s) }

  /** What trimming on the left keeps: a suffix, everything before it trimmable, its
      first character not. */
  lemma {:induction false} TrimLeftSpec(p: char -> bool, s: string) returns (i: nat)
    ensures i <= |s| && TrimLeft(p, s) == s[i..]
    ensures forall k :: 0 <= k < i ==> p(s[k])
    ensures i < |s| ==> !p(s[i])
  {
    if s != "" && p(s[0]) {
      var j := TrimLeftSpec(p, s[1..]);
      i := j + 1;
      forall k | 0 <= k < i ensures p(s[k]) {
        if k > 0 { assert s[1..][k - 1] == s[k]; }
      }
    } else {
      i := 0;
    }
  }

  lemma {:induction false} TrimRightSpec(p: char -> bool, s: string) returns (j: nat)
    ensures j <= |s| && TrimRight(p, s) == s[..j]
    ensures forall k :: j <= k < |s| ==> p(s[k])
    ensures j > 0 ==> !p(s[j - 1])
  {
    if s != "" && p(s[|s| - 1]) {
      j := TrimRightSpec(p, s[..|s| - 1]);
    } else {
      j := |s|;
    }
  }

  /** Trimming keeps the longest stretch that neither starts nor ends with a trimmable
      character, and it keeps nothing exactly when every character is trimmable. */
  lemma {:induction false} TrimSpec(p: char -> bool, s: string) returns (i: nat, j: nat)
    ensures i <= j <= |s| && Trim(p, s) == s[i..j]
    ensures forall k :: 0 <= k < i || j <= k < |s| ==> p(s[k])
    ensures i < j ==> !p(s[i]) && !p(s[j - 1])
    ensures Trim(p, s) == "" <==> forall k :: 0 <= k < |s| ==> p(s[k])
  {
    i := TrimLeftSpec(p, s);
    var rest := s[i..];
    var n := TrimRightSpec(p, rest);
    j := i + n;
    assert forall k :: 0 <= k < |rest| ==> rest[k] == s[i + k];
    forall k | j <= k < |s| ensures p(s[k]) {
      assert rest[k - i] == s[k];
    }
    assert rest[..n] == s[i..j];
  }

  lemma TrimNoop(p: char -> bool, s: string)
    requires s != "" && !p(s[0]) && !p(s[|s| - 1])
    ensures Trim(p, s) == s
  {
  }

  // ---------------------------------------------------------------- schema

  /** One notification as it arrives in the body; `channel` may be left out. */
  datatype RawNote = RawNote(user: Uuid, kind: string, channel: Option<string>,
                             title: string, message: string)

  /** One notification the schema has accepted. */
  datatype Note = Note(user: Uuid, kind: string, channel: string, title: string, message: string)

  const CHANNELS: set<string> := {"IN_APP", "EMAIL", "SMS", "PUSH"}

  /** `^[A-Z][A-Z0-9_]*$` */
  predicate TypeShape(s: string) {
    && s != ""
    && 'A' <= s[0] <= 'Z'
    && forall i :: 0 <= i < |s| ==> 'A' <= s[i] <= 'Z' || '0' <= s[i] <= '9' || s[i] == '_'
  }

  function AcceptNote(r: RawNote): Option<Note> {
    var channel := if r.channel.Some? then r.channel.value else "IN_APP";
    if && TypeShape(r.kind) && |r.kind| <= 64 && channel in CHANNELS
       && 1 <= |r.title| <= 200 && 1 <= |r.message| <= 2000
       && Strip(r.title) != "" && Strip(r.message) != ""
    then Some(Note(r.user, r.kind, channel, Strip(r.title), Strip(r.message)))
    else None
  }

  function AcceptNotes(rs: seq<RawNote>): Option<seq<Note>> {
    if rs == [] then Some([]) else
      match (AcceptNote(rs[0]), AcceptNotes(rs[1..]))
      case (Some(n), Some(ns)) => Some([n] + ns)
      case _ => None
  }

  /** `EventEnvelope` validation; `None` is a ValidationError. */
  function AcceptEnvelope(source: string, rs: seq<RawNote>): Option<seq<Note>> {
    if 1 <= |source| <= 64 && 1 <= |rs| <= MAX_BULK then AcceptNotes(rs) else None
  }

  /** The body of one AMQP message: a list of notifications, or something the envelope schema
      cannot read as one. */
  datatype Body = Notes(notes: seq<RawNote>) | Junk(raw: string)

  /** One event on the wire. The id is the outbox row's own, so a second publish of the same
      row carries the same id. */
  datatype Message = Message(eventId: Uuid, source: string, body: Body)

  function Accept(m: Message): Option<seq<Note>> {
    if m.body.Notes? then AcceptEnvelope(m.source, m.body.notes) else None
  }

  lemma {:induction false} AcceptNotesEach(rs: seq<RawNote>)
    requires AcceptNotes(rs).Some?
    ensures |AcceptNotes(rs).value| == |rs|
    ensures forall i :: 0 <= i < |rs| ==> AcceptNote(rs[i]) == Some(AcceptNotes(rs).value[i])
  {
    if rs != [] {
      AcceptNotesEach(rs[1..]);
      forall i | 0 <= i < |rs| ensures AcceptNote(rs[i]) == Some(AcceptNotes(rs).value[i]) {
        if i > 0 { assert rs[1..][i - 1] == rs[i]; }
      }
    }
  }

  /** When the inbox takes a single in-app note whose title and message have a visible
      character in them. */
  lemma NoteTakenIff(source: string, n: RawNote, t: nat, m: nat)
    requires 1 <= |source| <= 64 && n.channel == None && TypeShape(n.kind) && |n.kind| <= 64 && |n.title| <= 200
    requires t < |n.title| && !IsSpace(n.title[t]) && m < |n.message| && !IsSpace(n.message[m])
    ensures AcceptEnvelope(source, [n]).Some? <==> |n.message| <= 2000
  {
    assert AcceptNotes([n][1..]) == Some([]);
    var _, _ := TrimSpec(IsSpace, n.title);
    var _, _ := TrimSpec(IsSpace, n.message);
  }

  lemma {:induction false} AcceptNotesIff(rs: seq<RawNote>)
    ensures AcceptNotes(rs).Some? <==> forall i :: 0 <= i < |rs| ==> AcceptNote(rs[i]).Some?
  {
    if rs != [] {
      AcceptNotesIff(rs[1..]);
      assert forall i :: 0 <= i < |rs| ==> rs[i] == if i == 0 then rs[0] else rs[1..][i - 1];
      assert forall i :: 0 <= i < |rs| - 1 ==> rs[1..][i] == rs[i + 1];
    }
  }

  /** Exactly which envelopes the schema accepts. */
  lemma EnvelopeAcceptedIff(source: string, rs: seq<RawNote>)
    ensures AcceptEnvelope(source, rs).Some? <==>
            1 <= |source| <= 64 && 1 <= |rs| <= 500 && forall i :: 0 <= i < |rs| ==> AcceptNote(rs[i]).Some?
  {
    AcceptNotesIff(rs);
  }

  // ---------------------------------------------------------------- table

  datatype Status = Pending | Sent | Failed | Read

  datatype Row = Row(note: Note, status: Status, sentAt: Option<int>)

  /** `_build` with `_deliver`: storing an in-app notification is sending it. */
  function Build(n: Note, now: int): Row {
    if n.channel == "IN_APP" then Row(n, Sent, Some(now)) else Row(n, Pending, None)
  }

  function BuildAll(ns: seq<Note>, now: int): (rows: seq<Row>)
    ensures |rows| == |ns|
    ensures forall i :: 0 <= i < |ns| ==> rows[i] == Build(ns[i], now)
  {
    seq(|ns|, i requires 0 <= i < |ns| => Build(ns[i], now))
  }

  /** The CHECK constraints and column widths of the notification table. */
  predicate RowChecks(r: Row) {
    && r.note.channel in CHANNELS && |r.note.channel| <= 16
    && TypeShape(r.note.kind) && |r.note.kind| <= 64
    && |BTrim(r.note.title)| > 0 && |r.note.title| <= 200
    && ((r.status == Sent || r.status == Read) <==> r.sentAt.Some?)
  }

  predicate RowsCheck(rs: seq<Row>) {
    forall i :: 0 <= i < |rs| ==> RowChecks(rs[i])
  }

  /** A payload the schema accepts can never fail at the database. The title the schema
      stores was stripped of every Python space, so PostgreSQL's narrower trim has
      nothing left to remove from it. */
  lemma AcceptedNotePassesChecks(r: RawNote, now: int)
    requires AcceptNote(r).Some?
    ensures RowChecks(Build(AcceptNote(r).value, now))
    ensures BTrim(AcceptNote(r).value.title) == AcceptNote(r).value.title
    ensures Strip(AcceptNote(r).value.title) == AcceptNote(r).value.title
  {
    var t := Strip(r.title);
    var i, j := TrimSpec(IsSpace, r.title);
    assert t[0] == r.title[i] && t[|t| - 1] == r.title[j - 1];
    TrimNoop(IsSpace, t);
    TrimNoop(c => c == ' ', t);
  }

  lemma AcceptedEnvelopePassesChecks(source: string, rs: seq<RawNote>, now: int)
    requires AcceptEnvelope(source, rs).Some?
    ensures RowsCheck(BuildAll(AcceptEnvelope(source, rs).value, now))
    ensures |source| <= 64
  {
    AcceptNotesEach(rs);
    forall i | 0 <= i < |rs| ensures RowChecks(Build(AcceptNotes(rs).value[i], now)) {
      AcceptedNotePassesChecks(rs[i], now);
    }
  }

  /** The schema refuses a title exactly when it is empty, too long or all white space. */
  lemma TitleRefusedIff(r: RawNote)
    requires AcceptNote(r.(title := "x")).Some?
    ensures AcceptNote(r).None? <==>
            r.title == "" || |r.title| > 200 || forall k :: 0 <= k < |r.title| ==> IsSpace(r.title[k])
  {
    var _, _ := TrimSpec(IsSpace, r.title);
  }

  /** Exactly which notifications the schema accepts. */
  lemma NoteAcceptedIff(r: RawNote)
    ensures AcceptNote(r).Some? <==>
            && TypeShape(r.kind) && |r.kind| <= 64
            && (r.channel.None? || r.channel.value in {"IN_APP", "EMAIL", "SMS", "PUSH"})
            && |r.title| <= 200 && |r.message| <= 2000
            && (exists k :: 0 <= k < |r.title| && !IsSpace(r.title[k]))
            && (exists k :: 0 <= k < |r.message| && !IsSpace(r.message[k]))
  {
    var _, _ := TrimSpec(IsSpace, r.title);
    var _, _ := TrimSpec(IsSpace, r.message);
  }

  /** And what an accepted one carries: its user and type, its channel or IN_APP, and the stretch of
      title and message between their first and last visible characters. */
  lemma AcceptedNoteIs(r: RawNote) returns (i: nat, j: nat, k: nat, l: nat)
    requires AcceptNote(r).Some?
    ensures i < j <= |r.title| && !IsSpace(r.title[i]) && !IsSpace(r.title[j - 1])
    ensures forall x :: 0 <= x < i || j <= x < |r.title| ==> IsSpace(r.title[x])
    ensures k < l <= |r.message| && !IsSpace(r.message[k]) && !IsSpace(r.message[l - 1])
    ensures forall x :: 0 <= x < k || l <= x < |r.message| ==> IsSpace(r.message[x])
    ensures AcceptNote(r).value == Note(r.user, r.kind, if r.channel.Some? then r.channel.value else "IN_APP",
                                        r.title[i..j], r.message[k..l])
  {
    i, j := TrimSpec(IsSpace, r.title);
    k, l := TrimSpec(IsSpace, r.message);
  }

  /** A row as `_build` and `_deliver` leave it: in-app is sent now, anything else is pending. */
  predicate Stored(r: Row, n: Note, now: int) {
    && r.note == n
    && (n.channel == "IN_APP" ==> r.status == Sent && r.sentAt == Some(now))
    && (n.channel != "IN_APP" ==> r.status == Pending && r.sentAt == None)
  }

  /** What a run of the service keeps of it: in-app is sent or read with a time, anything else is
      pending without. */
  predicate Settled(r: Row) {
    if r.note.channel == "IN_APP" then (r.status == Sent || r.status == Read) && r.sentAt.Some?
    else r.status == Pending && r.sentAt == None
  }

  lemma BuildStores(n: Note, now: int)
    ensures Stored(Build(n, now), n, now) && Settled(Build(n, now))
  {
  }

  // ---------------------------------------------------------------- transactions

  datatype Outcome = Applied | DuplicateEvent | OtherFailure

  /** What happens around the handler that it does not control. */
  datatype Fault = NoFault | FailsBeforeCommit | FailsAfterCommit

  datatype Disposition = Ack | DeadLetter

  datatype Handled = Handled(rows: seq<Row>, processed: map<Uuid, string>, disposition: Disposition)

  /** What becomes of one delivered message. */
  function HandleSpec(rows: seq<Row>, processed: map<Uuid, string>, m: Message, fault: Fault, now: int): Handled {
    if Accept(m).None? || fault == FailsBeforeCommit then Handled(rows, processed, DeadLetter)
    else if m.eventId in processed then Handled(rows, processed, Ack)
    else Handled(rows + BuildAll(Accept(m).value, now), processed[m.eventId := m.source],
                 if fault == FailsAfterCommit then DeadLetter else Ack)
  }

  class InboxStore {
    var rows: seq<Row>
    var processed: map<Uuid, string>

    ghost predicate Valid()
      reads this
    {
      RowsCheck(rows) && forall i :: 0 <= i < |rows| ==> Settled(rows[i])
    }

    constructor ()
      ensures Valid() && rows == [] && processed == map[]
    {
      rows, processed := [], map[];
    }

    /** `record_event`: the rows and the processed-event key in one transaction. Any
        constraint failure surfaces as DuplicateEvent, so what has to hold is that for an
        accepted envelope a constraint can fail in one way only. */
    method RecordEvent(m: Message, notes: seq<Note>, fault: Fault, now: int)
      returns (outcome: Outcome)
      requires Valid()
      requires Accept(m) == Some(notes)
      modifies this
      ensures Valid()
      ensures outcome == DuplicateEvent <==> m.eventId in old(processed) && fault != FailsBeforeCommit
      ensures outcome == Applied <==> m.eventId !in old(processed) && fault == NoFault
      ensures if m.eventId !in old(processed) && fault != FailsBeforeCommit
              then rows == old(rows) + BuildAll(notes, now) && processed == old(processed)[m.eventId := m.source]
              else rows == old(rows) && processed == old(processed)
      ensures m.eventId !in old(processed) && fault != FailsBeforeCommit ==>
                && |rows| == |old(rows)| + |notes| && rows[..|old(rows)|] == old(rows)
                && forall i :: 0 <= i < |notes| ==> Stored(rows[|old(rows)| + i], notes[i], now)
    {
      var built := BuildAll(notes, now);
      if fault == FailsBeforeCommit {
        return OtherFailure;
      }
      var integrityError := m.eventId in processed || !RowsCheck(built);
      AcceptedEnvelopePassesChecks(m.source, m.body.notes, now);
      if integrityError {
        return DuplicateEvent;
      }
      rows := rows + built;
      processed := processed[m.eventId := m.source];
      outcome := if fault == FailsAfterCommit then OtherFailure else Applied;
    }

    /** `Consumer._handle`. Nothing is requeued in place, and an acknowledged message is
        always one whose event has been applied. */
    method Handle(m: Message, fault: Fault, now: int) returns (d: Disposition)
      requires Valid()
      modifies this
      ensures Valid()
      ensures Handled(rows, processed, d) == HandleSpec(old(rows), old(processed), m, fault, now)
      ensures d == Ack ==> m.eventId in processed
      ensures Accept(m).None? ==> d == DeadLetter && rows == old(rows) && processed == old(processed)
      ensures Accept(m).Some? && fault == NoFault ==> d == Ack
      ensures processed == old(processed) ==> rows == old(rows)
      ensures processed != old(processed) ==>
                && m.eventId !in old(processed)
                && processed == old(processed)[m.eventId := m.source]
                && Accept(m).Some?
                && rows == old(rows) + BuildAll(Accept(m).value, now)
    {
      match Accept(m)
      case None =>
        d := DeadLetter;
      case Some(notes) =>
        var outcome := RecordEvent(m, notes, fault, now);
        d := if outcome == OtherFailure then DeadLetter else Ack;
    }

    /** `mark_read`: only the caller's own row, only from SENT, and a repeat changes
        nothing. The send time survives, so the status check still holds. */
    method MarkRead(id: nat, user: Uuid) returns (found: bool)
      requires Valid()
      modifies this`rows
      ensures Valid() && |rows| == |old(rows)|
      ensures found <==> id < |old(rows)| && old(rows)[id].note.user == user
      ensures forall k :: 0 <= k < |rows| ==>
                rows[k] == if found && k == id && old(rows)[k].status == Sent
                           then old(rows)[k].(status := Read) else old(rows)[k]
    {
      found := id < |rows| && rows[id].note.user == user;
      if found && rows[id].status == Sent {
        rows := rows[id := rows[id].(status := Read)];
      }
    }
  }
}
