/** The REQUEST_JOINED events of request-service: that the inbox takes every one of them. */
module JoinedEvents {
  import opened Base
  import opened Text
  import Inbox
  import opened Demand
  import DemandTx

  const SOURCE := "request-service"

  const OPENED_TITLE := "Your request is open"
  const JOINED_TITLE := "You joined a request"

  /** The notification of a create or a join. */
  function NoteOf(j: Joined): Inbox.RawNote
    requires Printable(j)
  {
    Inbox.RawNote(j.user, "REQUEST_JOINED", None, if j.opens then OPENED_TITLE else JOINED_TITLE,
                  if j.opens then OpenedMessage(j) else JoinedMessage(j))
  }

  function OpenedMessage(j: Joined): string
    requires Printable(j)
  {
    "Your request for " + j.itemName + " is open. You are its first participant, wanting " + Decimal(j.quantity) + "."
  }

  function JoinedMessage(j: Joined): string
    requires Printable(j)
  {
    "You joined the request for " + j.itemName + ", wanting " + Decimal(j.quantity) + ". It now has "
    + Decimal(j.customers) + " customers wanting " + Decimal(j.total) + " in total."
  }

  predicate Printable(j: Joined) {
    0 <= j.quantity && 0 <= j.customers <= 0x7FFF_FFFF_FFFF_FFFF && 0 <= j.total <= 0x7FFF_FFFF_FFFF_FFFF
  }

  lemma NumbersShort(j: Joined)
    requires Printable(j)
    ensures |Decimal(j.quantity)| <= 19 && |Decimal(j.customers)| <= 19 && |Decimal(j.total)| <= 19
  {
    Pow10Of19();
    DecimalLength(j.quantity, 19, 10_000_000_000_000_000_000);
    DecimalLength(j.customers, 19, 10_000_000_000_000_000_000);
    DecimalLength(j.total, 19, 10_000_000_000_000_000_000);
  }

  lemma Titles()
    ensures |OPENED_TITLE| == 20 && OPENED_TITLE[0] == 'Y'
    ensures |JOINED_TITLE| == 20 && JOINED_TITLE[0] == 'Y'
    ensures Inbox.TypeShape("REQUEST_JOINED")
  {
  }

  /** With a name the handlers let through, at most 200 long, the inbox takes the event. */
  lemma JoinedDeliverable(j: Joined)
    requires Printable(j) && |j.itemName| <= 200
    ensures Inbox.AcceptEnvelope(SOURCE, [NoteOf(j)]).Some?
    ensures NoteOf(j).user == j.user && NoteOf(j).kind == "REQUEST_JOINED" && NoteOf(j).channel == None
  {
    NumbersShort(j);
    Titles();
    var n := NoteOf(j);
    assert n.message[|n.message| - 1] == '.';
    Inbox.NoteTakenIff(SOURCE, n, 0, |n.message| - 1);
  }

  // ---------------------------------------------------------------- over all runs

  predicate ShortName(op: Op) { op.Create? || op.Ensure? ==> |op.itemName| <= 200 }

  ghost predicate NamesShort(db: Db) {
    && (forall id :: id in db.requests ==> |db.requests[id].itemName| <= 200)
    && (forall i :: 0 <= i < |db.outbox| ==> Printable(db.outbox[i]) && |db.outbox[i].itemName| <= 200)
  }

  /** What a commit adds to the outbox quotes the request as it stands. */
  lemma CommitKeepsNames(db: Db, w: Write)
    requires NamesShort(db) && |w.request.itemName| <= 200
    requires forall i :: 0 <= i < |w.joined| ==> Printable(w.joined[i]) && w.joined[i].itemName == w.request.itemName
    ensures NamesShort(Commit(db, w))
  {
  }

  lemma EventPrintable(op: Op, r: Request, ps: seq<Participant>)
    requires RequestOk(r, ps) && (op.Join? || op.Create? ==> 0 < op.quantity)
    ensures forall i :: 0 <= i < |JoinedEvent(op, r)| ==>
              Printable(JoinedEvent(op, r)[i]) && JoinedEvent(op, r)[i].itemName == r.itemName
  {
    TotalsFit(r, ps);
  }

  lemma SerialKeepsNames(n: Names, db: Db, op: Op, newId: Uuid)
    requires DbOk(n, db) && newId !in db.requests && NamesShort(db) && ShortName(op)
    ensures NamesShort(Serial(n, db, op, newId).db)
  {
    if OnRow(op) {
      if op.request in db.requests && Mutate(op, db.requests[op.request], db.participants[op.request]).Changed? {
        var c := Mutate(op, db.requests[op.request], db.participants[op.request]);
        var w := RowWrite(op, db.requests[op.request], c.participants, c.offers);
        if w.Some? {
          RowWriteOk(db, op);
          EventPrintable(op, w.value.request, w.value.participants);
          CommitKeepsNames(db, w.value);
        }
      }
    } else {
      FindSpec(n, db, op.itemName);
      if Find(n, db, op.itemName).None? && NewWrite(op, newId).Some? {
        var w := NewWrite(op, newId).value;
        assert Sum([]) == 0;
        EventPrintable(op, w.request, w.participants);
        CommitKeepsNames(db, w);
      }
    }
  }

  ghost predicate ShortLog(log: seq<DemandTx.Entry>) {
    forall i :: 0 <= i < |log| ==> ShortName(log[i].op)
  }

  lemma {:induction false} SerialRunKeepsNames(n: Names, log: seq<DemandTx.Entry>)
    requires DemandTx.RepliesOk(n, log) && ShortLog(log)
    ensures NamesShort(DemandTx.SerialRun(n, log))
  {
    if log != [] {
      var k := |log| - 1;
      DemandTx.RepliesOkPrefix(n, log, k);
      SerialRunKeepsNames(n, log[..k]);
      DemandTx.SerialRunOk(n, log, k);
      assert DemandTx.ReplyOk(n, log, k);
      SerialKeepsNames(n, DemandTx.SerialRun(n, log[..k]), log[k].op, log[k].newId);
    }
  }

  /** Over any interleaving of operations whose names passed the handlers, every REQUEST_JOINED
      event ever written is one the inbox takes: none of them can be dead-lettered as malformed. */
  lemma JoinsReachTheInbox(n: Names, steps: seq<DemandTx.Step>, i: nat)
    requires DemandTx.Legal(n, DemandTx.INIT, steps) && ShortLog(DemandTx.Exec(n, DemandTx.INIT, steps).log)
    requires i < |DemandTx.Exec(n, DemandTx.INIT, steps).db.outbox|
    ensures var j := DemandTx.Exec(n, DemandTx.INIT, steps).db.outbox[i];
            Printable(j) && Inbox.AcceptEnvelope(SOURCE, [NoteOf(j)]).Some?
  {
    DemandTx.InvRun(n, DemandTx.INIT, steps);
    var s := DemandTx.Exec(n, DemandTx.INIT, steps);
    SerialRunKeepsNames(n, s.log);
    JoinedDeliverable(s.db.outbox[i]);
  }
}
