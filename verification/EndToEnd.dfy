/** From the service that writes an event to the inbox of the user it is for. */
module EndToEnd {
  import opened Base
  import Inbox
  import Outbox
  import Relaying
  import Consuming
  import opened Delivery
  import Recovery
  import Demand
  import DemandTx
  import JoinedEvents
  import Admin
  import OfferService

  /** Everything has come to rest, and what is still dead-lettered is what the schema refuses. */
  ghost predicate Quiet(s: State) { Recovery.Settled(s) && Recovery.DeadRefused(s.c) }

  /** The row of event `e` is the one `r` that a service enqueued. */
  predicate Holds(s: State, e: Uuid, r: Outbox.Row) {
    e in s.p.rows && s.p.rows[e].source == r.source && s.p.rows[e].payload == r.payload
  }

  // ---------------------------------------------------------------- nothing is blocked

  /** The Go relays never raise, so nothing of theirs is ever blocked. */
  lemma RetiringNeverBlocked(s: State, e: Uuid)
    requires e in s.p.rows && Outbox.Retires(s.p.rows[e].source)
    ensures !Recovery.Blocked(s, e)
  {
  }

  /** Every row of the run was written by `Enqueue`, which writes lists of notifications. */
  ghost predicate EnqueuedOnly(steps: seq<Step>) {
    forall k :: 0 <= k < |steps| && steps[k].Produce? && steps[k].ps.Enqueue? ==> steps[k].ps.row.payload.Decodable?
  }

  ghost predicate AllDecodable(s: State) { forall e :: e in s.p.rows ==> s.p.rows[e].payload.Decodable? }

  lemma {:induction false} EnqueuedStaysDecodable(s: State, steps: seq<Step>)
    requires Inv(s) && AllDecodable(s) && Legal(s, steps) && EnqueuedOnly(steps)
    ensures AllDecodable(Exec(s, steps))
    decreases |steps|
  {
    if steps != [] {
      var t := steps[0];
      InvStep(s, t);
      if t.Produce? { DecodableStep(s.p, t.ps); }
      assert forall k :: 0 <= k < |steps| - 1 ==> steps[1..][k] == steps[k + 1];
      EnqueuedStaysDecodable(Apply(s, t), steps[1..]);
    }
  }

  lemma DecodableStep(p: Relaying.State, ps: Relaying.Step)
    requires Relaying.Inv(p) && Relaying.Enabled(p, ps) && (ps.Enqueue? ==> ps.row.payload.Decodable?)
    requires forall e :: e in p.rows ==> p.rows[e].payload.Decodable?
    ensures forall e :: e in Relaying.Apply(p, ps).rows ==> Relaying.Apply(p, ps).rows[e].payload.Decodable?
  {
    Relaying.RowsPersist(p, ps);
    if ps.CommitDrain? {
      assert Relaying.DrainOk(p.rows, p.drains[ps.replica]);
    }
  }

  /** So no row of any producer is ever blocked in a run whose rows all come from `Enqueue`. */
  lemma EnqueuedNeverBlocked(past: seq<Step>, e: Uuid)
    requires Legal(INIT, past) && EnqueuedOnly(past)
    ensures !Recovery.Blocked(Exec(INIT, past), e)
  {
    InvInit();
    EnqueuedStaysDecodable(INIT, past);
  }

  // ---------------------------------------------------------------- an event reaches its users

  /** In a quiet state an event that is not blocked and that the schema accepts is in the inbox:
      its notifications, once, in order. */
  lemma EventArrives(past: seq<Step>, e: Uuid, notes: seq<Inbox.RawNote>)
    requires Legal(INIT, past) && Quiet(Exec(INIT, past))
    requires var s := Exec(INIT, past);
             && e in s.p.rows && !Recovery.Blocked(s, e) && s.p.rows[e].payload == Outbox.Decodable(notes)
             && Inbox.AcceptEnvelope(s.p.rows[e].source, notes).Some?
    ensures var s := Exec(INIT, past);
            && s.p.rows[e].published && e in s.c.processed
            && Some(Consuming.NotesFrom(s.c.inbox, e)) == Inbox.AcceptEnvelope(s.p.rows[e].source, notes)
  {
    InvInit();
    InvRun(INIT, past);
    var s := Exec(INIT, past);
    Recovery.SettledAtRest(s, e);
    assert Relaying.Carries(s.p.rows[e]);
    Recovery.RestDelivered(s, e);
    var _ := ExactlyOnce(past, e);
  }

  /** Accepted notes keep their addressees. */
  lemma SameUsers(source: string, notes: seq<Inbox.RawNote>)
    requires Inbox.AcceptEnvelope(source, notes).Some?
    ensures var accepted := Inbox.AcceptEnvelope(source, notes).value;
            && |accepted| == |notes|
            && forall i :: 0 <= i < |notes| ==> accepted[i].user == notes[i].user && accepted[i].kind == notes[i].kind
  {
    Inbox.AcceptNotesEach(notes);
  }

  /** Exactly one notification of the event, of this kind and to this user. */
  predicate ToldOnce(s: State, e: Uuid, user: Uuid, kind: string) {
    var notes := Consuming.NotesFrom(s.c.inbox, e);
    |notes| == 1 && notes[0].user == user && notes[0].kind == kind
  }

  /** request-service, end to end. Over any interleaving of its operations and any run of the
      notification path that carries its outbox: the events are those of the committed creates and
      joins, at the positions `at` of the log and in their order, and once everything is at rest
      the user who made each of them has exactly one notification of it. */
  lemma ArrivalsAreTold(n: Demand.Names, ops: seq<DemandTx.Step>, past: seq<Step>, ids: seq<Uuid>)
    returns (at: seq<nat>)
    requires DemandTx.Legal(n, DemandTx.INIT, ops) && Legal(INIT, past) && Quiet(Exec(INIT, past))
    requires JoinedEvents.ShortLog(DemandTx.Exec(n, DemandTx.INIT, ops).log)
    requires var s, outbox := Exec(INIT, past), DemandTx.Exec(n, DemandTx.INIT, ops).db.outbox;
             && |ids| == |outbox|
             && forall i :: 0 <= i < |ids| && JoinedEvents.Printable(outbox[i]) ==>
                  Holds(s, ids[i], RowOf(ids[i], outbox[i]))
    ensures DemandTx.ArrivalsAt(DemandTx.Exec(n, DemandTx.INIT, ops).log, at) && |at| == |ids|
    ensures var s, log := Exec(INIT, past), DemandTx.Exec(n, DemandTx.INIT, ops).log;
            forall i :: 0 <= i < |at| ==>
              && at[i] < |log| && DemandTx.IsArrival(log[at[i]])
              && ToldOnce(s, ids[i], log[at[i]].op.user, "REQUEST_JOINED")
  {
    at := DemandTx.OneEventPerArrival(n, ops);
    var s, d := Exec(INIT, past), DemandTx.Exec(n, DemandTx.INIT, ops);
    forall i | 0 <= i < |at|
      ensures at[i] < |d.log| && DemandTx.IsArrival(d.log[at[i]])
      ensures ToldOnce(s, ids[i], d.log[at[i]].op.user, "REQUEST_JOINED")
    {
      assert DemandTx.EventOf(n, d.log, at[i], d.db.outbox[i]);
      JoinedEvents.JoinsReachTheInbox(n, ops, i);
      var notes := [JoinedEvents.NoteOf(d.db.outbox[i])];
      assert Holds(s, ids[i], RowOf(ids[i], d.db.outbox[i]));
      RetiringNeverBlocked(s, ids[i]);
      EventArrives(past, ids[i], notes);
      SameUsers(JoinedEvents.SOURCE, notes);
    }
  }

  /** A REQUEST_JOINED event as its outbox row. */
  function RowOf(id: Uuid, j: Demand.Joined): Outbox.Row
    requires JoinedEvents.Printable(j)
  {
    Outbox.Row(id, JoinedEvents.SOURCE, "request.joined", Outbox.Decodable([JoinedEvents.NoteOf(j)]), false, 0, None)
  }

  /** admin-service, end to end: the seller has exactly one notification of each event the
      decision wrote. */
  lemma SellerIsTold(past: seq<Step>, user: Uuid, approve: bool, reason: string, granted: nat, first: Uuid,
                     second: Uuid)
    requires Legal(INIT, past) && Quiet(Exec(INIT, past)) && user != NIL_UUID
    requires |reason| <= 1000 && granted <= 0x7FFF_FFFF_FFFF_FFFF
    requires var rows := Admin.EnqueueDecision([], Some(user), approve, reason, granted, first, second);
             forall i :: 0 <= i < |rows| ==> Holds(Exec(INIT, past), rows[i].id, rows[i])
    ensures ToldOnce(Exec(INIT, past), first, user, if approve then "OFFER_APPROVED" else "OFFER_REJECTED")
    ensures approve && granted > 0 ==> ToldOnce(Exec(INIT, past), second, user, "CONTACT_ACCESS_GRANTED")
  {
    var rows := Admin.EnqueueDecision([], Some(user), approve, reason, granted, first, second);
    Admin.DecisionEvents([], Some(user), approve, reason, granted, first, second);
    RowArrives(past, rows[0], user, if approve then "OFFER_APPROVED" else "OFFER_REJECTED");
    if approve && granted > 0 {
      RowArrives(past, rows[1], user, "CONTACT_ACCESS_GRANTED");
    }
  }

  lemma RowArrives(past: seq<Step>, r: Outbox.Row, user: Uuid, kind: string)
    requires Legal(INIT, past) && Quiet(Exec(INIT, past)) && Holds(Exec(INIT, past), r.id, r)
    requires Admin.TellsSeller(r, r.id, user, kind) && Admin.Deliverable(r) && Outbox.Retires(r.source)
    ensures ToldOnce(Exec(INIT, past), r.id, user, kind)
  {
    RetiringNeverBlocked(Exec(INIT, past), r.id);
    EventArrives(past, r.id, r.payload.notes);
    SameUsers(r.source, r.payload.notes);
  }

  /** offer-service, end to end: each of up to 500 admins has exactly one notification of a new
      offer. Its relay can raise, so this needs that every row came from `Enqueue`. */
  lemma AdminsAreTold(past: seq<Step>, e: Uuid, admins: seq<Uuid>, text: string)
    requires Legal(INIT, past) && EnqueuedOnly(past) && Quiet(Exec(INIT, past)) && e in Exec(INIT, past).p.rows
    requires 1 <= |admins| <= Inbox.MAX_BULK && 1 <= |text| <= 2000 && !Inbox.IsSpace(text[0])
    requires var row := Exec(INIT, past).p.rows[e];
             && row.source == OfferService.SOURCE
             && row.payload == Outbox.Decodable(OfferService.Announcement(admins, text))
    ensures var notes := Consuming.NotesFrom(Exec(INIT, past).c.inbox, e);
            |notes| == |admins| && forall i :: 0 <= i < |admins| ==> notes[i].user == admins[i]
  {
    OfferService.AnnouncementDeliverableIff(admins, text);
    EnqueuedNeverBlocked(past, e);
    EventArrives(past, e, OfferService.Announcement(admins, text));
    SameUsers(OfferService.SOURCE, OfferService.Announcement(admins, text));
  }
}
