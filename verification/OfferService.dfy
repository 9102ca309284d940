/** offer-service as it updates its tables, one call at a time: the handlers with their
    answers, the event a new offer writes, and the count each change reports. */
module OfferService {
  import opened Base
  import Inbox
  import Outbox
  import Offers

  const SOURCE := Outbox.OFFER_SERVICE
  const KEY_OFFER_CREATED := "offer.created"
  const TITLE := "An offer is waiting for review"

  datatype Answer = Ok | NotFound | NotOwner | NotPending | AlreadyMade(existing: Uuid)

  /** `report_offer_count`: the whole count, not a change to it. */
  datatype Report = Report(request: Uuid, count: nat)

  /** One NEW_OFFER per admin, all in one event. */
  function Announcement(admins: seq<Uuid>, text: string): (notes: seq<Inbox.RawNote>)
    ensures |notes| == |admins|
    ensures forall i :: 0 <= i < |admins| ==> notes[i] == Inbox.RawNote(admins[i], "NEW_OFFER", None, TITLE, text)
  {
    seq(|admins|, i requires 0 <= i < |admins| => Inbox.RawNote(admins[i], "NEW_OFFER", None, TITLE, text))
  }

  /** What keeps the owner's call from an offer, if anything does. */
  function Obstacle(t: Offers.Table, o: Uuid, seller: Uuid): Answer {
    if o !in t then NotFound
    else if t[o].seller != seller then NotOwner
    else if t[o].status != Offers.Pending then NotPending
    else Ok
  }

  class OfferDesk {
    var table: Offers.Table
    var outbox: seq<Outbox.Row>
    var reports: seq<Report>

    constructor ()
      ensures table == map[] && outbox == [] && reports == [] && Valid()
    {
      table, outbox, reports := map[], [], [];
    }

    ghost predicate Valid()
      reads this
    {
      Offers.OneLive(table)
    }

    /** The offer and the promise to announce it are written together or not at all. */
    method CreateOffer(id: Uuid, seller: Uuid, request: Uuid, terms: Offers.Terms, picture: Option<Offers.Picture>,
                       admins: seq<Uuid>, text: string, eventId: Uuid) returns (a: Answer)
      requires Valid() && id !in table
      modifies this`table, this`outbox
      ensures Valid()
      ensures a == Ok || a.AlreadyMade?
      ensures a.AlreadyMade? ==>
                && a.existing in old(table) && old(table)[a.existing].seller == seller
                && old(table)[a.existing].request == request && Offers.Live(old(table)[a.existing].status)
      ensures Offers.Atomically(old(table), Offers.Create(id, seller, request, terms, picture))
              == if a == Ok then Some(table) else None
      ensures a == Ok ==>
                && id in table && table - {id} == old(table)
                && table[id].seller == seller && table[id].request == request && table[id].terms == terms
                && table[id].picture == picture && table[id].status == Offers.Pending
      ensures a == Ok && admins == [] ==> outbox == old(outbox)
      ensures a == Ok && admins != [] ==>
                && |outbox| == |old(outbox)| + 1 && outbox[..|old(outbox)|] == old(outbox)
                && var r := outbox[|old(outbox)|];
                && r.id == eventId && r.source == "offer-service" && r.key == "offer.created" && !r.published
                && r.payload.Decodable? && |r.payload.notes| == |admins|
                && forall i :: 0 <= i < |admins| ==>
                     && r.payload.notes[i].user == admins[i] && r.payload.notes[i].kind == "NEW_OFFER"
                     && r.payload.notes[i].title == "An offer is waiting for review"
                     && r.payload.notes[i].message == text && r.payload.notes[i].channel == None
      ensures a == Ok <==> !(exists o :: o in old(table) && old(table)[o].seller == seller
                                         && old(table)[o].request == request
                                         && (old(table)[o].status == Offers.Pending
                                             || old(table)[o].status == Offers.Approved))
      ensures a != Ok ==> table == old(table) && outbox == old(outbox)
      ensures a == Ok ==> outbox == Outbox.Enqueue(old(outbox), eventId, SOURCE, KEY_OFFER_CREATED,
                Announcement(admins, text))
    {
      ghost var task := Offers.Create(id, seller, request, terms, picture);
      if Offers.HasLive(table, seller, request) {
        var o :| o in table && table[o].seller == seller && table[o].request == request && Offers.Live(table[o].status);
        return AlreadyMade(o);
      }
      Offers.AtomicHandler(table, task);
      table := table[id := Offers.Offer(seller, request, terms, picture, Offers.Pending)];
      outbox := Outbox.Enqueue(outbox, eventId, SOURCE, KEY_OFFER_CREATED, Announcement(admins, text));
      a := Ok;
    }

    /** New terms for an offer nobody has decided; without a new picture the old one stays. */
    method UpdateOffer(o: Uuid, seller: Uuid, terms: Offers.Terms, picture: Option<Offers.Picture>) returns (a: Answer)
      requires Valid()
      modifies this`table
      ensures Valid()
      ensures a == NotFound <==> o !in old(table)
      ensures a == NotOwner <==> o in old(table) && old(table)[o].seller != seller
      ensures a == NotPending <==>
                o in old(table) && old(table)[o].seller == seller && old(table)[o].status != Offers.Pending
      ensures Offers.Atomically(old(table), Offers.Update(o, seller, terms, picture))
              == if a == Ok then Some(table) else None
      ensures a == NotFound || a == NotOwner || a == NotPending || a == Ok
      ensures a == Ok ==>
                && o in table && table[o].terms == terms
                && table[o].picture == (if picture.Some? then picture else old(table)[o].picture)
                && table[o].seller == old(table)[o].seller && table[o].request == old(table)[o].request
                && table[o].status == Offers.Pending && table - {o} == old(table) - {o}
      ensures a != Ok ==> table == old(table)
    {
      a := Obstacle(table, o, seller);
      if a == Ok {
        Offers.AtomicHandler(table, Offers.Update(o, seller, terms, picture));
        var offer := table[o].(terms := terms);
        if picture.Some? {
          offer := offer.(picture := picture);
        }
        table := table[o := offer];
      }
    }

    method CancelOffer(o: Uuid, seller: Uuid) returns (a: Answer)
      requires Valid()
      modifies this`table
      ensures Valid()
      ensures a == NotFound <==> o !in old(table)
      ensures a == NotOwner <==> o in old(table) && old(table)[o].seller != seller
      ensures a == NotPending <==>
                o in old(table) && old(table)[o].seller == seller && old(table)[o].status != Offers.Pending
      ensures Offers.Atomically(old(table), Offers.Cancel(o, seller)) == if a == Ok then Some(table) else None
      ensures a == NotFound || a == NotOwner || a == NotPending || a == Ok
      ensures a == Ok ==>
                && o in table && table - {o} == old(table) - {o}
                && table[o] == old(table)[o].(status := Offers.Cancelled)
      ensures a != Ok ==> table == old(table)
    {
      a := Obstacle(table, o, seller);
      if a == Ok {
        Offers.AtomicHandler(table, Offers.Cancel(o, seller));
        table := table[o := table[o].(status := Offers.Cancelled)];
      }
    }

    method SetStatus(o: Uuid, approve: bool) returns (a: Answer)
      requires Valid()
      modifies this`table
      ensures Valid()
      ensures a == NotFound <==> o !in old(table)
      ensures a == NotPending <==> o in old(table) && old(table)[o].status != Offers.Pending
      ensures a == NotFound || a == NotPending || a == Ok
      ensures Offers.Atomically(old(table), Offers.Decide(o, approve)) == if a == Ok then Some(table) else None
      ensures a == Ok ==>
                && o in table && table - {o} == old(table) - {o}
                && table[o] == old(table)[o].(status := if approve then Offers.Approved else Offers.Rejected)
      ensures a != Ok ==> table == old(table)
    {
      if o !in table {
        return NotFound;
      }
      if table[o].status != Offers.Pending {
        return NotPending;
      }
      Offers.AtomicHandler(table, Offers.Decide(o, approve));
      table := table[o := table[o].(status := if approve then Offers.Approved else Offers.Rejected)];
      a := Ok;
    }

    // The routes: change, then count, then report. A refusal reports nothing.

    method SubmitRoute(id: Uuid, seller: Uuid, request: Uuid, terms: Offers.Terms, picture: Option<Offers.Picture>,
                       admins: seq<Uuid>, text: string, eventId: Uuid) returns (a: Answer)
      requires Valid() && id !in table
      modifies this
      ensures Valid()
      ensures a == Ok <==> !Offers.HasLive(old(table), seller, request)
      ensures reports == old(reports)
                + if a == Ok then [Report(request, Offers.CountLive(old(table), request) + 1)] else []
    {
      a := CreateOffer(id, seller, request, terms, picture, admins, text, eventId);
      if a == Ok {
        Offers.CountAfter(old(table), Offers.Create(id, seller, request, terms, picture), request);
        reports := reports + [Report(request, Offers.CountLive(table, request))];
      }
    }

    method CancelRoute(o: Uuid, seller: Uuid) returns (a: Answer)
      requires Valid()
      modifies this`table, this`reports
      ensures Valid()
      ensures a == Ok <==> o in old(table) && old(table)[o].seller == seller && old(table)[o].status == Offers.Pending
      ensures a != Ok ==> reports == old(reports)
      ensures a == Ok ==>
                var request := old(table)[o].request;
                && reports == old(reports) + [Report(request, Offers.CountLive(table, request))]
                && Offers.CountLive(table, request) + 1 == Offers.CountLive(old(table), request)
    {
      a := CancelOffer(o, seller);
      if a == Ok {
        Offers.CountAfter(old(table), Offers.Cancel(o, seller), table[o].request);
        reports := reports + [Report(table[o].request, Offers.CountLive(table, table[o].request))];
      }
    }

    /** An approval reports the count it found, a rejection one less. */
    method StatusRoute(o: Uuid, approve: bool) returns (a: Answer)
      requires Valid()
      modifies this`table, this`reports
      ensures Valid()
      ensures a == Ok <==> o in old(table) && old(table)[o].status == Offers.Pending
      ensures a != Ok ==> reports == old(reports)
      ensures a == Ok ==>
                var request := old(table)[o].request;
                && reports == old(reports) + [Report(request, Offers.CountLive(table, request))]
                && Offers.CountLive(table, request) + (if approve then 0 else 1) ==
                     Offers.CountLive(old(table), request)
    {
      a := SetStatus(o, approve);
      if a == Ok {
        Offers.CountAfter(old(table), Offers.Decide(o, approve), table[o].request);
        reports := reports + [Report(table[o].request, Offers.CountLive(table, table[o].request))];
      }
    }
  }

  /** When the inbox takes the announcement: with a message of proper length, exactly when
      there is an admin to tell and no more of them than one envelope carries. Past that the
      event is dead-lettered and no admin hears of the offer. */
  lemma AnnouncementDeliverableIff(admins: seq<Uuid>, text: string)
    requires 1 <= |text| <= 2000 && !Inbox.IsSpace(text[0])
    ensures Inbox.AcceptEnvelope(SOURCE, Announcement(admins, text)).Some? <==> 1 <= |admins| <= 500
  {
    AnnouncementsAccepted(admins, text);
  }

  lemma {:induction false} AnnouncementsAccepted(admins: seq<Uuid>, text: string)
    requires 1 <= |text| <= 2000 && !Inbox.IsSpace(text[0])
    ensures Inbox.AcceptNotes(Announcement(admins, text)).Some?
  {
    if admins != [] {
      AnnouncementsAccepted(admins[1..], text);
      var notes := Announcement(admins, text);
      assert notes[1..] == Announcement(admins[1..], text);
      AnnouncementAccepted(notes[0]);
    }
  }

  lemma AnnouncementAccepted(n: Inbox.RawNote)
    requires n.kind == "NEW_OFFER" && n.channel == None && n.title == TITLE
    requires 1 <= |n.message| <= 2000 && !Inbox.IsSpace(n.message[0])
    ensures Inbox.AcceptNote(n).Some?
  {
    var _, _ := Inbox.TrimSpec(Inbox.IsSpace, n.title);
    var _, _ := Inbox.TrimSpec(Inbox.IsSpace, n.message);
    assert n.title[0] == 'A' && Inbox.TypeShape(n.kind);
  }
}
