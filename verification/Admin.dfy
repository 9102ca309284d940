/** admin-service as it updates its own tables, one call at a time: deciding, revoking, and
    the two contact lookups. What other services answer is a parameter. */
module Admin {
  import opened Base
  import Inbox
  import opened Text
  import Outbox
  import Offers
  import Contact
  import ContactRuns

  const SOURCE := "admin-service"

  datatype Reply<T> = Missing | Unavailable | Got(value: T)

  datatype OfferView = OfferView(seller: Uuid, request: Uuid, status: Offers.Status)

  datatype PatchReply = Accepted | Conflict | NoSuchOffer | NoReply

  /** What the outside answers during one `Decide`: the offer, the seller's user, the
      participants of the request, the PATCH, and whether the final commit succeeds. */
  datatype World = World(offer: Reply<OfferView>, sellerUser: Option<Uuid>, customers: Reply<seq<Uuid>>,
                         patch: PatchReply, commits: bool)

  datatype Outcome = Recorded(granted: nat) | OfferNotFound | OfferNotPending | RequestGone
                   | RequestNoBuyers | AlreadyDecided | Failed

  // ---------------------------------------------------------------- the events of a decision

  const APPROVED_TITLE := "Your offer was approved"
  const REJECTED_TITLE := "Your offer was not approved"
  const APPROVED_MESSAGE := "An admin approved your offer."
  const REJECTED_MESSAGE := "An admin reviewed your offer and did not approve it."

  function VerdictNote(user: Uuid, approve: bool, reason: string): Inbox.RawNote {
    var message := if approve then APPROVED_MESSAGE else REJECTED_MESSAGE;
    Inbox.RawNote(user, if approve then "OFFER_APPROVED" else "OFFER_REJECTED", None,
                  if approve then APPROVED_TITLE else REJECTED_TITLE,
                  if reason == "" then message else message + " Reason: " + reason)
  }

  function AccessNote(user: Uuid, granted: nat): Inbox.RawNote {
    Inbox.RawNote(user, "CONTACT_ACCESS_GRANTED", None, "You can now contact the customers",
                  "You have been granted contact access to " + Decimal(granted) + " customer(s) on this request.")
  }

  /** `enqueueDecisionEvents`; nothing when the seller's user is not known. */
  function EnqueueDecision(rows: seq<Outbox.Row>, user: Option<Uuid>, approve: bool, reason: string,
                           granted: nat, first: Uuid, second: Uuid): seq<Outbox.Row>
  {
    if user.None? || user.value == NIL_UUID then rows
    else
      var told := Outbox.Enqueue(rows, first, SOURCE, if approve then "offer.approved" else "offer.rejected",
                                 [VerdictNote(user.value, approve, reason)]);
      if !approve || granted == 0 then told
      else Outbox.Enqueue(told, second, SOURCE, "contact.access.granted", [AccessNote(user.value, granted)])
  }

  /** Exactly the decisions whose event the inbox takes: with a reason so long that the
      message passes 2000 characters the consumer would dead-letter it. The handler refuses
      reasons over 1000, so none does. */
  lemma VerdictDeliverableIff(user: Uuid, approve: bool, reason: string)
    ensures Inbox.AcceptEnvelope(SOURCE, [VerdictNote(user, approve, reason)]).Some?
            <==> |reason| <= if approve then 1962 else 1939
  {
    var n := VerdictNote(user, approve, reason);
    if approve {
      ApprovedText();
      assert n.message[28] == APPROVED_MESSAGE[28];
      Inbox.NoteTakenIff(SOURCE, n, 0, 28);
    } else {
      RejectedText();
      assert n.message[51] == REJECTED_MESSAGE[51];
      Inbox.NoteTakenIff(SOURCE, n, 0, 51);
    }
  }

  lemma ApprovedText()
    ensures |APPROVED_MESSAGE| == 29 && APPROVED_MESSAGE[28] == '.'
    ensures |APPROVED_TITLE| == 23 && APPROVED_TITLE[0] == 'Y'
    ensures Inbox.TypeShape("OFFER_APPROVED")
  {
  }

  lemma RejectedText()
    ensures |REJECTED_MESSAGE| == 52 && REJECTED_MESSAGE[51] == '.'
    ensures |REJECTED_TITLE| == 27 && REJECTED_TITLE[0] == 'Y'
    ensures Inbox.TypeShape("OFFER_REJECTED")
  {
  }

  lemma AccessNoteDeliverable(user: Uuid, granted: nat)
    requires granted <= 0x7FFF_FFFF_FFFF_FFFF
    ensures Inbox.AcceptEnvelope(SOURCE, [AccessNote(user, granted)]).Some?
  {
    var n := AccessNote(user, granted);
    Pow10Of19();
    DecimalLength(granted, 19, 10_000_000_000_000_000_000);
    assert n.message[|n.message| - 1] == '.';
    assert n.title[|n.title| - 1] == 's';
    Inbox.NoteTakenIff(SOURCE, n, |n.title| - 1, |n.message| - 1);
  }

  /** A row the decision adds: pending, one notification, addressed to the seller's user. */
  predicate TellsSeller(r: Outbox.Row, id: Uuid, user: Uuid, kind: string) {
    && r.id == id && r.source == SOURCE && !r.published && r.attempts == 0 && r.lastError == None
    && r.payload.Decodable? && |r.payload.notes| == 1
    && r.payload.notes[0].user == user && r.payload.notes[0].kind == kind
  }

  predicate Deliverable(r: Outbox.Row) {
    r.payload.Decodable? && Inbox.AcceptEnvelope(r.source, r.payload.notes).Some?
  }

  /** A decision adds nothing when the seller's user is not known, one event for a rejection,
      and two for an approval that granted something; with a reason the handler lets through,
      the inbox takes every one of them. */
  lemma DecisionEvents(rows: seq<Outbox.Row>, user: Option<Uuid>, approve: bool, reason: string, granted: nat,
                       first: Uuid, second: Uuid)
    requires |reason| <= 1000 && granted <= 0x7FFF_FFFF_FFFF_FFFF
    ensures var after := EnqueueDecision(rows, user, approve, reason, granted, first, second);
            var n := if user.None? || user.value == NIL_UUID then 0 else if approve && granted > 0 then 2 else 1;
            && |after| == |rows| + n && (forall i :: 0 <= i < |rows| ==> after[i] == rows[i])
            && (n > 0 ==> TellsSeller(after[|rows|], first, user.value,
                                      if approve then "OFFER_APPROVED" else "OFFER_REJECTED")
                          && Deliverable(after[|rows|]))
            && (n > 0 ==>
                  && after[|rows|].key == (if approve then "offer.approved" else "offer.rejected")
                  && after[|rows|].payload.notes == [VerdictNote(user.value, approve, reason)])
            && (n > 1 ==>
                  && after[|rows| + 1].key == "contact.access.granted"
                  && after[|rows| + 1].payload.notes == [AccessNote(user.value, granted)])
            && (n > 1 ==> TellsSeller(after[|rows| + 1], second, user.value, "CONTACT_ACCESS_GRANTED")
                          && Deliverable(after[|rows| + 1]))
  {
    if user.Some? {
      VerdictDeliverableIff(user.value, approve, reason);
      AccessNoteDeliverable(user.value, granted);
    }
  }

  /** What the seller reads. */
  lemma VerdictSays(user: Uuid, approve: bool, reason: string)
    ensures var note := VerdictNote(user, approve, reason);
            && note.user == user && note.channel == None
            && note.kind == (if approve then "OFFER_APPROVED" else "OFFER_REJECTED")
            && note.title == (if approve then "Your offer was approved" else "Your offer was not approved")
            && note.message == (if approve then "An admin approved your offer."
                                else "An admin reviewed your offer and did not approve it.")
                               + if reason == "" then "" else " Reason: " + reason
  {
    var body := if approve then APPROVED_MESSAGE else REJECTED_MESSAGE;
    assert body + "" == body && body + " Reason: " + reason == body + (" Reason: " + reason);
  }

  lemma AccessSays(user: Uuid, granted: nat)
    ensures var note := AccessNote(user, granted);
            && note.user == user && note.kind == "CONTACT_ACCESS_GRANTED" && note.channel == None
            && note.message == "You have been granted contact access to " + Decimal(granted)
                               + " customer(s) on this request."
  {
  }

  // ---------------------------------------------------------------- what a decision needs

  predicate IsPending(w: World) { w.offer.Got? && w.offer.value.status == Offers.Pending }

  predicate ReadsOk(w: World, approve: bool) {
    IsPending(w) && (approve ==> w.customers.Got? && w.customers.value != [])
  }

  predicate HasDecision(decisions: seq<Contact.Decision>, o: Uuid) {
    exists i :: 0 <= i < |decisions| && decisions[i].offer == o
  }

  function CustomersRead(w: World, approve: bool): seq<Uuid> {
    if approve && w.customers.Got? then w.customers.value else []
  }

  function CallOf(w: World, o: Uuid, approve: bool): Contact.Call
    requires w.offer.Got?
  {
    Contact.Call(o, approve, w.offer.value.seller, w.offer.value.request, CustomersRead(w, approve), Contact.Committed)
  }

  ghost predicate Writable(decisions: seq<Contact.Decision>, access: seq<Contact.Access>, o: Uuid, approve: bool,
      w: World) {
    ReadsOk(w, approve) && !HasDecision(decisions, o) && ContactRuns.Grantable(access, o, CustomersRead(w, approve))
  }

  datatype Person = Person(user: Uuid, firstName: string, lastName: string)

  datatype Card = Card(customer: Uuid, firstName: string, lastName: string, phone: string)

  datatype Lookup = NoAccess | LookupFailed | Shown(cards: seq<Card>)

  datatype RevokeOutcome = Done | NotFound | AlreadyRevoked

  class AdminService {
    var decisions: seq<Contact.Decision>
    var access: seq<Contact.Access>
    var outbox: seq<Outbox.Row>

    constructor ()
      ensures decisions == [] && access == [] && outbox == []
    {
      decisions, access, outbox := [], [], [];
    }

    /** Either everything is written - one decision, one grant per customer read, the events -
        or nothing is, and the answer says which condition failed. `caller` names the call,
        `first` and `second` are the ids of the events it may write. */
    method Decide(o: Uuid, approve: bool, reason: string, w: World, caller: nat, first: Uuid, second: Uuid)
      returns (r: Outcome)
      modifies this
      ensures r.Recorded? <==> Writable(old(decisions), old(access), o, approve, w) && w.patch.Accepted? && w.commits
      ensures r.Recorded? ==>
                && r.granted == |CustomersRead(w, approve)|
                && decisions == old(decisions) + [Contact.DecisionOf(CallOf(w, o, approve), caller)]
                && access == old(access) + Contact.Grants(CallOf(w, o, approve))
                && outbox == EnqueueDecision(old(outbox), w.sellerUser, approve, reason, r.granted, first, second)
      ensures r.Recorded? ==>
                && w.offer.Got? && (approve ==> w.customers.Got?)
                && var customers := if approve then w.customers.value else [];
                && r.granted == |customers| && (approve ==> customers != [])
                && |decisions| == |old(decisions)| + 1 && decisions[..|old(decisions)|] == old(decisions)
                && decisions[|old(decisions)|] == Contact.Decision(o, approve, customers, caller)
                && |access| == |old(access)| + |customers| && access[..|old(access)|] == old(access)
                && forall i :: 0 <= i < |customers| ==>
                     access[|old(access)| + i] ==
                     Contact.Access(w.offer.value.seller, customers[i], w.offer.value.request, o, Contact.Granted, None)
      ensures !r.Recorded? ==> decisions == old(decisions) && access == old(access) && outbox == old(outbox)
      ensures r == OfferNotFound <==>
                w.offer.Missing? || (Writable(old(decisions), old(access), o, approve, w) && w.patch.NoSuchOffer?)
      ensures r == OfferNotPending <==> w.offer.Got? && w.offer.value.status != Offers.Pending
      ensures r == RequestGone <==> IsPending(w) && approve && w.customers.Missing?
      ensures r == RequestNoBuyers <==> IsPending(w) && approve && w.customers == Got([])
      ensures r == AlreadyDecided <==>
                ReadsOk(w, approve)
                && (HasDecision(old(decisions), o)
                    || (Writable(old(decisions), old(access), o, approve, w) && w.patch.Conflict?))
    {
      if !w.offer.Got? {
        return if w.offer.Missing? then OfferNotFound else Failed;
      }
      if w.offer.value.status != Offers.Pending {
        return OfferNotPending;
      }
      var customers: seq<Uuid> := [];
      if approve {
        if !w.customers.Got? {
          return if w.customers.Missing? then RequestGone else Failed;
        }
        customers := w.customers.value;
        if |customers| == 0 {
          return RequestNoBuyers;
        }
      }
      // The transaction works on its own copy of the tables; only the commit publishes it.
      if HasDecision(decisions, o) {
        return AlreadyDecided;
      }
      var newDecisions := decisions + [Contact.Decision(o, approve, customers, caller)];
      var newAccess := access;
      ghost var grants := Contact.Grants(CallOf(w, o, approve));
      for n := 0 to |customers|
        invariant newAccess == access + grants[..n]
        invariant ContactRuns.Grantable(access, o, customers[..n])
        invariant decisions == old(decisions) && access == old(access) && outbox == old(outbox)
      {
        if ContactRuns.HasGrant(newAccess, o, customers[n]) {
          NotGrantable(access, grants, o, customers, n);
          return Failed;
        }
        MoreGrantable(access, grants, o, customers, n);
        newAccess := newAccess + [Contact.Access(w.offer.value.seller, customers[n], w.offer.value.request, o,
                                                 Contact.Granted, None)];
        assert grants[..n + 1] == grants[..n] + [grants[n]];
      }
      assert customers[..|customers|] == customers && grants[..|grants|] == grants;
      if !w.patch.Accepted? {
        return if w.patch.Conflict? then AlreadyDecided else if w.patch.NoSuchOffer? then OfferNotFound else Failed;
      }
      var newOutbox := EnqueueDecision(outbox, w.sellerUser, approve, reason, |customers|, first, second);
      if !w.commits {
        return Failed;
      }
      decisions, access, outbox := newDecisions, newAccess, newOutbox;
      r := Recorded(|customers|);
    }

    /** Only a GRANTED row is revoked, and nothing else about it or any other row changes. */
    method Revoke(row: nat) returns (r: RevokeOutcome)
      modifies this`access
      ensures r == NotFound <==> |old(access)| <= row
      ensures r == AlreadyRevoked <==> row < |old(access)| && old(access)[row].status == Contact.Revoked
      ensures r == Done ==> |access| == |old(access)| && row < |access| && old(access)[row].status == Contact.Granted
      ensures r == Done ==> access == old(access)[row := old(access)[row].(status := Contact.Revoked)]
      ensures r != Done ==> access == old(access)
    {
      if |access| <= row {
        return NotFound;
      }
      if access[row].status != Contact.Granted {
        return AlreadyRevoked;
      }
      access := access[row := access[row].(status := Contact.Revoked)];
      r := Done;
    }

    /** A seller sees one card for each row that permits, at the positions `at` and in their order,
        each with the phone of the user behind it; one lookup that fails shows nothing. `asked` are
        the customers whose identity was looked up on the way: never one without a grant. */
    method ContactsForRequest(seller: Reply<Uuid>, request: Uuid, now: int,
                              people: Uuid -> Option<Person>, phones: Uuid -> Option<string>)
      returns (r: Lookup, asked: seq<Uuid>, ghost at: seq<nat>)
      ensures !seller.Got? ==> r == LookupFailed && asked == []
      ensures seller.Got? ==>
                && Increasing(at)
                && (forall k: int :: k in at <==>
                      && 0 <= k < |access| && access[k].seller == seller.value && access[k].request == request
                      && access[k].status == Contact.Granted
                      && (access[k].expires.None? || access[k].expires.value > now))
                && (forall i :: 0 <= i < |at| ==> at[i] < |access|)
                && (r == NoAccess <==> at == [])
                && (r.Shown? <==>
                      at != [] && forall i :: 0 <= i < |at| ==> Reachable(access[at[i]].customer, people, phones))
                && (r.Shown? ==>
                      && |r.cards| == |at|
                      && forall i :: 0 <= i < |at| ==> CardOf(r.cards[i], access[at[i]].customer, people, phones))
                && |asked| <= |at| && (forall i :: 0 <= i < |asked| ==> asked[i] == access[at[i]].customer)
      ensures seller.Got? && r.Shown? ==>
                var granted := Contact.Contacts(access, seller.value, request, now);
                |granted| == |r.cards| && forall i :: 0 <= i < |granted| ==> r.cards[i].customer == granted[i]
    {
      asked, at := [], [];
      if !seller.Got? {
        return LookupFailed, asked, at;
      }
      var granted := Contact.Contacts(access, seller.value, request, now);
      at := Contact.ContactsAre(access, seller.value, request, now);
      if |granted| == 0 {
        return NoAccess, asked, at;
      }
      var cards: seq<Card> := [];
      for n := 0 to |granted|
        invariant |cards| == n && |asked| == n
        invariant forall i :: 0 <= i < n ==>
                    Reachable(granted[i], people, phones) && CardOf(cards[i], granted[i], people, phones)
        invariant forall i :: 0 <= i < n ==> asked[i] == granted[i]
      {
        asked := asked + [granted[n]];
        var person := people(granted[n]);
        if person.None? {
          assert !Reachable(access[at[n]].customer, people, phones);
          return LookupFailed, asked, at;
        }
        var phone := phones(person.value.user);
        if phone.None? {
          assert !Reachable(access[at[n]].customer, people, phones);
          return LookupFailed, asked, at;
        }
        cards := cards + [Card(granted[n], person.value.firstName, person.value.lastName, phone.value)];
      }
      r := Shown(cards);
    }

    /** The internal check; the nil request asks about any. */
    method HasContactAccess(seller: Uuid, customer: Uuid, request: Uuid, now: int) returns (yes: bool)
      ensures yes <==>
              exists i :: 0 <= i < |access| && access[i].seller == seller && access[i].customer == customer
                          && (request == NIL_UUID || access[i].request == request)
                          && access[i].status == Contact.Granted
                          && (access[i].expires.None? || access[i].expires.value > now)
    {
      var asked := if request == NIL_UUID then None else Some(request);
      Contact.CountSpec(access, seller, customer, asked, now);
      yes := Contact.CountEffective(access, seller, customer, asked, now) > 0;
    }
  }

  predicate Reachable(customer: Uuid, people: Uuid -> Option<Person>, phones: Uuid -> Option<string>) {
    people(customer).Some? && phones(people(customer).value.user).Some?
  }

  predicate CardOf(card: Card, customer: Uuid, people: Uuid -> Option<Person>, phones: Uuid -> Option<string>) {
    && Reachable(customer, people, phones) && card.customer == customer
    && card.firstName == people(customer).value.firstName && card.lastName == people(customer).value.lastName
    && card.phone == phones(people(customer).value.user).value
  }

  /** The rows inserted so far are those of the first n customers. */
  ghost predicate GrantsFor(grants: seq<Contact.Access>, o: Uuid, customers: seq<Uuid>) {
    |grants| == |customers| && forall i :: 0 <= i < |grants| ==>
        grants[i].offer == o && grants[i].customer == customers[i]
  }

  lemma NotGrantable(access: seq<Contact.Access>, grants: seq<Contact.Access>, o: Uuid, customers: seq<Uuid>, n: nat)
    requires GrantsFor(grants, o, customers) && n < |customers| &&
             ContactRuns.HasGrant(access + grants[..n], o, customers[n])
    ensures !ContactRuns.Grantable(access, o, customers)
  {
    var rows := access + grants[..n];
    var i :| 0 <= i < |rows| && rows[i].offer == o && rows[i].customer == customers[n];
    if i < |access| {
      assert ContactRuns.HasGrant(access, o, customers[n]);
    } else {
      assert customers[i - |access|] == customers[n];
    }
  }

  lemma MoreGrantable(access: seq<Contact.Access>, grants: seq<Contact.Access>, o: Uuid, customers: seq<Uuid>, n: nat)
    requires GrantsFor(grants, o, customers) && n < |customers| &&
             !ContactRuns.HasGrant(access + grants[..n], o, customers[n])
    requires ContactRuns.Grantable(access, o, customers[..n])
    ensures ContactRuns.Grantable(access, o, customers[..n + 1])
  {
    var rows := access + grants[..n];
    assert customers[..n + 1] == customers[..n] + [customers[n]];
    assert forall i :: 0 <= i < |access| ==> rows[i] == access[i];
    forall i | 0 <= i < n ensures customers[i] != customers[n] {
      assert rows[|access| + i] == grants[i];
    }
  }

  // ---------------------------------------------------------------- as a run of the protocol

  /** An undisturbed `Decide` is a run of the protocol: what the method writes is what the
      steps of the call, taken one after another, write. */
  lemma DecideIsARun(s: Contact.State, o: Uuid, approve: bool, c: nat) returns (steps: seq<Contact.Step>, w: World)
    requires ContactRuns.Decidable(s, o, approve, c)
    ensures var offer := s.desk.table[o]; w.offer == Got(OfferView(offer.seller, offer.request, offer.status))
    ensures approve ==> w.customers == Got(s.participants[s.desk.table[o].request])
    ensures Writable(s.decisions, s.access, o, approve, w) && w.patch == Accepted && w.commits
    ensures Contact.Legal(s, steps)
    ensures var s' := Contact.Exec(s, steps);
            && s'.decisions == s.decisions + [Contact.DecisionOf(CallOf(w, o, approve), c)]
            && s'.access == s.access + Contact.Grants(CallOf(w, o, approve))
            && s'.desk == ContactRuns.WithVerdict(s.desk, o, approve)
  {
    var call, offer := ContactRuns.CallOn(s, o, approve, Contact.Committed), s.desk.table[o];
    w := World(Got(OfferView(offer.seller, offer.request, offer.status)), None, Got(call.customers), Accepted, true);
    assert CallOf(w, o, approve) == call;
    steps := ContactRuns.DecisionRuns(s, o, approve, c);
  }
}
