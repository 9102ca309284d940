/** Runs of the decision protocol: a decision nothing disturbs, one whose reply is lost, and one
    that a handler in mid-flight undoes. */
module ContactRuns {
  import opened Base
  import Offers
  import opened Contact

  /** One step more of a run. */
  lemma {:induction false} LegalSnoc(s: State, steps: seq<Step>, t: Step)
    requires Legal(s, steps) && Enabled(Exec(s, steps), t)
    ensures Legal(s, steps + [t]) && Exec(s, steps + [t]) == Apply(Exec(s, steps), t)
    decreases |steps|
  {
    if steps == [] {
      assert [t][1..] == [] && Legal(Apply(s, t), []);
      assert Exec(s, [t]) == Exec(Apply(s, t), []);
      assert [] + [t] == [t];
    } else {
      assert (steps + [t])[1..] == steps[1..] + [t];
      LegalSnoc(Apply(s, steps[0]), steps[1..], t);
    }
  }

  /** What `Decide` knows once it has read its offer and its customers. */
  function CallOn(s: State, o: Uuid, approve: bool, stage: Stage): Call
    requires o in s.desk.table && (approve ==> s.desk.table[o].request in s.participants)
  {
    Call(o, approve, s.desk.table[o].seller, s.desk.table[o].request,
         if approve then s.participants[s.desk.table[o].request] else [], stage)
  }

  /** A call that has read its offer. */
  lemma OfferRead(s: State, o: Uuid, approve: bool, c: nat)
    requires o in s.desk.table && s.desk.table[o].status == Offers.Pending && c !in s.calls
    ensures var call := Call(o, approve, s.desk.table[o].seller, s.desk.table[o].request, [], HasOffer);
            var steps := [Start(c, o, approve), GetOffer(c)];
            Legal(s, steps) && Exec(s, steps) == s.(calls := s.calls[c := call])
  {
    RunOfTwo(s, Start(c, o, approve), GetOffer(c));
    var s' := Exec(s, [Start(c, o, approve), GetOffer(c)]);
    assert s'.calls == s.calls[c := s'.calls[c]];
  }

  lemma CustomersReadAndRecorded(s: State, c: nat)
    requires At(s, c, HasOffer) && DecisionFree(s, s.calls[c].offer)
    requires s.calls[c].approve ==> s.calls[c].request in s.participants && s.participants[s.calls[c].request] != []
    ensures var customers := if s.calls[c].approve then s.participants[s.calls[c].request] else [];
            var steps := [GetCustomers(c), RecordDecision(c)];
            && Legal(s, steps)
            && Exec(s, steps) == s.(calls := s.calls[c := s.calls[c].(customers := customers, stage := Recorded(0))])
  {
    RunOfTwo(s, GetCustomers(c), RecordDecision(c));
    var s' := Exec(s, [GetCustomers(c), RecordDecision(c)]);
    assert s'.calls == s.calls[c := s'.calls[c]];
  }

  /** The first half of a decision, up to its row inserted and not yet committed. */
  lemma DecisionRecorded(s: State, o: Uuid, approve: bool, c: nat) returns (steps: seq<Step>)
    requires o in s.desk.table && s.desk.table[o].status == Offers.Pending && DecisionFree(s, o) && c !in s.calls
    requires approve ==> s.desk.table[o].request in s.participants && s.participants[s.desk.table[o].request] != []
    ensures Legal(s, steps) && Exec(s, steps) == s.(calls := s.calls[c := CallOn(s, o, approve, Recorded(0))])
  {
    OfferRead(s, o, approve, c);
    var s1 := Exec(s, [Start(c, o, approve), GetOffer(c)]);
    CustomersReadAndRecorded(s1, c);
    RunsCompose(s, [Start(c, o, approve), GetOffer(c)], [GetCustomers(c), RecordDecision(c)]);
    steps := [Start(c, o, approve), GetOffer(c)] + [GetCustomers(c), RecordDecision(c)];
    assert s1.calls[c := CallOn(s, o, approve, Recorded(0))] == s.calls[c := CallOn(s, o, approve, Recorded(0))];
  }

  predicate HasGrant(access: seq<Access>, o: Uuid, customer: Uuid) {
    exists i :: 0 <= i < |access| && access[i].offer == o && access[i].customer == customer
  }

  /** The unique key (offer, customer) lets all the grants in. */
  ghost predicate Grantable(access: seq<Access>, o: Uuid, customers: seq<Uuid>) {
    Distinct(customers) && forall i :: 0 <= i < |customers| ==> !HasGrant(access, o, customers[i])
  }

  /** Inserting the remaining grants of an open decision, one step each. */
  lemma {:induction false} GrantAll(s: State, c: nat) returns (steps: seq<Step>)
    requires c in s.calls && s.calls[c].stage.Recorded? && s.calls[c].stage.n <= |s.calls[c].customers|
    requires Grantable(s.access, s.calls[c].offer, s.calls[c].customers)
    ensures Legal(s, steps)
    ensures Exec(s, steps) == SetStage(s, c, Recorded(|s.calls[c].customers|))
    decreases |s.calls[c].customers| - s.calls[c].stage.n
  {
    var call := s.calls[c];
    if call.stage.n == |call.customers| {
      assert s.calls[c := call] == s.calls;
      steps := [];
    } else {
      var t := Grant(c);
      assert !HasGrant(s.access, call.offer, call.customers[call.stage.n]);
      assert Enabled(s, t);
      var rest := GrantAll(Apply(s, t), c);
      steps := [t] + rest;
      assert steps[1..] == rest;
    }
  }

  lemma {:induction false} RunsCompose(s: State, a: seq<Step>, b: seq<Step>)
    requires Legal(s, a) && Legal(Exec(s, a), b)
    ensures Legal(s, a + b) && Exec(s, a + b) == Exec(Exec(s, a), b)
    decreases |a|
  {
    if a == [] {
      assert a + b == b;
    } else {
      assert (a + b)[1..] == a[1..] + b;
      RunsCompose(Apply(s, a[0]), a[1..], b);
    }
  }

  lemma RunOfTwo(s: State, a: Step, b: Step)
    requires Enabled(s, a) && Enabled(Apply(s, a), b)
    ensures Legal(s, [a, b]) && Exec(s, [a, b]) == Apply(Apply(s, a), b)
  {
    var s1 := Apply(s, a);
    assert [a, b][1..] == [b] && [b][1..] == [];
    assert Legal(Apply(s1, b), []) && Legal(s1, [b]);
    assert Exec(s1, [b]) == Exec(Apply(s1, b), []);
  }

  /** The table with the verdict on one offer. */
  function WithVerdict(desk: Offers.State, o: Uuid, approve: bool): Offers.State
    requires o in desk.table
  {
    desk.(table := desk.table[o := desk.table[o].(status := Verdict(approve))])
  }

  /** offer-service reads and writes undisturbed: the offer has the verdict. */
  lemma DeskDecides(desk: Offers.State, h: nat, o: Uuid, approve: bool)
    requires Offers.OneLive(desk.table) && o in desk.table && desk.table[o].status == Offers.Pending
    requires h !in desk.between
    ensures var read := Offers.Check(h, Offers.Decide(o, approve));
            && Offers.Enabled(desk, read) && Offers.Enabled(Offers.Apply(desk, read), Offers.Write(h))
            && Offers.Apply(Offers.Apply(desk, read), Offers.Write(h)) == WithVerdict(desk, o, approve)
  {
    var read := Offers.Check(h, Offers.Decide(o, approve));
    var desk1 := Offers.Apply(desk, read);
    assert Offers.Landed(desk1.table, desk1.between[h]) == WithVerdict(desk, o, approve).table;
    assert desk1.between - {h} == desk.between;
  }

  /** The PATCH is sent and decides the offer. */
  lemma PatchDecides(s: State, c: nat) returns (steps: seq<Step>)
    requires c in s.calls && s.calls[c].stage == Recorded(|s.calls[c].customers|)
    requires c !in s.patches && c !in s.handling && c !in s.replies
    requires Offers.OneLive(s.desk.table) && s.calls[c].offer in s.desk.table
    requires s.desk.table[s.calls[c].offer].status == Offers.Pending
    ensures Legal(s, steps)
    ensures Exec(s, steps) == SetStage(s, c, Waiting).(
              desk := WithVerdict(s.desk, s.calls[c].offer, s.calls[c].approve), replies := s.replies[c := true])
  {
    var h := AboveAll(s.desk.between.Keys);
    var call := s.calls[c];
    DeskDecides(s.desk, h, call.offer, call.approve);
    var s1 := SetStage(s, c, Waiting).(patches := s.patches + {c});
    LegalSnoc(s, [], SendPatch(c));
    steps := [] + [SendPatch(c)];
    var s2 := Apply(s1, PatchRead(c, h));
    LegalSnoc(s, steps, PatchRead(c, h));
    steps := steps + [PatchRead(c, h)];
    assert s2.patches == s.patches && s2.handling == s.handling[c := h];
    LegalSnoc(s, steps, PatchWrite(c));
    steps := steps + [PatchWrite(c)];
    assert s.handling[c := h] - {c} == s.handling;
  }

  /** A decision with all its rows inserted and not yet committed. */
  lemma DecisionGranted(s: State, o: Uuid, approve: bool, c: nat) returns (steps: seq<Step>)
    requires Decidable(s, o, approve, c)
    ensures Legal(s, steps)
    ensures var n := |CallOn(s, o, approve, Waiting).customers|;
            Exec(s, steps) == s.(calls := s.calls[c := CallOn(s, o, approve, Recorded(n))])
  {
    var begin := DecisionRecorded(s, o, approve, c);
    var s1 := s.(calls := s.calls[c := CallOn(s, o, approve, Recorded(0))]);
    var n := |s1.calls[c].customers|;
    var grants := GrantAll(s1, c);
    RunsCompose(s, begin, grants);
    steps := begin + grants;
    assert s1.calls[c := CallOn(s, o, approve, Recorded(n))] == s.calls[c := CallOn(s, o, approve, Recorded(n))];
  }

  /** A decision up to the PATCH written, its reply not yet read. */
  lemma DecisionPatched(s: State, o: Uuid, approve: bool, c: nat) returns (steps: seq<Step>)
    requires Decidable(s, o, approve, c)
    ensures Legal(s, steps)
    ensures Exec(s, steps) == s.(calls := s.calls[c := CallOn(s, o, approve, Waiting)],
                                 desk := WithVerdict(s.desk, o, approve), replies := s.replies[c := true])
  {
    var call := CallOn(s, o, approve, Waiting);
    var granted := DecisionGranted(s, o, approve, c);
    var s1 := s.(calls := s.calls[c := call.(stage := Recorded(|call.customers|))]);
    var patch := PatchDecides(s1, c);
    RunsCompose(s, granted, patch);
    steps := granted + patch;
    assert s1.calls[c := call] == s.calls[c := call];
  }

  /** The answer arrives and the transaction commits. */
  lemma AnswerCommits(s: State, c: nat)
    requires At(s, c, Waiting) && c in s.replies && s.replies[c]
    ensures var steps, call := [GetReply(c), Commit(c)], s.calls[c].(stage := Committed);
            && Legal(s, steps)
            && Exec(s, steps) == s.(calls := s.calls[c := call], decisions := s.decisions + [DecisionOf(call, c)],
                                    access := s.access + Grants(call))
  {
    RunOfTwo(s, GetReply(c), Commit(c));
    var call := s.calls[c].(stage := Committed);
    assert Grants(s.calls[c].(stage := Accepted)) == Grants(call);
    assert s.calls[c := s.calls[c].(stage := Accepted)][c := call] == s.calls[c := call];
  }

  /** Nothing stands in the way of a decision by the new call `c`. */
  ghost predicate Decidable(s: State, o: Uuid, approve: bool, c: nat) {
    && Offers.OneLive(s.desk.table) && o in s.desk.table && s.desk.table[o].status == Offers.Pending
    && DecisionFree(s, o) && c !in s.calls && c !in s.patches && c !in s.handling && c !in s.replies
    && (approve ==> s.desk.table[o].request in s.participants && s.participants[s.desk.table[o].request] != [])
    && Grantable(s.access, o, CallOn(s, o, approve, Waiting).customers)
  }

  /** What an undisturbed decision leaves. */
  ghost function DecidedState(s: State, o: Uuid, approve: bool, c: nat): State
    requires Decidable(s, o, approve, c)
  {
    var call := CallOn(s, o, approve, Committed);
    s.(calls := s.calls[c := call], desk := WithVerdict(s.desk, o, approve), replies := s.replies[c := true],
       decisions := s.decisions + [DecisionOf(call, c)], access := s.access + Grants(call))
  }

  /** A decision from its first read to its commit. */
  lemma DecisionRuns(s: State, o: Uuid, approve: bool, c: nat) returns (steps: seq<Step>)
    requires Decidable(s, o, approve, c)
    ensures Legal(s, steps) && Exec(s, steps) == DecidedState(s, o, approve, c)
  {
    var patched := DecisionPatched(s, o, approve, c);
    var s1 := Exec(s, patched);
    AnswerCommits(s1, c);
    RunsCompose(s, patched, [GetReply(c), Commit(c)]);
    steps := patched + [GetReply(c), Commit(c)];
    var call := CallOn(s, o, approve, Committed);
    assert s1.calls[c := call] == s.calls[c := call];
  }

  /** From any state with a PENDING offer that nobody is deciding, a decision whose reply is lost
      leaves the offer decided without a decision: a rejection of which admin-service has no
      record, or an approval for which no customer has granted contact. */
  lemma LostReplyOrphans(s: State, o: Uuid, approve: bool, c: nat) returns (steps: seq<Step>)
    requires Decidable(s, o, approve, c)
    ensures Legal(s, steps)
    ensures var s' := Exec(s, steps);
            && o in s'.desk.table && s'.desk.table[o].status == Verdict(approve)
            && s'.decisions == s.decisions && s'.access == s.access
            && Yes(s', c, o) && At(s', c, Aborted)
  {
    steps := DecisionPatched(s, o, approve, c);
    LegalSnoc(s, steps, Abort(c));
    steps := steps + [Abort(c)];
  }

  // ---------------------------------------------------------------- a race

  /** A seller's handler reads, or reads and writes. */
  lemma SellerActs(s: State, h: nat, task: Offers.Task)
    requires !task.Decide? && h !in s.desk.between && h !in s.handling.Values && Offers.OneLive(s.desk.table)
    requires Offers.Atomically(s.desk.table, task).Some?
    ensures var steps := [OfferStep(Offers.Check(h, task)), OfferStep(Offers.Write(h))];
            && Legal(s, steps)
            && Exec(s, steps) == s.(desk := s.desk.(table := Offers.Atomically(s.desk.table, task).value))
  {
    Offers.AtomicHandler(s.desk.table, task);
    Offers.LandedAtOnce(s.desk.table, task);
    var s1 := Apply(s, OfferStep(Offers.Check(h, task)));
    assert s1.desk.between - {h} == s.desk.between;
    RunOfTwo(s, OfferStep(Offers.Check(h, task)), OfferStep(Offers.Write(h)));
  }

  /** The first part: a cancellation reads the offer, the offer is approved, and the grant to its
      one customer is revoked. */
  lemma ApprovedAndRevoked(s: State, h: nat, o: Uuid, c: nat, customer: Uuid) returns (steps: seq<Step>, s': State)
    requires Decidable(s, o, true, c) && h !in s.desk.between && h !in s.handling.Values
    requires s.participants[s.desk.table[o].request] == [customer]
    ensures Legal(s, steps) && Exec(s, steps) == s'
    ensures var offer := s.desk.table[o];
            var flight := Offers.Flight(Offers.Cancel(o, offer.seller), s.desk.table);
            && s'.desk == Offers.State(WithVerdict(s.desk, o, true).table, s.desk.between[h := flight])
            && s'.participants == s.participants && s'.patches == s.patches && s'.handling == s.handling
            && s'.replies == s.replies[c := true] && s'.calls == s.calls[c := CallOn(s, o, true, Committed)]
            && s'.decisions == s.decisions + [DecisionOf(CallOn(s, o, true, Committed), c)]
            && s'.access == s.access + [Access(offer.seller, customer, offer.request, o, Revoked, None)]
  {
    var cancel := OfferStep(Offers.Check(h, Offers.Cancel(o, s.desk.table[o].seller)));
    var s1 := Apply(s, cancel);
    LegalSnoc(s, [], cancel);
    steps := [] + [cancel];
    assert CallOn(s1, o, true, Waiting) == CallOn(s, o, true, Waiting);
    var decide := DecisionRuns(s1, o, true, c);
    RunsCompose(s, steps, decide);
    steps := steps + decide;
    var row := |s.access|;
    LegalSnoc(s, steps, Revoke(row));
    steps := steps + [Revoke(row)];
    s' := Exec(s, steps);
    var offer := s.desk.table[o];
    assert Grants(CallOn(s, o, true, Committed)) == [Access(offer.seller, customer, offer.request, o, Granted, None)];
    assert s'.access == s.access + [Access(offer.seller, customer, offer.request, o, Revoked, None)];
  }

  function Offered(create: Offers.Task): Offers.Offer
    requires create.Create?
  {
    Offers.Offer(create.seller, create.request, create.terms, create.picture, Offers.Pending)
  }

  /** The second part: the cancellation writes and the seller makes another offer. */
  lemma CancelledAndOfferedAgain(s: State, h: nat, o: Uuid, create: Offers.Task) returns (steps: seq<Step>, s': State)
    requires Offers.OneLive(s.desk.table) && o in s.desk.table && s.desk.table[o].status == Offers.Approved
    requires h in s.desk.between && h !in s.handling.Values
    requires s.desk.between[h].task == Offers.Cancel(o, s.desk.table[o].seller)
    requires create.Create? && create.id !in s.desk.table
    requires create.seller == s.desk.table[o].seller && create.request == s.desk.table[o].request
    ensures Legal(s, steps) && Exec(s, steps) == s'
    ensures s' == s.(desk := s'.desk) && s'.desk.between == s.desk.between - {h} && Offers.OneLive(s'.desk.table)
    ensures s'.desk.table ==
            s.desk.table[o := s.desk.table[o].(status := Offers.Cancelled)][create.id := Offered(create)]
  {
    var write := OfferStep(Offers.Write(h));
    var table1 := s.desk.table[o := s.desk.table[o].(status := Offers.Cancelled)];
    assert Offers.Landed(s.desk.table, s.desk.between[h]) == table1;
    var s1 := Apply(s, write);
    LegalSnoc(s, [], write);
    assert Offers.Passes(table1, create);
    SellerActs(s1, h, create);
    Offers.AtomicHandler(table1, create);
    var offer := [OfferStep(Offers.Check(h, create)), OfferStep(Offers.Write(h))];
    RunsCompose(s, [] + [write], offer);
    steps := [] + [write] + offer;
    s' := Exec(s, steps);
  }

  /** The condition of `Contact.RevocationIsFinal` is needed. From any quiet state with a PENDING
      offer on a request with one customer: the seller's cancellation reads the offer, the offer
      is approved and the grant revoked, the cancellation writes over the approval, the seller
      makes another offer, and its approval shows the seller the customer again. */
  lemma StaleCancelReopens(s: State, o: Uuid, create: Offers.Task, customer: Uuid, c: nat, d: nat, now: int)
    returns (steps: seq<Step>, row: nat)
    requires Decidable(s, o, true, c) && s.desk.between == map[] && s.handling == map[]
    requires s.participants[s.desk.table[o].request] == [customer]
    requires create.Create? && create.id !in s.desk.table && create.id != o
    requires create.seller == s.desk.table[o].seller && create.request == s.desk.table[o].request
    requires DecisionFree(s, create.id) && (forall i :: 0 <= i < |s.access| ==> s.access[i].offer != create.id)
    requires d !in s.calls && d !in s.patches && d !in s.replies && d != c
    ensures Legal(s, steps)
    ensures var s' := Exec(s, steps);
            && row < |s'.access| && s'.access[row].status == Revoked && s'.access[row].customer == customer
            && s'.access[row].seller == create.seller && s'.access[row].request == create.request
            && customer in Contacts(s'.access, create.seller, create.request, now)
  {
    var first, s1 := ApprovedAndRevoked(s, 0, o, c, customer);
    var second, s2 := CancelledAndOfferedAgain(s1, 0, o, create);
    RunsCompose(s, first, second);
    row := |s.access|;
    DecidableAgain(s, s2, o, create, customer, c, d);
    var third := DecisionRuns(s2, create.id, true, d);
    RunsCompose(s, first + second, third);
    steps := first + second + third;
    var s3 := Exec(s, steps);
    var last := |s3.access| - 1;
    assert Grants(CallOn(s2, create.id, true, Committed))
        == [Access(create.seller, customer, create.request, create.id, Granted, None)];
    assert s3.access[last] == Access(create.seller, customer, create.request, create.id, Granted, None);
    ContactsSpec(s3.access, create.seller, create.request, now, customer);
  }

  lemma DecidableAgain(s: State, s2: State, o: Uuid, create: Offers.Task, customer: Uuid, c: nat, d: nat)
    requires create.Create? && create.id != o && d != c && Offers.OneLive(s2.desk.table)
    requires o in s.desk.table && DecisionFree(s, create.id)
    requires forall i :: 0 <= i < |s.access| ==> s.access[i].offer != create.id
    requires d !in s.calls && d !in s.patches && d !in s.replies && s2.handling == map[] && s2.patches == s.patches
    requires create.id in s2.desk.table && s2.participants == s.participants
    requires s2.desk.table[create.id] == Offered(create)
    requires create.request in s.participants && s.participants[create.request] == [customer]
    requires s2.replies == s.replies[c := true]
    requires exists call :: s2.calls == s.calls[c := call] && call.stage == Committed && call.offer == o
    requires exists dec :: s2.decisions == s.decisions + [dec] && dec.offer == o
    requires exists row :: s2.access == s.access + [row] && row.offer == o
    ensures Decidable(s2, create.id, true, d)
  {
  }
}
