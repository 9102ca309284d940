/** Deciding offers across three services, and the contact permission that follows. An
    admin's decision reads the offer from offer-service and the participants from
    request-service, writes its rows in a local transaction, flips the remote status with a
    PATCH and only then commits. Any number of decisions run at once; a PATCH may be handled
    late or its reply lost, a decision may die at any point, and offer-service's handlers, the
    PATCH's included, read and write their offer without a lock in between. */
module Contact {
  import opened Base
  import Offers

  /** A row of offer_decision. `read` and `caller` are not columns: the participants the decision
      read and the call that made it. */
  datatype Decision = Decision(offer: Uuid, approve: bool, read: seq<Uuid>, caller: nat)

  datatype AccessStatus = Granted | Revoked

  /** A row of contact_access. */
  datatype Access = Access(seller: Uuid, customer: Uuid, request: Uuid, offer: Uuid,
                           status: AccessStatus, expires: Option<int>)

  /** How far one call of `Decide` has come. From `Recorded` to `Accepted` its transaction is
      open and holds the unique key of its offer; `Recorded(n)` has inserted n grants. */
  datatype Stage = Started | HasOffer | HasCustomers | Recorded(n: nat) | Waiting | Accepted | Committed | Aborted

  datatype Call = Call(offer: Uuid, approve: bool, seller: Uuid, request: Uuid, customers: seq<Uuid>, stage: Stage)

  datatype State = State(
    desk: Offers.State,                  // offer-service: its table, and handlers in mid-flight
    participants: map<Uuid, seq<Uuid>>,  // request-service
    decisions: seq<Decision>,            // admin-service, committed
    access: seq<Access>,
    calls: map<nat, Call>,
    patches: set<nat>,                   // PATCHes sent and not read, by call
    handling: map<nat, nat>,             // the handler of a call's PATCH between its read and write
    replies: map<nat, bool>)             // how offer-service answered: 200 or 409/404

  const INIT := State(Offers.State(map[], map[]), map[], [], [], map[], {}, map[], map[])

  datatype Step =
    | OfferStep(os: Offers.Step)                    // read or write of a create, update or cancel
    | ParticipantsChange(request: Uuid, customers: seq<Uuid>)
    | Start(c: nat, offer: Uuid, approve: bool)
    | GetOffer(c: nat)
    | GetCustomers(c: nat)
    | RecordDecision(c: nat)
    | Grant(c: nat)
    | SendPatch(c: nat)
    | PatchRead(c: nat, h: nat)
    | PatchWrite(c: nat)
    | PatchLost(c: nat)                             // its handler dies before the write
    | GetReply(c: nat)
    | Commit(c: nat)
    | Abort(c: nat)
    | Revoke(row: nat)

  predicate At(s: State, c: nat, stage: Stage) { c in s.calls && s.calls[c].stage == stage }

  /** The call's transaction is open and has inserted its decision. */
  predicate Holds(call: Call) { call.stage.Recorded? || call.stage.Waiting? || call.stage.Accepted? }

  /** UNIQUE (offer_id): a second insert fails if the first is committed and waits while it
      is not. */
  ghost predicate DecisionFree(s: State, o: Uuid) {
    && (forall i :: 0 <= i < |s.decisions| ==> s.decisions[i].offer != o)
    && (forall c :: c in s.calls && Holds(s.calls[c]) ==> s.calls[c].offer != o)
  }

  /** UNIQUE (offer_id, customer_id) */
  ghost predicate GrantFree(s: State, call: Call, n: nat)
    requires n < |call.customers|
  {
    && (forall i :: 0 <= i < |s.access| ==>
          !(s.access[i].offer == call.offer && s.access[i].customer == call.customers[n]))
    && call.customers[n] !in call.customers[..n]
  }

  ghost predicate Enabled(s: State, t: Step) {
    match t
    case OfferStep(os) =>
      os.h !in s.handling.Values && (os.Check? ==> !os.task.Decide?) && Offers.Enabled(s.desk, os)
    case ParticipantsChange(r, cs) => true
    case Start(c, o, approve) => c !in s.calls
    case GetOffer(c) => At(s, c, Started) && s.calls[c].offer in s.desk.table &&
        s.desk.table[s.calls[c].offer].status == Offers.Pending
    case GetCustomers(c) =>
      At(s, c, HasOffer)
      && (s.calls[c].approve ==> s.calls[c].request in s.participants && s.participants[s.calls[c].request] != [])
    case RecordDecision(c) => At(s, c, HasCustomers) && DecisionFree(s, s.calls[c].offer)
    case Grant(c) =>
      && c in s.calls && s.calls[c].stage.Recorded? && s.calls[c].stage.n < |s.calls[c].customers|
      && GrantFree(s, s.calls[c], s.calls[c].stage.n)
    case SendPatch(c) => c in s.calls && s.calls[c].stage == Recorded(|s.calls[c].customers|)
    case PatchRead(c, h) => c in s.patches && c in s.calls && h !in s.desk.between
    case PatchWrite(c) => c in s.handling && c in s.calls && Offers.Enabled(s.desk, Offers.Write(s.handling[c]))
    case PatchLost(c) => c in s.handling && s.handling[c] in s.desk.between
    case GetReply(c) => At(s, c, Waiting) && c in s.replies && s.replies[c]
    case Commit(c) => At(s, c, Accepted)
    case Abort(c) => c in s.calls && s.calls[c].stage != Committed
    case Revoke(i) => i < |s.access| && s.access[i].status == Granted
  }

  function SetStage(s: State, c: nat, stage: Stage): State
    requires c in s.calls
  {
    s.(calls := s.calls[c := s.calls[c].(stage := stage)])
  }

  function Grants(call: Call): (g: seq<Access>)
    ensures |g| == |call.customers|
    ensures forall i :: 0 <= i < |g| ==>
              g[i] == Access(call.seller, call.customers[i], call.request, call.offer, Granted, None)
  {
    seq(|call.customers|, i requires 0 <= i < |call.customers| =>
      Access(call.seller, call.customers[i], call.request, call.offer, Granted, None))
  }

  function DecisionOf(call: Call, c: nat): Decision { Decision(call.offer, call.approve, call.customers, c) }

  function Verdict(approve: bool): Offers.Status { if approve then Offers.Approved else Offers.Rejected }

  function TaskOf(call: Call): Offers.Task { Offers.Decide(call.offer, call.approve) }

  /** offer-service reading the offer for the PATCH of call `c`: it goes on with a PENDING one and
      refuses any other. */
  ghost function PatchReads(s: State, c: nat, h: nat): State
    requires c in s.calls && h !in s.desk.between
  {
    if Offers.Passes(s.desk.table, TaskOf(s.calls[c]))
    then s.(desk := Offers.Apply(s.desk, Offers.Check(h, TaskOf(s.calls[c]))), patches := s.patches - {c},
            handling := s.handling[c := h])
    else s.(patches := s.patches - {c}, replies := s.replies[c := false])
  }

  ghost function Apply(s: State, t: Step): State
    requires Enabled(s, t)
  {
    match t
    case OfferStep(os) => s.(desk := Offers.Apply(s.desk, os))
    case ParticipantsChange(r, cs) => s.(participants := s.participants[r := cs])
    case Start(c, o, approve) => s.(calls := s.calls[c := Call(o, approve, 0, 0, [], Started)])
    case GetOffer(c) =>
      var offer := s.desk.table[s.calls[c].offer];
      s.(calls := s.calls[c := s.calls[c].(seller := offer.seller, request := offer.request, stage := HasOffer)])
    case GetCustomers(c) =>
      s.(calls := s.calls[c := s.calls[c].(stage := HasCustomers,
           customers := if s.calls[c].approve then s.participants[s.calls[c].request] else [])])
    case RecordDecision(c) => SetStage(s, c, Recorded(0))
    case Grant(c) => SetStage(s, c, Recorded(s.calls[c].stage.n + 1))
    case SendPatch(c) => SetStage(s, c, Waiting).(patches := s.patches + {c})
    case PatchRead(c, h) => PatchReads(s, c, h)
    case PatchWrite(c) =>
      s.(desk := Offers.Apply(s.desk, Offers.Write(s.handling[c])), handling := s.handling - {c},
         replies := s.replies[c := true])
    case PatchLost(c) =>
      s.(desk := Offers.Apply(s.desk, Offers.Drop(s.handling[c])), handling := s.handling - {c})
    case GetReply(c) => SetStage(s, c, Accepted)
    case Commit(c) =>
      SetStage(s, c, Committed).(decisions := s.decisions + [DecisionOf(s.calls[c], c)],
                                 access := s.access + Grants(s.calls[c]))
    case Abort(c) => SetStage(s, c, Aborted)
    case Revoke(i) => s.(access := s.access[i := s.access[i].(status := Revoked)])
  }

  ghost predicate Legal(s: State, steps: seq<Step>)
    decreases |steps|
  {
    steps == [] || (Enabled(s, steps[0]) && Legal(Apply(s, steps[0]), steps[1..]))
  }

  ghost function Exec(s: State, steps: seq<Step>): State
    requires Legal(s, steps)
    decreases |steps|
  {
    if steps == [] then s else Exec(Apply(s, steps[0]), steps[1..])
  }

  /** When a PATCH is written no other handler in mid-flight would write its offer differently. The
      handlers hold no row lock, so nothing in the code guarantees it. */
  ghost predicate Calm(s: State, t: Step)
    requires Enabled(s, t)
  {
    t.PatchWrite? ==> Offers.NoneStale(Apply(s, t).desk, s.calls[t.c].offer)
  }

  ghost predicate CalmRun(s: State, steps: seq<Step>)
    requires Legal(s, steps)
    decreases |steps|
  {
    steps == [] || (Calm(s, steps[0]) && CalmRun(Apply(s, steps[0]), steps[1..]))
  }

  // ---------------------------------------------------------------- invariant

  /** What a call has read of its offer is still so: an offer never changes its parties. */
  ghost predicate ReadsOk(call: Call, offers: Offers.Table) {
    call.stage != Started && call.stage != Aborted ==>
      call.offer in offers && offers[call.offer].seller == call.seller && offers[call.offer].request == call.request
  }

  /** Only an approval has customers, and the grants written so far are to different ones. */
  ghost predicate CustomersOk(call: Call) {
    && (call.stage == HasCustomers || Holds(call) || call.stage == Committed ==>
          (call.approve <==> call.customers != []))
    && (call.stage.Recorded? ==> call.stage.n <= |call.customers| && Distinct(call.customers[..call.stage.n]))
    && (call.stage == Waiting || call.stage == Accepted || call.stage == Committed ==> Distinct(call.customers))
  }

  predicate AfterSend(stage: Stage) { stage == Waiting || stage == Accepted || stage == Committed || stage == Aborted }

  /** A call past the reply got a yes; a PATCH is sent once, read once and answered once. */
  ghost predicate NetworkOk(s: State, c: nat) {
    && (At(s, c, Accepted) || At(s, c, Committed) ==> c in s.replies && s.replies[c])
    && (c in s.patches || c in s.handling || c in s.replies ==> c in s.calls && AfterSend(s.calls[c].stage))
    && !(c in s.patches && c in s.handling) && !(c in s.patches && c in s.replies)
    && !(c in s.handling && c in s.replies)
  }

  predicate HandledBy(s: State, c: nat, h: nat) { c in s.handling && s.handling[c] == h }

  /** The handler of a PATCH is in mid-flight with its call's verdict. */
  ghost predicate FlightOf(s: State, c: nat) {
    c in s.handling ==>
      && c in s.calls && s.handling[c] in s.desk.between
      && s.desk.between[s.handling[c]].task == TaskOf(s.calls[c])
  }

  ghost predicate OneCallEach(s: State) {
    forall c, d :: c in s.handling && d in s.handling && s.handling[c] == s.handling[d] ==> c == d
  }

  /** Only the handlers of PATCHes decide. */
  ghost predicate DecidesForCall(s: State, h: nat) {
    h in s.desk.between && s.desk.between[h].task.Decide? ==> exists c :: HandledBy(s, c, h)
  }

  ghost predicate FlightsOk(s: State) {
    (forall c :: FlightOf(s, c)) && OneCallEach(s) && (forall h :: DecidesForCall(s, h))
  }

  ghost predicate CallsOk(s: State) {
    && (forall c :: c in s.calls ==> ReadsOk(s.calls[c], s.desk.table) && CustomersOk(s.calls[c]))
    && (forall c :: NetworkOk(s, c))
  }

  /** Open transactions hold different keys. */
  ghost predicate OneHolder(s: State) {
    forall c, d :: (c in s.calls && d in s.calls && Holds(s.calls[c]) && Holds(s.calls[d])
                    && s.calls[c].offer == s.calls[d].offer) ==> c == d
  }

  /** And none that is committed. */
  ghost predicate HeldNotCommitted(s: State) {
    forall c, i :: c in s.calls && Holds(s.calls[c]) && 0 <= i < |s.decisions| ==>
        s.decisions[i].offer != s.calls[c].offer
  }

  predicate Decided(st: Offers.Status) { st == Offers.Approved || st == Offers.Rejected }

  /** The call was told yes about this offer. */
  predicate Yes(s: State, c: nat, o: Uuid) { c in s.replies && s.replies[c] && c in s.calls && s.calls[c].offer == o }

  /** A yes means that the offer has that verdict, and that no handler will change it. */
  ghost predicate YesMeans(s: State, c: nat) {
    c in s.replies && s.replies[c] ==>
      && c in s.calls && s.calls[c].offer in s.desk.table
      && s.desk.table[s.calls[c].offer].status == Verdict(s.calls[c].approve)
      && Offers.NoneStale(s.desk, s.calls[c].offer)
  }

  ghost predicate SomeYes(s: State, o: Uuid) { exists c :: Yes(s, c, o) }

  ghost predicate VerdictsOk(s: State) {
    && (forall c :: YesMeans(s, c))
    && (forall o :: o in s.desk.table && Decided(s.desk.table[o].status) ==> SomeYes(s, o))
  }

  /** A committed decision is that of its committed call. */
  ghost predicate RowOfCall(s: State, d: Decision) {
    d.caller in s.calls && s.calls[d.caller].stage == Committed && d == DecisionOf(s.calls[d.caller], d.caller)
  }

  ghost predicate HasRow(s: State, c: nat) {
    exists i :: 0 <= i < |s.decisions| && s.decisions[i].caller == c
  }

  ghost predicate DecisionsOk(s: State) {
    && (forall i :: 0 <= i < |s.decisions| ==> RowOfCall(s, s.decisions[i]))
    && (forall i, j :: 0 <= i < j < |s.decisions| ==> s.decisions[i].offer != s.decisions[j].offer)
    && (forall c :: At(s, c, Committed) ==> HasRow(s, c))
  }

  /** A grant row and the committed approval behind it. */
  predicate GrantedBy(a: Access, d: Decision, offers: Offers.Table) {
    && d.approve && d.offer == a.offer && a.customer in d.read && a.expires == None
    && a.offer in offers && offers[a.offer].seller == a.seller && offers[a.offer].request == a.request
  }

  ghost predicate Approved(s: State, a: Access) {
    exists i :: 0 <= i < |s.decisions| && GrantedBy(a, s.decisions[i], s.desk.table)
  }

  /** Customers granted under one offer, in the order the rows were written. */
  function CustomersOf(access: seq<Access>, o: Uuid): seq<Uuid> {
    if access == [] then []
    else
      var last := access[|access| - 1];
      CustomersOf(access[..|access| - 1], o) + if last.offer == o then [last.customer] else []
  }

  ghost predicate AccessOk(s: State) {
    && (forall i :: 0 <= i < |s.access| ==> Approved(s, s.access[i]))
    && (forall i, j :: 0 <= i < j < |s.access| && s.access[i].offer == s.access[j].offer ==>
          s.access[i].customer != s.access[j].customer)
  }

  ghost predicate GrantsOk(s: State) {
    && (forall i :: 0 <= i < |s.decisions| ==> CustomersOf(s.access, s.decisions[i].offer) == s.decisions[i].read)
    && (forall o :: (forall i :: 0 <= i < |s.decisions| ==> s.decisions[i].offer != o) ==>
          CustomersOf(s.access, o) == [])
  }

  /** What every step keeps. */
  ghost predicate Sound(s: State) {
    && Offers.OneLive(s.desk.table) && FlightsOk(s) && CallsOk(s) && OneHolder(s) && HeldNotCommitted(s)
    && DecisionsOk(s) && AccessOk(s) && GrantsOk(s)
  }

  /** And what every calm one does. */
  ghost predicate Inv(s: State) { Sound(s) && VerdictsOk(s) }

  // ---------------------------------------------------------------- preservation

  /** Offers keep their parties. */
  ghost predicate OffersGrow(a: Offers.Table, b: Offers.Table) {
    forall o :: o in a ==> o in b && b[o].seller == a[o].seller && b[o].request == a[o].request
  }

  /** What the step is for offer-service, if anything. */
  ghost function DeskStep(s: State, t: Step): Option<Offers.Step>
    requires Enabled(s, t)
  {
    match t
    case OfferStep(os) => Some(os)
    case PatchRead(c, h) =>
      if Offers.Passes(s.desk.table, TaskOf(s.calls[c])) then Some(Offers.Check(h, TaskOf(s.calls[c]))) else None
    case PatchWrite(c) => Some(Offers.Write(s.handling[c]))
    case PatchLost(c) => Some(Offers.Drop(s.handling[c]))
    case _ => None
  }

  lemma DeskMoves(s: State, t: Step)
    requires Enabled(s, t)
    ensures var os := DeskStep(s, t);
            if os.None? then Apply(s, t).desk == s.desk
            else Offers.Enabled(s.desk, os.value) && Apply(s, t).desk == Offers.Apply(s.desk, os.value)
  {
  }

  lemma OffersPersist(s: State, t: Step)
    requires Offers.OneLive(s.desk.table) && Enabled(s, t)
    ensures Offers.OneLive(Apply(s, t).desk.table) && OffersGrow(s.desk.table, Apply(s, t).desk.table)
  {
    DeskMoves(s, t);
    if DeskStep(s, t).Some? { Offers.StepKeepsParties(s.desk, DeskStep(s, t).value); }
  }

  lemma DistinctSnoc(s: seq<Uuid>, n: nat)
    requires n < |s| && Distinct(s[..n]) && s[n] !in s[..n]
    ensures Distinct(s[..n + 1])
  {
    assert s[..n + 1] == s[..n] + [s[n]];
  }

  /** A call never changes its target, and a committed one never changes at all. */
  lemma CallsPersist(s: State, t: Step, c: nat)
    requires Enabled(s, t) && c in s.calls
    ensures var s' := Apply(s, t);
            && c in s'.calls && s'.calls[c].offer == s.calls[c].offer && s'.calls[c].approve == s.calls[c].approve
            && (s.calls[c].stage == Committed ==> s'.calls[c] == s.calls[c])
            && (s'.calls[c].stage == Committed ==> s.calls[c].stage == Committed || t == Commit(c))
            && (Holds(s'.calls[c]) ==> Holds(s.calls[c]) || t == RecordDecision(c))
  {
  }

  lemma CustomersStayOk(s: State, t: Step, c: nat)
    requires Enabled(s, t) && c in Apply(s, t).calls && (c in s.calls ==> CustomersOk(s.calls[c]))
    ensures CustomersOk(Apply(s, t).calls[c])
  {
    if c in s.calls {
      var call := s.calls[c];
      if t == Grant(c) { DistinctSnoc(call.customers, call.stage.n); }
      assert call.customers[..|call.customers|] == call.customers;
    }
  }

  lemma ReadsStayOk(s: State, t: Step, c: nat)
    requires Enabled(s, t) && c in Apply(s, t).calls && (c in s.calls ==> ReadsOk(s.calls[c], s.desk.table))
    requires OffersGrow(s.desk.table, Apply(s, t).desk.table)
    ensures ReadsOk(Apply(s, t).calls[c], Apply(s, t).desk.table)
  {
  }

  lemma NetworkStaysOk(s: State, t: Step, c: nat)
    requires Enabled(s, t) && NetworkOk(s, c)
    ensures NetworkOk(Apply(s, t), c)
  {
  }

  lemma CallsStayOk(s: State, t: Step)
    requires Offers.OneLive(s.desk.table) && CallsOk(s) && Enabled(s, t)
    ensures CallsOk(Apply(s, t))
  {
    OffersPersist(s, t);
    var s' := Apply(s, t);
    forall c | c in s'.calls ensures ReadsOk(s'.calls[c], s'.desk.table) && CustomersOk(s'.calls[c]) {
      CustomersStayOk(s, t, c);
      ReadsStayOk(s, t, c);
    }
    forall c ensures NetworkOk(s', c) { NetworkStaysOk(s, t, c); }
  }

  lemma StaysOneHolder(s: State, t: Step)
    requires OneHolder(s) && Enabled(s, t)
    ensures OneHolder(Apply(s, t))
  {
    var s' := Apply(s, t);
    forall c, d | c in s'.calls && d in s'.calls && Holds(s'.calls[c]) && Holds(s'.calls[d])
                  && s'.calls[c].offer == s'.calls[d].offer
      ensures c == d
    {
      assert c in s.calls && d in s.calls;
      CallsPersist(s, t, c);
      CallsPersist(s, t, d);
    }
  }

  lemma HeldStaysNotCommitted(s: State, t: Step)
    requires HeldNotCommitted(s) && OneHolder(s) && Enabled(s, t)
    ensures HeldNotCommitted(Apply(s, t))
  {
    var s' := Apply(s, t);
    forall c, i | c in s'.calls && Holds(s'.calls[c]) && 0 <= i < |s'.decisions|
      ensures s'.decisions[i].offer != s'.calls[c].offer
    {
      assert c in s.calls;
      CallsPersist(s, t, c);
      if i == |s.decisions| {
        assert c != t.c && Holds(s.calls[t.c]) && Holds(s.calls[c]);
      } else {
        assert s'.decisions[i] == s.decisions[i];
      }
    }
  }

  lemma FlightsStayOk(s: State, t: Step)
    requires FlightsOk(s) && (forall c :: NetworkOk(s, c)) && Enabled(s, t)
    ensures FlightsOk(Apply(s, t))
  {
    var s' := Apply(s, t);
    forall c ensures FlightOf(s', c) { FlightStays(s, t, c); }
    StaysOneCallEach(s, t);
    forall h ensures DecidesForCall(s', h) { StillDecidesForCall(s, t, h); }
  }

  lemma StaysOneCallEach(s: State, t: Step)
    requires OneCallEach(s) && (forall c :: FlightOf(s, c)) && Enabled(s, t)
    ensures OneCallEach(Apply(s, t))
  {
    if t.PatchRead? {
      forall c | c in s.handling ensures s.handling[c] != t.h { assert FlightOf(s, c); }
    }
  }

  lemma FlightStays(s: State, t: Step, c: nat)
    requires FlightOf(s, c) && OneCallEach(s) && Enabled(s, t)
    ensures FlightOf(Apply(s, t), c)
  {
    if c in s.calls { CallsPersist(s, t, c); }
  }

  lemma StillDecidesForCall(s: State, t: Step, h: nat)
    requires DecidesForCall(s, h) && Enabled(s, t) && (t.PatchRead? ==> NetworkOk(s, t.c))
    ensures DecidesForCall(Apply(s, t), h)
  {
    var s' := Apply(s, t);
    if h in s'.desk.between && s'.desk.between[h].task.Decide? {
      if h in s.desk.between {
        DeskMoves(s, t);
        assert s.desk.between[h].task.Decide?;
        var c :| HandledBy(s, c, h);
        assert HandledBy(s', c, h);
      } else {
        assert HandledBy(s', t.c, h);
      }
    }
  }

  /** A call that was told yes is told nothing else, and its offer is not touched again. */
  lemma YesStays(s: State, t: Step, c: nat)
    requires Enabled(s, t) && YesMeans(s, c) && NetworkOk(s, c) && c in s.replies && s.replies[c]
    ensures YesMeans(Apply(s, t), c) && Yes(Apply(s, t), c, s.calls[c].offer)
  {
    CallsPersist(s, t, c);
    DeskMoves(s, t);
    if DeskStep(s, t).Some? { Offers.NoneStaleStep(s.desk, DeskStep(s, t).value, s.calls[c].offer); }
  }

  /** What the write of a PATCH leaves. */
  lemma PatchDecided(s: State, c: nat)
    requires FlightsOk(s) && Enabled(s, PatchWrite(c)) && Calm(s, PatchWrite(c))
    ensures YesMeans(Apply(s, PatchWrite(c)), c) && Yes(Apply(s, PatchWrite(c)), c, s.calls[c].offer)
  {
    assert FlightOf(s, c);
  }

  lemma VerdictsStayOk(s: State, t: Step)
    requires FlightsOk(s) && CallsOk(s) && VerdictsOk(s) && Enabled(s, t) && Calm(s, t)
    ensures VerdictsOk(Apply(s, t))
  {
    var s' := Apply(s, t);
    if t.PatchWrite? { PatchDecided(s, t.c); }
    forall c ensures YesMeans(s', c) {
      assert YesMeans(s, c) && NetworkOk(s, c);
      if c in s.replies && s.replies[c] { YesStays(s, t, c); }
    }
    forall o | o in s'.desk.table && Decided(s'.desk.table[o].status) ensures SomeYes(s', o) {
      OnlyPatchesDecide(s, t, o);
      if !(t.PatchWrite? && s.calls[t.c].offer == o) {
        assert SomeYes(s, o);
        var c :| Yes(s, c, o);
        assert YesMeans(s, c) && NetworkOk(s, c);
        YesStays(s, t, c);
        assert Yes(s', c, o);
      }
    }
  }

  lemma OnlyPatchesDecide(s: State, t: Step, o: Uuid)
    requires FlightsOk(s) && Enabled(s, t) && o in Apply(s, t).desk.table && Decided(Apply(s, t).desk.table[o].status)
    ensures (o in s.desk.table && Decided(s.desk.table[o].status)) || (t.PatchWrite? && s.calls[t.c].offer == o)
  {
    DeskMoves(s, t);
    if t.PatchWrite? {
      assert FlightOf(s, t.c);
    } else if t.OfferStep? {
      assert DecidesForCall(s, t.os.h);
      assert forall c :: c in s.handling ==> s.handling[c] in s.handling.Values;
    }
  }

  lemma DecisionsStayOk(s: State, t: Step)
    requires DecisionsOk(s) && HeldNotCommitted(s) && Enabled(s, t)
    ensures DecisionsOk(Apply(s, t))
  {
    var s' := Apply(s, t);
    forall i | 0 <= i < |s'.decisions| ensures RowOfCall(s', s'.decisions[i]) {
      if i < |s.decisions| {
        assert RowOfCall(s, s.decisions[i]);
        CallsPersist(s, t, s.decisions[i].caller);
      }
    }
    forall c | At(s', c, Committed) ensures HasRow(s', c) {
      assert c in s.calls;
      CallsPersist(s, t, c);
      if t == Commit(c) {
        assert s'.decisions[|s.decisions|].caller == c;
      } else {
        assert At(s, c, Committed) && HasRow(s, c);
        var i :| 0 <= i < |s.decisions| && s.decisions[i].caller == c;
        assert s'.decisions[i] == s.decisions[i];
      }
    }
    if t.Commit? {
      assert Holds(s.calls[t.c]);
    }
  }

  /** The same grant, whatever its status. */
  predicate SameGrant(a: Access, b: Access) {
    a.seller == b.seller && a.customer == b.customer && a.request == b.request && a.offer == b.offer &&
        a.expires == b.expires
  }

  /** Rows are only added, and only their status changes, to REVOKED and for good. */
  lemma AccessPersists(s: State, t: Step, i: nat)
    requires Enabled(s, t) && i < |s.access|
    ensures var s' := Apply(s, t);
            && i < |s'.access| && SameGrant(s'.access[i], s.access[i])
            && (s.access[i].status == Revoked ==> s'.access[i].status == Revoked)
  {
  }

  lemma ApprovalPersists(s: State, t: Step, a: Access, b: Access)
    requires Enabled(s, t) && OffersGrow(s.desk.table, Apply(s, t).desk.table) && Approved(s, a) && SameGrant(a, b)
    ensures Approved(Apply(s, t), b)
  {
    var s' := Apply(s, t);
    var i :| 0 <= i < |s.decisions| && GrantedBy(a, s.decisions[i], s.desk.table);
    assert s'.decisions[i] == s.decisions[i];
    assert GrantedBy(b, s'.decisions[i], s'.desk.table);
  }

  lemma NewGrantsApproved(s: State, c: nat, i: nat)
    requires Enabled(s, Commit(c)) && CallsOk(s) && i < |s.calls[c].customers|
    ensures Approved(Apply(s, Commit(c)), Grants(s.calls[c])[i])
  {
    var s' := Apply(s, Commit(c));
    var call := s.calls[c];
    assert ReadsOk(call, s.desk.table) && CustomersOk(call);
    assert GrantedBy(Grants(call)[i], s'.decisions[|s.decisions|], s'.desk.table);
  }

  lemma AccessStaysOk(s: State, t: Step)
    requires Offers.OneLive(s.desk.table) && CallsOk(s) && HeldNotCommitted(s) && AccessOk(s) && Enabled(s, t)
    ensures AccessOk(Apply(s, t))
  {
    OffersPersist(s, t);
    var s' := Apply(s, t);
    forall i | 0 <= i < |s'.access| ensures Approved(s', s'.access[i]) {
      if i < |s.access| {
        AccessPersists(s, t, i);
        ApprovalPersists(s, t, s.access[i], s'.access[i]);
      } else {
        NewGrantsApproved(s, t.c, i - |s.access|);
      }
    }
    forall i, j | 0 <= i < j < |s'.access|
      ensures s'.access[i].offer != s'.access[j].offer || s'.access[i].customer != s'.access[j].customer
    {
      if j < |s.access| {
        AccessPersists(s, t, i);
        AccessPersists(s, t, j);
      } else if i < |s.access| {
        assert Approved(s, s.access[i]) && Holds(s.calls[t.c]);
      } else {
        assert CustomersOk(s.calls[t.c]);
      }
    }
  }

  lemma {:induction false} CustomersOfAppend(a: seq<Access>, b: seq<Access>, o: Uuid)
    ensures CustomersOf(a + b, o) == CustomersOf(a, o) + CustomersOf(b, o)
  {
    if b == [] {
      assert a + b == a;
    } else {
      CustomersOfAppend(a, b[..|b| - 1], o);
      assert (a + b)[..|a + b| - 1] == a + b[..|b| - 1];
    }
  }

  /** Rows written under one offer list their customers under it and none under another. */
  lemma {:induction false} CustomersOfRows(rows: seq<Access>, customers: seq<Uuid>, offer: Uuid, o: Uuid)
    requires |rows| == |customers|
    requires forall i :: 0 <= i < |rows| ==> rows[i].offer == offer && rows[i].customer == customers[i]
    ensures CustomersOf(rows, o) == if offer == o then customers else []
  {
    if rows != [] {
      var n := |rows| - 1;
      CustomersOfRows(rows[..n], customers[..n], offer, o);
      assert customers[..n] + [customers[n]] == customers;
    }
  }

  lemma {:induction false} CustomersOfRevoke(access: seq<Access>, i: nat, o: Uuid)
    requires i < |access|
    ensures CustomersOf(access[i := access[i].(status := Revoked)], o) == CustomersOf(access, o)
  {
    var n := |access| - 1;
    var access' := access[i := access[i].(status := Revoked)];
    if i < n {
      CustomersOfRevoke(access[..n], i, o);
      assert access'[..n] == access[..n][i := access[i].(status := Revoked)];
    } else {
      assert access'[..n] == access[..n];
    }
  }

  lemma CustomersOfCommit(access: seq<Access>, call: Call, o: Uuid)
    ensures CustomersOf(access + Grants(call), o) == CustomersOf(access, o)
              + if call.offer == o then call.customers else []
  {
    CustomersOfAppend(access, Grants(call), o);
    CustomersOfRows(Grants(call), call.customers, call.offer, o);
  }

  /** Adding one decision on an undecided offer together with its customers. */
  lemma GrantsOkWithDecision(s: State, s': State, d: Decision)
    requires GrantsOk(s) && s'.decisions == s.decisions + [d]
    requires forall i :: 0 <= i < |s.decisions| ==> s.decisions[i].offer != d.offer
    requires forall o :: CustomersOf(s'.access, o) == CustomersOf(s.access, o) + if d.offer == o then d.read else []
    ensures GrantsOk(s')
  {
    forall o ensures CustomersOf(s'.access, o) == if d.offer == o then d.read else CustomersOf(s.access, o) {
      assert CustomersOf(s.access, o) + [] == CustomersOf(s.access, o);
      assert [] + d.read == d.read;
    }
    forall o | forall i :: 0 <= i < |s'.decisions| ==>
        s'.decisions[i].offer != o ensures CustomersOf(s'.access, o) == [] {
      assert s'.decisions[|s.decisions|] == d;
      assert forall i :: 0 <= i < |s.decisions| ==> s'.decisions[i] == s.decisions[i];
    }
  }

  lemma GrantsStayOk(s: State, t: Step)
    requires GrantsOk(s) && HeldNotCommitted(s) && Enabled(s, t)
    ensures GrantsOk(Apply(s, t))
  {
    var s' := Apply(s, t);
    match t
    case Commit(c) =>
      forall o { CustomersOfCommit(s.access, s.calls[c], o); }
      assert Holds(s.calls[c]);
      GrantsOkWithDecision(s, s', DecisionOf(s.calls[c], c));
    case Revoke(i) =>
      forall o ensures CustomersOf(s'.access, o) == CustomersOf(s.access, o) { CustomersOfRevoke(s.access, i, o); }
    case _ =>
  }

  lemma SoundStep(s: State, t: Step)
    requires Sound(s) && Enabled(s, t)
    ensures Sound(Apply(s, t))
  {
    OffersPersist(s, t);
    FlightsStayOk(s, t);
    CallsStayOk(s, t);
    StaysOneHolder(s, t);
    HeldStaysNotCommitted(s, t);
    DecisionsStayOk(s, t);
    AccessStaysOk(s, t);
    GrantsStayOk(s, t);
  }

  lemma {:induction false} SoundRun(s: State, steps: seq<Step>)
    requires Sound(s) && Legal(s, steps)
    ensures Sound(Exec(s, steps))
    decreases |steps|
  {
    if steps != [] {
      SoundStep(s, steps[0]);
      SoundRun(Apply(s, steps[0]), steps[1..]);
    }
  }

  lemma InvStep(s: State, t: Step)
    requires Inv(s) && Enabled(s, t) && Calm(s, t)
    ensures Inv(Apply(s, t))
  {
    SoundStep(s, t);
    VerdictsStayOk(s, t);
  }

  lemma {:induction false} InvRun(s: State, steps: seq<Step>)
    requires Inv(s) && Legal(s, steps) && CalmRun(s, steps)
    ensures Inv(Exec(s, steps))
    decreases |steps|
  {
    if steps != [] {
      InvStep(s, steps[0]);
      InvRun(Apply(s, steps[0]), steps[1..]);
    }
  }

  lemma InvInit()
    ensures Inv(INIT)
  {
  }

  // ---------------------------------------------------------------- decisions

  /** Cross-service decision safety. In every run each offer has at most one committed decision,
      made by a call that was told yes, and an approval carries exactly one grant for each
      participant it read, at the positions `at` and in their order, a rejection none. In every calm
      run a committed decision is the offer's status in offer-service. */
  lemma DecisionsSafe(steps: seq<Step>, i: nat) returns (at: seq<nat>)
    requires Legal(INIT, steps) && i < |Exec(INIT, steps).decisions|
    ensures var s := Exec(INIT, steps); GrantsAt(s.access, s.decisions[i].offer, at, s.decisions[i].read)
    ensures var s := Exec(INIT, steps);
            var d := s.decisions[i];
            && (forall j :: 0 <= j < |s.decisions| && s.decisions[j].offer == d.offer ==> j == i)
            && d.offer in s.desk.table && Yes(s, d.caller, d.offer)
            && CustomersOf(s.access, d.offer) == d.read && Distinct(d.read)
            && (d.approve <==> d.read != [])
            && (CalmRun(INIT, steps) ==>
                  s.desk.table[d.offer].status == if d.approve then Offers.Approved else Offers.Rejected)
  {
    InvInit();
    SoundRun(INIT, steps);
    var s := Exec(INIT, steps);
    var d := s.decisions[i];
    at := CustomersOfAre(s.access, d.offer);
    CommittedWasTold(s, i);
    assert CustomersOk(s.calls[d.caller]) && ReadsOk(s.calls[d.caller], s.desk.table);
    if CalmRun(INIT, steps) {
      InvRun(INIT, steps);
      assert YesMeans(s, d.caller);
    }
  }

  /** The grants under one offer and no others, in order, and the customers they are to. */
  ghost predicate GrantsAt(access: seq<Access>, o: Uuid, at: seq<nat>, customers: seq<Uuid>) {
    && Increasing(at) && (forall k: int :: k in at <==> 0 <= k < |access| && access[k].offer == o)
    && |customers| == |at| && forall i :: 0 <= i < |at| ==> at[i] < |access| && access[at[i]].customer == customers[i]
  }

  lemma GrantsAtMore(access: seq<Access>, a: Access, o: Uuid, at: seq<nat>, customers: seq<Uuid>)
    requires GrantsAt(access, o, at, customers)
    ensures a.offer == o ==> GrantsAt(access + [a], o, at + [|access|], customers + [a.customer])
    ensures a.offer != o ==> GrantsAt(access + [a], o, at, customers)
  {
    assert forall k :: 0 <= k < |access| ==> (access + [a])[k] == access[k];
    assert forall i :: 0 <= i < |at| ==> at[i] in at;
  }

  lemma {:induction false} CustomersOfAre(access: seq<Access>, o: Uuid) returns (at: seq<nat>)
    ensures GrantsAt(access, o, at, CustomersOf(access, o))
  {
    if access == [] {
      at := [];
    } else {
      var n := |access| - 1;
      var before := CustomersOfAre(access[..n], o);
      GrantsAtMore(access[..n], access[n], o, before, CustomersOf(access[..n], o));
      at := if access[n].offer == o then before + [n] else before;
      assert access[..n] + [access[n]] == access;
      assert CustomersOf(access[..n], o) + [] == CustomersOf(access[..n], o);
    }
  }

  /** Every decision is that of a committed call that was told yes. */
  lemma CommittedWasTold(s: State, i: nat)
    requires Sound(s) && i < |s.decisions|
    ensures RowOfCall(s, s.decisions[i]) && Yes(s, s.decisions[i].caller, s.decisions[i].offer)
    ensures At(s, s.decisions[i].caller, Committed)
  {
    assert RowOfCall(s, s.decisions[i]);
    assert At(s, s.decisions[i].caller, Committed) && NetworkOk(s, s.decisions[i].caller);
  }

  /** The converse, exactly: a decided offer has its decision committed if and only if some call
      that was told yes about it went on to commit. */
  lemma DecidedOfferHasDecisionIff(steps: seq<Step>, o: Uuid)
    requires Legal(INIT, steps) && CalmRun(INIT, steps)
    requires o in Exec(INIT, steps).desk.table && Decided(Exec(INIT, steps).desk.table[o].status)
    ensures var s := Exec(INIT, steps);
            && SomeYes(s, o)
            && ((exists i :: 0 <= i < |s.decisions| && s.decisions[i].offer == o)
                <==> exists c :: Yes(s, c, o) && At(s, c, Committed))
  {
    InvInit();
    InvRun(INIT, steps);
    var s := Exec(INIT, steps);
    if i :| 0 <= i < |s.decisions| && s.decisions[i].offer == o {
      CommittedWasTold(s, i);
    }
    if c :| Yes(s, c, o) && At(s, c, Committed) {
      assert HasRow(s, c);
      var i :| 0 <= i < |s.decisions| && s.decisions[i].caller == c;
      assert RowOfCall(s, s.decisions[i]);
    }
  }

  /** Every call that was told yes about the offer is dead, and no PATCH on it is in mid-flight. */
  ghost predicate Orphaned(s: State, o: Uuid) {
    && o in s.desk.table && Decided(s.desk.table[o].status)
    && (forall c :: Yes(s, c, o) ==> At(s, c, Aborted))
    && (forall c :: c in s.handling && c in s.calls ==> s.calls[c].offer != o)
  }

  /** Then the offer stays decided without a decision or a grant for good: no later call can make
      up for it. */
  lemma {:induction false} OrphansStayOrphans(s: State, steps: seq<Step>, o: Uuid)
    requires Inv(s) && Legal(s, steps) && CalmRun(s, steps) && Orphaned(s, o)
    ensures var s' := Exec(s, steps);
            && o in s'.desk.table && Decided(s'.desk.table[o].status)
            && (forall i :: 0 <= i < |s'.decisions| ==> s'.decisions[i].offer != o)
            && (forall i :: 0 <= i < |s'.access| ==> s'.access[i].offer != o)
    decreases |steps|
  {
    if steps == [] {
      forall i | 0 <= i < |s.decisions| ensures s.decisions[i].offer != o {
        CommittedWasTold(s, i);
        assert Yes(s, s.decisions[i].caller, o) ==> At(s, s.decisions[i].caller, Aborted);
      }
      forall i | 0 <= i < |s.access| ensures s.access[i].offer != o {
        assert Approved(s, s.access[i]);
      }
    } else {
      var t := steps[0];
      InvStep(s, t);
      OrphanStep(s, t, o);
      OrphansStayOrphans(Apply(s, t), steps[1..], o);
    }
  }

  lemma OrphanStep(s: State, t: Step, o: Uuid)
    requires Inv(s) && Enabled(s, t) && Orphaned(s, o)
    ensures Orphaned(Apply(s, t), o)
  {
    var s' := Apply(s, t);
    assert SomeYes(s, o);
    var told :| Yes(s, told, o);
    assert YesMeans(s, told) && NetworkOk(s, told);
    YesStays(s, t, told);
    forall c | Yes(s', c, o) ensures At(s', c, Aborted) { OrphanCall(s, t, c, o); }
    forall c | c in s'.handling && c in s'.calls ensures s'.calls[c].offer != o { OrphanPatch(s, t, c, o); }
  }

  lemma OrphanCall(s: State, t: Step, c: nat, o: Uuid)
    requires Enabled(s, t) && Orphaned(s, o) && NetworkOk(s, c) && Yes(Apply(s, t), c, o)
    ensures At(Apply(s, t), c, Aborted)
  {
    assert c in s.calls;
    CallsPersist(s, t, c);
    assert Yes(s, c, o) && At(s, c, Aborted);
  }

  lemma OrphanPatch(s: State, t: Step, c: nat, o: Uuid)
    requires Enabled(s, t) && Orphaned(s, o) && c in Apply(s, t).handling && c in Apply(s, t).calls && NetworkOk(s, c)
    ensures Apply(s, t).calls[c].offer != o
  {
    assert c in s.calls;
    CallsPersist(s, t, c);
  }

  // ---------------------------------------------------------------- contact permission

  /** `status = 'GRANTED' AND (expires_at IS NULL OR expires_at > now())` */
  predicate Effective(a: Access, now: int) {
    a.status == Granted && (a.expires.None? || a.expires.value > now)
  }

  /** `ListGrantedForSellerRequest`, as the customers it leads to. */
  function Contacts(access: seq<Access>, seller: Uuid, request: Uuid, now: int): seq<Uuid> {
    if access == [] then []
    else
      var last := access[|access| - 1];
      Contacts(access[..|access| - 1], seller, request, now)
      + if last.seller == seller && last.request == request && Effective(last, now) then [last.customer] else []
  }

  /** `CountEffectiveAccess`; no request asks about any. */
  function CountEffective(access: seq<Access>, seller: Uuid, customer: Uuid, request: Option<Uuid>, now: int): nat {
    if access == [] then 0
    else
      var last := access[|access| - 1];
      CountEffective(access[..|access| - 1], seller, customer, request, now)
      + if last.seller == seller && last.customer == customer
           && (request.None? || last.request == request.value) && Effective(last, now) then 1 else 0
  }

  /** The row lets that seller reach its customer about that request now. */
  predicate Permits(a: Access, seller: Uuid, request: Uuid, now: int) {
    && a.seller == seller && a.request == request
    && a.status == Granted && (a.expires.None? || a.expires.value > now)
  }

  /** The positions of the rows that permit, and no others, in order, and their customers. */
  ghost predicate PermitsAt(access: seq<Access>, seller: Uuid, request: Uuid, now: int, at: seq<nat>,
                            customers: seq<Uuid>) {
    && Increasing(at) && (forall k: int :: k in at <==> 0 <= k < |access| && Permits(access[k], seller, request, now))
    && |customers| == |at| && forall i :: 0 <= i < |at| ==> at[i] < |access| && access[at[i]].customer == customers[i]
  }

  lemma PermitsAtMore(access: seq<Access>, a: Access, seller: Uuid, request: Uuid, now: int, at: seq<nat>,
                      customers: seq<Uuid>)
    requires PermitsAt(access, seller, request, now, at, customers)
    ensures Permits(a, seller, request, now) ==>
              PermitsAt(access + [a], seller, request, now, at + [|access|], customers + [a.customer])
    ensures !Permits(a, seller, request, now) ==> PermitsAt(access + [a], seller, request, now, at, customers)
  {
    assert forall k :: 0 <= k < |access| ==> (access + [a])[k] == access[k];
    assert forall i :: 0 <= i < |at| ==> at[i] in at;
  }

  /** The list has one entry for each row that permits, in their order. */
  lemma {:induction false} ContactsAre(access: seq<Access>, seller: Uuid, request: Uuid, now: int)
    returns (at: seq<nat>)
    ensures PermitsAt(access, seller, request, now, at, Contacts(access, seller, request, now))
  {
    if access == [] {
      at := [];
    } else {
      var n := |access| - 1;
      var before := ContactsAre(access[..n], seller, request, now);
      var customers := Contacts(access[..n], seller, request, now);
      PermitsAtMore(access[..n], access[n], seller, request, now, before, customers);
      ContactsMore(access, seller, request, now);
      at := if Permits(access[n], seller, request, now) then before + [n] else before;
      assert access[..n] + [access[n]] == access;
    }
  }

  lemma ContactsMore(access: seq<Access>, seller: Uuid, request: Uuid, now: int)
    requires access != []
    ensures var n := |access| - 1;
            var customers := Contacts(access[..n], seller, request, now);
            Contacts(access, seller, request, now) ==
            if Permits(access[n], seller, request, now) then customers + [access[n].customer] else customers
  {
    var customers := Contacts(access[..|access| - 1], seller, request, now);
    assert customers + [] == customers;
  }

  /** The list names a customer exactly when some effective row does. */
  lemma ContactsSpec(access: seq<Access>, seller: Uuid, request: Uuid, now: int, customer: Uuid)
    ensures customer in Contacts(access, seller, request, now) <==>
            exists i :: 0 <= i < |access| && access[i].seller == seller && access[i].request == request
                        && access[i].customer == customer && Effective(access[i], now)
  {
    var at := ContactsAre(access, seller, request, now);
    var list := Contacts(access, seller, request, now);
    if customer in list {
      var i :| 0 <= i < |list| && list[i] == customer;
      assert at[i] in at;
    }
    if i :| 0 <= i < |access| && access[i].seller == seller && access[i].request == request
            && access[i].customer == customer && Effective(access[i], now) {
      assert Permits(access[i], seller, request, now) && i in at;
      var k :| 0 <= k < |at| && at[k] == i;
      assert list[k] == customer;
    }
  }

  lemma {:induction false} CountSpec(access: seq<Access>, seller: Uuid, customer: Uuid, request: Option<Uuid>, now: int)
    ensures CountEffective(access, seller, customer, request, now) > 0 <==>
            exists i :: 0 <= i < |access| && access[i].seller == seller && access[i].customer == customer
                        && (request.None? || access[i].request == request.value) && Effective(access[i], now)
  {
    if access != [] {
      var n := |access| - 1;
      CountSpec(access[..n], seller, customer, request, now);
      assert forall i :: 0 <= i < n ==> access[..n][i] == access[i];
    }
  }

  /** The internal yes-or-no check agrees with the list, about one request and about any. */
  lemma CheckAgreesWithList(access: seq<Access>, seller: Uuid, customer: Uuid, request: Uuid, now: int)
    ensures CountEffective(access, seller, customer, Some(request), now) > 0
            <==> customer in Contacts(access, seller, request, now)
    ensures CountEffective(access, seller, customer, None, now) > 0
            <==> exists r :: customer in Contacts(access, seller, r, now)
  {
    CountSpec(access, seller, customer, Some(request), now);
    CountSpec(access, seller, customer, None, now);
    forall r ensures customer in Contacts(access, seller, r, now) <==>
                     exists i :: 0 <= i < |access| && access[i].seller == seller && access[i].request == r
                                 && access[i].customer == customer && Effective(access[i], now) {
      ContactsSpec(access, seller, r, now, customer);
    }
    if CountEffective(access, seller, customer, None, now) > 0 {
      var i :| 0 <= i < |access| && access[i].seller == seller && access[i].customer == customer &&
          Effective(access[i], now);
      assert customer in Contacts(access, seller, access[i].request, now);
    }
  }

  /** Over all calm runs a seller has at most one contact-access row per customer and request.
      Nothing in admin-service says so: it follows from its own unique keys together with
      offer-service's one live offer per seller and request. */
  lemma OneRowPerTriple(steps: seq<Step>, i: nat, j: nat)
    requires Legal(INIT, steps) && CalmRun(INIT, steps)
    requires var a := Exec(INIT, steps).access;
             i < |a| && j < |a| && a[i].seller == a[j].seller && a[i].customer == a[j].customer &&
                 a[i].request == a[j].request
    ensures i == j
  {
    InvInit();
    InvRun(INIT, steps);
    OneRow(Exec(INIT, steps), i, j);
  }

  /** So in every calm run no contact is listed twice. */
  lemma NoContactTwice(steps: seq<Step>, seller: Uuid, request: Uuid, now: int)
    requires Legal(INIT, steps) && CalmRun(INIT, steps)
    ensures Distinct(Contacts(Exec(INIT, steps).access, seller, request, now))
  {
    var access := Exec(INIT, steps).access;
    var at := ContactsAre(access, seller, request, now);
    var list := Contacts(access, seller, request, now);
    forall i, j | 0 <= i < j < |list| ensures list[i] != list[j] {
      assert at[i] in at && at[j] in at && at[i] != at[j];
      if list[i] == list[j] { OneRowPerTriple(steps, at[i], at[j]); }
    }
  }

  lemma OneRow(s: State, i: nat, j: nat)
    requires Inv(s) && i < |s.access| && j < |s.access|
    requires s.access[i].seller == s.access[j].seller && s.access[i].customer == s.access[j].customer
    requires s.access[i].request == s.access[j].request
    ensures i == j
  {
    GrantOnApprovedOffer(s, i);
    GrantOnApprovedOffer(s, j);
  }

  lemma GrantOnApprovedOffer(s: State, i: nat)
    requires Inv(s) && i < |s.access|
    ensures var a := s.access[i];
            a.offer in s.desk.table && s.desk.table[a.offer].status == Offers.Approved
            && s.desk.table[a.offer].seller == a.seller && s.desk.table[a.offer].request == a.request
  {
    assert Approved(s, s.access[i]);
    var k :| 0 <= k < |s.decisions| && GrantedBy(s.access[i], s.decisions[k], s.desk.table);
    CommittedWasTold(s, k);
    assert YesMeans(s, s.decisions[k].caller);
  }

  /** So a revocation is final: whatever happens after it, no lookup that reads the grants then
      shows the seller that customer for that request, and the check never says yes. */
  lemma {:induction false} RevocationIsFinal(s: State, steps: seq<Step>, i: nat, now: int)
    requires Inv(s) && Legal(s, steps) && CalmRun(s, steps) && i < |s.access| && s.access[i].status == Revoked
    ensures var a, s' := s.access[i], Exec(s, steps);
            && a.customer !in Contacts(s'.access, a.seller, a.request, now)
            && CountEffective(s'.access, a.seller, a.customer, Some(a.request), now) == 0
    decreases |steps|
  {
    var a := s.access[i];
    if steps == [] {
      ContactsSpec(s.access, a.seller, a.request, now, a.customer);
      CheckAgreesWithList(s.access, a.seller, a.customer, a.request, now);
      forall j | 0 <= j < |s.access| && s.access[j].seller == a.seller && s.access[j].request == a.request
                 && s.access[j].customer == a.customer
        ensures !Effective(s.access[j], now)
      {
        OneRow(s, i, j);
      }
    } else {
      InvStep(s, steps[0]);
      AccessPersists(s, steps[0], i);
      RevocationIsFinal(Apply(s, steps[0]), steps[1..], i, now);
    }
  }

  /** A call that has read its customers keeps them and what it read of its offer. */
  predicate HasRead(stage: Stage) { stage != Started && stage != HasOffer && stage != Aborted }

  lemma {:induction false} ReadStays(s: State, steps: seq<Step>, c: nat)
    requires Legal(s, steps) && c in s.calls && s.calls[c].stage != Started && s.calls[c].stage != HasOffer
    ensures var s' := Exec(s, steps);
            c in s'.calls && s'.calls[c].customers == s.calls[c].customers && s'.calls[c].request == s.calls[c].request
    decreases |steps|
  {
    if steps != [] {
      ReadStaysStep(s, steps[0], c);
      ReadStays(Apply(s, steps[0]), steps[1..], c);
    }
  }

  lemma ReadStaysStep(s: State, t: Step, c: nat)
    requires Enabled(s, t) && c in s.calls && s.calls[c].stage != Started && s.calls[c].stage != HasOffer
    ensures var s' := Apply(s, t);
            && c in s'.calls && s'.calls[c].customers == s.calls[c].customers &&
                 s'.calls[c].request == s.calls[c].request
            && s'.calls[c].stage != Started && s'.calls[c].stage != HasOffer
  {
  }

  /** The customers of an approval are the participants its request had at a moment of the run. */
  lemma {:induction false} CustomersWereParticipants(s: State, steps: seq<Step>, c: nat) returns (k: nat)
    requires Legal(s, steps) && (c in s.calls ==> !HasRead(s.calls[c].stage))
    requires var s' := Exec(s, steps); c in s'.calls && HasRead(s'.calls[c].stage) && s'.calls[c].approve
    ensures k <= |steps| && Legal(s, steps[..k])
    ensures var call, lists := Exec(s, steps).calls[c], Exec(s, steps[..k]).participants;
            call.request in lists && lists[call.request] == call.customers
    decreases |steps|
  {
    var t := steps[0];
    if t == GetCustomers(c) {
      k := 0;
      ReadStays(Apply(s, t), steps[1..], c);
      CallsPersistRun(Apply(s, t), steps[1..], c);
      ReadsParticipants(s, c);
    } else {
      StillUnread(s, t, c);
      var n := CustomersWereParticipants(Apply(s, t), steps[1..], c);
      k := n + 1;
      assert steps[..k][0] == t && steps[..k][1..] == steps[1..][..n];
    }
  }

  lemma StillUnread(s: State, t: Step, c: nat)
    requires Enabled(s, t) && t != GetCustomers(c) && (c in s.calls ==> !HasRead(s.calls[c].stage))
    ensures c in Apply(s, t).calls ==> !HasRead(Apply(s, t).calls[c].stage)
  {
  }

  lemma ReadsParticipants(s: State, c: nat)
    requires Enabled(s, GetCustomers(c)) && s.calls[c].approve
    ensures var call := Apply(s, GetCustomers(c)).calls[c];
            call.request in s.participants && call.customers == s.participants[call.request]
  {
  }

  lemma {:induction false} CallsPersistRun(s: State, steps: seq<Step>, c: nat)
    requires Legal(s, steps) && c in s.calls
    ensures c in Exec(s, steps).calls && Exec(s, steps).calls[c].approve == s.calls[c].approve
    decreases |steps|
  {
    if steps != [] {
      CallsPersist(s, steps[0], c);
      CallsPersistRun(Apply(s, steps[0]), steps[1..], c);
    }
  }

  /** In every run every contact shown to a seller for a request traces back to a committed
      approval of that seller's own offer on that request, to a row still granted and unexpired,
      and to a moment of the run when the customer took part in the request: the participants of
      that moment are the list the approval read. In every calm run that offer is still APPROVED. */
  lemma ContactsTraceBack(steps: seq<Step>, seller: Uuid, request: Uuid, now: int, customer: Uuid)
    returns (row: nat, decision: nat, moment: nat)
    requires Legal(INIT, steps) && customer in Contacts(Exec(INIT, steps).access, seller, request, now)
    ensures var s := Exec(INIT, steps);
            && row < |s.access| && decision < |s.decisions|
            && var a, d := s.access[row], s.decisions[decision];
            && a.seller == seller && a.request == request && a.customer == customer
            && Effective(a, now) && a.expires == None
            && d.approve && d.offer == a.offer && customer in d.read
            && d.offer in s.desk.table && s.desk.table[d.offer].seller == seller
            && s.desk.table[d.offer].request == request
            && (CalmRun(INIT, steps) ==> s.desk.table[d.offer].status == Offers.Approved)
    ensures moment <= |steps| && Legal(INIT, steps[..moment])
    ensures var lists := Exec(INIT, steps[..moment]).participants;
            request in lists && lists[request] == Exec(INIT, steps).decisions[decision].read
  {
    InvInit();
    SoundRun(INIT, steps);
    var s := Exec(INIT, steps);
    ContactsSpec(s.access, seller, request, now, customer);
    row :| 0 <= row < |s.access| && s.access[row].seller == seller && s.access[row].request == request
           && s.access[row].customer == customer && Effective(s.access[row], now);
    assert Approved(s, s.access[row]);
    decision :| 0 <= decision < |s.decisions| && GrantedBy(s.access[row], s.decisions[decision], s.desk.table);
    var c := s.decisions[decision].caller;
    assert RowOfCall(s, s.decisions[decision]) && ReadsOk(s.calls[c], s.desk.table);
    moment := CustomersWereParticipants(INIT, steps, c);
    if CalmRun(INIT, steps) {
      InvRun(INIT, steps);
      GrantOnApprovedOffer(s, row);
    }
  }
}
