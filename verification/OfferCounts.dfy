/** How request-service learns how many offers stand on a request: every route that may change
    the live set changes, counts and sends the whole count. Reports are best effort: they may be
    lost, delayed, delivered twice and in any order, while both services go on changing. */
module OfferCounts {
  import opened Base
  import Offers
  import Demand

  /** How many offers have entered and left the live set of a request. */
  datatype Tally = Tally(entered: nat, left: nat)

  /** A count on its way, and the tally when it was taken. */
  datatype Report = Report(request: Uuid, count: nat, tally: Tally)

  datatype State = State(
    offers: Offers.Table,
    tallies: map<Uuid, Tally>,
    due: map<nat, Uuid>,       // routes that have changed an offer and not counted yet
    reports: map<nat, Report>, // sent and perhaps not delivered yet
    db: Demand.Db,             // request-service
    applied: map<Uuid, Tally>) // per request, the tally of the last report applied

  datatype Step =
    | Handle(k: nat, task: Offers.Task)         // the change of one route, uninterrupted
    | Count(k: nat)                             // the same route's count_live_offers, and the send
    | Crash(k: nat)                             // the route ends before it counts
    | Deliver(k: nat)                           // PUT .../offers/count; the report may arrive again
    | Lose(k: nat)
    | Other(op: Demand.Op, newId: Uuid)         // anything else request-service does

  function TallyOf(s: State, r: Uuid): Tally { if r in s.tallies then s.tallies[r] else Tally(0, 0) }

  ghost predicate Enabled(s: State, t: Step) {
    match t
    case Handle(k, task) => k !in s.due && k !in s.reports && Offers.Atomically(s.offers, task).Some?
    case Count(k) => k in s.due
    case Crash(k) => k in s.due
    case Deliver(k) => k in s.reports
    case Lose(k) => k in s.reports
    case Other(op, newId) => !op.SetOffers? && newId !in s.db.requests
  }

  /** The endpoint refuses a count that does not fit its 32-bit field, or an unknown request. */
  predicate Arrives(s: State, rep: Report) {
    rep.count <= Demand.MAX_INT32 && rep.request in s.db.requests && rep.request in s.db.participants
  }

  /** The tally after a handler. */
  function Tallied(t: Offers.Table, task: Offers.Task, r: Uuid, tally: Tally): Tally
    requires task.Create? || task.offer in t
  {
    if Offers.KeepsLive(t, task, r) then tally
    else if task.Create? then tally.(entered := tally.entered + 1)
    else tally.(left := tally.left + 1)
  }

  /** The change itself; an update of terms sends no report. */
  ghost function Handled(s: State, k: nat, task: Offers.Task): State
    requires Offers.Atomically(s.offers, task).Some?
  {
    var r := Offers.RequestOf(s.offers, task);
    s.(offers := Offers.Atomically(s.offers, task).value,
       tallies := s.tallies[r := Tallied(s.offers, task, r, TallyOf(s, r))],
       due := if task.Update? then s.due else s.due[k := r])
  }

  ghost function Counted(s: State, k: nat): State
    requires k in s.due
  {
    var r := s.due[k];
    s.(due := s.due - {k}, reports := s.reports[k := Report(r, Offers.CountLive(s.offers, r), TallyOf(s, r))])
  }

  ghost function Delivered(s: State, k: nat): State
    requires k in s.reports
  {
    var rep := s.reports[k];
    if Arrives(s, rep) then
      s.(db := Demand.WithOffers(s.db, rep.request, rep.count), applied := s.applied[rep.request := rep.tally])
    else s
  }

  ghost function Apply(n: Demand.Names, s: State, t: Step): State
    requires Enabled(s, t)
  {
    match t
    case Handle(k, task) => Handled(s, k, task)
    case Count(k) => Counted(s, k)
    case Crash(k) => s.(due := s.due - {k})
    case Deliver(k) => Delivered(s, k)
    case Lose(k) => s.(reports := s.reports - {k})
    case Other(op, newId) => s.(db := Demand.Serial(n, s.db, op, newId).db)
  }

  ghost predicate Legal(n: Demand.Names, s: State, steps: seq<Step>)
    decreases |steps|
  {
    steps == [] || (Enabled(s, steps[0]) && Legal(n, Apply(n, s, steps[0]), steps[1..]))
  }

  ghost function Exec(n: Demand.Names, s: State, steps: seq<Step>): State
    requires Legal(n, s, steps)
    decreases |steps|
  {
    if steps == [] then s else Exec(n, Apply(n, s, steps[0]), steps[1..])
  }

  /** A number is off from the live count by exactly the offers that have entered and left the
      live set since the tally it goes with. */
  predicate Off(number: int, was: Tally, live: int, now: Tally) {
    && was.entered <= now.entered && was.left <= now.left
    && number + (now.entered - was.entered) - (now.left - was.left) == live
  }

  ghost predicate ReportsOk(s: State) {
    forall k :: k in s.reports ==>
      var rep := s.reports[k];
      Off(rep.count, rep.tally, Offers.CountLive(s.offers, rep.request), TallyOf(s, rep.request))
  }

  ghost predicate TotalsOk(s: State) {
    forall r :: r in s.applied ==>
      && r in s.db.requests
      && Off(s.db.requests[r].totalOffers, s.applied[r], Offers.CountLive(s.offers, r), TallyOf(s, r))
  }

  ghost predicate Inv(s: State) {
    Demand.IdsOk(s.db) && ReportsOk(s) && TotalsOk(s)
  }

  /** What applying a report does to request-service: that one total, and nothing else. */
  ghost predicate OnlyTotal(db: Demand.Db, r: Uuid, count: nat, db': Demand.Db) {
    && db'.requests.Keys == db.requests.Keys && r in db'.requests && db'.requests[r].totalOffers == count
    && (forall q :: q in db.requests && q != r ==> db'.requests[q] == db.requests[q])
  }

  lemma AppliedTotalsOk(s: State, rep: Report, db': Demand.Db)
    requires ReportsOk(s) && TotalsOk(s) && rep in s.reports.Values && OnlyTotal(s.db, rep.request, rep.count, db')
    ensures TotalsOk(s.(db := db', applied := s.applied[rep.request := rep.tally]))
  {
  }

  lemma WithOffersOnlyTotal(db: Demand.Db, r: Uuid, count: nat)
    requires Demand.IdsOk(db) && r in db.requests && count <= Demand.MAX_INT32
    ensures Demand.IdsOk(Demand.WithOffers(db, r, count)) && OnlyTotal(db, r, count, Demand.WithOffers(db, r, count))
  {
  }

  lemma DeliverKeepsInv(s: State, k: nat)
    requires Inv(s) && k in s.reports
    ensures Inv(Delivered(s, k))
  {
    var rep := s.reports[k];
    if Arrives(s, rep) {
      WithOffersOnlyTotal(s.db, rep.request, rep.count);
      AppliedTotalsOk(s, rep, Demand.WithOffers(s.db, rep.request, rep.count));
    }
  }

  /** A change of the live set moves the tally with the count. */
  lemma HandleKeepsOff(s: State, k: nat, task: Offers.Task, r: Uuid, number: int, was: Tally)
    requires Offers.Atomically(s.offers, task).Some? && Off(number, was, Offers.CountLive(s.offers, r), TallyOf(s, r))
    ensures var s' := Handled(s, k, task); Off(number, was, Offers.CountLive(s'.offers, r), TallyOf(s', r))
  {
    Offers.CountAfter(s.offers, task, r);
  }

  lemma HandleKeepsInv(s: State, k: nat, task: Offers.Task)
    requires Inv(s) && Offers.Atomically(s.offers, task).Some?
    ensures Inv(Handled(s, k, task))
  {
    forall j | j in s.reports
      ensures var rep, s' := s.reports[j], Handled(s, k, task);
              Off(rep.count, rep.tally, Offers.CountLive(s'.offers, rep.request), TallyOf(s', rep.request))
    {
      HandleKeepsOff(s, k, task, s.reports[j].request, s.reports[j].count, s.reports[j].tally);
    }
    forall r | r in s.applied
      ensures var s' := Handled(s, k, task);
              Off(s.db.requests[r].totalOffers, s.applied[r], Offers.CountLive(s'.offers, r), TallyOf(s', r))
    {
      HandleKeepsOff(s, k, task, r, s.db.requests[r].totalOffers, s.applied[r]);
    }
  }

  /** Whatever else request-service does, it keeps its rows and their offer totals. */
  lemma OthersKeepTotals(n: Demand.Names, db: Demand.Db, op: Demand.Op, newId: Uuid)
    requires Demand.IdsOk(db) && !op.SetOffers? && newId !in db.requests
    ensures var db' := Demand.Serial(n, db, op, newId).db;
            && Demand.IdsOk(db')
            && (forall r :: r in db.requests ==>
                  r in db'.requests && db'.requests[r].totalOffers == db.requests[r].totalOffers)
  {
    var db' := Demand.Serial(n, db, op, newId).db;
    if Demand.OnRow(op) {
      forall r | r in db.requests
        ensures r in db'.requests && db'.requests[r].totalOffers == db.requests[r].totalOffers
      {
        Demand.RowOpsKeepOffers(db, op, r);
      }
    }
  }

  lemma InvStep(n: Demand.Names, s: State, t: Step)
    requires Inv(s) && Enabled(s, t)
    ensures Inv(Apply(n, s, t))
  {
    match t
    case Handle(k, task) => HandleKeepsInv(s, k, task);
    case Deliver(k) => DeliverKeepsInv(s, k);
    case Other(op, newId) => OthersKeepTotals(n, s.db, op, newId);
    case _ =>
  }

  lemma {:induction false} InvRun(n: Demand.Names, s: State, steps: seq<Step>)
    requires Inv(s) && Legal(n, s, steps)
    ensures Inv(Exec(n, s, steps))
    decreases |steps|
  {
    if steps != [] {
      InvStep(n, s, steps[0]);
      InvRun(n, Apply(n, s, steps[0]), steps[1..]);
    }
  }

  /** Reports are operations of request-service, so they keep what it keeps. */
  lemma {:induction false} DbRun(n: Demand.Names, s: State, steps: seq<Step>)
    requires Demand.DbOk(n, s.db) && Legal(n, s, steps)
    ensures Demand.DbOk(n, Exec(n, s, steps).db)
    decreases |steps|
  {
    if steps != [] {
      DbStep(n, s, steps[0]);
      DbRun(n, Apply(n, s, steps[0]), steps[1..]);
    }
  }

  lemma DbStep(n: Demand.Names, s: State, t: Step)
    requires Demand.DbOk(n, s.db) && Enabled(s, t)
    ensures Demand.DbOk(n, Apply(n, s, t).db)
  {
    match t
    case Deliver(k) =>
      var rep := s.reports[k];
      if Arrives(s, rep) { Demand.SetOffersKeepsDbOk(n, s.db, rep.request, rep.count); }
    case Other(op, newId) => Demand.SerialKeepsDbOk(n, s.db, op, newId);
    case _ =>
  }

  /** Delivering a report is the service's own `SetOfferCount`. */
  lemma DeliverIsSetOfferCount(n: Demand.Names, s: State, k: nat)
    requires Demand.DbOk(n, s.db) && Enabled(s, Deliver(k)) && Arrives(s, s.reports[k])
    ensures Apply(n, s, Deliver(k)).db ==
            Demand.SerialRow(s.db, Demand.SetOffers(s.reports[k].request, s.reports[k].count)).db
  {
    var rep := s.reports[k];
    assert Demand.RequestOk(s.db.requests[rep.request], s.db.participants[rep.request]);
    Demand.SetOffersWrites(s.db, rep.request, rep.count);
  }

  ghost predicate Start(n: Demand.Names, s: State) {
    Demand.DbOk(n, s.db) && s.due == map[] && s.reports == map[] && s.applied == map[]
  }

  /** How far off a total is, exactly. In every run, with reports lost, repeated and late, the
      stored `total_offers` is off from the number of live offers by the offers that entered the
      live set less those that left it since the count that was applied last. So it is right if
      and only if as many have entered as have left since. */
  lemma TotalsDrift(n: Demand.Names, start: State, steps: seq<Step>, r: Uuid)
    requires Start(n, start) && Legal(n, start, steps) && r in Exec(n, start, steps).applied
    ensures var s := Exec(n, start, steps);
            && r in s.db.requests
            && var entered := TallyOf(s, r).entered - s.applied[r].entered;
            var left := TallyOf(s, r).left - s.applied[r].left;
            && 0 <= entered && 0 <= left
            && Offers.CountLive(s.offers, r) - s.db.requests[r].totalOffers == entered - left
            && (s.db.requests[r].totalOffers == Offers.CountLive(s.offers, r) <==> entered == left)
  {
    InvRun(n, start, steps);
  }

  /** How many new offers on the request a run makes, and how many it cancels or rejects. */
  ghost function NewOffers(n: Demand.Names, s: State, steps: seq<Step>, r: Uuid): nat
    requires Legal(n, s, steps)
    decreases |steps|
  {
    if steps == [] then 0
    else
      (if steps[0].Handle? && steps[0].task.Create? && steps[0].task.request == r then 1 else 0)
      + NewOffers(n, Apply(n, s, steps[0]), steps[1..], r)
  }

  ghost function GoneOffers(n: Demand.Names, s: State, steps: seq<Step>, r: Uuid): nat
    requires Legal(n, s, steps)
    decreases |steps|
  {
    if steps == [] then 0
    else
      (if && steps[0].Handle? && (steps[0].task.Cancel? || (steps[0].task.Decide? && !steps[0].task.approve))
          && s.offers[steps[0].task.offer].request == r then 1 else 0)
      + GoneOffers(n, Apply(n, s, steps[0]), steps[1..], r)
  }

  /** That is what the tally counts. */
  lemma {:induction false} TallyCounts(n: Demand.Names, s: State, steps: seq<Step>, r: Uuid)
    requires Legal(n, s, steps)
    ensures TallyOf(Exec(n, s, steps), r).entered == TallyOf(s, r).entered + NewOffers(n, s, steps, r)
    ensures TallyOf(Exec(n, s, steps), r).left == TallyOf(s, r).left + GoneOffers(n, s, steps, r)
    decreases |steps|
  {
    if steps != [] {
      TallyStep(n, s, steps[0], r);
      TallyCounts(n, Apply(n, s, steps[0]), steps[1..], r);
    }
  }

  lemma TallyStep(n: Demand.Names, s: State, t: Step, r: Uuid)
    requires Enabled(s, t)
    ensures var was, now := TallyOf(s, r), TallyOf(Apply(n, s, t), r);
            && now.entered == was.entered + (if t.Handle? && t.task.Create? && t.task.request == r then 1 else 0)
            && now.left == was.left +
                 if && t.Handle? && (t.task.Cancel? || (t.task.Decide? && !t.task.approve))
                    && s.offers[t.task.offer].request == r then 1 else 0
  {
  }

  /** So the counts converge: whenever the last report applied to a request was counted after the
      last change of its live set, `total_offers` is the number of PENDING or APPROVED offers and
      the status is right for it. */
  lemma CountsConverge(n: Demand.Names, start: State, steps: seq<Step>, r: Uuid)
    requires Start(n, start) && Legal(n, start, steps)
    requires var s := Exec(n, start, steps); r in s.applied && s.applied[r] == TallyOf(s, r)
    ensures var s := Exec(n, start, steps);
            && r in s.db.requests && r in s.db.participants
            && s.db.requests[r].totalOffers == Offers.CountLive(s.offers, r)
            && (s.db.requests[r].status == Demand.Inactive <==>
                  s.db.participants[r] == [] && Offers.CountLive(s.offers, r) == 0)
  {
    TotalsDrift(n, start, steps, r);
    DbRun(n, start, steps);
    var db := Exec(n, start, steps).db;
    assert Demand.RequestOk(db.requests[r], db.participants[r]);
  }

  /** One report that gets through is enough: whatever drift there was, the next route that counts
      and delivers makes the total right. */
  lemma OneReportRepairs(n: Demand.Names, start: State, steps: seq<Step>, k: nat)
    requires Start(n, start) && Legal(n, start, steps) && k in Exec(n, start, steps).due
    requires var s := Exec(n, start, steps);
             s.due[k] in s.db.requests && Offers.CountLive(s.offers, s.due[k]) <= Demand.MAX_INT32
    ensures var s := Exec(n, start, steps);
            && Enabled(s, Count(k)) && Enabled(Apply(n, s, Count(k)), Deliver(k))
            && var s' := Apply(n, Apply(n, s, Count(k)), Deliver(k));
            && s.due[k] in s'.db.requests
            && s'.db.requests[s.due[k]].totalOffers == Offers.CountLive(s'.offers, s.due[k])
  {
    InvRun(n, start, steps);
    var s := Exec(n, start, steps);
    WithOffersOnlyTotal(s.db, s.due[k], Offers.CountLive(s.offers, s.due[k]));
  }

  /** Delivering one report and then another leaves the count of the second, however old. */
  lemma LateReportWins(s: State, newer: nat, older: nat)
    requires Demand.IdsOk(s.db) && newer in s.reports && older in s.reports
    requires s.reports[newer].request == s.reports[older].request
    requires Arrives(s, s.reports[newer]) && Arrives(s, s.reports[older])
    ensures var s' := Delivered(Delivered(s, newer), older);
            && s.reports[older].request in s'.db.requests
            && s'.db.requests[s.reports[older].request].totalOffers == s.reports[older].count
            && s'.offers == s.offers
  {
    var r := s.reports[older].request;
    WithOffersOnlyTotal(s.db, r, s.reports[newer].count);
    WithOffersOnlyTotal(Delivered(s, newer).db, r, s.reports[older].count);
  }

  lemma {:induction false} LegalSnoc(n: Demand.Names, s: State, steps: seq<Step>, t: Step)
    requires Legal(n, s, steps) && Enabled(Exec(n, s, steps), t)
    ensures Legal(n, s, steps + [t]) && Exec(n, s, steps + [t]) == Apply(n, Exec(n, s, steps), t)
    decreases |steps|
  {
    if steps == [] {
      assert [t][1..] == [] && Legal(n, Apply(n, s, t), []);
      assert Exec(n, s, [t]) == Exec(n, Apply(n, s, t), []);
      assert [] + [t] == [t];
    } else {
      assert (steps + [t])[1..] == steps[1..] + [t];
      LegalSnoc(n, Apply(n, s, steps[0]), steps[1..], t);
    }
  }

  /** The routes of a cancellation and of the offer that follows it, up to both counts sent. */
  lemma TwoRoutes(n: Demand.Names, s: State, gone: Uuid, create: Offers.Task) returns (steps: seq<Step>)
    requires s.due == map[] && s.reports == map[] && gone in s.offers && s.offers[gone].status == Offers.Pending
    requires create.Create? && create.request == s.offers[gone].request && create.id !in s.offers
    requires Offers.LiveOn(s.offers, create.request) == {gone}
    ensures Legal(n, s, steps)
    ensures var s', r := Exec(n, s, steps), create.request;
            && s'.db == s.db && Offers.LiveOn(s'.offers, r) == {create.id}
            && 0 in s'.reports && s'.reports[0].request == r && s'.reports[0].count == 0
            && 1 in s'.reports && s'.reports[1].request == r && s'.reports[1].count == 1
  {
    var cancel, r := Offers.Cancel(gone, s.offers[gone].seller), create.request;
    var s1 := Apply(n, s, Handle(0, cancel));
    LegalSnoc(n, s, [], Handle(0, cancel));
    steps := [] + [Handle(0, cancel)];
    Offers.LiveAfter(s.offers, cancel, r);
    assert Offers.LiveOn(s1.offers, r) == {};
    LegalSnoc(n, s, steps, Count(0));
    steps := steps + [Count(0)];
    assert forall o :: o in s1.offers && s1.offers[o].request == r && Offers.Live(s1.offers[o].status)
                       ==> o in Offers.LiveOn(s1.offers, r);
    assert Offers.Passes(s1.offers, create);
    LegalSnoc(n, s, steps, Handle(1, create));
    steps := steps + [Handle(1, create)];
    Offers.LiveAfter(s1.offers, create, r);
    LegalSnoc(n, s, steps, Count(1));
    steps := steps + [Count(1)];
  }

  /** A run that shows the condition is needed: a seller cancels the one offer on a request and
      another makes one; the report of the cancellation arrives after that of the offer, and
      request-service goes on showing none. */
  lemma LateReportOverwrites(n: Demand.Names, s: State, gone: Uuid, create: Offers.Task) returns (steps: seq<Step>)
    requires Start(n, s) && gone in s.offers && s.offers[gone].status == Offers.Pending
    requires create.Create? && create.request == s.offers[gone].request && create.id !in s.offers
    requires Offers.LiveOn(s.offers, create.request) == {gone} && create.request in s.db.requests
    ensures Legal(n, s, steps)
    ensures var s', r := Exec(n, s, steps), create.request;
            Offers.CountLive(s'.offers, r) == 1 && r in s'.db.requests && s'.db.requests[r].totalOffers == 0
  {
    steps := TwoRoutes(n, s, gone, create);
    var s4 := Exec(n, s, steps);
    LegalSnoc(n, s, steps, Deliver(1));
    steps := steps + [Deliver(1)];
    LegalSnoc(n, s, steps, Deliver(0));
    steps := steps + [Deliver(0)];
    LateReportWins(s4, 1, 0);
  }
}
