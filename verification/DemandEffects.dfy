/** What request-service's row operations mean for the people on a request: each is a change
    to who wants how many, and the totals move with it. */
module DemandEffects {
  import opened Base
  import opened Demand

  /** How many of the item the customer wants, if they are on the request. */
  function Wanted(ps: seq<Participant>, c: Uuid): Option<int> {
    if Takes(ps, c) then Some(ps[IndexOf(ps, c)].quantity) else None
  }

  ghost predicate OnePerCustomer(ps: seq<Participant>) {
    forall i, j :: 0 <= i < j < |ps| ==> ps[i].customer != ps[j].customer
  }

  lemma WantedAt(ps: seq<Participant>, k: nat)
    requires OnePerCustomer(ps) && k < |ps|
    ensures Wanted(ps, ps[k].customer) == Some(ps[k].quantity) && IndexOf(ps, ps[k].customer) == k
  {
    assert IndexOf(ps, ps[k].customer) <= k;
  }

  lemma {:induction false} SumAppend(a: seq<Participant>, b: seq<Participant>)
    ensures Sum(a + b) == Sum(a) + Sum(b)
  {
    if b == [] {
      assert a + b == a;
    } else {
      SumAppend(a, b[..|b| - 1]);
      assert (a + b)[..|a + b| - 1] == a + b[..|b| - 1];
    }
  }

  lemma SumParts(ps: seq<Participant>, i: nat)
    requires i < |ps|
    ensures Sum(ps) == Sum(ps[..i]) + ps[i].quantity + Sum(ps[i + 1..])
  {
    SumAppend(ps[..i], [ps[i]]);
    SumAppend(ps[..i] + [ps[i]], ps[i + 1..]);
    assert ps == ps[..i] + [ps[i]] + ps[i + 1..];
    assert [ps[i]][..0] == [];
  }

  /** What one operation makes of the people on a request. */
  ghost predicate Changes(ps: seq<Participant>, ps': seq<Participant>, c: Uuid, now: Option<int>) {
    forall d :: Wanted(ps', d) == if d == c then now else Wanted(ps, d)
  }

  function Amount(o: Option<int>): int { if o.Some? then o.value else 0 }

  lemma JoinEffect(ps: seq<Participant>, c: Uuid, q: Int32)
    requires !Takes(ps, c)
    ensures Changes(ps, ps + [Participant(c, q)], c, Some(q))
    ensures Sum(ps + [Participant(c, q)]) == Sum(ps) + q
  {
    var ps' := ps + [Participant(c, q)];
    assert ps'[..|ps|] == ps && ps'[|ps|].customer == c;
    forall d ensures Wanted(ps', d) == if d == c then Some(q) else Wanted(ps, d) {
      var i, j := IndexOf(ps, d), IndexOf(ps', d);
      assert forall k :: 0 <= k < |ps| ==> ps'[k] == ps[k];
      assert i < |ps| ==> ps'[i].customer == d;
    }
  }

  lemma UpdateEffect(ps: seq<Participant>, c: Uuid, q: Int32)
    requires Takes(ps, c)
    ensures Changes(ps, ps[IndexOf(ps, c) := Participant(c, q)], c, Some(q))
    ensures Sum(ps[IndexOf(ps, c) := Participant(c, q)]) == Sum(ps) - Amount(Wanted(ps, c)) + q
  {
    var i := IndexOf(ps, c);
    var ps' := ps[i := Participant(c, q)];
    forall d ensures Wanted(ps', d) == if d == c then Some(q) else Wanted(ps, d) {
      assert forall k :: 0 <= k < |ps| ==> ps'[k].customer == ps[k].customer;
      var j, k := IndexOf(ps, d), IndexOf(ps', d);
      assert j < |ps| ==> ps'[j].customer == d;
      assert k < |ps| ==> ps[k].customer == d;
    }
    SumParts(ps, i);
    SumParts(ps', i);
    assert ps'[..i] == ps[..i] && ps'[i + 1..] == ps[i + 1..];
  }

  lemma LeaveEffect(ps: seq<Participant>, c: Uuid)
    requires OnePerCustomer(ps) && Takes(ps, c)
    ensures Changes(ps, ps[..IndexOf(ps, c)] + ps[IndexOf(ps, c) + 1..], c, None)
    ensures Sum(ps[..IndexOf(ps, c)] + ps[IndexOf(ps, c) + 1..]) == Sum(ps) - Amount(Wanted(ps, c))
  {
    var i := IndexOf(ps, c);
    var ps' := ps[..i] + ps[i + 1..];
    forall d ensures Wanted(ps', d) == if d == c then None else Wanted(ps, d) { WithoutRow(ps, i, d); }
    SumParts(ps, i);
    SumAppend(ps[..i], ps[i + 1..]);
  }

  /** Taking out the row at `i` leaves everyone else's. */
  lemma WithoutRow(ps: seq<Participant>, i: nat, d: Uuid)
    requires OnePerCustomer(ps) && i < |ps|
    ensures Wanted(ps[..i] + ps[i + 1..], d) == if d == ps[i].customer then None else Wanted(ps, d)
  {
    var ps' := ps[..i] + ps[i + 1..];
    assert forall k :: 0 <= k < |ps'| ==> ps'[k] == ps[if k < i then k else k + 1];
    var j, k := IndexOf(ps, d), IndexOf(ps', d);
    if k < |ps'| { WantedAt(ps, if k < i then k else k + 1); }
    if j < |ps| && j != i { WantedAt(ps', if j < i then j else j - 1); }
  }

  /** What the operation leaves its customer wanting. */
  function WantedAfter(op: Op): Option<int>
    requires OnRow(op) && !op.SetOffers?
  {
    if op.Leave? then None else Some(op.quantity)
  }

  /** The customer has a row on the request. */
  ghost predicate On(ps: seq<Participant>, c: Uuid) {
    exists i :: 0 <= i < |ps| && ps[i].customer == c
  }

  /** The participants an operation leaves: its own customer's entry is what it says, nobody
      else's changes, and the sum moves by exactly that. */
  ghost predicate Effect(op: Op, ps: seq<Participant>, ps': seq<Participant>)
    requires OnRow(op)
  {
    if op.SetOffers? then ps' == ps
    else
      && Changes(ps, ps', op.customer, WantedAfter(op))
      && Sum(ps') == Sum(ps) - Amount(Wanted(ps, op.customer)) + Amount(WantedAfter(op))
  }

  lemma MutateEffect(op: Op, r: Request, ps: seq<Participant>)
    requires OnRow(op) && OnePerCustomer(ps) && Mutate(op, r, ps).Changed?
    ensures Effect(op, ps, Mutate(op, r, ps).participants)
  {
    match op
    case Join(_, c, _, q) => JoinEffect(ps, c, q);
    case Update(_, c, q) => UpdateEffect(ps, c, q);
    case Leave(_, c) => LeaveEffect(ps, c);
    case SetOffers(_, _) =>
  }

  /** Each refusal of a row operation exactly for its own reason; every other one goes through,
      and a refusal changes nothing at all. */
  lemma RowOpRefusedIff(db: Db, op: Op)
    requires TablesOk(db) && OnRow(op) && op.request in db.requests
    ensures var res, ps := SerialRow(db, op), db.participants[op.request];
            && (res.reply == AlreadyParticipant <==> op.Join? && 0 < op.quantity && On(ps, op.customer))
            && (res.reply == NotParticipant <==> (op.Update? || op.Leave?) && !On(ps, op.customer))
            && (res.reply == Refused <==>
                  || (op.Join? && (op.quantity <= 0 || (!On(ps, op.customer) && |ps| == 2147483647)))
                  || (op.Update? && On(ps, op.customer) && op.quantity <= 0)
                  || (op.SetOffers? && op.offers < 0))
            && (res.reply.Done? || (res.reply in {AlreadyParticipant, NotParticipant, Refused} && res.db == db))
  {
    var ps := db.participants[op.request];
    assert RequestOk(db.requests[op.request], ps);
    if !op.SetOffers? {
      var i := IndexOf(ps, op.customer);
      assert On(ps, op.customer) <==> i < |ps|;
    }
  }

  /** On a request that is not there every row operation is told so. */
  lemma MissingRequest(db: Db, op: Op)
    requires TablesOk(db) && OnRow(op)
    ensures SerialRow(db, op).reply == RequestNotFound <==> op.request !in db.requests
    ensures op.request !in db.requests ==> SerialRow(db, op).db == db
  {
    if op.request in db.requests {
      RowOpRefusedIff(db, op);
    }
  }

  /** One that goes through changes what its customer wants, as it says, and nothing of any
      other request. */
  lemma RowOpEffect(db: Db, op: Op)
    requires TablesOk(db) && OnRow(op) && op.request in db.requests && SerialRow(db, op).reply.Done?
    ensures var res := SerialRow(db, op);
            && op.request in res.db.participants && op.request in res.db.requests
            && res.reply.result == res.db.requests[op.request]
            && Effect(op, db.participants[op.request], res.db.participants[op.request])
            && res.reply.result.totalOffers ==
                 (if op.SetOffers? then op.offers else db.requests[op.request].totalOffers)
            && res.reply.result.itemName == db.requests[op.request].itemName
            && res.reply.result.owner == db.requests[op.request].owner && res.reply.result.id == op.request
            && (forall id :: id in db.requests && id != op.request ==>
                  && id in res.db.requests && res.db.requests[id] == db.requests[id]
                  && id in res.db.participants && res.db.participants[id] == db.participants[id])
  {
    var r, ps := db.requests[op.request], db.participants[op.request];
    assert RequestOk(r, ps);
    var m := Mutate(op, r, ps);
    assert m.Changed? && |m.participants| <= MAX_INT32;
    MutateEffect(op, r, ps);
    GoesThrough(db, op, m.participants, m.offers);
    CommitOnlyRow(db, RowWrite(op, r, m.participants, m.offers).value);
  }

  /** A commit on a request that is there touches its own rows only. */
  lemma CommitOnlyRow(db: Db, w: Write)
    requires TablesOk(db) && w.request.id in db.requests
    ensures var db' := Commit(db, w);
            && db'.requests[w.request.id] == w.request && db'.participants[w.request.id] == w.participants
            && forall id :: id in db.requests && id != w.request.id ==>
                 && id in db'.requests && db'.requests[id] == db.requests[id]
                 && id in db'.participants && db'.participants[id] == db.participants[id]
  {
  }

  /** Recalculating finds the row again, whatever the totals and status had become. */
  lemma RecalculatedAgain(r: Request, ps: seq<Participant>, r': Request)
    requires RequestOk(r, ps)
    requires r' == r.(totalCustomers := r'.totalCustomers, totalQuantity := r'.totalQuantity, status := r'.status)
    ensures Recalculated(r', ps) == r
  {
  }

  lemma LeaveAfterJoin(ps: seq<Participant>, c: Uuid, q: Int32)
    requires !Takes(ps, c)
    ensures var ps' := ps + [Participant(c, q)];
            IndexOf(ps', c) == |ps| && ps'[..|ps|] + ps'[|ps| + 1..] == ps
  {
    var ps' := ps + [Participant(c, q)];
    assert ps'[|ps|].customer == c;
    assert forall k :: 0 <= k < |ps| ==> ps'[k] == ps[k];
    var i, j := IndexOf(ps, c), IndexOf(ps', c);
  }

  lemma CommitBack(db: Db, r: Request, w: Write)
    requires r.id in db.requests && db.requests[r.id] == r && r.id in db.participants && w.request.id == r.id
    ensures Commit(Commit(db, w), Write(r, db.participants[r.id], [])) == db.(outbox := db.outbox + w.joined)
  {
    var after := Commit(Commit(db, w), Write(r, db.participants[r.id], []));
    assert after.requests == db.requests && after.participants == db.participants;
    assert after.outbox == db.outbox + w.joined;
  }

  /** Leaving right after joining puts the request back as it was, totals and status included;
      only the promise to tell the customer about the join stays. */
  lemma LeaveUndoesJoin(db: Db, op: Op)
    requires TablesOk(db) && op.Join? && op.request in db.requests && SerialRow(db, op).reply.Done?
    ensures var joined := SerialRow(db, op).db;
            var left := SerialRow(joined, Leave(op.request, op.customer));
            && left.reply.Done? && left.db == db.(outbox := joined.outbox)
  {
    var r, ps := db.requests[op.request], db.participants[op.request];
    assert RequestOk(r, ps);
    var ps' := ps + [Participant(op.customer, op.quantity)];
    var leave := Leave(op.request, op.customer);
    LeaveAfterJoin(ps, op.customer, op.quantity);
    var w := RowWrite(op, r, ps', r.totalOffers).value;
    GoesThrough(db, op, ps', r.totalOffers);
    RecalculatedAgain(r, ps, w.request);
    GoesThrough(Commit(db, w), leave, ps, r.totalOffers);
    CommitBack(db, r, w);
  }
}
