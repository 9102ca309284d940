/** request-service: purchase requests, the participants behind them and the totals and
    status derived from both. Each operation is given here as it runs alone; `DemandTx`
    shows that interleaved transactions never do anything else. */
module Demand {
  import opened Base

  const MAX_INT32 := 0x7fff_ffff

  type Int32 = x: int | -0x8000_0000 <= x <= MAX_INT32

  datatype Status = Open | Inactive

  datatype Participant = Participant(customer: Uuid, quantity: Int32)

  datatype Request = Request(id: Uuid, itemName: string, owner: Option<Uuid>, totalCustomers: int,
                             totalQuantity: int, totalOffers: Int32, status: Status)

  /** A REQUEST_JOINED outbox row. */
  datatype Joined = Joined(user: Uuid, itemName: string, quantity: Int32, customers: int, total: int, opens: bool)

  datatype Db = Db(
    requests: map<Uuid, Request>,
    participants: map<Uuid, seq<Participant>>,  // by request, in order of joining
    created: seq<Uuid>,                         // request ids in order of creation
    outbox: seq<Joined>)

  const EMPTY := Db(map[], map[], [], [])

  /** `request_item_key` and `hashtext`: any functions at all, collisions included. */
  datatype Names = Names(key: string -> string, hash: string -> int)

  datatype Op =
    | Create(itemName: string, customer: Uuid, user: Uuid, quantity: Int32)
    | Ensure(itemName: string)
    | Join(request: Uuid, customer: Uuid, user: Uuid, quantity: Int32)
    | Update(request: Uuid, customer: Uuid, quantity: Int32)
    | Leave(request: Uuid, customer: Uuid)
    | SetOffers(request: Uuid, offers: Int32)

  datatype Reply =
    | Done(result: Request, isNew: bool)
    | RequestExists(existing: Request)
    | AlreadyParticipant
    | NotParticipant
    | RequestNotFound
    | Refused  // a CHECK constraint or a cast the database rejects

  // ---------------------------------------------------------------- queries

  /** `SUM(quantity)` */
  function Sum(ps: seq<Participant>): int {
    if ps == [] then 0 else Sum(ps[..|ps| - 1]) + ps[|ps| - 1].quantity
  }

  /** Position of the customer's row, or the length when there is none. */
  function IndexOf(ps: seq<Participant>, c: Uuid): (i: nat)
    ensures i <= |ps|
    ensures i < |ps| ==> ps[i].customer == c
    ensures forall k :: 0 <= k < i ==> ps[k].customer != c
  {
    if ps == [] then 0
    else if ps[0].customer == c then 0
    else
      var i := IndexOf(ps[1..], c);
      assert forall k :: 0 < k < i + 1 ==> ps[k] == ps[1..][k - 1];
      i + 1
  }

  predicate Takes(ps: seq<Participant>, c: Uuid) { IndexOf(ps, c) < |ps| }

  /** `RecalculateDemand`, the only statement that decides a status. */
  function Recalculated(r: Request, ps: seq<Participant>): Request {
    r.(totalCustomers := |ps|, totalQuantity := Sum(ps),
       status := if |ps| == 0 && r.totalOffers == 0 then Inactive else Open)
  }

  /** The first of `ids` that carries the item; only open ones when `open`. */
  function FirstOf(n: Names, db: Db, itemName: string, ids: seq<Uuid>, open: bool): Option<Uuid> {
    if ids == [] then None
    else if ids[0] in db.requests && n.key(db.requests[ids[0]].itemName) == n.key(itemName)
            && (open ==> db.requests[ids[0]].status == Open) then Some(ids[0])
    else FirstOf(n, db, itemName, ids[1..], open)
  }

  /** `FindRequestByItemName`: open requests first, then the oldest. */
  function Find(n: Names, db: Db, itemName: string): Option<Uuid> {
    match FirstOf(n, db, itemName, db.created, true)
    case Some(id) => Some(id)
    case None => FirstOf(n, db, itemName, db.created, false)
  }

  /** Whether some request carries the item. */
  ghost predicate Carried(n: Names, db: Db, itemName: string) {
    exists id :: id in db.requests && n.key(db.requests[id].itemName) == n.key(itemName)
  }

  lemma {:induction false} FirstOfSpec(n: Names, db: Db, itemName: string, ids: seq<Uuid>, open: bool)
    ensures match FirstOf(n, db, itemName, ids, open)
            case Some(id) => id in ids && id in db.requests && n.key(db.requests[id].itemName) == n.key(itemName)
            case None => forall id :: (id in ids && id in db.requests
                                       && n.key(db.requests[id].itemName) == n.key(itemName)) ==>
                                        open && db.requests[id].status != Open
  {
    if ids != [] {
      FirstOfSpec(n, db, itemName, ids[1..], open);
      assert ids == [ids[0]] + ids[1..];
    }
  }

  lemma FindSpec(n: Names, db: Db, itemName: string)
    requires forall id :: id in db.requests ==> id in db.created
    ensures match Find(n, db, itemName)
            case Some(id) => id in db.requests && n.key(db.requests[id].itemName) == n.key(itemName)
            case None => !Carried(n, db, itemName)
  {
    FirstOfSpec(n, db, itemName, db.created, true);
    FirstOfSpec(n, db, itemName, db.created, false);
  }

  // ---------------------------------------------------------------- operations, alone

  predicate OnRow(op: Op) { op.Join? || op.Update? || op.Leave? || op.SetOffers? }

  /** What the mutation statement makes of the participants and the offer count. */
  datatype Change = Changed(participants: seq<Participant>, offers: Int32) | Rejected(why: Reply)

  function Mutate(op: Op, r: Request, ps: seq<Participant>): Change
    requires OnRow(op)
  {
    match op
    case Join(_, c, _, q) =>
      // PostgreSQL checks a row before it looks for a duplicate of it.
      if q <= 0 then Rejected(Refused)
      else if Takes(ps, c) then Rejected(AlreadyParticipant)
      else Changed(ps + [Participant(c, q)], r.totalOffers)
    case Update(_, c, q) =>
      if !Takes(ps, c) then Rejected(NotParticipant)
      else if q <= 0 then Rejected(Refused)
      else Changed(ps[IndexOf(ps, c) := Participant(c, q)], r.totalOffers)
    case Leave(_, c) =>
      if !Takes(ps, c) then Rejected(NotParticipant)
      else Changed(ps[..IndexOf(ps, c)] + ps[IndexOf(ps, c) + 1..], r.totalOffers)
    case SetOffers(_, offers) =>
      if offers < 0 then Rejected(Refused) else Changed(ps, offers)
  }

  /** The rows a transaction is about to commit for one request. */
  datatype Write = Write(request: Request, participants: seq<Participant>, joined: seq<Joined>)

  function JoinedEvent(op: Op, r: Request): seq<Joined> {
    if op.Join? || op.Create?
    then [Joined(op.user, r.itemName, op.quantity, r.totalCustomers, r.totalQuantity, op.Create?)] else []
  }

  /** Recalculation and event of a row operation; `None` when `COUNT(*)::int` overflows. */
  function RowWrite(op: Op, r: Request, ps: seq<Participant>, offers: Int32): Option<Write> {
    if |ps| > MAX_INT32 then None
    else
      var r' := Recalculated(r.(totalOffers := offers), ps);
      Some(Write(r', ps, JoinedEvent(op, r')))
  }

  /** `length(btrim(item_name)) > 0` fails. */
  predicate Blank(name: string) { forall i :: 0 <= i < |name| ==> name[i] == ' ' }

  /** The rows of a new request; `None` when a CHECK refuses them. */
  function NewWrite(op: Op, id: Uuid): Option<Write>
    requires op.Create? || op.Ensure?
  {
    var blank := Request(id, op.itemName, if op.Create? then Some(op.customer) else None, 0, 0, 0, Open);
    var ps := if op.Create? then [Participant(op.customer, op.quantity)] else [];
    if Blank(op.itemName) || (op.Create? && op.quantity <= 0) then None
    else
      var r := Recalculated(blank, ps);
      Some(Write(r, ps, JoinedEvent(op, r)))
  }

  function Commit(db: Db, w: Write): Db {
    Db(db.requests[w.request.id := w.request],
       db.participants[w.request.id := w.participants],
       if w.request.id in db.requests then db.created else db.created + [w.request.id],
       db.outbox + w.joined)
  }

  datatype Result = Result(db: Db, reply: Reply)

  /** The reply to a create that found the item carried already. */
  function FoundReply(db: Db, op: Op, id: Uuid): Reply
    requires id in db.requests && id in db.participants
  {
    if op.Ensure? then Done(db.requests[id], false)
    else if op.Create? && Takes(db.participants[id], op.customer) then AlreadyParticipant
    else RequestExists(db.requests[id])
  }

  /** An operation on an existing request run alone. */
  function SerialRow(db: Db, op: Op): Result
    requires OnRow(op)
  {
    if op.request !in db.requests || op.request !in db.participants then Result(db, RequestNotFound)
    else
      match Mutate(op, db.requests[op.request], db.participants[op.request])
      case Rejected(why) => Result(db, why)
      case Changed(ps, offers) =>
        match RowWrite(op, db.requests[op.request], ps, offers)
        case None => Result(db, Refused)
        case Some(w) => Result(Commit(db, w), Done(w.request, false))
  }

  /** A create or a find-or-create run alone; `newId` is the id a new request would get. */
  function SerialNew(n: Names, db: Db, op: Op, newId: Uuid): Result
    requires !OnRow(op)
  {
    match Find(n, db, op.itemName)
    case Some(id) =>
      if id in db.requests && id in db.participants then Result(db, FoundReply(db, op, id)) else Result(db, Refused)
    case None =>
      match NewWrite(op, newId)
      case None => Result(db, Refused)
      case Some(w) => Result(Commit(db, w), Done(w.request, true))
  }

  /** One operation run alone. */
  function Serial(n: Names, db: Db, op: Op, newId: Uuid): Result {
    if OnRow(op) then SerialRow(db, op) else SerialNew(n, db, op, newId)
  }

  /** `SetOfferCount` on a request that exists, written out. */
  function WithOffers(db: Db, id: Uuid, offers: Int32): Db
    requires id in db.requests && id in db.participants
  {
    var ps := db.participants[id];
    Commit(db, Write(Recalculated(db.requests[id].(totalOffers := offers), ps), ps, []))
  }

  // ---------------------------------------------------------------- what every state keeps

  ghost predicate ParticipantsOk(ps: seq<Participant>) {
    && (forall i :: 0 <= i < |ps| ==> 0 < ps[i].quantity)
    && (forall i, j :: 0 <= i < j < |ps| ==> ps[i].customer != ps[j].customer)
    && |ps| <= MAX_INT32
  }

  /** The stored totals are the count and sum of the participant rows, and the status is
      INACTIVE exactly when nobody is on the request and nobody sells into it. */
  ghost predicate RequestOk(r: Request, ps: seq<Participant>) {
    && ParticipantsOk(ps)
    && r.totalCustomers == |ps| && r.totalQuantity == Sum(ps) && 0 <= r.totalOffers
    && (r.status == Inactive <==> |ps| == 0 && r.totalOffers == 0)
  }

  ghost predicate TablesOk(db: Db) {
    && db.participants.Keys == db.requests.Keys
    && (forall id :: id in db.requests <==> id in db.created)
    && (forall id :: id in db.requests ==> db.requests[id].id == id && RequestOk(db.requests[id], db.participants[id]))
  }

  /** Every row is filed under its own id. */
  ghost predicate IdsOk(db: Db) {
    && db.participants.Keys == db.requests.Keys
    && (forall id :: id in db.requests ==> db.requests[id].id == id)
  }

  /** Two requests never carry the same item. */
  ghost predicate OnePerItem(n: Names, db: Db) {
    forall a, b :: (a in db.requests && b in db.requests
                    && n.key(db.requests[a].itemName) == n.key(db.requests[b].itemName)) ==> a == b
  }

  ghost predicate DbOk(n: Names, db: Db) { TablesOk(db) && OnePerItem(n, db) }

  lemma MutateKeepsParticipants(op: Op, r: Request, ps: seq<Participant>)
    requires OnRow(op) && ParticipantsOk(ps) && 0 <= r.totalOffers && Mutate(op, r, ps).Changed?
    requires |Mutate(op, r, ps).participants| <= MAX_INT32
    ensures ParticipantsOk(Mutate(op, r, ps).participants) && 0 <= Mutate(op, r, ps).offers
  {
    if op.Leave? {
      var i := IndexOf(ps, op.customer);
      var ps' := Mutate(op, r, ps).participants;
      assert forall k :: 0 <= k < |ps'| ==> ps'[k] == ps[if k < i then k else k + 1];
    }
  }

  lemma RowWriteOk(db: Db, op: Op)
    requires TablesOk(db) && OnRow(op) && op.request in db.requests
    requires var r, ps := db.requests[op.request], db.participants[op.request];
             && Mutate(op, r, ps).Changed?
             && RowWrite(op, r, Mutate(op, r, ps).participants, Mutate(op, r, ps).offers).Some?
    ensures var r, ps := db.requests[op.request], db.participants[op.request];
            var w := RowWrite(op, r, Mutate(op, r, ps).participants, Mutate(op, r, ps).offers).value;
            && w.request.id == op.request && w.request.itemName == r.itemName
            && RequestOk(w.request, w.participants)
  {
    MutateKeepsParticipants(op, db.requests[op.request], db.participants[op.request]);
  }

  lemma CommitKeepsTables(db: Db, w: Write)
    requires TablesOk(db) && RequestOk(w.request, w.participants)
    ensures TablesOk(Commit(db, w))
  {
  }

  lemma CommitKeepsOnePerItem(n: Names, db: Db, w: Write)
    requires OnePerItem(n, db)
    requires w.request.id in db.requests ==> db.requests[w.request.id].itemName == w.request.itemName
    requires w.request.id !in db.requests ==> !Carried(n, db, w.request.itemName)
    ensures OnePerItem(n, Commit(db, w))
  {
  }

  /** Every operation keeps the derived totals and status right and the items unsplit. */
  lemma SerialKeepsDbOk(n: Names, db: Db, op: Op, newId: Uuid)
    requires DbOk(n, db) && newId !in db.requests
    ensures DbOk(n, Serial(n, db, op, newId).db)
  {
    if OnRow(op) {
      if op.request in db.requests && Mutate(op, db.requests[op.request], db.participants[op.request]).Changed? {
        var c := Mutate(op, db.requests[op.request], db.participants[op.request]);
        var w := RowWrite(op, db.requests[op.request], c.participants, c.offers);
        if w.Some? {
          RowWriteOk(db, op);
          CommitKeepsTables(db, w.value);
          CommitKeepsOnePerItem(n, db, w.value);
        }
      }
    } else {
      FindSpec(n, db, op.itemName);
      if Find(n, db, op.itemName).None? && NewWrite(op, newId).Some? {
        var w := NewWrite(op, newId).value;
        assert Sum([]) == 0;
        CommitKeepsTables(db, w);
        CommitKeepsOnePerItem(n, db, w);
      }
    }
  }

  /** What a row operation commits. */
  lemma GoesThrough(db: Db, op: Op, ps: seq<Participant>, offers: Int32)
    requires OnRow(op) && op.request in db.requests && op.request in db.participants && |ps| <= MAX_INT32
    requires Mutate(op, db.requests[op.request], db.participants[op.request]) == Changed(ps, offers)
    ensures var w := RowWrite(op, db.requests[op.request], ps, offers).value;
            SerialRow(db, op) == Result(Commit(db, w), Done(w.request, false))
  {
  }

  /** What a commit does to a request that is there: its own row, or nothing. */
  lemma CommitOnRow(db: Db, w: Write, id: Uuid)
    requires id in db.requests && id in db.participants
    ensures var db' := Commit(db, w);
            && id in db'.requests && db'.requests[id] == (if id == w.request.id then w.request else db.requests[id])
            && id in db'.participants
            && db'.participants[id] == (if id == w.request.id then w.participants else db.participants[id])
  {
  }

  lemma SetOffersWrites(db: Db, id: Uuid, offers: Int32)
    requires id in db.requests && id in db.participants && |db.participants[id]| <= MAX_INT32 && 0 <= offers
    ensures SerialRow(db, SetOffers(id, offers)).db == WithOffers(db, id, offers)
  {
  }

  lemma SetOffersKeepsDbOk(n: Names, db: Db, id: Uuid, offers: Int32)
    requires DbOk(n, db) && id in db.requests && 0 <= offers
    ensures DbOk(n, WithOffers(db, id, offers))
  {
    var ps := db.participants[id];
    var w := Write(Recalculated(db.requests[id].(totalOffers := offers), ps), ps, []);
    assert RequestOk(db.requests[id], ps);
    CommitKeepsTables(db, w);
    CommitKeepsOnePerItem(n, db, w);
  }

  /** Only `SetOffers` changes an offer total. */
  lemma RowOpsKeepOffers(db: Db, op: Op, id: Uuid)
    requires OnRow(op) && id in db.requests && (op.SetOffers? ==> op.request != id)
    requires IdsOk(db)
    ensures var db' := SerialRow(db, op).db;
            id in db'.requests && db'.requests[id].totalOffers == db.requests[id].totalOffers
  {
    if op.request == id && id in db.participants {
      var c := Mutate(op, db.requests[id], db.participants[id]);
      assert c.Changed? ==> c.offers == db.requests[id].totalOffers;
    }
  }

  /** A find-or-create always answers with a request for the item it was asked about, and
      that request is in the table; only a blank name that no request carries is refused. */
  lemma EnsureAnswersTheItem(n: Names, db: Db, itemName: string, newId: Uuid)
    requires DbOk(n, db) && newId !in db.requests
    ensures var res := Serial(n, db, Ensure(itemName), newId);
            if !Carried(n, db, itemName) && Blank(itemName) then res == Result(db, Refused)
            else
            && res.reply.Done?
            && n.key(res.reply.result.itemName) == n.key(itemName)
            && res.reply.result.id in res.db.requests && res.db.requests[res.reply.result.id] == res.reply.result
            && (res.reply.isNew <==> !Carried(n, db, itemName))
            && (!res.reply.isNew ==> res.db == db)
            && (res.reply.isNew ==>
                  && res.reply.result == Request(newId, itemName, None, 0, 0, 0, Inactive)
                  && newId in res.db.participants && res.db.participants[newId] == []
                  && res.db.requests - {newId} == db.requests && res.db.participants - {newId} == db.participants
                  && res.db.outbox == db.outbox)
  {
    FindSpec(n, db, itemName);
    assert Sum([]) == 0;
  }

  /** A create is refused when the item is carried already, and then it is handed the request
      that carries it, unless the caller is on that request; or when the table rejects its name
      or quantity. Otherwise its creator is the one participant. */
  lemma CreateRefusedIff(n: Names, db: Db, op: Op, newId: Uuid)
    requires DbOk(n, db) && newId !in db.requests && op.Create?
    ensures var res := Serial(n, db, op, newId);
            if Carried(n, db, op.itemName) then
              && res.db == db
              && (res.reply == AlreadyParticipant || res.reply.RequestExists?)
              && (res.reply.RequestExists? ==> n.key(res.reply.existing.itemName) == n.key(op.itemName)
                                               && res.reply.existing in db.requests.Values
                                               && !Takes(db.participants[res.reply.existing.id], op.customer))
            else if Blank(op.itemName) || op.quantity <= 0 then res == Result(db, Refused)
            else
              && res.reply.Done? && res.db.requests[newId] == res.reply.result
              && res.db.participants[newId] == [Participant(op.customer, op.quantity)]
              && res.reply.result == Request(newId, op.itemName, Some(op.customer), 1, op.quantity, 0, Open)
              && res.db.requests - {newId} == db.requests && res.db.participants - {newId} == db.participants
  {
    FindSpec(n, db, op.itemName);
    assert Sum([Participant(op.customer, op.quantity)]) == Sum([]) + op.quantity;
  }

  // ---------------------------------------------------------------- arithmetic

  lemma {:induction false} SumBounds(ps: seq<Participant>)
    requires forall i :: 0 <= i < |ps| ==> 0 < ps[i].quantity
    ensures |ps| <= Sum(ps) <= |ps| * MAX_INT32
  {
    if ps != [] {
      SumBounds(ps[..|ps| - 1]);
    }
  }

  /** The 64-bit total can never overflow, and the two totals are zero together. */
  lemma TotalsFit(r: Request, ps: seq<Participant>)
    requires RequestOk(r, ps)
    ensures r.totalCustomers <= r.totalQuantity <= r.totalCustomers * 2147483647 < 0x8000_0000_0000_0000
    ensures r.totalCustomers == 0 <==> r.totalQuantity == 0
  {
    SumBounds(ps);
    assert |ps| * MAX_INT32 <= MAX_INT32 * MAX_INT32;
  }

  // ---------------------------------------------------------------- the service

  /** The service as it updates its database, one call at a time. */
  class RequestService {
    const names: Names
    var db: Db

    constructor (names: Names)
      ensures this.names == names && db == EMPTY
    {
      this.names := names;
      db := EMPTY;
    }

    ghost predicate Valid()
      reads this
    {
      DbOk(names, db)
    }

    method CreateRequest(itemName: string, customer: Uuid, user: Uuid, quantity: Int32, newId: Uuid)
      returns (reply: Reply)
      requires Valid() && newId !in db.requests
      modifies this
      ensures Valid()
      ensures Result(db, reply) == Serial(names, old(db), Create(itemName, customer, user, quantity), newId)
      ensures reply.Done? ==>
                && newId in db.requests && db.requests[newId] == reply.result
                && reply.result == Request(newId, itemName, Some(customer), 1, quantity, 0, Open) && reply.isNew
                && newId in db.participants && db.participants[newId] == [Participant(customer, quantity)]
                && db.outbox == old(db).outbox + [Joined(user, itemName, quantity, 1, quantity, true)]
      ensures !reply.Done? ==> db == old(db)
    {
      SerialKeepsDbOk(names, db, Create(itemName, customer, user, quantity), newId);
      FindSpec(names, db, itemName);
      var found := Find(names, db, itemName);
      if found.Some? {
        if Takes(db.participants[found.value], customer) {
          return AlreadyParticipant;
        }
        return RequestExists(db.requests[found.value]);
      }
      if Blank(itemName) || quantity <= 0 {
        return Refused;
      }
      var request := Request(newId, itemName, Some(customer), 0, 0, 0, Open);
      var participants := [Participant(customer, quantity)];
      assert Sum(participants) == Sum([]) + quantity;
      request := Recalculated(request, participants);
      var joined := Joined(user, itemName, quantity, request.totalCustomers, request.totalQuantity, true);
      db := Commit(db, Write(request, participants, [joined]));
      reply := Done(request, true);
    }

    method EnsureForItem(itemName: string, newId: Uuid) returns (reply: Reply)
      requires Valid() && newId !in db.requests
      modifies this
      ensures Valid()
      ensures Result(db, reply) == Serial(names, old(db), Ensure(itemName), newId)
      ensures reply.Done? && reply.isNew ==>
                && newId in db.requests && db.requests[newId] == reply.result
                && reply.result == Request(newId, itemName, None, 0, 0, 0, Inactive)
                && newId in db.participants && db.participants[newId] == []
      ensures db.outbox == old(db).outbox && (!reply.Done? || !reply.isNew ==> db == old(db))
    {
      SerialKeepsDbOk(names, db, Ensure(itemName), newId);
      FindSpec(names, db, itemName);
      var found := Find(names, db, itemName);
      if found.Some? {
        return Done(db.requests[found.value], false);
      }
      if Blank(itemName) {
        return Refused;
      }
      var request := Recalculated(Request(newId, itemName, None, 0, 0, 0, Open), []);
      db := Commit(db, Write(request, [], []));
      reply := Done(request, true);
    }

    /** `mutateParticipants`, and `SetOfferCount`, which differs only in what it mutates. */
    method MutateRequest(op: Op) returns (reply: Reply)
      requires Valid() && OnRow(op)
      modifies this
      ensures Valid()
      ensures forall newId :: Result(db, reply) == Serial(names, old(db), op, newId)
      ensures !reply.Done? ==> db == old(db)
      ensures reply.Done? ==>
                && op.request in old(db).requests && op.request in db.requests
                && db.requests[op.request] == reply.result
                && op.request in db.participants
                && reply.result == old(db).requests[op.request].(
                     totalCustomers := |db.participants[op.request]|, totalQuantity := Sum(db.participants[op.request]),
                     totalOffers := reply.result.totalOffers, status := reply.result.status)
                && db.outbox == old(db).outbox +
                     if op.Join? then [Joined(op.user, reply.result.itemName, op.quantity, reply.result.totalCustomers,
                                              reply.result.totalQuantity, false)] else []
    {
      if op.request !in db.requests {
        return RequestNotFound;
      }
      var change := Mutate(op, db.requests[op.request], db.participants[op.request]);
      if change.Rejected? {
        return change.why;
      }
      if |change.participants| > MAX_INT32 {
        return Refused;
      }
      RowWriteOk(db, op);
      var request := Recalculated(db.requests[op.request].(totalOffers := change.offers), change.participants);
      var w := Write(request, change.participants, JoinedEvent(op, request));
      CommitKeepsTables(db, w);
      CommitKeepsOnePerItem(names, db, w);
      db := Commit(db, w);
      reply := Done(request, false);
    }
  }
}
