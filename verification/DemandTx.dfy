/** request-service under concurrency: every operation is a transaction of several
    statements, any number of them are open at once, and their statements interleave in any
    order the advisory name lock and the row lock allow. A statement sees what was committed
    when it ran and its own transaction's writes (READ COMMITTED). */
module DemandTx {
  import opened Base
  import opened Demand

  /** How far a transaction has come. */
  datatype Stage =
    | Begun
    | NameLocked                                            // holds the advisory lock of its item
    | Absent                                                // and has found no request for it
    | Found(existing: Request, at: nat)                     // a create, and has found this one
    | RowLocked                                             // holds the request's row lock
    | Mutated(participants: seq<Participant>, offers: Int32)
    | Ready(write: Write)                                   // everything written, not committed

  datatype Tx = Tx(op: Op, stage: Stage)

  /** One finished operation: what it was, the id it would have used, what it answered, and how
      many operations had finished when it read the request it answered with. */
  datatype Entry = Entry(op: Op, newId: Uuid, reply: Reply, readAt: nat)

  datatype State = State(db: Db, txs: map<nat, Tx>, log: seq<Entry>)

  const INIT := State(EMPTY, map[], [])

  datatype Step =
    | Begin(t: nat, op: Op)
    | LockName(t: nat)
    | LookUp(t: nat)                // FindRequestByItemName; ends an ensure that finds one
    | CheckCaller(t: nat)           // GetParticipant, a second statement of a create that found one
    | InsertNew(t: nat, id: Uuid)   // request, creator, recalculation and event of a new request
    | LockRow(t: nat)
    | MutateRow(t: nat)
    | Recalculate(t: nat)           // recalculation and event of an existing request
    | CommitTx(t: nat)
    | Abort(t: nat)                 // error, crash or cancelled context: everything rolled back

  // ---------------------------------------------------------------- locks

  function LockOf(n: Names, op: Op): int
    requires op.Create? || op.Ensure?
  {
    n.hash(n.key(op.itemName))
  }

  predicate HoldsName(tx: Tx) {
    (tx.op.Create? || tx.op.Ensure?) && (tx.stage.NameLocked? || tx.stage.Absent? || tx.stage.Found? || tx.stage.Ready?)
  }

  predicate HoldsRow(tx: Tx) {
    OnRow(tx.op) && (tx.stage.RowLocked? || tx.stage.Mutated? || tx.stage.Ready?)
  }

  /** A pending insert of a new request. */
  predicate Inserting(tx: Tx) { (tx.op.Create? || tx.op.Ensure?) && tx.stage.Ready? }

  ghost predicate NameFree(n: Names, s: State, op: Op)
    requires op.Create? || op.Ensure?
  {
    forall u :: u in s.txs && HoldsName(s.txs[u]) ==> LockOf(n, s.txs[u].op) != LockOf(n, op)
  }

  ghost predicate RowFree(s: State, id: Uuid) {
    forall u :: u in s.txs && HoldsRow(s.txs[u]) ==> s.txs[u].op.request != id
  }

  /** A UUID nobody uses, committed or not. */
  ghost predicate Unused(s: State, id: Uuid) {
    && id !in s.db.requests
    && (forall u :: u in s.txs && Inserting(s.txs[u]) ==> s.txs[u].stage.write.request.id != id)
  }

  // ---------------------------------------------------------------- steps

  predicate At(s: State, t: nat, stage: Stage) { t in s.txs && s.txs[t].stage == stage }

  ghost predicate Enabled(n: Names, s: State, t: Step) {
    match t
    case Begin(u, op) => u !in s.txs
    case LockName(u) => At(s, u, Begun) && !OnRow(s.txs[u].op) && NameFree(n, s, s.txs[u].op)
    case LookUp(u) => At(s, u, NameLocked) && !OnRow(s.txs[u].op)
    case CheckCaller(u) =>
      u in s.txs && s.txs[u].stage.Found? && s.txs[u].op.Create? && s.txs[u].stage.existing.id in s.db.participants
    case InsertNew(u, id) => At(s, u, Absent) && !OnRow(s.txs[u].op) && Unused(s, id)
    case LockRow(u) => At(s, u, Begun) && OnRow(s.txs[u].op) && RowFree(s, s.txs[u].op.request)
    case MutateRow(u) =>
      At(s, u, RowLocked) && OnRow(s.txs[u].op)
      && s.txs[u].op.request in s.db.requests && s.txs[u].op.request in s.db.participants
    case Recalculate(u) =>
      u in s.txs && s.txs[u].stage.Mutated? && OnRow(s.txs[u].op) && s.txs[u].op.request in s.db.requests
    case CommitTx(u) => u in s.txs && s.txs[u].stage.Ready?
    case Abort(u) => u in s.txs
  }

  function SetStage(s: State, u: nat, stage: Stage): State
    requires u in s.txs
  {
    s.(txs := s.txs[u := s.txs[u].(stage := stage)])
  }

  /** The transaction ends without a write and answers `reply`. */
  function Finish(s: State, u: nat, newId: Uuid, reply: Reply): State
    requires u in s.txs
  {
    FinishWith(s, u, newId, reply, |s.log|)
  }

  function FinishWith(s: State, u: nat, newId: Uuid, reply: Reply, readAt: nat): State
    requires u in s.txs
  {
    State(s.db, s.txs - {u}, s.log + [Entry(s.txs[u].op, newId, reply, readAt)])
  }

  /** An id no request has, for operations that end without creating one. */
  ghost function SomeUnusedId(db: Db): (id: Uuid)
    ensures id !in db.requests
  {
    FreshExists(db.requests.Keys);
    var id: Uuid :| id !in db.requests;
    id
  }

  lemma FreshExists(ids: set<Uuid>)
    ensures exists id: Uuid :: id !in ids
  {
    var bound := AboveAll(ids);
    assert bound !in ids;
  }

  ghost function Apply(n: Names, s: State, t: Step): State
    requires Enabled(n, s, t)
  {
    match t
    case Begin(u, op) => s.(txs := s.txs[u := Tx(op, Begun)])
    case LockName(u) => SetStage(s, u, NameLocked)
    case LookUp(u) =>
      (match Find(n, s.db, s.txs[u].op.itemName)
       case None => SetStage(s, u, Absent)
       case Some(id) =>
         if id !in s.db.requests || id !in s.db.participants then s.(txs := s.txs - {u})
         else if s.txs[u].op.Create? then SetStage(s, u, Found(s.db.requests[id], |s.log|))
         else Finish(s, u, SomeUnusedId(s.db), FoundReply(s.db, s.txs[u].op, id)))
    case CheckCaller(u) =>
      var existing := s.txs[u].stage.existing;
      if Takes(s.db.participants[existing.id], s.txs[u].op.customer)
      then Finish(s, u, SomeUnusedId(s.db), AlreadyParticipant)
      else FinishWith(s, u, SomeUnusedId(s.db), RequestExists(existing), s.txs[u].stage.at)
    case InsertNew(u, id) =>
      (match NewWrite(s.txs[u].op, id)
       case None => Finish(s, u, id, Refused)
       case Some(w) => SetStage(s, u, Ready(w)))
    case LockRow(u) =>
      if s.txs[u].op.request in s.db.requests then SetStage(s, u, RowLocked)
      else Finish(s, u, SomeUnusedId(s.db), RequestNotFound)
    case MutateRow(u) =>
      var op := s.txs[u].op;
      (match Mutate(op, s.db.requests[op.request], s.db.participants[op.request])
       case Rejected(why) => Finish(s, u, SomeUnusedId(s.db), why)
       case Changed(ps, offers) => SetStage(s, u, Mutated(ps, offers)))
    case Recalculate(u) =>
      var op := s.txs[u].op;
      (match RowWrite(op, s.db.requests[op.request], s.txs[u].stage.participants, s.txs[u].stage.offers)
       case None => Finish(s, u, SomeUnusedId(s.db), Refused)
       case Some(w) => SetStage(s, u, Ready(w)))
    case CommitTx(u) =>
      var tx := s.txs[u];
      State(Commit(s.db, tx.stage.write), s.txs - {u},
            s.log + [Entry(tx.op, if OnRow(tx.op) then SomeUnusedId(s.db) else tx.stage.write.request.id,
                           Done(tx.stage.write.request, !OnRow(tx.op)), |s.log|)])
    case Abort(u) => s.(txs := s.txs - {u})
  }

  ghost predicate Legal(n: Names, s: State, steps: seq<Step>)
    decreases |steps|
  {
    steps == [] || (Enabled(n, s, steps[0]) && Legal(n, Apply(n, s, steps[0]), steps[1..]))
  }

  ghost function Exec(n: Names, s: State, steps: seq<Step>): State
    requires Legal(n, s, steps)
    decreases |steps|
  {
    if steps == [] then s else Exec(n, Apply(n, s, steps[0]), steps[1..])
  }

  // ---------------------------------------------------------------- the simple form

  /** The finished operations run one after the other, none open at the same time. */
  function SerialRun(n: Names, log: seq<Entry>): Db {
    if log == [] then EMPTY
    else
      var last := log[|log| - 1];
      Serial(n, SerialRun(n, log[..|log| - 1]), last.op, last.newId).db
  }

  /** The request handed to a refused create: the one that carries the item, as it was at the
      earlier of two reads; the caller was not on it at the later one. */
  ghost predicate HandedOver(n: Names, was: Db, now: Db, op: Op, existing: Request) {
    && op.Create? && n.key(existing.itemName) == n.key(op.itemName)
    && existing.id in was.requests && was.requests[existing.id] == existing
    && existing.id in now.requests && existing.id in now.participants
    && now.requests[existing.id].itemName == existing.itemName
    && !Takes(now.participants[existing.id], op.customer)
  }

  /** The answer of one operation, with an id that was new where it was used: that of the
      one-after-the-other run, except that a create hands over what it read a statement earlier. */
  ghost predicate ReplyOk(n: Names, log: seq<Entry>, i: nat)
    requires i < |log|
  {
    var e, now := log[i], SerialRun(n, log[..i]);
    && e.newId !in now.requests && e.readAt <= i
    && if e.reply.RequestExists? then HandedOver(n, SerialRun(n, log[..e.readAt]), now, e.op, e.reply.existing)
       else e.reply == Serial(n, now, e.op, e.newId).reply
  }

  ghost predicate RepliesOk(n: Names, log: seq<Entry>) {
    forall i :: 0 <= i < |log| ==> ReplyOk(n, log, i)
  }

  // ---------------------------------------------------------------- invariant

  /** What a transaction has read and computed is still right for what is committed. */
  ghost predicate StageOk(n: Names, db: Db, tx: Tx) {
    match tx.stage
    case Begun => true
    case NameLocked => !OnRow(tx.op)
    case Absent => !OnRow(tx.op) && !Carried(n, db, tx.op.itemName)
    case Found(existing, _) =>
      && tx.op.Create? && n.key(existing.itemName) == n.key(tx.op.itemName)
      && existing.id in db.requests && existing.id in db.participants
      && db.requests[existing.id].itemName == existing.itemName
    case RowLocked => OnRow(tx.op) && tx.op.request in db.requests && tx.op.request in db.participants
    case Mutated(ps, offers) =>
      && OnRow(tx.op) && tx.op.request in db.requests && tx.op.request in db.participants
      && Mutate(tx.op, db.requests[tx.op.request], db.participants[tx.op.request]) == Changed(ps, offers)
    case Ready(w) =>
      if OnRow(tx.op) then
        && tx.op.request in db.requests && tx.op.request in db.participants && w.request.id == tx.op.request
        && var c := Mutate(tx.op, db.requests[tx.op.request], db.participants[tx.op.request]);
        c.Changed? && RowWrite(tx.op, db.requests[tx.op.request], c.participants, c.offers) == Some(w)
      else
        && !Carried(n, db, tx.op.itemName) && w.request.id !in db.requests
        && NewWrite(tx.op, w.request.id) == Some(w)
  }

  ghost predicate StagesOk(n: Names, s: State) {
    forall u :: u in s.txs ==> StageOk(n, s.db, s.txs[u])
  }

  /** What a create has found was the row when it looked. */
  ghost predicate FoundOk(n: Names, log: seq<Entry>, tx: Tx) {
    tx.stage.Found? ==>
      && tx.stage.at <= |log|
      && var was := SerialRun(n, log[..tx.stage.at]);
      tx.stage.existing.id in was.requests && was.requests[tx.stage.existing.id] == tx.stage.existing
  }

  ghost predicate AllFoundOk(n: Names, s: State) {
    forall u :: u in s.txs ==> FoundOk(n, s.log, s.txs[u])
  }

  /** Each lock has one holder, and no two pending inserts share an id. */
  ghost predicate LocksOk(n: Names, s: State) {
    && (forall u, v :: u in s.txs && v in s.txs && u != v ==> Apart(n, s.txs[u], s.txs[v]))
  }

  ghost predicate Apart(n: Names, a: Tx, b: Tx) {
    && (HoldsName(a) && HoldsName(b) ==> LockOf(n, a.op) != LockOf(n, b.op))
    && (HoldsRow(a) && HoldsRow(b) ==> a.op.request != b.op.request)
    && (Inserting(a) && Inserting(b) ==> a.stage.write.request.id != b.stage.write.request.id)
  }

  ghost predicate Inv(n: Names, s: State) {
    && DbOk(n, s.db)
    && StagesOk(n, s) && LocksOk(n, s) && AllFoundOk(n, s)
    && s.db == SerialRun(n, s.log) && RepliesOk(n, s.log)
  }

  // ---------------------------------------------------------------- preservation

  lemma LocksStayOk(n: Names, s: State, t: Step)
    requires LocksOk(n, s) && StagesOk(n, s) && Enabled(n, s, t)
    ensures LocksOk(n, Apply(n, s, t))
  {
    var s' := Apply(n, s, t);
    forall u, v | u in s'.txs && v in s'.txs && u != v ensures Apart(n, s'.txs[u], s'.txs[v]) {
      if u in s.txs && v in s.txs {
        assert Apart(n, s.txs[u], s.txs[v]);
        assert Apart(n, s.txs[v], s.txs[u]);
      }
    }
  }

  /** Another transaction's commit on its own locked row does not disturb what this one has
      read: a request both could change is behind the row lock. */
  lemma RowCommitLeavesOthers(n: Names, db: Db, w: Write, committer: Tx, other: Tx)
    requires OnRow(committer.op) && committer.stage == Ready(w) && StageOk(n, db, committer) && StageOk(n, db, other)
    requires Apart(n, committer, other)
    ensures StageOk(n, Commit(db, w), other)
  {
    var db' := Commit(db, w);
    assert db'.requests.Keys == db.requests.Keys;
    assert forall id :: id in db.requests ==> db'.requests[id].itemName == db.requests[id].itemName;
    if OnRow(other.op) && HoldsRow(other) {
      assert other.op.request != w.request.id;
    }
  }

  /** Nor does the commit of a new request: an item both could open is behind the name lock. */
  lemma InsertLeavesOthers(n: Names, db: Db, w: Write, committer: Tx, other: Tx)
    requires !OnRow(committer.op) && committer.stage == Ready(w) && StageOk(n, db, committer) && StageOk(n, db, other)
    requires Apart(n, committer, other)
    ensures StageOk(n, Commit(db, w), other)
  {
    var db' := Commit(db, w);
    assert forall id :: id in db.requests ==> db'.requests[id] == db.requests[id];
    if OnRow(other.op) {
      assert HoldsRow(other) ==> other.op.request != w.request.id;
    } else if HoldsName(other) {
      assert n.key(w.request.itemName) != n.key(other.op.itemName);
    }
  }

  /** Committing is the operation run alone on what is committed at that moment. */
  lemma CommitIsSerial(n: Names, db: Db, tx: Tx, newId: Uuid)
    requires TablesOk(db) && tx.stage.Ready? && StageOk(n, db, tx)
    requires !OnRow(tx.op) ==> newId == tx.stage.write.request.id
    ensures Serial(n, db, tx.op, newId) ==
              Result(Commit(db, tx.stage.write), Done(tx.stage.write.request, !OnRow(tx.op)))
  {
    if !OnRow(tx.op) {
      FindSpec(n, db, tx.op.itemName);
    }
  }

  /** An answer without a write is the operation run alone, too. */
  lemma RefusalIsSerial(n: Names, s: State, t: Step)
    requires DbOk(n, s.db) && Enabled(n, s, t) && !t.CommitTx? && !t.CheckCaller? && Apply(n, s, t).log != s.log
    requires t.t in s.txs && StageOk(n, s.db, s.txs[t.t])
    ensures var s' := Apply(n, s, t);
            && |s'.log| == |s.log| + 1 && s'.log[..|s.log|] == s.log && s'.db == s.db
            && var e := s'.log[|s.log|];
            && e.newId !in s.db.requests && e.readAt == |s.log| && !e.reply.RequestExists?
            && Serial(n, s.db, e.op, e.newId) == Result(s.db, e.reply)
  {
    var u := t.t;
    if !OnRow(s.txs[u].op) {
      FindSpec(n, s.db, s.txs[u].op.itemName);
    }
  }

  /** The second read of a create that found its item: being on the request is the serial answer;
      otherwise it hands over what it found. */
  lemma CheckAnswers(n: Names, s: State, u: nat)
    requires DbOk(n, s.db) && Enabled(n, s, CheckCaller(u)) && StageOk(n, s.db, s.txs[u])
    ensures var s', tx := Apply(n, s, CheckCaller(u)), s.txs[u];
            && |s'.log| == |s.log| + 1 && s'.log[..|s.log|] == s.log && s'.db == s.db
            && var e := s'.log[|s.log|];
            && e.op == tx.op && e.newId !in s.db.requests && Serial(n, s.db, e.op, e.newId).db == s.db
            && if Takes(s.db.participants[tx.stage.existing.id], tx.op.customer)
               then e.reply == AlreadyParticipant == Serial(n, s.db, e.op, e.newId).reply && e.readAt == |s.log|
               else e.reply == RequestExists(tx.stage.existing) && e.readAt == tx.stage.at
  {
    FindsTheOne(n, s.db, s.txs[u].op.itemName, s.txs[u].stage.existing.id);
  }

  /** The lookup has one answer: the request that carries the item. */
  lemma FindsTheOne(n: Names, db: Db, itemName: string, id: Uuid)
    requires DbOk(n, db) && id in db.requests && n.key(db.requests[id].itemName) == n.key(itemName)
    ensures Find(n, db, itemName) == Some(id)
  {
    FindSpec(n, db, itemName);
  }

  lemma LogExtended(n: Names, log: seq<Entry>, e: Entry)
    requires RepliesOk(n, log) && e.newId !in SerialRun(n, log).requests && e.readAt <= |log|
    requires if e.reply.RequestExists?
             then HandedOver(n, SerialRun(n, log[..e.readAt]), SerialRun(n, log), e.op, e.reply.existing)
             else e.reply == Serial(n, SerialRun(n, log), e.op, e.newId).reply
    ensures RepliesOk(n, log + [e])
    ensures SerialRun(n, log + [e]) == Serial(n, SerialRun(n, log), e.op, e.newId).db
  {
    var log' := log + [e];
    assert log'[..|log|] == log;
    forall i | 0 <= i < |log'| ensures ReplyOk(n, log', i) {
      if i < |log| {
        assert ReplyOk(n, log, i);
        ReplyOkPrefix(n, log', |log|, i);
      } else {
        assert log'[..e.readAt] == log[..e.readAt];
      }
    }
  }

  /** An answer is right or not by what is in the log before it. */
  lemma ReplyOkPrefix(n: Names, log: seq<Entry>, k: nat, i: nat)
    requires i < k <= |log|
    ensures ReplyOk(n, log[..k], i) <==> ReplyOk(n, log, i)
  {
    assert log[..k][..i] == log[..i];
    if log[i].readAt <= i {
      assert log[..k][..log[i].readAt] == log[..log[i].readAt];
    }
  }

  /** What was found stays what was found, however the log grows. */
  lemma StaysFound(n: Names, log: seq<Entry>, e: Entry, tx: Tx)
    requires FoundOk(n, log, tx)
    ensures FoundOk(n, log + [e], tx)
  {
    if tx.stage.Found? {
      assert (log + [e])[..tx.stage.at] == log[..tx.stage.at];
    }
  }

  lemma AllStayFound(n: Names, s: State, t: Step)
    requires AllFoundOk(n, s) && TablesOk(s.db) && s.db == SerialRun(n, s.log) && Enabled(n, s, t)
    requires Apply(n, s, t).log == s.log || exists e :: Apply(n, s, t).log == s.log + [e]
    ensures AllFoundOk(n, Apply(n, s, t))
  {
    var s' := Apply(n, s, t);
    assert s.log[..|s.log|] == s.log;
    forall u | u in s'.txs ensures FoundOk(n, s'.log, s'.txs[u]) {
      if u in s.txs && s'.txs[u] == s.txs[u] {
        if s'.log != s.log { StaysFound(n, s.log, s'.log[|s.log|], s.txs[u]); }
      } else if s'.txs[u].stage.Found? {
        assert t == LookUp(u) && s'.txs[u].stage.at == |s.log|;
      }
    }
  }

  lemma StagesStayOk(n: Names, s: State, t: Step)
    requires Inv(n, s) && Enabled(n, s, t) && !t.CommitTx?
    ensures StagesOk(n, Apply(n, s, t))
  {
    var s' := Apply(n, s, t);
    if t.LookUp? { FindSpec(n, s.db, s.txs[t.t].op.itemName); }
    assert t.t in s.txs ==> StageOk(n, s.db, s.txs[t.t]);
    forall u | u in s'.txs ensures StageOk(n, s.db, s'.txs[u]) {
      if u != t.t { assert s'.txs[u] == s.txs[u] && StageOk(n, s.db, s.txs[u]); }
    }
  }

  lemma CommitStep(n: Names, s: State, u: nat)
    requires Inv(n, s) && Enabled(n, s, CommitTx(u))
    ensures var s' := Apply(n, s, CommitTx(u));
            StagesOk(n, s') && DbOk(n, s'.db) && s'.db == SerialRun(n, s'.log) && RepliesOk(n, s'.log)
  {
    var tx := s.txs[u];
    var s' := Apply(n, s, CommitTx(u));
    var e := s'.log[|s.log|];
    assert StageOk(n, s.db, tx);
    CommitIsSerial(n, s.db, tx, e.newId);
    SerialKeepsDbOk(n, s.db, tx.op, e.newId);
    LogExtended(n, s.log, e);
    forall v | v in s'.txs ensures StageOk(n, s'.db, s'.txs[v]) {
      assert StageOk(n, s.db, s.txs[v]) && Apart(n, tx, s.txs[v]);
      if OnRow(tx.op) {
        RowCommitLeavesOthers(n, s.db, tx.stage.write, tx, s.txs[v]);
      } else {
        InsertLeavesOthers(n, s.db, tx.stage.write, tx, s.txs[v]);
      }
    }
  }

  lemma InvStep(n: Names, s: State, t: Step)
    requires Inv(n, s) && Enabled(n, s, t)
    ensures Inv(n, Apply(n, s, t))
  {
    LocksStayOk(n, s, t);
    var s' := Apply(n, s, t);
    if t.CommitTx? {
      CommitStep(n, s, t.t);
      assert s'.log == s.log + [s'.log[|s.log|]];
    } else {
      StagesStayOk(n, s, t);
      if s'.log != s.log {
        RefusalStep(n, s, t);
        assert s'.log == s.log + [s'.log[|s.log|]];
      }
    }
    AllStayFound(n, s, t);
  }

  /** The log with the new answer. */
  ghost predicate LogGrows(n: Names, s: State, s': State) {
    && |s'.log| == |s.log| + 1 && s'.log[..|s.log|] == s.log && s'.db == s.db
    && s'.db == SerialRun(n, s'.log) && RepliesOk(n, s'.log)
  }

  lemma RefusalStep(n: Names, s: State, t: Step)
    requires Inv(n, s) && Enabled(n, s, t) && !t.CommitTx? && Apply(n, s, t).log != s.log
    ensures LogGrows(n, s, Apply(n, s, t))
  {
    var s' := Apply(n, s, t);
    assert StageOk(n, s.db, s.txs[t.t]) && FoundOk(n, s.log, s.txs[t.t]);
    if t.CheckCaller? {
      CheckStep(n, s, t.t);
    } else {
      RefusalIsSerial(n, s, t);
      LogExtended(n, s.log, s'.log[|s.log|]);
      assert s'.log == s.log + [s'.log[|s.log|]];
    }
  }

  lemma CheckStep(n: Names, s: State, u: nat)
    requires DbOk(n, s.db) && s.db == SerialRun(n, s.log) && RepliesOk(n, s.log)
    requires Enabled(n, s, CheckCaller(u)) && StageOk(n, s.db, s.txs[u]) && FoundOk(n, s.log, s.txs[u])
    ensures LogGrows(n, s, Apply(n, s, CheckCaller(u)))
  {
    var s' := Apply(n, s, CheckCaller(u));
    CheckAnswers(n, s, u);
    LogExtended(n, s.log, s'.log[|s.log|]);
    assert s'.log == s.log + [s'.log[|s.log|]];
  }

  lemma {:induction false} InvRun(n: Names, s: State, steps: seq<Step>)
    requires Inv(n, s) && Legal(n, s, steps)
    ensures Inv(n, Exec(n, s, steps))
    decreases |steps|
  {
    if steps != [] {
      InvStep(n, s, steps[0]);
      InvRun(n, Apply(n, s, steps[0]), steps[1..]);
    }
  }

  // ---------------------------------------------------------------- theorems

  /** Every interleaving leaves the database of its finished operations run one after the other,
      in the order they committed or answered, and gave their answers, but for one: a create that
      finds its item carried reads the request first and whether the caller is on it second, so
      the request it hands over is as of the first read. */
  lemma Linearizable(n: Names, steps: seq<Step>)
    requires Legal(n, INIT, steps)
    ensures var s := Exec(n, INIT, steps);
            && s.db == SerialRun(n, s.log)
            && forall i :: 0 <= i < |s.log| && !s.log[i].reply.RequestExists? ==>
                 s.log[i].reply == Serial(n, SerialRun(n, s.log[..i]), s.log[i].op, s.log[i].newId).reply
  {
    InvRun(n, INIT, steps);
    var log := Exec(n, INIT, steps).log;
    forall i | 0 <= i < |log| && !log[i].reply.RequestExists?
      ensures log[i].reply == Serial(n, SerialRun(n, log[..i]), log[i].op, log[i].newId).reply
    {
      assert ReplyOk(n, log, i);
    }
  }

  /** A request, once there, is there for good and keeps its name. */
  lemma RequestsStay(n: Names, db: Db, op: Op, newId: Uuid, id: Uuid)
    requires TablesOk(db) && newId !in db.requests && id in db.requests
    ensures var db' := Serial(n, db, op, newId).db;
            id in db'.requests && db'.requests[id].itemName == db.requests[id].itemName
  {
    if OnRow(op) {
      if op.request in db.requests {
        var m := Mutate(op, db.requests[op.request], db.participants[op.request]);
        if m.Changed? && |m.participants| <= MAX_INT32 {
          GoesThrough(db, op, m.participants, m.offers);
          CommitOnRow(db, RowWrite(op, db.requests[op.request], m.participants, m.offers).value, id);
        }
      }
    } else if Find(n, db, op.itemName).None? && NewWrite(op, newId).Some? {
      CommitOnRow(db, NewWrite(op, newId).value, id);
    }
  }

  lemma {:induction false} RequestsStayOverRun(n: Names, log: seq<Entry>, from: nat, i: nat, id: Uuid)
    requires RepliesOk(n, log) && from <= i <= |log| && id in SerialRun(n, log[..from]).requests
    ensures id in SerialRun(n, log[..i]).requests
    ensures SerialRun(n, log[..i]).requests[id].itemName == SerialRun(n, log[..from]).requests[id].itemName
    decreases i - from
  {
    if from < i {
      RequestsStayOverRun(n, log, from, i - 1, id);
      SerialRunOk(n, log, i - 1);
      assert log[..i][..i - 1] == log[..i - 1] && log[..i][i - 1] == log[i - 1];
      assert ReplyOk(n, log, i - 1);
      RequestsStay(n, SerialRun(n, log[..i - 1]), log[i - 1].op, log[i - 1].newId, id);
    }
  }

  /** What a create would be told of an item this request carries. */
  lemma CreateFinds(n: Names, db: Db, op: Op, newId: Uuid, id: Uuid)
    requires DbOk(n, db) && op.Create? && id in db.requests && n.key(db.requests[id].itemName) == n.key(op.itemName)
    ensures Serial(n, db, op, newId) ==
            Result(db, if Takes(db.participants[id], op.customer) then AlreadyParticipant
                       else RequestExists(db.requests[id]))
  {
    FindsTheOne(n, db, op.itemName, id);
  }

  /** The answer that can match no serial run, exactly. A create is handed the request as it was
      when the create looked it up, and the caller was not on it when that was checked. Of all the
      moments from the look-up to the answer, the answer is the serial one at exactly those at
      which the row is the one handed over and the caller is not on it. So it is the serial answer
      at the look-up unless the caller was on the request then, and the serial answer at the check
      if and only if the row is the same again. */
  lemma HandedOverExactly(n: Names, steps: seq<Step>, i: nat, k: nat)
    requires Legal(n, INIT, steps)
    requires var log := Exec(n, INIT, steps).log; i < |log| && log[i].reply.RequestExists? && log[i].readAt <= k <= i
    ensures var e := Exec(n, INIT, steps).log[i];
            var id, at := e.reply.existing.id, SerialRun(n, Exec(n, INIT, steps).log[..k]);
            && e.op.Create? && id in at.requests && id in at.participants
            && n.key(at.requests[id].itemName) == n.key(e.op.itemName)
            && (k == e.readAt ==> at.requests[id] == e.reply.existing)
            && (k == i ==> !Takes(at.participants[id], e.op.customer))
            && (e.reply == Serial(n, at, e.op, e.newId).reply
                <==> at.requests[id] == e.reply.existing && !Takes(at.participants[id], e.op.customer))
  {
    InvRun(n, INIT, steps);
    var log := Exec(n, INIT, steps).log;
    var e := log[i];
    assert ReplyOk(n, log, i);
    RequestsStayOverRun(n, log, e.readAt, k, e.reply.existing.id);
    SerialRunOk(n, log, k);
    CreateFinds(n, SerialRun(n, log[..k]), e.op, e.newId, e.reply.existing.id);
  }

  /** So over all runs a create that found its item carried is told AlreadyParticipant exactly when
      the caller was on that request at the check, and otherwise handed the request it found. */
  lemma CreateRefusedOverRuns(n: Names, steps: seq<Step>, i: nat)
    requires Legal(n, INIT, steps)
    requires var log := Exec(n, INIT, steps).log;
             i < |log| && log[i].op.Create? && Carried(n, SerialRun(n, log[..i]), log[i].op.itemName)
    ensures var log := Exec(n, INIT, steps).log;
            var e, now := log[i], SerialRun(n, log[..i]);
            var id := Find(n, now, e.op.itemName);
            && id.Some? && id.value in now.requests && id.value in now.participants
            && (e.reply == AlreadyParticipant <==> Takes(now.participants[id.value], e.op.customer))
            && (e.reply != AlreadyParticipant ==>
                  && e.reply.RequestExists? && e.reply.existing.id == id.value && e.readAt <= i
                  && var was := SerialRun(n, log[..e.readAt]);
                  id.value in was.requests && was.requests[id.value] == e.reply.existing)
  {
    InvRun(n, INIT, steps);
    var log := Exec(n, INIT, steps).log;
    var e, now := log[i], SerialRun(n, log[..i]);
    assert ReplyOk(n, log, i);
    SerialRunOk(n, log, i);
    FindSpec(n, now, e.op.itemName);
    var id := Find(n, now, e.op.itemName).value;
    CreateFinds(n, now, e.op, e.newId, id);
  }

  lemma {:induction false} RunSnoc(n: Names, s: State, steps: seq<Step>, t: Step)
    requires Legal(n, s, steps) && Enabled(n, Exec(n, s, steps), t)
    ensures Legal(n, s, steps + [t]) && Exec(n, s, steps + [t]) == Apply(n, Exec(n, s, steps), t)
    decreases |steps|
  {
    if steps == [] {
      assert [t][1..] == [] && Legal(n, Apply(n, s, t), []);
      assert Exec(n, s, [t]) == Exec(n, Apply(n, s, t), []);
      assert [] + [t] == [t];
    } else {
      assert (steps + [t])[1..] == steps[1..] + [t];
      RunSnoc(n, Apply(n, s, steps[0]), steps[1..], t);
    }
  }

  /** A create runs up to its look-up. */
  lemma CreateLooksUp(n: Names, s: State, op: Op, id: Uuid) returns (steps: seq<Step>)
    requires DbOk(n, s.db) && s.txs == map[] && op.Create?
    requires id in s.db.requests && n.key(s.db.requests[id].itemName) == n.key(op.itemName)
    ensures Legal(n, s, steps)
    ensures Exec(n, s, steps) == s.(txs := map[0 := Tx(op, Found(s.db.requests[id], |s.log|))])
  {
    FindsTheOne(n, s.db, op.itemName, id);
    RunSnoc(n, s, [], Begin(0, op));
    steps := [] + [Begin(0, op)];
    RunSnoc(n, s, steps, LockName(0));
    steps := steps + [LockName(0)];
    RunSnoc(n, s, steps, LookUp(0));
    steps := steps + [LookUp(0)];
  }

  lemma RunOfTwo(n: Names, s: State, a: Step, b: Step)
    requires Enabled(n, s, a) && Enabled(n, Apply(n, s, a), b)
    ensures Legal(n, s, [a, b]) && Exec(n, s, [a, b]) == Apply(n, Apply(n, s, a), b)
  {
    var s1 := Apply(n, s, a);
    assert [a, b][1..] == [b] && [b][1..] == [];
    assert Legal(n, Apply(n, s1, b), []) && Legal(n, s1, [b]);
    assert Exec(n, s1, [b]) == Exec(n, Apply(n, s1, b), []);
  }

  /** A row operation takes its lock. */
  lemma RowOpLocks(n: Names, s: State, u: nat, op: Op)
    requires u !in s.txs && OnRow(op) && op.request in s.db.requests && RowFree(s, op.request)
    ensures var steps := [Begin(u, op), LockRow(u)];
            Legal(n, s, steps) && Exec(n, s, steps) == s.(txs := s.txs[u := Tx(op, RowLocked)])
  {
    RunOfTwo(n, s, Begin(u, op), LockRow(u));
    assert s.txs[u := Tx(op, Begun)][u := Tx(op, RowLocked)] == s.txs[u := Tx(op, RowLocked)];
  }

  /** And writes its rows. */
  lemma RowOpWrites(n: Names, s: State, u: nat, op: Op, w: Write)
    requires At(s, u, RowLocked) && s.txs[u].op == op && OnRow(op)
    requires op.request in s.db.requests && op.request in s.db.participants
    requires var c := Mutate(op, s.db.requests[op.request], s.db.participants[op.request]);
             c.Changed? && RowWrite(op, s.db.requests[op.request], c.participants, c.offers) == Some(w)
    ensures var steps := [MutateRow(u), Recalculate(u)];
            Legal(n, s, steps) && Exec(n, s, steps) == s.(txs := s.txs[u := Tx(op, Ready(w))])
  {
    var c := Mutate(op, s.db.requests[op.request], s.db.participants[op.request]);
    var s1 := Apply(n, s, MutateRow(u));
    assert s1 == s.(txs := s.txs[u := Tx(op, Mutated(c.participants, c.offers))]);
    RunOfTwo(n, s, MutateRow(u), Recalculate(u));
    assert s1.txs[u := Tx(op, Ready(w))] == s.txs[u := Tx(op, Ready(w))];
  }

  /** A row operation from its beginning to its commit, while other transactions wait. */
  lemma RowOpRuns(n: Names, s: State, u: nat, op: Op, w: Write) returns (steps: seq<Step>)
    requires u !in s.txs && OnRow(op) && op.request in s.db.requests && op.request in s.db.participants
    requires RowFree(s, op.request)
    requires var c := Mutate(op, s.db.requests[op.request], s.db.participants[op.request]);
             c.Changed? && RowWrite(op, s.db.requests[op.request], c.participants, c.offers) == Some(w)
    ensures Legal(n, s, steps)
    ensures Exec(n, s, steps) ==
            State(Commit(s.db, w), s.txs, s.log + [Entry(op, SomeUnusedId(s.db), Done(w.request, false), |s.log|)])
  {
    RowOpLocks(n, s, u, op);
    var s1 := s.(txs := s.txs[u := Tx(op, RowLocked)]);
    RowOpWrites(n, s1, u, op, w);
    RunsJoin(n, s, [Begin(u, op), LockRow(u)], [MutateRow(u), Recalculate(u)]);
    steps := [Begin(u, op), LockRow(u)] + [MutateRow(u), Recalculate(u)];
    var s2 := s1.(txs := s1.txs[u := Tx(op, Ready(w))]);
    assert s2.txs - {u} == s.txs;
    RunSnoc(n, s, steps, CommitTx(u));
    steps := steps + [CommitTx(u)];
  }

  /** What the only participant's leave writes. */
  lemma LastLeave(db: Db, c: Uuid, q: Int32, id: Uuid) returns (w: Write)
    requires TablesOk(db) && id in db.requests && db.participants[id] == [Participant(c, q)]
    ensures w.request.id == id && w.participants == [] && w.request.totalCustomers == 0
    ensures w.request.itemName == db.requests[id].itemName && db.requests[id].totalCustomers == 1
    ensures var m := Mutate(Leave(id, c), db.requests[id], db.participants[id]);
            m.Changed? && RowWrite(Leave(id, c), db.requests[id], m.participants, m.offers) == Some(w)
    ensures SerialRow(db, Leave(id, c)).db == Commit(db, w)
  {
    var op, r, ps := Leave(id, c), db.requests[id], [Participant(c, q)];
    assert RequestOk(r, ps) && IndexOf(ps, c) == 0;
    assert ps[..0] + ps[1..] == [];
    w := RowWrite(op, r, [], r.totalOffers).value;
  }

  /** An answer that is no serial answer. From any state with nothing open and a request whose only
      participant is c: c's create of the same item looks the request up, c's own leave commits, and
      the create is answered with the request as it was, c still counted on it. Run alone before
      the leave it would have been told AlreadyParticipant, and after it handed another row. */
  lemma LeaveBetweenReads(n: Names, s: State, op: Op, q: Int32, id: Uuid) returns (steps: seq<Step>)
    requires DbOk(n, s.db) && s.txs == map[] && op.Create?
    requires id in s.db.requests && n.key(s.db.requests[id].itemName) == n.key(op.itemName)
    requires s.db.participants[id] == [Participant(op.customer, q)]
    ensures Legal(n, s, steps)
    ensures var s' := Exec(n, s, steps);
            && |s'.log| == |s.log| + 2
            && s'.log[|s.log| + 1].op == op && s'.log[|s.log| + 1].reply == RequestExists(s.db.requests[id])
            && forall newId :: Serial(n, s.db, op, newId).reply == AlreadyParticipant
                               && Serial(n, s'.db, op, newId).reply.RequestExists?
                               && Serial(n, s'.db, op, newId).reply != s'.log[|s.log| + 1].reply
  {
    var look := CreateLooksUp(n, s, op, id);
    var s1 := s.(txs := map[0 := Tx(op, Found(s.db.requests[id], |s.log|))]);
    var w := LastLeave(s.db, op.customer, q, id);
    var leave := RowOpRuns(n, s1, 1, Leave(id, op.customer), w);
    RunsJoin(n, s, look, leave);
    RunSnoc(n, s, look + leave, CheckCaller(0));
    steps := look + leave + [CheckCaller(0)];
    SerialKeepsDbOk(n, s.db, Leave(id, op.customer), SomeUnusedId(s.db));
    CommitOnRow(s.db, w, id);
    forall newId ensures Serial(n, s.db, op, newId).reply == AlreadyParticipant { CreateFinds(n, s.db, op, newId, id); }
    forall newId ensures Serial(n, Commit(s.db, w), op, newId).reply == RequestExists(w.request) {
      CreateFinds(n, Commit(s.db, w), op, newId, id);
    }
  }

  lemma {:induction false} RunsJoin(n: Names, s: State, a: seq<Step>, b: seq<Step>)
    requires Legal(n, s, a) && Legal(n, Exec(n, s, a), b)
    ensures Legal(n, s, a + b) && Exec(n, s, a + b) == Exec(n, Exec(n, s, a), b)
    decreases |a|
  {
    if a == [] {
      assert a + b == b;
    } else {
      assert (a + b)[1..] == a[1..] + b;
      RunsJoin(n, Apply(n, s, a[0]), a[1..], b);
    }
  }

  /** A create of a new item looks it up and finds nothing. */
  lemma CreateFindsNothing(n: Names, op: Op) returns (steps: seq<Step>)
    requires op.Create?
    ensures Legal(n, INIT, steps) && Exec(n, INIT, steps) == State(EMPTY, map[0 := Tx(op, Absent)], [])
  {
    FindSpec(n, EMPTY, op.itemName);
    RunSnoc(n, INIT, [], Begin(0, op));
    steps := [] + [Begin(0, op)];
    RunSnoc(n, INIT, steps, LockName(0));
    steps := steps + [LockName(0)];
    RunSnoc(n, INIT, steps, LookUp(0));
    steps := steps + [LookUp(0)];
  }

  /** Such a state is reached by one create. */
  lemma OneCreateReachesIt(n: Names, op: Op, id: Uuid) returns (steps: seq<Step>)
    requires op.Create? && !Blank(op.itemName) && 0 < op.quantity
    ensures Legal(n, INIT, steps)
    ensures var s := Exec(n, INIT, steps);
            && DbOk(n, s.db) && s.txs == map[] && id in s.db.requests && s.db.requests[id].itemName == op.itemName
            && s.db.participants[id] == [Participant(op.customer, op.quantity)]
  {
    var look := CreateFindsNothing(n, op);
    var s1, w := State(EMPTY, map[0 := Tx(op, Absent)], []), NewWrite(op, id).value;
    assert Apply(n, s1, InsertNew(0, id)) == s1.(txs := map[0 := Tx(op, Ready(w))]);
    RunOfTwo(n, s1, InsertNew(0, id), CommitTx(0));
    RunsJoin(n, INIT, look, [InsertNew(0, id), CommitTx(0)]);
    steps := look + [InsertNew(0, id), CommitTx(0)];
    InvRun(n, INIT, steps);
  }

  /** In every committed state the stored totals are the count and sum of the participant
      rows, the status says whether anyone wants or sells the item, and the totals fit. */
  lemma DemandAlwaysDerived(n: Names, steps: seq<Step>, id: Uuid)
    requires Legal(n, INIT, steps) && id in Exec(n, INIT, steps).db.requests
    ensures var db := Exec(n, INIT, steps).db;
            && id in db.participants
            && var r, ps := db.requests[id], db.participants[id];
            && r.totalCustomers == |ps| && r.totalQuantity == Sum(ps)
            && (r.status == Inactive <==> ps == [] && r.totalOffers == 0)
            && r.totalCustomers <= r.totalQuantity <= r.totalCustomers * MAX_INT32 < 0x8000_0000_0000_0000
  {
    InvRun(n, INIT, steps);
    var db := Exec(n, INIT, steps).db;
    TotalsFit(db.requests[id], db.participants[id]);
  }

  /** One request per item, whatever the key and hash functions, under any interleaving. */
  lemma ItemsNeverSplit(n: Names, steps: seq<Step>, a: Uuid, b: Uuid)
    requires Legal(n, INIT, steps)
    requires var db := Exec(n, INIT, steps).db;
             a in db.requests && b in db.requests && n.key(db.requests[a].itemName) == n.key(db.requests[b].itemName)
    ensures a == b
  {
    InvRun(n, INIT, steps);
  }

  /** Whatever else was going on, a find-or-create answered with a request for its item. */
  lemma EnsureAlwaysAnswersTheItem(n: Names, steps: seq<Step>, i: nat)
    requires Legal(n, INIT, steps) && i < |Exec(n, INIT, steps).log|
    requires Exec(n, INIT, steps).log[i].op.Ensure?
    ensures var e := Exec(n, INIT, steps).log[i];
            if e.reply == Refused then Blank(e.op.itemName)
            else e.reply.Done? && n.key(e.reply.result.itemName) == n.key(e.op.itemName)
  {
    InvRun(n, INIT, steps);
    var log := Exec(n, INIT, steps).log;
    SerialRunOk(n, log, i);
    assert ReplyOk(n, log, i);
    EnsureAnswersTheItem(n, SerialRun(n, log[..i]), log[i].op.itemName, log[i].newId);
  }

  lemma {:induction false} SerialRunOk(n: Names, log: seq<Entry>, i: nat)
    requires RepliesOk(n, log) && i <= |log|
    ensures DbOk(n, SerialRun(n, log[..i]))
  {
    if i > 0 {
      SerialRunOk(n, log, i - 1);
      assert log[..i][..i - 1] == log[..i - 1];
      assert log[..i][i - 1] == log[i - 1];
      assert ReplyOk(n, log, i - 1);
      SerialKeepsDbOk(n, SerialRun(n, log[..i - 1]), log[i - 1].op, log[i - 1].newId);
    }
  }

  /** A committed create or join. */
  predicate IsArrival(e: Entry) { (e.op.Create? || e.op.Join?) && e.reply.Done? }

  /** The event of the operation at `k`, field by field: to the user who acted, with their quantity,
      the request's name, and the count and sum of its participants once the operation had
      committed; and whether it opened the request. */
  ghost predicate EventOf(n: Names, log: seq<Entry>, k: nat, j: Joined) {
    && k < |log| && IsArrival(log[k])
    && j.user == log[k].op.user && j.quantity == log[k].op.quantity && (j.opens <==> log[k].op.Create?)
    && j.itemName == log[k].reply.result.itemName
    && var ps := SerialRun(n, log[..k + 1]).participants;
    && log[k].reply.result.id in ps
    && j.customers == |ps[log[k].reply.result.id]| && j.total == Sum(ps[log[k].reply.result.id])
  }

  /** The positions of the committed creates and joins, and no others. */
  ghost predicate ArrivalsAt(log: seq<Entry>, at: seq<nat>) {
    Increasing(at) && forall k: int :: k in at <==> 0 <= k < |log| && IsArrival(log[k])
  }

  ghost predicate EventsOf(n: Names, log: seq<Entry>, at: seq<nat>, outbox: seq<Joined>) {
    |outbox| == |at| && forall i :: 0 <= i < |at| ==> EventOf(n, log, at[i], outbox[i])
  }

  /** Event conservation: over any run the outbox holds one REQUEST_JOINED row for each committed
      create and join, that operation's own, in the order they committed, and nothing for anything
      else. */
  lemma OneEventPerArrival(n: Names, steps: seq<Step>) returns (at: seq<nat>)
    requires Legal(n, INIT, steps)
    ensures ArrivalsAt(Exec(n, INIT, steps).log, at)
    ensures EventsOf(n, Exec(n, INIT, steps).log, at, Exec(n, INIT, steps).db.outbox)
  {
    InvRun(n, INIT, steps);
    at := EventsOfLog(n, Exec(n, INIT, steps).log);
  }

  /** The event one operation writes. */
  predicate EventFor(op: Op, r: Request, ps: seq<Participant>, j: Joined) {
    && (op.Create? || op.Join?)
    && j.user == op.user && j.quantity == op.quantity && (j.opens <==> op.Create?) && j.itemName == r.itemName
    && j.customers == |ps| && j.total == Sum(ps)
  }

  /** What one operation adds to the outbox. */
  ghost predicate AddsEvent(op: Op, db: Db, res: Result) {
    if (op.Create? || op.Join?) && res.reply.Done? then
      && |res.db.outbox| == |db.outbox| + 1 && res.db.outbox[..|db.outbox|] == db.outbox
      && res.reply.result.id in res.db.participants
      && EventFor(op, res.reply.result, res.db.participants[res.reply.result.id], res.db.outbox[|db.outbox|])
    else res.db.outbox == db.outbox
  }

  lemma EventWritten(n: Names, db: Db, op: Op, newId: Uuid)
    requires DbOk(n, db) && newId !in db.requests
    ensures AddsEvent(op, db, Serial(n, db, op, newId))
  {
    if OnRow(op) { RowEventWritten(db, op); } else { NewEventWritten(n, db, op, newId); }
  }

  lemma NewEventWritten(n: Names, db: Db, op: Op, newId: Uuid)
    requires !OnRow(op) && newId !in db.requests
    ensures AddsEvent(op, db, SerialNew(n, db, op, newId))
  {
  }

  lemma RowEventWritten(db: Db, op: Op)
    requires OnRow(op) && TablesOk(db)
    ensures AddsEvent(op, db, SerialRow(db, op))
  {
    if op.request in db.requests {
      var r := db.requests[op.request];
      var m := Mutate(op, r, db.participants[op.request]);
      if m.Changed? && |m.participants| <= MAX_INT32 {
        GoesThrough(db, op, m.participants, m.offers);
        var w := RowWrite(op, r, m.participants, m.offers).value;
        CommitOnRow(db, w, op.request);
        assert w.request.id == op.request;
      }
    }
  }

  lemma RepliesOkPrefix(n: Names, log: seq<Entry>, k: nat)
    requires RepliesOk(n, log) && k <= |log|
    ensures RepliesOk(n, log[..k])
  {
    var before := log[..k];
    forall i | 0 <= i < k ensures ReplyOk(n, before, i) {
      assert ReplyOk(n, log, i);
      ReplyOkPrefix(n, log, k, i);
    }
  }

  lemma EventOfPrefix(n: Names, log: seq<Entry>, e: Entry, k: nat, j: Joined)
    requires EventOf(n, log, k, j)
    ensures EventOf(n, log + [e], k, j)
  {
    assert (log + [e])[..k + 1] == log[..k + 1];
  }

  lemma EventsOfMore(n: Names, log: seq<Entry>, e: Entry, at: seq<nat>, outbox: seq<Joined>)
    requires ArrivalsAt(log, at) && EventsOf(n, log, at, outbox)
    ensures !IsArrival(e) ==> ArrivalsAt(log + [e], at) && EventsOf(n, log + [e], at, outbox)
    ensures IsArrival(e) ==> ArrivalsAt(log + [e], at + [|log|])
    ensures forall j :: IsArrival(e) && EventOf(n, log + [e], |log|, j) ==>
              EventsOf(n, log + [e], at + [|log|], outbox + [j])
  {
    var log' := log + [e];
    assert forall k :: 0 <= k < |log| ==> log'[k] == log[k];
    assert forall i :: 0 <= i < |at| ==> at[i] in at;
    forall i | 0 <= i < |at| ensures EventOf(n, log', at[i], outbox[i]) { EventOfPrefix(n, log, e, at[i], outbox[i]); }
  }

  /** Whether an entry is an arrival, and what it answered then, its own serial run says. */
  lemma ArrivalIsSerial(n: Names, log: seq<Entry>, k: nat)
    requires RepliesOk(n, log) && k < |log|
    ensures var now, e := SerialRun(n, log[..k]), log[k];
            && DbOk(n, now) && e.newId !in now.requests
            && (Serial(n, now, e.op, e.newId).reply.Done? <==> e.reply.Done?)
            && (e.reply.Done? ==> e.reply == Serial(n, now, e.op, e.newId).reply)
  {
    assert ReplyOk(n, log, k);
    SerialRunOk(n, log, k);
    if log[k].reply.RequestExists? {
      FindsTheOne(n, SerialRun(n, log[..k]), log[k].op.itemName, log[k].reply.existing.id);
    }
  }

  /** The last operation of a log and what it adds. */
  lemma LastEvent(n: Names, log: seq<Entry>)
    requires RepliesOk(n, log) && log != []
    ensures var k, before, after := |log| - 1, SerialRun(n, log[..|log| - 1]).outbox, SerialRun(n, log).outbox;
            if IsArrival(log[k]) then
              |after| == |before| + 1 && after == before + [after[|before|]] && EventOf(n, log, k, after[|before|])
            else after == before
  {
    var k := |log| - 1;
    var now, e := SerialRun(n, log[..k]), log[k];
    ArrivalIsSerial(n, log, k);
    EventWritten(n, now, e.op, e.newId);
    assert log[..k + 1] == log;
  }

  lemma {:induction false} EventsOfLog(n: Names, log: seq<Entry>) returns (at: seq<nat>)
    requires RepliesOk(n, log)
    ensures ArrivalsAt(log, at) && EventsOf(n, log, at, SerialRun(n, log).outbox)
  {
    if log == [] {
      at := [];
    } else {
      var k := |log| - 1;
      RepliesOkPrefix(n, log, k);
      var before := EventsOfLog(n, log[..k]);
      LastEvent(n, log);
      EventsOfMore(n, log[..k], log[k], before, SerialRun(n, log[..k]).outbox);
      assert log[..k] + [log[k]] == log;
      at := if IsArrival(log[k]) then before + [k] else before;
    }
  }
}
