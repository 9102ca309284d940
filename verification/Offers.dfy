/** offer-service: the offer table and its handlers. A handler reads and checks, then writes
    and commits, without holding a row lock in between, so here the two halves are separate
    steps; the partial unique index is checked by the database at every write. */
module Offers {
  import opened Base

  datatype Status = Pending | Approved | Rejected | Cancelled

  predicate Live(s: Status) { s == Pending || s == Approved }

  datatype Terms = Terms(quantity: int, price: int, currency: string, description: string)

  datatype Picture = Picture(data: seq<bv8>, mediaType: string)

  datatype Offer = Offer(seller: Uuid, request: Uuid, terms: Terms, picture: Option<Picture>, status: Status)

  type Table = map<Uuid, Offer>

  /** `live_offer_of` finds something. */
  predicate HasLive(t: Table, seller: Uuid, request: Uuid) {
    exists o :: o in t && t[o].seller == seller && t[o].request == request && Live(t[o].status)
  }

  /** The index `idx_offer_one_live_per_seller_request`. */
  ghost predicate OneLive(t: Table) {
    forall a, b :: (a in t && b in t && Live(t[a].status) && Live(t[b].status)
                    && t[a].seller == t[b].seller && t[a].request == t[b].request) ==> a == b
  }

  /** `count_live_offers` */
  function LiveOn(t: Table, request: Uuid): set<Uuid> {
    set o | o in t && t[o].request == request && Live(t[o].status)
  }

  function CountLive(t: Table, request: Uuid): nat { |LiveOn(t, request)| }

  // ---------------------------------------------------------------- handlers

  datatype Task =
    | Create(id: Uuid, seller: Uuid, request: Uuid, terms: Terms, picture: Option<Picture>)
    | Update(offer: Uuid, seller: Uuid, terms: Terms, picture: Option<Picture>)
    | Cancel(offer: Uuid, seller: Uuid)
    | Decide(offer: Uuid, approve: bool)

  /** Whether the read and the checks of the handler let it go on. */
  predicate Passes(t: Table, task: Task) {
    match task
    case Create(id, seller, request, _, _) => !HasLive(t, seller, request)
    case Update(o, seller, _, _) => o in t && t[o].seller == seller && t[o].status == Pending
    case Cancel(o, seller) => o in t && t[o].seller == seller && t[o].status == Pending
    case Decide(o, _) => o in t && t[o].status == Pending
  }

  /** What the handler then writes, whatever the table holds by that time. */
  function Written(t: Table, task: Task): Table
    requires task.Create? || task.offer in t
  {
    match task
    case Create(id, seller, request, terms, picture) => t[id := Offer(seller, request, terms, picture, Pending)]
    case Update(o, _, terms, picture) =>
      t[o := t[o].(terms := terms, picture := if picture.Some? then picture else t[o].picture)]
    case Cancel(o, _) => t[o := t[o].(status := Cancelled)]
    case Decide(o, approve) => t[o := t[o].(status := if approve then Approved else Rejected)]
  }

  /** A handler run without interruption, as most are: `None` when it refuses. */
  function Atomically(t: Table, task: Task): Option<Table> {
    if Passes(t, task) && (task.Create? ==> task.id !in t) then Some(Written(t, task)) else None
  }

  // ---------------------------------------------------------------- interleaved handlers

  /** A handler between its read and its write, and the table as it read it. */
  datatype Flight = Flight(task: Task, seen: Table)

  /** The committed table and the handlers between their read and their write. */
  datatype State = State(table: Table, between: map<nat, Flight>)

  /** The columns an update writes are those it gives a value other than the one it read. */
  function Merged(was: Terms, to: Terms, now: Terms): Terms {
    Terms(if to.quantity == was.quantity then now.quantity else to.quantity,
          if to.price == was.price then now.price else to.price,
          if to.currency == was.currency then now.currency else to.currency,
          if to.description == was.description then now.description else to.description)
  }

  /** What the handler's write makes of the table, whatever has been written since its read. */
  function Landed(t: Table, f: Flight): Table
    requires f.task.Create? || f.task.offer in t
  {
    if f.task.Update? && f.task.offer in f.seen then
      var o, was := f.task.offer, f.seen[f.task.offer];
      var changed := f.task.picture.Some? && f.task.picture != was.picture;
      t[o := t[o].(terms := Merged(was.terms, f.task.terms, t[o].terms),
                   picture := if changed then f.task.picture else t[o].picture)]
    else Written(t, f.task)
  }

  /** Uninterrupted, that is the whole of the update. */
  lemma LandedAtOnce(t: Table, task: Task)
    requires task.Create? || task.offer in t
    ensures Landed(t, Flight(task, t)) == Written(t, task)
  {
  }

  /** Column by column, what a value given, the value read and the value now stored leave. */
  predicate ColumnLeft<T(==)>(given: T, was: T, now: T, left: T) {
    if given != was then left == given else left == now
  }

  /** What a handler's write leaves of its own offer. An update leaves in each column the value given
      if it differs from the one read, and otherwise the value now stored; a cancellation and a
      decision change the status alone, a new offer is as given and PENDING; and no other row
      changes. */
  lemma LandedRow(t: Table, f: Flight)
    requires if f.task.Create? then f.task.id !in t else f.task.offer in t && f.task.offer in f.seen
    ensures var id, t' := if f.task.Create? then f.task.id else f.task.offer, Landed(t, f);
            && t'.Keys == t.Keys + {id} && (forall o :: o in t && o != id ==> t'[o] == t[o])
            && match f.task
               case Create(_, seller, request, terms, picture) =>
                 && t'[id].seller == seller && t'[id].request == request && t'[id].terms == terms
                 && t'[id].picture == picture && t'[id].status == Pending
               case Update(_, _, given, picture) =>
                 && t'[id].seller == t[id].seller && t'[id].request == t[id].request && t'[id].status == t[id].status
                 && ColumnLeft(given.quantity, f.seen[id].terms.quantity, t[id].terms.quantity, t'[id].terms.quantity)
                 && ColumnLeft(given.price, f.seen[id].terms.price, t[id].terms.price, t'[id].terms.price)
                 && ColumnLeft(given.currency, f.seen[id].terms.currency, t[id].terms.currency, t'[id].terms.currency)
                 && ColumnLeft(given.description, f.seen[id].terms.description, t[id].terms.description,
                               t'[id].terms.description)
                 && ColumnLeft(if picture.Some? then picture else f.seen[id].picture, f.seen[id].picture, t[id].picture,
                               t'[id].picture)
               case Cancel(_, _) => t'[id] == t[id].(status := Cancelled)
               case Decide(_, approve) => t'[id] == t[id].(status := if approve then Approved else Rejected)
  {
  }

  datatype Step = Check(h: nat, task: Task) | Write(h: nat) | Drop(h: nat)

  ghost predicate Enabled(s: State, t: Step) {
    match t
    case Check(h, task) => h !in s.between && Passes(s.table, task)
    case Write(h) =>
      && h in s.between
      && (if s.between[h].task.Create? then s.between[h].task.id !in s.table else s.between[h].task.offer in s.table)
      && OneLive(Landed(s.table, s.between[h]))
    case Drop(h) => h in s.between
  }

  ghost function Apply(s: State, t: Step): State
    requires Enabled(s, t)
  {
    match t
    case Check(h, task) => s.(between := s.between[h := Flight(task, s.table)])
    case Write(h) => State(Landed(s.table, s.between[h]), s.between - {h})
    case Drop(h) => s.(between := s.between - {h})
  }

  ghost predicate Legal(s: State, steps: seq<Step>)
    decreases |steps|
  {
    steps == [] || (Enabled(s, steps[0]) && Legal(Apply(s, steps[0]), steps[1..]))
  }

  ghost function Exec(s: State, steps: seq<Step>): State
    requires Legal(s, steps)
    decreases |steps|
  {
    if steps == [] then s else Exec(Apply(s, steps[0]), steps[1..])
  }

  /** In every run, racing handlers included: at most one live offer per seller and request,
      no offer disappears, and none changes its seller or its request. */
  lemma {:induction false} OneLivePerSellerAndRequest(s: State, steps: seq<Step>)
    requires OneLive(s.table) && Legal(s, steps)
    ensures var t := Exec(s, steps).table;
            && OneLive(t)
            && forall o :: o in s.table ==>
                 o in t && t[o].seller == s.table[o].seller && t[o].request == s.table[o].request
    decreases |steps|
  {
    if steps != [] {
      StepKeepsParties(s, steps[0]);
      OneLivePerSellerAndRequest(Apply(s, steps[0]), steps[1..]);
    }
  }

  lemma StepKeepsParties(s: State, t: Step)
    requires OneLive(s.table) && Enabled(s, t)
    ensures var t' := Apply(s, t).table;
            && OneLive(t')
            && forall o :: o in s.table ==>
                 o in t' && t'[o].seller == s.table[o].seller && t'[o].request == s.table[o].request
  {
  }

  /** Whether two handlers are between read and write of the same offer. */
  predicate SameOffer(a: Task, b: Task) { !a.Create? && !b.Create? && a.offer == b.offer }

  /** The run never lets a handler read an offer another one is about to write. */
  ghost predicate NoOverlap(s: State, steps: seq<Step>)
    requires Legal(s, steps)
    decreases |steps|
  {
    steps == [] ||
    ((steps[0].Check? ==> forall h :: h in s.between ==> !SameOffer(s.between[h].task, steps[0].task))
     && NoOverlap(Apply(s, steps[0]), steps[1..]))
  }

  /** Handlers between read and write are alone with their offer, and it is still PENDING. */
  ghost predicate ReadsFresh(s: State) {
    && (forall h :: h in s.between && !s.between[h].task.Create? ==>
          s.between[h].task.offer in s.table && s.table[s.between[h].task.offer].status == Pending)
    && (forall h, g :: h in s.between && g in s.between && h != g ==> !SameOffer(s.between[h].task, s.between[g].task))
  }

  /** When handlers on one offer do not overlap, an offer that has left PENDING keeps its
      status, terms and picture for good. */
  lemma {:induction false} DecidedOffersFrozen(s: State, steps: seq<Step>, o: Uuid)
    requires ReadsFresh(s) && Legal(s, steps) && NoOverlap(s, steps)
    requires o in s.table && s.table[o].status != Pending
    ensures o in Exec(s, steps).table && Exec(s, steps).table[o] == s.table[o]
    decreases |steps|
  {
    if steps != [] {
      ReadsStayFresh(s, steps[0]);
      DecidedOffersFrozen(Apply(s, steps[0]), steps[1..], o);
    }
  }

  lemma ReadsStayFresh(s: State, t: Step)
    requires ReadsFresh(s) && Enabled(s, t)
    requires t.Check? ==> forall h :: h in s.between ==> !SameOffer(s.between[h].task, t.task)
    ensures ReadsFresh(Apply(s, t))
  {
    var s' := Apply(s, t);
    if t.Write? {
      forall h | h in s'.between && !s'.between[h].task.Create?
        ensures s'.between[h].task.offer in s'.table && s'.table[s'.between[h].task.offer].status == Pending
      {
        assert !SameOffer(s.between[h].task, s.between[t.h].task);
      }
    }
  }

  /** The condition is needed. A cancellation that read the offer before an approval was
      written overwrites that approval: both handlers checked for PENDING, neither held the
      row. The same run leaves the seller free to make a second live offer. */
  lemma OverlapUndoesApproval(o: Uuid, offer: Offer) returns (s: State, steps: seq<Step>)
    requires offer.status == Pending
    ensures s == State(map[o := offer], map[])
    ensures Legal(s, steps) && !NoOverlap(s, steps)
    ensures |steps| == 4 && Legal(s, steps[..3])
    ensures Exec(s, steps[..3]).table == map[o := offer.(status := Approved)]
    ensures Exec(s, steps).table == map[o := offer.(status := Cancelled)]
    ensures !HasLive(Exec(s, steps).table, offer.seller, offer.request)
  {
    s := State(map[o := offer], map[]);
    var c, d := Cancel(o, offer.seller), Decide(o, true);
    var s1 := Apply(s, Check(0, c));
    var s2 := Apply(s1, Check(1, d));
    assert s2.between == map[0 := Flight(c, s.table), 1 := Flight(d, s.table)] && s2.table == s.table;
    assert OneLive(Landed(s2.table, s2.between[1]));
    var s3 := Apply(s2, Write(1));
    assert s3.between == map[0 := Flight(c, s.table)] && s3.table == map[o := offer.(status := Approved)];
    assert OneLive(Landed(s3.table, s3.between[0]));
    var s4 := Apply(s3, Write(0));
    assert s4.table == map[o := offer.(status := Cancelled)];
    steps := [Check(0, c), Check(1, d), Write(1), Write(0)];
    RunOfTwo(s2, Write(1), Write(0));
    RunOfTwo(s, Check(0, c), Check(1, d));
    RunsCompose(s, [Check(0, c), Check(1, d)], [Write(1), Write(0)]);
    assert [Check(0, c), Check(1, d)] + [Write(1), Write(0)] == steps;
    RunOfOne(s2, Write(1));
    RunsCompose(s, [Check(0, c), Check(1, d)], [Write(1)]);
    assert [Check(0, c), Check(1, d)] + [Write(1)] == steps[..3];
    assert steps[1..] == [Check(1, d), Write(1), Write(0)] && SameOffer(s1.between[0].task, d);
    assert !NoOverlap(s1, steps[1..]);
  }

  lemma {:induction false} RunsCompose(s: State, a: seq<Step>, b: seq<Step>)
    requires Legal(s, a) && Legal(Exec(s, a), b)
    ensures Legal(s, a + b) && Exec(s, a + b) == Exec(Exec(s, a), b)
    decreases |a|
  {
    if a == [] {
      assert a + b == b;
    } else {
      assert (a + b)[1..] == a[1..] + b;
      RunsCompose(Apply(s, a[0]), a[1..], b);
    }
  }

  // ---------------------------------------------------------------- when a decided offer is frozen

  predicate On(s: State, h: nat, o: Uuid) {
    h in s.between && !s.between[h].task.Create? && s.between[h].task.offer == o
  }

  /** A handler between read and write that would leave the offer other than it is. */
  predicate Stale(s: State, h: nat, o: Uuid) {
    On(s, h, o) && o in s.table && Landed(s.table, s.between[h])[o] != s.table[o]
  }

  predicate SamePair(a: Offer, b: Offer) { a.seller == b.seller && a.request == b.request }

  /** What keeps the index from ever letting that write through: the seller has another,
      APPROVED, offer on the request, and no handler is about to take it out of the live set. */
  ghost predicate Rival(s: State, o: Uuid, other: Uuid) {
    && o in s.table && other in s.table && other != o && SamePair(s.table[o], s.table[other])
    && s.table[other].status == Approved
    && forall g :: On(s, g, other) ==> Live(Landed(s.table, s.between[g])[other].status)
  }

  /** The handler's write can still go through, now or after others. */
  ghost predicate CanLand(s: State, h: nat, o: Uuid)
    requires Stale(s, h, o)
  {
    || Live(s.table[o].status)
    || !Live(Landed(s.table, s.between[h])[o].status)
    || forall other :: !Rival(s, o, other)
  }

  ghost predicate Exposed(s: State, o: Uuid) {
    exists h :: Stale(s, h, o) && CanLand(s, h, o)
  }

  lemma RivalForbids(s: State, h: nat, o: Uuid, other: Uuid)
    requires Stale(s, h, o) && Rival(s, o, other) && Live(Landed(s.table, s.between[h])[o].status)
    ensures !OneLive(Landed(s.table, s.between[h]))
  {
    var t := Landed(s.table, s.between[h]);
    assert Live(t[o].status) && Live(t[other].status) && SamePair(t[o], t[other]);
  }

  /** An offer that is decided and not exposed stays so, whatever step comes next, and the step
      leaves it as it is. */
  lemma NotExposedStep(s: State, t: Step, o: Uuid)
    requires OneLive(s.table) && Enabled(s, t) && o in s.table && s.table[o].status != Pending && !Exposed(s, o)
    ensures var s' := Apply(s, t); o in s'.table && s'.table[o] == s.table[o] && !Exposed(s', o)
  {
    var s' := Apply(s, t);
    forall h | Stale(s, h, o) ensures !OneLive(Landed(s.table, s.between[h])) {
      var other :| Rival(s, o, other);
      RivalForbids(s, h, o, other);
    }
    forall h | Stale(s', h, o) ensures !CanLand(s', h, o) {
      assert Stale(s, h, o) && !CanLand(s, h, o);
      var other :| Rival(s, o, other);
      RivalStays(s, t, o, other);
    }
  }

  lemma RivalStays(s: State, t: Step, o: Uuid, other: Uuid)
    requires Enabled(s, t) && Rival(s, o, other) && s.table[o].status != Pending
    requires o in Apply(s, t).table && Apply(s, t).table[o] == s.table[o]
    ensures Rival(Apply(s, t), o, other)
  {
    var s' := Apply(s, t);
    forall g | On(s', g, other) ensures Live(Landed(s'.table, s'.between[g])[other].status) {
      assert On(s, g, other);
    }
  }

  ghost predicate NoneStale(s: State, o: Uuid) { forall h :: !Stale(s, h, o) }

  /** A decided offer no handler would write differently stays so, whatever step comes next. */
  lemma NoneStaleStep(s: State, t: Step, o: Uuid)
    requires Enabled(s, t) && o in s.table && s.table[o].status != Pending && NoneStale(s, o)
    ensures var s' := Apply(s, t); o in s'.table && s'.table[o] == s.table[o] && NoneStale(s', o)
  {
    var s' := Apply(s, t);
    assert t.Write? ==> !Stale(s, t.h, o);
    forall h ensures !Stale(s', h, o) { assert !Stale(s, h, o); }
  }

  /** Without an exposing handler the offer is the same at the end of every run, overlaps
      allowed. */
  lemma {:induction false} NotExposedFrozen(s: State, steps: seq<Step>, o: Uuid)
    requires OneLive(s.table) && Legal(s, steps) && o in s.table && s.table[o].status != Pending && !Exposed(s, o)
    ensures o in Exec(s, steps).table && Exec(s, steps).table[o] == s.table[o]
    decreases |steps|
  {
    if steps != [] {
      NotExposedStep(s, steps[0], o);
      NotExposedFrozen(Apply(s, steps[0]), steps[1..], o);
    }
  }

  lemma RunOfOne(s: State, a: Step)
    requires Enabled(s, a)
    ensures Legal(s, [a]) && Exec(s, [a]) == Apply(s, a)
  {
    assert [a][1..] == [];
    assert Legal(Apply(s, a), []);
  }

  lemma RunOfTwo(s: State, a: Step, b: Step)
    requires Enabled(s, a) && Enabled(Apply(s, a), b)
    ensures Legal(s, [a, b]) && Exec(s, [a, b]) == Apply(Apply(s, a), b)
  {
    assert [a, b][1..] == [b];
    RunOfOne(Apply(s, a), b);
  }

  /** The write goes through where no other offer of the pair is live. */
  lemma WriteLands(s: State, h: nat, o: Uuid)
    requires OneLive(s.table) && Stale(s, h, o) && forall other :: !LiveRival(s.table, o, other)
    ensures Enabled(s, Write(h))
  {
    assert forall a :: a in s.table && a != o && SamePair(s.table[o], s.table[a]) ==> !LiveRival(s.table, o, a);
  }

  /** Or where it does not add to the live offers. */
  lemma HarmlessWriteLands(s: State, h: nat, o: Uuid)
    requires OneLive(s.table) && Stale(s, h, o)
    requires Live(s.table[o].status) || !Live(Landed(s.table, s.between[h])[o].status)
    ensures Enabled(s, Write(h))
  {
  }

  /** Once the one rival of the pair is gone the write goes through. */
  lemma LandsAfter(s: State, h: nat, o: Uuid, other: Uuid, g: nat)
    requires OneLive(s.table) && Stale(s, h, o) && LiveRival(s.table, o, other) && g != h && On(s, g, other)
    requires !Live(Landed(s.table, s.between[g])[other].status)
    ensures Enabled(s, Write(g)) && Enabled(Apply(s, Write(g)), Write(h))
    ensures Apply(Apply(s, Write(g)), Write(h)).table[o] != s.table[o]
  {
    var s' := Apply(s, Write(g));
    assert s'.table == s.table[other := Landed(s.table, s.between[g])[other]];
    WriteLands(s', h, o);
  }

  /** Another live offer of the same seller on the same request. */
  predicate LiveRival(t: Table, o: Uuid, other: Uuid) {
    o in t && other in t && other != o && SamePair(t[o], t[other]) && Live(t[other].status)
  }

  /** With an exposing handler some run changes the offer. */
  lemma ExposedChanges(s: State, o: Uuid) returns (steps: seq<Step>)
    requires OneLive(s.table) && o in s.table && Exposed(s, o)
    ensures Legal(s, steps) && o in Exec(s, steps).table && Exec(s, steps).table[o] != s.table[o]
  {
    var h :| Stale(s, h, o) && CanLand(s, h, o);
    if Live(s.table[o].status) || !Live(Landed(s.table, s.between[h])[o].status) {
      HarmlessWriteLands(s, h, o);
      RunOfOne(s, Write(h));
      steps := [Write(h)];
    } else if other :| LiveRival(s.table, o, other) {
      if s.table[other].status == Approved {
        assert !Rival(s, o, other);
        var g :| On(s, g, other) && !Live(Landed(s.table, s.between[g])[other].status);
        LandsAfter(s, h, o, other, g);
        RunOfTwo(s, Write(g), Write(h));
        steps := [Write(g), Write(h)];
      } else {
        steps := CancelThenWrite(s, h, o, other);
      }
    } else {
      WriteLands(s, h, o);
      RunOfOne(s, Write(h));
      steps := [Write(h)];
    }
  }

  /** A PENDING rival can be cancelled by the seller first. */
  lemma CancelThenWrite(s: State, h: nat, o: Uuid, other: Uuid) returns (steps: seq<Step>)
    requires OneLive(s.table) && Stale(s, h, o) && LiveRival(s.table, o, other) && s.table[other].status == Pending
    ensures Legal(s, steps) && o in Exec(s, steps).table && Exec(s, steps).table[o] != s.table[o]
  {
    var g := AboveAll(s.between.Keys);
    var cancel := Cancel(other, s.table[other].seller);
    var s1 := Apply(s, Check(g, cancel));
    assert Stale(s1, h, o) && On(s1, g, other);
    LandsAfter(s1, h, o, other, g);
    RunOfTwo(s1, Write(g), Write(h));
    steps := [Check(g, cancel)] + [Write(g), Write(h)];
    assert steps[1..] == [Write(g), Write(h)];
  }

  /** Exactly when a decided offer is frozen. In any state, with any handlers between read and
      write, a decided offer is the same at the end of every run if and only if no handler exposes
      it: would write it differently, and is not held off for good by the index. */
  lemma FrozenIff(s: State, o: Uuid)
    requires OneLive(s.table) && o in s.table && s.table[o].status != Pending
    ensures (forall steps :: Legal(s, steps) ==> o in Exec(s, steps).table && Exec(s, steps).table[o] == s.table[o])
            <==> !Exposed(s, o)
  {
    if Exposed(s, o) {
      var steps := ExposedChanges(s, o);
      assert Legal(s, steps);
    } else {
      forall steps | Legal(s, steps) ensures o in Exec(s, steps).table && Exec(s, steps).table[o] == s.table[o] {
        NotExposedFrozen(s, steps, o);
      }
    }
  }

  /** For an APPROVED offer any handler that would write it differently is enough. */
  lemma ApprovedFrozenIff(s: State, o: Uuid)
    requires OneLive(s.table) && o in s.table && s.table[o].status == Approved
    ensures (forall steps :: Legal(s, steps) ==> o in Exec(s, steps).table && Exec(s, steps).table[o] == s.table[o])
            <==> forall h :: !Stale(s, h, o)
  {
    FrozenIff(s, o);
  }

  // ---------------------------------------------------------------- uninterrupted handlers

  /** An uninterrupted handler never trips over the index, and it changes only offers that
      were PENDING. */
  lemma AtomicHandler(t: Table, task: Task)
    requires OneLive(t) && Atomically(t, task).Some?
    ensures OneLive(Atomically(t, task).value)
    ensures forall o :: o in t ==>
              var t' := Atomically(t, task).value;
              && o in t' && t'[o].seller == t[o].seller && t'[o].request == t[o].request
              && (t[o].status != Pending ==> t'[o] == t[o])
  {
  }

  /** Handlers served one after the other; one that refuses changes nothing. */
  function Served(t: Table, tasks: seq<Task>): Table
    decreases |tasks|
  {
    if tasks == [] then t
    else
      var next := Atomically(t, tasks[0]);
      Served(if next.Some? then next.value else t, tasks[1..])
  }

  /** Over all runs of uninterrupted handlers: one live offer per seller and request, parties
      that never change, and nothing about an offer changes once it has left PENDING. */
  lemma {:induction false} OffersOverRuns(t: Table, tasks: seq<Task>)
    requires OneLive(t)
    ensures OneLive(Served(t, tasks))
    ensures forall o :: o in t ==>
              var t' := Served(t, tasks);
              && o in t' && t'[o].seller == t[o].seller && t'[o].request == t[o].request
              && (t[o].status != Pending ==> t'[o] == t[o])
    decreases |tasks|
  {
    if tasks != [] {
      var next := Atomically(t, tasks[0]);
      if next.Some? { AtomicHandler(t, tasks[0]); }
      OffersOverRuns(if next.Some? then next.value else t, tasks[1..]);
    }
  }

  function RequestOf(t: Table, task: Task): Uuid
    requires task.Create? || task.offer in t
  {
    if task.Create? then task.request else t[task.offer].request
  }

  /** What a handler does to the live count of its request: a new offer adds one, a
      cancellation or a rejection takes one away, and an approval or an update none. The
      count of any other request stays. */
  lemma CountAfter(t: Table, task: Task, r: Uuid)
    requires Atomically(t, task).Some?
    ensures CountLive(Atomically(t, task).value, r) ==
            if KeepsLive(t, task, r) then CountLive(t, r)
            else if task.Create? then CountLive(t, r) + 1 else CountLive(t, r) - 1
  {
    LiveAfter(t, task, r);
  }

  /** Whether the handler leaves the live offers on this request as they are. */
  predicate KeepsLive(t: Table, task: Task, r: Uuid)
    requires task.Create? || task.offer in t
  {
    r != RequestOf(t, task) || task.Update? || (task.Decide? && task.approve)
  }

  lemma LiveAfter(t: Table, task: Task, r: Uuid)
    requires Atomically(t, task).Some?
    ensures KeepsLive(t, task, r) ==> LiveOn(Written(t, task), r) == LiveOn(t, r)
    ensures !KeepsLive(t, task, r) && task.Create? ==>
              task.id !in LiveOn(t, r) && LiveOn(Written(t, task), r) == LiveOn(t, r) + {task.id}
    ensures !KeepsLive(t, task, r) && !task.Create? ==>
              task.offer in LiveOn(t, r) && LiveOn(Written(t, task), r) == LiveOn(t, r) - {task.offer}
  {
    var t' := Written(t, task);
    var id := if task.Create? then task.id else task.offer;
    assert forall o :: o != id ==> (o in t' <==> o in t) && (o in t ==> t'[o] == t[o]);
    assert forall o :: o != id ==> (o in LiveOn(t', r) <==> o in LiveOn(t, r));
  }
}
