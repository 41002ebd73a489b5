/** What the pipeline guarantees, over every run: no oversell, conservation of
    stock, a cause behind every order status, and at most one outcome. */
module Checkout {
  import opened Numbers
  import opened Events
  import opened Pipeline
  import opened Wrappers
  import opened Sums
  import Inventory
  import Outbox = TransactionalOutbox
  import Payment
  import Counting

  // ----- no oversell -----

  /** Quantities of the committed orders for an item, by order. */
  ghost function CommittedBy(db: OrderDb, item: string): map<string, int> {
    map order | order in db.rows && db.rows[order].body.item == item :: db.rows[order].body.quantity
  }

  ghost function CommittedUnits(db: OrderDb, item: string): int {
    Total(CommittedBy(db, item))
  }

  /** No item has more units in committed orders than were taken from its stock. */
  ghost predicate NoOversell(s: State, item: string) {
    CommittedUnits(s.db, item) <= Inventory.Units(s.store.log, item)
  }

  /** What reserving for `a` takes from the stock covers committing `b`. */
  predicate Covers(a: Submission, b: Submission) {
    Int32(b.quantity) <= if a.item == b.item then a.quantity else 0
  }

  /** Requests that share an order id cover each other. */
  ghost predicate Consistent(work: set<Submission>) {
    forall a, b :: a in work && b in work && a.order == b.order ==> Covers(a, b)
  }

  ghost predicate Within(s: State, work: set<Submission>) {
    forall req :: req in s.requests ==> s.requests[req].body in work
  }

  lemma PositiveLog(s: State)
    requires Inv(s)
    ensures Positive(s.store.log)
  {
    forall k | 0 <= k < |s.store.log| && s.store.log[k].Taken? ensures s.store.log[k].quantity > 0 {
      assert Inventory.TracedAt(s.store.log, k);
    }
  }

  /** The request whose transaction wrote the order, and the one whose
      reservation it rests on. */
  lemma BehindOrder(s: State, order: string) returns (writer: nat, taker: nat, k: nat)
    requires Inv(s) && order in s.db.rows
    ensures writer in s.requests && s.requests[writer].body.order == order
    ensures Keeps(s.db.rows[order].body, s.requests[writer].body)
    ensures taker in s.requests && s.requests[taker].body.order == order
    ensures k < |s.store.log| && AskedBy(s.store.log[k], s.requests[taker].body)
  {
    assert Outbox.OneOrigin(s.db, order);
    writer := s.db.origin[order];
    assert WriterFromRequest(s, writer);
    k :| 0 <= k < |s.store.log| && Inventory.TakesFor(s.store.log[k], order);
    assert TakeFromRequest(s, k);
    taker :| taker in s.requests && AskedBy(s.store.log[k], s.requests[taker].body);
  }

  lemma OrderWithinTakes(s: State, work: set<Submission>, item: string, order: string)
    requires Inv(s) && Within(s, work) && Consistent(work)
    requires order in s.db.rows && s.db.rows[order].body.item == item
    ensures s.db.rows[order].body.quantity <= UnitsFor(s.store.log, item, order)
  {
    var writer, taker, k := BehindOrder(s, order);
    var b, a := s.requests[writer].body, s.requests[taker].body;
    assert Covers(a, b);
    PositiveLog(s);
    UnitsForBounds(s.store.log, item, order);
    if a.item == item {
      assert Inventory.TakesFor(s.store.log[k], order);
    }
  }

  lemma NoOversellIn(s: State, work: set<Submission>, item: string)
    requires Inv(s) && Within(s, work) && Consistent(work)
    ensures NoOversell(s, item)
  {
    PositiveLog(s);
    var m := CommittedBy(s.db, item);
    forall order | order in m ensures m[order] <= UnitsFor(s.store.log, item, order) {
      OrderWithinTakes(s, work, item, order);
    }
    TotalWithinUnits(m, s.store.log, item);
  }

  lemma EmptyInv()
    ensures Inv(EMPTY)
  {
    assert forall item :: Inventory.StockOf(EMPTY.store, item) == 0;
  }

  // ----- and what happens otherwise -----

  lemma {:induction false} RunSnoc(s: State, steps: seq<Step>, step: Step)
    requires IsRun(s, steps) && Enabled(After(s, steps), step)
    ensures IsRun(s, steps + [step])
    ensures After(s, steps + [step]) == Apply(After(s, steps), step)
    decreases |steps|
  {
    if steps != [] {
      RunSnoc(Apply(s, steps[0]), steps[1..], step);
      assert (steps + [step])[1..] == steps[1..] + [step];
    }
  }

  /** The state that steps lead to from the empty system, if they are a run. */
  ghost function Final(steps: seq<Step>): Option<State> {
    if IsRun(EMPTY, steps) then Some(After(EMPTY, steps)) else None
  }

  lemma Extend(steps: seq<Step>, step: Step) returns (longer: seq<Step>)
    requires Final(steps).Some? && Enabled(Final(steps).value, step)
    ensures Final(longer) == Some(Apply(Final(steps).value, step))
  {
    longer := steps + [step];
    RunSnoc(EMPTY, steps, step);
  }

  /** The store after `a` alone was reserved from a stock of just its quantity. */
  function StoreAfter(a: Submission): Inventory.Store {
    Inventory.Store(map[a.item := 0], map[a.order := Inventory.Hold(a.quantity, Inventory.HOLD_MS)], 0,
                    [Inventory.Reset(a.item, a.quantity), Inventory.Taken(a.item, a.order, a.quantity, 0, 0)])
  }

  /** One request, with one reserve call. */
  function First(a: Submission, store: Inventory.Store, call: Try): State {
    State(store, map[0 := Request(a, [call], Awaiting)], Outbox.Fresh(), Payment.EMPTY)
  }

  /** `a` is on its way to the reserve script. */
  lemma FirstSends(a: Submission) returns (steps: seq<Step>)
    requires Valid(a)
    ensures Final(steps) == Some(First(a, Inventory.SetStock(Inventory.EMPTY, a.item, a.quantity), OnTheWay))
  {
    steps := Extend([], Stock(a.item, a.quantity));
    steps := Extend(steps, Submit(0, a));
    assert [] + [OnTheWay] == [OnTheWay];
    steps := Extend(steps, Send(0));
    assert Final(steps).value.requests == map[0 := Request(a, [OnTheWay], Awaiting)];
    assert Final(steps).value == First(a, Inventory.SetStock(Inventory.EMPTY, a.item, a.quantity), OnTheWay);
  }

  lemma TakeAll(a: Submission)
    requires Valid(a)
    ensures Inventory.Reserve(Inventory.SetStock(Inventory.EMPTY, a.item, a.quantity), a.order, a.item, a.quantity)
            == (StoreAfter(a), 1)
  {
    var before := Inventory.SetStock(Inventory.EMPTY, a.item, a.quantity);
    assert before.log + [Inventory.Taken(a.item, a.order, a.quantity, 0, 0)] == StoreAfter(a).log;
    assert before.stock[a.item := 0] == StoreAfter(a).stock;
  }

  /** `a` reserves its units; its request gets no further. */
  lemma FirstReserves(a: Submission) returns (steps: seq<Step>)
    requires Valid(a)
    ensures Final(steps) == Some(First(a, StoreAfter(a), Served(1)))
  {
    steps := FirstSends(a);
    TakeAll(a);
    steps := Extend(steps, Serve(0, 0));
    assert [OnTheWay][0 := Served(1)] == [Served(1)];
    assert Final(steps).value == First(a, StoreAfter(a), Served(1));
  }

  /** Two requests, the first one stuck. */
  function Both(a: Submission, second: Request, db: OrderDb): State {
    State(StoreAfter(a), map[0 := Request(a, [Served(1)], Awaiting), 1 := second], db, Payment.EMPTY)
  }

  lemma SecondSends(a: Submission, b: Submission) returns (steps: seq<Step>)
    requires Valid(a) && Valid(b) && a.order == b.order
    ensures Final(steps) == Some(Both(a, Request(b, [OnTheWay], Awaiting), Outbox.Fresh()))
  {
    steps := FirstReserves(a);
    steps := Extend(steps, Submit(1, b));
    assert [] + [OnTheWay] == [OnTheWay];
    steps := Extend(steps, Send(1));
    assert Final(steps).value == Both(a, Request(b, [OnTheWay], Awaiting), Outbox.Fresh());
  }

  /** `b` finds the reservation there. */
  lemma SecondReserves(a: Submission, b: Submission) returns (steps: seq<Step>)
    requires Valid(a) && Valid(b) && a.order == b.order
    ensures Final(steps) == Some(Both(a, Request(b, [Served(1)], Reserved), Outbox.Fresh()))
  {
    steps := SecondSends(a, b);
    steps := Extend(steps, Serve(1, 0));
    assert [OnTheWay][0 := Served(1)] == [Served(1)];
    steps := Extend(steps, Hear(1));
    assert Final(steps).value == Both(a, Request(b, [Served(1)], Reserved), Outbox.Fresh());
  }

  function TransactionOf(b: Submission, phase: Outbox.Phase, written: bool): Outbox.Writer<Columns, Status, Payload> {
    Outbox.Writer(b.order, Outbox.Row(ColumnsOf(b), PendingPayment), PayloadOf(b), 0, phase, written,
                  phase == Outbox.EntryDone)
  }

  function WithTransaction(b: Submission, phase: Outbox.Phase, written: bool): OrderDb {
    Outbox.Db(map[], map[], map[], map[1 := TransactionOf(b, phase, written)], map[])
  }

  lemma SecondBegins(a: Submission, b: Submission) returns (steps: seq<Step>)
    requires Valid(a) && Valid(b) && a.order == b.order
    ensures Final(steps) ==
      Some(Both(a, Request(b, [Served(1)], InTransaction), WithTransaction(b, Outbox.Open, false)))
  {
    steps := SecondReserves(a, b);
    steps := Extend(steps, Begin(1));
    assert Final(steps).value ==
      Both(a, Request(b, [Served(1)], InTransaction), WithTransaction(b, Outbox.Open, false));
  }

  lemma SecondWritesRow(a: Submission, b: Submission) returns (steps: seq<Step>)
    requires Valid(a) && Valid(b) && a.order == b.order
    ensures Final(steps) ==
      Some(Both(a, Request(b, [Served(1)], InTransaction), WithTransaction(b, Outbox.RowDone, true)))
  {
    steps := SecondBegins(a, b);
    steps := Extend(steps, WriteOrder(1));
    assert Final(steps).value ==
      Both(a, Request(b, [Served(1)], InTransaction), WithTransaction(b, Outbox.RowDone, true));
  }

  lemma SecondWrites(a: Submission, b: Submission) returns (steps: seq<Step>)
    requires Valid(a) && Valid(b) && a.order == b.order
    ensures Final(steps) ==
      Some(Both(a, Request(b, [Served(1)], InTransaction), WithTransaction(b, Outbox.EntryDone, true)))
  {
    steps := SecondWritesRow(a, b);
    steps := Extend(steps, WriteEvent(1));
    assert Final(steps).value ==
      Both(a, Request(b, [Served(1)], InTransaction), WithTransaction(b, Outbox.EntryDone, true));
  }

  /** And commits its own order. */
  lemma SecondCommits(a: Submission, b: Submission) returns (steps: seq<Step>)
    requires Valid(a) && Valid(b) && a.order == b.order
    ensures exists s ::
      && Final(steps) == Some(s) && Within(s, {a, b}) && s.store == StoreAfter(a)
      && s.db.rows == map[b.order := Outbox.Row(ColumnsOf(b), PendingPayment)]
  {
    steps := SecondWrites(a, b);
    steps := Extend(steps, Commit(1, true));
  }

  lemma TotalOfOne(key: string, n: int)
    ensures Total(map[key := n]) == n
  {
    TotalWithout(map[key := n], key);
    assert map[key := n] - {key} == map[];
  }

  lemma OversellsUnlessCovered(a: Submission, b: Submission) returns (steps: seq<Step>)
    requires Valid(a) && Valid(b) && a.order == b.order && !Covers(a, b)
    ensures exists s :: Final(steps) == Some(s) && Within(s, {a, b}) && !NoOversell(s, b.item)
  {
    steps := SecondCommits(a, b);
    var s := After(EMPTY, steps);
    assert CommittedBy(s.db, b.item) == map[b.order := Int32(b.quantity)];
    TotalOfOne(b.order, Int32(b.quantity));
    var taken := Inventory.Taken(a.item, a.order, a.quantity, 0, 0);
    ExtendUnits([Inventory.Reset(a.item, a.quantity)], taken, b.item, a.order);
    assert [Inventory.Reset(a.item, a.quantity)][..0] == [];
    assert s.store.log == [Inventory.Reset(a.item, a.quantity)] + [taken];
  }

  /** Exactly when the pipeline cannot oversell: for a given set of request
      bodies, no run oversells any item if and only if the bodies that share an
      order id cover each other.  Nothing else matters: not stock levels, not
      expiry, crashes, lost replies, late calls or interleaving. */
  lemma NoOversellExactly(work: set<Submission>)
    requires forall b :: b in work ==> Valid(b)
    ensures Consistent(work) <==>
      forall steps, item :: IsRun(EMPTY, steps) && Within(After(EMPTY, steps), work) ==>
        NoOversell(After(EMPTY, steps), item)
  {
    if Consistent(work) {
      forall steps, item | IsRun(EMPTY, steps) && Within(After(EMPTY, steps), work)
        ensures NoOversell(After(EMPTY, steps), item)
      {
        EmptyInv();
        InvHolds(EMPTY, steps);
        NoOversellIn(After(EMPTY, steps), work, item);
      }
    } else {
      var a, b :| a in work && b in work && a.order == b.order && !Covers(a, b);
      var steps := OversellsUnlessCovered(a, b);
      assert IsRun(EMPTY, steps) && Within(After(EMPTY, steps), work);
      assert !NoOversell(After(EMPTY, steps), b.item);
    }
  }

  // ----- conservation of stock -----

  /** Each order id is used with one item and one quantity that fits the column. */
  ghost predicate OneBody(work: set<Submission>) {
    && (forall a, b :: a in work && b in work && a.order == b.order ==> a.item == b.item && a.quantity == b.quantity)
    && (forall b :: b in work ==> b.quantity <= MAX_INT32)
  }

  /** For quantities that fit the column, covering each other is having one body. */
  lemma ConsistentMeansOneBody(work: set<Submission>)
    requires forall b :: b in work ==> Valid(b) && b.quantity <= MAX_INT32
    ensures Consistent(work) <==> OneBody(work)
  {
    forall a, b | a in work && b in work && a.order == b.order
      ensures Covers(a, b) && Covers(b, a) <==> a.item == b.item && a.quantity == b.quantity
    {
      Int32Range(a.quantity);
      Int32Range(b.quantity);
    }
    if OneBody(work) {
      forall a, b | a in work && b in work && a.order == b.order ensures Covers(a, b) {
        Int32Range(b.quantity);
      }
    }
  }

  /** No reservation made so far has reached its lifetime. */
  ghost predicate NoneExpired(store: Inventory.Store) {
    forall k :: 0 <= k < |store.log| && store.log[k].Taken? ==> store.now < store.log[k].at + Inventory.HOLD_MS
  }

  /** The item's stock was set once, to n, at position k of the history. */
  ghost predicate SetOnce(log: seq<Inventory.Change>, item: string, n: int, k: nat) {
    && k < |log| && log[k] == Inventory.Reset(item, n)
    && forall j :: 0 <= j < |log| && j != k ==> !Inventory.IsReset(log[j], item)
  }

  predicate TakesItemFor(c: Inventory.Change, item: string, order: string) {
    TakesItem(c, item) && c.order == order
  }

  ghost predicate ReservedItem(log: seq<Inventory.Change>, item: string, order: string) {
    exists k :: 0 <= k < |log| && TakesItemFor(log[k], item, order)
  }

  /** Quantities reserved for an item by orders that are not committed. */
  ghost function ReservedOnly(s: State, item: string): map<string, int> {
    map order | order in s.store.holds && order !in s.db.rows && ReservedItem(s.store.log, item, order)
      :: s.store.holds[order].quantity
  }

  lemma {:induction false} NoOtherTake(log: seq<Inventory.Change>, item: string, order: string)
    requires forall k :: 0 <= k < |log| ==> !TakesItemFor(log[k], item, order)
    ensures UnitsFor(log, item, order) == 0
  {
    if log != [] {
      NoOtherTake(log[..|log| - 1], item, order);
    }
  }

  /** An order that took units of the item once accounts for just that take. */
  lemma {:induction false} OneTake(log: seq<Inventory.Change>, item: string, order: string, k: nat)
    requires k < |log| && TakesItemFor(log[k], item, order)
    requires forall j :: 0 <= j < |log| && j != k ==> !TakesItemFor(log[j], item, order)
    ensures UnitsFor(log, item, order) == log[k].quantity
  {
    var earlier := log[..|log| - 1];
    if k == |log| - 1 {
      NoOtherTake(earlier, item, order);
    } else {
      OneTake(earlier, item, order, k);
    }
  }

  lemma TakesApart(log: seq<Inventory.Change>, order: string, i: nat, j: nat)
    requires Inventory.TakesSpaced(log) && i < j < |log|
    requires Inventory.TakesFor(log[i], order) && Inventory.TakesFor(log[j], order)
    ensures log[i].at + Inventory.HOLD_MS <= log[j].at
  {
    assert Inventory.SpacedAt(log, i, j);
  }

  lemma TakenByNow(store: Inventory.Store, k: nat)
    requires Inventory.HoldsCover(store) && k < |store.log| && store.log[k].Taken?
    ensures store.log[k].at <= store.now
  {
    assert Inventory.CoveredAt(store, k);
  }

  /** Until a reservation expires, its order took units exactly once. */
  lemma SingleTake(s: State, order: string, i: nat, j: nat)
    requires Inv(s) && NoneExpired(s.store)
    requires i < |s.store.log| && j < |s.store.log|
    requires Inventory.TakesFor(s.store.log[i], order) && Inventory.TakesFor(s.store.log[j], order)
    ensures i == j
  {
    TakenByNow(s.store, i);
    TakenByNow(s.store, j);
    if i < j {
      TakesApart(s.store.log, order, i, j);
    } else if j < i {
      TakesApart(s.store.log, order, j, i);
    }
  }

  lemma UnitsOfHold(s: State, item: string, order: string, k: nat)
    requires Inv(s) && NoneExpired(s.store)
    requires k < |s.store.log| && TakesItemFor(s.store.log[k], item, order)
    ensures UnitsFor(s.store.log, item, order) == s.store.log[k].quantity
    ensures order in s.store.holds && s.store.holds[order].quantity == s.store.log[k].quantity
  {
    forall j | 0 <= j < |s.store.log| && j != k ensures !TakesItemFor(s.store.log[j], item, order) {
      if TakesItemFor(s.store.log[j], item, order) {
        SingleTake(s, order, j, k);
      }
    }
    OneTake(s.store.log, item, order, k);
    assert Inventory.CoveredAt(s.store, k);
    var h :| 0 <= h < |s.store.log| && Inventory.MadeHold(s.store.log[h], order, s.store.holds[order]);
    SingleTake(s, order, h, k);
  }

  /** A committed order has the item and quantity its reservation took. */
  lemma CommittedAsTaken(s: State, work: set<Submission>, order: string, k: nat)
    requires Inv(s) && Within(s, work) && OneBody(work) && order in s.db.rows
    requires NoneExpired(s.store) && k < |s.store.log| && Inventory.TakesFor(s.store.log[k], order)
    ensures s.db.rows[order].body.item == s.store.log[k].item
    ensures s.db.rows[order].body.quantity == s.store.log[k].quantity
  {
    var writer, taker, j := BehindOrder(s, order);
    assert s.requests[writer].body in work && s.requests[taker].body in work;
    assert RequestBacked(s, writer);
    Int32Range(s.requests[writer].body.quantity);
    SingleTake(s, order, j, k);
  }

  lemma CommittedTook(s: State, work: set<Submission>, item: string, order: string)
    requires Inv(s) && Within(s, work) && OneBody(work) && NoneExpired(s.store)
    requires order in CommittedBy(s.db, item)
    ensures CommittedBy(s.db, item)[order] == UnitsFor(s.store.log, item, order)
  {
    var _, _, k := BehindOrder(s, order);
    CommittedAsTaken(s, work, order, k);
    UnitsOfHold(s, item, order, k);
  }

  lemma ReservedTook(s: State, item: string, order: string)
    requires Inv(s) && NoneExpired(s.store) && order in ReservedOnly(s, item)
    ensures ReservedOnly(s, item)[order] == UnitsFor(s.store.log, item, order)
  {
    var k :| 0 <= k < |s.store.log| && TakesItemFor(s.store.log[k], item, order);
    UnitsOfHold(s, item, order, k);
  }

  lemma TakenIsAccounted(s: State, work: set<Submission>, item: string, k: nat)
    requires Inv(s) && Within(s, work) && OneBody(work) && NoneExpired(s.store)
    requires k < |s.store.log| && TakesItem(s.store.log[k], item)
    ensures s.store.log[k].order in CommittedBy(s.db, item) || s.store.log[k].order in ReservedOnly(s, item)
  {
    var order := s.store.log[k].order;
    if order in s.db.rows {
      CommittedAsTaken(s, work, order, k);
    } else {
      assert TakesItemFor(s.store.log[k], item, order);
      UnitsOfHold(s, item, order, k);
    }
  }

  lemma UnitsAreAccounted(s: State, work: set<Submission>, item: string)
    requires Inv(s) && Within(s, work) && OneBody(work) && NoneExpired(s.store)
    ensures Inventory.Units(s.store.log, item) == CommittedUnits(s.db, item) + Total(ReservedOnly(s, item))
  {
    var c, r := CommittedBy(s.db, item), ReservedOnly(s, item);
    forall order | order in c + r ensures (c + r)[order] == UnitsFor(s.store.log, item, order) {
      if order in r {
        ReservedTook(s, item, order);
      } else {
        CommittedTook(s, work, item, order);
      }
    }
    forall k | 0 <= k < |s.store.log| && TakesItem(s.store.log[k], item) ensures s.store.log[k].order in c + r {
      TakenIsAccounted(s, work, item, k);
    }
    TotalIsUnits(c + r, s.store.log, item);
    TotalOfUnion(c, r);
  }

  /** Before its only reset an item has no stock, so nothing was taken from it. */
  lemma LevelSetOnce(log: seq<Inventory.Change>, item: string, n: int, k: nat)
    requires Inventory.TraceAgrees(log) && SetOnce(log, item, n, k)
    ensures Inventory.Level(log, item) == n - Inventory.Units(log, item)
  {
    var before, after := log[..k], log[k + 1..];
    NothingBefore(log, item, k);
    NoResetAfter(log, item, n, k);
    Inventory.LevelDropsByUnits(log, item, k + 1);
    assert log[..k + 1] == before + [log[k]];
    Inventory.LevelOfExtension(before, log[k], item);
    UnitsOfConcat(log[..k + 1], after, item);
    assert log == log[..k + 1] + after;
  }

  lemma NoResetAfter(log: seq<Inventory.Change>, item: string, n: int, k: nat)
    requires SetOnce(log, item, n, k)
    ensures Inventory.NoReset(log[k + 1..], item)
  {
    var after := log[k + 1..];
    forall j | 0 <= j < |after| ensures !Inventory.IsReset(after[j], item) {
      assert after[j] == log[j + k + 1];
    }
  }

  lemma {:induction false} UnitsOfConcat(a: seq<Inventory.Change>, b: seq<Inventory.Change>, item: string)
    ensures Inventory.Units(a + b, item) == Inventory.Units(a, item) + Inventory.Units(b, item)
    decreases |b|
  {
    if b == [] {
      assert a + b == a;
    } else {
      UnitsOfConcat(a, b[..|b| - 1], item);
      assert a + b == (a + b[..|b| - 1]) + [b[|b| - 1]];
      Inventory.LevelOfExtension(a + b[..|b| - 1], b[|b| - 1], item);
    }
  }

  lemma {:induction false} NothingBefore(log: seq<Inventory.Change>, item: string, k: nat)
    requires Inventory.TraceAgrees(log) && k <= |log|
    requires forall j :: 0 <= j < k ==> !Inventory.IsReset(log[j], item)
    ensures Inventory.Units(log[..k], item) == 0 && Inventory.Level(log[..k], item) == 0
  {
    if k > 0 {
      NothingBefore(log, item, k - 1);
      assert log[..k] == log[..k - 1] + [log[k - 1]];
      Inventory.LevelOfExtension(log[..k - 1], log[k - 1], item);
      assert Inventory.TracedAt(log, k - 1);
    }
  }

  /** For stock set once to n, while no reservation has expired:
      stock + committed orders + reserved orders not committed = n. */
  lemma StockIsConserved(steps: seq<Step>, work: set<Submission>, item: string, n: int, k: nat)
    requires OneBody(work)
    requires IsRun(EMPTY, steps) && Within(After(EMPTY, steps), work)
    requires NoneExpired(After(EMPTY, steps).store) && SetOnce(After(EMPTY, steps).store.log, item, n, k)
    ensures var s := After(EMPTY, steps);
      Inventory.StockOf(s.store, item) + CommittedUnits(s.db, item) + Total(ReservedOnly(s, item)) == n
  {
    EmptyInv();
    InvHolds(EMPTY, steps);
    var s := After(EMPTY, steps);
    UnitsAreAccounted(s, work, item);
    LevelSetOnce(s.store.log, item, n, k);
    assert Inventory.StockOf(s.store, item) == Inventory.Level(s.store.log, item);
  }

  // ----- the cause of every status -----

  /** Event i of the topic is an OrderPlaced event that a relay published from
      the committed outbox row of an existing order. */
  ghost predicate PlacedWithCause(s: State, i: nat) {
    && i < |s.pay.topic| && s.pay.topic[i].event.kind == OrderPlaced
    && var order := s.pay.topic[i].event.order;
    && order in s.db.rows && order in s.db.outbox
    && s.pay.topic[i].event.user == s.db.rows[order].body.user
    && s.pay.topic[i].cause.FromRelay?
    && s.pay.topic[i].cause.rel in s.db.attempts
    && s.db.attempts[s.pay.topic[i].cause.rel].accepted
    && s.db.attempts[s.pay.topic[i].cause.rel].id == order
  }

  /** Event i is an outcome that a payment run published for the earlier
      OrderPlaced event m of the same order and user. */
  ghost predicate OutcomeWithCause(s: State, i: nat, m: nat) {
    && m < i < |s.pay.topic| && IsOutcome(s.pay.topic[i].event.kind)
    && PlacedWithCause(s, m)
    && s.pay.topic[i].event.order == s.pay.topic[m].event.order
    && s.pay.topic[i].event.user == s.pay.topic[m].event.user
    && s.pay.topic[i].cause.FromPayment?
    && s.pay.topic[i].cause.run in s.pay.runs
    && s.pay.runs[s.pay.topic[i].cause.run].msg == m
  }

  lemma PlacedHaveCause(s: State)
    requires Inv(s)
    ensures forall i :: 0 <= i < |s.pay.topic| && s.pay.topic[i].event.kind == OrderPlaced ==> PlacedWithCause(s, i)
  {
    forall i | 0 <= i < |s.pay.topic| && s.pay.topic[i].event.kind == OrderPlaced ensures PlacedWithCause(s, i) {
      assert Payment.PostAgrees(s.pay, i);
      assert PlacedFromRow(s, i);
      PayloadsCarryId(s, s.pay.topic[i].event.order);
    }
  }

  lemma OutcomeHasCause(s: State, i: nat)
    requires Inv(s) && i < |s.pay.topic| && IsOutcome(s.pay.topic[i].event.kind)
    ensures exists m: nat :: OutcomeWithCause(s, i, m)
  {
    assert Payment.PostAgrees(s.pay, i);
    var run := s.pay.topic[i].cause.run;
    assert Payment.RunAgrees(s.pay, run);
    var m := s.pay.runs[run].msg;
    PlacedHaveCause(s);
    assert OutcomeWithCause(s, i, m);
  }

  /** The whole chain behind a status that is not pending any more: an outcome
      event that announces it, caused by an OrderPlaced event, caused by the
      order's committed outbox row. */
  ghost predicate CausedStatus(s: State, order: string) {
    order in s.db.rows && s.db.rows[order].status != PendingPayment ==>
      exists i: nat, m: nat ::
        OutcomeWithCause(s, i, m) && Announces(s.pay.topic[i], order, s.db.rows[order].status)
  }

  /** In every reachable state every order status has its causes, and every
      event on the topic concerns an order that exists, so that no status update
      ever misses its row. */
  lemma NothingWithoutCause(steps: seq<Step>)
    requires IsRun(EMPTY, steps)
    ensures var s := After(EMPTY, steps);
      && (forall order :: CausedStatus(s, order))
      && (forall i :: 0 <= i < |s.pay.topic| ==> s.pay.topic[i].event.order in s.db.rows)
  {
    EmptyInv();
    InvHolds(EMPTY, steps);
    var s := After(EMPTY, steps);
    forall order ensures CausedStatus(s, order) {
      StatusHasCause(s, order);
    }
    forall i | 0 <= i < |s.pay.topic| ensures s.pay.topic[i].event.order in s.db.rows {
      EventHasOrder(s, i);
    }
  }

  lemma StatusHasCause(s: State, order: string)
    requires Inv(s)
    ensures CausedStatus(s, order)
  {
    if order in s.db.rows && s.db.rows[order].status != PendingPayment {
      assert StatusAnnounced(s, order);
      var i: nat :| i < |s.pay.topic| && Announces(s.pay.topic[i], order, s.db.rows[order].status);
      OutcomeHasCause(s, i);
    }
  }

  lemma EventHasOrder(s: State, i: nat)
    requires Inv(s) && i < |s.pay.topic|
    ensures s.pay.topic[i].event.order in s.db.rows
  {
    assert Payment.PostAgrees(s.pay, i);
    if s.pay.topic[i].event.kind == OrderPlaced {
      PlacedHaveCause(s);
    } else {
      OutcomeHasCause(s, i);
    }
  }

  // ----- at most one outcome -----

  /** Relay attempt behind each OrderPlaced event. */
  ghost function Attempts(s: State): map<nat, nat> {
    map i: nat | i < |s.pay.topic| && s.pay.topic[i].cause.FromRelay? :: s.pay.topic[i].cause.rel
  }

  lemma PlacedWithinAccepted(s: State, order: string)
    requires Inv(s)
    ensures |Payment.PlacedFor(s.pay, order)| <= |Outbox.AcceptedFor(s.db, order)|
  {
    var placed := Payment.PlacedFor(s.pay, order);
    var f := Attempts(s);
    PlacedHaveCause(s);
    forall i | i in placed ensures i in f && f[i] in Outbox.AcceptedFor(s.db, order) {
      assert PlacedWithCause(s, i);
    }
    forall i, j | i in placed && j in placed && i != j ensures f[i] != f[j] {
      assert ArrivesOnce(s, i, j) && ArrivesOnce(s, j, i);
      assert PlacedWithCause(s, i) && PlacedWithCause(s, j);
    }
    Counting.InjectionIsSmaller(placed, Outbox.AcceptedFor(s.db, order), f);
  }

  /** Relay attempts at the order that the topic accepted but that were then
      rolled back, to be tried again. */
  ghost function AmbiguousRelays(s: State, order: string): set<nat> {
    Outbox.AcceptedThenUndone(s.db, order)
  }

  /** One outcome at most, and one more for each ambiguous publication. */
  ghost predicate FewOutcomes(s: State, order: string) {
    |Payment.OutcomesFor(s.pay, order)| <= 1 + |AmbiguousRelays(s, order)| + |Payment.AmbiguousFor(s.pay, order)|
  }

  lemma AcceptedHasEntry(s: State, order: string)
    requires Inv(s) && Outbox.AcceptedFor(s.db, order) != {}
    ensures order in s.db.outbox
  {
    var r :| r in Outbox.AcceptedFor(s.db, order);
    assert Outbox.AttemptAgrees(s.db, s.db.attempts[r]);
  }

  lemma OutcomesBoundedByFailures(s: State, order: string)
    requires Inv(s) && s.pay.punctual
    ensures FewOutcomes(s, order)
  {
    PlacedWithinAccepted(s, order);
    Payment.OutcomesBoundedIn(s.pay, order);
    if Outbox.AcceptedFor(s.db, order) != {} {
      AcceptedHasEntry(s, order);
      Outbox.CountAttempts(s.db, order);
    }
  }

  /** End to end, over every run whose dedup checks are made while messages are
      retained: an order gets at most one outcome, plus one for each publication
      that was accepted but taken for a failure, by a relay or by the worker. */
  lemma OneOutcomeUnlessAmbiguous(steps: seq<Step>, order: string)
    requires IsRun(EMPTY, steps) && After(EMPTY, steps).pay.punctual
    ensures var s := After(EMPTY, steps);
      && FewOutcomes(s, order)
      && (AmbiguousRelays(s, order) == {} && Payment.AmbiguousFor(s.pay, order) == {} ==>
            forall i, j :: i in Payment.OutcomesFor(s.pay, order) && j in Payment.OutcomesFor(s.pay, order) ==> i == j)
  {
    EmptyInv();
    InvHolds(EMPTY, steps);
    var s := After(EMPTY, steps);
    OutcomesBoundedByFailures(s, order);
    if AmbiguousRelays(s, order) == {} && Payment.AmbiguousFor(s.pay, order) == {} {
      Counting.AtMostOneElement(Payment.OutcomesFor(s.pay, order));
    }
  }

  // ----- and when checks come too late -----

  /** Payment runs and passing time, as steps of the pipeline. */
  lemma {:induction false} PaymentLifts(s: State, work: seq<Payment.Step>) returns (steps: seq<Step>)
    requires Payment.IsRun(s.pay, work) && Payment.NoArrivals(work)
    ensures IsRun(s, steps)
    ensures After(s, steps).pay == Payment.After(s.pay, work) && After(s, steps).db == s.db
    decreases |work|
  {
    if work == [] {
      steps := [];
    } else {
      var step := if work[0].Wait? then Wait(work[0].ms) else Work(work[0]);
      var rest := PaymentLifts(Apply(s, step), work[1..]);
      steps := [step] + rest;
      assert steps[1..] == rest;
    }
  }

  lemma {:induction false} RunConcat(s: State, first: seq<Step>, rest: seq<Step>)
    requires IsRun(s, first) && IsRun(After(s, first), rest)
    ensures IsRun(s, first + rest) && After(s, first + rest) == After(After(s, first), rest)
    decreases |first|
  {
    if first == [] {
      assert first + rest == rest;
    } else {
      assert (first + rest)[1..] == first[1..] + rest;
      RunConcat(Apply(s, first[0]), first[1..], rest);
    }
  }

  /** The tables when one order is committed, and a relay is done with its row. */
  function OneOrder(b: Submission, attempts: map<nat, Outbox.Attempt>, published: bool): OrderDb {
    Outbox.Db(map[b.order := Outbox.Row(ColumnsOf(b), PendingPayment)],
              map[b.order := Outbox.Entry(PayloadOf(b), published, 0)], map[b.order := 1],
              map[1 := TransactionOf(b, Outbox.EntryDone, true).(phase := Outbox.Committed)], attempts)
  }

  lemma OneOrderInserted(b: Submission)
    ensures var db := WithTransaction(b, Outbox.EntryDone, true);
      Outbox.Enabled(db, Outbox.Commit(1)) && Outbox.Apply(db, Outbox.Commit(1)) == OneOrder(b, map[], false)
  {
  }

  lemma OneCommits(b: Submission) returns (steps: seq<Step>)
    requires Valid(b)
    ensures Final(steps) == Some(Both(b, Request(b, [Served(1)], Replied(201)), OneOrder(b, map[], false)))
  {
    steps := SecondWrites(b, b);
    OneOrderInserted(b);
    steps := Extend(steps, Commit(1, true));
    assert Final(steps).value == Both(b, Request(b, [Served(1)], Replied(201)), OneOrder(b, map[], false));
  }

  lemma OneSelected(b: Submission) returns (steps: seq<Step>)
    requires Valid(b)
    ensures Final(steps) == Some(Both(b, Request(b, [Served(1)], Replied(201)),
      OneOrder(b, map[0 := Outbox.Attempt(b.order, Outbox.Holding, false)], false)))
  {
    steps := OneCommits(b);
    steps := Extend(steps, Relay(Outbox.Select(0, b.order)));
    assert Final(steps).value == Both(b, Request(b, [Served(1)], Replied(201)),
      OneOrder(b, map[0 := Outbox.Attempt(b.order, Outbox.Holding, false)], false));
  }

  /** A relay's attempt at the only order, after its publication. */
  ghost predicate OneAttempt(steps: seq<Step>, b: Submission, phase: Outbox.RelayPhase, published: bool) {
    exists s ::
      && Final(steps) == Some(s)
      && s.pay == Payment.State([Payment.Post(Event(OrderPlaced, b.user, b.order), 0, Payment.FromRelay(0))],
                                map[], map[], {}, 0, true)
      && s.db == OneOrder(b, map[0 := Outbox.Attempt(b.order, phase, true)], published)
  }

  /** The relay's attempt after its selection, in the tables alone. */
  lemma OneOrderPublishes(b: Submission)
    ensures var db := OneOrder(b, map[0 := Outbox.Attempt(b.order, Outbox.Holding, false)], false);
      Outbox.Enabled(db, Outbox.Publish(0, true, true)) &&
      Outbox.Apply(db, Outbox.Publish(0, true, true)) ==
        OneOrder(b, map[0 := Outbox.Attempt(b.order, Outbox.Acked, true)], false)
  {
  }

  lemma OneOrderMarks(b: Submission)
    ensures var db := OneOrder(b, map[0 := Outbox.Attempt(b.order, Outbox.Acked, true)], false);
      Outbox.Enabled(db, Outbox.Mark(0)) &&
      Outbox.Apply(db, Outbox.Mark(0)) == OneOrder(b, map[0 := Outbox.Attempt(b.order, Outbox.Marked, true)], false)
  {
  }

  lemma OneOrderCommits(b: Submission)
    ensures var db := OneOrder(b, map[0 := Outbox.Attempt(b.order, Outbox.Marked, true)], false);
      Outbox.Enabled(db, Outbox.RelayCommit(0)) &&
      Outbox.Apply(db, Outbox.RelayCommit(0)) == OneOrder(b, map[0 := Outbox.Attempt(b.order, Outbox.Done, true)], true)
  {
  }

  lemma RelayStep(s: State, step: OrderStep)
    requires RelayStatement(step) && Outbox.Enabled(s.db, step)
    ensures Enabled(s, Relay(step))
    ensures Apply(s, Relay(step)).pay == s.pay && Apply(s, Relay(step)).db == Outbox.Apply(s.db, step)
  {
  }

  lemma OneAcked(b: Submission) returns (steps: seq<Step>)
    requires Valid(b)
    ensures OneAttempt(steps, b, Outbox.Acked, false)
  {
    steps := OneSelected(b);
    OneOrderPublishes(b);
    steps := Extend(steps, RelayPublish(0, true, true));
  }

  lemma OneMarked(b: Submission) returns (steps: seq<Step>)
    requires Valid(b)
    ensures OneAttempt(steps, b, Outbox.Marked, false)
  {
    steps := OneAcked(b);
    OneOrderMarks(b);
    RelayStep(Final(steps).value, Outbox.Mark(0));
    steps := Extend(steps, Relay(Outbox.Mark(0)));
  }

  /** Its event is published, marked and committed, without any failure. */
  lemma OnePublished(b: Submission) returns (steps: seq<Step>)
    requires Valid(b)
    ensures OneAttempt(steps, b, Outbox.Done, true)
  {
    steps := OneMarked(b);
    OneOrderCommits(b);
    RelayStep(Final(steps).value, Outbox.RelayCommit(0));
    steps := Extend(steps, Relay(Outbox.RelayCommit(0)));
  }

  /** An order is placed and paid for twice, with no ambiguous publication. */
  lemma LateOrderPaidTwice() returns (steps: seq<Step>)
    ensures exists s ::
      && Final(steps) == Some(s) && Payment.OutcomesFor(s.pay, "o") == {1, 2}
      && AmbiguousRelays(s, "o") == {} && Payment.AmbiguousFor(s.pay, "o") == {}
  {
    var first := OnePublished(Submission("u", "i", 1, "o"));
    var s := Final(first).value;
    assert s.pay == Payment.PLACED;
    var work := Payment.LateChecks();
    var rest := PaymentLifts(s, work);
    steps := first + rest;
    RunConcat(EMPTY, first, rest);
    Payment.PaidTwice(After(EMPTY, steps).pay);
  }

  /** Exactly when the pipeline keeps to it in all runs: when the dedup checks
      that are allowed are those made while the message is retained. */
  lemma OneOutcomeExactly(late: bool)
    ensures !late <==>
      forall steps, order :: IsRun(EMPTY, steps) && (late || After(EMPTY, steps).pay.punctual) ==>
        FewOutcomes(After(EMPTY, steps), order)
  {
    if late {
      var steps := LateOrderPaidTwice();
      assert |Payment.OutcomesFor(After(EMPTY, steps).pay, "o")| == 2;
      assert !FewOutcomes(After(EMPTY, steps), "o");
    } else {
      forall steps, order | IsRun(EMPTY, steps) && After(EMPTY, steps).pay.punctual
        ensures FewOutcomes(After(EMPTY, steps), order)
      {
        OneOutcomeUnlessAmbiguous(steps, order);
      }
    }
  }

  // ----- the life of an order -----

  /** Once committed, an order keeps its columns and its event, and a status that
      has left `pending` never returns to it. */
  ghost predicate Settles(earlier: OrderDb, later: OrderDb) {
    && Outbox.Preserves(earlier, later)
    && forall order :: order in earlier.rows && earlier.rows[order].status != PendingPayment ==>
         later.rows[order].status != PendingPayment
  }

  lemma StatementSettles(db: OrderDb, st: OrderStep)
    requires Outbox.WriteInv(db) && Outbox.Enabled(db, st)
    requires st.SetStatus? ==> st.status != PendingPayment
    ensures Settles(db, Outbox.Apply(db, st))
  {
    Outbox.StepPreserves(db, st);
    forall order | order in db.rows && db.rows[order].status != PendingPayment
      ensures Outbox.Apply(db, st).rows[order].status != PendingPayment
    {
      Outbox.StatusStep(db, st, order, PendingPayment);
    }
  }

  lemma StepSettles(s: State, step: Step)
    requires Outbox.WriteInv(s.db) && Enabled(s, step)
    ensures Settles(s.db, NextDb(s, step))
  {
    if DbStep(s, step).Some? {
      StatementSettles(s.db, DbStep(s, step).value);
    }
  }

  lemma SettlesTransitive(a: OrderDb, b: OrderDb, c: OrderDb)
    requires Settles(a, b) && Settles(b, c)
    ensures Settles(a, c)
  {
    Outbox.PreservesTransitive(a, b, c);
  }

  /** From any reachable state on: replayed creates, relays and status updates
      never change what an order is, nor make it pending again. */
  lemma {:induction false} OrdersSettle(s: State, steps: seq<Step>)
    requires Inv(s) && IsRun(s, steps)
    ensures Settles(s.db, After(s, steps).db)
    decreases |steps|
  {
    if steps != [] {
      var next := Apply(s, steps[0]);
      StepSettles(s, steps[0]);
      StepKeepsInv(s, steps[0]);
      OrdersSettle(next, steps[1..]);
      SettlesTransitive(s.db, next.db, After(s, steps).db);
    }
  }

  lemma {:induction false} RunSplit(s: State, first: seq<Step>, rest: seq<Step>)
    requires IsRun(s, first + rest)
    ensures IsRun(s, first) && IsRun(After(s, first), rest)
    ensures After(s, first + rest) == After(After(s, first), rest)
    decreases |first|
  {
    if first == [] {
      assert first + rest == rest;
    } else {
      assert (first + rest)[1..] == first[1..] + rest;
      RunSplit(Apply(s, first[0]), first[1..], rest);
    }
  }

  /** The same between two points of one run. */
  lemma LaterSettles(earlier: seq<Step>, later: seq<Step>)
    requires earlier <= later && IsRun(EMPTY, later)
    ensures IsRun(EMPTY, earlier)
    ensures Settles(After(EMPTY, earlier).db, After(EMPTY, later).db)
  {
    var rest := later[|earlier|..];
    assert later == earlier + rest;
    RunSplit(EMPTY, earlier, rest);
    EmptyInv();
    InvHolds(EMPTY, earlier);
    OrdersSettle(After(EMPTY, earlier), rest);
  }

  lemma {:induction false} TopicStays(s: State, steps: seq<Step>)
    requires IsRun(s, steps)
    ensures s.pay.topic <= After(s, steps).pay.topic
    decreases |steps|
  {
    if steps != [] {
      TopicGrows(s, steps[0]);
      TopicStays(Apply(s, steps[0]), steps[1..]);
    }
  }

  /** The outcome event behind a status. */
  lemma AnnouncedBy(s: State, order: string) returns (i: nat)
    requires Inv(s) && order in s.db.rows && s.db.rows[order].status != PendingPayment
    ensures i in Payment.OutcomesFor(s.pay, order)
    ensures Announces(s.pay.topic[i], order, s.db.rows[order].status)
  {
    assert StatusAnnounced(s, order);
    i :| i < |s.pay.topic| && Announces(s.pay.topic[i], order, s.db.rows[order].status);
  }

  /** Without an ambiguous publication a status, once it is confirmed or failed,
      stays what it is, however often messages are redelivered to anybody. */
  lemma StatusIsFinal(earlier: seq<Step>, later: seq<Step>, order: string)
    requires earlier <= later && IsRun(EMPTY, later) && IsRun(EMPTY, earlier) && After(EMPTY, later).pay.punctual
    requires AmbiguousRelays(After(EMPTY, later), order) == {}
    requires Payment.AmbiguousFor(After(EMPTY, later).pay, order) == {}
    requires order in After(EMPTY, earlier).db.rows && After(EMPTY, earlier).db.rows[order].status != PendingPayment
    ensures order in After(EMPTY, later).db.rows
    ensures After(EMPTY, later).db.rows[order].status == After(EMPTY, earlier).db.rows[order].status
  {
    assert later == earlier + later[|earlier|..];
    RunSplit(EMPTY, earlier, later[|earlier|..]);
    TopicStays(After(EMPTY, earlier), later[|earlier|..]);
    EmptyInv();
    InvHolds(EMPTY, earlier);
    InvHolds(EMPTY, later);
    LaterSettles(earlier, later);
    var i := AnnouncedBy(After(EMPTY, earlier), order);
    var j := AnnouncedBy(After(EMPTY, later), order);
    assert After(EMPTY, later).pay.topic[i] == After(EMPTY, earlier).pay.topic[i];
    assert i in Payment.OutcomesFor(After(EMPTY, later).pay, order);
    OneOutcomeUnlessAmbiguous(later, order);
  }

  /** On the topic there is an event of that kind for the order. */
  ghost predicate Told(s: State, order: string, kind: Kind) {
    exists i: nat :: i < |s.pay.topic| && s.pay.topic[i].event.kind == kind && s.pay.topic[i].event.order == order
  }

  /** A confirmed order has a confirmation on the topic and a refused one a failed
      payment; and with no ambiguous publication never the other. */
  lemma StatusTellsOutcome(steps: seq<Step>, order: string)
    requires IsRun(EMPTY, steps) && order in After(EMPTY, steps).db.rows
    ensures var s := After(EMPTY, steps);
      && (s.db.rows[order].status == Confirmed ==> Told(s, order, OrderConfirmed))
      && (s.db.rows[order].status == PaymentRefused ==> Told(s, order, PaymentFailed))
      && (s.pay.punctual && AmbiguousRelays(s, order) == {} && Payment.AmbiguousFor(s.pay, order) == {} ==>
            && (s.db.rows[order].status == Confirmed ==> !Told(s, order, PaymentFailed))
            && (s.db.rows[order].status == PaymentRefused ==> !Told(s, order, OrderConfirmed)))
  {
    var s := After(EMPTY, steps);
    EmptyInv();
    InvHolds(EMPTY, steps);
    if s.db.rows[order].status != PendingPayment {
      var i := AnnouncedBy(s, order);
      if s.pay.punctual && AmbiguousRelays(s, order) == {} && Payment.AmbiguousFor(s.pay, order) == {} {
        OneOutcomeUnlessAmbiguous(steps, order);
        ToldByOne(s, order, i, OrderConfirmed);
        ToldByOne(s, order, i, PaymentFailed);
      }
    }
  }

  /** If just one event is an outcome of the order, the order is told no other. */
  lemma ToldByOne(s: State, order: string, i: nat, kind: Kind)
    requires i < |s.pay.topic| && IsOutcome(kind)
    requires forall j :: j in Payment.OutcomesFor(s.pay, order) ==> j == i
    ensures Told(s, order, kind) ==> s.pay.topic[i].event.kind == kind
  {
    if j: nat :| j < |s.pay.topic| && s.pay.topic[j].event.kind == kind && s.pay.topic[j].event.order == order {
      assert j in Payment.OutcomesFor(s.pay, order);
    }
  }

  /** The request whose transaction inserted the order had exactly its own body
      stored: the user, the item and the quantity cut to 32 bits, with the full
      quantity in the event. */
  lemma WinnerIsStored(s: State, req: nat, order: string)
    requires Inv(s) && req in s.requests && s.requests[req].body.order == order
    requires order in s.db.rows && order in s.db.origin && s.db.origin[order] == req
    ensures order in s.db.outbox
    ensures var b, row := s.requests[req].body, s.db.rows[order].body;
      row.user == b.user && row.item == b.item && row.quantity == Int32(b.quantity)
    ensures var b, p := s.requests[req].body, s.db.outbox[order].payload;
      p.user == b.user && p.order == b.order && p.item == b.item && p.quantity == b.quantity
  {
    assert Outbox.OneOrigin(s.db, order) && WriterFromRequest(s, req);
  }

  /** The request carries that key, which is its order's id. */
  predicate Keyed(s: State, req: nat, key: string) {
    req in s.requests && s.requests[req].body.order == key
  }

  /** However many requests carry one key, and whatever their bodies: they leave at
      most one order behind, the one with the key as its id, and units are taken for
      them at most once in a reservation's lifetime. */
  lemma OneKeyOneOrder(steps: seq<Step>, key: string)
    requires IsRun(EMPTY, steps)
    ensures var s := After(EMPTY, steps);
      && (forall id :: id in s.db.rows ==> id in s.db.origin && s.db.origin[id] in s.requests)
      && (forall id :: id in s.db.rows && Keyed(s, s.db.origin[id], key) ==> id == key)
      && (forall i, j :: 0 <= i < j < |s.store.log| && s.store.log[i].Taken? && s.store.log[j].Taken? &&
                         s.store.log[i].order == key == s.store.log[j].order ==>
            s.store.log[i].at + 86_400_000 <= s.store.log[j].at)
  {
    EmptyInv();
    InvHolds(EMPTY, steps);
    var s := After(EMPTY, steps);
    forall id | id in s.db.rows
      ensures id in s.db.origin && s.db.origin[id] in s.requests && s.requests[s.db.origin[id]].body.order == id
    {
      assert Outbox.OneOrigin(s.db, id) && WriterFromRequest(s, s.db.origin[id]);
    }
    forall i, j | 0 <= i < j < |s.store.log| && s.store.log[i].Taken? && s.store.log[j].Taken? &&
                  s.store.log[i].order == key == s.store.log[j].order
      ensures s.store.log[i].at + 86_400_000 <= s.store.log[j].at
    {
      assert Inventory.SpacedAt(s.store.log, i, j);
    }
  }

  /** A request that was answered 201 has its order and outbox row committed, with
      the payload of one request and that request's narrowed quantity. */
  lemma CreatedMeansStored(steps: seq<Step>, req: nat)
    requires IsRun(EMPTY, steps) && InPhase(After(EMPTY, steps), req, Replied(201))
    ensures var s := After(EMPTY, steps);
      var order := s.requests[req].body.order;
      && order in s.db.rows && order in s.db.outbox
      && s.db.outbox[order].payload.order == order
      && s.db.outbox[order].payload.user == s.db.rows[order].body.user
      && s.db.outbox[order].payload.item == s.db.rows[order].body.item
      && Int32(s.db.outbox[order].payload.quantity) == s.db.rows[order].body.quantity
  {
    EmptyInv();
    InvHolds(EMPTY, steps);
    var s := After(EMPTY, steps);
    assert CreatedCommitted(s, req) && WriterFromRequest(s, req);
    assert Outbox.WriterAgrees(s.db, s.db.writers[req]);
    assert s.db.rows.Keys == s.db.outbox.Keys;
    PayloadsCarryId(s, s.requests[req].body.order);
  }
}
