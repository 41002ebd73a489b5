/** The stock store kept in Redis: the reserve script, the stock reset, and the
    trace of stock updates they publish.

    Times are milliseconds.  A Lua script runs as one atomic step. */
module Inventory {

  const HOLD_MS: nat := 86_400_000

  /** Value of a reservation key, and the time at which Redis drops it. */
  datatype Hold = Hold(quantity: int, expires: nat)

  /** History of the store.  `Taken` is also what the script publishes on
      the stock-updates channel; `Reset` is silent for subscribers. */
  datatype Change =
    | Reset(item: string, quantity: int)
    | Taken(item: string, order: string, quantity: int, remaining: int, at: nat)

  datatype Store = Store(stock: map<string, int>, holds: map<string, Hold>, now: nat, log: seq<Change>)

  const EMPTY := Store(map[], map[], 0, [])

  function StockOf(s: Store, item: string): int {
    if item in s.stock then s.stock[item] else 0
  }

  predicate Live(s: Store, order: string) {
    order in s.holds && s.now < s.holds[order].expires
  }

  /** What the reserve script leaves behind, and its answer (1 or 0). */
  function Reserve(s: Store, order: string, item: string, quantity: int): (Store, int) {
    if Live(s, order) then (s, 1)
    else if StockOf(s, item) < quantity then (s, 0)
    else
      var remaining := StockOf(s, item) - quantity;
      (Store(s.stock[item := remaining],
             s.holds[order := Hold(quantity, s.now + HOLD_MS)],
             s.now,
             s.log + [Taken(item, order, quantity, remaining, s.now)]), 1)
  }

  /** The call takes units itself, rather than finding a reservation or failing. */
  predicate Fresh(s: Store, order: string, item: string, quantity: int) {
    !Live(s, order) && quantity <= StockOf(s, item)
  }

  function SetStock(s: Store, item: string, quantity: int): Store {
    s.(stock := s.stock[item := quantity], log := s.log + [Reset(item, quantity)])
  }

  datatype Step =
    | Reserving(order: string, item: string, quantity: int)
    | Stocking(item: string, quantity: int)
    | Waiting(ms: nat)

  /** What the HTTP handlers let through. */
  predicate Legal(step: Step) {
    match step
    case Reserving(_, _, quantity) => quantity > 0
    case Stocking(_, quantity) => quantity >= 0
    case Waiting(_) => true
  }

  predicate AllLegal(steps: seq<Step>) {
    forall k :: 0 <= k < |steps| ==> Legal(steps[k])
  }

  function Apply(s: Store, step: Step): Store {
    match step
    case Reserving(order, item, quantity) => Reserve(s, order, item, quantity).0
    case Stocking(item, quantity) => SetStock(s, item, quantity)
    case Waiting(ms) => s.(now := s.now + ms)
  }

  function After(s: Store, steps: seq<Step>): Store {
    if steps == [] then s else Apply(After(s, steps[..|steps| - 1]), steps[|steps| - 1])
  }

  // ----- reading the history -----

  /** Stock level of an item according to the history alone. */
  function Level(log: seq<Change>, item: string): int {
    if log == [] then 0
    else
      var earlier := Level(log[..|log| - 1], item);
      match log[|log| - 1]
      case Reset(i, quantity) => if i == item then quantity else earlier
      case Taken(i, _, quantity, _, _) => if i == item then earlier - quantity else earlier
  }

  function UnitsOf(c: Change, item: string): int {
    if c.Taken? && c.item == item then c.quantity else 0
  }

  /** Units of an item that reservations ever took. */
  function Units(log: seq<Change>, item: string): int {
    if log == [] then 0 else Units(log[..|log| - 1], item) + UnitsOf(log[|log| - 1], item)
  }

  predicate TakesFor(c: Change, order: string) {
    c.Taken? && c.order == order
  }

  predicate EverTaken(log: seq<Change>, order: string) {
    exists k :: 0 <= k < |log| && TakesFor(log[k], order)
  }

  predicate MadeHold(c: Change, order: string, hold: Hold) {
    TakesFor(c, order) && c.quantity == hold.quantity && c.at + HOLD_MS == hold.expires
  }

  /** The reservation key was written by some take in the history. */
  predicate HeldBy(log: seq<Change>, order: string, hold: Hold) {
    exists k :: 0 <= k < |log| && MadeHold(log[k], order, hold)
  }

  predicate IsReset(c: Change, item: string) {
    c.Reset? && c.item == item
  }

  predicate NoReset(log: seq<Change>, item: string) {
    forall k :: 0 <= k < |log| ==> !IsReset(log[k], item)
  }

  // ----- the invariant -----

  /** The update at position k carries the level the history gives there. */
  ghost predicate TracedAt(log: seq<Change>, k: nat)
    requires k < |log|
  {
    log[k].Taken? ==>
      && log[k].quantity > 0
      && log[k].remaining >= 0
      && log[k].remaining == Level(log[..k + 1], log[k].item)
  }

  ghost predicate TraceAgrees(log: seq<Change>) {
    forall k :: 0 <= k < |log| ==> TracedAt(log, k)
  }

  /** Two takes for one order are at least a reservation lifetime apart. */
  ghost predicate SpacedAt(log: seq<Change>, i: nat, j: nat)
    requires i < j < |log|
  {
    log[i].Taken? && log[j].Taken? && log[i].order == log[j].order ==> log[i].at + HOLD_MS <= log[j].at
  }

  ghost predicate TakesSpaced(log: seq<Change>) {
    forall i, j :: 0 <= i < j < |log| ==> SpacedAt(log, i, j)
  }

  /** The reservation key outlives the take at position k. */
  ghost predicate CoveredAt(s: Store, k: nat)
    requires k < |s.log|
  {
    s.log[k].Taken? ==>
      && s.log[k].at <= s.now
      && s.log[k].order in s.holds
      && s.log[k].at + HOLD_MS <= s.holds[s.log[k].order].expires
  }

  ghost predicate HoldsCover(s: Store) {
    && (forall k :: 0 <= k < |s.log| ==> CoveredAt(s, k))
    && (forall order :: order in s.holds ==> HeldBy(s.log, order, s.holds[order]))
  }

  ghost predicate StockAgrees(s: Store) {
    forall item :: StockOf(s, item) >= 0 && StockOf(s, item) == Level(s.log, item)
  }

  ghost predicate Inv(s: Store) {
    StockAgrees(s) && TraceAgrees(s.log) && TakesSpaced(s.log) && HoldsCover(s)
  }

  lemma LevelOfExtension(log: seq<Change>, c: Change, item: string)
    ensures Level(log + [c], item) ==
            match c
            case Reset(i, quantity) => (if i == item then quantity else Level(log, item))
            case Taken(i, _, quantity, _, _) => (if i == item then Level(log, item) - quantity else Level(log, item))
    ensures Units(log + [c], item) == Units(log, item) + UnitsOf(c, item)
  {
    assert (log + [c])[..|log|] == log;
  }

  lemma TraceOfExtension(log: seq<Change>, c: Change)
    requires TraceAgrees(log)
    requires c.Taken? ==> c.quantity > 0 && c.remaining >= 0 && c.remaining == Level(log, c.item) - c.quantity
    ensures TraceAgrees(log + [c])
  {
    var longer := log + [c];
    forall k | 0 <= k < |longer| ensures TracedAt(longer, k) {
      if k < |log| {
        assert TracedAt(log, k) && longer[..k + 1] == log[..k + 1];
      } else if c.Taken? {
        assert longer[..k + 1] == longer;
        LevelOfExtension(log, c, c.item);
      }
    }
  }

  lemma HeldByGrows(log: seq<Change>, c: Change, order: string, hold: Hold)
    requires HeldBy(log, order, hold) || MadeHold(c, order, hold)
    ensures HeldBy(log + [c], order, hold)
  {
    if HeldBy(log, order, hold) {
      var k :| 0 <= k < |log| && MadeHold(log[k], order, hold);
      assert MadeHold((log + [c])[k], order, hold);
    } else {
      assert MadeHold((log + [c])[|log|], order, hold);
    }
  }

  lemma SpacedOfExtension(log: seq<Change>, c: Change)
    requires TakesSpaced(log)
    requires forall k :: 0 <= k < |log| && c.Taken? && TakesFor(log[k], c.order) ==> log[k].at + HOLD_MS <= c.at
    ensures TakesSpaced(log + [c])
  {
    var longer := log + [c];
    forall i, j | 0 <= i < j < |longer| ensures SpacedAt(longer, i, j) {
      if j < |log| {
        assert SpacedAt(log, i, j);
      } else if c.Taken? && log[i].Taken? && log[i].order == c.order {
        assert TakesFor(log[i], c.order);
      }
    }
  }

  lemma ResetKeepsInv(s: Store)
    requires Inv(s)
    ensures forall item, quantity: int :: quantity >= 0 ==> Inv(SetStock(s, item, quantity))
  {
    forall item, quantity: int | quantity >= 0 ensures Inv(SetStock(s, item, quantity)) {
      var after := SetStock(s, item, quantity);
      forall i ensures StockOf(after, i) >= 0 && StockOf(after, i) == Level(after.log, i) {
        LevelOfExtension(s.log, Reset(item, quantity), i);
        assert StockOf(s, i) == Level(s.log, i);
      }
      TraceOfExtension(s.log, Reset(item, quantity));
      SpacedOfExtension(s.log, Reset(item, quantity));
      forall k | 0 <= k < |after.log| ensures CoveredAt(after, k) {
        assert k < |s.log| ==> CoveredAt(s, k);
      }
      forall order | order in after.holds ensures HeldBy(after.log, order, after.holds[order]) {
        HeldByGrows(s.log, Reset(item, quantity), order, after.holds[order]);
      }
    }
  }

  lemma TakenStock(s: Store, order: string, item: string, quantity: int)
    requires StockAgrees(s) && quantity > 0 && Fresh(s, order, item, quantity)
    ensures StockAgrees(Reserve(s, order, item, quantity).0)
  {
    var after := Reserve(s, order, item, quantity).0;
    forall i ensures StockOf(after, i) >= 0 && StockOf(after, i) == Level(after.log, i) {
      LevelOfExtension(s.log, Taken(item, order, quantity, StockOf(s, item) - quantity, s.now), i);
      assert StockOf(s, i) == Level(s.log, i);
    }
  }

  lemma TakenHolds(s: Store, order: string, item: string, quantity: int)
    requires HoldsCover(s) && TakesSpaced(s.log) && Fresh(s, order, item, quantity)
    ensures HoldsCover(Reserve(s, order, item, quantity).0)
    ensures TakesSpaced(Reserve(s, order, item, quantity).0.log)
  {
    var after := Reserve(s, order, item, quantity).0;
    var taken := Taken(item, order, quantity, StockOf(s, item) - quantity, s.now);
    forall k | 0 <= k < |s.log| && TakesFor(s.log[k], order) ensures s.log[k].at + HOLD_MS <= s.now {
      assert CoveredAt(s, k);
    }
    SpacedOfExtension(s.log, taken);
    forall k | 0 <= k < |after.log| ensures CoveredAt(after, k) {
      assert k < |s.log| ==> CoveredAt(s, k);
    }
    forall o | o in after.holds ensures HeldBy(after.log, o, after.holds[o]) {
      HeldByGrows(s.log, taken, o, after.holds[o]);
    }
  }

  lemma ReserveKeepsInv(s: Store)
    requires Inv(s)
    ensures forall order, item, quantity: int :: quantity > 0 ==> Inv(Reserve(s, order, item, quantity).0)
  {
    forall order, item, quantity: int | quantity > 0 ensures Inv(Reserve(s, order, item, quantity).0) {
      if Fresh(s, order, item, quantity) {
        TakenStock(s, order, item, quantity);
        assert StockOf(s, item) == Level(s.log, item);
        TraceOfExtension(s.log, Taken(item, order, quantity, StockOf(s, item) - quantity, s.now));
        TakenHolds(s, order, item, quantity);
      }
    }
  }

  /** Every sequence of calls, resets and passing time keeps the invariant. */
  lemma {:induction false} InvHolds(s: Store, steps: seq<Step>)
    requires Inv(s) && AllLegal(steps)
    ensures Inv(After(s, steps))
  {
    if steps != [] {
      var before := After(s, steps[..|steps| - 1]);
      InvHolds(s, steps[..|steps| - 1]);
      match steps[|steps| - 1]
      case Reserving(order, item, quantity) => ReserveKeepsInv(before);
      case Stocking(item, quantity) => ResetKeepsInv(before);
      case Waiting(ms) =>
        var after := before.(now := before.now + ms);
        assert forall i :: StockOf(after, i) == StockOf(before, i);
        forall k | 0 <= k < |after.log| ensures CoveredAt(after, k) {
          assert CoveredAt(before, k);
        }
    }
  }

  // ----- stock and its published trace -----

  /** Without a reset, the level falls by exactly the units taken. */
  lemma {:induction false} LevelDropsByUnits(log: seq<Change>, item: string, from: nat)
    requires from <= |log| && NoReset(log[from..], item)
    ensures Level(log, item) == Level(log[..from], item) - Units(log[from..], item)
  {
    if from < |log| {
      var last := log[|log| - 1];
      var shorter := log[..|log| - 1];
      assert log[from..][..|log[from..]| - 1] == shorter[from..];
      assert log[from..][|log[from..]| - 1] == last;
      assert shorter[..from] == log[..from];
      forall k | 0 <= k < |shorter[from..]| ensures !IsReset(shorter[from..][k], item) {
        assert shorter[from..][k] == log[from..][k];
      }
      LevelDropsByUnits(shorter, item, from);
    } else {
      assert log[..from] == log && log[from..] == [];
    }
  }

  lemma {:induction false} UnitsArePositive(log: seq<Change>, item: string)
    requires forall k :: 0 <= k < |log| && log[k].Taken? ==> log[k].quantity > 0
    ensures Units(log, item) >= 0
    ensures log != [] && log[|log| - 1].Taken? && log[|log| - 1].item == item ==> Units(log, item) > 0
  {
    if log != [] {
      UnitsArePositive(log[..|log| - 1], item);
    }
  }

  /** Between two resets the published values of an item strictly decrease, each
      by exactly the units reserved since the earlier one. */
  lemma PublishedTraceDecreases(steps: seq<Step>, i: nat, j: nat, item: string)
    requires AllLegal(steps)
    requires i < j < |After(EMPTY, steps).log|
    requires var log := After(EMPTY, steps).log;
      && log[i].Taken? && log[i].item == item
      && log[j].Taken? && log[j].item == item
      && NoReset(log[i + 1..j + 1], item)
    ensures var log := After(EMPTY, steps).log;
      && log[j].remaining == log[i].remaining - Units(log[i + 1..j + 1], item)
      && 0 <= log[j].remaining < log[i].remaining
  {
    InvHolds(EMPTY, steps);
    var log := After(EMPTY, steps).log;
    DropBetween(log, i, j, item);
  }

  lemma DropBetween(log: seq<Change>, i: nat, j: nat, item: string)
    requires TraceAgrees(log) && i < j < |log|
    requires log[i].Taken? && log[i].item == item && log[j].Taken? && log[j].item == item
    requires NoReset(log[i + 1..j + 1], item)
    ensures log[j].remaining == log[i].remaining - Units(log[i + 1..j + 1], item)
    ensures 0 <= log[j].remaining < log[i].remaining
  {
    var part := log[..j + 1];
    assert TracedAt(log, i) && TracedAt(log, j);
    assert part[i + 1..] == log[i + 1..j + 1] && part[..i + 1] == log[..i + 1];
    LevelDropsByUnits(part, item, i + 1);
    var middle := log[i + 1..j + 1];
    forall k | 0 <= k < |middle| && middle[k].Taken? ensures middle[k].quantity > 0 {
      assert TracedAt(log, i + 1 + k);
    }
    UnitsArePositive(middle, item);
  }

  /** The stock is the last published value less the units reserved since it,
      which is that value itself when the update is the item's last one. */
  lemma StockFollowsTrace(steps: seq<Step>, j: nat, item: string)
    requires AllLegal(steps)
    requires j < |After(EMPTY, steps).log|
    requires var log := After(EMPTY, steps).log;
      log[j].Taken? && log[j].item == item && NoReset(log[j + 1..], item)
    ensures var s := After(EMPTY, steps);
      && 0 <= StockOf(s, item) == s.log[j].remaining - Units(s.log[j + 1..], item)
  {
    InvHolds(EMPTY, steps);
    var s := After(EMPTY, steps);
    assert TracedAt(s.log, j);
    LevelDropsByUnits(s.log, item, j + 1);
    assert StockOf(s, item) == Level(s.log, item);
  }

  // ----- facts used by the callers -----

  /** A reservation in force stays in force until its lifetime is over. */
  lemma HoldStays(s: Store, steps: seq<Step>, order: string)
    requires Live(s, order)
    ensures order in After(s, steps).holds
    ensures After(s, steps).now < s.holds[order].expires ==> After(s, steps).holds[order] == s.holds[order]
    ensures s.now <= After(s, steps).now
  {
  }

  lemma {:induction false} AfterConcat(s: Store, a: seq<Step>, b: seq<Step>)
    ensures After(s, a + b) == After(After(s, a), b)
    decreases |b|
  {
    if b == [] {
      assert a + b == a;
    } else {
      AfterConcat(s, a, b[..|b| - 1]);
      assert (a + b)[..|a + b| - 1] == a + b[..|b| - 1];
    }
  }

  function Elapsed(steps: seq<Step>): nat {
    if steps == [] then 0
    else Elapsed(steps[..|steps| - 1]) +
         match steps[|steps| - 1] case Waiting(ms) => ms case _ => 0
  }

  lemma TimeIsElapsed(s: Store, steps: seq<Step>)
    ensures After(s, steps).now == s.now + Elapsed(steps)
  {
  }

  // ----- the store and its HTTP handlers, as they run -----

  /** How a Redis command ends: answered, done with its answer lost, or not done. */
  datatype Link = Answers | LosesReply | Unreachable

  datatype Status = Ok200 | BadRequest400 | Conflict409 | Internal500

  /** The keys the inventory service uses in Redis. */
  class Redis {
    var stock: map<string, int>
    var holds: map<string, Hold>
    var now: nat
    var log: seq<Change>

    function State(): Store
      reads this
    {
      Store(stock, holds, now, log)
    }

    constructor ()
      ensures State() == EMPTY
    {
      stock, holds, now, log := map[], map[], 0, [];
    }

    method RunReserveScript(order: string, item: string, quantity: int) returns (answer: int)
      modifies this
      ensures State() == Reserve(old(State()), order, item, quantity).0
      ensures answer == Reserve(old(State()), order, item, quantity).1
      ensures answer == 1 <==>
        (order in old(holds) && now < old(holds)[order].expires) ||
        quantity <= if item in old(stock) then old(stock)[item] else 0
    {
      if order in holds && now < holds[order].expires {
        return 1;
      }
      var have := if item in stock then stock[item] else 0;
      if have < quantity {
        return 0;
      }
      var remaining := have - quantity;
      stock := stock[item := remaining];
      holds := holds[order := Hold(quantity, now + HOLD_MS)];
      log := log + [Taken(item, order, quantity, remaining, now)];
      return 1;
    }

    /** A lost reply leaves the script's whole effect behind a 500. */
    method HandleReserve(order: string, item: string, quantity: int, link: Link) returns (status: Status)
      modifies this
      ensures status == BadRequest400 <==> item == "" || order == "" || quantity <= 0
      ensures status == Internal500 <==> status != BadRequest400 && link != Answers
      ensures status == Conflict409 <==>
              && status != BadRequest400 && link == Answers
              && !(order in old(holds) && now < old(holds)[order].expires)
              && (if item in old(stock) then old(stock)[item] else 0) < quantity
      ensures status == Ok200 || status == BadRequest400 || status == Conflict409 || status == Internal500
      ensures State() ==
              if status == Ok200 || (status == Internal500 && link == LosesReply)
              then Reserve(old(State()), order, item, quantity).0 else old(State())
    {
      if item == "" || order == "" || quantity <= 0 {
        return BadRequest400;
      }
      if link == Unreachable {
        return Internal500;
      }
      var answer := RunReserveScript(order, item, quantity);
      if link == LosesReply {
        return Internal500;
      }
      if answer == 0 {
        return Conflict409;
      }
      return Ok200;
    }

    /** Likewise for the SET. */
    method HandleSetStock(item: string, quantity: int, link: Link) returns (status: Status)
      modifies this
      ensures status == BadRequest400 <==> item == "" || quantity < 0
      ensures status == Internal500 <==> status != BadRequest400 && link != Answers
      ensures status == Ok200 || status == BadRequest400 || status == Internal500
      ensures State() ==
              if status == Ok200 || (status == Internal500 && link == LosesReply)
              then SetStock(old(State()), item, quantity) else old(State())
      ensures if status == Ok200 || (status == Internal500 && link == LosesReply)
              then stock == old(stock)[item := quantity] && log == old(log) + [Reset(item, quantity)]
              else stock == old(stock) && log == old(log)
    {
      if item == "" || quantity < 0 {
        return BadRequest400;
      }
      if link == Unreachable {
        return Internal500;
      }
      stock := stock[item := quantity];
      log := log + [Reset(item, quantity)];
      return if link == LosesReply then Internal500 else Ok200;
    }

    /** Steps taken by other callers and the passing of time. */
    method Others(steps: seq<Step>)
      modifies this
      ensures State() == After(old(State()), steps)
    {
      var k := 0;
      while k < |steps|
        invariant 0 <= k <= |steps|
        invariant State() == After(old(State()), steps[..k])
      {
        assert steps[..k + 1][..k] == steps[..k];
        match steps[k] {
        case Reserving(order, item, quantity) => var _ := RunReserveScript(order, item, quantity);
        case Stocking(item, quantity) =>
          stock := stock[item := quantity];
          log := log + [Reset(item, quantity)];
        case Waiting(ms) =>
          now := now + ms;
        }
        k := k + 1;
      }
      assert steps[..k] == steps;
    }
  }
}
