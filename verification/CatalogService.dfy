/** The handlers of the catalog service, as they run: each is a sequence of
    statements on the shared tables and index, and between any two of them the
    others may take any steps. */
module CatalogService {
  import opened Catalog
  import opened Keys
  import opened Numbers
  import opened Wrappers
  import Outbox = TransactionalOutbox

  /** Whose steps an operation belongs to. */
  datatype Owner = OfWriter(tx: nat) | OfRelay(rel: nat)

  predicate Foreign(m: Move, owner: Owner) {
    match owner
    case OfWriter(tx) => !(m.Create? && m.tx == tx) && !(m.Statement? && Outbox.MovesWriter(m.step, tx))
    case OfRelay(rel) => !(m.Statement? && Outbox.MovesRelay(m.step, rel))
  }

  /** The owner's own transaction is the same in both states. */
  predicate SameOwn(s: State, t: State, owner: Owner) {
    match owner
    case OfWriter(tx) =>
      && (tx in s.db.writers <==> tx in t.db.writers)
      && (tx in s.db.writers ==> t.db.writers[tx] == s.db.writers[tx])
    case OfRelay(rel) =>
      && (rel in s.db.attempts <==> rel in t.db.attempts)
      && (rel in s.db.attempts ==> t.db.attempts[rel] == s.db.attempts[rel])
  }

  /** What no move at all changes. */
  ghost predicate Kept(s: State, t: State) {
    Outbox.Preserves(s.db, t.db) && s.index.Keys <= t.index.Keys
  }

  lemma MoveKeeps(s: State, m: Move)
    requires Inv(s) && Enabled(s, m)
    ensures Kept(s, Apply(s, m))
  {
    if m.Create? {
      Outbox.StepPreserves(s.db, CreateStep(m));
    } else if m.Statement? {
      Outbox.StepPreserves(s.db, m.step);
    }
  }

  lemma KeptTransitive(a: State, b: State, c: State)
    requires Kept(a, b) && Kept(b, c)
    ensures Kept(a, c)
  {
    Outbox.PreservesTransitive(a.db, b.db, c.db);
  }

  lemma ForeignKeepsOwn(s: State, m: Move, owner: Owner)
    requires Enabled(s, m) && Foreign(m, owner)
    ensures SameOwn(s, Apply(s, m), owner)
  {
    if !m.Late? {
      var step := if m.Create? then CreateStep(m) else m.step;
      match owner {
        case OfWriter(tx) => Outbox.OthersKeepWriter(s.db, step, tx);
        case OfRelay(rel) => Outbox.OthersKeepAttempt(s.db, step, rel);
      }
    }
  }

  lemma {:induction false} MoveSnoc(s: State, moves: seq<Move>, m: Move)
    requires IsRun(s, moves) && Enabled(After(s, moves), m)
    ensures IsRun(s, moves + [m]) && After(s, moves + [m]) == Apply(After(s, moves), m)
    decreases |moves|
  {
    if moves != [] {
      MoveSnoc(Apply(s, moves[0]), moves[1..], m);
      assert (moves + [m])[1..] == moves[1..] + [m];
    }
  }

  /** A relay transaction stays known, and a finished one what it is. */
  ghost predicate AttemptKept(s: State, t: State, rel: nat) {
    rel in s.db.attempts ==>
      rel in t.db.attempts && (Outbox.Finished(s.db.attempts[rel]) ==> t.db.attempts[rel] == s.db.attempts[rel])
  }

  lemma {:induction false} AttemptStays(s: State, moves: seq<Move>, rel: nat)
    requires IsRun(s, moves)
    ensures AttemptKept(s, After(s, moves), rel)
    decreases |moves|
  {
    if moves != [] && rel in s.db.attempts {
      if !moves[0].Late? {
        Outbox.AttemptStays(s.db, if moves[0].Create? then CreateStep(moves[0]) else moves[0].step, rel);
      }
      AttemptStays(Apply(s, moves[0]), moves[1..], rel);
    }
  }

  lemma {:induction false} MoveSplit(s: State, first: seq<Move>, rest: seq<Move>)
    requires IsRun(s, first + rest)
    ensures IsRun(s, first) && IsRun(After(s, first), rest)
    ensures After(s, first + rest) == After(After(s, first), rest)
    decreases |first|
  {
    if first == [] {
      assert first + rest == rest;
    } else {
      assert (first + rest)[1..] == first[1..] + rest;
      MoveSplit(Apply(s, first[0]), first[1..], rest);
    }
  }

  lemma AttemptsStay(earlier: seq<Move>, later: seq<Move>)
    requires earlier <= later && IsRun(EMPTY, later)
    ensures IsRun(EMPTY, earlier)
    ensures forall rel :: AttemptKept(After(EMPTY, earlier), After(EMPTY, later), rel)
  {
    var rest := later[|earlier|..];
    assert later == earlier + rest;
    MoveSplit(EMPTY, earlier, rest);
    forall rel ensures AttemptKept(After(EMPTY, earlier), After(EMPTY, later), rel) {
      AttemptStays(After(EMPTY, earlier), rest, rel);
    }
  }

  /** The relay transactions of a batch: each is finished, was not there before, and
      is listed once. */
  ghost predicate Attempted(s: State, rels: seq<nat>, before: set<nat>) {
    && (forall k :: 0 <= k < |rels| ==> IsAttempt(s, rels[k], before))
    && (forall i, j :: 0 <= i < j < |rels| ==> rels[i] != rels[j])
  }

  ghost predicate IsAttempt(s: State, rel: nat, before: set<nat>) {
    rel !in before && rel in s.db.attempts && Outbox.Finished(s.db.attempts[rel])
  }

  lemma AttemptsGrow(earlier: seq<Move>, later: seq<Move>, rels: seq<nat>, rel: nat, before: set<nat>)
    requires earlier <= later && IsRun(EMPTY, later) && IsRun(EMPTY, earlier)
    requires Attempted(After(EMPTY, earlier), rels, before) && before <= After(EMPTY, earlier).db.attempts.Keys
    requires rel !in After(EMPTY, earlier).db.attempts && IsAttempt(After(EMPTY, later), rel, before)
    ensures Attempted(After(EMPTY, later), rels + [rel], before) && before <= After(EMPTY, later).db.attempts.Keys
  {
    AttemptsStay(earlier, later);
    forall k | 0 <= k < |rels| ensures IsAttempt(After(EMPTY, later), rels[k], before) {
      assert IsAttempt(After(EMPTY, earlier), rels[k], before);
      assert AttemptKept(After(EMPTY, earlier), After(EMPTY, later), rels[k]);
    }
    forall r | r in before ensures r in After(EMPTY, later).db.attempts {
      assert AttemptKept(After(EMPTY, earlier), After(EMPTY, later), r);
    }
  }

  /** What the surroundings decide during one handler. */
  datatype Fate = Fate(others: nat -> seq<Move>, fails: nat -> bool)

  /** Nothing fails, and nobody else acts. */
  ghost predicate Smooth(fate: Fate) {
    forall k :: !fate.fails(k) && fate.others(k) == []
  }

  const BATCH: nat := 20

  class Server {
    var state: State
    ghost var moves: seq<Move>

    ghost predicate Valid()
      reads this
    {
      IsRun(EMPTY, moves) && state == After(EMPTY, moves)
    }

    constructor ()
      ensures Valid() && state == EMPTY
    {
      state, moves := EMPTY, [];
    }

    lemma Reachable()
      requires Valid()
      ensures Inv(state)
    {
      CatalogInvHolds(EMPTY, moves);
    }

    method Do(m: Move)
      requires Valid() && Enabled(state, m)
      modifies this
      ensures Valid() && state == Apply(old(state), m) && moves == old(moves) + [m]
      ensures Kept(old(state), state)
    {
      Reachable();
      MoveKeeps(state, m);
      MoveSnoc(EMPTY, moves, m);
      state := Apply(state, m);
      moves := moves + [m];
    }

    /** A step of another, if it is one and is possible now. */
    method Other(m: Move, owner: Owner)
      requires Valid()
      modifies this
      ensures Valid() && Kept(old(state), state) && SameOwn(old(state), state, owner) && old(moves) <= moves
    {
      if Foreign(m, owner) && Enabled(state, m) {
        ForeignKeepsOwn(state, m, owner);
        Do(m);
      }
    }

    method Others(schedule: seq<Move>, owner: Owner)
      requires Valid()
      modifies this
      ensures Valid() && Kept(old(state), state) && SameOwn(old(state), state, owner) && old(moves) <= moves
      ensures schedule == [] ==> state == old(state)
    {
      for k := 0 to |schedule|
        invariant k == 0 ==> state == old(state)
        invariant Valid() && Kept(old(state), state) && SameOwn(old(state), state, owner) && old(moves) <= moves
      {
        ghost var before := state;
        Other(schedule[k], owner);
        KeptTransitive(old(state), before, state);
      }
    }

    // ----- POST /products -----

    /** The transaction writes a product, and has reached a phase. */
    ghost predicate TxAt(tx: nat, id: string, product: Product, phase: Outbox.Phase)
      reads this
    {
      && Valid() && tx in state.db.writers
      && var w := state.db.writers[tx];
      && w.id == id && w.row == Outbox.Row(product, NoStatus) && w.phase == phase
    }

    method TxWaits(tx: nat, schedule: seq<Move>, ghost id: string, ghost product: Product, ghost phase: Outbox.Phase)
      requires TxAt(tx, id, product, phase)
      modifies this
      ensures TxAt(tx, id, product, phase) && Kept(old(state), state)
      ensures state.db.writers[tx] == old(state.db.writers[tx])
      ensures schedule == [] ==> state == old(state)
    {
      Others(schedule, OfWriter(tx));
    }

    method Begins(tx: nat, id: string, req: Request, now: nat)
      requires Valid() && Catalog.Valid(req) && tx !in state.db.writers
      modifies this
      ensures TxAt(tx, id, Product(req.name, req.description, Int32(req.priceCents)), Outbox.Open)
      ensures Kept(old(state), state) && state.db.rows == old(state.db.rows)
      ensures Outbox.Unlocked(old(state.db), tx) ==> Outbox.Unlocked(state.db, tx)
    {
      Outbox.StaysUnlocked(state.db, CreateStep(Create(tx, id, req, now)), tx);
      Do(Create(tx, id, req, now));
    }

    method RollsBack(tx: nat, ghost id: string, ghost product: Product, ghost phase: Outbox.Phase)
      requires TxAt(tx, id, product, phase) && phase != Outbox.Committed && phase != Outbox.Aborted
      modifies this
      ensures TxAt(tx, id, product, Outbox.Aborted) && state.db.rows == old(state.db.rows)
      ensures state.db.outbox == old(state.db.outbox) && state.index == old(state.index)
    {
      Do(Statement(Outbox.Abort(tx)));
    }

    /** INSERT ... RETURNING: the row there is, or the one it inserts. */
    method CreatesProduct(tx: nat, ghost id: string, ghost product: Product, schedule: seq<Move>, fails: bool)
      returns (returned: Product, ok: bool)
      requires TxAt(tx, id, product, Outbox.Open)
      modifies this
      ensures TxAt(tx, id, product, if ok then Outbox.RowDone else Outbox.Aborted)
      ensures ok ==> (state.db.writers[tx].newRow <==> id !in state.db.rows)
      ensures ok ==> returned == if id in state.db.rows then state.db.rows[id].body else product
      ensures Kept(old(state), state)
      ensures schedule == [] && !fails && Outbox.Unlocked(old(state.db), tx) ==>
        && ok && Outbox.Unlocked(state.db, tx)
        && (id !in old(state.db.rows) ==> returned == product)
    {
      TxWaits(tx, schedule, id, product, Outbox.Open);
      var w := state.db.writers[tx];
      returned := if w.id in state.db.rows then state.db.rows[w.id].body else w.row.body;
      if fails || !Enabled(state, Statement(Outbox.WriteRow(tx))) {
        RollsBack(tx, id, product, Outbox.Open);
        return returned, false;
      }
      Outbox.StaysUnlocked(state.db, Outbox.WriteRow(tx), tx);
      Do(Statement(Outbox.WriteRow(tx)));
      return returned, true;
    }

    /** The second insert.  The row lock keeps the first one's answer true. */
    method InsertsEvent(tx: nat, ghost id: string, ghost product: Product, schedule: seq<Move>, fails: bool)
      returns (ok: bool)
      requires TxAt(tx, id, product, Outbox.RowDone)
      modifies this
      ensures TxAt(tx, id, product, if ok then Outbox.EntryDone else Outbox.Aborted)
      ensures ok ==> state.db.writers[tx].newRow == old(state.db.writers[tx].newRow)
      ensures Kept(old(state), state)
      ensures schedule == [] && !fails && Outbox.Unlocked(old(state.db), tx) ==> ok
    {
      TxWaits(tx, schedule, id, product, Outbox.RowDone);
      if fails || !Enabled(state, Statement(Outbox.WriteEntry(tx))) {
        RollsBack(tx, id, product, Outbox.RowDone);
        return false;
      }
      Do(Statement(Outbox.WriteEntry(tx)));
      return true;
    }

    /** The transaction's last statement. */
    method EndsTx(tx: nat, ghost id: string, ghost product: Product)
      requires TxAt(tx, id, product, Outbox.EntryDone)
      modifies this
      ensures TxAt(tx, id, product, Outbox.Committed) && Kept(old(state), state)
      ensures id in state.db.rows && id in state.db.outbox
      ensures old(state.db.writers[tx].newRow) ==> state.db.rows[id].body == product
    {
      Do(Statement(Outbox.Commit(tx)));
      Reachable();
      assert Outbox.WriterAgrees(state.db, state.db.writers[tx]);
      assert id in state.db.outbox.Keys;
    }

    /** The commit, which may succeed without the handler learning of it. */
    method Commits(tx: nat, ghost id: string, ghost product: Product, schedule: seq<Move>, fails: bool, told: bool)
      returns (ok: bool)
      requires TxAt(tx, id, product, Outbox.EntryDone)
      modifies this
      ensures TxAt(tx, id, product, if fails then Outbox.Aborted else Outbox.Committed)
      ensures ok == (!fails && told)
      ensures !fails ==> id in state.db.rows && id in state.db.outbox
      ensures !fails && old(state.db.writers[tx].newRow) ==> state.db.rows[id].body == product
      ensures Kept(old(state), state)
    {
      TxWaits(tx, schedule, id, product, Outbox.EntryDone);
      if fails {
        RollsBack(tx, id, product, Outbox.EntryDone);
        return false;
      }
      EndsTx(tx, id, product);
      return told;
    }

    /** The transaction with both inserts. */
    method WritesProduct(tx: nat, ghost id: string, ghost product: Product, fate: Fate)
      returns (returned: Product, ok: bool)
      requires TxAt(tx, id, product, Outbox.Open)
      modifies this
      ensures Valid() && Kept(old(state), state)
      ensures ok ==> TxAt(tx, id, product, Outbox.Committed)
      ensures ok ==> id in state.db.rows && id in state.db.outbox && state.db.rows[id].body == returned
      ensures Smooth(fate) && Outbox.Unlocked(old(state.db), tx) ==>
        ok && (id !in old(state.db.rows) ==> returned == product)
    {
      returned, ok := CreatesProduct(tx, id, product, fate.others(1), fate.fails(1));
      if ok {
        ok := FinishesProduct(tx, id, product, returned, fate);
      }
    }

    /** The rest of the transaction, after the first insert's answer. */
    method FinishesProduct(tx: nat, ghost id: string, ghost product: Product, ghost returned: Product, fate: Fate)
      returns (ok: bool)
      requires TxAt(tx, id, product, Outbox.RowDone)
      requires state.db.writers[tx].newRow <==> id !in state.db.rows
      requires returned == if id in state.db.rows then state.db.rows[id].body else product
      modifies this
      ensures Valid() && Kept(old(state), state)
      ensures ok ==> TxAt(tx, id, product, Outbox.Committed)
      ensures ok ==> id in state.db.rows && id in state.db.outbox && state.db.rows[id].body == returned
      ensures Smooth(fate) && Outbox.Unlocked(old(state.db), tx) ==> ok
    {
      ok := InsertsEvent(tx, id, product, fate.others(2), fate.fails(2));
      if ok {
        ok := Commits(tx, id, product, fate.others(3), fate.fails(3), !fate.fails(4));
      }
    }

    /** The product comes from this request's transaction. */
    predicate Inserted(tx: nat, id: string)
      reads this
    {
      id in state.db.origin && state.db.origin[id] == tx
    }

    lemma InsertedIsStored(tx: nat, id: string, product: Product)
      requires TxAt(tx, id, product, Outbox.Committed) && id in state.db.rows && Inserted(tx, id)
      ensures state.db.rows[id].body == product
      ensures id in state.db.outbox && Shows(state.db.outbox[id].payload, id, product)
    {
      Reachable();
      assert Outbox.OneOrigin(state.db, id);
    }

    /** The handler.  The product's id is the key, or a new UUID without one.  A 201
        carries the stored product, whoever's body that is: under a reused key it is
        the first writer's.  If this request inserted it, the product and its
        document are as asked for, the price cut to 32 bits.  A row that existed
        before the call is unchanged by it, whatever the reply.  With no fault and
        nobody else at work a valid request always gets its 201. */
    method HandleCreateProduct(tx: nat, req: Request, key: string, newId: Uuid, parse: string -> Option<Uuid>,
                               now: nat, fate: Fate)
      returns (code: int, reply: Doc)
      requires Valid() && tx !in state.db.writers
      modifies this
      ensures Valid() && Kept(old(state), state)
      ensures code == 400 <==> req.name == "" || req.priceCents <= 0 || (key != "" && parse(key).None?)
      ensures code == 400 ==> state == old(state)
      ensures code == 201 || code == 400 || code == 500
      ensures code == 201 ==> reply.id == (if key == "" then newId else parse(key).value)
      ensures code == 201 ==> reply.id in state.db.rows && reply.id in state.db.outbox
      ensures code == 201 ==>
        var p := state.db.rows[reply.id].body;
        reply.name == p.name && reply.description == p.description && reply.priceCents == p.priceCents
      ensures code == 201 && reply.id in old(state.db.rows) ==>
        var p := old(state.db.rows)[reply.id].body;
        reply.name == p.name && reply.description == p.description && reply.priceCents == p.priceCents
      ensures code == 201 && Inserted(tx, reply.id) ==>
        var p, doc := state.db.rows[reply.id].body, state.db.outbox[reply.id].payload;
        && p.name == req.name && p.description == req.description && p.priceCents == Int32(req.priceCents)
        && doc.id == reply.id
        && doc.name == req.name && doc.description == req.description && doc.priceCents == Int32(req.priceCents)
      ensures code != 400 && Smooth(fate) && Outbox.Unlocked(old(state.db), tx) ==>
        && code == 201
        && (reply.id !in old(state.db.rows) ==>
              reply.name == req.name && reply.description == req.description
              && reply.priceCents == Int32(req.priceCents))
    {
      reply := Doc(newId, req.name, req.description, Int32(req.priceCents));
      if req.name == "" || req.priceCents <= 0 {
        return 400, reply;
      }
      var id := newId;
      if key != "" {
        var parsed := parse(key);
        if parsed.None? {
          return 400, reply;
        }
        id := parsed.value;
      }
      if fate.fails(0) {
        return 500, reply;
      }
      var stored, ok := StoresProduct(tx, id, req, now, fate);
      return if ok then 201 else 500, Doc(id, stored.name, stored.description, stored.priceCents);
    }

    /** The transaction, from its first statement to its last. */
    method StoresProduct(tx: nat, id: string, req: Request, now: nat, fate: Fate) returns (stored: Product, ok: bool)
      requires Valid() && Catalog.Valid(req) && tx !in state.db.writers
      modifies this
      ensures Valid() && Kept(old(state), state)
      ensures ok ==> id in state.db.rows && id in state.db.outbox && state.db.rows[id].body == stored
      ensures ok && Inserted(tx, id) ==>
        && stored == Product(req.name, req.description, Int32(req.priceCents))
        && Shows(state.db.outbox[id].payload, id, stored)
      ensures Smooth(fate) && Outbox.Unlocked(old(state.db), tx) ==>
        && ok
        && (id !in old(state.db.rows) ==> stored == Product(req.name, req.description, Int32(req.priceCents)))
    {
      var product := Product(req.name, req.description, Int32(req.priceCents));
      Begins(tx, id, req, now);
      stored, ok := WritesProduct(tx, id, product, fate);
      if ok && Inserted(tx, id) {
        InsertedIsStored(tx, id, product);
      }
    }

    // ----- the relay into the index -----

    ghost predicate RelayAt(rel: nat, id: string, phase: Outbox.RelayPhase, accepted: bool)
      reads this
    {
      Valid() && rel in state.db.attempts && state.db.attempts[rel] == Outbox.Attempt(id, phase, accepted)
    }

    method RelayWaits(rel: nat, schedule: seq<Move>, ghost id: string, ghost phase: Outbox.RelayPhase,
                      ghost accepted: bool)
      requires RelayAt(rel, id, phase, accepted)
      modifies this
      ensures RelayAt(rel, id, phase, accepted) && Kept(old(state), state)
      ensures id in state.db.outbox && old(moves) <= moves
    {
      Others(schedule, OfRelay(rel));
      Reachable();
      assert Outbox.AttemptAgrees(state.db, state.db.attempts[rel]);
    }

    /** The index request: taken or not by OpenSearch, and reported or not. */
    method IndexesRow(rel: nat, ghost id: string, accepted: bool, reported: bool)
      requires RelayAt(rel, id, Outbox.Holding, false) && (reported ==> accepted) && id in state.db.outbox
      modifies this
      ensures RelayAt(rel, id, if reported then Outbox.Acked else Outbox.Refused, accepted) && old(moves) <= moves
      ensures state.index ==
        if accepted then old(state.index)[id := old(state.db.outbox[id].payload)] else old(state.index)
    {
      Do(Statement(Outbox.Publish(rel, accepted, reported)));
    }

    method RelayRollsBack(rel: nat, ghost id: string, ghost phase: Outbox.RelayPhase, ghost accepted: bool)
      requires RelayAt(rel, id, phase, accepted) && phase != Outbox.Done && phase != Outbox.Undone
      modifies this
      ensures RelayAt(rel, id, Outbox.Undone, accepted) && old(moves) <= moves
    {
      Do(Statement(Outbox.RelayAbort(rel)));
    }

    method MarksRow(rel: nat, ghost id: string)
      requires RelayAt(rel, id, Outbox.Acked, true)
      modifies this
      ensures RelayAt(rel, id, Outbox.Marked, true) && old(moves) <= moves
    {
      Do(Statement(Outbox.Mark(rel)));
    }

    method RelayCommits(rel: nat, ghost id: string)
      requires RelayAt(rel, id, Outbox.Marked, true)
      modifies this
      ensures RelayAt(rel, id, Outbox.Done, true) && old(moves) <= moves
      ensures id in state.db.rows && id in state.db.outbox && state.db.outbox[id].published
      ensures RowShown(state, id)
    {
      Do(Statement(Outbox.RelayCommit(rel)));
      Reachable();
      assert Outbox.AttemptAgrees(state.db, state.db.attempts[rel]);
      PublishedIsIndexed(state, id);
      IndexedIsRow(state, id);
    }

    method Selects(rel: nat, id: string)
      requires Valid() && rel !in state.db.attempts && Outbox.Available(state.db, id)
      requires forall other :: other in state.db.outbox && Outbox.Available(state.db, other) ==>
        state.db.outbox[id].createdAt <= state.db.outbox[other].createdAt
      modifies this
      ensures RelayAt(rel, id, Outbox.Holding, false) && old(moves) <= moves
    {
      Do(Statement(Outbox.Select(rel, id)));
    }

    /** After an acknowledged index request: mark the row and commit. */
    method MarksAndCommits(rel: nat, ghost id: string, fate: Fate) returns (ok: bool)
      requires RelayAt(rel, id, Outbox.Acked, true)
      modifies this
      ensures old(moves) <= moves
      ensures RelayAt(rel, id, Outbox.Done, true) || RelayAt(rel, id, Outbox.Undone, true)
      ensures ok ==> RelayAt(rel, id, Outbox.Done, true) && id in state.db.outbox && state.db.outbox[id].published
      ensures ok ==> RowShown(state, id)
      ensures ok || exists k :: fate.fails(k)
    {
      RelayWaits(rel, fate.others(2), id, Outbox.Acked, true);
      if fate.fails(2) {
        RelayRollsBack(rel, id, Outbox.Acked, true);
        return false;
      }
      MarksRow(rel, id);
      RelayWaits(rel, fate.others(3), id, Outbox.Marked, true);
      if fate.fails(3) {
        RelayRollsBack(rel, id, Outbox.Marked, true);
        return false;
      }
      RelayCommits(rel, id);
      return !fate.fails(4);
    }

    /** One relay transaction.  With work and no error the row is published and
        its product is in the index as the table has it. */
    method IndexNextOutboxEvent(rel: nat, fate: Fate, accepted: bool) returns (hadWork: bool, ok: bool, id: string)
      requires Valid() && rel !in state.db.attempts
      modifies this
      ensures Valid() && old(moves) <= moves
      ensures !hadWork ==> state == old(state) && ok == !fate.fails(0)
      ensures !hadWork && ok ==> forall other :: !Outbox.Available(state.db, other)
      ensures hadWork ==> Outbox.Available(old(state.db), id) && !fate.fails(0)
      ensures hadWork ==> forall other :: Outbox.Available(old(state.db), other) ==>
        old(state.db.outbox)[id].createdAt <= old(state.db.outbox)[other].createdAt
      ensures hadWork ==> RelayAt(rel, id, Outbox.Done, true) || (exists took :: RelayAt(rel, id, Outbox.Undone, took))
      ensures hadWork && ok ==> id in state.db.outbox && state.db.outbox[id].published
      ensures hadWork && ok ==> RowShown(state, id)
      ensures ok || exists k :: fate.fails(k)
    {
      if fate.fails(0) {
        return false, false, "";
      }
      hadWork, id := Outbox.SelectOldest(state.db);
      if !hadWork {
        return false, true, "";
      }
      Selects(rel, id);
      RelayWaits(rel, fate.others(0), id, Outbox.Holding, false);
      if fate.fails(1) {
        IndexesRow(rel, id, accepted, false);
        RelayWaits(rel, fate.others(1), id, Outbox.Refused, accepted);
        RelayRollsBack(rel, id, Outbox.Refused, accepted);
        return true, false, id;
      }
      IndexesRow(rel, id, true, true);
      ok := MarksAndCommits(rel, id, fate);
    }

    /** No relay is in the middle of an attempt. */
    ghost predicate RelaysIdle()
      reads this
    {
      forall rel :: rel in state.db.attempts ==> !Outbox.RelayHolds(state.db.attempts[rel], state.db.attempts[rel].id)
    }

    /** The index is the whole table. */
    ghost predicate WholeTable()
      reads this
    {
      state.index.Keys == state.db.rows.Keys && forall id :: id in state.db.rows ==> RowShown(state, id)
    }

    /** A batch: one relay transaction after the other, until there is no work, at
        most twenty.  It stops before that with an error just when a transaction
        could not even look for a row, and otherwise only when none was left to
        take; if no other relay is at work then, the index is the whole table. */
    method IndexOutboxBatch(fates: nat -> Fate, accepted: nat -> bool) returns (ghost rels: seq<nat>, error: bool)
      requires Valid()
      modifies this
      ensures Valid() && old(moves) <= moves
      ensures |rels| <= 20 && Attempted(state, rels, old(state.db.attempts.Keys))
      ensures error <==> |rels| < 20 && fates(|rels|).fails(0)
      ensures |rels| < 20 && !error ==> forall id :: !Outbox.Available(state.db, id)
      ensures |rels| < 20 && !error && RelaysIdle() ==> WholeTable()
    {
      rels, error := [], false;
      for k := 0 to BATCH
        invariant k == |rels| && Attempted(state, rels, old(state.db.attempts.Keys))
        invariant old(state.db.attempts.Keys) <= state.db.attempts.Keys
        invariant Valid() && old(moves) <= moves && !error
      {
        ghost var before := moves;
        var rel := Unused(state.db.attempts.Keys);
        var hadWork, ok, _ := IndexNextOutboxEvent(rel, fates(k), accepted(k));
        if !hadWork {
          NothingLeft(ok);
          return rels, !ok;
        }
        AttemptsGrow(before, moves, rels, rel, old(state.db.attempts.Keys));
        rels := rels + [rel];
      }
    }

    lemma NothingLeft(ok: bool)
      requires Valid() && (ok ==> forall id :: !Outbox.Available(state.db, id))
      ensures ok && RelaysIdle() ==> WholeTable()
    {
      if ok && RelaysIdle() {
        forall id | id in state.db.outbox ensures state.db.outbox[id].published {
          assert !Outbox.Available(state.db, id);
        }
        IndexAgreesWithTable(moves);
      }
    }
  }

  /** A number for a new transaction. */
  method Unused(taken: set<nat>) returns (n: nat)
    ensures n !in taken
  {
    n := 0;
    var rest := taken;
    while n in taken
      invariant rest == set k | k in taken && n <= k
      decreases |rest|
    {
      rest := rest - {n};
      n := n + 1;
    }
  }
}
