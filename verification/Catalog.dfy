/** The product catalog: the products table, its outbox, and the OpenSearch
    index that the relay fills from the outbox. */
module Catalog {
  import opened TransactionalOutbox
  import opened Numbers

  /** Body of POST /products that passed validation. */
  datatype Request = Request(name: string, description: string, priceCents: int)

  predicate Valid(req: Request) {
    req.name != "" && req.priceCents > 0
  }

  /** Columns of the products table; it has no column that changes. */
  datatype Product = Product(name: string, description: string, priceCents: int)
  datatype NoStatus = NoStatus

  /** The document kept in the outbox payload and in the index. */
  datatype Doc = Doc(id: string, name: string, description: string, priceCents: int)

  type ProductDb = Db<Product, NoStatus, Doc>

  function ProductOf(req: Request): Product {
    Product(req.name, req.description, Int32(req.priceCents))
  }

  function DocOf(id: string, p: Product): Doc {
    Doc(id, p.name, p.description, p.priceCents)
  }

  datatype State = State(db: ProductDb, index: map<string, Doc>)

  const EMPTY := State(TransactionalOutbox.Fresh(), map[])

  /** `Late` is an index request that takes effect after the relay gave up on it. */
  datatype Move =
    | Create(tx: nat, id: string, req: Request, now: nat)
    | Statement(step: TransactionalOutbox.Step<Product, NoStatus, Doc>)
    | Late(rel: nat)

  /** Index requests leave the relay with the step that ends their attempt. */
  predicate Sent(a: Attempt) {
    a.phase != Holding
  }

  /** The statements a handler or relay issues besides the insert itself. */
  predicate Issued(step: TransactionalOutbox.Step<Product, NoStatus, Doc>) {
    !step.Begin? && !step.SetStatus?
  }

  function CreateStep(m: Move): TransactionalOutbox.Step<Product, NoStatus, Doc>
    requires m.Create?
  {
    var p := ProductOf(m.req);
    TransactionalOutbox.Begin(m.tx, m.id, Row(p, NoStatus), DocOf(m.id, p), m.now)
  }

  predicate Enabled(s: State, m: Move) {
    match m
    case Create(_, _, req, _) => Valid(req) && TransactionalOutbox.Enabled(s.db, CreateStep(m))
    case Statement(step) => Issued(step) && TransactionalOutbox.Enabled(s.db, step)
    case Late(rel) => rel in s.db.attempts && Sent(s.db.attempts[rel])
  }

  /** Index one document under its id, replacing what was there. */
  function Indexed(index: map<string, Doc>, db: ProductDb, id: string): map<string, Doc> {
    if id in db.outbox then index[id := db.outbox[id].payload] else index
  }

  function Apply(s: State, m: Move): State
    requires Enabled(s, m)
  {
    match m
    case Create(_, _, _, _) => s.(db := TransactionalOutbox.Apply(s.db, CreateStep(m)))
    case Statement(step) =>
      State(TransactionalOutbox.Apply(s.db, step),
            if step.Publish? && step.accepted then Indexed(s.index, s.db, s.db.attempts[step.rel].id) else s.index)
    case Late(rel) => s.(index := Indexed(s.index, s.db, s.db.attempts[rel].id))
  }

  ghost predicate IsRun(s: State, moves: seq<Move>)
    decreases |moves|
  {
    moves == [] || (Enabled(s, moves[0]) && IsRun(Apply(s, moves[0]), moves[1..]))
  }

  ghost function After(s: State, moves: seq<Move>): State
    requires IsRun(s, moves)
    decreases |moves|
  {
    if moves == [] then s else After(Apply(s, moves[0]), moves[1..])
  }

  // ----- the index agrees with the table -----

  /** The document has the id, and the columns of the product. */
  ghost predicate Shows(doc: Doc, id: string, p: Product) {
    doc.id == id && doc.name == p.name && doc.description == p.description && doc.priceCents == p.priceCents
  }

  /** Every transaction would insert a valid request's product, and its document. */
  ghost predicate PayloadsMatch(db: ProductDb) {
    forall t :: t in db.writers ==> Shows(db.writers[t].payload, db.writers[t].id, db.writers[t].row.body)
  }

  /** Whatever is indexed is the payload of its outbox row. */
  ghost predicate IndexFromOutbox(s: State) {
    forall id :: id in s.index ==> id in s.db.outbox && s.index[id] == s.db.outbox[id].payload
  }

  ghost predicate AcceptedIsIndexed(s: State) {
    forall r :: r in s.db.attempts && s.db.attempts[r].accepted ==> s.db.attempts[r].id in s.index
  }

  ghost predicate Inv(s: State) {
    && TransactionalOutbox.Inv(s.db)
    && PayloadsMatch(s.db)
    && IndexFromOutbox(s)
    && AcceptedIsIndexed(s)
  }

  /** A document written under the id of a row with the row's own payload. */
  lemma IndexingKeepsIndex(s: State, id: string)
    requires IndexFromOutbox(s) && id in s.db.outbox
    ensures IndexFromOutbox(s.(index := Indexed(s.index, s.db, id)))
    ensures s.index.Keys + {id} == Indexed(s.index, s.db, id).Keys
  {
  }

  lemma TablesKeepIndex(s: State, step: TransactionalOutbox.Step<Product, NoStatus, Doc>)
    requires TransactionalOutbox.WriteInv(s.db) && IndexFromOutbox(s) && TransactionalOutbox.Enabled(s.db, step)
    ensures IndexFromOutbox(s.(db := TransactionalOutbox.Apply(s.db, step)))
  {
    EntriesStay(s.db, step);
  }

  lemma StatementKeepsIndex(s: State, step: TransactionalOutbox.Step<Product, NoStatus, Doc>, after: State)
    requires TransactionalOutbox.Inv(s.db) && IndexFromOutbox(s) && AcceptedIsIndexed(s)
    requires TransactionalOutbox.Enabled(s.db, step)
    requires after.db == TransactionalOutbox.Apply(s.db, step)
    requires after.index ==
      if step.Publish? && step.accepted then Indexed(s.index, s.db, s.db.attempts[step.rel].id) else s.index
    ensures IndexFromOutbox(after) && AcceptedIsIndexed(after)
  {
    TablesKeepIndex(s, step);
    if step.Publish? && step.accepted {
      assert AttemptAgrees(s.db, s.db.attempts[step.rel]);
      IndexingKeepsIndex(s, s.db.attempts[step.rel].id);
    }
    assert s.index.Keys <= after.index.Keys;
    AcceptedGrows(s.db, step);
  }

  /** Only an accepted publish adds an accepted attempt. */
  lemma AcceptedGrows(db: ProductDb, step: TransactionalOutbox.Step<Product, NoStatus, Doc>)
    requires TransactionalOutbox.Enabled(db, step)
    ensures var after := TransactionalOutbox.Apply(db, step);
      forall r :: r in after.attempts && after.attempts[r].accepted ==>
        && r in db.attempts && after.attempts[r].id == db.attempts[r].id
        && (db.attempts[r].accepted || (step.Publish? && step.accepted && step.rel == r))
  {
  }

  lemma StatementKeepsPayloads(db: ProductDb, step: TransactionalOutbox.Step<Product, NoStatus, Doc>)
    requires PayloadsMatch(db) && TransactionalOutbox.Enabled(db, step)
    requires step.Begin? ==> Shows(step.payload, step.id, step.row.body)
    ensures PayloadsMatch(TransactionalOutbox.Apply(db, step))
  {
  }

  lemma MoveKeepsInv(s: State, m: Move)
    requires Inv(s) && Enabled(s, m)
    ensures Inv(Apply(s, m))
  {
    if m.Late? {
      assert AttemptAgrees(s.db, s.db.attempts[m.rel]);
    } else {
      var step := if m.Create? then CreateStep(m) else m.step;
      StepKeepsWriteInv(s.db, step);
      StepKeepsRelayInv(s.db, step);
      StatementKeepsPayloads(s.db, step);
      StatementKeepsIndex(s, step, Apply(s, m));
    }
  }

  lemma {:induction false} CatalogInvHolds(s: State, moves: seq<Move>)
    requires Inv(s) && IsRun(s, moves)
    ensures Inv(After(s, moves))
    decreases |moves|
  {
    if moves != [] {
      MoveKeepsInv(s, moves[0]);
      CatalogInvHolds(Apply(s, moves[0]), moves[1..]);
    }
  }

  lemma IndexedIsRow(s: State, id: string)
    requires Inv(s) && id in s.index
    ensures RowShown(s, id)
  {
    assert id in s.db.outbox && id in s.db.rows.Keys;
    assert OneOrigin(s.db, id);
  }

  /** What a search returns of a product is what its row has. */
  ghost predicate RowShown(s: State, id: string) {
    && id in s.index && id in s.db.rows
    && s.index[id].id == id
    && s.index[id].name == s.db.rows[id].body.name
    && s.index[id].description == s.db.rows[id].body.description
    && s.index[id].priceCents == s.db.rows[id].body.priceCents
  }

  lemma PublishedIsIndexed(s: State, id: string)
    requires Inv(s) && id in s.db.outbox && s.db.outbox[id].published
    ensures id in s.index
  {
    assert HasMarker(s.db.attempts, id);
    var r :| r in s.db.attempts && Marker(s.db.attempts[r], id);
    assert AttemptAgrees(s.db, s.db.attempts[r]);
  }

  ghost predicate AllPublished(db: ProductDb) {
    forall id :: id in db.outbox ==> db.outbox[id].published
  }

  lemma AllIndexed(s: State)
    requires Inv(s) && AllPublished(s.db)
    ensures s.index.Keys == s.db.rows.Keys
  {
    forall id ensures id in s.index.Keys <==> id in s.db.rows.Keys {
      if id in s.db.rows.Keys {
        assert id in s.db.outbox.Keys;
        PublishedIsIndexed(s, id);
      } else if id in s.index.Keys {
        IndexedIsRow(s, id);
      }
    }
  }

  /** In every reachable state each indexed document is its product's row, however
      often it was re-indexed and whatever bodies replayed creates carried; and
      once no outbox row is unpublished, the index is the whole table. */
  lemma IndexAgreesWithTable(moves: seq<Move>)
    requires IsRun(EMPTY, moves)
    ensures var s := After(EMPTY, moves);
      && (forall id :: id in s.index ==> RowShown(s, id))
      && (AllPublished(s.db) ==> s.index.Keys == s.db.rows.Keys)
  {
    CatalogInvHolds(EMPTY, moves);
    var s := After(EMPTY, moves);
    forall id | id in s.index ensures RowShown(s, id) {
      IndexedIsRow(s, id);
    }
    if AllPublished(s.db) {
      AllIndexed(s);
    }
  }
}
