/** A table and its outbox in Postgres, as the order service and the catalog
    service both use them.

    Any number of writers (one transaction a request) and relays (one
    transaction an outbox row) interleave statement by statement, at READ
    COMMITTED with row locks; any of them may abort or crash between statements.

    B are the columns a row never changes, S its status, P the event payload. */
module TransactionalOutbox {

  datatype Row<B, S> = Row(body: B, status: S)

  datatype Entry<P> = Entry(payload: P, published: bool, createdAt: nat)

  datatype Phase = Open | RowDone | EntryDone | Committed | Aborted

  /** A writer's transaction, with what it would insert.  `newRow` and
      `newEntry` say which inserts took effect rather than met a conflict. */
  datatype Writer<B, S, P> =
    Writer(id: string, row: Row<B, S>, payload: P, began: nat, phase: Phase, newRow: bool, newEntry: bool)

  datatype RelayPhase = Holding | Acked | Refused | Marked | Done | Undone

  /** One attempt of a relay at one outbox row; `accepted` says whether the
      outside system took the event, whatever the relay was told. */
  datatype Attempt = Attempt(id: string, phase: RelayPhase, accepted: bool)

  /** Committed tables, transactions by number (finished ones included), and
      for each id the writer that inserted it. */
  datatype Db<B, S, P> =
    Db(rows: map<string, Row<B, S>>,
       outbox: map<string, Entry<P>>,
       origin: map<string, nat>,
       writers: map<nat, Writer<B, S, P>>,
       attempts: map<nat, Attempt>)

  datatype Step<B, S, P> =
    | Begin(tx: nat, id: string, row: Row<B, S>, payload: P, now: nat)
    | WriteRow(tx: nat)
    | WriteEntry(tx: nat)
    | Commit(tx: nat)
    | Abort(tx: nat)
    | SetStatus(id: string, status: S)
    | Select(rel: nat, id: string)
    | Publish(rel: nat, accepted: bool, reported: bool)
    | Mark(rel: nat)
    | RelayCommit(rel: nat)
    | RelayAbort(rel: nat)

  // ----- locks -----

  /** The writer keeps the row of `id` locked: it inserted or updated it. */
  predicate LocksRow<B, S, P>(w: Writer<B, S, P>, id: string) {
    w.id == id && (w.phase == RowDone || w.phase == EntryDone)
  }

  /** The writer has an uncommitted outbox row for `id`; others must wait for it. */
  predicate LocksNewEntry<B, S, P>(w: Writer<B, S, P>, id: string) {
    w.id == id && w.phase == EntryDone && w.newEntry
  }

  predicate RelayHolds(a: Attempt, id: string) {
    a.id == id && (a.phase == Holding || a.phase == Acked || a.phase == Refused || a.phase == Marked)
  }

  predicate EntryLocked<B, S, P>(db: Db<B, S, P>, id: string) {
    exists rel :: rel in db.attempts && RelayHolds(db.attempts[rel], id)
  }

  /** Rows the relay's SELECT can return: unpublished, and not locked by another. */
  predicate Available<B, S, P>(db: Db<B, S, P>, id: string) {
    id in db.outbox && !db.outbox[id].published && !EntryLocked(db, id)
  }

  // ----- steps -----

  predicate Enabled<B(!new), S(!new), P(!new)>(db: Db<B, S, P>, step: Step<B, S, P>) {
    match step
    case Begin(tx, _, _, _, _) => tx !in db.writers
    case WriteRow(tx) =>
      && tx in db.writers && db.writers[tx].phase == Open
      && (forall t :: t in db.writers ==> !LocksRow(db.writers[t], db.writers[tx].id))
    case WriteEntry(tx) =>
      && tx in db.writers && db.writers[tx].phase == RowDone
      && (forall t :: t in db.writers ==> !LocksNewEntry(db.writers[t], db.writers[tx].id))
    case Commit(tx) => tx in db.writers && db.writers[tx].phase == EntryDone
    case Abort(tx) =>
      tx in db.writers && db.writers[tx].phase != Committed && db.writers[tx].phase != Aborted
    case SetStatus(id, _) =>
      id in db.rows ==> forall t :: t in db.writers ==> !LocksRow(db.writers[t], id)
    case Select(rel, id) =>
      && rel !in db.attempts && Available(db, id)
      && (forall other :: other in db.outbox && Available(db, other) ==>
            db.outbox[id].createdAt <= db.outbox[other].createdAt)
    case Publish(rel, accepted, reported) =>
      rel in db.attempts && db.attempts[rel].phase == Holding && (reported ==> accepted)
    case Mark(rel) => rel in db.attempts && db.attempts[rel].phase == Acked
    case RelayCommit(rel) => rel in db.attempts && db.attempts[rel].phase == Marked
    case RelayAbort(rel) => rel in db.attempts && RelayHolds(db.attempts[rel], db.attempts[rel].id)
  }

  /** INSERT ... ON CONFLICT (id) DO UPDATE SET id = EXCLUDED.id: a new row, or
      only a lock on the row there is. */
  function RowWritten<B, S, P>(db: Db<B, S, P>, w: Writer<B, S, P>): Writer<B, S, P> {
    w.(phase := RowDone, newRow := w.id !in db.rows)
  }

  /** INSERT ... ON CONFLICT (id) DO NOTHING. */
  function EntryWritten<B, S, P>(db: Db<B, S, P>, w: Writer<B, S, P>): Writer<B, S, P> {
    w.(phase := EntryDone, newEntry := w.id !in db.outbox)
  }

  function Commits<B, S, P>(db: Db<B, S, P>, tx: nat): Db<B, S, P>
    requires tx in db.writers
  {
    var w := db.writers[tx];
    db.(rows := if w.newRow then db.rows[w.id := w.row] else db.rows,
        outbox := if w.newEntry then db.outbox[w.id := Entry(w.payload, false, w.began)] else db.outbox,
        origin := if w.newRow then db.origin[w.id := tx] else db.origin,
        writers := db.writers[tx := w.(phase := Committed)])
  }

  function RelayCommits<B, S, P>(db: Db<B, S, P>, rel: nat): Db<B, S, P>
    requires rel in db.attempts
  {
    var a := db.attempts[rel];
    db.(outbox := if a.id in db.outbox then db.outbox[a.id := db.outbox[a.id].(published := true)] else db.outbox,
        attempts := db.attempts[rel := a.(phase := Done)])
  }

  function Apply<B(!new), S(!new), P(!new)>(db: Db<B, S, P>, step: Step<B, S, P>): Db<B, S, P>
    requires Enabled(db, step)
  {
    match step
    case Begin(tx, id, row, payload, now) =>
      db.(writers := db.writers[tx := Writer(id, row, payload, now, Open, false, false)])
    case WriteRow(tx) => db.(writers := db.writers[tx := RowWritten(db, db.writers[tx])])
    case WriteEntry(tx) => db.(writers := db.writers[tx := EntryWritten(db, db.writers[tx])])
    case Commit(tx) => Commits(db, tx)
    case Abort(tx) => db.(writers := db.writers[tx := db.writers[tx].(phase := Aborted)])
    case SetStatus(id, status) =>
      if id in db.rows then db.(rows := db.rows[id := db.rows[id].(status := status)]) else db
    case Select(rel, id) => db.(attempts := db.attempts[rel := Attempt(id, Holding, false)])
    case Publish(rel, accepted, reported) =>
      db.(attempts := db.attempts[rel :=
            db.attempts[rel].(phase := if reported then Acked else Refused, accepted := accepted)])
    case Mark(rel) => db.(attempts := db.attempts[rel := db.attempts[rel].(phase := Marked)])
    case RelayCommit(rel) => RelayCommits(db, rel)
    case RelayAbort(rel) => db.(attempts := db.attempts[rel := db.attempts[rel].(phase := Undone)])
  }

  /** SELECT ... WHERE published = false ORDER BY created_at LIMIT 1 FOR UPDATE
      SKIP LOCKED: the oldest row that is available, if any is. */
  method SelectOldest<B(!new), S(!new), P(!new)>(db: Db<B, S, P>) returns (found: bool, id: string)
    ensures found <==> exists other :: Available(db, other)
    ensures found ==> Available(db, id)
    ensures found ==> forall other :: other in db.outbox && Available(db, other) ==>
      db.outbox[id].createdAt <= db.outbox[other].createdAt
  {
    var todo := db.outbox.Keys;
    found, id := false, "";
    while todo != {}
      invariant todo <= db.outbox.Keys
      invariant !found ==> forall other :: other in db.outbox.Keys - todo ==> !Available(db, other)
      invariant found ==> Available(db, id)
      invariant found ==> forall other :: other in db.outbox.Keys - todo && Available(db, other) ==>
        db.outbox[id].createdAt <= db.outbox[other].createdAt
      decreases todo
    {
      var next :| next in todo;
      if Available(db, next) && (!found || db.outbox[next].createdAt < db.outbox[id].createdAt) {
        found, id := true, next;
      }
      todo := todo - {next};
    }
  }

  ghost predicate IsRun<B(!new), S(!new), P(!new)>(db: Db<B, S, P>, steps: seq<Step<B, S, P>>)
    decreases |steps|
  {
    steps == [] || (Enabled(db, steps[0]) && IsRun(Apply(db, steps[0]), steps[1..]))
  }

  ghost function After<B(!new), S(!new), P(!new)>(db: Db<B, S, P>, steps: seq<Step<B, S, P>>): Db<B, S, P>
    requires IsRun(db, steps)
    decreases |steps|
  {
    if steps == [] then db else After(Apply(db, steps[0]), steps[1..])
  }

  function Fresh<B, S, P>(): Db<B, S, P> {
    Db(map[], map[], map[], map[], map[])
  }

  // ----- atomicity of the two tables -----

  /** What a writer knows about the tables while it holds the row lock. */
  ghost predicate WriterAgrees<B, S, P>(db: Db<B, S, P>, w: Writer<B, S, P>) {
    && (w.phase == RowDone ==> (w.newRow <==> w.id !in db.rows))
    && (w.phase == EntryDone ==> (w.newRow <==> w.id !in db.rows) && (w.newEntry <==> w.id !in db.outbox))
    && (w.phase == Committed ==> w.id in db.rows)
  }

  /** Row and outbox row of `id` were inserted by one and the same writer. */
  ghost predicate OneOrigin<B, S, P>(db: Db<B, S, P>, id: string) {
    && id in db.rows && id in db.outbox && id in db.origin && db.origin[id] in db.writers
    && var w := db.writers[db.origin[id]];
    && w.id == id && w.phase == Committed
    && db.rows[id].body == w.row.body
    && db.outbox[id].payload == w.payload && db.outbox[id].createdAt == w.began
  }

  ghost predicate SameKeys<B, S, P>(db: Db<B, S, P>) {
    db.rows.Keys == db.outbox.Keys && db.rows.Keys == db.origin.Keys
  }

  ghost predicate RowLocksExclusive<B, S, P>(db: Db<B, S, P>) {
    forall t, u :: t in db.writers && u in db.writers && t != u && LocksRow(db.writers[t], db.writers[t].id) ==>
      !LocksRow(db.writers[u], db.writers[t].id)
  }

  ghost predicate WriteInv<B, S, P>(db: Db<B, S, P>) {
    && SameKeys(db)
    && RowLocksExclusive(db)
    && (forall t :: t in db.writers ==> WriterAgrees(db, db.writers[t]))
    && (forall id :: id in db.rows ==> OneOrigin(db, id))
  }

  // ----- the relays -----

  ghost predicate AttemptAgrees<B, S, P>(db: Db<B, S, P>, a: Attempt) {
    && a.id in db.outbox
    && (RelayHolds(a, a.id) ==> !db.outbox[a.id].published)
    && (a.phase == Holding ==> !a.accepted)
    && (a.phase == Acked || a.phase == Marked || a.phase == Done ==> a.accepted)
    && (a.phase == Done ==> db.outbox[a.id].published)
  }

  /** The two attempts do not both hold the row, and did not both mark it. */
  predicate Compatible(a: Attempt, b: Attempt) {
    a.id == b.id ==> !(RelayHolds(a, a.id) && RelayHolds(b, b.id)) && !(a.phase == Done && b.phase == Done)
  }

  /** No two relays hold one row, and no row is marked by two of them. */
  ghost predicate RelaysExclusive(attempts: map<nat, Attempt>) {
    forall r, q :: r in attempts && q in attempts && r != q ==> Compatible(attempts[r], attempts[q])
  }

  predicate Marker(a: Attempt, id: string) {
    a.id == id && a.phase == Done
  }

  ghost predicate HasMarker(attempts: map<nat, Attempt>, id: string) {
    exists r :: r in attempts && Marker(attempts[r], id)
  }

  ghost predicate RelayInv<B, S, P>(db: Db<B, S, P>) {
    && RelaysExclusive(db.attempts)
    && (forall r :: r in db.attempts ==> AttemptAgrees(db, db.attempts[r]))
    && (forall id :: id in db.outbox && db.outbox[id].published ==> HasMarker(db.attempts, id))
  }

  ghost predicate Inv<B, S, P>(db: Db<B, S, P>) {
    WriteInv(db) && RelayInv(db)
  }

  // ----- every step keeps the invariant -----

  predicate IsWriterStep<B, S, P>(step: Step<B, S, P>) {
    step.Begin? || step.WriteRow? || step.WriteEntry? || step.Commit? || step.Abort? || step.SetStatus?
  }

  /** Under the row lock both inserts take effect, or neither does. */
  lemma BothOrNeither<B(!new), S(!new), P(!new)>(db: Db<B, S, P>, tx: nat)
    requires WriteInv(db) && Enabled(db, Commit(tx))
    ensures db.writers[tx].newRow <==> db.writers[tx].newEntry
    ensures db.writers[tx].newRow <==> db.writers[tx].id !in db.rows
  {
    assert WriterAgrees(db, db.writers[tx]);
  }

  lemma CommitKeepsOrigins<B(!new), S(!new), P(!new)>(db: Db<B, S, P>, tx: nat)
    requires WriteInv(db) && Enabled(db, Commit(tx))
    ensures SameKeys(Commits(db, tx))
    ensures forall id :: id in Commits(db, tx).rows ==> OneOrigin(Commits(db, tx), id)
  {
    BothOrNeither(db, tx);
    var w := db.writers[tx];
    var after := Commits(db, tx);
    assert if w.newRow then after.rows.Keys == db.rows.Keys + {w.id} && after.outbox.Keys == db.outbox.Keys + {w.id} &&
                            after.origin.Keys == db.origin.Keys + {w.id}
           else after.rows == db.rows && after.outbox == db.outbox && after.origin == db.origin;
    forall id | id in after.rows ensures OneOrigin(after, id) {
      assert id in db.rows ==> OneOrigin(db, id);
    }
  }

  /** The other writers' knowledge: they do not hold the lock of this row. */
  lemma CommitKeepsWriters<B(!new), S(!new), P(!new)>(db: Db<B, S, P>, tx: nat)
    requires WriteInv(db) && Enabled(db, Commit(tx))
    ensures forall t :: t in Commits(db, tx).writers ==> WriterAgrees(Commits(db, tx), Commits(db, tx).writers[t])
  {
    var w := db.writers[tx];
    var after := Commits(db, tx);
    BothOrNeither(db, tx);
    assert LocksRow(w, w.id);
    forall t | t in after.writers ensures WriterAgrees(after, after.writers[t]) {
      assert WriterAgrees(db, db.writers[t]);
      assert t != tx ==> !LocksRow(db.writers[t], w.id);
    }
  }

  lemma CommitKeepsWriteInv<B(!new), S(!new), P(!new)>(db: Db<B, S, P>, tx: nat)
    requires WriteInv(db) && Enabled(db, Commit(tx))
    ensures WriteInv(Commits(db, tx))
  {
    var after := Commits(db, tx);
    CommitKeepsOrigins(db, tx);
    CommitKeepsWriters(db, tx);
    CommitKeepsLocks(db, tx);
  }

  lemma CommitKeepsLocks<B(!new), S(!new), P(!new)>(db: Db<B, S, P>, tx: nat)
    requires RowLocksExclusive(db) && Enabled(db, Commit(tx))
    ensures RowLocksExclusive(Commits(db, tx))
  {
    var after := Commits(db, tx);
    forall t, u | t in after.writers && u in after.writers && t != u && LocksRow(after.writers[t], after.writers[t].id)
      ensures !LocksRow(after.writers[u], after.writers[t].id)
    {
      assert LocksRow(db.writers[t], db.writers[t].id);
    }
  }

  lemma WriteRowKeepsWriteInv<B(!new), S(!new), P(!new)>(db: Db<B, S, P>, tx: nat)
    requires WriteInv(db) && Enabled(db, WriteRow(tx))
    ensures WriteInv(Apply(db, WriteRow(tx)))
  {
    var after := Apply(db, WriteRow(tx));
    forall id | id in after.rows ensures OneOrigin(after, id) {
      assert OneOrigin(db, id);
    }
    forall t | t in after.writers ensures WriterAgrees(after, after.writers[t]) {
      assert WriterAgrees(db, db.writers[t]);
    }
    forall t, u | t in after.writers && u in after.writers && t != u && LocksRow(after.writers[t], after.writers[t].id)
      ensures !LocksRow(after.writers[u], after.writers[t].id)
    {
      if u != tx && t != tx {
        assert LocksRow(db.writers[t], db.writers[t].id);
      } else if t == tx {
        assert !LocksRow(db.writers[u], db.writers[tx].id);
      } else {
        assert !LocksRow(db.writers[t], db.writers[tx].id);
      }
    }
  }

  /** The steps that only move one writer on, without taking the row lock. */
  lemma WriterMoveKeepsWriteInv<B(!new), S(!new), P(!new)>(db: Db<B, S, P>, step: Step<B, S, P>)
    requires WriteInv(db) && Enabled(db, step)
    requires step.Begin? || step.WriteEntry? || step.Abort?
    ensures WriteInv(Apply(db, step))
  {
    var after := Apply(db, step);
    forall id | id in after.rows ensures OneOrigin(after, id) {
      assert OneOrigin(db, id);
    }
    forall t | t in after.writers ensures WriterAgrees(after, after.writers[t]) {
      assert t in db.writers ==> WriterAgrees(db, db.writers[t]);
    }
    forall t, u | t in after.writers && u in after.writers && t != u && LocksRow(after.writers[t], after.writers[t].id)
      ensures !LocksRow(after.writers[u], after.writers[t].id)
    {
      assert t in db.writers && LocksRow(db.writers[t], db.writers[t].id);
    }
  }

  /** The steps that change no writer and no key: a status, or a relay's move. */
  lemma OtherStepKeepsWriteInv<B(!new), S(!new), P(!new)>(db: Db<B, S, P>, step: Step<B, S, P>)
    requires WriteInv(db) && Enabled(db, step)
    requires step.SetStatus? || !IsWriterStep(step)
    ensures WriteInv(Apply(db, step))
  {
    OtherStepKeepsOrigins(db, step);
    var after := Apply(db, step);
    forall t | t in after.writers ensures WriterAgrees(after, after.writers[t]) {
      assert WriterAgrees(db, db.writers[t]);
    }
  }

  lemma OtherStepKeepsOrigins<B(!new), S(!new), P(!new)>(db: Db<B, S, P>, step: Step<B, S, P>)
    requires WriteInv(db) && Enabled(db, step)
    requires step.SetStatus? || !IsWriterStep(step)
    ensures Apply(db, step).rows.Keys == db.rows.Keys && Apply(db, step).outbox.Keys == db.outbox.Keys
    ensures forall id :: id in Apply(db, step).rows ==> OneOrigin(Apply(db, step), id)
  {
    var after := Apply(db, step);
    forall id | id in after.rows ensures OneOrigin(after, id) {
      assert OneOrigin(db, id);
    }
  }

  lemma StepKeepsWriteInv<B(!new), S(!new), P(!new)>(db: Db<B, S, P>, step: Step<B, S, P>)
    requires WriteInv(db) && Enabled(db, step)
    ensures WriteInv(Apply(db, step))
  {
    if step.Commit? {
      CommitKeepsWriteInv(db, step.tx);
    } else if step.WriteRow? {
      WriteRowKeepsWriteInv(db, step.tx);
    } else if step.Begin? || step.WriteEntry? || step.Abort? {
      WriterMoveKeepsWriteInv(db, step);
    } else {
      OtherStepKeepsWriteInv(db, step);
    }
  }

  /** The outbox rows before a step are still there after it, at most marked. */
  lemma EntriesStay<B(!new), S(!new), P(!new)>(db: Db<B, S, P>, step: Step<B, S, P>)
    requires WriteInv(db) && Enabled(db, step)
    ensures forall id :: id in db.outbox ==>
      && id in Apply(db, step).outbox
      && (Apply(db, step).outbox[id] == db.outbox[id]
          || (Apply(db, step).outbox[id] == db.outbox[id].(published := true)
              && step.RelayCommit? && db.attempts[step.rel].id == id))
    ensures forall id :: id in Apply(db, step).outbox && id !in db.outbox ==> !Apply(db, step).outbox[id].published
  {
    if step.Commit? {
      BothOrNeither(db, step.tx);
    }
  }

  lemma ExclusiveOfUpdate(attempts: map<nat, Attempt>, rel: nat, a: Attempt)
    requires RelaysExclusive(attempts)
    requires forall r :: r in attempts && r != rel ==> Compatible(attempts[r], a)
    ensures RelaysExclusive(attempts[rel := a])
  {
    var after := attempts[rel := a];
    forall r, q | r in after && q in after && r != q ensures Compatible(after[r], after[q]) {
      assert r in attempts && q in attempts ==> Compatible(attempts[r], attempts[q]);
      assert r != rel ==> Compatible(attempts[r], a);
      assert q != rel ==> Compatible(attempts[q], a);
    }
  }

  /** A relay's move from one phase to the next that keeps or gives up its lock. */
  lemma MoveKeepsExclusive(attempts: map<nat, Attempt>, rel: nat, a: Attempt)
    requires RelaysExclusive(attempts) && rel in attempts && a.id == attempts[rel].id
    requires RelayHolds(a, a.id) ==> RelayHolds(attempts[rel], a.id)
    requires a.phase != Done
    ensures RelaysExclusive(attempts[rel := a])
  {
    forall r | r in attempts && r != rel ensures Compatible(attempts[r], a) {
      assert Compatible(attempts[r], attempts[rel]);
    }
    ExclusiveOfUpdate(attempts, rel, a);
  }

  lemma RelayMoveKeepsExclusive<B(!new), S(!new), P(!new)>(db: Db<B, S, P>, step: Step<B, S, P>)
    requires RelayInv(db) && Enabled(db, step) && !IsWriterStep(step)
    ensures RelaysExclusive(Apply(db, step).attempts)
  {
    var a := Apply(db, step).attempts[step.rel];
    if step.Select? {
      forall r | r in db.attempts && r != step.rel ensures Compatible(db.attempts[r], a) {
        assert RelayHolds(db.attempts[r], a.id) ==> EntryLocked(db, a.id);
      }
      ExclusiveOfUpdate(db.attempts, step.rel, a);
    } else if step.RelayCommit? {
      assert AttemptAgrees(db, db.attempts[step.rel]);
      forall r | r in db.attempts && r != step.rel ensures Compatible(db.attempts[r], a) {
        assert AttemptAgrees(db, db.attempts[r]);
      }
      ExclusiveOfUpdate(db.attempts, step.rel, a);
    } else {
      MoveKeepsExclusive(db.attempts, step.rel, a);
    }
  }

  lemma RelayMoveKeepsAgreement<B(!new), S(!new), P(!new)>(db: Db<B, S, P>, step: Step<B, S, P>)
    requires RelayInv(db) && Enabled(db, step) && !IsWriterStep(step)
    ensures forall r :: r in Apply(db, step).attempts ==> AttemptAgrees(Apply(db, step), Apply(db, step).attempts[r])
  {
    var after := Apply(db, step);
    assert step.rel in db.attempts ==> AttemptAgrees(db, db.attempts[step.rel]);
    forall r | r in after.attempts ensures AttemptAgrees(after, after.attempts[r]) {
      if r != step.rel {
        assert AttemptAgrees(db, db.attempts[r]);
        if step.RelayCommit? {
          assert Compatible(db.attempts[r], db.attempts[step.rel]);
        }
      }
    }
  }

  lemma WriterMoveKeepsAgreement<B(!new), S(!new), P(!new)>(db: Db<B, S, P>, step: Step<B, S, P>)
    requires Inv(db) && Enabled(db, step) && IsWriterStep(step)
    ensures Apply(db, step).attempts == db.attempts
    ensures forall r :: r in Apply(db, step).attempts ==> AttemptAgrees(Apply(db, step), Apply(db, step).attempts[r])
  {
    EntriesStay(db, step);
    forall r | r in db.attempts ensures AttemptAgrees(Apply(db, step), db.attempts[r]) {
      assert AttemptAgrees(db, db.attempts[r]);
    }
  }

  lemma KeepsMarker<B(!new), S(!new), P(!new)>(db: Db<B, S, P>, step: Step<B, S, P>, id: string)
    requires Enabled(db, step)
    requires HasMarker(db.attempts, id) || (step.RelayCommit? && db.attempts[step.rel].id == id)
    ensures HasMarker(Apply(db, step).attempts, id)
  {
    if HasMarker(db.attempts, id) {
      var r :| r in db.attempts && Marker(db.attempts[r], id);
      assert Marker(Apply(db, step).attempts[r], id);
    } else {
      assert Marker(Apply(db, step).attempts[step.rel], id);
    }
  }

  lemma StepKeepsRelayInv<B(!new), S(!new), P(!new)>(db: Db<B, S, P>, step: Step<B, S, P>)
    requires Inv(db) && Enabled(db, step)
    ensures RelayInv(Apply(db, step))
  {
    if IsWriterStep(step) {
      WriterMoveKeepsAgreement(db, step);
    } else {
      RelayMoveKeepsExclusive(db, step);
      RelayMoveKeepsAgreement(db, step);
    }
    EntriesStay(db, step);
    forall id | id in Apply(db, step).outbox && Apply(db, step).outbox[id].published
      ensures HasMarker(Apply(db, step).attempts, id)
    {
      KeepsMarker(db, step, id);
    }
  }

  lemma {:induction false} InvHolds<B(!new), S(!new), P(!new)>(db: Db<B, S, P>, steps: seq<Step<B, S, P>>)
    requires Inv(db) && IsRun(db, steps)
    ensures Inv(After(db, steps))
    decreases |steps|
  {
    if steps != [] {
      StepKeepsWriteInv(db, steps[0]);
      StepKeepsRelayInv(db, steps[0]);
      InvHolds(Apply(db, steps[0]), steps[1..]);
    }
  }

  // ----- what the outbox is for -----

  /** However transactions interleave, abort and crash: the row exists exactly
      when its outbox row does, and one request wrote both.  A writer that
      committed (the 201 reply) has both in place. */
  lemma RowAndEventTogether<B(!new), S(!new), P(!new)>(steps: seq<Step<B, S, P>>)
    requires IsRun(Fresh<B, S, P>(), steps)
    ensures var db := After(Fresh<B, S, P>(), steps);
      && (forall id :: id in db.rows <==> id in db.outbox)
      && (forall id :: id in db.rows ==> OneOrigin(db, id))
      && (forall t :: t in db.writers && db.writers[t].phase == Committed ==>
            db.writers[t].id in db.rows && db.writers[t].id in db.outbox)
  {
    InvHolds(Fresh<B, S, P>(), steps);
    var db := After(Fresh<B, S, P>(), steps);
    forall t | t in db.writers && db.writers[t].phase == Committed
      ensures db.writers[t].id in db.rows && db.writers[t].id in db.outbox
    {
      assert WriterAgrees(db, db.writers[t]);
    }
  }

  /** What later steps leave alone: a committed row keeps its body, its outbox
      row keeps its payload, and `published` never goes back to false. */
  ghost predicate Preserves<B, S, P>(earlier: Db<B, S, P>, later: Db<B, S, P>) {
    && (forall id :: id in earlier.rows ==> id in later.rows && later.rows[id].body == earlier.rows[id].body)
    && (forall id :: id in earlier.outbox ==>
          && id in later.outbox
          && later.outbox[id].payload == earlier.outbox[id].payload
          && later.outbox[id].createdAt == earlier.outbox[id].createdAt
          && (earlier.outbox[id].published ==> later.outbox[id].published))
  }

  lemma StepPreserves<B(!new), S(!new), P(!new)>(db: Db<B, S, P>, step: Step<B, S, P>)
    requires WriteInv(db) && Enabled(db, step)
    ensures Preserves(db, Apply(db, step))
  {
    EntriesStay(db, step);
    if step.Commit? {
      BothOrNeither(db, step.tx);
    }
  }

  /** Replayed creates, status updates and relays never rewrite what is stored. */
  lemma {:induction false} RunPreserves<B(!new), S(!new), P(!new)>(db: Db<B, S, P>, steps: seq<Step<B, S, P>>)
    requires WriteInv(db) && IsRun(db, steps)
    ensures Preserves(db, After(db, steps))
    decreases |steps|
  {
    if steps != [] {
      var next := Apply(db, steps[0]);
      StepKeepsWriteInv(db, steps[0]);
      StepPreserves(db, steps[0]);
      RunPreserves(next, steps[1..]);
      PreservesTransitive(db, next, After(db, steps));
    }
  }

  lemma PreservesTransitive<B(!new), S(!new), P(!new)>(a: Db<B, S, P>, b: Db<B, S, P>, c: Db<B, S, P>)
    requires Preserves(a, b) && Preserves(b, c)
    ensures Preserves(a, c)
  {
  }

  lemma StatusStep<B(!new), S(!new), P(!new)>(db: Db<B, S, P>, step: Step<B, S, P>, id: string, gone: S)
    requires WriteInv(db) && Enabled(db, step)
    requires id in db.rows && db.rows[id].status != gone
    requires step.SetStatus? ==> step.status != gone
    ensures id in Apply(db, step).rows && Apply(db, step).rows[id].status != gone
  {
    if step.Commit? {
      BothOrNeither(db, step.tx);
    }
  }

  // ----- who touches what -----

  predicate MovesWriter<B, S, P>(step: Step<B, S, P>, tx: nat) {
    (step.Begin? || step.WriteRow? || step.WriteEntry? || step.Commit? || step.Abort?) && step.tx == tx
  }

  predicate MovesRelay<B, S, P>(step: Step<B, S, P>, rel: nat) {
    (step.Select? || step.Publish? || step.Mark? || step.RelayCommit? || step.RelayAbort?) && step.rel == rel
  }

  lemma OthersKeepWriter<B(!new), S(!new), P(!new)>(db: Db<B, S, P>, step: Step<B, S, P>, tx: nat)
    requires Enabled(db, step) && !MovesWriter(step, tx)
    ensures tx in db.writers <==> tx in Apply(db, step).writers
    ensures tx in db.writers ==> Apply(db, step).writers[tx] == db.writers[tx]
  {
  }

  lemma OthersKeepAttempt<B(!new), S(!new), P(!new)>(db: Db<B, S, P>, step: Step<B, S, P>, rel: nat)
    requires Enabled(db, step) && !MovesRelay(step, rel)
    ensures rel in db.attempts <==> rel in Apply(db, step).attempts
    ensures rel in db.attempts ==> Apply(db, step).attempts[rel] == db.attempts[rel]
  {
  }

  /** No other transaction is under way. */
  ghost predicate Unlocked<B, S, P>(db: Db<B, S, P>, tx: nat) {
    forall t :: t in db.writers && t != tx ==> db.writers[t].phase == Committed || db.writers[t].phase == Aborted
  }

  lemma StaysUnlocked<B(!new), S(!new), P(!new)>(db: Db<B, S, P>, step: Step<B, S, P>, tx: nat)
    requires Enabled(db, step) && (IsWriterStep(step) && !step.SetStatus? ==> step.tx == tx)
    ensures Unlocked(db, tx) ==> Unlocked(Apply(db, step), tx)
  {
    forall t | t in Apply(db, step).writers && t != tx
      ensures t in db.writers && Apply(db, step).writers[t] == db.writers[t]
    {
      OthersKeepWriter(db, step, t);
    }
  }

  /** A writer keeps what it would insert, and once committed stays so. */
  lemma WriterStays<B(!new), S(!new), P(!new)>(db: Db<B, S, P>, step: Step<B, S, P>, tx: nat)
    requires Enabled(db, step) && tx in db.writers
    ensures tx in Apply(db, step).writers
    ensures var w := db.writers[tx]; var v := Apply(db, step).writers[tx];
      && v.id == w.id && v.row == w.row && v.payload == w.payload && v.began == w.began
      && (w.phase == Committed ==> v.phase == Committed)
  {
    if !MovesWriter(step, tx) {
      OthersKeepWriter(db, step, tx);
    }
  }

  /** What the topic has accepted from an attempt it has accepted for good. */
  lemma AcceptedStays<B(!new), S(!new), P(!new)>(db: Db<B, S, P>, step: Step<B, S, P>, rel: nat)
    requires Enabled(db, step) && rel in db.attempts && AttemptAgrees(db, db.attempts[rel])
    requires db.attempts[rel].accepted || (step.Publish? && step.rel == rel && step.accepted)
    ensures rel in Apply(db, step).attempts
    ensures Apply(db, step).attempts[rel].id == db.attempts[rel].id && Apply(db, step).attempts[rel].accepted
  {
    if !MovesRelay(step, rel) {
      OthersKeepAttempt(db, step, rel);
    }
  }

  predicate Finished(a: Attempt) {
    a.phase == Done || a.phase == Undone
  }

  /** An attempt stays, and once it is finished stays as it is. */
  lemma AttemptStays<B(!new), S(!new), P(!new)>(db: Db<B, S, P>, step: Step<B, S, P>, rel: nat)
    requires Enabled(db, step) && rel in db.attempts
    ensures rel in Apply(db, step).attempts
    ensures Finished(db.attempts[rel]) ==> Apply(db, step).attempts[rel] == db.attempts[rel]
  {
    if !MovesRelay(step, rel) {
      OthersKeepAttempt(db, step, rel);
    }
  }

  /** Where the status of a row comes from. */
  lemma StatusSource<B(!new), S(!new), P(!new)>(db: Db<B, S, P>, step: Step<B, S, P>, id: string)
    requires Enabled(db, step) && id in Apply(db, step).rows
    ensures var status := Apply(db, step).rows[id].status;
      || (id in db.rows && status == db.rows[id].status)
      || (step.SetStatus? && step.id == id && status == step.status)
      || (step.Commit? && status == db.writers[step.tx].row.status)
  {
  }

  /** A status nobody sets is never seen again once a row has left it. */
  lemma {:induction false} StatusNeverReturns<B(!new), S(!new), P(!new)>(
      db: Db<B, S, P>, steps: seq<Step<B, S, P>>, id: string, gone: S)
    requires WriteInv(db) && IsRun(db, steps)
    requires id in db.rows && db.rows[id].status != gone
    requires forall k :: 0 <= k < |steps| && steps[k].SetStatus? ==> steps[k].status != gone
    ensures id in After(db, steps).rows && After(db, steps).rows[id].status != gone
    decreases |steps|
  {
    if steps != [] {
      StepKeepsWriteInv(db, steps[0]);
      StatusStep(db, steps[0], id, gone);
      StatusNeverReturns(Apply(db, steps[0]), steps[1..], id, gone);
    }
  }

  // ----- how often a row is published -----

  /** Attempts at a row whose event the outside system took. */
  ghost function AcceptedFor<B, S, P>(db: Db<B, S, P>, id: string): set<nat> {
    set r | r in db.attempts && db.attempts[r].id == id && db.attempts[r].accepted
  }

  ghost function AcceptedThenUndone<B, S, P>(db: Db<B, S, P>, id: string): set<nat> {
    set r | r in AcceptedFor(db, id) && db.attempts[r].phase == Undone
  }

  ghost function AcceptedInFlight<B, S, P>(db: Db<B, S, P>, id: string): set<nat> {
    set r | r in AcceptedFor(db, id) && RelayHolds(db.attempts[r], id)
  }

  lemma AtMostOne(s: set<nat>)
    requires forall x, y :: x in s && y in s ==> x == y
    ensures |s| <= 1
    ensures |s| == 1 <==> exists x :: x in s
  {
    if s != {} {
      var x :| x in s;
      assert s == {x};
    }
  }

  /** Accepted publications of a row = 1 if its mark is committed, plus those
      whose transaction was rolled back, plus the one that may be in flight. */
  lemma PublicationCount<B(!new), S(!new), P(!new)>(steps: seq<Step<B, S, P>>, id: string)
    requires IsRun(Fresh<B, S, P>(), steps)
    requires id in After(Fresh<B, S, P>(), steps).outbox
    ensures var db := After(Fresh<B, S, P>(), steps);
      && |AcceptedFor(db, id)| ==
           (if db.outbox[id].published then 1 else 0) + |AcceptedThenUndone(db, id)| + |AcceptedInFlight(db, id)|
      && |AcceptedInFlight(db, id)| <= (if db.outbox[id].published then 0 else 1)
  {
    InvHolds(Fresh<B, S, P>(), steps);
    CountAttempts(After(Fresh<B, S, P>(), steps), id);
  }

  /** SKIP LOCKED at work: no two relays ever hold one row, a held row is not
      published, and no row is marked twice. */
  lemma RelaysNeverShare<B(!new), S(!new), P(!new)>(steps: seq<Step<B, S, P>>, r: nat, q: nat)
    requires IsRun(Fresh<B, S, P>(), steps)
    requires var attempts := After(Fresh<B, S, P>(), steps).attempts;
      r in attempts && q in attempts && r != q && attempts[r].id == attempts[q].id
    ensures var db := After(Fresh<B, S, P>(), steps);
      var id := db.attempts[r].id;
      && !(RelayHolds(db.attempts[r], id) && RelayHolds(db.attempts[q], id))
      && !(db.attempts[r].phase == Done && db.attempts[q].phase == Done)
      && id in db.outbox && (RelayHolds(db.attempts[r], id) ==> !db.outbox[id].published)
  {
    InvHolds(Fresh<B, S, P>(), steps);
    var db := After(Fresh<B, S, P>(), steps);
    assert AttemptAgrees(db, db.attempts[r]) && Compatible(db.attempts[r], db.attempts[q]);
  }

  lemma OneOfEach(attempts: map<nat, Attempt>, r: nat, q: nat)
    requires RelaysExclusive(attempts) && r in attempts && q in attempts && attempts[r].id == attempts[q].id
    requires
      || (attempts[r].phase == Done && attempts[q].phase == Done)
      || (RelayHolds(attempts[r], attempts[r].id) && RelayHolds(attempts[q], attempts[q].id))
    ensures r == q
  {
  }

  ghost function MarkersOf<B, S, P>(db: Db<B, S, P>, id: string): set<nat> {
    set r | r in db.attempts && Marker(db.attempts[r], id)
  }

  lemma CountMarkers<B(!new), S(!new), P(!new)>(db: Db<B, S, P>, id: string)
    requires RelayInv(db) && id in db.outbox
    ensures |MarkersOf(db, id)| == if db.outbox[id].published then 1 else 0
  {
    var done := MarkersOf(db, id);
    forall r, q | r in done && q in done ensures r == q {
      OneOfEach(db.attempts, r, q);
    }
    AtMostOne(done);
    if db.outbox[id].published {
      assert HasMarker(db.attempts, id);
      var r :| r in db.attempts && Marker(db.attempts[r], id);
      assert r in done;
    }
    forall r | r in done ensures db.outbox[id].published {
      assert AttemptAgrees(db, db.attempts[r]);
    }
  }

  lemma CountInFlight<B(!new), S(!new), P(!new)>(db: Db<B, S, P>, id: string)
    requires RelayInv(db) && id in db.outbox
    ensures |AcceptedInFlight(db, id)| <= if db.outbox[id].published then 0 else 1
  {
    var flying := AcceptedInFlight(db, id);
    forall r, q | r in flying && q in flying ensures r == q {
      OneOfEach(db.attempts, r, q);
    }
    AtMostOne(flying);
    forall r | r in flying ensures !db.outbox[id].published {
      assert AttemptAgrees(db, db.attempts[r]);
    }
  }

  lemma ThreeParts(all: set<nat>, a: set<nat>, b: set<nat>, c: set<nat>)
    requires forall x :: x in all <==> x in a || x in b || x in c
    requires a !! b && a !! c && b !! c
    ensures |all| == |a| + |b| + |c|
  {
    assert all == a + b + c;
  }

  lemma CountAttempts<B(!new), S(!new), P(!new)>(db: Db<B, S, P>, id: string)
    requires RelayInv(db) && id in db.outbox
    ensures |AcceptedFor(db, id)| ==
            (if db.outbox[id].published then 1 else 0) + |AcceptedThenUndone(db, id)| + |AcceptedInFlight(db, id)|
    ensures |AcceptedInFlight(db, id)| <= (if db.outbox[id].published then 0 else 1)
  {
    CountMarkers(db, id);
    CountInFlight(db, id);
    var done, undone, flying := MarkersOf(db, id), AcceptedThenUndone(db, id), AcceptedInFlight(db, id);
    forall r | r in db.attempts ensures r in AcceptedFor(db, id) <==> r in done || r in undone || r in flying {
      assert AttemptAgrees(db, db.attempts[r]);
    }
    ThreeParts(AcceptedFor(db, id), done, undone, flying);
  }
}
