/** One relay's batch: up to twenty attempts, each at the oldest unpublished
    outbox row, and the order in which events therefore reach the topic.

    There is one relay, `created_at` values differ, and no rows are inserted
    meanwhile; the rows are listed by `created_at`. */
module RelayBatch {

  const BATCH: nat := 20

  datatype Row = Row(id: string, published: bool)

  /** How an attempt goes, from its transaction to its commit.  `accepted` says
      whether the topic took an event whose publish call failed, `kept` whether
      the database kept a commit that was reported as failed. */
  datatype Fate =
    | NoTransaction
    | NoList
    | Unreadable
    | PublishFails(accepted: bool)
    | MarkFails
    | CommitFails(kept: bool)
    | Smooth

  /** Ids of the unpublished rows, oldest first. */
  function Pending(rows: seq<Row>): seq<string> {
    if rows == [] then []
    else if rows[0].published then Pending(rows[1..])
    else [rows[0].id] + Pending(rows[1..])
  }

  /** The oldest unpublished row marked as published. */
  function MarkOldest(rows: seq<Row>): seq<Row> {
    if rows == [] then []
    else if rows[0].published then [rows[0]] + MarkOldest(rows[1..])
    else [rows[0].(published := true)] + rows[1..]
  }

  lemma {:induction false} MarkedPending(rows: seq<Row>)
    requires Pending(rows) != []
    ensures Pending(MarkOldest(rows)) == Pending(rows)[1..]
    ensures |MarkOldest(rows)| == |rows|
  {
    var marked := MarkOldest(rows);
    if rows[0].published {
      MarkedPending(rows[1..]);
      assert marked[1..] == MarkOldest(rows[1..]);
    } else {
      assert marked[1..] == rows[1..];
    }
  }

  predicate Accepts(fate: Fate) {
    match fate
    case PublishFails(accepted) => accepted
    case MarkFails => true
    case CommitFails(_) => true
    case Smooth => true
    case _ => false
  }

  predicate Marks(fate: Fate) {
    fate == Smooth || fate == CommitFails(true)
  }

  predicate HasWork(rows: seq<Row>, fate: Fate) {
    Pending(rows) != [] && fate != NoTransaction && fate != NoList
  }

  /** Rows after an attempt, and what the topic accepted in it. */
  function RowsAfter(rows: seq<Row>, fate: Fate): seq<Row> {
    if HasWork(rows, fate) && Marks(fate) then MarkOldest(rows) else rows
  }

  function AcceptedIn(rows: seq<Row>, fate: Fate): seq<string> {
    if HasWork(rows, fate) && Accepts(fate) then [Pending(rows)[0]] else []
  }

  datatype Outcome = Outcome(rows: seq<Row>, accepted: seq<string>, attempts: nat)

  function Batch(rows: seq<Row>, fates: seq<Fate>): Outcome
    decreases |fates|
  {
    if fates == [] then Outcome(rows, [], 0)
    else if !HasWork(rows, fates[0]) then Outcome(rows, [], 1)
    else
      var rest := Batch(RowsAfter(rows, fates[0]), fates[1..]);
      Outcome(rest.rows, AcceptedIn(rows, fates[0]) + rest.accepted, rest.attempts + 1)
  }

  /** A batch from its attempt k on is that attempt and, if it had work, the rest. */
  lemma BatchUnfolds(rows: seq<Row>, topic: seq<string>, fates: seq<Fate>, k: nat)
    requires k < |fates|
    ensures var b := Batch(rows, fates[k..]);
      var next := RowsAfter(rows, fates[k]);
      var now := topic + AcceptedIn(rows, fates[k]);
      if HasWork(rows, fates[k]) then
        && b.rows == Batch(next, fates[k + 1..]).rows
        && topic + b.accepted == now + Batch(next, fates[k + 1..]).accepted
        && b.attempts == 1 + Batch(next, fates[k + 1..]).attempts
      else
        b.rows == next && topic + b.accepted == now && b.attempts == 1
  {
    assert fates[k..][1..] == fates[k + 1..];
    if HasWork(rows, fates[k]) {
      var rest := Batch(RowsAfter(rows, fates[k]), fates[k + 1..]).accepted;
      assert topic + (AcceptedIn(rows, fates[k]) + rest) == topic + AcceptedIn(rows, fates[k]) + rest;
    }
  }

  // ----- the relay, as it runs -----

  class Relay {
    var rows: seq<Row>
    var topic: seq<string>

    constructor (rows: seq<Row>)
      ensures this.rows == rows && topic == []
    {
      this.rows, topic := rows, [];
    }

    /** SELECT ... WHERE published = false ORDER BY created_at LIMIT 1. */
    method SelectOldest() returns (k: nat)
      ensures k <= |rows|
      ensures k == |rows| <==> Pending(rows) == []
      ensures k < |rows| ==>
        !rows[k].published && Pending(rows)[0] == rows[k].id
        && MarkOldest(rows) == rows[k := rows[k].(published := true)]
    {
      k := 0;
      while k < |rows| && rows[k].published
        invariant k <= |rows|
        invariant Pending(rows) == Pending(rows[k..])
        invariant MarkOldest(rows) == rows[..k] + MarkOldest(rows[k..])
      {
        assert rows[k..][1..] == rows[k + 1..];
        assert rows[..k] + [rows[k]] == rows[..k + 1];
        k := k + 1;
      }
      if k < |rows| {
        assert rows[k..][1..] == rows[k + 1..];
      } else {
        assert rows[k..] == [] && rows[..k] == rows;
      }
    }

    method PublishNextOutboxEvent(fate: Fate) returns (hadWork: bool, ok: bool)
      modifies this
      ensures hadWork <==> Pending(old(rows)) != [] && fate != NoTransaction && fate != NoList
      ensures ok <==> (hadWork && fate == Smooth) || (!hadWork && fate != NoTransaction && fate != NoList)
      ensures rows != old(rows) <==> hadWork && (fate == Smooth || fate == CommitFails(true))
      ensures topic != old(topic) <==>
        hadWork && (fate == Smooth || fate == MarkFails || fate.CommitFails? || fate == PublishFails(true))
      ensures rows == RowsAfter(old(rows), fate)
      ensures topic == old(topic) + AcceptedIn(old(rows), fate)
    {
      if fate == NoTransaction || fate == NoList {
        return false, false;
      }
      var k := SelectOldest();
      if k == |rows| {
        return false, true;
      }
      if fate == Unreadable {
        return true, false;
      }
      if Accepts(fate) {
        topic := topic + [rows[k].id];
      }
      if fate.PublishFails? || fate == MarkFails {
        return true, false;
      }
      if fate == Smooth || fate.kept {
        rows := rows[k := rows[k].(published := true)];
      }
      return true, fate == Smooth;
    }

    /** The loop: stops at the first attempt that found no work. */
    method PublishOutboxBatch(fates: seq<Fate>) returns (ghost attempts: nat)
      requires |fates| == 20
      modifies this
      ensures rows == Batch(old(rows), fates).rows
      ensures topic == old(topic) + Batch(old(rows), fates).accepted
      ensures attempts == Batch(old(rows), fates).attempts
    {
      assert fates[0..] == fates;
      attempts := 0;
      for k := 0 to BATCH
        invariant attempts == k && Batch(old(rows), fates).attempts == k + Batch(rows, fates[k..]).attempts
        invariant Batch(old(rows), fates).rows == Batch(rows, fates[k..]).rows
        invariant old(topic) + Batch(old(rows), fates).accepted == topic + Batch(rows, fates[k..]).accepted
      {
        BatchUnfolds(rows, topic, fates, k);
        var hadWork, ok := PublishNextOutboxEvent(fates[k]);
        attempts := attempts + 1;
        if !hadWork {
          return;
        }
      }
    }
  }

  // ----- the order of publications -----

  /** A sequence with adjacent repeats collapsed. */
  function Collapse(s: seq<string>): seq<string> {
    if |s| <= 1 then s
    else if s[0] == s[1] then Collapse(s[1..])
    else [s[0]] + Collapse(s[1..])
  }

  lemma {:induction false} CollapseHead(s: seq<string>)
    requires s != []
    ensures Collapse(s) != [] && Collapse(s)[0] == s[0]
  {
    if |s| > 1 && s[0] == s[1] {
      CollapseHead(s[1..]);
    }
  }

  predicate Distinct(s: seq<string>) {
    forall i, j :: 0 <= i < j < |s| ==> s[i] != s[j]
  }

  /** Prepending a publication of the row that comes next, or again. */
  lemma CollapseCons(id: string, rest: seq<string>)
    ensures Collapse([id] + rest) ==
            if rest != [] && rest[0] == id then Collapse(rest) else [id] + Collapse(rest)
  {
    assert ([id] + rest)[1..] == rest;
  }

  /** The batch got through the first `done` pending rows, and published, after
      collapsing repeats, just these or also the next one. */
  ghost predicate InOrder(pending: seq<string>, b: Outcome, done: nat) {
    && done <= |pending|
    && Pending(b.rows) == pending[done..]
    && (Collapse(b.accepted) == pending[..done]
        || (done < |pending| && Collapse(b.accepted) == pending[..done + 1]))
  }

  /** In every batch, whatever fails: at most as many attempts as fates, and the
      publications are, without repeats, the oldest unpublished rows in order
      with none skipped. */
  lemma {:induction false} BatchInOrder(rows: seq<Row>, fates: seq<Fate>) returns (done: nat)
    requires Distinct(Pending(rows))
    ensures InOrder(Pending(rows), Batch(rows, fates), done)
    ensures Batch(rows, fates).attempts <= |fates|
    decreases |fates|
  {
    if fates == [] || !HasWork(rows, fates[0]) {
      done := 0;
    } else {
      var next := RowsAfter(rows, fates[0]);
      if Marks(fates[0]) {
        MarkedPending(rows);
        var later := BatchInOrder(next, fates[1..]);
        done := later + 1;
        MarkedFirst(Pending(rows), Batch(next, fates[1..]), later, Batch(rows, fates));
      } else {
        done := BatchInOrder(next, fates[1..]);
        if Accepts(fates[0]) {
          RepeatedFirst(Pending(rows), Batch(next, fates[1..]), done, Batch(rows, fates));
        } else {
          assert [] + Batch(next, fates[1..]).accepted == Batch(next, fates[1..]).accepted;
        }
      }
    }
  }

  lemma MarkedFirst(pending: seq<string>, rest: Outcome, later: nat, b: Outcome)
    requires Distinct(pending) && pending != [] && InOrder(pending[1..], rest, later)
    requires b.rows == rest.rows && b.accepted == [pending[0]] + rest.accepted
    ensures InOrder(pending, b, later + 1)
  {
    CollapseCons(pending[0], rest.accepted);
    if rest.accepted != [] {
      CollapseHead(rest.accepted);
    }
    assert pending[1..][later..] == pending[later + 1..];
    assert pending[..later + 1] == [pending[0]] + pending[1..][..later];
    assert later + 1 < |pending| ==> pending[..later + 2] == [pending[0]] + pending[1..][..later + 1];
  }

  lemma RepeatedFirst(pending: seq<string>, rest: Outcome, done: nat, b: Outcome)
    requires Distinct(pending) && pending != [] && InOrder(pending, rest, done)
    requires b.rows == rest.rows && b.accepted == [pending[0]] + rest.accepted
    ensures InOrder(pending, b, done)
  {
    CollapseCons(pending[0], rest.accepted);
    if rest.accepted != [] {
      CollapseHead(rest.accepted);
    } else {
      assert Collapse(rest.accepted) == [];
      assert done == 0;
      assert pending[..1] == [pending[0]] + [];
    }
  }

  /** A batch goes on after every attempt that found a row, published or not: it
      stops early only when no row is left, or a transaction or its query failed. */
  lemma {:induction false} StopsForWantOfWork(rows: seq<Row>, fates: seq<Fate>)
    ensures var b := Batch(rows, fates);
      && b.attempts <= |fates|
      && (forall k :: 0 <= k < b.attempts - 1 ==> fates[k] != NoTransaction && fates[k] != NoList)
      && (b.attempts < |fates| ==>
            b.attempts > 0 &&
            (Pending(b.rows) == [] || fates[b.attempts - 1] == NoTransaction || fates[b.attempts - 1] == NoList))
    decreases |fates|
  {
    if fates != [] && HasWork(rows, fates[0]) {
      StopsForWantOfWork(RowsAfter(rows, fates[0]), fates[1..]);
    }
  }

  function Min(a: nat, b: nat): nat {
    if a < b then a else b
  }

  /** Without failures a batch publishes exactly the oldest min(20, n) rows. */
  lemma {:induction false} SmoothBatch(rows: seq<Row>, fates: seq<Fate>)
    requires forall k :: 0 <= k < |fates| ==> fates[k] == Smooth
    ensures var n := Min(|fates|, |Pending(rows)|);
      && Batch(rows, fates).accepted == Pending(rows)[..n]
      && Pending(Batch(rows, fates).rows) == Pending(rows)[n..]
    decreases |fates|
  {
    if fates != [] && HasWork(rows, fates[0]) {
      MarkedPending(rows);
      SmoothBatch(MarkOldest(rows), fates[1..]);
      var p := Pending(rows);
      var n := Min(|fates|, |p|);
      assert [p[0]] + p[1..][..n - 1] == p[..n];
      assert p[1..][n - 1..] == p[n..];
    }
  }
}
