/** The hub's goroutines, as they run: the broadcaster that reads the Redis
    subscription, and each client's writer and reader.  Between any two
    operations of one of them the others may take any steps. */
module HubServer {
  import opened Hub

  datatype Owner = Broadcaster | WriterOf(c: nat) | ReaderOf(c: nat)

  function OwnerOf<M>(step: Step<M>): set<Owner> {
    match step
    case Register(_) => {}
    case StartBroadcast(_) => {Broadcaster}
    case Offer(_) => {Broadcaster}
    case Unlock => {Broadcaster}
    case CloseSlow(_) => {Broadcaster}
    case EndBroadcast => {Broadcaster}
    case Take(c) => {WriterOf(c)}
    case RangeEnds(c) => {WriterOf(c)}
    case Write(c, _) => {WriterOf(c)}
    case WriterUnregisters(c) => {WriterOf(c)}
    case WriterCloses(c) => {WriterOf(c)}
    case ReadFails(c) => {ReaderOf(c)}
    case ReaderUnregisters(c) => {ReaderOf(c)}
    case ReaderCloses(c) => {ReaderOf(c)}
  }

  /** What the steps of the other goroutines leave alone. */
  predicate SameOwn<M(==)>(s: State<M>, t: State<M>, owner: Owner) {
    match owner
    case Broadcaster => s.cast == t.cast && s.sent == t.sent
    case WriterOf(c) => c in s.clients ==> c in t.clients && SameWriter(s.clients[c], t.clients[c])
    case ReaderOf(c) => c in s.clients ==> c in t.clients && t.clients[c].reader == s.clients[c].reader
  }

  /** To its writer a channel only ever grows, until it is closed. */
  predicate SameWriter<M(==)>(before: Client<M>, after: Client<M>) {
    && after.writer == before.writer && after.written == before.written
    && before.queue <= after.queue
    && (before.chanClosed ==> after.chanClosed && after.queue == before.queue)
  }

  /** One turn of a writer: the message at the head of its queue is written, or it
      leaves because the write failed; at the end of a closed channel it leaves;
      and once it is leaving it is through, unless the mutex is taken.  With an
      empty channel it may have to wait. */
  ghost predicate Turned<M>(s: State<M>, t: State<M>, c: nat, fails: bool)
    requires c in s.clients && c in t.clients
  {
    var before, after := s.clients[c], t.clients[c];
    match before.writer
    case Ranging =>
      if before.queue != [] then
        || (after.writer == Ranging && after.written == before.written + [before.queue[0]])
        || (after.writer == WriterLeaving && after.written == before.written && (fails || !after.connOpen))
      else if before.chanClosed then after.writer == WriterLeaving
      else true
    case WriterLeaving => after.writer == WriterGone || !MutexFree(t)
    case _ => true
  }

  /** What nobody undoes: a client stays known, a closed connection stays closed,
      a channel out of the map stays out, and broadcasts and what was written
      only grow. */
  ghost predicate Later<M>(s: State<M>, t: State<M>) {
    && s.sent <= t.sent
    && (forall c :: c in s.clients ==>
          && c in t.clients
          && (!s.clients[c].connOpen ==> !t.clients[c].connOpen)
          && (!s.clients[c].mapped ==> !t.clients[c].mapped)
          && s.clients[c].written <= t.clients[c].written
          && s.clients[c].since == t.clients[c].since)
  }

  /** One more of the clients still to do has been reached. */
  ghost predicate OneReached<M>(s: State<M>, t: State<M>, msg: M) {
    s.cast.Sending? && t.cast.Sending? &&
    exists c :: c in s.cast.todo && t.cast.todo == s.cast.todo - {c} && ReachedNext(s, t, c, msg)
  }

  ghost predicate ReachedNext<M>(s: State<M>, t: State<M>, c: nat, msg: M)
    requires s.cast.Sending? && t.cast.Sending?
  {
    && c in s.clients && c in t.clients
    && t.clients - {c} == s.clients - {c} && t.cast.slow - {c} == s.cast.slow - {c}
    && Reached(s.clients[c], t.clients[c], msg, c in t.cast.slow)
  }

  /** What the loop over the map has done so far, if nobody else acted. */
  ghost predicate AllReached<M>(start: State<M>, now: State<M>, msg: M) {
    && start.cast.Sending? && now.cast.Sending?
    && now.clients.Keys == start.clients.Keys
    && forall c :: c in now.clients ==>
         if c in start.cast.todo && c !in now.cast.todo
         then Reached(start.clients[c], now.clients[c], msg, c in now.cast.slow)
         else now.clients[c] == start.clients[c] && c !in now.cast.slow
  }

  lemma ReachesOneMore<M>(start: State<M>, before: State<M>, now: State<M>, msg: M)
    requires start.cast.Sending? && before.cast.Sending? && before.cast.todo <= start.cast.todo
    ensures AllReached(start, before, msg) && OneReached(before, now, msg) ==> AllReached(start, now, msg)
  {
    if AllReached(start, before, msg) && OneReached(before, now, msg) {
      var c :| c in before.cast.todo && now.cast.todo == before.cast.todo - {c} && ReachedNext(before, now, c, msg);
      assert now.clients.Keys == (before.clients - {c}).Keys + {c};
      forall b | b in now.clients && b != c
        ensures now.clients[b] == before.clients[b] && (b in now.cast.slow <==> b in before.cast.slow)
      {
        assert b in now.clients - {c} && (now.clients - {c})[b] == now.clients[b];
        assert b in now.cast.slow - {c} <==> b in before.cast.slow - {c};
      }
    }
  }

  /** Just the clients of the map have been reached. */
  ghost predicate SentToAll<M>(before: State<M>, sent: State<M>, msg: M) {
    && sent.cast.Sending? && sent.clients.Keys == before.clients.Keys
    && forall c :: c in sent.clients ==>
         if before.clients[c].mapped then Reached(before.clients[c], sent.clients[c], msg, c in sent.cast.slow)
         else sent.clients[c] == before.clients[c] && c !in sent.cast.slow
  }

  /** Of the clients nothing is different but that these connections are closed. */
  ghost predicate JustClosed<M>(before: State<M>, now: State<M>, closed: set<nat>) {
    && now.clients.Keys == before.clients.Keys
    && forall c :: c in now.clients ==>
         now.clients[c] == if c in closed then before.clients[c].(connOpen := false) else before.clients[c]
  }

  lemma ClosesOneMore<M>(start: State<M>, before: State<M>, now: State<M>, c: nat, all: set<nat>)
    requires before.cast.Closing? && now.cast == Closing(before.cast.slow - {c}) && c in all
    requires c in before.clients && now.clients == before.clients[c := before.clients[c].(connOpen := false)]
    ensures JustClosed(start, before, all - before.cast.slow) ==> JustClosed(start, now, all - now.cast.slow)
  {
  }

  /** What a broadcast that nobody disturbs does: a client of the map with fewer than
      16 messages queued gets this one and keeps its connection, a full one loses
      its connection, and no other is touched. */
  ghost predicate Delivered<M>(before: State<M>, after: State<M>, msg: M) {
    && after.clients.Keys == before.clients.Keys
    && forall c :: c in after.clients ==>
         var client := before.clients[c];
         after.clients[c] ==
           if !client.mapped then client
           else if |client.queue| < 16 then client.(queue := client.queue + [msg])
           else client.(connOpen := false)
  }

  lemma ReachedAndClosed<M>(before: State<M>, sent: State<M>, closed: State<M>, msg: M)
    requires SentToAll(before, sent, msg) && JustClosed(sent, closed, sent.cast.slow)
    ensures Delivered(before, closed, msg)
  {
  }

  lemma LaterStill<M>(s: State<M>, t: State<M>, u: State<M>)
    requires Later(s, t) && Later(t, u)
    ensures Later(s, u)
  {
  }

  lemma StepIsLater<M>(s: State<M>, step: Step<M>)
    requires Enabled(s, step)
    ensures Later(s, Apply(s, step))
  {
  }

  lemma ForeignKeepsOwn<M>(s: State<M>, step: Step<M>, owner: Owner)
    requires Enabled(s, step) && owner !in OwnerOf(step)
    ensures SameOwn(s, Apply(s, step), owner)
  {
  }

  lemma {:induction false} RunSnoc<M>(s: State<M>, steps: seq<Step<M>>, step: Step<M>)
    requires IsRun(s, steps) && Enabled(After(s, steps), step)
    ensures IsRun(s, steps + [step]) && After(s, steps + [step]) == Apply(After(s, steps), step)
    decreases |steps|
  {
    if steps != [] {
      RunSnoc(Apply(s, steps[0]), steps[1..], step);
      assert (steps + [step])[1..] == steps[1..] + [step];
    }
  }

  class Server<M(==)> {
    var state: State<M>
    ghost var steps: seq<Step<M>>

    ghost predicate Valid()
      reads this
    {
      IsRun(Fresh<M>(), steps) && state == After(Fresh<M>(), steps)
    }

    constructor ()
      ensures Valid() && state == Fresh<M>()
    {
      state, steps := Fresh(), [];
    }

    lemma Reachable()
      requires Valid()
      ensures Inv(state)
    {
      Hub.InvHolds(Fresh<M>(), steps);
    }

    method Do(step: Step<M>)
      requires Valid() && Enabled(state, step)
      modifies this
      ensures Valid() && state == Apply(old(state), step) && Later(old(state), state)
      ensures steps == old(steps) + [step]
    {
      StepIsLater(state, step);
      RunSnoc(Fresh<M>(), steps, step);
      state := Apply(state, step);
      steps := steps + [step];
    }

    method Other(step: Step<M>, owner: Owner)
      requires Valid()
      modifies this
      ensures Valid() && SameOwn(old(state), state, owner) && Later(old(state), state) && old(steps) <= steps
    {
      if owner !in OwnerOf(step) && Enabled(state, step) {
        ForeignKeepsOwn(state, step, owner);
        Do(step);
      }
    }

    method Others(schedule: seq<Step<M>>, owner: Owner)
      requires Valid()
      modifies this
      ensures Valid() && SameOwn(old(state), state, owner) && Later(old(state), state) && old(steps) <= steps
      ensures schedule == [] ==> state == old(state)
    {
      for k := 0 to |schedule|
        invariant Valid() && SameOwn(old(state), state, owner) && Later(old(state), state) && old(steps) <= steps
        invariant k == 0 ==> state == old(state)
      {
        Other(schedule[k], owner);
      }
    }

    // ----- the broadcaster -----

    /** Everything broadcast so far has been taken in for the client, in order. */
    ghost predicate UpToDate(c: nat)
      reads this
    {
      c in state.clients && state.clients[c].since <= |state.sent| &&
      Received(state.clients[c]) == state.sent[state.clients[c].since..]
    }

    /** In the map, with an open connection and a working writer. */
    ghost predicate Attentive(c: nat)
      reads this
    {
      c in state.clients && state.clients[c].mapped && state.clients[c].connOpen && WriterActive(state.clients[c])
    }

    lemma RestingIsUpToDate(c: nat)
      requires Valid() && state.cast.Resting? && Attentive(c)
      ensures UpToDate(c)
    {
      Reachable();
      assert StreamAgrees(state, c);
    }

    /** Since that step of the history the client was offered a message. */
    ghost predicate OfferedSince(c: nat, since: nat)
      reads this
    {
      exists i :: since <= i < |steps| && steps[i] == Offer(c)
    }

    lemma StaysOffered(c: nat, since: nat, before: seq<Step<M>>)
      requires before <= steps && exists i :: since <= i < |before| && before[i] == Offer(c)
      ensures OfferedSince(c, since)
    {
      var i :| since <= i < |before| && before[i] == Offer(c);
      assert steps[i] == Offer(c);
    }

    /** One client of the map: its queue gets the message, or it counts as slow. */
    method OffersNext(msg: M) returns (c: nat)
      requires Valid() && state.cast.Sending? && state.cast.todo != {} && state.cast.msg == msg
      modifies this
      ensures Valid() && Later(old(state), state) && state.sent == old(state.sent)
      ensures steps == old(steps) + [Offer(c)]
      ensures c in old(state.cast.todo) && state.cast.Sending? && state.cast.msg == msg
      ensures state.cast.todo == old(state.cast.todo) - {c}
      ensures c in old(state.clients) && c in state.clients
      ensures state.clients - {c} == old(state.clients) - {c}
      ensures state.cast.slow - {c} == old(state.cast.slow) - {c}
      ensures Reached(old(state.clients)[c], state.clients[c], msg, c in state.cast.slow)
    {
      c :| c in state.cast.todo;
      Reachable();
      assert CastAgrees(state, c) && ChannelAgrees(state, c);
      Do(Offer(c));
    }

    ghost predicate AllOffered(clients: set<nat>, since: nat)
      reads this
    {
      forall c :: c in clients ==> OfferedSince(c, since)
    }

    lemma StayOffered(clients: set<nat>, since: nat, before: seq<Step<M>>)
      requires before <= steps
      requires forall c :: c in clients ==> exists i :: since <= i < |before| && before[i] == Offer(c)
      ensures AllOffered(clients, since)
    {
      forall c | c in clients ensures OfferedSince(c, since) {
        var i :| since <= i < |before| && before[i] == Offer(c);
        assert steps[i] == Offer(c);
      }
    }

    /** One turn of the loop over the map; `all` are those it visits. */
    method OfferTurn(msg: M, schedule: seq<Step<M>>, ghost all: set<nat>, ghost since: nat)
      requires Valid() && state.cast.Sending? && state.cast.todo != {} && state.cast.msg == msg
      requires state.cast.todo <= all && AllOffered(all - state.cast.todo, since) && since <= |steps|
      modifies this
      ensures Valid() && Later(old(state), state) && state.sent == old(state.sent) && old(steps) <= steps
      ensures state.cast.Sending? && state.cast.msg == msg
      ensures state.cast.todo < old(state.cast.todo) && AllOffered(all - state.cast.todo, since)
      ensures schedule == [] ==> OneReached(old(state), state, msg)
    {
      ghost var before, todo := steps, state.cast.todo;
      Others(schedule, Broadcaster);
      var c := OffersNext(msg);
      StayOffered(all - todo, since, before);
      assert steps[|steps| - 1] == Offer(c);
      assert all - state.cast.todo <= all - todo + {c};
    }

    /** The loop over the map, under the mutex: every client of it is offered the
        message.  If nobody else acts it has reached just these. */
    method OffersToAll(msg: M, others: nat -> seq<Step<M>>)
      requires Valid() && state.cast.Sending? && state.cast.msg == msg && state.cast.slow == {}
      modifies this
      ensures Valid() && Later(old(state), state) && state.sent == old(state.sent) && old(steps) <= steps
      ensures state.cast.Sending? && state.cast.todo == {}
      ensures AllOffered(old(state.cast.todo), |old(steps)|)
      ensures (forall k :: others(k) == []) ==> AllReached(old(state), state, msg)
    {
      var k := 0;
      while state.cast.todo != {}
        invariant Valid() && Later(old(state), state) && state.sent == old(state.sent) && old(steps) <= steps
        invariant state.cast.Sending? && state.cast.msg == msg && state.cast.todo <= old(state.cast.todo)
        invariant AllOffered(old(state.cast.todo) - state.cast.todo, |old(steps)|)
        invariant (forall k :: others(k) == []) ==> AllReached(old(state), state, msg)
        decreases if state.cast.Sending? then state.cast.todo else {}
      {
        ghost var before := state;
        OfferTurn(msg, others(k), old(state.cast.todo), |old(steps)|);
        LaterStill(old(state), before, state);
        ReachesOneMore(old(state), before, state, msg);
        k := k + 1;
      }
      assert old(state.cast.todo) - {} == old(state.cast.todo);
    }

    /** The part of a broadcast under the mutex. */
    method SendsToAll(msg: M, others: nat -> seq<Step<M>>)
      requires Valid() && state.cast.Resting?
      modifies this
      ensures Valid() && Later(old(state), state) && old(steps) <= steps
      ensures state.sent == old(state.sent) + [msg]
      ensures state.cast.Sending? && state.cast.todo == {}
      ensures AllOffered(Mapped(old(state)), |old(steps)|)
      ensures (forall k :: others(k) == []) ==> SentToAll(old(state), state, msg)
    {
      Do(StartBroadcast(msg));
      ghost var started, before := state, steps;
      OffersToAll(msg, others);
      LaterStill(old(state), started, state);
      StayOffered(Mapped(old(state)), |old(steps)|, steps);
    }

    /** One slow client's connection is closed. */
    method ClosesNext(schedule: seq<Step<M>>) returns (c: nat)
      requires Valid() && state.cast.Closing? && state.cast.slow != {}
      modifies this
      ensures Valid() && Later(old(state), state) && state.sent == old(state.sent) && old(steps) <= steps
      ensures c in old(state.cast.slow) && state.cast == Closing(old(state.cast.slow) - {c})
      ensures c in state.clients && !state.clients[c].connOpen
      ensures schedule == [] ==>
        c in old(state.clients) && state.clients == old(state.clients)[c := old(state.clients)[c].(connOpen := false)]
    {
      Others(schedule, Broadcaster);
      c :| c in state.cast.slow;
      Reachable();
      assert CastAgrees(state, c);
      Do(CloseSlow(c));
    }

    /** The connections of the slow clients are closed after the mutex is free. */
    method ClosesSlow(others: nat -> seq<Step<M>>)
      requires Valid() && state.cast.Closing?
      modifies this
      ensures Valid() && Later(old(state), state) && state.sent == old(state.sent) && old(steps) <= steps
      ensures state.cast == Closing({})
      ensures forall c :: c in old(state.cast.slow) ==> c in state.clients && !state.clients[c].connOpen
      ensures (forall k :: others(k) == []) ==> JustClosed(old(state), state, old(state.cast.slow))
    {
      var k := 0;
      while state.cast.slow != {}
        invariant Valid() && Later(old(state), state) && state.sent == old(state.sent) && old(steps) <= steps
        invariant state.cast.Closing? && state.cast.slow <= old(state.cast.slow)
        invariant forall c :: c in old(state.cast.slow) - state.cast.slow ==>
          c in state.clients && !state.clients[c].connOpen
        invariant (forall k :: others(k) == []) ==>
          JustClosed(old(state), state, old(state.cast.slow) - state.cast.slow)
        decreases if state.cast.Closing? then state.cast.slow else {}
      {
        ghost var before := state;
        var c := ClosesNext(others(k));
        LaterStill(old(state), before, state);
        if others(k) == [] {
          ClosesOneMore(old(state), before, state, c, old(state.cast.slow));
        }
        k := k + 1;
      }
      assert old(state.cast.slow) - {} == old(state.cast.slow);
    }

    /** One broadcast.  Every client in the map is offered the message.  When it is
        over, every client in the map with an open connection and a working writer
        has taken in all there was to see. */
    method Broadcast(msg: M, offers: nat -> seq<Step<M>>, closes: nat -> seq<Step<M>>)
      requires Valid() && state.cast.Resting?
      modifies this
      ensures Valid() && Later(old(state), state) && state.cast.Resting? && old(steps) <= steps
      ensures state.sent == old(state.sent) + [msg]
      ensures forall c :: c in old(state.clients) && old(state.clients)[c].mapped ==> OfferedSince(c, |old(steps)|)
      ensures forall c :: Attentive(c) ==> UpToDate(c)
      ensures (forall k :: offers(k) == [] && closes(k) == []) ==> Delivered(old(state), state, msg)
    {
      SendsToAll(msg, offers);
      ghost var offered, sent := steps, state;
      Do(Unlock);
      ClosesSlow(closes);
      ghost var closed := state;
      Do(EndBroadcast);
      StayOffered(Mapped(old(state)), |old(steps)|, offered);
      if forall k :: offers(k) == [] && closes(k) == [] {
        ReachedAndClosed(old(state), sent, closed, msg);
      }
      forall c | Attentive(c) ensures UpToDate(c) {
        RestingIsUpToDate(c);
      }
    }

    /** A message of the channel, when it comes. */
    method BroadcastsNext(msg: M, others: nat -> seq<Step<M>>, before: seq<Step<M>>)
      requires Valid() && state.cast.Resting?
      modifies this
      ensures Valid() && state.cast.Resting? && state.sent == old(state.sent) + [msg]
    {
      Others(before, Broadcaster);
      Broadcast(msg, others, others);
    }

    /** The subscription: one broadcast for each message of the channel, in order. */
    method RunSubscription(messages: seq<M>, others: nat -> seq<Step<M>>)
      requires Valid() && state.cast.Resting?
      modifies this
      ensures Valid() && state.cast.Resting?
      ensures state.sent == old(state.sent) + messages
    {
      for k := 0 to |messages|
        invariant Valid() && state.cast.Resting?
        invariant state.sent == old(state.sent) + messages[..k]
      {
        BroadcastsNext(messages[k], others, others(k));
        assert messages[..k + 1] == messages[..k] + [messages[k]];
      }
      assert messages[..|messages|] == messages;
    }

    // ----- a client's goroutines -----

    /** The connection is registered with an open, empty channel: its stream
        starts with the next broadcast. */
    method Registers(c: nat)
      requires Valid() && c !in state.clients && MutexFree(state)
      modifies this
      ensures Valid() && c in state.clients && state.clients[c].mapped && !state.clients[c].chanClosed
      ensures state.clients[c].since == |state.sent| && state.sent == old(state.sent)
      ensures state.clients[c].writer == Ranging && state.clients[c].reader == Reading
      ensures state.clients[c].connOpen && state.clients[c].queue == [] && state.clients[c].written == []
    {
      Do(Register(c));
    }

    ghost predicate WriterAt(c: nat, writer: Writer<M>)
      reads this
    {
      Valid() && c in state.clients && state.clients[c].writer == writer
    }

    /** What a writer or reader leaves when it is through: nothing of the client
        is open any more. */
    ghost predicate Closed(c: nat)
      reads this
    {
      c in state.clients && !state.clients[c].mapped && state.clients[c].chanClosed && !state.clients[c].connOpen
    }

    lemma OutOfMapIsClosed(c: nat)
      requires Valid() && c in state.clients && !state.clients[c].mapped
      ensures state.clients[c].chanClosed
    {
      Reachable();
      assert ChannelAgrees(state, c);
    }

    /** The deferred calls of the writer. */
    method WriterLeaves(c: nat, others: seq<Step<M>>)
      requires WriterAt(c, WriterLeaving) && MutexFree(state)
      modifies this
      ensures WriterAt(c, WriterGone) && Closed(c) && Later(old(state), state)
    {
      Do(WriterUnregisters(c));
      Others(others, WriterOf(c));
      Do(WriterCloses(c));
      OutOfMapIsClosed(c);
    }

    /** One message: taken from the queue and written, unless the write fails. */
    method Writes(c: nat, others: seq<Step<M>>, fails: bool) returns (ok: bool)
      requires WriterAt(c, Ranging) && state.clients[c].queue != []
      modifies this
      ensures WriterAt(c, if ok then Ranging else WriterLeaving) && Later(old(state), state)
      ensures state.clients[c].written ==
        old(state.clients[c].written) + if ok then [old(state.clients[c].queue[0])] else []
      ensures ok || fails || !state.clients[c].connOpen
    {
      Do(Take(c));
      Others(others, WriterOf(c));
      ok := !fails && state.clients[c].connOpen;
      Do(Write(c, ok));
    }

    /** The states between the turns of a writer. */
    ghost predicate Turns(c: nat, trace: seq<State<M>>, fails: nat -> bool)
      reads this
    {
      TurnsTo(state, c, trace, fails)
    }

    ghost predicate TurnsTo(s: State<M>, c: nat, trace: seq<State<M>>, fails: nat -> bool) {
      && trace != [] && trace[|trace| - 1] == s
      && (forall k :: 0 <= k < |trace| ==> c in trace[k].clients)
      && (forall k :: 0 <= k < |trace| - 1 ==> Turned(trace[k], trace[k + 1], c, fails(k)))
    }

    /** The writer goroutine: one turn for each of the given schedules, unless it
        ends before.  It ends when its channel is closed and empty, or a write
        fails; then nothing of the client is left open.  At every point what was
        written has no gap. */
    method WriterLoop(c: nat, schedules: seq<seq<Step<M>>>, fails: nat -> bool)
      returns (ended: bool, ghost trace: seq<State<M>>)
      requires WriterAt(c, Ranging)
      modifies this
      ensures Valid() && Turns(c, trace, fails) && trace[0] == old(state) && Later(old(state), state)
      ensures |trace| == |schedules| + 1 || (ended && |trace| <= |schedules|)
      ensures ended ==> WriterAt(c, WriterGone) && Closed(c)
      ensures IsStretch(state.sent, state.clients[c].since, state.clients[c].written)
    {
      ended := false;
      trace := [state];
      var k := 0;
      while k < |schedules| && !ended
        invariant k <= |schedules| && |trace| == k + 1 && trace[0] == old(state)
        invariant Valid() && Turns(c, trace, fails) && Later(old(state), state)
        invariant !ended ==> WriterAt(c, Ranging) || WriterAt(c, WriterLeaving)
        invariant ended ==> WriterAt(c, WriterGone) && Closed(c)
        decreases |schedules| - k
      {
        ghost var before := state;
        ended := WriterTurn(c, schedules[k], fails(k));
        LaterStill(old(state), before, state);
        OneTurnMore(c, trace, before, fails);
        trace := trace + [state];
        k := k + 1;
      }
      NoGaps(steps, c);
    }

    lemma OneTurnMore(c: nat, trace: seq<State<M>>, before: State<M>, fails: nat -> bool)
      requires TurnsTo(before, c, trace, fails)
      requires c in state.clients && Turned(before, state, c, fails(|trace| - 1))
      ensures Turns(c, trace + [state], fails)
    {
    }

    /** One turn of the writer. */
    method WriterTurn(c: nat, others: seq<Step<M>>, fails: bool) returns (ended: bool)
      requires WriterAt(c, Ranging) || WriterAt(c, WriterLeaving)
      modifies this
      ensures Valid() && c in state.clients && Turned(old(state), state, c, fails) && Later(old(state), state)
      ensures !ended ==> WriterAt(c, Ranging) || WriterAt(c, WriterLeaving)
      ensures ended ==> WriterAt(c, WriterGone) && Closed(c)
    {
      Others(others, WriterOf(c));
      ended := false;
      if state.clients[c].writer == WriterLeaving {
        if MutexFree(state) {
          WriterLeaves(c, others);
          ended := true;
        }
      } else if state.clients[c].queue != [] {
        var _ := Writes(c, others, fails);
      } else if state.clients[c].chanClosed {
        Do(RangeEnds(c));
      }
    }

    ghost predicate ReaderAt(c: nat, reader: Reader)
      reads this
    {
      Valid() && c in state.clients && state.clients[c].reader == reader
    }

    /** The deferred calls of the reader. */
    method ReaderLeaves(c: nat, others: seq<Step<M>>)
      requires ReaderAt(c, ReaderLeaving) && MutexFree(state)
      modifies this
      ensures ReaderAt(c, ReaderGone) && Closed(c) && Later(old(state), state)
    {
      Do(ReaderUnregisters(c));
      Others(others, ReaderOf(c));
      Do(ReaderCloses(c));
      OutOfMapIsClosed(c);
    }

    /** The reader goroutine: a failed read ends it, and whether or not the writer
        did so before, nothing of the client is left open.  It may be left
        waiting for the mutex. */
    method ReaderLoop(c: nat, others: nat -> seq<Step<M>>) returns (ended: bool)
      requires ReaderAt(c, Reading)
      modifies this
      ensures Later(old(state), state)
      ensures if ended then ReaderAt(c, ReaderGone) && Closed(c) else ReaderAt(c, ReaderLeaving) && !MutexFree(state)
    {
      Do(ReadFails(c));
      Others(others(0), ReaderOf(c));
      if !MutexFree(state) {
        return false;
      }
      ReaderLeaves(c, others(1));
      return true;
    }
  }
}
