/** The WebSocket hub: one broadcaster, and for each client a writer and a reader
    goroutine, around a map of bounded channels guarded by a mutex.

    The machine interleaves them at the grain of channel operations and of
    sections under the mutex.  Sending on, or closing, a closed channel sets
    `panicked`. */
module Hub {

  const QUEUE_LIMIT: nat := 16

  datatype Writer<M> = Ranging | Writing(msg: M) | WriterLeaving | WriterClosing | WriterGone
  datatype Reader = Reading | ReaderLeaving | ReaderClosing | ReaderGone

  /** A connection with its channel; `since` is the number of broadcasts started
      before it registered, `written` what was sent to the peer. */
  datatype Client<M> =
    Client(since: nat, queue: seq<M>, mapped: bool, chanClosed: bool, connOpen: bool,
           written: seq<M>, writer: Writer<M>, reader: Reader)

  /** The broadcaster holds the mutex while it is `Sending`. */
  datatype Cast<M> = Resting | Sending(msg: M, todo: set<nat>, slow: set<nat>) | Closing(slow: set<nat>)

  datatype State<M> = State(clients: map<nat, Client<M>>, sent: seq<M>, cast: Cast<M>, panicked: bool)

  function Fresh<M>(): State<M> {
    State(map[], [], Resting, false)
  }

  datatype Step<M> =
    | Register(c: nat)
    | StartBroadcast(msg: M)
    | Offer(c: nat)
    | Unlock
    | CloseSlow(c: nat)
    | EndBroadcast
    | Take(c: nat)
    | RangeEnds(c: nat)
    | Write(c: nat, ok: bool)
    | WriterUnregisters(c: nat)
    | WriterCloses(c: nat)
    | ReadFails(c: nat)
    | ReaderUnregisters(c: nat)
    | ReaderCloses(c: nat)

  predicate MutexFree<M>(s: State<M>) {
    !s.cast.Sending?
  }

  predicate Enabled<M>(s: State<M>, step: Step<M>) {
    match step
    case Register(c) => c !in s.clients && MutexFree(s)
    case StartBroadcast(_) => s.cast.Resting?
    case Offer(c) => s.cast.Sending? && c in s.cast.todo && c in s.clients
    case Unlock => s.cast.Sending? && s.cast.todo == {}
    case CloseSlow(c) => s.cast.Closing? && c in s.cast.slow && c in s.clients
    case EndBroadcast => s.cast.Closing? && s.cast.slow == {}
    case Take(c) => c in s.clients && s.clients[c].writer.Ranging? && s.clients[c].queue != []
    case RangeEnds(c) =>
      c in s.clients && s.clients[c].writer.Ranging? && s.clients[c].queue == [] && s.clients[c].chanClosed
    case Write(c, ok) => c in s.clients && s.clients[c].writer.Writing? && (ok ==> s.clients[c].connOpen)
    case WriterUnregisters(c) => c in s.clients && s.clients[c].writer.WriterLeaving? && MutexFree(s)
    case WriterCloses(c) => c in s.clients && s.clients[c].writer.WriterClosing?
    case ReadFails(c) => c in s.clients && s.clients[c].reader.Reading?
    case ReaderUnregisters(c) => c in s.clients && s.clients[c].reader.ReaderLeaving? && MutexFree(s)
    case ReaderCloses(c) => c in s.clients && s.clients[c].reader.ReaderClosing?
  }

  /** Clients the broadcaster's loop over the map visits. */
  function Mapped<M>(s: State<M>): set<nat> {
    set c | c in s.clients && s.clients[c].mapped
  }

  /** Close the channel and drop it from the map, if it is still there. */
  function Unregistered<M>(client: Client<M>): Client<M> {
    if client.mapped then client.(mapped := false, chanClosed := true) else client
  }

  function With<M>(s: State<M>, c: nat, client: Client<M>): State<M> {
    s.(clients := s.clients[c := client])
  }

  function Apply<M>(s: State<M>, step: Step<M>): State<M>
    requires Enabled(s, step)
  {
    match step
    case Register(c) => With(s, c, Client(|s.sent|, [], true, false, true, [], Ranging, Reading))
    case StartBroadcast(msg) => s.(sent := s.sent + [msg], cast := Sending(msg, Mapped(s), {}))
    case Offer(c) =>
      var client := s.clients[c];
      var left := s.cast.(todo := s.cast.todo - {c});
      if client.chanClosed then s.(panicked := true, cast := left)
      else if |client.queue| < QUEUE_LIMIT then
        With(s.(cast := left), c, client.(queue := client.queue + [s.cast.msg]))
      else s.(cast := left.(slow := left.slow + {c}))
    case Unlock => s.(cast := Closing(s.cast.slow))
    case CloseSlow(c) =>
      With(s.(cast := Closing(s.cast.slow - {c})), c, s.clients[c].(connOpen := false))
    case EndBroadcast => s.(cast := Resting)
    case Take(c) =>
      var client := s.clients[c];
      With(s, c, client.(writer := Writing(client.queue[0]), queue := client.queue[1..]))
    case RangeEnds(c) => With(s, c, s.clients[c].(writer := WriterLeaving))
    case Write(c, ok) =>
      var client := s.clients[c];
      if ok then With(s, c, client.(written := client.written + [client.writer.msg], writer := Ranging))
      else With(s, c, client.(writer := WriterLeaving))
    case WriterUnregisters(c) =>
      var client := s.clients[c];
      With(s.(panicked := s.panicked || (client.mapped && client.chanClosed)), c,
           Unregistered(client).(writer := WriterClosing))
    case WriterCloses(c) => With(s, c, s.clients[c].(connOpen := false, writer := WriterGone))
    case ReadFails(c) => With(s, c, s.clients[c].(reader := ReaderLeaving))
    case ReaderUnregisters(c) =>
      var client := s.clients[c];
      With(s.(panicked := s.panicked || (client.mapped && client.chanClosed)), c,
           Unregistered(client).(reader := ReaderClosing))
    case ReaderCloses(c) => With(s, c, s.clients[c].(connOpen := false, reader := ReaderGone))
  }

  ghost predicate IsRun<M>(s: State<M>, steps: seq<Step<M>>)
    decreases |steps|
  {
    steps == [] || (Enabled(s, steps[0]) && IsRun(Apply(s, steps[0]), steps[1..]))
  }

  ghost function After<M>(s: State<M>, steps: seq<Step<M>>): State<M>
    requires IsRun(s, steps)
    decreases |steps|
  {
    if steps == [] then s else After(Apply(s, steps[0]), steps[1..])
  }

  // ----- channels -----

  /** Mapped channels are open, unmapped ones closed, none overfull. */
  ghost predicate ChannelAgrees<M>(s: State<M>, c: nat) {
    c in s.clients ==>
      && (s.clients[c].mapped <==> !s.clients[c].chanClosed)
      && |s.clients[c].queue| <= QUEUE_LIMIT
      && s.clients[c].since <= |s.sent|
  }

  /** The broadcaster only visits mapped clients, and closes known ones. */
  ghost predicate CastAgrees<M>(s: State<M>, c: nat) {
    && (s.cast.Sending? && c in s.cast.todo ==> c in s.clients && s.clients[c].mapped && c !in s.cast.slow)
    && (!s.cast.Resting? && c in s.cast.slow ==> c in s.clients)
    && (!s.cast.Resting? ==> s.sent != [])
    && (s.cast.Sending? ==> s.sent[|s.sent| - 1] == s.cast.msg)
  }

  // ----- streams -----

  predicate WriterActive<M>(client: Client<M>) {
    client.writer.Ranging? || client.writer.Writing?
  }

  /** Everything taken in for the peer: written, in the writer's hand, queued. */
  function Received<M>(client: Client<M>): seq<M> {
    client.written + (if client.writer.Writing? then [client.writer.msg] else []) + client.queue
  }

  /** How many broadcasts have been offered to a mapped client: all, but for the
      current one if its turn is yet to come or its queue was full. */
  ghost function Offered<M>(s: State<M>, c: nat): int {
    if (s.cast.Sending? && c in s.cast.todo) || (!s.cast.Resting? && c in s.cast.slow) then |s.sent| - 1 else |s.sent|
  }

  ghost predicate IsStretch<M>(sent: seq<M>, since: nat, got: seq<M>) {
    since + |got| <= |sent| && got == sent[since..since + |got|]
  }

  /** What was written is always a stretch of the broadcasts from the moment of
      registration.  While the connection is open and its writer at work, what is
      queued continues that stretch, and for a mapped client reaches its end. */
  ghost predicate StreamAgrees<M>(s: State<M>, c: nat) {
    c in s.clients ==>
      var client := s.clients[c];
      && IsStretch(s.sent, client.since, client.written)
      && (client.connOpen && WriterActive(client) ==>
            && IsStretch(s.sent, client.since, Received(client))
            && (client.mapped ==> client.since + |Received(client)| == Offered(s, c)))
  }

  ghost predicate Inv<M>(s: State<M>) {
    && !s.panicked
    && (forall c :: ChannelAgrees(s, c))
    && (forall c :: CastAgrees(s, c))
    && (forall c :: StreamAgrees(s, c))
  }

  lemma StepKeepsChannels<M>(s: State<M>, step: Step<M>)
    requires Inv(s) && Enabled(s, step)
    ensures !Apply(s, step).panicked
    ensures forall c: nat :: ChannelAgrees(Apply(s, step), c)
  {
    if step.Offer? || step.WriterUnregisters? || step.ReaderUnregisters? {
      assert ChannelAgrees(s, step.c) && CastAgrees(s, step.c);
    }
    forall c: nat ensures ChannelAgrees(Apply(s, step), c) {
      assert ChannelAgrees(s, c);
    }
  }

  lemma StepKeepsCast<M>(s: State<M>, step: Step<M>)
    requires Inv(s) && Enabled(s, step)
    ensures forall c: nat :: CastAgrees(Apply(s, step), c)
  {
    forall c: nat ensures CastAgrees(Apply(s, step), c) {
      assert CastAgrees(s, c);
    }
  }

  lemma StretchGrows<M>(sent: seq<M>, since: nat, got: seq<M>, msg: M)
    requires IsStretch(sent, since, got)
    ensures IsStretch(sent + [msg], since, got)
  {
    assert (sent + [msg])[since..since + |got|] == sent[since..since + |got|];
  }

  lemma StretchTakes<M>(sent: seq<M>, since: nat, got: seq<M>)
    requires IsStretch(sent, since, got) && since + |got| < |sent|
    ensures IsStretch(sent, since, got + [sent[since + |got|]])
  {
  }

  lemma StretchPrefix<M>(sent: seq<M>, since: nat, got: seq<M>, rest: seq<M>)
    requires IsStretch(sent, since, got + rest)
    ensures IsStretch(sent, since, got)
  {
    assert got == (got + rest)[..|got|];
  }

  /** A broadcast starts: the clients' streams are one message behind. */
  lemma StartKeepsStream<M>(s: State<M>, msg: M)
    requires Inv(s) && Enabled(s, StartBroadcast(msg))
    ensures forall c: nat :: StreamAgrees(Apply(s, StartBroadcast(msg)), c)
  {
    forall c: nat ensures StreamAgrees(Apply(s, StartBroadcast(msg)), c) {
      assert StreamAgrees(s, c);
      if c in s.clients {
        var client := s.clients[c];
        StretchGrows(s.sent, client.since, client.written, msg);
        if client.connOpen && WriterActive(client) {
          StretchGrows(s.sent, client.since, Received(client), msg);
        }
      }
    }
  }

  /** The current message is queued, or the client counts as slow. */
  lemma OfferKeepsStream<M>(s: State<M>)
    requires Inv(s)
    ensures forall c: nat :: Enabled(s, Offer(c)) ==> StreamAgrees(Apply(s, Offer(c)), c)
  {
    forall c: nat | Enabled(s, Offer(c)) ensures StreamAgrees(Apply(s, Offer(c)), c) {
      assert StreamAgrees(s, c) && CastAgrees(s, c) && ChannelAgrees(s, c);
      var client := s.clients[c];
      if |client.queue| < QUEUE_LIMIT && client.connOpen && WriterActive(client) {
        StretchTakes(s.sent, client.since, Received(client));
        var longer := client.(queue := client.queue + [s.cast.msg]);
        assert Received(longer) == Received(client) + [s.cast.msg];
      }
    }
  }

  /** The writer moves on: the stream it has taken in stays the same. */
  lemma WriterKeepsStream<M>(s: State<M>, step: Step<M>)
    requires Inv(s) && Enabled(s, step) && (step.Take? || step.Write?)
    ensures StreamAgrees(Apply(s, step), step.c)
  {
    assert StreamAgrees(s, step.c);
    var before := s.clients[step.c];
    var after := Apply(s, step).clients[step.c];
    if step.Take? {
      assert [before.queue[0]] + before.queue[1..] == before.queue;
      assert before.written + [] == before.written;
      assert Received(after) == Received(before);
    } else if step.ok {
      assert Received(after) == Received(before);
      StretchPrefix(s.sent, before.since, after.written, before.queue);
    }
  }

  /** The steps that leave this client's stream as it is, or end it. */
  lemma OtherKeepsStream<M>(s: State<M>, step: Step<M>)
    requires Inv(s) && Enabled(s, step) && !step.StartBroadcast?
    ensures forall c: nat :: ((step.Offer? || step.Take? || step.Write?) ==> step.c != c) ==>
                               StreamAgrees(Apply(s, step), c)
  {
    forall c: nat | (step.Offer? || step.Take? || step.Write?) ==> step.c != c
      ensures StreamAgrees(Apply(s, step), c)
    {
      assert StreamAgrees(s, c) && CastAgrees(s, c);
    }
  }

  lemma StepKeepsStream<M>(s: State<M>, step: Step<M>)
    requires Inv(s) && Enabled(s, step)
    ensures forall c: nat :: StreamAgrees(Apply(s, step), c)
  {
    if step.StartBroadcast? {
      StartKeepsStream(s, step.msg);
      return;
    }
    OtherKeepsStream(s, step);
    if step.Offer? {
      OfferKeepsStream(s);
    } else if step.Take? || step.Write? {
      WriterKeepsStream(s, step);
    }
  }

  lemma {:induction false} InvHolds<M>(s: State<M>, steps: seq<Step<M>>)
    requires Inv(s) && IsRun(s, steps)
    ensures Inv(After(s, steps))
    decreases |steps|
  {
    if steps != [] {
      var after := Apply(s, steps[0]);
      StepKeepsChannels(s, steps[0]);
      StepKeepsCast(s, steps[0]);
      StepKeepsStream(s, steps[0]);
      InvHolds(after, steps[1..]);
    }
  }

  /** Under every interleaving: no send on a closed channel and no second close
      (either would panic), every mapped channel is open, and no queue exceeds
      its capacity. */
  lemma ChannelsAreSafe<M>(steps: seq<Step<M>>, c: nat)
    requires IsRun(Fresh<M>(), steps) && c in After(Fresh<M>(), steps).clients
    ensures var s := After(Fresh<M>(), steps);
      && !s.panicked
      && (s.clients[c].mapped ==> !s.clients[c].chanClosed)
      && |s.clients[c].queue| <= 16
  {
    InvHolds(Fresh<M>(), steps);
    assert ChannelAgrees(After(Fresh<M>(), steps), c);
  }

  /** No gaps: what a client has been written is a contiguous stretch of the
      broadcasts that begins with the first one after it registered. */
  lemma NoGaps<M>(steps: seq<Step<M>>, c: nat)
    requires IsRun(Fresh<M>(), steps) && c in After(Fresh<M>(), steps).clients
    ensures var s := After(Fresh<M>(), steps);
      IsStretch(s.sent, s.clients[c].since, s.clients[c].written)
  {
    InvHolds(Fresh<M>(), steps);
    assert StreamAgrees(After(Fresh<M>(), steps), c);
  }

  // ----- what a broadcast does to a client -----

  lemma {:induction false} RunSplit<M>(s: State<M>, steps: seq<Step<M>>, i: nat)
    requires IsRun(s, steps) && i < |steps|
    ensures IsRun(s, steps[..i]) && Enabled(After(s, steps[..i]), steps[i])
    ensures IsRun(s, steps[..i + 1])
    ensures After(s, steps[..i + 1]) == Apply(After(s, steps[..i]), steps[i])
    decreases i
  {
    if i > 0 {
      RunSplit(Apply(s, steps[0]), steps[1..], i - 1);
      assert steps[..i][1..] == steps[1..][..i - 1];
      assert steps[..i + 1][1..] == steps[1..][..i];
    }
  }

  /** A client with fewer than 16 messages queued gets one more, and keeps all else;
      a full one keeps what it has, and is to be closed. */
  ghost predicate Reached<M>(before: Client<M>, after: Client<M>, msg: M, slow: bool) {
    if |before.queue| < 16 then after == before.(queue := before.queue + [msg]) && !slow
    else after == before && slow
  }

  /** Between the two states the client has been offered the current message. */
  ghost predicate OfferedIn<M>(s: State<M>, t: State<M>, c: nat) {
    && c in s.clients && c in t.clients && s.cast.Sending? && t.cast.Sending? && s.sent != []
    && Reached(s.clients[c], t.clients[c], s.sent[|s.sent| - 1], c in t.cast.slow)
  }

  lemma OffersReach<M>(s: State<M>)
    requires Inv(s)
    ensures forall c: nat :: Enabled(s, Offer(c)) ==> OfferedIn(s, Apply(s, Offer(c)), c)
  {
    forall c: nat | Enabled(s, Offer(c)) ensures OfferedIn(s, Apply(s, Offer(c)), c) {
      assert CastAgrees(s, c) && ChannelAgrees(s, c);
    }
  }

  /** In every run, a client that is offered a message is reached by it. */
  lemma OfferReaches<M>(steps: seq<Step<M>>, i: nat, c: nat)
    requires IsRun(Fresh<M>(), steps) && i < |steps| && steps[i] == Offer(c)
    ensures IsRun(Fresh<M>(), steps[..i]) && IsRun(Fresh<M>(), steps[..i + 1])
    ensures OfferedIn(After(Fresh<M>(), steps[..i]), After(Fresh<M>(), steps[..i + 1]), c)
  {
    RunSplit(Fresh<M>(), steps, i);
    InvHolds(Fresh<M>(), steps[..i]);
    OffersReach(After(Fresh<M>(), steps[..i]));
  }

  /** At that step the client was offered a message with its queue full. */
  ghost predicate FullAt<M>(steps: seq<Step<M>>, j: nat, c: nat) {
    && j < |steps| && steps[j] == Offer(c)
    && IsRun(Fresh<M>(), steps[..j])
    && c in After(Fresh<M>(), steps[..j]).clients && |After(Fresh<M>(), steps[..j]).clients[c].queue| == 16
  }

  ghost predicate WasFull<M>(steps: seq<Step<M>>, c: nat) {
    exists j: nat :: FullAt(steps, j, c) && forall k :: j < k < |steps| ==> !steps[k].StartBroadcast?
  }

  lemma WasFullStays<M>(steps: seq<Step<M>>, step: Step<M>, c: nat)
    requires WasFull(steps, c) && !step.StartBroadcast?
    ensures WasFull(steps + [step], c)
  {
    var j: nat :| FullAt(steps, j, c) && forall k :: j < k < |steps| ==> !steps[k].StartBroadcast?;
    assert (steps + [step])[..j] == steps[..j];
    assert FullAt(steps + [step], j, c);
  }

  lemma {:induction false} SlowWereFull<M>(steps: seq<Step<M>>, c: nat)
    requires IsRun(Fresh<M>(), steps) && !After(Fresh<M>(), steps).cast.Resting?
    requires c in After(Fresh<M>(), steps).cast.slow
    ensures WasFull(steps, c)
    decreases |steps|
  {
    var n := |steps| - 1;
    RunSplit(Fresh<M>(), steps, n);
    assert steps[..n + 1] == steps && steps[..n] + [steps[n]] == steps;
    var s := After(Fresh<M>(), steps[..n]);
    if !s.cast.Resting? && c in s.cast.slow {
      SlowWereFull(steps[..n], c);
      WasFullStays(steps[..n], steps[n], c);
    } else {
      InvHolds(Fresh<M>(), steps[..n]);
      assert ChannelAgrees(s, c) && FullAt(steps, n, c);
    }
  }

  /** In every run, a client's connection is closed by its own goroutines, or by a
      broadcast that found its queue full. */
  lemma OnlyFullAreClosed<M>(steps: seq<Step<M>>, i: nat, c: nat)
    requires IsRun(Fresh<M>(), steps) && i < |steps|
    requires IsRun(Fresh<M>(), steps[..i]) && IsRun(Fresh<M>(), steps[..i + 1])
    requires c in After(Fresh<M>(), steps[..i]).clients && After(Fresh<M>(), steps[..i]).clients[c].connOpen
    ensures c in After(Fresh<M>(), steps[..i + 1]).clients
    ensures !After(Fresh<M>(), steps[..i + 1]).clients[c].connOpen ==>
      || steps[i] == WriterCloses(c) || steps[i] == ReaderCloses(c)
      || (steps[i] == CloseSlow(c) && WasFull(steps[..i], c))
  {
    RunSplit(Fresh<M>(), steps, i);
    if steps[i] == CloseSlow(c) {
      SlowWereFull(steps[..i], c);
    }
  }
}
