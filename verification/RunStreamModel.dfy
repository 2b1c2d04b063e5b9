/** The replayable event stream as a state machine: the buffer of a run, the generator
    that serves it from a sequence number on, the lines between them and the client,
    the resuming client, and connections that may drop after any line. */
module RunStreamModel {
  import opened Options
  import opened Runs

  type RunId = string
  type Content(==, !new)

  /** `Started` and `Complete` are the control events, which the client keeps to itself. */
  datatype Event = Started(runId: RunId) | Output(content: Content) | Complete(status: string)

  datatype Frame = Frame(seqNo: int, event: Event)

  // ---------------------------------------------------------------------------
  // Buffer and subscription
  // ---------------------------------------------------------------------------

  datatype Buffer = Buffer(frames: seq<Frame>, seqNo: int, done: bool)

  function Published(b: Buffer, event: Event): Buffer {
    Buffer(b.frames + [Frame(b.seqNo + 1, event)], b.seqNo + 1, b.done)
  }

  /** The buffered frames numbered above `after`. */
  function Above(frames: seq<Frame>, after: int): seq<Frame> {
    if frames == [] then []
    else
      var f := frames[|frames| - 1];
      Above(frames[..|frames| - 1], after) + if f.seqNo > after then [f] else []
  }

  /** `start` is the number asked for, `after` the one reached, `sent` what was yielded. */
  datatype Subscription = Subscription(start: int, after: int, pending: seq<Frame>, sent: seq<Frame>, ended: bool)

  function Subscribed(start: int): Subscription {
    Subscription(start, start, [], [], false)
  }

  /** One turn of the generator: it yields the next pending frame, or else looks for
      pending frames and ends when there are none and the run is done. */
  function Turn(b: Buffer, sub: Subscription): Subscription {
    if sub.ended then sub
    else if sub.pending != [] then
      var f := sub.pending[0];
      sub.(after := f.seqNo, pending := sub.pending[1..], sent := sub.sent + [f])
    else
      var pending := Above(b.frames, sub.after);
      if pending == [] && b.done then sub.(ended := true) else sub.(pending := pending)
  }

  // ---------------------------------------------------------------------------
  // Client
  // ---------------------------------------------------------------------------

  /** A line as the client sorts it; `Skipped` are the event, comment and blank lines. */
  datatype Line = Id(seqNo: int) | Payload(event: Event) | Skipped

  function FrameLines(f: Frame): seq<Line> {
    [Id(f.seqNo), Skipped, Payload(f.event), Skipped]
  }

  datatype Status = Streaming | Returned | Exited

  datatype Client = Client(
    lastSeq: int,
    runId: Option<RunId>,
    completed: bool,
    reconnects: nat,
    yielded: seq<Event>,
    status: Status)

  const MAX_RECONNECTS: nat := 5

  function NewClient(): Client {
    Client(0, None, false, 0, [], Streaming)
  }

  function OnLine(c: Client, line: Line): Client {
    match line
    case Id(n) => c.(lastSeq := n)
    case Payload(Started(id)) => c.(runId := Some(id))
    case Payload(Complete(_)) => c.(completed := true)
    case Payload(Output(_)) => c.(yielded := c.yielded + [line.event])
    case Skipped => c
  }

  /** The stream has ended, by the server or by a transport error. */
  function OnStreamEnd(c: Client): Client {
    if c.completed || c.runId.None? || c.reconnects >= MAX_RECONNECTS then c.(status := Returned)
    else c.(reconnects := c.reconnects + 1)
  }

  // ---------------------------------------------------------------------------
  // Machine
  // ---------------------------------------------------------------------------

  /** `wire` holds the lines sent and not yet delivered. `awaiting` says that the client
      has read the id of a frame and not yet its data; `lost` collects the numbers of the
      frames for which the connection dropped just then. */
  datatype State = State(
    runId: RunId,
    buffer: Buffer,
    sub: Subscription,
    wire: seq<Line>,
    client: Client,
    awaiting: bool,
    lost: set<int>)

  function Init(runId: RunId): State {
    State(runId, Buffer([], 0, false), Subscribed(0), [], NewClient(), false, {})
  }

  datatype Step =
    | Publish(event: Event)
    | MarkDone
    | Serve
    | KeepAlive
    | Deliver
    | StreamEnd
    | Refuse

  predicate Terminated(frames: seq<Frame>) {
    frames != [] && frames[|frames| - 1].event.Complete?
  }

  /** A run publishes its start, then outputs, then its completion, and is then done. */
  predicate Enabled(s: State, step: Step) {
    match step
    case Publish(event) =>
      && !Terminated(s.buffer.frames)
      && (if s.buffer.frames == [] then event == Started(s.runId) else !event.Started?)
    case MarkDone => Terminated(s.buffer.frames)
    case Serve => s.client.status.Streaming?
    case KeepAlive => s.client.status.Streaming?
    case Deliver => s.client.status.Streaming? && s.wire != []
    case StreamEnd => s.client.status.Streaming?
    case Refuse => s.client.status.Streaming? && s.sub.sent == [] && s.wire == [] && !s.awaiting
  }

  function Do(s: State, step: Step): State {
    match step
    case Publish(event) => s.(buffer := Published(s.buffer, event))
    case MarkDone => s.(buffer := s.buffer.(done := true))
    case Serve =>
      s.(sub := Turn(s.buffer, s.sub),
         wire := if !s.sub.ended && s.sub.pending != [] then s.wire + FrameLines(s.sub.pending[0]) else s.wire)
    case KeepAlive => s.(wire := s.wire + [Skipped])
    case Deliver => if s.wire == [] then s else Delivering(s, s.wire[0]).(wire := s.wire[1..])
    case StreamEnd => Reconnected(s, OnStreamEnd(s.client))
    case Refuse => s.(client := s.client.(status := Exited))
  }

  function Delivering(s: State, line: Line): State {
    s.(client := OnLine(s.client, line), awaiting := line.Id? || (s.awaiting && !line.Payload?))
  }

  /** Lines on the wire are gone, and a new subscription starts at the client's number. */
  function Reconnected(s: State, client: Client): State {
    s.(client := client, sub := Subscribed(client.lastSeq), wire := [], awaiting := false,
       lost := if s.awaiting then s.lost + {client.lastSeq} else s.lost)
  }

  ghost predicate Next(s: State, t: State) {
    exists step: Step :: Enabled(s, step) && t == Do(s, step)
  }

  ghost predicate Reachable(s: State) {
    exists id :: Reaches(Next, Init(id), s)
  }

  // ---------------------------------------------------------------------------
  // Invariant
  // ---------------------------------------------------------------------------

  /** Sequence numbers are exactly 1 to n. */
  predicate Numbered(b: Buffer) {
    b.seqNo == |b.frames| && forall i | 0 <= i < |b.frames| :: b.frames[i].seqNo == i + 1
  }

  /** The start is the first event and no other, the completion the last and no other. */
  predicate Framed(b: Buffer, id: RunId) {
    && (forall i | 0 <= i < |b.frames| ::
          && (if i == 0 then b.frames[i].event == Started(id) else !b.frames[i].event.Started?)
          && (b.frames[i].event.Complete? ==> i == |b.frames| - 1))
    && (b.done ==> Terminated(b.frames))
  }

  /** What is pending is the stretch of the buffer that follows what was sent. */
  predicate Serving(b: Buffer, sub: Subscription) {
    && 0 <= sub.after <= sub.after + |sub.pending| <= |b.frames|
    && sub.pending == b.frames[sub.after..sub.after + |sub.pending|]
    && (sub.ended ==> b.done && sub.after == |b.frames|)
  }

  function Core(wire: seq<Line>): seq<Line> {
    if wire == [] then []
    else if wire[0].Skipped? then Core(wire[1..])
    else [wire[0]] + Core(wire[1..])
  }

  /** The id and data lines of the frames numbered above `i` and up to `j`. */
  function Lines(frames: seq<Frame>, i: nat, j: nat): seq<Line>
    requires j <= |frames|
    decreases j
  {
    if j <= i then []
    else Lines(frames, i, j - 1) + [Id(j), Payload(frames[j - 1].event)]
  }

  /** The wire holds what the subscription has sent and the client not yet read. */
  predicate InFlight(b: Buffer, sub: Subscription, wire: seq<Line>, lastSeq: int, awaiting: bool) {
    && 0 <= lastSeq <= sub.after <= |b.frames|
    && (awaiting ==> 0 < lastSeq)
    && Core(wire) ==
         (if awaiting then [Payload(b.frames[lastSeq - 1].event)] else []) + Lines(b.frames, lastSeq, sub.after)
  }

  /** The output events among the first `n`, without those whose number is in `lost`. */
  function Delivered(frames: seq<Frame>, n: nat, lost: set<int>): seq<Event>
    requires n <= |frames|
  {
    if n == 0 then []
    else
      var f := frames[n - 1];
      Delivered(frames, n - 1, lost) + if f.event.Output? && n !in lost then [f.event] else []
  }

  /** How many events the client is through with. */
  function Seen(lastSeq: int, awaiting: bool): int {
    if awaiting then lastSeq - 1 else lastSeq
  }

  predicate Read(b: Buffer, c: Client, awaiting: bool, lost: set<int>) {
    var n := Seen(c.lastSeq, awaiting);
    && 0 <= n <= c.lastSeq <= |b.frames|
    && (forall k | k in lost :: 1 <= k <= n)
    && c.yielded == Delivered(b.frames, n, lost)
  }

  predicate Controls(b: Buffer, id: RunId, c: Client, awaiting: bool, lost: set<int>) {
    var n := Seen(c.lastSeq, awaiting);
    && (c.runId.Some? ==> c.runId.value == id)
    && (c.runId.Some? <==> 1 <= n && 1 !in lost)
    && (c.runId.None? ==> n <= 1)
    && (c.completed <==> n == |b.frames| && Terminated(b.frames) && n !in lost)
    && (c.status.Streaming? || c.completed ==> 1 !in lost)
    && c.reconnects <= MAX_RECONNECTS
    && (c.status.Returned? ==> c.completed || c.runId.None? || c.reconnects == MAX_RECONNECTS)
    && (!c.status.Streaming? ==> !awaiting)
  }

  predicate Inv(s: State) {
    && Numbered(s.buffer)
    && Framed(s.buffer, s.runId)
    && (s.client.status.Streaming? ==>
          && Serving(s.buffer, s.sub)
          && InFlight(s.buffer, s.sub, s.wire, s.client.lastSeq, s.awaiting))
    && Read(s.buffer, s.client, s.awaiting, s.lost)
    && Controls(s.buffer, s.runId, s.client, s.awaiting, s.lost)
  }

  // ---------------------------------------------------------------------------
  // Buffers grow at the end
  // ---------------------------------------------------------------------------

  lemma {:induction false} AboveIsSuffix(frames: seq<Frame>, after: int)
    requires forall i | 0 <= i < |frames| :: frames[i].seqNo == i + 1
    ensures Above(frames, after) ==
      if after < 0 then frames else if after <= |frames| then frames[after..] else []
  {
    if frames != [] {
      AboveIsSuffix(frames[..|frames| - 1], after);
      assert frames == frames[..|frames| - 1] + [frames[|frames| - 1]];
    }
  }

  lemma {:induction false} LinesOfLonger(frames: seq<Frame>, f: Frame, i: nat, j: nat)
    requires j <= |frames|
    ensures Lines(frames + [f], i, j) == Lines(frames, i, j)
    decreases j
  {
    if j > i {
      LinesOfLonger(frames, f, i, j - 1);
    }
  }

  lemma {:induction false} LinesFromFront(frames: seq<Frame>, i: nat, j: nat)
    requires i < j <= |frames|
    ensures Lines(frames, i, j) == [Id(i + 1), Payload(frames[i].event)] + Lines(frames, i + 1, j)
    decreases j
  {
    if i + 1 < j {
      LinesFromFront(frames, i, j - 1);
    }
  }

  lemma {:induction false} DeliveredOfLonger(frames: seq<Frame>, f: Frame, n: nat, lost: set<int>)
    requires n <= |frames|
    ensures Delivered(frames + [f], n, lost) == Delivered(frames, n, lost)
  {
    if n > 0 {
      DeliveredOfLonger(frames, f, n - 1, lost);
    }
  }

  lemma {:induction false} DeliveredIgnoresLater(frames: seq<Frame>, n: nat, lost: set<int>, k: int)
    requires n <= |frames| && n < k
    ensures Delivered(frames, n, lost + {k}) == Delivered(frames, n, lost)
  {
    if n > 0 {
      DeliveredIgnoresLater(frames, n - 1, lost, k);
    }
  }

  lemma {:induction false} CoreAppend(a: seq<Line>, b: seq<Line>)
    ensures Core(a + b) == Core(a) + Core(b)
  {
    if a == [] {
      assert a + b == b;
    } else {
      assert (a + b)[1..] == a[1..] + b;
      CoreAppend(a[1..], b);
    }
  }

  lemma CoreOfFrame(wire: seq<Line>, f: Frame)
    ensures Core(wire + FrameLines(f)) == Core(wire) + [Id(f.seqNo), Payload(f.event)]
  {
    var id, payload := [Id(f.seqNo), Skipped], [Payload(f.event), Skipped];
    assert FrameLines(f) == id + payload;
    CoreAppend(wire, FrameLines(f));
    CoreAppend(id, payload);
    assert id[1..] == [Skipped] && payload[1..] == [Skipped];
  }

  // ---------------------------------------------------------------------------
  // Each step keeps the invariant
  // ---------------------------------------------------------------------------

  lemma PublishKeeps(s: State, event: Event)
    requires Inv(s) && Enabled(s, Publish(event))
    ensures Inv(Do(s, Publish(event)))
  {
    hide Core, Lines, Delivered, Above;
    var f := Frame(s.buffer.seqNo + 1, event);
    DeliveredOfLonger(s.buffer.frames, f, Seen(s.client.lastSeq, s.awaiting), s.lost);
    if s.client.status.Streaming? {
      LinesOfLonger(s.buffer.frames, f, s.client.lastSeq, s.sub.after);
    }
  }

  lemma SendKeeps(s: State)
    requires Inv(s) && Enabled(s, Serve) && !s.sub.ended && s.sub.pending != []
    ensures Inv(Do(s, Serve))
  {
    var t := Do(s, Serve);
    var f := s.sub.pending[0];
    assert f == s.buffer.frames[s.sub.after];
    CoreOfFrame(s.wire, f);
    assert InFlight(t.buffer, t.sub, t.wire, t.client.lastSeq, t.awaiting);
    assert Serving(t.buffer, t.sub);
  }

  lemma LookKeeps(b: Buffer, sub: Subscription)
    requires Numbered(b) && Serving(b, sub) && sub.pending == []
    ensures Serving(b, Turn(b, sub)) && Turn(b, sub).after == sub.after
  {
    AboveIsSuffix(b.frames, sub.after);
  }

  lemma ServeKeeps(s: State)
    requires Inv(s) && Enabled(s, Serve)
    ensures Inv(Do(s, Serve))
  {
    if !s.sub.ended && s.sub.pending != [] {
      SendKeeps(s);
    } else if s.sub.pending == [] {
      LookKeeps(s.buffer, s.sub);
    }
  }

  lemma KeepAliveKeeps(s: State)
    requires Inv(s) && Enabled(s, KeepAlive)
    ensures Inv(Do(s, KeepAlive))
  {
    CoreAppend(s.wire, [Skipped]);
  }

  /** The next id or data line is the one the client's number calls for. */
  lemma NextLine(s: State)
    requires Inv(s) && Enabled(s, Deliver) && !s.wire[0].Skipped?
    ensures s.awaiting ==>
      && s.wire[0] == Payload(s.buffer.frames[s.client.lastSeq - 1].event)
      && Core(s.wire[1..]) == Lines(s.buffer.frames, s.client.lastSeq, s.sub.after)
    ensures !s.awaiting ==>
      && s.client.lastSeq < s.sub.after
      && s.wire[0] == Id(s.client.lastSeq + 1)
      && Core(s.wire[1..]) == [Payload(s.buffer.frames[s.client.lastSeq].event)]
           + Lines(s.buffer.frames, s.client.lastSeq + 1, s.sub.after)
  {
    var core := Core(s.wire);
    assert core[0] == s.wire[0] && core[1..] == Core(s.wire[1..]);
    if !s.awaiting && s.client.lastSeq < s.sub.after {
      LinesFromFront(s.buffer.frames, s.client.lastSeq, s.sub.after);
    }
  }

  lemma DeliverIdKeeps(s: State)
    requires Inv(s) && Enabled(s, Deliver) && s.wire[0].Id?
    ensures Inv(Do(s, Deliver))
  {
    NextLine(s);
  }

  lemma DeliverPayloadKeeps(s: State)
    requires Inv(s) && Enabled(s, Deliver) && s.wire[0].Payload?
    ensures Inv(Do(s, Deliver))
  {
    NextLine(s);
    hide Core, Lines, Serving, Framed;
    assert s.awaiting;
    var t := Do(s, Deliver);
    var n := s.client.lastSeq;
    assert n !in s.lost;
    assert Read(t.buffer, t.client, t.awaiting, t.lost);
    assert Controls(t.buffer, t.runId, t.client, t.awaiting, t.lost);
  }

  lemma DeliverKeeps(s: State)
    requires Inv(s) && Enabled(s, Deliver)
    ensures Inv(Do(s, Deliver))
  {
    match s.wire[0]
    case Id(_) => DeliverIdKeeps(s);
    case Payload(_) => DeliverPayloadKeeps(s);
    case Skipped =>
  }

  lemma StreamEndKeeps(s: State)
    requires Inv(s) && Enabled(s, StreamEnd)
    ensures Inv(Do(s, StreamEnd))
  {
    if s.awaiting {
      DeliveredIgnoresLater(s.buffer.frames, s.client.lastSeq - 1, s.lost, s.client.lastSeq);
    }
  }

  lemma StepKeeps(s: State, step: Step)
    requires Inv(s) && Enabled(s, step)
    ensures Inv(Do(s, step))
  {
    match step
    case Publish(event) => PublishKeeps(s, event);
    case Serve => ServeKeeps(s);
    case KeepAlive => KeepAliveKeeps(s);
    case Deliver => DeliverKeeps(s);
    case StreamEnd => StreamEndKeeps(s);
    case MarkDone =>
    case Refuse =>
  }

  /** What holds of every reachable state. */
  lemma ReachableInv(s: State)
    requires Reachable(s)
    ensures Inv(s)
  {
    var id :| Reaches(Next, Init(id), s);
    forall u, v | Inv(u) && Next(u, v) ensures Inv(v) {
      var step :| Enabled(u, step) && v == Do(u, step);
      StepKeeps(u, step);
    }
    InvariantReached(Next, Inv, Init(id), s);
  }
}
