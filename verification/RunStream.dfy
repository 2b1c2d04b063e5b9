/** What a resuming client sees of a run's event stream, and the run, the registry, the
    subscription and the client themselves, which carry out the steps of the model. */
module RunStream {
  import opened Options
  import opened RunStreamModel
  import opened Runs

  // ---------------------------------------------------------------------------
  // One subscription
  // ---------------------------------------------------------------------------

  /** A subscription to a buffer that is still being written. */
  datatype Feed = Feed(buffer: Buffer, sub: Subscription)

  /** Nothing is appended once the run is done. */
  ghost predicate FeedNext(s: Feed, t: Feed) {
    || (!s.buffer.done && exists event: Event :: t == s.(buffer := Published(s.buffer, event)))
    || t == s.(buffer := s.buffer.(done := true))
    || t == s.(sub := Turn(s.buffer, s.sub))
  }

  predicate FeedInv(s: Feed, start: int) {
    var all := Above(s.buffer.frames, start);
    && Numbered(s.buffer)
    && s.sub.sent + s.sub.pending <= all
    && s.sub.after == (if s.sub.sent == [] then start else s.sub.sent[|s.sub.sent| - 1].seqNo)
    && (s.sub.ended ==> s.buffer.done && s.sub.sent == all)
  }

  lemma FeedPublishKeeps(s: Feed, event: Event, start: int)
    requires FeedInv(s, start) && !s.buffer.done
    ensures FeedInv(s.(buffer := Published(s.buffer, event)), start)
  {
    var b := Published(s.buffer, event);
    assert b.frames[..|s.buffer.frames|] == s.buffer.frames;
    assert Above(s.buffer.frames, start) <= Above(b.frames, start);
  }

  lemma FeedYieldKeeps(s: Feed, start: int)
    requires FeedInv(s, start) && s.sub.pending != [] && !s.sub.ended
    ensures FeedInv(s.(sub := Turn(s.buffer, s.sub)), start)
  {
    var sub := Turn(s.buffer, s.sub);
    assert sub.sent + sub.pending == s.sub.sent + s.sub.pending;
  }

  /** What is above the last number yielded is what remains of what was asked for. */
  lemma AboveTheLast(frames: seq<Frame>, start: int, k: nat)
    requires forall i | 0 <= i < |frames| :: frames[i].seqNo == i + 1
    requires 0 < k <= |Above(frames, start)|
    ensures Above(frames, Above(frames, start)[k - 1].seqNo) == Above(frames, start)[k..]
  {
    AboveIsSuffix(frames, start);
    AboveIsSuffix(frames, Above(frames, start)[k - 1].seqNo);
  }

  lemma FeedLookKeeps(s: Feed, start: int)
    requires FeedInv(s, start) && s.sub.pending == []
    ensures FeedInv(s.(sub := Turn(s.buffer, s.sub)), start)
  {
    var all, k := Above(s.buffer.frames, start), |s.sub.sent|;
    assert s.sub.sent + [] == s.sub.sent;
    if k > 0 {
      AboveTheLast(s.buffer.frames, start, k);
    }
    assert s.sub.sent + Above(s.buffer.frames, s.sub.after) == all;
  }

  lemma FeedStepKeeps(s: Feed, t: Feed, start: int)
    requires FeedInv(s, start) && FeedNext(s, t)
    ensures FeedInv(t, start)
  {
    if event: Event :| !s.buffer.done && t == s.(buffer := Published(s.buffer, event)) {
      FeedPublishKeeps(s, event, start);
    } else if t == s.(sub := Turn(s.buffer, s.sub)) {
      if s.sub.pending == [] {
        FeedLookKeeps(s, start);
      } else if !s.sub.ended {
        FeedYieldKeeps(s, start);
      }
    }
  }

  /** From whatever number a subscription starts, it yields exactly the events numbered
      above it, in order, while the buffer grows; and it ends only when the run is done
      and every one of them, the terminal event included, has been yielded. */
  lemma SubscriptionIsExact(buffer: Buffer, start: int, t: Feed)
    requires Numbered(buffer) && Reaches(FeedNext, Feed(buffer, Subscribed(start)), t)
    ensures t.sub.sent <= Above(t.buffer.frames, start)
    ensures t.sub.ended ==> t.buffer.done && t.sub.sent == Above(t.buffer.frames, start)
  {
    var inv := (s: Feed) => FeedInv(s, start);
    forall u, v | inv(u) && FeedNext(u, v) ensures inv(v) {
      FeedStepKeeps(u, v, start);
    }
    InvariantReached(FeedNext, inv, Feed(buffer, Subscribed(start)), t);
  }

  // ---------------------------------------------------------------------------
  // What the client yields
  // ---------------------------------------------------------------------------

  /** The output events of a whole run. */
  function Outputs(b: Buffer): seq<Event> {
    Delivered(b.frames, |b.frames|, {})
  }

  lemma {:induction false} DeliveredGrows(frames: seq<Frame>, n: nat, m: nat, lost: set<int>)
    requires n <= m <= |frames|
    ensures Delivered(frames, n, lost) <= Delivered(frames, m, lost)
  {
    if n < m {
      DeliveredGrows(frames, n, m - 1, lost);
    }
  }

  lemma {:induction false} DeliveredShrinks(frames: seq<Frame>, n: nat, lost: set<int>)
    requires n <= |frames|
    ensures |Delivered(frames, n, lost)| <= |Delivered(frames, n, {})|
    ensures forall k | k in lost && 1 <= k <= n && frames[k - 1].event.Output? ::
      |Delivered(frames, n, lost)| < |Delivered(frames, n, {})|
  {
    if n > 0 {
      DeliveredShrinks(frames, n - 1, lost);
    }
  }

  /** Where the events of `Delivered` are in the buffer. */
  function Positions(frames: seq<Frame>, n: nat, lost: set<int>): seq<int>
    requires n <= |frames|
  {
    if n == 0 then []
    else Positions(frames, n - 1, lost) + if frames[n - 1].event.Output? && n !in lost then [n - 1] else []
  }

  ghost predicate Increasing(at: seq<int>, bound: int) {
    && (forall i | 0 <= i < |at| :: 0 <= at[i] < bound)
    && (forall i, j | 0 <= i < j < |at| :: at[i] < at[j])
  }

  lemma {:induction false} PositionsIncrease(frames: seq<Frame>, n: nat, lost: set<int>)
    requires n <= |frames|
    ensures Increasing(Positions(frames, n, lost), n)
  {
    if n > 0 {
      PositionsIncrease(frames, n - 1, lost);
    }
  }

  lemma {:induction false} PositionsMatch(frames: seq<Frame>, n: nat, lost: set<int>)
    requires n <= |frames|
    ensures var at := Positions(frames, n, lost);
      && |at| == |Delivered(frames, n, lost)|
      && forall i | 0 <= i < |at| :: 0 <= at[i] < n && frames[at[i]].event == Delivered(frames, n, lost)[i]
  {
    if n > 0 {
      PositionsMatch(frames, n - 1, lost);
    }
  }

  lemma {:induction false} PositionsCover(frames: seq<Frame>, n: nat, lost: set<int>, k: nat)
    requires k < n <= |frames| && k + 1 !in lost && frames[k].event.Output?
    ensures k in Positions(frames, n, lost)
  {
    if k < n - 1 {
      PositionsCover(frames, n - 1, lost, k);
    }
  }

  /** However the connections drop, the client yields events of the run in the order of
      their numbers and none twice, and it skips only those whose number it read just
      before a drop. */
  lemma InOrderAtMostOnce(s: State) returns (at: seq<int>)
    requires Reachable(s)
    ensures |at| == |s.client.yielded| && Increasing(at, |s.buffer.frames|)
    ensures forall i | 0 <= i < |at| :: s.buffer.frames[at[i]].event == s.client.yielded[i]
    ensures 0 <= Seen(s.client.lastSeq, s.awaiting) <= |s.buffer.frames|
    ensures forall k | 0 <= k < Seen(s.client.lastSeq, s.awaiting) && s.buffer.frames[k].event.Output? ::
      k in at || k + 1 in s.lost
  {
    ReachableInv(s);
    var n := Seen(s.client.lastSeq, s.awaiting);
    at := Positions(s.buffer.frames, n, s.lost);
    PositionsIncrease(s.buffer.frames, n, s.lost);
    PositionsMatch(s.buffer.frames, n, s.lost);
    forall k | 0 <= k < n && s.buffer.frames[k].event.Output? && k + 1 !in s.lost ensures k in at {
      PositionsCover(s.buffer.frames, n, s.lost, k);
    }
  }

  /** When connections drop only between frames, what the client has yielded is a prefix
      of the run's output events, without gap or duplicate. */
  lemma FrameDropsLoseNothing(s: State)
    requires Reachable(s) && s.lost == {}
    ensures s.client.yielded <= Outputs(s.buffer)
  {
    ReachableInv(s);
    DeliveredGrows(s.buffer.frames, Seen(s.client.lastSeq, s.awaiting), |s.buffer.frames|, {});
  }

  /** A client that has read the completion has yielded the whole run exactly when no
      connection dropped between a frame's id and its data. */
  lemma CompleteIffNothingLost(s: State)
    requires Reachable(s) && s.client.completed
    ensures s.client.yielded == Outputs(s.buffer) <==> s.lost == {}
  {
    ReachableInv(s);
    DeliveredShrinks(s.buffer.frames, |s.buffer.frames|, s.lost);
    if k :| k in s.lost {
      assert !s.buffer.frames[k - 1].event.Started?;
    }
  }

  /** The client returns only after the completion, or when it never learnt the run's
      name, or after the last reconnect it allows itself. */
  lemma WhyItReturns(s: State)
    requires Reachable(s) && s.client.status.Returned?
    ensures s.client.completed || s.client.runId.None? || s.client.reconnects == 5
    ensures s.client.runId.None? ==> s.client.yielded == []
  {
    ReachableInv(s);
    assert s.client.yielded == Delivered(s.buffer.frames, Seen(s.client.lastSeq, s.awaiting), s.lost);
    if s.buffer.frames != [] {
      assert Delivered(s.buffer.frames, 1, s.lost) == [];
    }
  }

  /** When the server has ended the stream and the client has read all of it, the run is
      done, and the client has seen every event and knows of the completion unless it
      lost just that frame. */
  lemma ServedToTheEnd(s: State)
    requires Reachable(s) && s.client.status.Streaming? && s.sub.ended && s.wire == []
    ensures s.buffer.done && !s.awaiting && s.client.lastSeq == |s.buffer.frames|
    ensures s.client.completed <==> |s.buffer.frames| !in s.lost
    ensures s.lost == {} ==> s.client.yielded == Outputs(s.buffer)
  {
    ReachableInv(s);
    assert Lines(s.buffer.frames, s.client.lastSeq, s.sub.after) == [];
  }

  /** Lines and frames still to be handled on a connection. */
  function Remaining(s: State): int {
    6 * (|s.buffer.frames| - s.sub.after) + |s.wire|
      + (if s.sub.pending == [] then 1 else 0) + (if s.sub.ended then 0 else 1)
  }

  /** Once the run is done, serving and reading bring the end of the stream nearer with
      every step, and one of them can be taken until it is there. */
  lemma ServingEnds(s: State, step: Step)
    requires Reachable(s) && s.client.status.Streaming? && s.buffer.done
    requires (step.Serve? && !s.sub.ended) || (step.Deliver? && s.wire != [])
    ensures 0 <= Remaining(Do(s, step)) < Remaining(s)
  {
    ReachableInv(s);
    StepKeeps(s, step);
    AboveIsSuffix(s.buffer.frames, s.sub.after);
  }

  // ---------------------------------------------------------------------------
  // A drop between id and data
  // ---------------------------------------------------------------------------

  lemma ReachOne(s: State, step: Step)
    requires Reachable(s) && Enabled(s, step)
    ensures Reachable(Do(s, step))
  {
    var id :| Reaches(Next, Init(id), s);
    ReachesStep(Next, Init(id), s, Do(s, step));
  }

  function OneOutput(id: RunId, content: Content): Buffer {
    Buffer([Frame(1, Started(id)), Frame(2, Output(content)), Frame(3, Complete("completed"))], 3, true)
  }

  lemma PublishedRun(id: RunId, content: Content) returns (s: State)
    ensures Reachable(s) && s == Init(id).(buffer := OneOutput(id, content))
  {
    s := Init(id);
    ReachesSelf(Next, s);
    ReachOne(s, Publish(Started(id)));
    s := Do(s, Publish(Started(id)));
    ReachOne(s, Publish(Output(content)));
    s := Do(s, Publish(Output(content)));
    ReachOne(s, Publish(Complete("completed")));
    s := Do(s, Publish(Complete("completed")));
    ReachOne(s, MarkDone);
    s := Do(s, MarkDone);
  }

  /** The generator looks, and yields the first two frames. */
  lemma TwoFramesSent(s: State) returns (t: State)
    requires Reachable(s) && s.client.status.Streaming? && s.sub == Subscribed(0) && s.wire == []
    requires Numbered(s.buffer) && |s.buffer.frames| == 3
    ensures Reachable(t)
    ensures t.wire == FrameLines(s.buffer.frames[0]) + FrameLines(s.buffer.frames[1])
    ensures t == s.(sub := t.sub, wire := t.wire)
  {
    AboveIsSuffix(s.buffer.frames, 0);
    ReachOne(s, Serve);
    t := Do(s, Serve);
    ReachOne(t, Serve);
    t := Do(t, Serve);
    ReachOne(t, Serve);
    t := Do(t, Serve);
  }

  lemma FrameRead(s: State, f: Frame, rest: seq<Line>) returns (t: State)
    requires Reachable(s) && s.client.status.Streaming? && s.wire == FrameLines(f) + rest
    ensures Reachable(t)
    ensures t == s.(client := OnLine(OnLine(s.client, Id(f.seqNo)), Payload(f.event)), wire := rest, awaiting := false)
  {
    ReachOne(s, Deliver);
    t := Do(s, Deliver);
    ReachOne(t, Deliver);
    t := Do(t, Deliver);
    ReachOne(t, Deliver);
    t := Do(t, Deliver);
    ReachOne(t, Deliver);
    t := Do(t, Deliver);
    assert t.wire == rest;
  }

  /** The connection drops after the id of the second frame has been read. */
  lemma DroppedAfterId(s: State, content: Content) returns (t: State)
    requires Reachable(s) && s == Init(s.runId).(buffer := OneOutput(s.runId, content))
    ensures Reachable(t)
    ensures t == s.(client := Client(2, Some(s.runId), false, 1, [], Streaming), sub := Subscribed(2), lost := {2})
  {
    var sent := TwoFramesSent(s);
    var read := FrameRead(sent, s.buffer.frames[0], FrameLines(s.buffer.frames[1]));
    ReachOne(read, Deliver);
    t := Do(read, Deliver);
    ReachOne(t, StreamEnd);
    t := Do(t, StreamEnd);
  }

  /** From the third frame on, the generator looks and yields it. */
  lemma LastFrameSent(s: State) returns (t: State)
    requires Reachable(s) && s.client.status.Streaming? && s.sub == Subscribed(2) && s.wire == []
    requires Numbered(s.buffer) && |s.buffer.frames| == 3
    ensures Reachable(t)
    ensures t.wire == FrameLines(s.buffer.frames[2]) + [] && t == s.(sub := t.sub, wire := t.wire)
  {
    AboveIsSuffix(s.buffer.frames, 2);
    ReachOne(s, Serve);
    t := Do(s, Serve);
    ReachOne(t, Serve);
    t := Do(t, Serve);
    assert FrameLines(s.buffer.frames[2]) + [] == FrameLines(s.buffer.frames[2]);
  }

  lemma OutputIsOfRun(id: RunId, content: Content)
    ensures Output(content) in Outputs(OneOutput(id, content))
  {
    DeliveredGrows(OneOutput(id, content).frames, 2, 3, {});
  }

  /** The client takes an event as read when it has read its id, not its data (against
      section 9.2.6 of the WHATWG HTML Standard): dropped in between, the event is never
      asked for again, and the client returns after the completion without it. */
  lemma DropAfterIdLosesEvent(id: RunId, content: Content) returns (t: State)
    ensures Reachable(t) && t.client.status.Returned? && t.client.completed
    ensures Output(content) in Outputs(t.buffer) && t.client.yielded == []
  {
    var s := PublishedRun(id, content);
    t := DroppedAfterId(s, content);
    OutputIsOfRun(id, content);
    hide FrameLines, Outputs, Reachable;
    t := LastFrameSent(t);
    t := FrameRead(t, t.buffer.frames[2], []);
    ReachOne(t, StreamEnd);
    t := Do(t, StreamEnd);
  }
}
