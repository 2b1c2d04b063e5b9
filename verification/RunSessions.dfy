/** The client's loop fed by the server: responses that subscriptions of one run send, cut
    off anywhere, take the stream machine along its own steps. */
module RunSessions {
  import opened Options
  import opened RunRegistry
  import opened Runs
  import opened RunStream
  import opened RunStreamModel

  /** What happens on the server's side while a connection lasts, and how many of the lines
      that were sent arrive; or an answer with an error status. */
  datatype Session = Connected(steps: seq<Step>, received: nat) | Refused(steps: seq<Step>)

  predicate ByRun(step: Step) {
    step.Publish? || step.MarkDone?
  }

  predicate ByServer(step: Step) {
    ByRun(step) || step.Serve? || step.KeepAlive?
  }

  function Take(s: State, steps: seq<Step>): State {
    var n := |steps|;
    if n == 0 then s else Do(Take(s, steps[..n - 1]), steps[n - 1])
  }

  predicate CanTake(s: State, steps: seq<Step>) {
    var n := |steps|;
    n > 0 ==> CanTake(s, steps[..n - 1]) && Enabled(Take(s, steps[..n - 1]), steps[n - 1])
  }

  function DeliverAll(s: State, n: nat): State {
    if n == 0 then s else Do(DeliverAll(s, n - 1), Deliver)
  }

  /** The lines of a connection that arrive. */
  function Arriving(s: State, session: Session): nat
    requires session.Connected?
  {
    var sent := |Take(s, session.steps).wire|;
    if session.received < sent then session.received else sent
  }

  /** What the client gets of a session. */
  function Answer(s: State, session: Session): Response {
    match session
    case Refused(_) => Failure
    case Connected(steps, _) => Stream(Take(s, steps).wire[..Arriving(s, session)])
  }

  /** The state of the machine after a session. */
  function AfterSession(s: State, session: Session): State {
    match session
    case Refused(steps) => Do(Take(s, steps), Refuse)
    case Connected(steps, _) => Do(DeliverAll(Take(s, steps), Arriving(s, session)), StreamEnd)
  }

  /** The steps are those of the server, and can be taken. */
  predicate CanHappen(s: State, session: Session) {
    && CanTake(s, session.steps)
    && forall step | step in session.steps :: if session.Refused? then ByRun(step) else ByServer(step)
  }

  /** A session after another, for as long as the client asks for one. */
  function AfterAll(s: State, sessions: seq<Session>): State
    decreases |sessions|
  {
    if sessions == [] || !s.client.status.Streaming? then s
    else AfterAll(AfterSession(s, sessions[0]), sessions[1..])
  }

  function Answers(s: State, sessions: seq<Session>): seq<Response>
    decreases |sessions|
  {
    if sessions == [] || !s.client.status.Streaming? then []
    else [Answer(s, sessions[0])] + Answers(AfterSession(s, sessions[0]), sessions[1..])
  }

  predicate AllCanHappen(s: State, sessions: seq<Session>)
    decreases |sessions|
  {
    sessions == [] || !s.client.status.Streaming?
    || (CanHappen(s, sessions[0]) && AllCanHappen(AfterSession(s, sessions[0]), sessions[1..]))
  }

  /** Nothing has been sent on this connection. */
  predicate IsFresh(s: State) {
    s.sub.sent == [] && s.wire == [] && !s.awaiting
  }

  lemma {:induction false} StepsAreTaken(s: State, steps: seq<Step>)
    requires CanTake(s, steps) && forall step | step in steps :: ByServer(step)
    ensures var t := Take(s, steps);
      && Reaches(Next, s, t) && t.client == s.client && t.awaiting == s.awaiting
      && ((forall step | step in steps :: ByRun(step)) ==> t.sub == s.sub && t.wire == s.wire)
  {
    var n := |steps|;
    if n == 0 {
      ReachesSelf(Next, s);
    } else {
      var before, last := steps[..n - 1], steps[n - 1];
      assert forall step | step in before :: step in steps;
      StepsAreTaken(s, before);
      assert last in steps && Next(Take(s, before), Take(s, steps));
      ReachesStep(Next, s, Take(s, before), Take(s, steps));
    }
  }

  lemma OneLineMore(c: Client, wire: seq<Line>, n: nat)
    requires 0 < n <= |wire|
    ensures OnLines(c, wire[..n]) == OnLine(OnLines(c, wire[..n - 1]), wire[n - 1])
    ensures wire[n - 1..] != [] && wire[n - 1..][0] == wire[n - 1] && wire[n - 1..][1..] == wire[n..]
  {
    assert wire[..n][..n - 1] == wire[..n - 1];
  }

  lemma {:induction false} LinesAreDelivered(s: State, n: nat)
    requires s.client.status.Streaming? && n <= |s.wire|
    ensures var t := DeliverAll(s, n);
      && Reaches(Next, s, t) && t.client.status.Streaming?
      && t.client == OnLines(s.client, s.wire[..n]) && t.wire == s.wire[n..]
  {
    hide OnLines, Reaches;
    if n == 0 {
      NoLines(s.client);
      assert s.wire[..0] == [] && s.wire[0..] == s.wire;
      ReachesSelf(Next, s);
    } else {
      LinesAreDelivered(s, n - 1);
      OneLineMore(s.client, s.wire, n);
      var u := DeliverAll(s, n - 1);
      DeliveryStep(u);
      ReachesStep(Next, s, u, Do(u, Deliver));
    }
  }

  lemma NoLines(c: Client)
    ensures OnLines(c, []) == c
  {
  }

  lemma DeliveryStep(u: State)
    requires u.client.status.Streaming? && u.wire != []
    ensures Next(u, Do(u, Deliver))
    ensures Do(u, Deliver).client == OnLine(u.client, u.wire[0]) && Do(u, Deliver).wire == u.wire[1..]
    ensures Do(u, Deliver).client.status.Streaming?
  {
    assert Enabled(u, Deliver);
  }

  /** One session takes the machine along its steps, and the client as its loop goes. */
  lemma SessionIsRun(s: State, session: Session)
    requires s.client.status.Streaming? && IsFresh(s) && CanHappen(s, session)
    ensures var t := AfterSession(s, session);
      && Reaches(Next, s, t)
      && (t.client.status.Streaming? ==> IsFresh(t))
      && t.client == (match Answer(s, session)
                      case Failure => s.client.(status := Exited)
                      case Stream(lines) => OnStreamEnd(OnLines(s.client, lines)))
  {
    var served := Take(s, session.steps);
    StepsAreTaken(s, session.steps);
    match session {
      case Refused(_) =>
        assert Enabled(served, Refuse) && Next(served, Do(served, Refuse));
        ReachesStep(Next, s, served, Do(served, Refuse));
      case Connected(_, _) =>
        LinesAreDelivered(served, Arriving(s, session));
        var read := DeliverAll(served, Arriving(s, session));
        ReachesJoin(Next, s, served, read);
        assert Enabled(read, StreamEnd) && Next(read, Do(read, StreamEnd));
        ReachesStep(Next, s, read, Do(read, StreamEnd));
    }
  }

  /** Whatever the server does in each session and wherever connections break, the client that
      the loop ends with is that of a state which the machine reaches. */
  lemma {:induction false} SessionsAreRuns(s: State, sessions: seq<Session>)
    requires s.client.status.Streaming? ==> IsFresh(s)
    requires AllCanHappen(s, sessions)
    ensures Reaches(Next, s, AfterAll(s, sessions))
    ensures AfterAll(s, sessions).client == AfterResponses(s.client, Answers(s, sessions))
    decreases |sessions|
  {
    hide Take, CanTake, DeliverAll, Arriving, Reaches;
    if sessions == [] || !s.client.status.Streaming? {
      ReachesSelf(Next, s);
    } else {
      var t := AfterSession(s, sessions[0]);
      SessionIsRun(s, sessions[0]);
      SessionsAreRuns(t, sessions[1..]);
      ReachesJoin(Next, s, t, AfterAll(s, sessions));
      var answers := Answers(s, sessions);
      assert answers[0] == Answer(s, sessions[0]) && answers[1..] == Answers(t, sessions[1..]);
    }
  }

  /** The client's loop from its start, fed by the subscriptions of a run, ends in the client
      of a reachable state, so all that holds of those holds of it: if it has completed, it
      has yielded the whole run exactly when no drop came between id and data. */
  method FollowSessions(client: StreamClient, id: RunId, sessions: seq<Session>)
    requires client.View() == NewClient() && AllCanHappen(Init(id), sessions)
    modifies client
    ensures var end := AfterAll(Init(id), sessions);
      && client.View() == end.client && Reachable(end)
      && (client.completed ==> (client.yielded == Outputs(end.buffer) <==> end.lost == {}))
  {
    SessionsAreRuns(Init(id), sessions);
    var end := AfterAll(Init(id), sessions);
    assert Reachable(end);
    if end.client.completed {
      CompleteIffNothingLost(end);
    }
    client.Follow(Answers(Init(id), sessions));
  }
}
