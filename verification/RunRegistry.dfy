/** The run, the registry and the subscription as the server keeps them, and the client's
    loop over connections; each carries out steps of the stream model. */
module RunRegistry {
  import opened Options
  import opened RunStreamModel
  import opened Runs

  class Run {
    var frames: seq<Frame>
    var seqNo: int
    var done: bool
    var finishedAt: Option<real>

    function Buffered(): Buffer
      reads this
    {
      Buffer(frames, seqNo, done)
    }

    constructor ()
      ensures Buffered() == Buffer([], 0, false) && finishedAt == None
    {
      frames, seqNo, done, finishedAt := [], 0, false, None;
    }

    method Append(event: Event) returns (n: int)
      modifies this
      ensures Buffered() == Published(old(Buffered()), event) && n == seqNo
      ensures finishedAt == old(finishedAt)
    {
      seqNo := seqNo + 1;
      frames := frames + [Frame(seqNo, event)];
      n := seqNo;
    }

    method Finish(status: string, now: real)
      modifies this
      ensures Buffered() == Published(old(Buffered()), Complete(status)).(done := true)
      ensures finishedAt == Some(now)
    {
      var _ := Append(Complete(status));
      done := true;
      finishedAt := Some(now);
    }
  }

  /** Seconds for which a finished run can still be asked for. */
  const RUN_TTL: real := 300.0

  class Registry {
    var runs: map<RunId, Run>

    constructor ()
      ensures runs == map[]
    {
      runs := map[];
    }

    predicate Expired(id: RunId, now: real)
      requires id in runs
      reads this, runs[id]
    {
      runs[id].done && runs[id].finishedAt.Some? && now - runs[id].finishedAt.value > RUN_TTL
    }

    /** Drops exactly the runs that finished more than the allowed time ago. */
    method EvictExpired(now: real)
      modifies this
      ensures forall id :: id in runs <==> id in old(runs) && !old(Expired(id, now))
      ensures forall id | id in old(runs) ::
        id !in runs <==>
          var run := old(runs)[id];
          old(run.done) && old(run.finishedAt).Some? && now > old(run.finishedAt).value + 300.0
      ensures forall id | id in runs :: runs[id] == old(runs)[id]
    {
      var expired := set id | id in runs && Expired(id, now);
      ghost var all := expired;
      while expired != {}
        invariant expired <= all
        invariant forall id :: id in runs <==> id in old(runs) && !(id in all && id !in expired)
        invariant forall id | id in runs :: runs[id] == old(runs)[id]
      {
        var id :| id in expired;
        runs := runs - {id};
        expired := expired - {id};
      }
    }

    /** A new run, under its identifier; every run that has not expired is kept. */
    method Create(id: RunId, now: real) returns (run: Run)
      modifies this
      ensures fresh(run) && run.Buffered() == Buffer([], 0, false)
      ensures id in runs && runs[id] == run
      ensures forall other | other != id :: other in runs <==> other in old(runs) && !old(Expired(other, now))
      ensures forall other | other != id && other in runs :: runs[other] == old(runs)[other]
    {
      EvictExpired(now);
      run := new Run();
      runs := runs[id := run];
    }

    /** A run is found until it expires, and not after. */
    method Get(id: RunId, now: real) returns (run: Run?)
      modifies this
      ensures run != null <==> id in old(runs) && !old(Expired(id, now))
      ensures id in old(runs) ==>
        (run == null <==>
          var found := old(runs)[id];
          old(found.done) && old(found.finishedAt).Some? && now > old(found.finishedAt).value + 300.0)
      ensures run != null ==> run == old(runs)[id]
    {
      EvictExpired(now);
      run := if id in runs then runs[id] else null;
    }
  }

  /** The generator behind one connection. `sent` is what it has yielded. */
  class Subscriber {
    const run: Run
    const start: int
    var after: int
    var pending: seq<Frame>
    var sent: seq<Frame>
    var ended: bool

    function Position(): Subscription
      reads this
    {
      Subscription(start, after, pending, sent, ended)
    }

    constructor (run: Run, start: int)
      ensures this.run == run && Position() == Subscribed(start)
    {
      this.run, this.start, after, pending, sent, ended := run, start, start, [], [], false;
    }

    /** What happens between two points where other tasks may run: one pending frame is
        yielded, or the buffer is searched. */
    method Advance()
      requires !ended
      modifies this
      ensures Position() == Turn(run.Buffered(), old(Position()))
    {
      if pending != [] {
        sent := sent + [pending[0]];
        after := pending[0].seqNo;
        pending := pending[1..];
      } else {
        var found := [];
        var i := 0;
        while i < |run.frames|
          invariant 0 <= i <= |run.frames| && found == Above(run.frames[..i], after)
        {
          assert run.frames[..i + 1][..i] == run.frames[..i];
          if run.frames[i].seqNo > after {
            found := found + [run.frames[i]];
          }
          i := i + 1;
        }
        assert run.frames[..i] == run.frames;
        if found == [] && run.done {
          ended := true;
        } else {
          pending := found;
        }
      }
    }
  }

  /** How the server answers one request: with an error status, or with the lines that
      arrive before the stream ends or breaks. */
  datatype Response = Failure | Stream(lines: seq<Line>)

  function OnLines(c: Client, lines: seq<Line>): Client {
    if lines == [] then c else OnLine(OnLines(c, lines[..|lines| - 1]), lines[|lines| - 1])
  }

  /** The client after these responses, the first to the POST and each later one to a
      request that resumes after the number reached. */
  function AfterResponses(c: Client, responses: seq<Response>): Client
    decreases |responses|
  {
    if responses == [] || !c.status.Streaming? then c
    else match responses[0]
      case Failure => c.(status := Exited)
      case Stream(lines) => AfterResponses(OnStreamEnd(OnLines(c, lines)), responses[1..])
  }

  class StreamClient {
    var lastSeq: int
    var runId: Option<RunId>
    var completed: bool
    var reconnects: nat
    var yielded: seq<Event>
    var status: Status

    function View(): Client
      reads this
    {
      Client(lastSeq, runId, completed, reconnects, yielded, status)
    }

    constructor ()
      ensures View() == NewClient()
    {
      lastSeq, runId, completed, reconnects, yielded, status := 0, None, false, 0, [], Streaming;
    }

    method Read(line: Line)
      modifies this
      ensures View() == OnLine(old(View()), line)
    {
      match line {
        case Id(n) => lastSeq := n;
        case Payload(event) =>
          match event {
            case Started(id) => runId := Some(id);
            case Complete(_) => completed := true;
            case Output(_) => yielded := yielded + [event];
          }
        case Skipped =>
      }
    }

    /** The loop over connections, for as long as responses come in. */
    method Follow(responses: seq<Response>)
      modifies this
      ensures View() == AfterResponses(old(View()), responses)
    {
      var k := 0;
      while k < |responses| && status.Streaming?
        invariant 0 <= k <= |responses|
        invariant AfterResponses(View(), responses[k..]) == AfterResponses(old(View()), responses)
      {
        ghost var before := View();
        ghost var rest := responses[k..];
        assert rest[1..] == responses[k + 1..];
        match responses[k] {
          case Failure =>
            status := Exited;
          case Stream(lines) =>
            var i := 0;
            while i < |lines|
              invariant 0 <= i <= |lines| && View() == OnLines(before, lines[..i])
            {
              assert lines[..i + 1][..i] == lines[..i];
              Read(lines[i]);
              i := i + 1;
            }
            assert lines[..i] == lines;
            if completed || runId.None? || reconnects >= MAX_RECONNECTS {
              status := Returned;
            } else {
              reconnects := reconnects + 1;
            }
        }
        k := k + 1;
      }
    }
  }

  /** The outputs among these lines, in order. */
  function OutputsOf(lines: seq<Line>): seq<Event> {
    var n := |lines|;
    if n == 0 then []
    else
      var last := lines[n - 1];
      OutputsOf(lines[..n - 1]) + if last.Payload? && last.event.Output? then [last.event] else []
  }

  /** What these lines make of a client: it takes every output, and knows of the start, of the
      completion and of the last number. */
  lemma {:induction false} LinesRead(c: Client, lines: seq<Line>)
    ensures var read := OnLines(c, lines);
      && read.yielded == c.yielded + OutputsOf(lines)
      && read.reconnects == c.reconnects && read.status == c.status
      && (read.completed <==> c.completed || exists line :: line in lines && line.Payload? && line.event.Complete?)
      && (read.runId.Some? <==> c.runId.Some? || exists line :: line in lines && line.Payload? && line.event.Started?)
      && (read.lastSeq == c.lastSeq || Id(read.lastSeq) in lines)
      && (lines != [] && lines[|lines| - 1].Id? ==> read.lastSeq == lines[|lines| - 1].seqNo)
  {
    var n := |lines|;
    if n == 0 {
      assert c.yielded + [] == c.yielded;
    } else {
      LinesRead(c, lines[..n - 1]);
      assert forall line :: line in lines <==> line in lines[..n - 1] || line == lines[n - 1];
    }
  }

  /** A client whose request fails exits. One whose stream has ended returns if the completion
      has been read, if it never learnt the run's id, or after five reconnects; and otherwise
      it reconnects, so that it makes six requests at most. */
  lemma OneResponse(c: Client, response: Response, rest: seq<Response>)
    requires c.status.Streaming?
    ensures var last := AfterResponses(c, [response] + rest);
      match response
      case Failure => last == c.(status := Exited)
      case Stream(lines) =>
        var read := OnLines(c, lines);
        if read.completed || read.runId.None? || c.reconnects >= 5 then last == read.(status := Returned)
        else last == AfterResponses(read.(reconnects := c.reconnects + 1), rest)
  {
    assert ([response] + rest)[1..] == rest;
    if response.Stream? {
      LinesRead(c, response.lines);
    }
  }

  lemma {:induction false} SixRequestsAtMost(c: Client, responses: seq<Response>)
    requires c.status.Streaming? && c.reconnects <= 5
    ensures AfterResponses(c, responses).status.Streaming? ==> c.reconnects + |responses| <= 5
    decreases |responses|
  {
    if responses != [] {
      var rest := responses[1..];
      assert responses == [responses[0]] + rest;
      OneResponse(c, responses[0], rest);
      if responses[0].Stream? {
        var read := OnLines(c, responses[0].lines);
        LinesRead(c, responses[0].lines);
        if !(read.completed || read.runId.None? || c.reconnects >= 5) {
          SixRequestsAtMost(read.(reconnects := c.reconnects + 1), rest);
        }
      }
    }
  }

  /** A client driven by connections is the client of the stream model: reading the lines
      of a connection one by one and ending it are steps of the machine. */
  lemma {:induction false} LinesAreDeliveries(s: State, lines: seq<Line>, rest: seq<Line>) returns (t: State)
    requires s.wire == lines + rest && s.client.status.Streaming?
    ensures t.client.status.Streaming? && Reaches(Next, s, t) && Reaches(Next, s, Do(t, StreamEnd))
    ensures t.client == OnLines(s.client, lines) && t.wire == rest
    ensures t == s.(client := t.client, wire := t.wire, awaiting := t.awaiting)
    ensures Do(t, StreamEnd).client == OnStreamEnd(OnLines(s.client, lines))
  {
    if lines == [] {
      t := s;
      ReachesSelf(Next, s);
    } else {
      var last := |lines| - 1;
      assert lines + rest == lines[..last] + ([lines[last]] + rest);
      var u := LinesAreDeliveries(s, lines[..last], [lines[last]] + rest);
      t := Do(u, Deliver);
      assert t.wire == rest;
      assert Enabled(u, Deliver);
      ReachesStep(Next, s, u, t);
    }
    assert Enabled(t, StreamEnd);
    ReachesStep(Next, s, t, Do(t, StreamEnd));
  }
}
