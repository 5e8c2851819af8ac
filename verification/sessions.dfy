/** Everything a program can do with a client, in any order, and what holds in every state it reaches. */
module Sessions {
  import opened Bytes
  import opened Network
  import opened Registry
  import opened Machine
  import opened Events
  import opened History
  import opened Dispatching
  import opened Clients
  import opened Alignment
  import opened Packet
  import opened Wire

  /** A step of a program: a call, or a run of the event loop with the user's callbacks. */
  datatype Step = Run(call: Call) | Listen(handler: Handler)

  /** What a step returns. */
  datatype Outcome = Called(result: Result) | Listened(status: int)

  function Advance(s: State, step: Step): (State, Outcome) {
    match step
    case Run(call) =>
      var (t, result) := Execute(s, call);
      (t, Called(result))
    case Listen(h) =>
      var (t, result) := Process(h, s);
      (t, Listened(result))
  }

  function AfterAll(s: State, steps: seq<Step>): State
    decreases |steps|
  {
    if steps == [] then s else AfterAll(Advance(s, steps[0]).0, steps[1..])
  }

  function Outcomes(s: State, steps: seq<Step>): seq<Outcome>
    decreases |steps|
  {
    if steps == [] then []
    else
      var (t, outcome) := Advance(s, steps[0]);
      [outcome] + Outcomes(t, steps[1..])
  }

  /** A client that has done nothing yet. */
  function Fresh(core: Core): State {
    State(core, [], [], [], [], [], [], [], [])
  }

  lemma StepTracks(s: State, step: Step)
    requires Tracks(s)
    ensures Tracks(Advance(s, step).0)
  {
    hide Tracks, Execute, Loop;
    match step {
      case Run(call) => ExecuteTracks(s, call);
      case Listen(h) =>
        CoreTracks(s, Cleared(s).core);
        LoopTracks(h, Cleared(s));
    }
  }

  lemma {:induction false} StepsTrack(s: State, steps: seq<Step>)
    requires Tracks(s)
    ensures Tracks(AfterAll(s, steps))
    decreases |steps|
  {
    hide Tracks, Advance;
    if steps != [] {
      StepTracks(s, steps[0]);
      StepsTrack(Advance(s, steps[0]).0, steps[1..]);
    }
  }

  /** In every state a program can reach from a fresh connection - whatever the server sends, wherever
      reads and writes fail, and whatever the callbacks do - the records of a name are those subscribed
      since its last successful unsubscription, newest first; an event of the name goes to the newest of
      them; every stored string is terminated and padded; and each record ever added is either still
      registered or has been freed, exactly once. */
  lemma EveryReachableState(core: Core, steps: seq<Step>, name: CString)
    ensures var s := AfterAll(Fresh(core), steps);
      && AllSucceeded(s.history)
      && AllWellFormed(s.queues) && AllWellFormed(s.channels) && AllChannels(s.channels)
      && Named(s.queues, name) == LiveQueues(s.history, name)
      && Named(s.channels, name) == LiveChannels(s.history, name)
      && (var live := LiveQueues(s.history, name);
          Newest(s.queues, name) == if live == [] then None else Some(live[0]))
      && (var live := LiveChannels(s.history, name);
          Newest(s.channels, name) == if live == [] then None else Some(live[0]))
      && multiset(s.queues) + multiset(s.freedQueues) == multiset(QueuesAdded(s.history))
      && multiset(s.channels) + multiset(s.freedChannels) == multiset(ChannelsAdded(s.history))
  {
    hide Advance, AfterAll, AllWellFormed, AllChannels, AllSucceeded, Named, LiveQueues, LiveChannels,
      QueuesAdded, ChannelsAdded;
    FreshTracks(core);
    StepsTrack(Fresh(core), steps);
    NewestIsLive(AfterAll(Fresh(core), steps), name);
  }

  // ----- what a session is -----

  function Runs(calls: seq<Call>): (steps: seq<Step>)
    ensures |steps| == |calls|
  {
    seq(|calls|, i requires 0 <= i < |calls| => Step.Run(calls[i]))
  }

  /** A session of calls only is the run of those calls, with their results. */
  lemma {:induction false} CallsOnly(s: State, calls: seq<Call>)
    ensures var (t, results) := ExecuteAll(s, calls);
      && AfterAll(s, Runs(calls)) == t
      && |results| == |calls| && |Outcomes(s, Runs(calls))| == |calls|
      && forall i :: 0 <= i < |calls| ==> Outcomes(s, Runs(calls))[i] == Called(results[i])
    decreases |calls|
  {
    hide Execute;
    if calls != [] {
      CallsOnly(Execute(s, calls[0]).0, calls[1..]);
      assert Runs(calls)[0] == Step.Run(calls[0]) && Runs(calls)[1..] == Runs(calls[1..]);
    }
  }

  /** A session goes on from where its first steps ended; and an event loop in it is emq_process. */
  lemma {:induction false} SessionsCompose(s: State, first: seq<Step>, second: seq<Step>)
    ensures AfterAll(s, first + second) == AfterAll(AfterAll(s, first), second)
    ensures Outcomes(s, first + second) == Outcomes(s, first) + Outcomes(AfterAll(s, first), second)
    decreases |first|
  {
    hide Advance;
    if first == [] {
      assert first + second == second;
    } else {
      assert (first + second)[0] == first[0] && (first + second)[1..] == first[1..] + second;
      SessionsCompose(Advance(s, first[0]).0, first[1..], second);
    }
  }

  lemma LoopOnly(s: State, h: Handler)
    ensures AfterAll(s, [Listen(h)]) == Process(h, s).0
    ensures Outcomes(s, [Listen(h)]) == [Listened(Process(h, s).1)]
  {
    hide Process;
    assert [Listen(h)][1..] == [];
  }

  // ----- every callback of a session -----

  /** The states in which the steps of a session began the turns that made a callback. */
  function TurnsOf(s: State, steps: seq<Step>): seq<State>
    decreases |steps|
  {
    if steps == [] then []
    else
      (match steps[0]
       case Run(_) => []
       case Listen(h) => Turns(h, Cleared(s))) + TurnsOf(Advance(s, steps[0]).0, steps[1..])
  }

  lemma PrefixesCompose<T>(a: seq<T>, b: seq<T>, c: seq<T>)
    requires a <= b <= c
    ensures a <= c
  {
    assert c[..|b|][..|a|] == c[..|a|];
  }

  lemma HappenedBefore(turn: State, t: State, u: State)
    requires Happened(turn, t) && t.log <= u.log && t.history <= u.history
    ensures Happened(turn, u)
  {
    hide Owes, AllSucceeded;
    PrefixesCompose(turn.log, t.log, u.log);
    PrefixesCompose(turn.history, t.history, u.history);
    assert u.log[|turn.log|] == t.log[|turn.log|];
  }

  lemma AllCompose(s: State, first: seq<State>, t: State, second: seq<State>, u: State)
    requires AllHappened(s, first, t) && AllHappened(t, second, u)
    ensures AllHappened(s, first + second, u)
  {
    hide Happened;
    PrefixesCompose(s.log, t.log, u.log);
    PrefixesCompose(s.history, t.history, u.history);
    var turns := first + second;
    forall k | 0 <= k < |turns|
      ensures |turns[k].log| == |s.log| + k && Happened(turns[k], u)
    {
      if k < |first| {
        HappenedBefore(first[k], t, u);
      } else {
        assert turns[k] == second[k - |first|];
      }
    }
  }

  lemma StepHappened(s: State, step: Step)
    requires Tracks(s)
    ensures AllHappened(s, if step.Listen? then Turns(step.handler, Cleared(s)) else [], Advance(s, step).0)
  {
    hide Tracks, Execute, Loop, Turns, Happened;
    match step {
      case Run(call) => NoTurn(s, Advance(s, step).0);
      case Listen(h) =>
        CoreTracks(s, Cleared(s).core);
        LoopNames(h, Cleared(s));
    }
  }

  lemma {:induction false} StepsHappened(s: State, steps: seq<Step>)
    requires Tracks(s)
    ensures AllHappened(s, TurnsOf(s, steps), AfterAll(s, steps))
    decreases |steps|
  {
    hide Tracks, Advance, AllHappened;
    if steps == [] {
      NoTurn(s, s);
    } else {
      var t := Advance(s, steps[0]).0;
      StepTracks(s, steps[0]);
      StepHappened(s, steps[0]);
      StepsHappened(t, steps[1..]);
      AllCompose(s, if steps[0].Listen? then Turns(steps[0].handler, Cleared(s)) else [], t,
                 TurnsOf(t, steps[1..]), AfterAll(s, steps));
    }
  }

  /** The callbacks of a session are, one for one and in order, those that the turns of its event loops owed: the
      k-th was made for the name and kind of the event that its turn read, to the newest subscription of that name
      then live - live by the commands that had succeeded when that turn began, after k callbacks. */
  lemma EveryCallback(core: Core, steps: seq<Step>)
    ensures var s, turns := AfterAll(Fresh(core), steps), TurnsOf(Fresh(core), steps);
      && |s.log| == |turns|
      && forall k :: 0 <= k < |turns| ==>
        && turns[k].log == s.log[..k] && turns[k].history <= s.history
        && AllSucceeded(turns[k].history) && Owes(turns[k], s.log[k])
  {
    hide AfterAll, TurnsOf, Owes, AllSucceeded, Tracks;
    FreshTracks(core);
    StepsHappened(Fresh(core), steps);
    var s, turns := AfterAll(Fresh(core), steps), TurnsOf(Fresh(core), steps);
    forall k | 0 <= k < |turns|
      ensures turns[k].log == s.log[..k] && turns[k].history <= s.history
      ensures AllSucceeded(turns[k].history) && Owes(turns[k], s.log[k])
    {
      assert Happened(turns[k], s);
    }
  }

  // ----- every request of a session -----

  lemma StepFaithful(s: State, step: Step, taken: bool)
    requires Faithful(s, taken)
    ensures Faithful(Advance(s, step).0, taken)
  {
    hide Faithful, Execute, Loop, Cleared;
    match step {
      case Run(call) => ExecuteFaithful(s, call, taken);
      case Listen(h) =>
        StatusFaithful(s, OK, taken);
        LoopFaithful(h, Cleared(s), taken);
    }
  }

  lemma {:induction false} StepsFaithful(s: State, steps: seq<Step>, taken: bool)
    requires Faithful(s, taken)
    ensures Faithful(AfterAll(s, steps), taken)
    decreases |steps|
  {
    hide Faithful, Advance;
    if steps != [] {
      StepFaithful(s, steps[0], taken);
      StepsFaithful(Advance(s, steps[0]).0, steps[1..], taken);
    }
  }

  /** After any session, whatever it was answered, the request buffer is unused or holds exactly the frame of the
      last call whose arguments were accepted, the callbacks' calls included, and the history is that of the commands
      among the calls that succeeded. When the kernel takes all that is
      written, the wire holds exactly the requests of all calls in the order they were made, and the peer, reading
      it from its start, recovers them, provided no message is so large that its frame's length wraps. */
  lemma EveryRequest(core: Core, steps: seq<Step>)
    requires core.frame == []
    ensures var s := AfterAll(Fresh(core), steps);
      && s.core.frame == LastFrame(s.calls)
      && s.history == SuccessesOf(s.calls)
      && (core.out == Outbound([], [], []) ==>
            && s.core.out == Outbound(EncodeRequests(RequestsOf(s.calls)), [], [])
            && (AllValid(RequestsOf(s.calls)) ==>
                  DecodeRequests(s.core.out.wire) == Some(RequestsOf(s.calls))))
  {
    hide AfterAll, RequestsOf, SuccessesOf, LastFrame, EncodeRequests, DecodeRequests, AllValid;
    var s, taken := AfterAll(Fresh(core), steps), core.out == Outbound([], [], []);
    NothingMade(core);
    StepsFaithful(Fresh(core), steps, taken);
    if AllValid(RequestsOf(s.calls)) { RequestsRoundTrip(RequestsOf(s.calls)); }
  }

  lemma NothingMade(core: Core)
    requires core.frame == []
    ensures Faithful(Fresh(core), core.out == Outbound([], [], []))
  {
  }

  // ----- the same on the heap -----

  method TakeStep(client: Client, step: Step) returns (outcome: Outcome)
    requires client.Valid()
    modifies client.Footprint()
    ensures client.Valid() && client.request == old(client.request)
    ensures fresh(client.Footprint() - old(client.Footprint()))
    ensures (client.State(), outcome) == Advance(old(client.State()), step)
  {
    hide Client.Valid, Client.State, Client.Footprint, Execute, Process;
    match step {
      case Run(call) =>
        var result := client.Call(call);
        outcome := Called(result);
      case Listen(h) =>
        var result := client.Process(h);
        outcome := Listened(result);
    }
  }

  method TakeSteps(client: Client, steps: seq<Step>) returns (outcomes: seq<Outcome>)
    requires client.Valid()
    modifies client.Footprint()
    ensures client.Valid() && client.request == old(client.request)
    ensures fresh(client.Footprint() - old(client.Footprint()))
    ensures client.State() == AfterAll(old(client.State()), steps)
    ensures outcomes == Outcomes(old(client.State()), steps)
  {
    hide Client.Valid, Client.State, Advance, AfterAll, Outcomes;
    outcomes := [];
    var i := 0;
    StepsFrom(old(client.State()), steps, 0);
    while i < |steps|
      invariant 0 <= i <= |steps|
      invariant client.Valid() && client.request == old(client.request)
      invariant fresh(client.Footprint() - old(client.Footprint()))
      invariant AfterAll(client.State(), steps[i..]) == AfterAll(old(client.State()), steps)
      invariant outcomes + Outcomes(client.State(), steps[i..]) == Outcomes(old(client.State()), steps)
    {
      StepsFrom(client.State(), steps, i);
      ghost var more := Outcomes(client.State(), steps[i..]);
      ghost var before := outcomes;
      var outcome := TakeStep(client, steps[i]);
      outcomes := outcomes + [outcome];
      i := i + 1;
      Associate(before, [outcome], Outcomes(client.State(), steps[i..]));
    }
    StepsFrom(client.State(), steps, i);
  }

  lemma Associate(a: seq<Outcome>, b: seq<Outcome>, c: seq<Outcome>)
    ensures (a + b) + c == a + (b + c)
  {
  }

  lemma StepsFrom(s: State, steps: seq<Step>, i: nat)
    requires i <= |steps|
    ensures steps[0..] == steps
    ensures if i == |steps| then AfterAll(s, steps[i..]) == s && Outcomes(s, steps[i..]) == []
      else
        && AfterAll(s, steps[i..]) == AfterAll(Advance(s, steps[i]).0, steps[i + 1..])
        && Outcomes(s, steps[i..]) == [Advance(s, steps[i]).1] + Outcomes(Advance(s, steps[i]).0, steps[i + 1..])
  {
    hide Advance;
    if i < |steps| { assert steps[i..][1..] == steps[i + 1..]; }
  }

  /** A whole session on the heap: a client is made, takes any steps, and is released. Its calls return what
      the state machine says, and its free handlers are given every record ever subscribed, exactly once. */
  method Session(i: Inbound, o: Outbound, steps: seq<Step>) returns (client: Client, outcomes: seq<Outcome>)
    ensures fresh(client) && client.Buffered()
    ensures var core := Core(OK, NO_ERROR, [], false, i, o); var end := AfterAll(Fresh(core), steps);
      && outcomes == Outcomes(Fresh(core), steps)
      && client.history == end.history && client.log == end.log && client.calls == end.calls
      && AllSucceeded(end.history)
      && client.socket.outbound == end.core.out && client.request[..client.pos] == end.core.frame
      && client.queueSubscriptions.freed == end.freedQueues + end.queues
      && client.channelSubscriptions.freed == end.freedChannels + end.channels
      && multiset(client.queueSubscriptions.freed) == multiset(QueuesAdded(end.history))
      && multiset(client.channelSubscriptions.freed) == multiset(ChannelsAdded(end.history))
  {
    hide AfterAll, Outcomes, Client.Valid, Tracks, AllSucceeded, QueuesAdded, ChannelsAdded;
    ghost var core := Core(OK, NO_ERROR, [], false, i, o);
    client := new Client(i, o);
    outcomes := TakeSteps(client, steps);
    FreshTracks(core);
    StepsTrack(Fresh(core), steps);
    client.Release();
  }

  /** emq_process on a live connection that delivers well-formed events and then ends, split into reads of
      any sizes, with callbacks that keep to noack mode: the client ends as the run over the events does. */
  method ListenTo(client: Client, h: Handler, ghost es: seq<Event>) returns (result: int)
    requires client.Valid() && AllValidEvents(es)
    requires client.State() == WithInput(client.State(), EncodeEvents(es))
    requires QuietRun(h, Cleared(client.State()), es)
    modifies client.Footprint()
    ensures client.Valid() && AllValidEvents(Dispatch(h, Cleared(old(client.State())), es).rest)
    ensures var run := Dispatch(h, Cleared(old(client.State())), es);
      (client.State(), result) ==
      match run.result
      case None => (WithInput(run.state.(core := Fail(run.state.core, ERROR_READ)), []), ERR)
      case Some(r) => (WithInput(run.state, run.unread + EncodeEvents(run.rest)), r)
  {
    hide Dispatch, QuietRun, Process, EncodeEvents, Client.Valid;
    ProcessIsDispatch(h, client.State(), es);
    result := client.Process(h);
  }
}
