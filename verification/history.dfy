/** What holds in every state that commands can reach: results agree with the status field, failures
    leave the registries alone, and the registries are the history of successful subscriptions. */
module History {
  import opened Bytes
  import opened Protocol
  import opened Packet
  import opened Network
  import opened Registry
  import opened Machine

  // ----- results, status and error text -----

  /** The kernel refuses the write of a command, told from what the kernel is going to do. A frame written
      alone meets an error before its last byte; a frame gathered with a payload is rejected outright. */
  predicate WriteRefused(o: Outbound, cmd: Command)
    requires !cmd.SetNoack? && LayoutOf(RequestOf(cmd).0).Some?
  {
    if PayloadOf(cmd).Some? then Settled(o.gathers) == Some(Rejected)
    else
      && o.stalls != [] && !o.stalls[0].zero
      && o.stalls[0].room < HEADER_SIZE + SizeOf(LayoutOf(RequestOf(cmd).0).value)
  }

  lemma SubmitCause(c: Core, cmd: Command)
    requires !cmd.SetNoack?
    ensures var (code, args) := RequestOf(cmd); var (d, sent) := Submit(c, code, args, PayloadOf(cmd));
      && (sent <==> Buildable(code, args) && !WriteRefused(c.out, cmd))
      && (sent <==> d.error == NO_ERROR)
      && (!sent ==> d.error == if Buildable(code, args) then ERROR_WRITE else ERROR_DATA)
  {
    hide RequestOf, Frame, WriteGathered, LayoutOf, Typed, Fits, Settled;
    var (code, args) := RequestOf(cmd);
    if Buildable(code, args) && PayloadOf(cmd).Some? {
      var payload := PayloadOf(cmd).value;
      GatherRejected(c.out, Frame(code, c.noack, args, |payload|) + payload);
    }
  }

  /** The documentation promises that a command in noack mode always succeeds. It does so exactly when
      its arguments are accepted and the kernel does not refuse its write: alone, with an error before the
      last byte of its frame; gathered with a payload, with an error that is not an interruption. */
  lemma NoackResult(s: State, cmd: Command)
    requires s.core.noack && !cmd.SetNoack?
    ensures var (code, args) := RequestOf(cmd); var (t, ok) := Perform(s, cmd);
      && (ok <==> !Refused(cmd) && Buildable(code, args) && !WriteRefused(s.core.out, cmd))
      && t.core.inp == s.core.inp
  {
    hide Submit, RequestOf, PayloadOf, WriteRefused, Buildable;
    SubmitCause(s.core, cmd);
  }

  /** A noack command that fails: the name is one byte too long for its array. */
  lemma NoackCanFail(s: State, name: CString)
    requires s.core.noack && |name| == 64
    ensures !Perform(s, UnsubscribeQueue(name)).1
    ensures Perform(s, UnsubscribeQueue(name)).0.core.error == ERROR_DATA
  {
    var (code, args) := RequestOf(UnsubscribeQueue(name));
    assert LayoutOf(code).value[0] == Str(64) && args[0] == Text(name);
  }

  lemma SubmitStatus(c: Core, code: byte, args: seq<Value>, payload: Option<bytes>)
    requires Accepts(code, args)
    ensures var (d, sent) := Submit(c, code, args, payload); if sent then d.error == NO_ERROR else d.status == ERR
  {
    hide Buildable, Accepts, LayoutOf, WriteAll, WriteGathered, Frame;
  }

  lemma ReceiveStatus(c: Core, code: byte, bodylen: Option<nat>)
    ensures var (d, h) := Receive(c, code, bodylen); if h.Some? then d.error == c.error else d.status == ERR
  {
    hide ReadExact, DecodeHeader, HeaderError;
  }

  /** A command returns OK exactly when it leaves the status at OK, and then no error text; when it
      returns an error, neither registry and no earlier success is touched. */
  lemma ResultIsStatus(s: State, cmd: Command)
    requires !cmd.SetNoack?
    ensures var (t, ok) := Perform(s, cmd);
      && (ok <==> t.core.status == OK) && (!ok <==> t.core.status == ERR)
      && (ok ==> ErrorText(t.core.error) == "")
      && (!ok ==> t == s.(core := t.core))
  {
    hide Submit, Receive, RequestOf, ReplyCode, PayloadOf;
    var (code, args) := RequestOf(cmd);
    SubmitStatus(s.core, code, args, PayloadOf(cmd));
    var (c, _) := Submit(s.core, code, args, PayloadOf(cmd));
    ReceiveStatus(c, ReplyCode(cmd), if cmd.Plain? && code == QUEUE_CONFIRM then None else Some(0));
  }

  /** A query that fails says so in the status; one that succeeds leaves no error text behind. */
  lemma AnswerIsStatus(c: Core, q: Query)
    requires Inquire(c, q).1 != Undefined
    ensures var (d, answer) := Inquire(c, q);
      && (answer == Failed <==> d.status == ERR) && (answer != Failed <==> d.status == OK)
      && (answer != Failed ==> ErrorText(d.error) == "")
  {
    hide Submit, Receive, ReadExact, DecodeHeader, HeaderError, QueryOf, Records.DecodeRecords, ToInt32;
    var (code, args) := QueryOf(q);
    SubmitStatus(c, code, args, None);
    var (c, _) := Submit(c, code, args, None);
    ReceiveStatus(c, code, if q.Number? then Some(4) else None);
  }

  /** The int that a function answered by one number returns does not tell a failure from an answer: -1 is also
      the largest size, and 0 also a plain no. The status does. */
  lemma NumberReturned(c: Core, q: Query)
    requires q.Number?
    ensures var (d, answer) := Inquire(c, q); var result := ReturnValue(q.code, answer);
      && (answer.Value? ==> answer.n < 0x1_0000_0000)
      && (answer.Value? ==> result == if answer.n < 0x8000_0000 then answer.n else answer.n - 0x1_0000_0000)
      && (d.status == ERR ==> result == if q.code == QUEUE_SIZE then -1 else 0)
      && (q.code == QUEUE_SIZE ==> (result == -1 <==> d.status == ERR || answer == Value(WORD32 - 1)))
      && (q.code != QUEUE_SIZE ==> (result == 0 <==> d.status == ERR || answer == Value(0)))
  {
    hide Submit, Receive, ReadExact, QueryOf, Buildable;
    Widths();
    AnswerIsStatus(c, q);
  }

  /** A command fails without any error text exactly when its reply arrives whole, matches, and
      carries a status that has no error of its own, such as 0x2 or 0x7. */
  lemma SilentFailure(s: State, cmd: Command)
    requires !cmd.SetNoack?
    ensures var (t, ok) := Perform(s, cmd); var (code, args) := RequestOf(cmd);
      var reply := ReadExact(s.core.inp, HEADER_SIZE).1;
      !ok && ErrorText(t.core.error) == "" <==>
        && !Refused(cmd) && Buildable(code, args) && !WriteRefused(s.core.out, cmd) && !s.core.noack && reply.Some?
        && var h := DecodeHeader(reply.value);
        && h.magic == RES && h.code == ReplyCode(cmd)
        && (h.bodylen == 0 || (cmd.Plain? && code == QUEUE_CONFIRM))
        && h.aux !in {0x1, 0x3, 0x4, 0x5, 0x6, 0x8, 0x9, 0xA}
  {
    hide Submit, RequestOf, ReplyCode, PayloadOf, ReadExact, DecodeHeader, WriteRefused, Buildable;
    SubmitCause(s.core, cmd);
  }

  /** Each error text of the client's own has one cause: bad input for arguments that are refused or do not
      fit, a write error for a refused write, a read error for a reply that does not arrive whole, and a
      response error for one that does not match. Any other failure is the server's, told by its status. */
  lemma FailureText(s: State, cmd: Command)
    requires !cmd.SetNoack? && !Perform(s, cmd).1
    ensures var e := Perform(s, cmd).0.core.error; var (code, args) := RequestOf(cmd);
      if Refused(cmd) || !Buildable(code, args) then e == ERROR_DATA
      else if WriteRefused(s.core.out, cmd) then e == ERROR_WRITE
      else
        var reply := ReadExact(s.core.inp, HEADER_SIZE).1;
        && !s.core.noack
        && if reply.None? then e == ERROR_READ
           else
             var h := DecodeHeader(reply.value);
             if h.magic == RES && h.code == ReplyCode(cmd) && (h.bodylen == 0 || (cmd.Plain? && code == QUEUE_CONFIRM))
             then h.aux != SUCCESS && e == ErrorOf(h.aux)
             else e == ERROR_RESPONSE
  {
    hide Submit, RequestOf, ReplyCode, ReadExact, DecodeHeader, WriteRefused, Buildable, ErrorOf;
    SubmitCause(s.core, cmd);
  }

  /** The message of a queue get or pop, once its reply header has been accepted: the source hands over a
      message or a clean failure exactly when the stream ends or a read is refused before the tag, or the body
      holds a tag, fits an int, and arrives whole. A failure at the tag leaves no error text. */
  lemma FetchIsDefined(c: Core, bodylen: nat)
    requires bodylen < WORD32
    ensures var (d, answer) := ReceiveTagged(c, bodylen); var n := Available(c.inp);
      && (answer != Undefined <==> n < 8 || (8 <= bodylen <= n && bodylen - 8 < SIGN32))
      && (answer == Failed <==> n < 8)
      && (answer == Failed ==> d.error == c.error && d.status == ERR)
      && (answer.Message? ==> answer.data == c.inp.input[8..bodylen] && d.inp.input == c.inp.input[bodylen..])
  {
    hide FromLE, ReadExact, Available, ReadMessage;
    TagRead(c.inp);
    if Available(c.inp) >= 8 && bodylen >= 8 { MessageRead(c.(inp := ReadExact(c.inp, 8).0), bodylen - 8); }
    Sliced(c.inp.input, bodylen);
  }

  lemma TagRead(s: Inbound)
    ensures var (t, tag) := ReadExact(s, 8);
      && (tag.Some? <==> Available(s) >= 8)
      && (tag.Some? ==> t.input == s.input[8..] && Available(t) == Available(s) - 8)
  {
  }

  lemma MessageRead(c: Core, size: nat)
    requires size < WORD32
    ensures var (d, msg) := ReadMessage(c, size);
      && (msg.Some? <==> size <= Available(c.inp) && size < SIGN32)
      && (msg.Some? ==> msg.value == c.inp.input[..size] && d.inp.input == c.inp.input[size..])
      && (msg.Some? ==> d.error == c.error)
  {
  }

  lemma Sliced(s: bytes, n: nat)
    ensures 8 <= n <= |s| ==> s[8..][..n - 8] == s[8..n] && s[8..][n - 8..] == s[n..]
  {
  }

  // ----- the registries over whole histories -----

  /** The commands a history can hold: those that passed every test on their arguments. */
  predicate Succeeded(cmd: Command) {
    !Refused(cmd) && (!cmd.SetNoack? ==> Buildable(RequestOf(cmd).0, RequestOf(cmd).1))
  }

  predicate AllSucceeded(history: seq<Command>) {
    forall i :: 0 <= i < |history| ==> Succeeded(history[i])
  }

  /** The queue subscriptions of a name made since its last unsubscription, newest first. */
  function LiveQueues(history: seq<Command>, name: CString): seq<Subscription>
    requires AllSucceeded(history)
  {
    if history == [] then []
    else
      var last := history[|history| - 1];
      var before := LiveQueues(history[..|history| - 1], name);
      if last.UnsubscribeQueue? && last.name == name then []
      else if last.SubscribeQueue? && last.name == name then
        NameFits(last);
        [QueueRecord(name, last.callback.value)] + before
      else before
  }

  /** The channel subscriptions of a name, whatever their topics or patterns, made since its last
      unsubscription of either form, whatever topic or pattern that named, newest first. */
  function LiveChannels(history: seq<Command>, name: CString): seq<Subscription>
    requires AllSucceeded(history)
  {
    if history == [] then []
    else
      var last := history[|history| - 1];
      var before := LiveChannels(history[..|history| - 1], name);
      if last.UnsubscribeChannel? && last.name == name then []
      else if last.SubscribeChannel? && last.name == name then
        NameFits(last);
        [ChannelRecord(name, last.topic, last.callback.value)] + before
      else before
  }

  /** The callback given with the last subscription of a queue, or channel, of a name, unless it was undone. */
  function LiveCallback(history: seq<Command>, queue: bool, name: CString): Option<Callback> {
    if history == [] then None
    else
      var last := history[|history| - 1];
      if queue && last.SubscribeQueue? && last.name == name then last.callback
      else if queue && last.UnsubscribeQueue? && last.name == name then None
      else if !queue && last.SubscribeChannel? && last.name == name then last.callback
      else if !queue && last.UnsubscribeChannel? && last.name == name then None
      else LiveCallback(history[..|history| - 1], queue, name)
  }

  /** It is the callback of the newest live record. */
  lemma {:induction false} LiveCallbackIsFirst(history: seq<Command>, name: CString)
    requires AllSucceeded(history)
    ensures var live := LiveQueues(history, name);
      LiveCallback(history, true, name) == if live == [] then None else Some(live[0].callback)
    ensures var live := LiveChannels(history, name);
      LiveCallback(history, false, name) == if live == [] then None else Some(live[0].callback)
  {
    hide Buildable, RequestOf;
    if history != [] {
      var last := history[|history| - 1];
      assert Succeeded(last);
      LiveCallbackIsFirst(history[..|history| - 1], name);
      if (last.SubscribeQueue? || last.SubscribeChannel?) && last.name == name { NameFits(last); }
    }
  }

  /** Every queue record ever added by the commands of a history. */
  function QueuesAdded(history: seq<Command>): seq<Subscription>
    requires AllSucceeded(history)
  {
    if history == [] then []
    else
      var last := history[|history| - 1];
      QueuesAdded(history[..|history| - 1])
      + if last.SubscribeQueue? then QueuesAfter([], last) else []
  }

  /** Every channel record ever added by the commands of a history. */
  function ChannelsAdded(history: seq<Command>): seq<Subscription>
    requires AllSucceeded(history)
  {
    if history == [] then []
    else
      var last := history[|history| - 1];
      ChannelsAdded(history[..|history| - 1])
      + if last.SubscribeChannel? then ChannelsAfter([], last) else []
  }

  /** Each record ever added is either still registered or has been freed, exactly once. */
  ghost predicate Owned(s: State)
    requires AllSucceeded(s.history)
  {
    && multiset(s.queues) + multiset(s.freedQueues) == multiset(QueuesAdded(s.history))
    && multiset(s.channels) + multiset(s.freedChannels) == multiset(ChannelsAdded(s.history))
  }

  /** The invariant of every reachable state. */
  ghost predicate Tracks(s: State) {
    && AllSucceeded(s.history)
    && AllWellFormed(s.queues) && AllWellFormed(s.channels) && AllChannels(s.channels)
    && Owned(s)
    && (forall name: CString :: Named(s.queues, name) == LiveQueues(s.history, name))
    && (forall name: CString :: Named(s.channels, name) == LiveChannels(s.history, name))
  }

  lemma FreshTracks(core: Core)
    ensures Tracks(State(core, [], [], [], [], [], [], [], []))
  {
  }

  lemma NamedCons(r: Subscription, subs: seq<Subscription>, name: CString)
    ensures Named([r] + subs, name) == (if NameOf(r) == name then [r] else []) + Named(subs, name)
  {
    hide NameOf;
    assert ([r] + subs)[1..] == subs;
  }

  lemma QueuesTrack(s: State, cmd: Command, name: CString)
    requires Tracks(s) && Succeeded(cmd)
    ensures AllSucceeded(s.history + [cmd])
    ensures Named(QueuesAfter(s.queues, cmd), name) == LiveQueues(s.history + [cmd], name)
  {
    hide Owned, AllWellFormed, LiveChannels, Buildable, RequestOf, Named, Without, CStr, QueueRecord, WellFormed;
    assert (s.history + [cmd])[..|s.history|] == s.history;
    assert LiveQueues(s.history, name) == Named(s.queues, name);
    match cmd {
      case SubscribeQueue(n, _, callback) =>
        NameFits(cmd);
        NamedCons(QueueRecord(n, callback.value), s.queues, name);
      case UnsubscribeQueue(n) => NamedWithout(s.queues, n, name);
      case _ =>
    }
  }

  lemma ChannelsTrack(s: State, cmd: Command, name: CString)
    requires Tracks(s) && Succeeded(cmd)
    ensures AllSucceeded(s.history + [cmd])
    ensures Named(ChannelsAfter(s.channels, cmd), name) == LiveChannels(s.history + [cmd], name)
  {
    hide Owned, AllWellFormed, LiveQueues, Buildable, RequestOf, Named, Without, CStr, ChannelRecord, WellFormed;
    assert (s.history + [cmd])[..|s.history|] == s.history;
    assert LiveChannels(s.history, name) == Named(s.channels, name);
    match cmd {
      case SubscribeChannel(_, n, topic, callback) =>
        NameFits(cmd);
        NamedCons(ChannelRecord(n, topic, callback.value), s.channels, name);
      case UnsubscribeChannel(_, n, _) => NamedWithout(s.channels, n, name);
      case _ =>
    }
  }

  lemma ChannelsCons(r: Subscription, subs: seq<Subscription>)
    requires r.ChannelSubscription? && AllChannels(subs)
    ensures AllChannels([r] + subs)
  {
  }

  lemma RecordsStayWellFormed(s: State, cmd: Command)
    requires Tracks(s) && Succeeded(cmd)
    ensures AllWellFormed(QueuesAfter(s.queues, cmd)) && AllWellFormed(ChannelsAfter(s.channels, cmd))
    ensures AllChannels(ChannelsAfter(s.channels, cmd))
  {
    hide Owned, LiveQueues, LiveChannels, Buildable, RequestOf, Named, Without, CStr, ChannelRecord,
      QueueRecord, WellFormed;
    match cmd {
      case SubscribeQueue(_, _, _) => NameFits(cmd);
      case SubscribeChannel(_, n, topic, callback) =>
        NameFits(cmd);
        ChannelsCons(ChannelRecord(n, topic, callback.value), s.channels);
      case UnsubscribeQueue(n) => WithoutWellFormed(s.queues, n);
      case UnsubscribeChannel(_, n, _) =>
        WithoutWellFormed(s.channels, n);
        WithoutChannels(s.channels, n);
      case _ =>
    }
  }

  lemma QueuesOwned(queues: seq<Subscription>, freed: seq<Subscription>, history: seq<Command>, cmd: Command)
    requires AllSucceeded(history) && Succeeded(cmd)
    requires multiset(queues) + multiset(freed) == multiset(QueuesAdded(history))
    ensures AllSucceeded(history + [cmd])
    ensures multiset(QueuesAfter(queues, cmd)) + multiset(freed + QueuesFreed(queues, cmd))
         == multiset(QueuesAdded(history + [cmd]))
  {
    hide Buildable, RequestOf, Named, Without, QueueRecord;
    var all := QueuesAdded(history);
    assert (history + [cmd])[..|history|] == history;
    match cmd {
      case SubscribeQueue(name, _, callback) =>
        NameFits(cmd);
        var record := QueueRecord(name, callback.value);
        assert [record] + [] == [record];
        Consed(record, queues, freed, all);
      case UnsubscribeQueue(name) =>
        WithoutPartition(queues, name);
        Moved(Without(queues, name), Named(queues, name), queues, freed, all);
      case _ => Moved(queues, [], queues, freed, all);
    }
  }

  lemma ChannelsOwned(channels: seq<Subscription>, freed: seq<Subscription>, history: seq<Command>, cmd: Command)
    requires AllSucceeded(history) && Succeeded(cmd)
    requires multiset(channels) + multiset(freed) == multiset(ChannelsAdded(history))
    ensures AllSucceeded(history + [cmd])
    ensures multiset(ChannelsAfter(channels, cmd)) + multiset(freed + ChannelsFreed(channels, cmd))
         == multiset(ChannelsAdded(history + [cmd]))
  {
    hide Buildable, RequestOf, Named, Without, ChannelRecord;
    var all := ChannelsAdded(history);
    assert (history + [cmd])[..|history|] == history;
    match cmd {
      case SubscribeChannel(_, name, topic, callback) =>
        NameFits(cmd);
        var record := ChannelRecord(name, topic, callback.value);
        assert [record] + [] == [record];
        Consed(record, channels, freed, all);
      case UnsubscribeChannel(_, name, _) =>
        WithoutPartition(channels, name);
        Moved(Without(channels, name), Named(channels, name), channels, freed, all);
      case _ => Moved(channels, [], channels, freed, all);
    }
  }

  /** Ownership moves with the records: from the added to the registered, and on to the freed. */
  lemma PerformOwns(s: State, cmd: Command)
    requires AllSucceeded(s.history) && Owned(s) && Converse(s.core, cmd).1
    ensures AllSucceeded(s.history + [cmd]) && Owned(Perform(s, cmd).0)
  {
    hide Converse, Succeeded, QueuesAfter, ChannelsAfter, QueuesFreed, ChannelsFreed, QueuesAdded, ChannelsAdded;
    ConverseSucceeds(s.core, cmd);
    QueuesOwned(s.queues, s.freedQueues, s.history, cmd);
    ChannelsOwned(s.channels, s.freedChannels, s.history, cmd);
  }

  lemma Consed<T>(x: T, here: seq<T>, gone: seq<T>, all: seq<T>)
    requires multiset(here) + multiset(gone) == multiset(all)
    ensures multiset([x] + here) + multiset(gone + []) == multiset(all + [x])
  {
    assert gone + [] == gone;
  }

  lemma Moved<T>(kept: seq<T>, removed: seq<T>, here: seq<T>, gone: seq<T>, all: seq<T>)
    requires multiset(here) == multiset(kept) + multiset(removed)
    requires multiset(here) + multiset(gone) == multiset(all)
    ensures multiset(kept) + multiset(gone + removed) == multiset(all + [])
  {
    assert all + [] == all;
  }

  lemma ConverseSucceeds(c: Core, cmd: Command)
    ensures Converse(c, cmd).1 ==> Succeeded(cmd)
  {
    hide Exchange, Buildable, RequestOf;
  }

  /** Every command, whatever its result, keeps the invariant. */
  lemma PerformTracks(s: State, cmd: Command)
    requires Tracks(s)
    ensures Tracks(Perform(s, cmd).0)
  {
    hide Converse, Named, LiveQueues, LiveChannels, QueuesAfter, ChannelsAfter, AllWellFormed, Owned;
    var (t, ok) := Perform(s, cmd);
    if ok {
      ConverseSucceeds(s.core, cmd);
      RecordsStayWellFormed(s, cmd);
      PerformOwns(s, cmd);
      forall name: CString
        ensures AllSucceeded(t.history) && Named(t.queues, name) == LiveQueues(t.history, name)
        ensures Named(t.channels, name) == LiveChannels(t.history, name)
      {
        QueuesTrack(s, cmd, name);
        ChannelsTrack(s, cmd, name);
      }
    } else {
      CoreTracks(s, t.core);
    }
  }

  /** Nothing but the core changes in a failure, and the invariant does not look at it. */
  lemma CoreTracks(s: State, core: Core)
    requires Tracks(s)
    ensures Tracks(s.(core := core))
  {
    hide AllWellFormed, AllSucceeded, Named, LiveQueues, LiveChannels;
  }

  /** Nor does it look at what is recorded of callbacks and calls. */
  lemma LogTracks(s: State, log: seq<Invocation>, returned: seq<bool>, calls: seq<Made>)
    requires Tracks(s)
    ensures Tracks(s.(log := log, returned := returned, calls := calls))
  {
    hide AllWellFormed, AllSucceeded, Named, LiveQueues, LiveChannels;
  }

  /** Every call, whatever its result, keeps the invariant. */
  lemma ExecuteTracks(s: State, call: Call)
    requires Tracks(s)
    ensures Tracks(Execute(s, call).0)
  {
    hide Tracks, Perform, Inquire;
    match call {
      case Do(cmd) => PerformTracks(s, cmd);
      case Ask(q) => CoreTracks(s, Inquire(s.core, q).0);
    }
    var t := Attempt(s, call).0;
    LogTracks(t, t.log, t.returned, Execute(s, call).0.calls);
  }

  /** Delivery goes to the newest live subscription of the name, and there is one exactly when the
      history holds a subscription of that name that no later command has undone. */
  lemma NewestIsLive(s: State, name: CString)
    requires Tracks(s)
    ensures var live := LiveQueues(s.history, name);
      Newest(s.queues, name) == if live == [] then None else Some(live[0])
    ensures var live := LiveChannels(s.history, name);
      Newest(s.channels, name) == if live == [] then None else Some(live[0])
  {
    hide Named, LiveQueues, LiveChannels;
  }
}
