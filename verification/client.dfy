/** The client object: the request buffer, the socket and the two subscription lists, updated in place
    by methods that follow the source and are proved to take the steps of the state machine. */
module Clients {
  import opened Bytes
  import opened Protocol
  import opened Packet
  import opened Network
  import opened Registry
  import opened Records
  import opened Machine
  import opened Events
  import opened History
  import Lists

  const DEFAULT_REQUEST_SIZE: nat := 4096
  const MAX_REQUEST_SIZE: nat := 2147483647
  const LONGEST_FRAME: nat := 168

  class Client {
    var status: int
    var error: ErrorIndex
    var request: array<byte>
    var size: nat
    var pos: nat
    var noack: bool
    const socket: Socket
    const queueSubscriptions: Lists.List<Subscription>
    const channelSubscriptions: Lists.List<Subscription>
    var log: seq<Invocation>              // every callback made
    ghost var returned: seq<bool>         // which of them returned nonzero
    var calls: seq<Made>                  // every call made, by the program or a callback
    ghost var history: seq<Command>       // every command that succeeded

    /** The request buffer never moves or grows, and every frame fits its start. */
    ghost predicate Buffered()
      reads this, request
    {
      size == request.Length == DEFAULT_REQUEST_SIZE && pos <= LONGEST_FRAME
    }

    ghost predicate Valid()
      reads this, request, queueSubscriptions, queueSubscriptions.repr, channelSubscriptions, channelSubscriptions.repr
      ensures Valid() ==> Buffered()
    {
      && Buffered()
      && queueSubscriptions.Valid() && queueSubscriptions.free && AllWellFormed(queueSubscriptions.Values())
      && channelSubscriptions.Valid() && channelSubscriptions.free && AllWellFormed(channelSubscriptions.Values())
      && {this, socket, request} !! queueSubscriptions.repr !! channelSubscriptions.repr
    }

    ghost function Footprint(): set<object>
      reads this, queueSubscriptions, channelSubscriptions
    {
      {this, socket, request} + queueSubscriptions.repr + channelSubscriptions.repr
    }

    /** The client without its registries, as a value. */
    ghost function Core(): Core
      requires Buffered()
      reads this, request, socket
    {
      Machine.Core(status, error, request[..pos], noack, socket.inbound, socket.outbound)
    }

    /** The whole client as a value. */
    ghost function State(): State
      requires Buffered()
      reads this, request, socket, queueSubscriptions, channelSubscriptions
    {
      Machine.State(Core(), queueSubscriptions.Values(), channelSubscriptions.Values(),
                    queueSubscriptions.freed, channelSubscriptions.freed, log, returned, calls, history)
    }

    constructor (i: Inbound, o: Outbound)
      ensures Valid() && fresh(Footprint()) && request.Length == 4096
      ensures State() == Machine.State(Machine.Core(OK, NO_ERROR, [], false, i, o), [], [], [], [], [], [], [], [])
    {
      hide Lists.List.Valid, Lists.List.Values, AllWellFormed;
      status, error, noack := OK, NO_ERROR, false;
      request := new byte[DEFAULT_REQUEST_SIZE];
      size, pos := DEFAULT_REQUEST_SIZE, 0;
      socket := new Socket(i, o);
      var queues := NewRegistry();
      var channels := NewRegistry();
      queueSubscriptions, channelSubscriptions := queues, channels;
      log, returned, calls, history := [], [], [], [];
    }

    // ----- the request buffer -----

    /** emq_check_realloc_client_request */
    method CheckRealloc(n: nat) returns (ok: bool)
      requires size == request.Length
      modifies this`request, this`size
      ensures n <= old(size) ==> ok && request == old(request) && size == old(size)
      ensures n > old(size) ==> (ok <==> n <= MAX_REQUEST_SIZE)
      ensures n > old(size) && ok ==> size == request.Length == n && request[..old(size)] == old(request[..size])
    {
      if size < n {
        if n > MAX_REQUEST_SIZE { return false; }
        var grown := new byte[n];
        forall i | 0 <= i < size { grown[i] := request[i]; }
        request, size := grown, n;
      }
      return true;
    }

    /** Every request builder: an accepted request becomes the frame at the start of the buffer; rejected
        arguments change nothing. */
    method Build(code: byte, args: seq<Value>, extra: nat) returns (ok: bool)
      requires Buffered() && Accepts(code, args)
      modifies this`request, this`size, this`pos, request
      ensures Buffered() && request == old(request)
      ensures ok <==> Buildable(code, args)
      ensures ok ==> request[..pos] == Frame(code, noack, args, extra)
      ensures !ok ==> pos == old(pos) && request[..] == old(request[..])
    {
      hide LayoutOf;
      if !Fits(LayoutOf(code).value, args) { return false; }
      var req := BuildFrame(code, noack, args, extra);
      LayoutBound(code);
      ok := CheckRealloc(req.Length);
      if ok {
        forall i | 0 <= i < req.Length { request[i] := req[i]; }
        pos := req.Length;
        assert request[..pos] == req[..];
      }
    }

    // ----- the steps that all calls share -----

    method SetFailure(e: ErrorIndex)
      modifies this`status, this`error
      ensures status == ERR && error == e
    {
      error, status := e, ERR;
    }

    method Submit(code: byte, args: seq<Value>, payload: Option<bytes>) returns (sent: bool)
      requires Buffered() && Accepts(code, args)
      modifies this`status, this`error, this`request, this`size, this`pos, request, socket
      ensures Buffered() && request == old(request)
      ensures (Core(), sent) == Machine.Submit(old(Core()), code, args, payload)
    {
      hide Accepts, Buildable, Frame, WriteAll, WriteGathered;
      error := NO_ERROR;
      var extra := if payload.Some? then |payload.value| else 0;
      var built := Build(code, args, extra);
      if !built {
        SetFailure(ERROR_DATA);
        return false;
      }
      var n;
      if payload.Some? {
        n := socket.Writev(request[..pos] + payload.value);
      } else {
        n := socket.Write(request, pos);
      }
      if n == -1 {
        SetFailure(ERROR_WRITE);
        return false;
      }
      return true;
    }

    method ReadBytes(count: int) returns (data: Option<bytes>)
      modifies socket
      ensures (socket.inbound, data) == ReadExact(old(socket.inbound), count)
      ensures socket.outbound == old(socket.outbound)
    {
      hide ReadExact;
      var buffer := new byte[if count < 0 then 0 else count];
      var r := socket.Read(buffer, count);
      CountIsExact(old(socket.inbound), count);
      return if r == -1 then None else Some(buffer[..count]);
    }

    static lemma CountIsExact(s: Inbound, count: int)
      ensures ReadExact(s, count).1.Some? ==> count >= 0
    {
    }

    method Receive(code: byte, bodylen: Option<nat>) returns (h: Option<Header>)
      requires Buffered()
      modifies this`status, this`error, socket
      ensures Buffered() && (Core(), h) == Machine.Receive(old(Core()), code, bodylen)
    {
      hide ReadExact, HeaderError, DecodeHeader;
      var data := ReadBytes(HEADER_SIZE);
      if data.None? {
        SetFailure(ERROR_READ);
        return None;
      }
      ExactSize(old(socket.inbound), HEADER_SIZE);
      var header := DecodeHeader(data.value);
      var e := HeaderError(header, code, bodylen);
      if e.Some? {
        SetFailure(e.value);
        return None;
      }
      return Some(header);
    }

    static lemma ExactSize(s: Inbound, count: nat)
      ensures ReadExact(s, count).1.Some? ==> |ReadExact(s, count).1.value| == count
    {
    }

    method Exchange(code: byte, args: seq<Value>, payload: Option<bytes>, reply: byte, bodylen: Option<nat>)
      returns (ok: bool)
      requires Buffered() && Accepts(code, args)
      modifies this`status, this`error, this`request, this`size, this`pos, request, socket
      ensures Buffered() && request == old(request)
      ensures (Core(), ok) == Machine.Exchange(old(Core()), code, args, payload, reply, bodylen)
    {
      hide Machine.Submit, Machine.Receive, Accepts, Buildable;
      var sent := Submit(code, args, payload);
      if !sent { return false; }
      if !noack {
        var h := Receive(reply, bodylen);
        if h.None? { return false; }
      }
      status := OK;
      return true;
    }

    // ----- queries -----

    /** The request of a query, and its reply's header unless the query is for the server's status. */
    method Inquiry(q: Query) returns (sent: bool, h: Option<Header>)
      requires Buffered()
      modifies this`status, this`error, this`request, this`size, this`pos, request, socket
      ensures Buffered() && request == old(request)
      ensures var (code, args) := QueryOf(q); var (c, s) := Machine.Submit(old(Core()), code, args, None);
        && sent == s
        && (!sent || q.Stat? ==> h == None && Core() == c)
        && (sent && !q.Stat? ==>
              (Core(), h) == Machine.Receive(c, code, if q.Number? then Some(4) else None))
    {
      hide Machine.Submit, Machine.Receive, Accepts, Buildable, QueryOf;
      var (code, args) := QueryOf(q);
      sent := Submit(code, args, None);
      h := None;
      if sent && !q.Stat? {
        h := Receive(code, if q.Number? then Some(4) else None);
      }
    }

    /** emq_stat */
    method Stat() returns (answer: Answer)
      requires Buffered()
      modifies this`status, this`error, this`request, this`size, this`pos, request, socket
      ensures Buffered() && request == old(request)
      ensures (Core(), answer) == Inquire(old(Core()), STAT_QUERY)
    {
      hide Machine.Submit, Machine.ReceiveStat, Accepts, Buildable, QueryOf;
      var sent, _ := Inquiry(STAT_QUERY);
      if !sent { return Failed; }
      answer := ReceiveStat();
    }

    method ReceiveStat() returns (answer: Answer)
      requires Buffered()
      modifies this`status, this`error, socket
      ensures Buffered() && (Core(), answer) == Machine.ReceiveStat(old(Core()))
    {
      hide ReadExact, HeaderError, DecodeHeader;
      ghost var before := socket.inbound;
      var data := ReadBytes(HEADER_SIZE + STAT_SIZE);
      if data.None? {
        SetFailure(ERROR_READ);
        return Failed;
      }
      ExactSize(before, HEADER_SIZE + STAT_SIZE);
      var e := HeaderError(DecodeHeader(data.value[..HEADER_SIZE]), STAT, Some(STAT_SIZE));
      if e.Some? {
        SetFailure(e.value);
        return Failed;
      }
      status := OK;
      return Stats(data.value[HEADER_SIZE..]);
    }

    /** emq_queue_exist, emq_queue_size, emq_route_exist, emq_channel_exist */
    method Number(code: byte, args: seq<Value>) returns (result: int, answer: Answer)
      requires Buffered() && LegalQuery(RawQuery.Number(code, args))
      modifies this`status, this`error, this`request, this`size, this`pos, request, socket
      ensures Buffered() && request == old(request)
      ensures (Core(), answer) == Inquire(old(Core()), RawQuery.Number(code, args))
      ensures result == ReturnValue(code, answer)
      ensures if answer.Value? then answer.n < 0x1_0000_0000
                && result == if answer.n < 0x8000_0000 then answer.n else answer.n - 0x1_0000_0000
              else result == if code == 0x28 then -1 else 0
    {
      hide Machine.Submit, Machine.Receive, Machine.ReceiveNumber, Accepts, Buildable, ToInt32;
      var sent, h := Inquiry(RawQuery.Number(code, args));
      answer := Failed;
      if h.Some? { answer := ReceiveNumber(); }
      NumberReturned(old(Core()), RawQuery.Number(code, args));
      if answer.Value? {
        result := ToInt32(answer.n);
      } else {
        result := if code == QUEUE_SIZE then -1 else 0;
      }
    }

    method ReceiveNumber() returns (answer: Answer)
      requires Buffered()
      modifies this`status, this`error, socket
      ensures Buffered() && (Core(), answer) == Machine.ReceiveNumber(old(Core()))
    {
      hide ReadExact, FromLE;
      var data := ReadBytes(4);
      if data.None? {
        SetFailure(ERROR_READ);
        return Failed;
      }
      status := OK;
      return Value(FromLE(data.value));
    }

    /** emq_user_list, emq_queue_list, emq_route_list, emq_route_keys, emq_channel_list: the records of
        the body in a fresh list, last record first. */
    method Listing(kind: Kind, args: seq<Value>) returns (list: Lists.List?<Record>, answer: Answer)
      requires Buffered() && LegalQuery(RawQuery.Listing(kind, args))
      modifies this`status, this`error, this`request, this`size, this`pos, request, socket
      ensures Buffered() && request == old(request)
      ensures (Core(), answer) == Inquire(old(Core()), RawQuery.Listing(kind, args))
      ensures answer.Listed? ==> list != null && list.Valid() && list.Values() == answer.records
    {
      hide Machine.Submit, Machine.Receive, Machine.ReceiveList, Accepts, Buildable, Lists.List.Valid, ListCode;
      list := null;
      var sent, h := Inquiry(RawQuery.Listing(kind, args));
      if h.None? { return list, Failed; }
      list, answer := ReceiveList(kind, h.value.bodylen);
    }

    method ReceiveList(kind: Kind, bodylen: nat) returns (list: Lists.List?<Record>, answer: Answer)
      requires Buffered() && bodylen < WORD32
      modifies this`status, this`error, socket
      ensures Buffered() && (Core(), answer) == Machine.ReceiveList(old(Core()), kind, bodylen)
      ensures answer.Listed? ==> list != null && list.Valid() && list.Values() == answer.records
    {
      hide ReadExact, DecodeRecords, Lists.List.Valid, Lists.List.Values, RecordSize, ToInt32, Lists.Reverse;
      list := null;
      ghost var before := socket.inbound;
      var data := ReadBytes(ToInt32(bodylen));
      if data.None? {
        SetFailure(ERROR_READ);
        return list, Failed;
      }
      BodySize(before, bodylen);
      var buffer := new byte[|data.value|](i requires 0 <= i < |data.value| => data.value[i]);
      assert buffer[..bodylen] == data.value;
      var inside;
      list, inside := DecodeList(kind, buffer, bodylen);
      if !inside { return list, Undefined; }
      status := OK;
      return list, Listed(Lists.Reverse(DecodeRecords(kind, data.value)));
    }

    static lemma BodySize(s: Inbound, bodylen: nat)
      requires bodylen < WORD32
      ensures var data := ReadExact(s, ToInt32(bodylen)).1; data.Some? ==> |data.value| == bodylen
    {
    }

    /** emq_queue_get, emq_queue_pop */
    method Fetch(code: byte, args: seq<Value>) returns (answer: Answer)
      requires Buffered() && LegalQuery(RawQuery.Fetch(code, args))
      modifies this`status, this`error, this`request, this`size, this`pos, request, socket
      ensures Buffered() && request == old(request)
      ensures (Core(), answer) == Inquire(old(Core()), RawQuery.Fetch(code, args))
    {
      hide Machine.Submit, Machine.Receive, Machine.ReceiveTagged, Accepts, Buildable;
      var sent, h := Inquiry(RawQuery.Fetch(code, args));
      if h.None? { return Failed; }
      answer := ReceiveTagged(h.value.bodylen);
    }

    method ReceiveTagged(bodylen: nat) returns (answer: Answer)
      requires Buffered()
      modifies this`status, this`error, socket
      ensures Buffered() && (Core(), answer) == Machine.ReceiveTagged(old(Core()), bodylen)
    {
      hide ReadExact, FromLE, Machine.ReadMessage;
      var tag := ReadBytes(8);
      if tag.None? {
        status := ERR;
        return Failed;
      }
      if bodylen < 8 { return Undefined; }
      var msg := ReadMessage(bodylen - 8);
      if msg.None? { return Undefined; }
      status := OK;
      return Message(FromLE(tag.value), msg.value);
    }

    /** emq_read_message */
    method ReadMessage(length: nat) returns (msg: Option<bytes>)
      requires Buffered()
      modifies this`error, socket
      ensures Buffered() && (Core(), msg) == Machine.ReadMessage(old(Core()), length)
    {
      hide ReadExact, ToInt32;
      msg := ReadBytes(ToInt32(length));
      if msg.None? { error := ERROR_READ; }
    }

    // ----- commands -----

    /** The conversation of every command with the server: arguments refused at once, then a request and,
        outside noack mode, its reply. */
    method Converse(cmd: Command) returns (ok: bool)
      requires Buffered()
      modifies this`status, this`error, this`request, this`size, this`pos, this`noack, request, socket
      ensures Buffered() && request == old(request)
      ensures (Core(), ok) == Machine.Converse(old(Core()), cmd)
    {
      hide Machine.Exchange, RequestOf, ReplyCode, PayloadOf, Accepts;
      if cmd.SetNoack? {
        noack := cmd.on;
        return true;
      }
      if Refused(cmd) {
        SetFailure(ERROR_DATA);
        return false;
      }
      var (code, args) := RequestOf(cmd);
      var bodylen := if cmd.Plain? && code == QUEUE_CONFIRM then None else Some(0);
      ok := Exchange(code, args, PayloadOf(cmd), ReplyCode(cmd), bodylen);
    }

    /** Every command without a registry: the plain ones, push and publish, and the noack switches. */
    method Send(cmd: Command) returns (ok: bool)
      requires Valid() && (cmd.Plain? || cmd.Push? || cmd.SetNoack?)
      modifies Footprint()
      ensures Valid() && request == old(request) && Footprint() == old(Footprint())
      ensures (State(), ok) == Perform(old(State()), cmd)
    {
      hide Machine.Converse, Lists.List.Valid, Lists.List.Values, AllWellFormed, Perform;
      PerformOther(State(), cmd);
      ok := Converse(cmd);
      if ok { history := history + [cmd]; }
    }

    static lemma PerformOther(s: State, cmd: Command)
      requires cmd.Plain? || cmd.Push? || cmd.SetNoack?
      ensures var (core, ok) := Machine.Converse(s.core, cmd);
        Perform(s, cmd) == (s.(core := core, history := if ok then s.history + [cmd] else s.history), ok)
    {
      hide Machine.Converse;
      assert s.freedQueues + [] == s.freedQueues && s.freedChannels + [] == s.freedChannels;
    }

    /** emq_queue_subscribe, emq_channel_subscribe, emq_channel_psubscribe: the new record goes to the head
        of its list. */
    method Subscribe(cmd: Command) returns (ok: bool)
      requires Valid() && (cmd.SubscribeQueue? || cmd.SubscribeChannel?)
      modifies Footprint()
      ensures Valid() && request == old(request) && fresh(Footprint() - old(Footprint()))
      ensures (State(), ok) == Perform(old(State()), cmd)
    {
      hide Machine.Converse, Lists.List.Valid, Lists.List.Values, AllWellFormed, WellFormed, Perform, RecordOf,
        RequestOf, Refused, Buildable;
      PerformSubscribe(State(), cmd);
      ok := Converse(cmd);
      if !ok { return; }
      var record := RecordOf(cmd);
      if cmd.SubscribeQueue? {
        WellFormedCons(record, queueSubscriptions.Values());
        queueSubscriptions.AddValue(record);
      } else {
        WellFormedCons(record, channelSubscriptions.Values());
        channelSubscriptions.AddValue(record);
      }
      history := history + [cmd];
    }

    /** emq_queue_subscription_create, emq_channel_subscription_create */
    static function RecordOf(cmd: Command): (r: Subscription)
      requires cmd.SubscribeQueue? || cmd.SubscribeChannel?
      requires !Refused(cmd) && Buildable(RequestOf(cmd).0, RequestOf(cmd).1)
      ensures WellFormed(r)
    {
      NameFits(cmd);
      if cmd.SubscribeQueue? then QueueRecord(cmd.name, cmd.callback.value)
      else ChannelRecord(cmd.name, cmd.topic, cmd.callback.value)
    }

    static lemma WellFormedCons(r: Subscription, subs: seq<Subscription>)
      requires WellFormed(r) && AllWellFormed(subs)
      ensures AllWellFormed([r] + subs)
    {
      hide WellFormed;
    }

    static lemma PerformSubscribe(s: State, cmd: Command)
      requires cmd.SubscribeQueue? || cmd.SubscribeChannel?
      ensures var (core, ok) := Machine.Converse(s.core, cmd);
        && (ok ==> !Refused(cmd) && Buildable(RequestOf(cmd).0, RequestOf(cmd).1))
        && Perform(s, cmd) ==
        if !ok then (s.(core := core), false)
        else if cmd.SubscribeQueue? then
          (s.(core := core, queues := [RecordOf(cmd)] + s.queues, history := s.history + [cmd]), true)
        else
          (s.(core := core, channels := [RecordOf(cmd)] + s.channels, history := s.history + [cmd]), true)
    {
      hide Machine.Exchange, Buildable, QueueRecord, ChannelRecord, RequestOf, ReplyCode, PayloadOf;
      assert s.freedQueues + [] == s.freedQueues && s.freedChannels + [] == s.freedChannels;
    }

    /** The list that an unsubscription goes through. */
    function ListFor(cmd: Command): Lists.List<Subscription>
      reads this
    {
      if cmd.UnsubscribeQueue? then queueSubscriptions else channelSubscriptions
    }

    /** emq_queue_unsubscribe, emq_channel_unsubscribe, emq_channel_punsubscribe: every record of the name
        is deleted, whatever its topic or pattern. The name may lie in one of those records; the model stops, with
        alive false, where the source would read it after that record is freed. */
    method UnsubscribeAt(cmd: Command, p: NamePointer) returns (ok: bool, alive: bool)
      requires Valid() && (cmd.UnsubscribeQueue? || cmd.UnsubscribeChannel?)
      requires Pointee(p) == cmd.name && (p.Inside? ==> p.owner in ListFor(cmd).nodes)
      modifies Footprint()
      ensures Valid() && request == old(request) && Footprint() == old(Footprint())
      ensures ok == Perform(old(State()), cmd).1
      ensures alive <==> !ok || Outlives(p, old(ListFor(cmd).nodes))
      ensures alive ==> State() == Perform(old(State()), cmd).0
    {
      hide Machine.Converse, Lists.List.Valid, Lists.List.Values, AllWellFormed, WellFormed, Perform, Named, Without,
        Outlives;
      PerformUnsubscribe(State(), cmd);
      ok := Converse(cmd);
      if !ok { return ok, true; }
      if cmd.UnsubscribeQueue? {
        alive := RemoveQueues(p);
      } else {
        alive := RemoveChannels(p);
      }
      history := history + [cmd];
    }

    method RemoveQueues(p: NamePointer) returns (alive: bool)
      requires Valid() && Readable(p, queueSubscriptions.nodes)
      modifies queueSubscriptions.repr
      ensures Valid() && queueSubscriptions.repr == old(queueSubscriptions.repr)
      ensures alive <==> Outlives(p, old(queueSubscriptions.nodes))
      ensures alive ==> State() == old(State()).(queues := Without(old(State().queues), Pointee(p)),
        freedQueues := old(State().freedQueues) + Named(old(State().queues), Pointee(p)))
    {
      hide Lists.List.Valid, AllWellFormed, WellFormed, Named, Without, KeepNodes, Outlives, Pointee;
      ghost var visited;
      alive, visited := RemoveNamed(queueSubscriptions, p);
      StillWellFormed(old(queueSubscriptions.nodes), visited, Pointee(p));
    }

    method RemoveChannels(p: NamePointer) returns (alive: bool)
      requires Valid() && Readable(p, channelSubscriptions.nodes)
      modifies channelSubscriptions.repr
      ensures Valid() && channelSubscriptions.repr == old(channelSubscriptions.repr)
      ensures alive <==> Outlives(p, old(channelSubscriptions.nodes))
      ensures alive ==> State() == old(State()).(channels := Without(old(State().channels), Pointee(p)),
        freedChannels := old(State().freedChannels) + Named(old(State().channels), Pointee(p)))
    {
      hide Lists.List.Valid, AllWellFormed, WellFormed, Named, Without, KeepNodes, Outlives, Pointee;
      ghost var visited;
      alive, visited := RemoveNamed(channelSubscriptions, p);
      StillWellFormed(old(channelSubscriptions.nodes), visited, Pointee(p));
    }

    static lemma StillWellFormed(all: seq<Lists.Node<Subscription>>, visited: seq<Lists.Node<Subscription>>,
                                 name: CString)
      requires AllWellFormed(Lists.ValuesOf(all)) && visited <= all
      ensures AllWellFormed(Without(Lists.ValuesOf(visited), name) + Lists.ValuesOf(all[|visited|..]))
    {
      hide WellFormed, Without;
      var values := Lists.ValuesOf(visited);
      forall i | 0 <= i < |values| ensures WellFormed(values[i]) {
        assert values[i] == Lists.ValuesOf(all)[i];
      }
      WithoutWellFormed(values, name);
      var rest := Lists.ValuesOf(all[|visited|..]);
      forall i | 0 <= i < |rest| ensures WellFormed(rest[i]) {
        assert rest[i] == Lists.ValuesOf(all)[|visited| + i];
      }
    }

    /** The same by a name of the caller's own. */
    method Unsubscribe(cmd: Command) returns (ok: bool)
      requires Valid() && (cmd.UnsubscribeQueue? || cmd.UnsubscribeChannel?)
      modifies Footprint()
      ensures Valid() && request == old(request) && Footprint() == old(Footprint())
      ensures (State(), ok) == Perform(old(State()), cmd)
    {
      hide Perform, Valid, State, Footprint;
      var alive;
      ok, alive := UnsubscribeAt(cmd, Own(cmd.name));
    }

    /** The unsubscription with which a callback passes on the name that it was handed, as its first call: that
        name lies in the record its event was delivered to. The source reads it after it is freed if and only if
        the exchange succeeds and that record is not the oldest on its list. */
    method UnsubscribeHanded(cmd: Command, name: bytes) returns (ok: bool, alive: bool)
      requires Valid() && (cmd.UnsubscribeQueue? || cmd.UnsubscribeChannel?)
      requires |name| == 64 && CStr(name) == cmd.name && Named(ListFor(cmd).Values(), cmd.name) != []
      modifies Footprint()
      ensures Valid() && request == old(request) && Footprint() == old(Footprint())
      ensures ok == Perform(old(State()), cmd).1
      ensures alive <==> !ok || OldestOfAll(old(ListFor(cmd).Values()), cmd.name)
      ensures alive ==> State() == Perform(old(State()), cmd).0
    {
      hide Perform, State, Named, CStr, NameOf, AllWellFormed, Lists.List.Valid, Lists.List.Values, OldestOfAll,
        Outlives;
      var found := FindNamed(ListFor(cmd), name);
      ghost var k: nat :| FirstNamed(ListFor(cmd).nodes, cmd.name, k) && ListFor(cmd).nodes[k] == found;
      HandedOutlives(ListFor(cmd), cmd.name, k);
      ok, alive := UnsubscribeAt(cmd, Inside(found));
    }

    static lemma PerformUnsubscribe(s: State, cmd: Command)
      requires cmd.UnsubscribeQueue? || cmd.UnsubscribeChannel?
      ensures var (core, ok) := Machine.Converse(s.core, cmd);
        && (ok ==> |cmd.name| < 64)
        && Perform(s, cmd) ==
        if !ok then (s.(core := core), false)
        else if cmd.UnsubscribeQueue? then
          (s.(core := core, queues := Without(s.queues, cmd.name),
              freedQueues := s.freedQueues + Named(s.queues, cmd.name), history := s.history + [cmd]), true)
        else
          (s.(core := core, channels := Without(s.channels, cmd.name),
              freedChannels := s.freedChannels + Named(s.channels, cmd.name), history := s.history + [cmd]), true)
    {
      hide Machine.Exchange, Buildable, Named, Without, RequestOf, ReplyCode, PayloadOf;
      assert s.freedQueues + [] == s.freedQueues && s.freedChannels + [] == s.freedChannels;
      if Machine.Converse(s.core, cmd).1 { NameFits(cmd); }
    }

    // ----- calls of either kind -----

    /** Any command. */
    method Do(cmd: Command) returns (ok: bool)
      requires Valid()
      modifies Footprint()
      ensures Valid() && request == old(request) && fresh(Footprint() - old(Footprint()))
      ensures (State(), ok) == Perform(old(State()), cmd)
    {
      hide Valid, Footprint, State, Perform;
      match cmd {
        case SubscribeQueue(_, _, _) => ok := Subscribe(cmd);
        case SubscribeChannel(_, _, _, _) => ok := Subscribe(cmd);
        case UnsubscribeQueue(_) => ok := Unsubscribe(cmd);
        case UnsubscribeChannel(_, _, _) => ok := Unsubscribe(cmd);
        case _ => ok := Send(cmd);
      }
    }

    method Inquired(q: Query) returns (answer: Answer)
      requires Buffered()
      modifies this`status, this`error, this`request, this`size, this`pos, request, socket
      ensures Buffered() && request == old(request)
      ensures (Core(), answer) == Inquire(old(Core()), q)
    {
      hide Inquire, Core;
      match q {
        case Stat => answer := Stat();
        case Number(code, args) => var _, n := Number(code, args); answer := n;
        case Listing(kind, args) => var _, records := Listing(kind, args); answer := records;
        case Fetch(code, args) => answer := Fetch(code, args);
      }
    }

    /** Any query: it leaves the registries, and all that was ever done to them, as they are. */
    method Ask(q: Query) returns (answer: Answer)
      requires Valid()
      modifies Footprint()
      ensures Valid() && request == old(request) && Footprint() == old(Footprint())
      ensures var (core, a) := Inquire(old(State()).core, q);
        answer == a && State() == old(State()).(core := core)
    {
      hide Inquire, Lists.List.Valid, Lists.List.Values, AllWellFormed;
      answer := Inquired(q);
    }

    method Call(call: Call) returns (result: Result)
      requires Valid()
      modifies Footprint()
      ensures Valid() && request == old(request) && fresh(Footprint() - old(Footprint()))
      ensures (State(), result) == Execute(old(State()), call)
    {
      hide Machine.Attempt, Valid, Lists.List.Values;
      var mode := noack;
      result := Attempt(call);
      Enter(Made(call, mode, result));
    }

    method Enter(made: Made)
      requires Valid()
      modifies this`calls
      ensures Valid() && State() == old(State()).(calls := old(calls) + [made])
    {
      hide Lists.List.Valid, Lists.List.Values, AllWellFormed;
      calls := calls + [made];
    }

    method Attempt(call: Call) returns (result: Result)
      requires Valid()
      modifies Footprint()
      ensures Valid() && request == old(request) && fresh(Footprint() - old(Footprint()))
      ensures (State(), result) == Machine.Attempt(old(State()), call)
    {
      hide Valid, Perform, Inquire, Lists.List.Valid, Lists.List.Values;
      match call {
        case Do(cmd) =>
          var ok := Do(cmd);
          result := if cmd.SetNoack? then Switched else Status(ok, error);
        case Ask(q) =>
          var answer := Ask(q);
          result := Data(answer, error);
      }
    }

    // ----- the event loop -----

    /** A user callback: it knows every callback made so far and all that every call has returned, and on that
        it decides, call by call, which to make on this client next, and what to return. */
    method RunCallback(h: Handler, call: Invocation) returns (nonzero: bool)
      requires Valid()
      modifies Footprint()
      ensures Valid() && request == old(request) && fresh(Footprint() - old(Footprint()))
      ensures (State(), nonzero) == Invoke(h, old(State()), call)
    {
      hide Events.RunCallback, AllWellFormed, Lists.List.Valid, Lists.List.Values;
      log := log + [call];
      nonzero := RunCalls(h, h.limit(log, calls));
      returned := returned + [nonzero];
    }

    method RunCalls(h: Handler, limit: nat) returns (nonzero: bool)
      requires Valid()
      modifies Footprint()
      ensures Valid() && request == old(request) && fresh(Footprint() - old(Footprint()))
      ensures (State(), nonzero) == Events.RunCallback(h, old(State()), limit)
    {
      hide Execute, Valid, Lists.List.Values;
      var left := limit;
      while true
        invariant Valid() && request == old(request) && fresh(Footprint() - old(Footprint()))
        invariant Events.RunCallback(h, State(), left) == Events.RunCallback(h, old(State()), limit)
        decreases left
      {
        var action := h.next(log, calls);
        if action.Return? { return action.nonzero; }
        if left == 0 { return false; }
        var _ := Call(action.call);
        left := left - 1;
      }
    }

    method TakeBytes(count: int) returns (data: Option<bytes>)
      requires Valid()
      modifies Footprint()
      ensures Valid() && request == old(request) && Footprint() == old(Footprint())
      ensures (State(), data) == Take(old(State()), count)
    {
      hide ReadExact, Lists.List.Valid, Lists.List.Values, AllWellFormed;
      data := ReadBytes(count);
      if data.None? { error := ERROR_READ; }
    }

    method FindQueue(name: bytes) returns (found: Lists.Node?<Subscription>)
      requires Valid() && |name| == 64
      ensures Newest(State().queues, CStr(name)) == if found == null then None else Some(found.value)
    {
      hide Newest, CStr, AllWellFormed, Lists.List.Valid, Lists.List.Values;
      found := FindNamed(queueSubscriptions, name);
    }

    method FindChannel(name: bytes) returns (found: Lists.Node?<Subscription>)
      requires Valid() && |name| == 64
      ensures Newest(State().channels, CStr(name)) == if found == null then None else Some(found.value)
    {
      hide Newest, CStr, AllWellFormed, Lists.List.Valid, Lists.List.Values;
      found := FindNamed(channelSubscriptions, name);
    }

    method NoQueues() returns (none: bool)
      requires Valid()
      ensures none <==> State().queues == []
    {
      EmptyLength(queueSubscriptions);
      return queueSubscriptions.length == 0;
    }

    /** emq_queue_process */
    method ProcessQueue(h: Handler, e: Header) returns (verdict: int)
      requires Valid()
      modifies Footprint()
      ensures Valid() && request == old(request) && fresh(Footprint() - old(Footprint()))
      ensures (State(), verdict) == Events.ProcessQueue(h, old(State()), e)
    {
      hide Take, Invoke, Newest, CStr, ToInt32, NameOf, Valid, State;
      var name := TakeBytes(64);
      if name.None? { return BROKEN; }
      var found := FindQueue(name.value);
      if found == null { return BROKEN; }
      var msg := None;
      if e.aux == MESSAGE {
        msg := TakeBytes(ToInt32((e.bodylen - 64) % WORD32));
        if msg.None? { return BROKEN; }
      }
      var nonzero := RunCallback(h, OnQueue(found.value.callback, NameOf(found.value), msg));
      var last := NoQueues();
      return if nonzero && last then STOP else GO;
    }

    /** emq_channel_process; its stop condition looks at the queue list, as the source does. */
    method ProcessChannel(h: Handler, e: Header, extended: bool) returns (verdict: int)
      requires Valid()
      modifies Footprint()
      ensures Valid() && request == old(request) && fresh(Footprint() - old(Footprint()))
      ensures (State(), verdict) == Events.ProcessChannel(h, old(State()), e, extended)
    {
      hide Take, Events.DeliverMessage, Valid, State;
      var name := TakeBytes(64);
      if name.None? { return BROKEN; }
      var topic := TakeBytes(32);
      if topic.None? { return BROKEN; }
      var pattern := None;
      if extended {
        pattern := TakeBytes(32);
        if pattern.None? { return BROKEN; }
      }
      verdict := DeliverMessage(h, name.value, topic.value, pattern, e.bodylen - (if extended then 128 else 96));
    }

    method DeliverMessage(h: Handler, name: bytes, topic: bytes, pattern: Option<bytes>, length: int)
      returns (verdict: int)
      requires Valid() && |name| == 64
      modifies Footprint()
      ensures Valid() && request == old(request) && fresh(Footprint() - old(Footprint()))
      ensures (State(), verdict) == Events.DeliverMessage(h, old(State()), name, topic, pattern, length)
    {
      hide Take, Invoke, Newest, CStr, ToInt32, NameOf, Valid, State;
      var found := FindChannel(name);
      if found == null { return BROKEN; }
      var msg := TakeBytes(ToInt32(length % WORD32));
      if msg.None? { return BROKEN; }
      var nonzero := RunCallback(h, OnChannel(found.value.callback, NameOf(found.value), topic, pattern, msg.value));
      var last := NoQueues();
      return if nonzero && last then STOP else GO;
    }

    static lemma EmptyLength(list: Lists.List<Subscription>)
      requires list.Valid()
      ensures list.length == 0 <==> list.Values() == []
    {
    }

    /** The body of the loop of emq_process. */
    method ProcessEvent(h: Handler) returns (verdict: int)
      requires Valid()
      modifies Footprint()
      ensures Valid() && request == old(request) && fresh(Footprint() - old(Footprint()))
      ensures (State(), verdict) == Turn(h, old(State()))
    {
      hide Take, Events.ProcessQueue, Events.ProcessChannel, DecodeHeader, AllWellFormed,
        Lists.List.Valid, Lists.List.Values;
      var data := TakeBytes(HEADER_SIZE);
      if data.None? { return BROKEN; }
      var e := DecodeHeader(data.value);
      if !EventMatches(e, NOTIFY, MESSAGE) {
        error := ERROR_READ;
        return BROKEN;
      }
      if e.code == QUEUE_SUBSCRIBE {
        verdict := ProcessQueue(h, e);
      } else if e.code == CHANNEL_SUBSCRIBE {
        verdict := ProcessChannel(h, e, false);
      } else if e.code == CHANNEL_PSUBSCRIBE {
        verdict := ProcessChannel(h, e, true);
      } else {
        error := ERROR_READ;
        verdict := BROKEN;
      }
    }

    /** The test at the head of the loop: both lists are empty. */
    method Idle() returns (idle: bool)
      requires Valid()
      ensures idle <==> State().queues == [] && State().channels == []
    {
      EmptyLength(queueSubscriptions);
      EmptyLength(channelSubscriptions);
      return queueSubscriptions.length == 0 && channelSubscriptions.length == 0;
    }

    method SetStatus(value: int)
      requires Valid()
      modifies this`status
      ensures Valid() && State() == WithStatus(old(State()), value)
    {
      hide Lists.List.Valid, Lists.List.Values, AllWellFormed;
      status := value;
    }

    method ClearError()
      requires Valid()
      modifies this`error
      ensures Valid() && State() == Cleared(old(State()))
    {
      hide Lists.List.Valid, Lists.List.Values, AllWellFormed;
      error := NO_ERROR;
    }

    /** emq_process: whatever the input, however it is split, and whatever the callbacks do, the loop ends
        in the state and with the result that the specification computes. */
    method Process(h: Handler) returns (result: int)
      requires Valid()
      modifies Footprint()
      ensures Valid() && request == old(request) && fresh(Footprint() - old(Footprint()))
      ensures (State(), result) == Events.Process(h, old(State()))
    {
      hide Turn, Valid, State, Cleared, WithStatus;
      ClearError();
      while true
        invariant Valid() && request == old(request) && fresh(Footprint() - old(Footprint()))
        invariant Loop(h, State()) == Events.Process(h, old(State()))
        decreases |State().core.inp.input|
      {
        var idle := Idle();
        if idle { break; }
        var verdict := ProcessEvent(h);
        if verdict == STOP { break; }
        if verdict != GO {
          SetStatus(ERR);
          return ERR;
        }
      }
      SetStatus(OK);
      return OK;
    }

    /** emq_client_release: the free handlers are given every record still registered, in order. Between the
        unsubscriptions and this release they are then given every record ever subscribed, each exactly once. */
    method Release()
      requires Valid()
      modifies Footprint()
      ensures history == old(history) && log == old(log) && calls == old(calls)
      ensures Buffered() && Core() == old(Core())
      ensures queueSubscriptions.freed == old(queueSubscriptions.freed) + old(queueSubscriptions.Values())
      ensures channelSubscriptions.freed == old(channelSubscriptions.freed) + old(channelSubscriptions.Values())
      ensures old(Tracks(State())) ==>
        && AllSucceeded(history)
        && multiset(queueSubscriptions.freed) == multiset(QueuesAdded(history))
        && multiset(channelSubscriptions.freed) == multiset(ChannelsAdded(history))
    {
      hide AllWellFormed, Named, LiveQueues, LiveChannels, QueuesAdded, ChannelsAdded, Lists.List.Valid,
        Lists.List.Values;
      queueSubscriptions.Release();
      channelSubscriptions.Release();
    }
  }
}
