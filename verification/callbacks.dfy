/** What one turn of the event loop reads, byte by byte, and what its callback does: the calls it decides on, no more
    and no fewer, each carried out; and the same for whole runs of the loop. */
module Callbacks {
  import opened Bytes
  import opened Formats
  import opened Protocol
  import opened Packet
  import opened Network
  import opened Registry
  import opened Machine
  import opened Events
  import opened Dispatching
  import opened Alignment

  // ----- what a turn reads -----

  /** The callback that the bytes to come ask for, and how many bytes they are: a queue event of type 1 without and of
      type 2 with a message, a channel event with or without a pattern, whose name is subscribed. */
  function Announced(s: State): Option<(Invocation, nat)> {
    var b, n := s.core.inp.input, Available(s.core.inp);
    if n < 72 || b[0] != 0x90 || b[1] != 0 || (b[3] != 1 && b[3] != 2) then None
    else
      var name, size := CStr(b[8..72]), 8 + Number4(b, 4);
      if b[2] == 0x2D then
        match Newest(s.queues, name)
        case None => None
        case Some(r) =>
          if b[3] == 1 then Some((OnQueue(r.callback, name, None), 72))
          else if 72 <= size <= n && size - 72 < 0x8000_0000 then
            Some((OnQueue(r.callback, name, Some(b[72..size])), size))
          else None
      else if b[2] == 0x3F || b[2] == 0x40 then
        var start := if b[2] == 0x3F then 104 else 136;
        match Newest(s.channels, name)
        case None => None
        case Some(r) =>
          if start <= size <= n && size - start < 0x8000_0000 then
            var pattern := if b[2] == 0x3F then None else Some(b[104..136]);
            Some((OnChannel(r.callback, name, b[72..104], pattern, b[start..size]), size))
          else None
      else None
  }

  /** The bytes to come begin with an event, whole up to its message, of a name without a subscription. */
  predicate Unclaimed(s: State) {
    var b, n := s.core.inp.input, Available(s.core.inp);
    && n >= 72 && b[0] == 0x90 && b[1] == 0 && (b[3] == 1 || b[3] == 2)
    && if b[2] == 0x2D then Newest(s.queues, CStr(b[8..72])) == None
       else
         && (b[2] == 0x3F || b[2] == 0x40) && n >= (if b[2] == 0x3F then 104 else 136)
         && Newest(s.channels, CStr(b[8..72])) == None
  }

  /** The state with so many bytes read. */
  function At(s: State, k: nat): State
    requires k <= Available(s.core.inp)
  {
    s.(core := s.core.(inp := Network.Advance(s.core.inp, k)))
  }

  lemma TakeAt(s: State, k: nat, n: int)
    requires k <= Available(s.core.inp)
    ensures var (t, data) := Take(At(s, k), n);
      if 0 <= n && k + n <= Available(s.core.inp) then t == At(s, k + n) && data == Some(s.core.inp.input[k..k + n])
      else data == None && t.core.error == ERROR_READ
  {
    hide Network.Advance;
    Reading(s.core.inp, k, n);
  }

  lemma Reading(s: Inbound, k: nat, n: int)
    requires k <= Available(s)
    ensures 0 <= n && k + n <= Available(s) ==>
      ReadExact(Network.Advance(s, k), n) == (Network.Advance(s, k + n), Some(s.input[k..k + n]))
    ensures !(0 <= n && k + n <= Available(s)) ==> ReadExact(Network.Advance(s, k), n).1 == None
  {
    if 0 <= n && k + n <= Available(s) {
      AdvanceComposes(s, k, n);
      assert s.input[k..][..n] == s.input[k..k + n];
    }
  }

  lemma NewestHasName(subs: seq<Subscription>, name: CString)
    ensures var r := Newest(subs, name); r.Some? ==> NameOf(r.value) == name
  {
    NamedHasName(subs, name);
  }

  lemma EventNumbers(b: bytes)
    requires |b| >= 8
    ensures DecodeHeader(b[0..8]) == Header(Number2(b, 0), b[2], b[3], Number4(b, 4))
    ensures Number2(b, 0) == 0x90 <==> b[0] == 0x90 && b[1] == 0
  {
    HeaderIsNumbers(b[0..8]);
  }

  lemma Length(bodylen: nat, part: nat, n: nat)
    requires bodylen < WORD32 && part < SIGN32
    ensures var size := ToInt32((bodylen - part) % WORD32);
      0 <= size <= n <==> part <= bodylen && bodylen - part <= n && bodylen - part < SIGN32
    ensures part <= bodylen && bodylen - part < SIGN32 ==> ToInt32((bodylen - part) % WORD32) == bodylen - part
    ensures !(part <= bodylen && bodylen - part < SIGN32) ==> ToInt32((bodylen - part) % WORD32) < 0
  {
  }

  /** The result of a step of the loop that was asked for a callback, or not. */
  ghost predicate TurnsOut(h: Handler, s: State, r: (State, int)) {
    match Announced(s)
    case None => r.1 == BROKEN && r.0.core.error == if Unclaimed(s) then s.core.error else ERROR_READ
    case Some((call, size)) =>
      size <= Available(s.core.inp) &&
      var (t, nonzero) := Invoke(h, At(s, size), call);
      r == (t, if nonzero && t.queues == [] then STOP else GO)
  }

  lemma QueueReads(h: Handler, s: State)
    requires Available(s.core.inp) >= 8
    requires var b := s.core.inp.input; b[0] == 0x90 && b[1] == 0 && b[2] == 0x2D && (b[3] == 1 || b[3] == 2)
    ensures TurnsOut(h, s, ProcessQueue(h, At(s, 8), DecodeHeader(s.core.inp.input[0..8])))
  {
    hide Take, Invoke, Newest, CStr, ToInt32, NameOf, DecodeHeader, Number4, Number2, Network.Advance;
    var b := s.core.inp.input;
    EventNumbers(b);
    TakeAt(s, 8, 64);
    if Available(s.core.inp) >= 72 {
      NewestHasName(s.queues, CStr(b[8..72]));
      Length(Number4(b, 4), 64, Available(s.core.inp) - 72);
      TakeAt(s, 72, ToInt32((Number4(b, 4) - 64) % WORD32));
    }
  }

  lemma DeliveryReads(h: Handler, s: State, start: nat, name: bytes, topic: bytes, pattern: Option<bytes>, bodylen: nat)
    requires 8 <= start <= Available(s.core.inp) && start < 0x100 && bodylen < WORD32
    ensures var r := DeliverMessage(h, At(s, start), name, topic, pattern, bodylen - (start - 8));
      match Newest(s.channels, CStr(name))
      case None => r == (At(s, start), BROKEN)
      case Some(record) =>
        var size := 8 + bodylen;
        if start <= size <= Available(s.core.inp) && size - start < 0x8000_0000 then
          var call := OnChannel(record.callback, CStr(name), topic, pattern, s.core.inp.input[start..size]);
          var (t, nonzero) := Invoke(h, At(s, size), call);
          r == (t, if nonzero && t.queues == [] then STOP else GO)
        else r.1 == BROKEN && r.0.core.error == ERROR_READ
  {
    hide Take, Invoke, Newest, CStr, ToInt32, NameOf, Network.Advance;
    NewestHasName(s.channels, CStr(name));
    Length(bodylen, start - 8, Available(s.core.inp) - start);
    TakeAt(s, start, ToInt32((bodylen - (start - 8)) % WORD32));
  }

  lemma PreambleReads(h: Handler, s: State, e: Header, extended: bool)
    requires Available(s.core.inp) >= 8
    ensures var r := ProcessChannel(h, At(s, 8), e, extended); var b := s.core.inp.input;
      var start := if extended then 136 else 104;
      if Available(s.core.inp) < start then r.1 == BROKEN && r.0.core.error == ERROR_READ
      else r == DeliverMessage(h, At(s, start), b[8..72], b[72..104], if extended then Some(b[104..136]) else None,
                               e.bodylen - (start - 8))
  {
    hide Take, DeliverMessage, Network.Advance;
    TakeAt(s, 8, 64);
    if Available(s.core.inp) >= 72 {
      TakeAt(s, 72, 32);
      if Available(s.core.inp) >= 104 {
        TakeAt(s, 104, 32);
      }
    }
  }

  lemma ChannelReads(h: Handler, s: State)
    requires Available(s.core.inp) >= 8
    requires var b := s.core.inp.input;
      b[0] == 0x90 && b[1] == 0 && (b[2] == 0x3F || b[2] == 0x40) && (b[3] == 1 || b[3] == 2)
    ensures var b := s.core.inp.input;
      TurnsOut(h, s, ProcessChannel(h, At(s, 8), DecodeHeader(b[0..8]), b[2] == 0x40))
  {
    hide Take, DeliverMessage, ProcessChannel, Invoke, Newest, CStr, NameOf, DecodeHeader, Number4, Number2,
      Network.Advance, Available;
    var b, n := s.core.inp.input, Available(s.core.inp);
    EventNumbers(b);
    PreambleReads(h, s, DecodeHeader(b[0..8]), b[2] == 0x40);
    if b[2] == 0x3F {
      if n >= 104 { DeliveryReads(h, s, 104, b[8..72], b[72..104], None, Number4(b, 4)); }
    } else if n >= 136 {
      DeliveryReads(h, s, 136, b[8..72], b[72..104], Some(b[104..136]), Number4(b, 4));
    }
  }

  /** A turn, on any input: it makes a callback exactly when the bytes to come are an event that asks for it - magic
      0x90, type 1 or 2, the code of a queue, channel or pattern event, a name that is subscribed, and a message that
      arrives whole - and then it has read that event and nothing else. Otherwise it breaks off, with an error text
      but for a name that is not subscribed. */
  lemma TurnReads(h: Handler, s: State)
    ensures TurnsOut(h, s, Turn(h, s))
  {
    hide Take, ProcessQueue, ProcessChannel, Invoke, Newest, CStr, DecodeHeader, Number4, Number2;
    var b := s.core.inp.input;
    AdvanceNothing(s.core.inp);
    assert At(s, 0) == s;
    TakeAt(s, 0, 8);
    if Available(s.core.inp) >= 8 {
      EventNumbers(b);
      if EventMatches(DecodeHeader(b[0..8]), NOTIFY, MESSAGE) {
        if b[2] == 0x2D { QueueReads(h, s); }
        if b[2] == 0x3F || b[2] == 0x40 { ChannelReads(h, s); }
      }
    }
  }

  // ----- what a callback does -----

  function CallsOf(made: seq<Made>): (calls: seq<Call>)
    ensures |calls| == |made|
  {
    seq(|made|, i requires 0 <= i < |made| => made[i].call)
  }

  function ResultsOf(made: seq<Made>): (results: seq<Result>)
    ensures |results| == |made|
  {
    seq(|made|, i requires 0 <= i < |made| => made[i].result)
  }

  /** From one state to another a callback has made the calls that it decided on, each knowing what those before it
      returned; each was carried out; and it returned what it decided to, or zero with its limit used up. */
  ghost predicate Decided(h: Handler, u: State, limit: nat, t: State, nonzero: bool) {
    && u.calls <= t.calls && t.log == u.log && t.returned == u.returned
    && var made := t.calls[|u.calls|..];
    && |made| <= limit
    && (forall k :: |u.calls| <= k < |t.calls| ==> h.next(u.log, t.calls[..k]) == Issue(t.calls[k].call))
    && (h.next(u.log, t.calls) == Return(nonzero)
        || (|made| == limit && !nonzero && h.next(u.log, t.calls).Issue?))
    && ExecuteAll(u, CallsOf(made)) == (t, ResultsOf(made))
  }

  lemma {:induction false} CallbackDecides(h: Handler, u: State, limit: nat)
    ensures var (t, nonzero) := RunCallback(h, u, limit); Decided(h, u, limit, t, nonzero)
    decreases limit
  {
    hide Execute, Decided;
    match h.next(u.log, u.calls) {
      case Return(b) => DecidesNothing(h, u, limit, b);
      case Issue(call) =>
        if limit == 0 {
          DecidesNothing(h, u, limit, false);
        } else {
          CallbackDecides(h, Execute(u, call).0, limit - 1);
          DecidesNext(h, u, limit, call);
        }
    }
  }

  lemma DecidesNothing(h: Handler, u: State, limit: nat, nonzero: bool)
    requires h.next(u.log, u.calls) == Return(nonzero) || (limit == 0 && !nonzero && h.next(u.log, u.calls).Issue?)
    ensures Decided(h, u, limit, u, nonzero)
  {
    assert u.calls[|u.calls|..] == [] && u.calls[..|u.calls|] == u.calls;
  }

  lemma DecidesNext(h: Handler, u: State, limit: nat, call: Call)
    requires limit > 0 && h.next(u.log, u.calls) == Issue(call)
    requires var v := Execute(u, call).0; var (t, nonzero) := RunCallback(h, v, limit - 1);
      Decided(h, v, limit - 1, t, nonzero)
    ensures var v := Execute(u, call).0; var (t, nonzero) := RunCallback(h, v, limit - 1);
      Decided(h, u, limit, t, nonzero)
  {
    hide Execute, RunCallback;
    var (v, result) := Execute(u, call);
    var (t, nonzero) := RunCallback(h, v, limit - 1);
    ExecuteKeeps(u, call);
    var entry := Made(call, u.core.noack, result);
    var later := t.calls[|v.calls|..];
    var made := t.calls[|u.calls|..];
    Entries(u.calls, entry, t.calls);
    assert CallsOf(made)[0] == call && CallsOf(made)[1..] == CallsOf(later);
    assert ResultsOf(made) == [result] + ResultsOf(later);
    forall k | |u.calls| <= k < |t.calls| ensures h.next(u.log, t.calls[..k]) == Issue(t.calls[k].call) {
      if k == |u.calls| { assert t.calls[..k] == u.calls; }
    }
  }

  lemma ExecuteKeeps(u: State, call: Call)
    ensures var (v, result) := Execute(u, call);
      v.log == u.log && v.returned == u.returned && v.calls == u.calls + [Made(call, u.core.noack, result)]
  {
  }

  lemma Entries(calls: seq<Made>, entry: Made, all: seq<Made>)
    requires calls + [entry] <= all
    ensures calls <= all && all[|calls|] == entry
    ensures all[|calls|..] == [entry] + all[|calls| + 1..]
  {
  }

  /** A callback that was asked for in a state, and what it has made of it: the event is read, the callback logged, and
      then it was the callback's. */
  ghost predicate Obeyed(h: Handler, s: State, t: State) {
    var a := Announced(s);
    && a.Some? && a.value.1 <= Available(s.core.inp)
    && |t.returned| == |s.returned| + 1 && t.returned[..|s.returned|] == s.returned
    && var u := At(s, a.value.1).(log := s.log + [a.value.0]);
    Decided(h, u, h.limit(u.log, u.calls), t.(returned := s.returned), t.returned[|s.returned|])
  }

  /** A turn that makes a callback makes the one that the bytes ask for, and that does what it decides. */
  lemma TurnObeys(h: Handler, s: State)
    ensures var (t, verdict) := Turn(h, s);
      verdict != BROKEN ==> Obeyed(h, s, t) && (verdict == STOP <==> t.returned[|s.returned|] && t.queues == [])
  {
    hide Turn, Announced, RunCallback, Decided, Network.Advance;
    TurnReads(h, s);
    var a := Announced(s);
    if a.Some? {
      var u := At(s, a.value.1).(log := s.log + [a.value.0]);
      CallbackDecides(h, u, h.limit(u.log, u.calls));
      var (t, nonzero) := RunCallback(h, u, h.limit(u.log, u.calls));
      assert t.(returned := s.returned) == t by { DecidedKeeps(h, u, h.limit(u.log, u.calls), t, nonzero); }
      assert Turn(h, s).0.(returned := s.returned) == t;
    }
  }

  lemma DecidedKeeps(h: Handler, u: State, limit: nat, t: State, nonzero: bool)
    requires Decided(h, u, limit, t, nonzero)
    ensures t.returned == u.returned && t.log == u.log && u.calls <= t.calls
  {
  }

  /** Over any run of the loop: every turn that made a callback made the one that its bytes asked for, which did what it
      decided; each turn began where the one before it ended; and the loop ended where the last of them did, having
      touched nothing but the connection since. */
  lemma {:induction false} LoopObeys(h: Handler, s: State)
    ensures var turns, (end, result) := Turns(h, s), Loop(h, s);
      && (forall k :: 0 <= k < |turns| ==> Obeyed(h, turns[k], Turn(h, turns[k]).0))
      && var last := if turns == [] then s else Turn(h, turns[|turns| - 1]).0;
      && end == last.(core := end.core)
      && (result == OK ==> end == WithStatus(last, OK))
      && (result == ERR ==> end == WithStatus(Turn(h, last).0, ERR) && Announced(last) == None)
    decreases |s.core.inp.input|
  {
    hide Turn, Obeyed, Announced;
    if !(s.queues == [] && s.channels == []) {
      TurnShape(h, s);
      TurnObeys(h, s);
      TurnReads(h, s);
      var (t, verdict) := Turn(h, s);
      if verdict == GO {
        LoopObeys(h, t);
        var turns, more := Turns(h, s), Turns(h, t);
        assert turns == [s] + more;
        forall k | 0 <= k < |turns| ensures Obeyed(h, turns[k], Turn(h, turns[k]).0) {
          if k > 0 { assert turns[k] == more[k - 1]; }
        }
      }
    }
  }

  // ----- the error text -----

  /** The error that calls leave, from the one there was before them; a switch of the mode leaves it alone. */
  function ErrorAfter(e: ErrorIndex, made: seq<Made>): ErrorIndex {
    if made == [] then e
    else
      match made[|made| - 1].result
      case Switched => ErrorAfter(e, made[..|made| - 1])
      case Status(_, error) => error
      case Data(_, error) => error
  }

  lemma {:induction false} ErrorsCompose(e: ErrorIndex, a: seq<Made>, b: seq<Made>)
    ensures ErrorAfter(e, a + b) == ErrorAfter(ErrorAfter(e, a), b)
    decreases |b|
  {
    if b == [] {
      assert a + b == a;
    } else {
      assert (a + b)[..|a + b| - 1] == a + b[..|b| - 1];
      ErrorsCompose(e, a, b[..|b| - 1]);
    }
  }

  /** Between two states the calls made account for the error that is left. */
  ghost predicate Accounted(s: State, t: State) {
    s.calls <= t.calls && t.core.error == ErrorAfter(s.core.error, t.calls[|s.calls|..])
  }

  lemma AccountsCompose(s: State, t: State, u: State)
    requires Accounted(s, t) && Accounted(t, u)
    ensures Accounted(s, u)
  {
    hide ErrorAfter;
    ErrorsCompose(s.core.error, t.calls[|s.calls|..], u.calls[|t.calls|..]);
    assert u.calls[|s.calls|..] == t.calls[|s.calls|..] + u.calls[|t.calls|..];
  }

  lemma NothingToAccount(s: State, t: State)
    requires s.calls == t.calls && s.core.error == t.core.error
    ensures Accounted(s, t)
  {
    assert t.calls[|s.calls|..] == [];
  }

  lemma ExecuteAccounted(s: State, call: Call)
    ensures Accounted(s, Execute(s, call).0)
  {
    hide Execute, ErrorAfter;
    var (t, result) := Execute(s, call);
    OneError(s.core.error, Made(call, s.core.noack, result));
    ErrorReported(s, call);
    assert t.calls[|s.calls|..] == [Made(call, s.core.noack, result)];
  }

  lemma OneError(e: ErrorIndex, made: Made)
    ensures ErrorAfter(e, [made])
         == match made.result case Switched => e case Status(_, error) => error case Data(_, error) => error
  {
    assert [made][..0] == [];
  }

  lemma ErrorReported(s: State, call: Call)
    ensures var (t, result) := Execute(s, call);
      t.core.error ==
        match result case Switched => s.core.error case Status(_, error) => error case Data(_, error) => error
  {
    hide Perform, Inquire;
    SwitchKeepsError(s, call);
  }

  lemma SwitchKeepsError(s: State, call: Call)
    ensures call.Do? && call.cmd.SetNoack? ==> Perform(s, call.cmd).0.core.error == s.core.error
  {
  }

  lemma {:induction false} CallbackAccounted(h: Handler, s: State, limit: nat)
    ensures Accounted(s, RunCallback(h, s, limit).0)
    decreases limit
  {
    hide Execute, Accounted;
    NothingToAccount(s, s);
    match h.next(s.log, s.calls) {
      case Return(_) =>
      case Issue(call) =>
        if limit > 0 {
          ExecuteAccounted(s, call);
          CallbackAccounted(h, Execute(s, call).0, limit - 1);
          AccountsCompose(s, Execute(s, call).0, RunCallback(h, s, limit).0);
        }
    }
  }

  lemma TurnAccounted(h: Handler, s: State)
    ensures var (t, verdict) := Turn(h, s); verdict != BROKEN ==> Accounted(s, t)
  {
    hide Turn, Announced, RunCallback, ErrorAfter, Network.Advance;
    TurnReads(h, s);
    var a := Announced(s);
    if a.Some? {
      var u := At(s, a.value.1).(log := s.log + [a.value.0]);
      CallbackAccounted(h, u, h.limit(u.log, u.calls));
    }
  }

  lemma {:induction false} LoopAccounted(h: Handler, s: State)
    ensures Loop(h, s).1 == OK ==> Accounted(s, Loop(h, s).0)
    decreases |s.core.inp.input|
  {
    hide Turn, Accounted;
    NothingToAccount(s, WithStatus(s, OK));
    if !(s.queues == [] && s.channels == []) {
      TurnShape(h, s);
      TurnAccounted(h, s);
      var (t, verdict) := Turn(h, s);
      NothingToAccount(t, WithStatus(t, OK));
      if verdict == GO {
        LoopAccounted(h, t);
        if Loop(h, t).1 == OK { AccountsCompose(s, t, Loop(h, t).0); }
      } else if verdict == STOP {
        AccountsCompose(s, t, WithStatus(t, OK));
      }
    }
  }

  /** emq_process clears the error first: if it returns 0 the error is the one its callbacks' calls left, and there is
      none if they made no call, whatever error there was before; and it returns 0 or -1. */
  lemma ProcessError(h: Handler, s: State)
    ensures var (t, result) := Process(h, s);
      && s.calls <= t.calls
      && (result == 0 || result == -1) && t.core.status == result
      && (result == 0 ==> t.core.error == ErrorAfter(NO_ERROR, t.calls[|s.calls|..]))
      && (result == 0 && t.calls == s.calls ==> ErrorText(t.core.error) == "")
  {
    hide Loop;
    LoopResult(h, Cleared(s));
    LoopAccounted(h, Cleared(s));
    LoopCalls(h, Cleared(s));
  }

  lemma {:induction false} LoopCalls(h: Handler, s: State)
    ensures s.calls <= Loop(h, s).0.calls
    decreases |s.core.inp.input|
  {
    hide Turn;
    if !(s.queues == [] && s.channels == []) {
      TurnShape(h, s);
      TurnAccounted(h, s);
      if Turn(h, s).1 == GO { LoopCalls(h, Turn(h, s).0); }
    }
  }
}
