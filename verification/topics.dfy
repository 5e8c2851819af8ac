/** Where channel subscriptions depart from the documentation. It has separate calls to subscribe and to
    unsubscribe by topic and by pattern; the client tells its records apart by the name of the channel alone. */
module Topics {
  import opened Bytes
  import opened Registry
  import opened Protocol
  import opened Machine
  import opened History

  /** A subscription as the documentation sees it: its form, its topic or pattern, and its record. */
  datatype Entry = Entry(pattern: bool, topic: CString, record: Subscription)

  function EntryOf(cmd: Command): Entry
    requires cmd.SubscribeChannel? && Succeeded(cmd)
  {
    NameFits(cmd);
    Entry(cmd.pattern, cmd.topic, ChannelRecord(cmd.name, cmd.topic, cmd.callback.value))
  }

  /** The entry was made by the form of call, and for the topic or pattern, given. */
  predicate Made(e: Entry, pattern: bool, topic: CString) {
    e.pattern == pattern && e.topic == topic
  }

  function Except(es: seq<Entry>, pattern: bool, topic: CString): seq<Entry> {
    if es == [] then []
    else (if Made(es[0], pattern, topic) then [] else [es[0]]) + Except(es[1..], pattern, topic)
  }

  function FirstMade(es: seq<Entry>, pattern: bool, topic: CString): Option<Entry> {
    if es == [] then None
    else if Made(es[0], pattern, topic) then Some(es[0])
    else FirstMade(es[1..], pattern, topic)
  }

  predicate AllMade(es: seq<Entry>, pattern: bool, topic: CString) {
    forall i :: 0 <= i < |es| ==> Made(es[i], pattern, topic)
  }

  function RecordsOf(es: seq<Entry>): (rs: seq<Subscription>)
    ensures |rs| == |es|
  {
    if es == [] then [] else [es[0].record] + RecordsOf(es[1..])
  }

  /** The live subscriptions of a channel by the documentation, newest first: an unsubscription by topic ends
      those by that topic, one by pattern those by that pattern, and neither any other. */
  function Documented(history: seq<Command>, name: CString): seq<Entry>
    requires AllSucceeded(history)
  {
    if history == [] then []
    else
      var last := history[|history| - 1];
      var before := Documented(history[..|history| - 1], name);
      if last.UnsubscribeChannel? && last.name == name then Except(before, last.pattern, last.topic)
      else if last.SubscribeChannel? && last.name == name then [EntryOf(last)] + before
      else before
  }

  /** The live subscriptions of a channel as the client keeps them, with their forms. */
  function Kept(history: seq<Command>, name: CString): seq<Entry>
    requires AllSucceeded(history)
  {
    if history == [] then []
    else
      var last := history[|history| - 1];
      var before := Kept(history[..|history| - 1], name);
      if last.UnsubscribeChannel? && last.name == name then []
      else if last.SubscribeChannel? && last.name == name then [EntryOf(last)] + before
      else before
  }

  /** The kept entries are the records of the registry. */
  lemma {:induction false} KeptIsLive(history: seq<Command>, name: CString)
    requires AllSucceeded(history)
    ensures RecordsOf(Kept(history, name)) == LiveChannels(history, name)
  {
    hide ChannelRecord, Succeeded;
    if history != [] {
      var last, front := history[|history| - 1], history[..|history| - 1];
      KeptIsLive(front, name);
      if last.SubscribeChannel? && last.name == name {
        assert Succeeded(last);
        assert ([EntryOf(last)] + Kept(front, name))[1..] == Kept(front, name);
      }
    }
  }

  /** Nothing that the documentation would keep was lost at the last unsubscription of the channel: every
      subscription then live was by the form, and for the topic or pattern, that it names. */
  predicate LastExact(history: seq<Command>, name: CString)
    requires AllSucceeded(history)
  {
    if history == [] then true
    else
      var last, front := history[|history| - 1], history[..|history| - 1];
      if last.UnsubscribeChannel? && last.name == name then
        AllMade(Documented(front, name), last.pattern, last.topic)
      else LastExact(front, name)
  }

  lemma {:induction false} ExceptAll(es: seq<Entry>, pattern: bool, topic: CString)
    ensures Except(es, pattern, topic) == [] <==> AllMade(es, pattern, topic)
  {
    hide Made;
    if es != [] {
      ExceptAll(es[1..], pattern, topic);
      if AllMade(es[1..], pattern, topic) && Made(es[0], pattern, topic) {
        forall i | 0 <= i < |es| ensures Made(es[i], pattern, topic) {
          if i > 0 { assert es[i] == es[1..][i - 1]; }
        }
      }
    }
  }

  /** What the client keeps is a prefix of what the documentation would have it keep, and all of it exactly
      when its last unsubscription of the channel took no more than it named. */
  lemma {:induction false} KeptIsPrefix(history: seq<Command>, name: CString)
    requires AllSucceeded(history)
    ensures Kept(history, name) <= Documented(history, name)
    ensures Kept(history, name) == Documented(history, name) <==> LastExact(history, name)
  {
    hide Except, AllMade, EntryOf, Succeeded;
    if history != [] {
      var last, front := history[|history| - 1], history[..|history| - 1];
      KeptIsPrefix(front, name);
      if last.UnsubscribeChannel? && last.name == name {
        ExceptAll(Documented(front, name), last.pattern, last.topic);
      } else if last.SubscribeChannel? && last.name == name {
        var e, kept, all := EntryOf(last), Kept(front, name), Documented(front, name);
        assert ([e] + kept)[1..] == kept && ([e] + all)[1..] == all;
      }
    }
  }

  lemma RecordsOfPrefix(a: seq<Entry>, b: seq<Entry>)
    requires a <= b
    ensures RecordsOf(a) == RecordsOf(b) <==> a == b
  {
  }

  /** The records the client holds for a channel are those that the documentation promises if and only if the
      last unsubscription of the channel, if there was one, found only subscriptions of its own form and topic
      or pattern live. */
  lemma UnsubscribeMeetsDocumentation(s: State, name: CString)
    requires Tracks(s)
    ensures AllSucceeded(s.history)
    ensures Named(s.channels, name) == RecordsOf(Documented(s.history, name)) <==> LastExact(s.history, name)
  {
    hide Named, LiveQueues, LiveChannels, Documented, Kept, LastExact, Owned, AllWellFormed, AllSucceeded;
    KeptIsLive(s.history, name);
    KeptIsPrefix(s.history, name);
    RecordsOfPrefix(Kept(s.history, name), Documented(s.history, name));
  }

  /** The subscription that the client delivers an event of a channel to. */
  function Delivered(history: seq<Command>, name: CString): Option<Entry>
    requires AllSucceeded(history)
  {
    var kept := Kept(history, name);
    if kept == [] then None else Some(kept[0])
  }

  lemma DeliveredIsNewest(s: State, name: CString)
    requires Tracks(s)
    ensures AllSucceeded(s.history)
    ensures var e := Delivered(s.history, name);
      Newest(s.channels, name) == if e == None then None else Some(e.value.record)
  {
    hide Named, LiveQueues, LiveChannels, Kept, Owned, AllWellFormed, AllSucceeded;
    KeptIsLive(s.history, name);
    NewestIsLive(s, name);
  }

  /** The last call on the channel by this form, and for this topic or pattern, was a subscription. */
  predicate LastSubscribes(history: seq<Command>, name: CString, pattern: bool, topic: CString) {
    if history == [] then false
    else
      var last := history[|history| - 1];
      if (last.SubscribeChannel? || last.UnsubscribeChannel?)
         && last.name == name && last.pattern == pattern && last.topic == topic
      then last.SubscribeChannel?
      else LastSubscribes(history[..|history| - 1], name, pattern, topic)
  }

  lemma {:induction false} FirstExcept(es: seq<Entry>, p: bool, t: CString, pattern: bool, topic: CString)
    ensures FirstMade(Except(es, p, t), pattern, topic)
         == if p == pattern && t == topic then None else FirstMade(es, pattern, topic)
  {
    if es != [] {
      FirstExcept(es[1..], p, t, pattern, topic);
      var rest := Except(es[1..], p, t);
      assert ([es[0]] + rest)[1..] == rest && [] + rest == rest;
    }
  }

  /** The documentation has a subscription for a topic, or a pattern, exactly when the last call for it
      subscribed. */
  lemma {:induction false} DocumentedIsLast(history: seq<Command>, name: CString, pattern: bool, topic: CString)
    requires AllSucceeded(history)
    ensures FirstMade(Documented(history, name), pattern, topic).Some?
       <==> LastSubscribes(history, name, pattern, topic)
  {
    hide Except, EntryOf, Succeeded;
    if history != [] {
      var last, front := history[|history| - 1], history[..|history| - 1];
      DocumentedIsLast(front, name, pattern, topic);
      if last.UnsubscribeChannel? && last.name == name {
        FirstExcept(Documented(front, name), last.pattern, last.topic, pattern, topic);
      } else if last.SubscribeChannel? && last.name == name {
        EntryForm(last);
        assert ([EntryOf(last)] + Documented(front, name))[1..] == Documented(front, name);
      }
    }
  }

  /** An event of a topic, or of a pattern, reaches the newest subscription that the documentation has for it if
      and only if the newest subscription the client keeps of the channel is one for it; or, when it keeps none,
      the last call for it was no subscription. */
  lemma DeliveryMeetsDocumentation(history: seq<Command>, name: CString, pattern: bool, topic: CString)
    requires AllSucceeded(history)
    ensures Delivered(history, name) == FirstMade(Documented(history, name), pattern, topic) <==>
      var kept := Kept(history, name);
      if kept != [] then Made(kept[0], pattern, topic)
      else !LastSubscribes(history, name, pattern, topic)
  {
    hide Kept, Documented, EntryOf, LastExact, LastSubscribes;
    DocumentedIsLast(history, name, pattern, topic);
    KeptIsPrefix(history, name);
    var kept, all := Kept(history, name), Documented(history, name);
    FirstIsMade(all, pattern, topic);
    if kept != [] { assert all[0] == kept[0]; }
  }

  lemma {:induction false} FirstIsMade(es: seq<Entry>, pattern: bool, topic: CString)
    ensures var first := FirstMade(es, pattern, topic); first.Some? ==> Made(first.value, pattern, topic)
  {
    hide Made;
    if es != [] { FirstIsMade(es[1..], pattern, topic); }
  }

  // ----- inputs on which the documentation is not met -----

  lemma Appended(history: seq<Command>, cmd: Command, name: CString)
    requires AllSucceeded(history) && Succeeded(cmd)
    ensures AllSucceeded(history + [cmd])
    ensures cmd.SubscribeChannel? && cmd.name == name ==>
      && Documented(history + [cmd], name) == [EntryOf(cmd)] + Documented(history, name)
      && Kept(history + [cmd], name) == [EntryOf(cmd)] + Kept(history, name)
    ensures cmd.UnsubscribeChannel? && cmd.name == name ==>
      && Documented(history + [cmd], name) == Except(Documented(history, name), cmd.pattern, cmd.topic)
      && Kept(history + [cmd], name) == []
  {
    hide Succeeded, EntryOf, Except;
    assert (history + [cmd])[..|history|] == history;
  }

  lemma ChannelCommandSucceeds(cmd: Command)
    requires cmd.SubscribeChannel? || cmd.UnsubscribeChannel?
    requires |cmd.name| < 64 && |cmd.topic| < 32 && (cmd.SubscribeChannel? ==> cmd.callback.Some?)
    ensures Succeeded(cmd)
  {
    var (code, args) := RequestOf(cmd);
    assert LayoutOf(code) == Some(NAME_TOPIC);
  }

  /** Two subscriptions to a channel that differ in their topic or only in their form, and an unsubscription of
      the newer one: the documentation keeps the older one, the client keeps neither. */
  lemma UnsubscribeTakesBoth(first: Command, second: Command, third: Command)
    requires Succeeded(first) && Succeeded(second) && Succeeded(third)
    requires first.SubscribeChannel? && second.SubscribeChannel? && third.UnsubscribeChannel?
    requires first.name == second.name == third.name
    requires second.pattern == third.pattern && second.topic == third.topic
    requires first.pattern != third.pattern || first.topic != third.topic
    ensures AllSucceeded([first, second, third])
    ensures Documented([first, second, third], third.name) == [EntryOf(first)]
    ensures LiveChannels([first, second, third], third.name) == []
    ensures !LastExact([first, second, third], third.name)
  {
    hide Succeeded, EntryOf, LiveChannels, Documented, Kept, LastExact, Except, RecordsOf, AllSucceeded, Made;
    var name := third.name;
    NothingYet(name);
    Appended([], first, name);
    assert [] + [first] == [first];
    Appended([first], second, name);
    assert [first] + [second] == [first, second];
    Appended([first, second], third, name);
    assert [first, second] + [third] == [first, second, third];
    EntryForm(first);
    EntryForm(second);
    assert [EntryOf(first)] + [] == [EntryOf(first)];
    ExceptNewer(EntryOf(second), EntryOf(first), third.pattern, third.topic);
    KeptIsLive([first, second, third], name);
    KeptIsPrefix([first, second, third], name);
    NoRecords();
  }

  /** The same on one input: a pattern and a topic with the same string, then an unsubscription by topic. */
  lemma PatternLostWithTopic(name: CString, t: CString, c: Callback, d: Callback)
    requires |name| < 64 && |t| < 32
    ensures var psubscribe: Command := SubscribeChannel(true, name, t, Some(c));
      var subscribe: Command := SubscribeChannel(false, name, t, Some(d));
      var unsubscribe: Command := UnsubscribeChannel(false, name, t);
      && Succeeded(psubscribe) && AllSucceeded([psubscribe, subscribe, unsubscribe])
      && Documented([psubscribe, subscribe, unsubscribe], name) == [EntryOf(psubscribe)]
      && LiveChannels([psubscribe, subscribe, unsubscribe], name) == []
  {
    hide Succeeded, EntryOf, LiveChannels, Documented, AllSucceeded, LastExact;
    var psubscribe: Command := SubscribeChannel(true, name, t, Some(c));
    var subscribe: Command := SubscribeChannel(false, name, t, Some(d));
    var unsubscribe: Command := UnsubscribeChannel(false, name, t);
    ChannelCommandSucceeds(psubscribe);
    ChannelCommandSucceeds(subscribe);
    ChannelCommandSucceeds(unsubscribe);
    UnsubscribeTakesBoth(psubscribe, subscribe, unsubscribe);
  }

  lemma ExceptNewer(newer: Entry, older: Entry, pattern: bool, topic: CString)
    requires Made(newer, pattern, topic) && !Made(older, pattern, topic)
    ensures Except([newer] + [older], pattern, topic) == [older]
  {
    hide Made;
    var two := [newer] + [older];
    assert two[1..] == [older] && [older][1..] == [];
    assert Except([older], pattern, topic) == [older] + [];
  }

  lemma NoRecords()
    ensures RecordsOf([]) == []
  {
  }

  lemma EntryForm(cmd: Command)
    requires cmd.SubscribeChannel? && Succeeded(cmd)
    ensures EntryOf(cmd).pattern == cmd.pattern && EntryOf(cmd).topic == cmd.topic
    ensures forall p, t :: Made(EntryOf(cmd), p, t) <==> cmd.pattern == p && cmd.topic == t
  {
  }

  lemma NothingYet(name: CString)
    ensures AllSucceeded([]) && Documented([], name) == [] && Kept([], name) == []
  {
  }

  /** A subscription by pattern made after one by topic, with the same string: the topic's events go to the
      pattern's callback. */
  lemma PatternTakesTopic(name: CString, t: CString, c: Callback, d: Callback)
    requires |name| < 64 && |t| < 32
    ensures var first: Command := SubscribeChannel(false, name, t, Some(c));
      var second: Command := SubscribeChannel(true, name, t, Some(d));
      && AllSucceeded([first, second]) && Succeeded(first) && Succeeded(second)
      && Delivered([first, second], name) == Some(EntryOf(second))
      && FirstMade(Documented([first, second], name), false, t) == Some(EntryOf(first))
  {
    hide Succeeded, EntryOf, Documented, Kept;
    var first: Command := SubscribeChannel(false, name, t, Some(c));
    var second: Command := SubscribeChannel(true, name, t, Some(d));
    ChannelCommandSucceeds(first);
    ChannelCommandSucceeds(second);
    NothingYet(name);
    Appended([], first, name);
    Appended([] + [first], second, name);
    assert [] + [first] + [second] == [first, second];
    EntryForm(first);
    EntryForm(second);
    var two := [EntryOf(second)] + ([EntryOf(first)] + []);
    assert two[1..] == [EntryOf(first)];
  }
}
