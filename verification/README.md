# A verified model of the libemq client

libemq is the client side of the EagleMQ binary protocol. This project models the parts of it that carry
state - the subscription lists, the event loop, the wire formats and the read and write loops - and proves what
holds over whole runs of a client.

- `bytes.dfy`, `protocol.dfy`, `packet.dfy`, `records.dfy`: NUL-padded fields, little-endian integers, headers,
  the layout table of all request bodies, request frames, list-reply records and their decode loop.
- `network.dfy`: the exact read and write loops over a socket that splits every transfer as it likes.
- `list.dfy`, `registry.dfy`, `topics.dfy`: the doubly linked list on the heap, and the lookup and removal loops of
  the subscription lists.
- `machine.dfy`: the client as a pure state machine, one step of the source at a time. `history.dfy`,
  `frames.dfy` and `alignment.dfy` prove what single commands, whole histories and whole request/reply runs do.
- `events.dfy`, `dispatch.dfy`: the event loop over bytes, and its refinement of a loop over events.
- `formats.dfy`, `api.dfy`, `callbacks.dfy`: the same behaviour told again in literal bytes and numbers, without the
  tables and constants of the model: every function of the library with what it writes, accepts, returns and
  registers, and every turn of the event loop with what it reads and what its callback does.
- `client.dfy`: the `Client` class. Its fields and lists are updated in place, and every method is proved to take
  exactly the step of the state machine. `wire.dfy` follows what calls and callbacks write, and `sessions.dfy` puts
  calls and event loops together, on values and on the heap.

How the surroundings are modelled. The peer and the kernel are fixed in advance by two values: the inbound one
holds the bytes still to come and how many of them are delivered before each refused read; the outbound one holds
the bytes written so far, how many bytes are taken before each write that makes no progress (and whether that
write returns zero or an error), and the outcome of each gathering write. Every contract is for all such values.
How the kernel splits a transfer is not fixed: the model's `OsRead` and `OsWrite` choose any positive size
nondeterministically, so whatever is proved of their callers holds for every fragmentation. A user callback
decides, call by call, which command or query to make on the client next and what to return, as any function of all
callbacks made so far and of all that any call so far has returned; it says at its start how many calls it makes at
most. So a callback may change the registries, switch modes, write to and read from the connection, and act on the
data it reads; and it may be another one in every run of the event loop.

Where the code and its documentation disagree, the code is modelled, and it is proved exactly when the two agree:

- The documentation says that a command in noack mode always returns OK. It does if and only if its arguments are
  accepted and the kernel does not refuse the write: with an error before the last byte of a frame written alone, or
  with one that is not an interruption for a gathered one (`History.NoackResult`, `History.NoackCanFail`).
- The documentation has separate calls to unsubscribe from a channel by topic and by pattern. Either removes every
  record of the channel. The records are those that the documentation promises if and only if the last
  unsubscription of the channel found, by the documentation, only subscriptions of its own form and string live
  (`Topics.UnsubscribeMeetsDocumentation`; inputs on which it did not: `Topics.UnsubscribeTakesBoth`,
  `Topics.PatternLostWithTopic`).
- An event of a topic or pattern goes to the newest record of its channel, whatever that was made for. It reaches the
  newest subscription that the documentation has for it if and only if that record is one for it, or there is no
  record and the last call for it was no subscription (`Topics.DeliveryMeetsDocumentation`; an input on which it does
  not: `Topics.PatternTakesTopic`).
- An acknowledged pattern unsubscribe checks its reply against the code of a plain channel unsubscribe; against a
  server that answers with the request's own code it takes effect if and only if the client is in noack mode
  (`Alignment.PatternUnsubscribe`).

One promise of the code itself, that an unsubscription removes every record of the name, fails for a name that lies in
such a record, as the one that a callback is handed. The loop reads the name again at every node, so it reads freed
memory if and only if the record that owns the name is not the last of its list; otherwise it removes what it does for
a name of the caller's own (`Registry.RemoveNamed`, `Clients.Client.UnsubscribeHanded`; an input on which it fails:
`Registry.OlderRecordStays`).

## Model

| member | source | states |
|---|---|---|
| Bytes.StrEqIsEquality | src/emq.c:1630 | strcmp of two arrays, read only inside them, is equality of the strings before their terminators |
| Bytes.PadRoundTrip | src/packet.c:153-158 | a string copied with its terminator into a zeroed field reads back as the same string |
| Bytes.LERoundTrip | src/protocol.h:113-118 | an integer stored little-endian in so many bytes reads back unchanged if it fits them |
| Bytes.FromLERoundTrip | src/emq.c:848 | every block of bytes is the encoding of the integer it decodes to |
| Protocol.HeaderRoundTrip | src/protocol.h:113-132 | an 8-byte header decodes to the magic, command, flag and length it was built from |
| Protocol.FieldsRoundTrip | src/protocol.h:134-432 | the fields of any packed request body decode to the arguments that filled them |
| Protocol.LayoutBound | src/protocol.h:134-432 | no request body is longer than 160 bytes |
| Formats.HeaderIsBytes | src/protocol.h:113-132 | a header is its eight bytes: magic, code, third field, length, each little-endian |
| Formats.HeaderIsNumbers | src/protocol.h:113-132 | eight bytes read as a header give these sums of bytes |
| Formats.LEIsBytes | src/protocol.h:134-432 | stored integers of one, two, four and eight bytes are these bytes |
| Api.LayoutsMatch | src/protocol.h:134-432 | for all 43 requests the layout used is the struct's, with literal code, members and widths in order |
| Api.CodesMatch | src/protocol.h:38-100 | every function sends the code of its name |
| Api.FunctionWrites | src/packet.c:145-1114 | on a connection that takes all it is given, every public function, from its C arguments, adds exactly its literal frame and message to the wire, or nothing if its arguments are refused |
| Api.RunWrites | src/packet.c:145-1114 | whatever it is answered, a run of any functions adds exactly their literal frames and messages to the wire, in order, each in the mode of its turn |
| Api.NoackReturns | src/emq.c:1306-1348 | in noack mode every function with a status returns OK iff its strings fit their arrays, its message is not empty and its callback is not NULL; otherwise the text is that of bad input; it reads nothing |
| Api.CommandReturns | src/emq.c:547-569 | answered with a bare literal reply, every function with a status returns OK exactly on status 1, and otherwise leaves the text of the status; it reads that reply only |
| Api.QueryReturns | src/emq.c:1139-1164 | answered with a literal reply, every query hands over exactly what the bytes of its body say: the 55 bytes, the number, the tag and message, or the records, last first |
| Api.QueryFails | src/emq.c:1101-1116 | answered with another status, a query fails with the text of the status, or with a response error where a number is due |
| Api.NumberReturns | src/emq.c:1108-1117 | the int returned for a number is its four bytes read as a signed number |
| Api.ReplyAccepted | src/packet.c:72-90 | a reply header is accepted iff it arrives and has the literal magic, code, status 1 and, where it is checked, length; each other case has its text |
| Api.RecordIsBytes | src/emq.c:836-852 | records of the five kinds, read off their bytes at literal offsets |
| Api.TextOfStatus | src/packet.c:104-143 | the text of each status |
| Api.OwnTexts | src/emq.c:43-57 | the texts of the client's own errors |
| Api.FunctionRegisters | src/emq.c:1573-1633 | a subscription that returns OK puts a record with its name, topic and callback at the head of its list, an unsubscription that does removes its name, and nothing else changes a list |
| Api.FunctionSwitches | src/emq.c:2740-2748 | the noack switches set the mode and nothing else |
| Packet.ErrorText | src/emq.c:43-57 | every error index is inside the table; only the first text is empty |
| Packet.ErrorOfStatuses | src/packet.c:104-143 | over all 256 statuses: exactly seven have an error of their own, no two the same; 0x2, 0x7 and the rest map to the empty text |
| Packet.BuildFrame | src/packet.c:145-167 | the builders' zeroing, header setting and copying at offsets produce the frame of the layout table |
| Packet.BodyLengthExact | src/packet.c:39-46 | the 32-bit length in the header equals the bytes that follow it if and only if they number below 2^32 |
| Packet.RequestRoundTrip | src/packet.c:145-1114 | any valid request followed by any bytes decodes to that request and those bytes |
| Packet.RequestsRoundTrip | src/packet.c:145-1114 | a stream of any requests decodes to exactly those requests |
| Packet.RequestsInjective | src/packet.c:145-1114 | no two sequences of valid requests give the same bytes |
| Frames.AuthFrame | src/packet.c:145-167 | the auth frame in literal bytes |
| Frames.QueueCreateFrame | src/packet.c:354-378 | the queue creation frame in literal bytes |
| Frames.RouteBindFrame | src/packet.c:788-811 | the route binding frame in literal bytes |
| Frames.PushRoundTrip | src/emq.c:1312-1324 | a push, route push or publish announces exactly the bytes behind its header iff 68+n, 100+n or 96+n is below 2^32, and then the peer recovers name, key or topic, expiration time and data |
| Frames.GatheredWhole | src/network.c:178-185 | a retried gathering write takes everything iff the first outcome that is not an interruption does |
| Frames.SuccessSendsWhole | src/emq.c:1324-1327 | a command that succeeds, in either mode, has its whole frame on the wire iff the kernel did not stop short |
| Frames.SuccessCanStopShort | src/network.c:168 | a concrete noack ping that succeeds with four of its eight bytes written |
| Network.Socket.Read | src/network.c:143-158 | for every sequence of short reads: exactly the next count bytes, in order and no more, or -1 |
| Network.ReadFails | src/network.c:151 | an exact read fails iff the stream ends or a read is refused before its last byte |
| Network.ReadsCompose | src/network.c:143-158 | reading m and then n bytes is reading m + n bytes |
| Network.Socket.Write | src/network.c:160-176 | a result r >= 0 means that exactly the first r bytes are on the wire |
| Network.WriteCompletes | src/network.c:168-169 | a write puts the whole buffer on the wire iff no stall comes before its last byte |
| Network.Socket.Writev | src/network.c:178-185 | the retry loop ends with the first outcome that is not an interruption, and the wire grows by what it took |
| Lists.List.AddValue | src/emq.c:149-173 | the new node becomes the head of the chain, all others stay as they are, links and length stay consistent |
| Lists.List.DeleteNode | src/emq.c:175-195 | exactly that node leaves the chain, its value goes to the free handler, links and length stay consistent |
| Lists.List.Release | src/emq.c:197-217 | every remaining value goes to the free handler once, in chain order |
| Lists.Rewind | src/emq.c:219-222 | the iterator stands at the first node |
| Lists.Next | src/emq.c:224-233 | returns the node at the iterator's position, moves past it, and reads only nodes of the chain |
| Lists.WalksAreReversed | src/emq.c:149-195 | walking next from the head and prev from the tail gives mutually reversed chains of distinct nodes, as many as length says; both ends are null exactly when it is zero |
| Registry.QueueRecord | src/emq.c:322-337 | the record holds the callback given, and the name given, terminated and padded inside 64 bytes |
| Registry.ChannelRecord | src/emq.c:344-360 | the record holds the callback given, and the name and topic given, terminated and padded inside 64 and 32 bytes |
| Registry.SameName | src/emq.c:1630 | the comparison in an unsubscribe loop is equality of names |
| Registry.MatchesEvent | src/emq.c:2768 | the comparison with an event's 64 bytes is equality of names, even when the event's name has no terminator |
| Registry.RemovalTurn | src/emq.c:1627-1633 | one turn of an unsubscribe loop deletes the node in hand exactly when its record has the name, and never touches it again |
| Registry.RemoveNamed | src/emq.c:1626-1633 | the unsubscribe loop takes each node in hand once, in order, and leaves exactly the nodes of other names, the same ones in the same order, the removed records freed - unless the name lies in a record that is not the last of the list: then, and only then, the loop comes upon a freed name, right after that record, with the rest of the list as it was |
| Registry.HandedOutlives | src/emq.c:2784-2785 | the name a callback is handed outlives an unsubscription by it iff no record before the last of the list has that name |
| Registry.OlderRecordStays | src/emq.c:1630-1631 | a concrete input: with two records of a name, an unsubscription by the name inside the newer one comes upon a freed name and leaves the older one |
| Registry.FindNamed | src/emq.c:2764-2772 | the lookup finds the first record of the name from the head, if there is one |
| Registry.NamedWithout | src/emq.c:2681-2688 | after removal no record of the name is left and those of every other name are as before |
| Registry.WithoutPartition | src/emq.c:175-195 | kept and removed records together are the records there were |
| Topics.UnsubscribeMeetsDocumentation | src/emq.c:2627-2688 | after any history, the records of a channel are those the documentation's calls by topic and by pattern leave iff the channel's last unsubscription found only subscriptions of its own form and string |
| Topics.KeptIsPrefix | src/emq.c:2681-2688 | what the client keeps of a channel is always the newest part of what the documentation would have it keep |
| Topics.UnsubscribeTakesBoth | src/emq.c:2685-2687 | with two subscriptions of a channel that differ in topic or only in form, unsubscribing the newer one removes both |
| Topics.PatternLostWithTopic | src/emq.c:2627-2634 | a concrete input: psubscribe and subscribe with the same string, then unsubscribe by topic, which takes the pattern with it |
| Topics.DeliveryMeetsDocumentation | src/emq.c:2825 | an event reaches the newest subscription the documentation has for its topic or pattern iff the newest record of the channel was made by that form for it, or there is no record and the last call for it was no subscription |
| Topics.DeliveredIsNewest | src/emq.c:2821-2829 | the subscription so spoken of is the record that the client's lookup finds |
| Topics.PatternTakesTopic | src/emq.c:2825 | a concrete input: with a pattern subscribed after a topic of the same string, the topic's events go to the pattern's callback |
| Records.DecodeList | src/emq.c:836-852 | the decode loop stays inside its buffer, its 32-bit index meeting the body length, iff the body is a whole number of records; the list then holds the records in reverse |
| Records.RecordRoundTrip | src/emq.c:1175-1201 | a record of each of the five kinds has its fixed size and decodes to itself |
| Records.RecordReencodes | src/emq.c:1870-1888 | every block of the right size is a record and encodes back to itself |
| Records.RecordsRoundTrip | src/emq.c:1956-1972 | any sequence of records of a kind decodes from its encoding |
| Records.RecordsReencode | src/emq.c:2350-2370 | the records decoded from any body encode back to its whole records |
| Records.DecodeEncoded | src/emq.c:836-852 | encoding any records and running the loop gives a list that iterates over them in reverse |
| History.ResultIsStatus | src/emq.c:529-569 | a command returns OK iff the status ends OK, then without error text; on an error both registries are untouched |
| History.AnswerIsStatus | src/emq.c:1090-1109 | a query fails iff the status ends ERR; otherwise it ends OK without error text |
| History.NoackResult | README.md:67-72 | a noack command returns OK iff its arguments are accepted and the kernel's next errors spare its write - no error stall before the last byte of a frame, no rejection after the interruptions of a gathered one; and it reads nothing |
| Network.GatherRejected | src/network.c:178-185 | a retried gathering write fails iff the first outcome that is not an interruption is a rejection |
| Network.GatheredOutcome | src/network.c:178-185 | a gathering write puts all, nothing or the start it is told on the wire, by the first outcome that is not an interruption |
| History.NoackCanFail | src/packet.c:612-614 | a noack command with a name of 64 bytes fails |
| History.SilentFailure | src/packet.c:138-140 | a command fails without an error text iff it was written, and its reply arrives whole, matches and carries a status with no error of its own |
| History.NumberReturned | src/emq.c:1108-1117 | the int returned is the number as a signed 32-bit one; it is -1, or 0 for an existence test, iff the status is ERR or the number is 2^32 - 1, or zero |
| History.FailureText | src/emq.c:536-559 | each error text of a failed command has one cause, told from the arguments, the kernel and the input before the call: arguments, a refused write, a missing reply, a reply that does not match, or the server's status |
| History.FetchIsDefined | src/emq.c:1387-1401 | a get or pop hands over a message or fails cleanly iff the stream ends or a read is refused before the tag, or the body holds a tag and arrives whole; otherwise a null message is dereferenced |
| History.QueuesTrack | src/emq.c:1573-1579 | after a successful command the records of any queue are those of the history: subscribed since the last unsubscribe, newest first |
| History.ChannelsTrack | src/emq.c:2681-2688 | the same for channels, whatever the topics and patterns |
| History.PerformOwns | src/emq.c:190-192 | every record ever added is registered or freed, exactly once, after any successful command |
| History.PerformTracks | src/emq.c:1533-1641 | every command, whatever its result, keeps all invariants of the registries |
| History.ExecuteTracks | src/emq.c:1533-1641 | so does every query |
| History.NewestIsLive | src/emq.c:2764-2784 | delivery goes to the newest live subscription of the name, and to none when there is none |
| History.LiveCallbackIsFirst | src/emq.c:1573-1579 | the callback of the newest live record is the argument of the last subscription of the name not undone |
| Alignment.CommandAligned | src/emq.c:547-560 | a command reads its own reply and nothing else, returns what it means and leaves the error it means |
| Alignment.QueryAligned | src/emq.c:1139-1164 | the same for a query of any shape |
| Alignment.RunAligned | src/emq.c:1420-1437 | over any run of calls in any modes with any error replies, the k-th call returns what the k-th reply means, the input ends at a frame boundary, and the wire gains exactly the requests |
| Alignment.WireDecodes | src/emq.c:540 | the peer recovers from the wire of a whole run exactly the requests of its calls |
| Alignment.PatternUnsubscribe | src/emq.c:2670-2678 | a pattern unsubscribe takes effect iff in noack mode; acknowledged it fails and changes no registry |
| Alignment.StatErrorAlignment | src/emq.c:629-642 | after an error reply to the status query the input is aligned iff nothing follows that reply |
| Events.Turn | src/emq.c:2854-2903 | a turn of the event loop that goes on or stops has consumed at least 72 bytes |
| Events.QuietCommand | README.md:70-72 | a noack command neither reads the input nor depends on it |
| Events.QuietCallback | README.md:70-72 | nor does a whole callback of such commands, whatever it does on their results |
| Dispatching.QueueTurn | src/emq.c:2750-2790 | a queue event, with or without a message, is delivered with its payload and consumed to its last byte |
| Dispatching.ChannelTurn | src/emq.c:2792-2845 | a channel event, with or without a pattern, is delivered with its payload and consumed to its last byte |
| Dispatching.TurnDelivers | src/emq.c:2854-2903 | one turn on the bytes of any event is one delivery and leaves the input at the next event; an unmatched event breaks the loop before its message |
| Dispatching.LoopIsDispatch | src/emq.c:2847-2908 | the loop over the bytes of any events followed by any bytes is the run over the events: same callbacks, payloads, order, registries and result |
| Dispatching.ProcessIsDispatch | src/emq.c:2847-2908 | the same for a stream that ends with the last event: all are delivered and the next read fails |
| Dispatching.AcknowledgedInCallback | README.md:70-72 | an acknowledged command during events takes an event header for its reply, fails, and leaves the input inside that event |
| Dispatching.LoopTracks | src/emq.c:2847-2908 | the registry invariants survive any event loop, whatever its input and its callbacks |
| Dispatching.TurnShape | src/emq.c:2854-2903 | a turn breaks off with all but the connection untouched, or makes exactly one callback, and then stops the loop iff that returned nonzero and left no queue subscription |
| Dispatching.LoopResult | src/emq.c:2854-2907 | on any input and with any callbacks the loop returns OK iff it ends with no subscription left, or the last callback it made returned nonzero and left no queue subscription; the result is the status |
| Dispatching.TurnNames | src/emq.c:2750-2840 | a turn that makes a callback makes it for the kind of event its header announces and the name in the 64 bytes behind that header, and it is the callback given with the newest subscription of that name live when the turn begins |
| Dispatching.LoopNames | src/emq.c:2847-2908 | over any run of the loop, the callbacks recorded are, one for one and in order, those its turns owed, each by the history of subscriptions as earlier callbacks had left it when that turn began |
| Dispatching.TurnsFollow | src/emq.c:2854-2903 | each of those turns begins in the state in which the one before it ended |
| Callbacks.TurnReads | src/emq.c:2750-2903 | on any input, a turn makes a callback iff the bytes to come are an event with magic 0x90, type 1 or 2, a queue, channel or pattern code, a subscribed name and a whole message; the callback, its arguments and the bytes read are given byte by byte, and otherwise the error |
| Callbacks.CallbackDecides | src/emq.c:2784-2785 | a callback makes exactly the calls that it decides on, each carried out in order and known to the next, and returns what it decides to, or zero when its limit is used up |
| Callbacks.TurnObeys | src/emq.c:2784-2903 | a turn that makes a callback makes the one its bytes ask for, which does what it decides, and stops the loop iff it returned nonzero and no queue subscription is left |
| Callbacks.LoopObeys | src/emq.c:2847-2908 | over any run of the loop every turn does, each from where the one before it ended, and the loop ends where the last one did, nothing but the connection touched since |
| Callbacks.ProcessError | src/emq.c:2852-2907 | emq_process returns 0 or -1, as the status says; on 0 the error is the one its callbacks' calls left, and none if they made no call |
| Clients.Client.constructor | src/emq.c:75-118 | a new client has a buffer of 4096 bytes, empty lists with free handlers, status OK and no error |
| Clients.Client.CheckRealloc | src/packet.c:54-70 | the buffer is left alone when it is large enough, refused above the maximum, and otherwise grown with its contents kept |
| Clients.Client.Build | src/packet.c:145-1114 | an accepted request is exactly the used part of the buffer; rejected arguments change neither buffer nor position |
| Clients.Client.Exchange | src/emq.c:536-563 | the common body of the status commands takes the machine's step |
| Clients.Client.Stat | src/emq.c:613-652 | the status query |
| Clients.Client.Number | src/emq.c:1074-1117 | the queries answered by one number, with the int they return: the number as a signed 32-bit one, or -1 or 0 |
| Clients.Client.Listing | src/emq.c:780-862 | the list queries, returning a list of the reply's records, last first |
| Clients.Client.Fetch | src/emq.c:1403-1445 | the queries answered by a tagged message |
| Clients.Client.Send | src/emq.c:1300-1353 | the commands that touch no registry, with their gathered payloads |
| Clients.Client.Subscribe | src/emq.c:1533-1587 | a subscription adds its record at the head of its list, and only after a successful exchange |
| Clients.Client.Unsubscribe | src/emq.c:1589-1641 | an unsubscription by a name of the caller's own deletes every record of the name in place, and only after a successful exchange |
| Clients.Client.UnsubscribeAt | src/emq.c:1589-1641 | the same by a name that may lie in a record: it does the same iff the exchange fails or that record is the last of its list, and else comes upon a freed name |
| Clients.Client.UnsubscribeHanded | src/emq.c:2784-2785 | a callback that begins by unsubscribing with the name it was handed does what a copy of the name would do iff the exchange fails or its record is the oldest on the list |
| Clients.Client.Call | src/emq.c:1074-1117 | any command or query, as a program or a callback issues it, takes the machine's step; a query leaves the registries as they are |
| Clients.Client.RunCallback | src/emq.c:2784-2785 | a callback may make any commands and queries on the client it is called from, each told from all that calls before it returned |
| Clients.Client.ProcessQueue | src/emq.c:2750-2790 | the queue event handler takes the machine's step on the real lists and socket |
| Clients.Client.ProcessChannel | src/emq.c:2792-2845 | the channel event handler takes the machine's step |
| Clients.Client.Process | src/emq.c:2847-2908 | the event loop ends, for every input, fragmentation and callbacks, in the state and with the result of the specification |
| Clients.Client.Release | src/emq.c:120-126 | the free handlers are given every record still registered, in order; with those of the unsubscriptions, every record ever subscribed, each exactly once |
| Sessions.EveryReachableState | src/emq.c:1533-2908 | in every state reachable by calls and event loops: records of a name are the live ones, newest first; delivery goes to the newest; stored strings are terminated and padded; ownership is conserved |
| Sessions.EveryCallback | src/emq.c:2764-2784 | the callbacks of a session are, one for one and in order, those its turns owed: the k-th is the one given with the newest subscription, of the name its turn read, by the commands that had succeeded when that turn began, after k callbacks |
| Wire.ExecuteFaithful | src/emq.c:536-543 | a call leaves the request buffer with its own frame, or as it was if its arguments are refused, and adds exactly its request to the wire |
| Wire.LoopFaithful | src/emq.c:2847-2908 | so does a whole run of the event loop with the calls of its callbacks, on any input |
| Sessions.EveryRequest | src/packet.c:145-1114 | after any session the request buffer is unused or holds the frame of the last accepted call, those of callbacks included, and the history is that of the commands that succeeded; if the kernel takes all that is written, the wire holds exactly the requests of all calls in order, and the peer recovers them |
| Sessions.CallsOnly | src/emq.c:529-569 | a session of calls only is the run of those calls, with their results |
| Sessions.SessionsCompose | src/emq.c:529-2908 | a session goes on from where its first steps ended, and so do its results |
| Sessions.TakeSteps | src/emq.c:1533-2908 | any calls and event loops, in any order, take the client on the heap to the state of the machine, and return what it says |
| Sessions.Session | src/emq.c:75-126 | a client made, used for any steps and released: its free handlers have been given every record ever subscribed, each exactly once |
| Sessions.ListenTo | src/emq.c:2847-2908 | the loop on a live connection, reads split in any way, ends as the run over the events does |

## Left out

- Sockets: creation, connection, name resolution and closing, and their error texts, are operating-system calls.
- Allocation: assumed to succeed, except where the size asked for is the wrapped-around one of a too short tagged message; a request for zero bytes succeeds.
- Clients.Client.RunCallback: a callback that runs the event loop itself is not modelled; and in a run its calls take names of its own - an unsubscription by the handed name is modelled by itself, as the first call of a callback, and is the same call where the name outlives it.
- Clients.Client.Build: one builder driven by the layout table stands for the 43 straight-line builders of src/packet.c.
- Clients.Client.Stat: the 55 bytes of the status body are opaque.
- Clients.Client.Listing: for a body that is not a whole number of records, where the source reads past its buffer, the answer is Undefined. The model of a run goes on after such an answer; what is proved of the run is then said of the source only up to that call.
- Clients.Client.Fetch: where the source dereferences a null message the answer is Undefined, with the same consequence.
- Network.Socket.Read: a negative count, which reaches the kernel as a size above SSIZE_MAX, is taken to be refused, as Linux does; POSIX leaves it to the implementation.
- Frames.PushRoundTrip: message sizes are unbounded; that a size near 2^64 would wrap before its truncation to 32 bits is not modelled.
- Lists.List.AddValue: the length is unbounded where the source has a size_t.
- Dispatching.LoopIsDispatch: the events arrive without a refused read in between; a refused read is covered by the byte-level specification.
- Client.error: kept as an index into the error table rather than as the copied text.
- Messages: emq_msg_create, emq_msg_copy, the accessors and the release of messages, and zero-copy.
- Constants: versions, permissions and flags.
- The server: queues, routing and topic patterns are not in this repository; only the form of its replies is assumed, and only where a lemma says so.
- Benchmark and example programs.
