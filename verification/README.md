# noderb: the vendored c-ares and libuv, verified

The Ruby binding of this repository stands on two C libraries that it ships: c-ares, which resolves names, and libuv,
which runs the event loop. These Dafny modules model the parts of both where correctness takes an argument, and prove
what those parts are meant to do, for all inputs and over all runs. `dafny verify dfyconfig.toml` checks everything.

What is modelled, by module:

- `DnsName`, `DnsQuery`, `DnsRoundTrip`, `DnsText`: expanding compressed domain names (sections 4.1.2 and 4.1.4 of
  RFC 1035) and encoding queries. The expander looks for loops only by counting, and its second pass trusts the first.
  `DnsText` says what text and message look like to a reader who knows nothing of the code.
- `AresTime`, `AresState`, `AresBudget`, `AresHistory`, `AresLog`, `AresChannel`: the query engine. Each query sits in four lists
  at once; retries, errors, timeouts and answers move it between them while the lists are being walked. Sockets and
  memory give nondeterministic results. `AresHistory` says what may happen to queries from one moment to a later one,
  `AresBudget` what a query may cost. `AresLog` ties both to what has happened: a log of transmissions, failures, messages
  and closed connections, in which every transmission that is counted is found once, every attempt passed over has its
  reason, and every callback too.
- `AresList`, `AresRings`, `AresIndex`: the lists, as heap nodes, as families of lists in memory, and as the sequences
  with which the engine is specified.
- `TcpReader`: taking framed messages out of a TCP stream that comes in arbitrary pieces.
- `InetText`, `InetParse`, `InetParse4`, `InetParse6`, `InetRoundTrip`, `InetPton`: printing and reading IPv4 and
  IPv6 addresses. `InetNetwork` and `InetGroups` say which texts are taken, `InetPrefix` which are taken for something
  else.
- `RedBlackTree`, `RedBlackLinks`, `RedBlackInsert`, `RedBlackRemove`, `RedBlackLookup`: the red-black trees of
  tree.h, with their parent pointers, in memory. A tree in memory is described by a value; a context describes the rest
  of the tree around a subtree, so that each macro is stated as a change of a subtree in its place.
- `SplayTree`, `Splay`, `SplayCost`: the top-down splay trees of tree.h, in memory, and their balance theorem.
- `UvStream`: the write side of a stream, with partial writes, errors, shutdown, close and callbacks that write again.
- `Async`: wakeups from other threads on Windows, as steps of one loop thread and any number of senders, and the
  closing of the handles.
- `Watcher`: the list of prepare, check and idle watchers, walked while callbacks start and stop any of them. What each
  callback of a pass does is a parameter, so that what the pass calls can be said exactly.
- `Bytes`, `Options`, `Powers`, `Sequences`: what several of these use.

The clock is monotone, there is at least one server, the timeout is at least 2 ms, and integers do not overflow.
Callbacks of the query engine do not call back into it. uv_async_send is not entered for a handle that is closing, as its
assertion demands; between that check and the exchange anything else may happen.

Where the code does not do what one would expect, the exact condition is proved:

- the length pre-pass of a query is too short exactly for names that end in an escaped dot, and too long exactly for "."
  (`PrePassExact`, `PrePassShort`);
- the length of an expanded name is too short exactly for a pointer from which pointers alone lead to a zero byte
  (`EnclenExact`, `EnclenShort`);
- a deadline in second 0 means no deadline: a query is never due exactly when it is sent and its deadline falls there
  (`ComesDue`, `NeverDue`);
- reading an IPv6 address succeeds with nothing written exactly for nine groups, a colon and something more, and for
  addresses with prefix length 0, and with fewer than 16 bytes written exactly for prefix lengths up to 120; an IPv4
  address with fewer than four octets written exactly when the text writes fewer and its width needs no more
  (`OverfullExact`, `ZeroExact`, `Accepted4Exact`, `Pton`, `NoPrefix`, `HalfAddress`, `ShortNetwork`);
- ordinary prefix notation is refused exactly when there are as many bytes written as the prefix length asks for, so that
  "::" has nothing to stand for (`NotationExact`, `SpelledExact`, `PrefixRefused`);
- an IPv6 text with a prefix length and "::" gives other bytes than those of its address, cut to the prefix, exactly when
  bytes behind "::" are moved into the prefix and were not there by chance (`KeptExact`, `ShapeExact`, `TextExact`,
  `PrefixMisplaced`), and makes the reader write in front of its array exactly when more bytes stand behind "::" than are
  wanted (`ShiftInside`, `TextExact`, `PrefixOutside`);
- the IPv4 printer overruns its buffer by the NUL exactly when the text is as long as the buffer (`Ntop4`,
  `Ntop4Overruns`);
- SPLAY_REMOVE returns a node that it did not remove exactly when its argument was not in the tree (`Splay.Remove`,
  `RemoveStranger`);
- an octet of a dotted end may be empty and up to three may be missing: what is taken is a full dotted quad exactly when
  there are four and none is empty (`QuadExact`, `StrictExact`, `ShortDots`);
- a handle that was closed has a packet in flight exactly when a sender sets its flag after the close callback, which no
  sender does when nobody closes a handle while a sender is between its check and the exchange (`TimelyExact`,
  `CarefulIsTimely`, `Overtaken`).

## Model

| member | source | states |
|---|---|---|
| DnsName.WalkUnique | ext/noderb_extension/libuv/src/ares/ares_expand_name.c:146-181 | From one offset labels and pointers are followed in at most one way to a zero byte |
| DnsName.WalkInjective | ext/noderb_extension/libuv/src/ares/ares_expand_name.c:157-161 | A walk that reaches a zero byte visits no offset twice |
| DnsName.WalkShort | ext/noderb_extension/libuv/src/ares/ares_expand_name.c:157-161 | No walk that ends takes more indirections than the message has bytes, by pigeonhole; so counting them rejects only loops |
| DnsName.NotNamed | ext/noderb_extension/libuv/src/ares/ares_expand_name.c:136-182 | A trail that cannot go on inside the message, or is longer than the message, shows that the bytes are no name |
| DnsName.NameLength | ext/noderb_extension/libuv/src/ares/ares_expand_name.c:136-182 | The first pass ends on every buffer; it answers -1 exactly when the bytes at the offset spell no name, and else the length of the escaped dotted text |
| DnsName.CopyLabel | ext/noderb_extension/libuv/src/ares/ares_expand_name.c:109-117 | Copies one label, escaping dots and backslashes |
| DnsName.ExpandName | ext/noderb_extension/libuv/src/ares/ares_expand_name.c:65-131 | Accepts exactly the names; the unchecked second pass ends, stays inside the message and writes the text of the name, which TextIsShortest and PlainText tell apart from all others; the reported length is that of the name where it stands, but 1 for an empty text |
| DnsName.EnclenExact | ext/noderb_extension/libuv/src/ares/ares_expand_name.c:85-92 | The reported length is the bytes up to and including the first pointer or the zero, if and only if the name is not a pointer from which pointers alone lead to a zero byte |
| DnsName.EnclenShort | ext/noderb_extension/libuv/src/ares/ares_expand_name.c:85-92 | A message in which a pointer to the root is reported one byte too short |
| DnsQuery.ParseSpelled | ext/noderb_extension/libuv/src/ares/ares_mkquery.c:154-185 | Every spelling of valid labels, with or without the final dot, is parsed back into those labels |
| DnsQuery.ParseSound | ext/noderb_extension/libuv/src/ares/ares_mkquery.c:154-185 | Nothing else is accepted: a parsed name is a spelling of its labels |
| DnsQuery.MeantIsDenoted | ext/noderb_extension/libuv/src/ares/ares_mkquery.c:150-185 | A name has a meaning exactly when some valid labels are denoted by it, "." and the empty name among them |
| DnsQuery.EncodedLength | ext/noderb_extension/libuv/src/ares/ares_mkquery.c:99-113 | The pre-pass computes its length, escapes counted once |
| DnsQuery.CountLabel | ext/noderb_extension/libuv/src/ares/ares_mkquery.c:161-168 | Counts the characters of the first label and finds where it ends |
| DnsQuery.CopyChars | ext/noderb_extension/libuv/src/ares/ares_mkquery.c:174-179 | Copies the characters of the label without their escapes |
| DnsQuery.EncodeName | ext/noderb_extension/libuv/src/ares/ares_mkquery.c:150-188 | Writes the wire form of the labels the name denotes, or fails exactly when it denotes none |
| DnsQuery.MkQuery | ext/noderb_extension/libuv/src/ares/ares_mkquery.c:88-195 | Succeeds exactly for names that denote labels and that the pre-pass finds no longer than 255; the query is header, wire form, type and class; the announced length is that of the pre-pass |
| DnsRoundTrip.TextDenotes | ext/noderb_extension/libuv/src/ares/ares_expand_name.c:95-128 | The text that expansion writes denotes the labels that were expanded, and no others |
| DnsRoundTrip.WireExpands | ext/noderb_extension/libuv/src/ares/ares_expand_name.c:65-131 | The wire form of labels, wherever it stands in a message, expands to them and takes exactly its own length |
| DnsRoundTrip.PrePassExact | ext/noderb_extension/libuv/src/ares/ares_mkquery.c:99-113 | The pre-pass computes the length of the encoded name if and only if the name is not "." and does not end in an escaped dot |
| DnsRoundTrip.PrePassShort | ext/noderb_extension/libuv/src/ares/ares_mkquery.c:99-113 | A name for which the pre-pass is one byte short |
| DnsRoundTrip.EncodeThenExpand | ext/noderb_extension/libuv/src/ares/ares_mkquery.c:154-188 | Expanding the question built for a name gives the labels the name denotes |
| DnsRoundTrip.ExpandThenEncode | ext/noderb_extension/libuv/src/ares/ares_mkquery.c:99-188 | Encoding the expanded text puts the same labels on the wire; the announced length is exact if and only if the last label does not end in a dot |
| DnsRoundTrip.TextIsCString | ext/noderb_extension/libuv/src/ares/ares_expand_name.c:95-128 | Labels without zero bytes expand to a C string |
| DnsText.TextIsShortest | ext/noderb_extension/libuv/src/ares/ares_expand_name.c:105-124 | Of all names that denote some labels the expanded text is the one shortest, if and only if the last label does not end in a backslash: no character is escaped that need not be |
| DnsText.TextButOne | ext/noderb_extension/libuv/src/ares/ares_expand_name.c:105-124 | If it does, exactly one name is shorter, the text without its last character: a backslash at the very end stands for itself |
| DnsText.PlainText | ext/noderb_extension/libuv/src/ares/ares_expand_name.c:105-124 | Labels without dots and backslashes stand in the text as they are, with a dot between any two |
| DnsText.NameUnfold | ext/noderb_extension/libuv/src/ares/ares_expand_name.c:136-182 | What a reader finds: a zero byte, or a length byte up to 191, so many bytes and a name, or two bytes, the first from 192 on, whose low 14 bits, high byte first, are the offset of a name |
| DnsText.QuestionRead | ext/noderb_extension/libuv/src/ares/ares_mkquery.c:136-192 | What a reader finds in a query: ID, the recursion-desired bit alone, one question and nothing else, then the name, and right behind it the type and then the class, high bytes first |
| AresList.InitHead | ext/noderb_extension/libuv/src/ares/ares_llist.c:27-31 | The head alone is the empty ring |
| AresList.IsEmpty | ext/noderb_extension/libuv/src/ares/ares_llist.c:41-43 | True exactly for the empty ring |
| AresList.Insert | ext/noderb_extension/libuv/src/ares/ares_llist.c:46-52 | The new node stands right before the given one, the others in order |
| AresList.Remove | ext/noderb_extension/libuv/src/ares/ares_llist.c:55-62 | The node leaves its ring, the others in order; a node in no ring stays as it is |
| AresList.Swap | ext/noderb_extension/libuv/src/ares/ares_llist.c:65-86 | The two heads exchange their rings, empty or not |
| AresRings.LinkLast | ext/noderb_extension/libuv/src/ares/ares_llist.c:46-52 | In a family of lists in memory, insertion before a head does what Link says of the sequences, and leaves the other lists as they are |
| AresRings.UnlinkNode | ext/noderb_extension/libuv/src/ares/ares_llist.c:55-62 | In a family of lists in memory, removal does what Unlink says of the sequences, and leaves the other lists as they are |
| AresRings.SwapHeads | ext/noderb_extension/libuv/src/ares/ares_llist.c:65-86 | In a family of lists in memory, swapping two heads does what Swap says of the sequences, and leaves the other lists as they are |
| AresTime.TimedOutIsOrder | ext/noderb_extension/libuv/src/ares/ares_process.c:103-115 | Comparing seconds and then microseconds compares instants |
| AresTime.TimeAddExact | ext/noderb_extension/libuv/src/ares/ares_process.c:118-130 | The deadline is the exact sum of now and the wait, with normal microseconds |
| AresTime.WaitBounds | ext/noderb_extension/libuv/src/ares/ares_process.c:794-795 | Each wait lies between 9/16 of the doubled timeout, rounded down, and all of it, and is at least 1 ms |
| AresBudget.WithinSent | ext/noderb_extension/libuv/src/ares/ares_process.c:794-798 | A transmission, to the server that the attempt number gives, and its wait are paid for by that attempt |
| AresBudget.WithinSwitched | ext/noderb_extension/libuv/src/ares/ares_process.c:582-590 | The switch to TCP pays for one more transmission, visit and wait in the same attempt |
| AresBudget.CostBounds | ext/noderb_extension/libuv/src/ares/ares_process.c:685-798 | A query is sent at most nservers * tries times, at most tries times to each server, and given at most timeout * nservers * (2^tries - 1) ms to wait in all; the switch to TCP may add one transmission, to one server, and one of the longest waits; without tries the first one is made all the same |
| AresIndex.LinkLinked | ext/noderb_extension/libuv/src/ares/ares_send.c:122-129 | Linking a node keeps a family of lists an index by key |
| AresIndex.UnlinkLinked | ext/noderb_extension/libuv/src/ares/ares_process.c:1284-1288 | Freeing an element keeps a family of lists an index |
| AresIndex.RelinkLinked | ext/noderb_extension/libuv/src/ares/ares_process.c:802-813 | Moving a node to the list of its new key keeps the index |
| AresIndex.SwapLinked | ext/noderb_extension/libuv/src/ares/ares_process.c:650-651 | Stealing a list keeps the index, under the key of the stolen list |
| AresState.PopQueue | ext/noderb_extension/libuv/src/ares/ares_process.c:305-318 | Taking the first entry off the send queue takes exactly its bytes off the front of what is to be sent |
| AresState.ShrinkQueue | ext/noderb_extension/libuv/src/ares/ares_process.c:319-324 | Taking the first bytes of the first entry takes exactly those off what is to be sent |
| AresState.FramingRead | ext/noderb_extension/libuv/src/ares/ares_send.c:87-89 | The first two bytes of a framed query, the high one first, are the length of the query behind them |
| AresState.ServersEnqueue | ext/noderb_extension/libuv/src/ares/ares_process.c:759-773 | Queueing a query appends its framed bytes to the stream and keeps every queued pointer alive |
| AresState.ClosedOk | ext/noderb_extension/libuv/src/ares/ares__close_sockets.c:27-66 | A closed server has an empty queue, is not broken, and starts a new stream under a new generation |
| AresState.DetachStream | ext/noderb_extension/libuv/src/ares/ares_process.c:1216-1265 | After detaching, a connection not marked broken still has all its bytes to send |
| AresState.ServersFree | ext/noderb_extension/libuv/src/ares/ares_process.c:1282-1296 | Once nothing queued points into a query, it can be freed |
| AresChannel.Channel.CloseSockets | ext/noderb_extension/libuv/src/ares/ares__close_sockets.c:27-66 | Keeps the invariant; empties the queue, forgets brokenness, and gives the server a generation greater than all before exactly if a connection was open |
| AresChannel.Channel.Detach | ext/noderb_extension/libuv/src/ares/ares_process.c:1216-1265 | Every queued entry of the query loses its owner and keeps its bytes, or is emptied and the server marked broken |
| AresChannel.Channel.EndQuery | ext/noderb_extension/libuv/src/ares/ares_process.c:1208-1280 | Exactly one callback, with the given status, for which the log has the reason; the query leaves all its lists; while there are other queries, or the sockets are to stay open, no socket is closed, no generation begins and only its own entries change; with the last query all sockets are closed |
| AresChannel.Channel.FreeQuery | ext/noderb_extension/libuv/src/ares/ares_process.c:1282-1296 | The query leaves all four families of lists and the store |
| AresChannel.Channel.SkipServer | ext/noderb_extension/libuv/src/ares/ares_process.c:666-680 | Marks exactly this server for the query, if there is another one |
| AresChannel.Channel.SendQuery | ext/noderb_extension/libuv/src/ares/ares_process.c:725-814 | With next_server: ends; if the query is still live exactly one transmission of it is in the log, the last event, with the framed bytes at the end of the stream over TCP and the plain ones over UDP, to a server not marked to be skipped, with a deadline in the right bucket and list; else it has been given up with one callback; every attempt passed over has its reason; no other query and no connection of another one changes |
| AresChannel.Channel.NextServer | ext/noderb_extension/libuv/src/ares/ares_process.c:682-723 | The recursion with ares__send_query ends because the attempts only go up; each attempt after the present one, in order and without a gap, is a transmission, or its server could not be reached, was marked broken or to be skipped, or was sent the query on this very connection; the query ends with its error only when this holds of all nservers * tries attempts |
| AresChannel.Channel.NextUsable | ext/noderb_extension/libuv/src/ares/ares_process.c:689-707 | The loop stops at the first server that can be used, or has a reason against each one |
| AresChannel.Channel.PassOver | ext/noderb_extension/libuv/src/ares/ares_process.c:697-707 | The reason why the server is not used, which also is in the log: marked broken, marked to be skipped, or used on this connection |
| AresChannel.Channel.TryNow | ext/noderb_extension/libuv/src/ares/ares_process.c:709-710 | The query is sent to that server, or moves on from there |
| AresChannel.Channel.GiveUp | ext/noderb_extension/libuv/src/ares/ares_process.c:721-722 | The query ends with its error, and each of its attempts has a transmission, a failure or a reason |
| AresChannel.Channel.Transmit | ext/noderb_extension/libuv/src/ares/ares_process.c:732-793 | Over TCP the framed query becomes the last entry of the queue and of the stream, over UDP it is written; one entry in the log; a failure changes nothing but marks the server to be skipped, and over TCP only if there was no connection |
| AresChannel.Channel.Connect | ext/noderb_extension/libuv/src/ares/ares_process.c:738-746 | A socket that is open is used; otherwise one is opened, or that fails and no socket changes |
| AresChannel.Channel.Enqueue | ext/noderb_extension/libuv/src/ares/ares_process.c:747-773 | The query, framed, goes to the end of queue and stream under the generation of the connection; record and log count one transmission |
| AresChannel.Channel.WriteUdp | ext/noderb_extension/libuv/src/ares/ares_process.c:786-792 | Written and counted once, or a failure is noted |
| AresChannel.Channel.Await | ext/noderb_extension/libuv/src/ares/ares_process.c:794-813 | The query on the wire gets its deadline and its places in the lists |
| AresChannel.Channel.Steal | ext/noderb_extension/libuv/src/ares/ares_process.c:650-651 | The server's list becomes empty and the stolen list holds exactly the queries that waited for it |
| AresChannel.Channel.MoveAway | ext/noderb_extension/libuv/src/ares/ares_process.c:657-658 | A stolen query has its server marked to be skipped and moves on, or ends; it leaves the stolen list |
| AresChannel.Channel.MoveFirst | ext/noderb_extension/libuv/src/ares/ares_process.c:652-659 | One turn of the walk: the next node is taken before the first stolen query moves on, and the stolen list gets shorter |
| AresChannel.Channel.HandleError | ext/noderb_extension/libuv/src/ares/ares_process.c:630-664 | The connection is closed for good; every query of the server moves on exactly once and, if there is another server, none of them back to it; no other query changes; the stolen list is empty at the end although queries re-insert themselves |
| AresChannel.Channel.TimeOut | ext/noderb_extension/libuv/src/ares/ares_process.c:524-529 | The overdue query notes the timeout and moves on |
| AresChannel.Channel.TimeOutOne | ext/noderb_extension/libuv/src/ares/ares_process.c:524-529 | One overdue query less, the others as they were |
| AresChannel.Channel.WalkBucket | ext/noderb_extension/libuv/src/ares/ares_process.c:519-530 | Walking a bucket moves exactly its overdue queries on, each once, even when they come back into it |
| AresChannel.Channel.ProcessTimeouts | ext/noderb_extension/libuv/src/ares/ares_process.c:504-533 | Walking the buckets since the last time moves on exactly the queries with a deadline up to now, each once, and leaves none overdue |
| AresChannel.Channel.ProcessBrokenConnections | ext/noderb_extension/libuv/src/ares/ares_process.c:616-628 | Every server that was marked broken has lost the connection that was; nothing happens if there was none; queries only move forward, and none becomes overdue |
| AresChannel.Channel.AdvanceSendQueue | ext/noderb_extension/libuv/src/ares/ares_process.c:298-326 | What was to be sent is the bytes taken followed by what is left; the stream grows by exactly those |
| AresChannel.Channel.WriteTcp | ext/noderb_extension/libuv/src/ares/ares_process.c:223-294 | What is queued is offered if there is any on a connection that is not broken; nothing is taken, or exactly the next bytes of the queue are written and leave it, and no query changes; or writing fails and the queries of this server, and no others, move on |
| AresChannel.Channel.FindQuery | ext/noderb_extension/libuv/src/ares/ares_process.c:563-576 | Finds a query with the ID and the question if and only if there is one |
| AresChannel.Channel.SwitchToTcp | ext/noderb_extension/libuv/src/ares/ares_process.c:582-590 | A truncated answer sends the query once more, over TCP |
| AresChannel.Channel.ProcessAnswer | ext/noderb_extension/libuv/src/ares/ares_process.c:536-613 | An answer to no query changes nothing; any other does to its query exactly what its verdict says, marks to skip a server included, and nothing to others; an accepted one leaves all sockets open and the queued bytes of all other queries as they were, unless it was the last query |
| AresChannel.Channel.Send | ext/noderb_extension/libuv/src/ares/ares_send.c:41-134 | A query of bad length, or without memory, gets its one callback at once; any other is registered, sent and framed |
| AresChannel.Channel.Refuse | ext/noderb_extension/libuv/src/ares/ares_send.c:49-77 | A query that is not accepted gets exactly one callback and is never live |
| AresChannel.Channel.Register | ext/noderb_extension/libuv/src/ares/ares_send.c:79-129 | The new query starts on the server chosen by rotation, in the list of all queries and in its ID bucket |
| AresChannel.Channel.ProcessFds | ext/noderb_extension/libuv/src/ares/ares_process.c:144-158 | A round of writing, reading, timeouts and broken connections: all there is on each socket is read, unless the connection was reset or cut before its turn; what was queued for a writable socket is offered, unless a write has failed; nothing is overdue afterwards, each query that was overdue has been sent again or has had its callback, and what was broken has been replaced |
| AresChannel.Channel.WriteAll | ext/noderb_extension/libuv/src/ares/ares_process.c:206-295 | What is queued for a writable socket is offered to it, unless a write to another one has failed before |
| AresChannel.Channel.ReadAll | ext/noderb_extension/libuv/src/ares/ares_process.c:332-500 | Every open socket of a server that is not broken is read, in order: its messages, and then its error |
| AresChannel.Channel.ReadSocket | ext/noderb_extension/libuv/src/ares/ares_process.c:468-499 | Each message is processed in order; an error resets the server |
| AresChannel.Channel.CloseReset | ext/noderb_extension/libuv/src/ares/ares_process.c:638-641 | The connection is closed, which the log notes as the reason for what follows |
| AresChannel.Channel.ServeLate | ext/noderb_extension/libuv/src/ares/ares_process.c:504-533 | Serving the sockets at any time past the deadline of a live query costs it an attempt or ends it |
| AresChannel.Channel.Resolve | ext/noderb_extension/libuv/src/ares/ares_process.c:682-723 | A query that is submitted ends with exactly one callback, when the sockets are served past each of its deadlines, whatever else happens in between, within nservers * tries rounds and one for the switch |
| AresHistory.ExactlyOneCallback | ext/noderb_extension/libuv/src/ares/ares_process.c:1267-1269 | A live query has had no callback and a finished one exactly one; at every moment it has cost no more than CostBounds says; server = (first + try) mod nservers |
| AresHistory.ListsAreIndex | ext/noderb_extension/libuv/src/ares/ares_process.c:1284-1288 | Between calls each live query is in exactly the four lists of its keys, once, and the lists hold nothing else |
| AresHistory.StreamInOrder | ext/noderb_extension/libuv/src/ares/ares_process.c:753-773 | What a connection was given is a prefix of the framed queries in order; unless it is broken, written plus queued bytes are all of them |
| AresHistory.NotDueAgain | ext/noderb_extension/libuv/src/ares/ares_process.c:794-798 | A query that was just sent again is not overdue |
| AresHistory.WheelTurned | ext/noderb_extension/libuv/src/ares/ares_process.c:517-532 | When nothing is overdue every deadline is in the seconds still to be walked |
| AresHistory.ComesDue | ext/noderb_extension/libuv/src/ares/ares_process.c:524-524 | A query that is sent now can ever come due if and only if the clock is past second 0 or the wait leads out of it |
| AresHistory.NeverDue | ext/noderb_extension/libuv/src/ares/ares_process.c:524-524 | A query sent at second 0 with half a second to wait is never due |
| AresHistory.NotSentBack | ext/noderb_extension/libuv/src/ares/ares_process.c:657-658 | A query marked not to use a server is not sent to it again |
| AresHistory.ProgressOnward | ext/noderb_extension/libuv/src/ares/ares_process.c:504-533 | Every query that has moved on has been sent once more at the price of an attempt, or is gone |
| AresHistory.AnsweredOnward | ext/noderb_extension/libuv/src/ares/ares_process.c:578-612 | So has a query that got an answer, at the price of an attempt or of the switch |
| AresHistory.DueWasSent | ext/noderb_extension/libuv/src/ares/ares_process.c:524-529 | A query that was overdue and is not any more has been sent again in between, or is gone |
| AresHistory.GivenUp | ext/noderb_extension/libuv/src/ares/ares_process.c:682-723 | In every run a query that is sent again and again has its callback after nservers * tries rounds and one for the switch, whatever else happens meanwhile |
| AresHistory.AnsweredExact | ext/noderb_extension/libuv/src/ares/ares_process.c:578-612 | By the bytes of the header and the options: an answer over UDP that is truncated, or longer than 512 bytes, sends the query once more over TCP; codes 2, 4 and 5 mark the server to be skipped, and the query moves on if it waits for that one; anything else ends it with success |
| AresLog.WhyGone | ext/noderb_extension/libuv/src/ares/ares_process.c:1267-1269 | Over all runs, why a query has ended: success has an answer in the log that its rules accept; want of memory, the failed allocation; a bad query, its length; the timeout status or the connection error, all nservers * tries attempts, and it is the timeout status if and only if the query has come due |
| AresLog.EveryAttempt | ext/noderb_extension/libuv/src/ares/ares_process.c:682-723 | Over all runs a query that was given up has for each server exactly tries attempts, each one a transmission in the log, a failure to reach it in the log, or passed over for a reason in the log; no transmission or failure is counted twice |
| AresLog.LogSent | ext/noderb_extension/libuv/src/ares/ares_process.c:753-786 | A transmission is one event in the log, one more in the counts of the record, and over TCP one more frame of the stream |
| AresLog.LogEnd | ext/noderb_extension/libuv/src/ares/ares_process.c:1267-1296 | A query ends only with its reason in the log |
| AresChannel.Channel.WhyEnded | ext/noderb_extension/libuv/src/ares/ares_process.c:1267-1269 | So it is of every channel between calls |
| TcpReader.FrameUnique | ext/noderb_extension/libuv/src/ares/ares_send.c:87-89 | The first frame of a stream and what follows it are determined by the stream |
| TcpReader.Reassembled | ext/noderb_extension/libuv/src/ares/ares_process.c:367-423 | Whatever part of the frames has been read, the messages taken out are the first of those sent, and all of them at the end |
| TcpReader.Server.ReadLength | ext/noderb_extension/libuv/src/ares/ares_process.c:367-395 | One read, of what is missing of the length word; its bytes extend what was read; the connection is closed exactly for an error or the end |
| TcpReader.Server.ReadData | ext/noderb_extension/libuv/src/ares/ares_process.c:396-423 | One read, of what is missing of the message; with the last byte exactly the message is handed over, and otherwise none; the connection is closed exactly for an error or the end |
| TcpReader.Server.Deliver | ext/noderb_extension/libuv/src/ares/ares_process.c:410-422 | The message handed over is exactly the announced number of bytes, and the reader is at a frame boundary again |
| TcpReader.Server.Read | ext/noderb_extension/libuv/src/ares/ares_process.c:332-425 | read_tcp_data once: exactly one read, of exactly what is missing, and what follows from its result |
| TcpReader.FrameRead | ext/noderb_extension/libuv/src/ares/ares_send.c:87-89 | The first two bytes of a frame, the high one first, are the number of those behind them |
| TcpReader.Receive | ext/noderb_extension/libuv/src/ares/ares_process.c:332-425 | For all messages of 1 to 65535 bytes and any pieces: the answers are a prefix of the messages, and all of them once everything is read; the connection is open until a read fails or ends, or process_answer closes it |
| InetText.FindRun | ext/noderb_extension/libuv/src/ares/inet_ntop.c:154-184 | The run is the first of the longest runs of zero words, and has at least two; -1 exactly if there is none |
| InetText.ChosenOnce | ext/noderb_extension/libuv/src/ares/inet_ntop.c:154-184 | At most one run can be chosen |
| InetText.Ntop4 | ext/noderb_extension/libuv/src/ares/inet_ntop.c:106-118 | The dotted text; refused exactly when longer than the size; what is accepted fits with its NUL exactly when it is not as long as the size; below 7 nothing is accepted, above 15 everything fits |
| InetText.Ntop4Overruns | ext/noderb_extension/libuv/src/ares/inet_ntop.c:106-118 | An address whose text of 7 characters is accepted for 7 bytes and takes 8 |
| InetText.Words | ext/noderb_extension/libuv/src/ares/inet_ntop.c:150-152 | The bytes in pairs, high byte first |
| InetText.Ntop6 | ext/noderb_extension/libuv/src/ares/inet_ntop.c:127-230 | The groups in hexadecimal with the chosen run as "::", and a dotted end exactly for the embedded addresses; refused exactly when text and NUL do not fit |
| InetText.EndsInDots | ext/noderb_extension/libuv/src/ares/inet_ntop.c:203-209 | By the bytes of the address: the text is "::" and a dotted quad exactly if the first twelve are zero and the next two are not, "::ffff:" and a dotted quad if the first ten are zero and the next two 255, and has no dot otherwise |
| InetParse.GetBits | ext/noderb_extension/libuv/src/ares/inet_net_pton.c:202-230 | Accepts exactly the decimal numerals from 0 to 128 without leading zeros |
| InetParse.GetV4 | ext/noderb_extension/libuv/src/ares/inet_net_pton.c:233-274 | Stores the octets that the text stands for and changes nothing outside them |
| InetParse.QuadExact | ext/noderb_extension/libuv/src/ares/inet_net_pton.c:233-274 | The texts taken are exactly one to four octets between dots, up to 255, without leading zeros, empty ones meaning zero, the last not empty unless a prefix length follows |
| InetParse.StrictExact | ext/noderb_extension/libuv/src/ares/inet_net_pton.c:233-274 | A text taken is a full dotted quad, with a prefix length or none, if and only if it has four octets and none of them is empty |
| InetNetwork.NetworkExact | ext/noderb_extension/libuv/src/ares/inet_net_pton.c:77-199 | The texts taken are exactly those that write octets, dotted with leading zeros allowed or as hexadecimal digits, with a width up to 32 behind a slash or none, for which there is room; the result is that width or the one of the class, and the octets with zeros up to it |
| InetNetwork.ClassWidth | ext/noderb_extension/libuv/src/ares/inet_net_pton.c:162-190 | Without a slash the width is, by the leading bits of the first octet, 8 for 0 and 1110, 16 for 10, 24 for 110, 32 for 1111, but all the octets written at least, and 4 for the octet 224 alone; zeros follow up to it |
| InetParse4.NetPton4 | ext/noderb_extension/libuv/src/ares/inet_net_pton.c:77-199 | Hexadecimal or dotted octets, a prefix length up to 32 or the width of the class, zeros up to the mask; of other texts, which failure |
| InetParse4.ReadHex | ext/noderb_extension/libuv/src/ares/inet_net_pton.c:88-111 | Pairs of hexadecimal digits, a last single one as the high half |
| InetParse4.ReadDecimals | ext/noderb_extension/libuv/src/ares/inet_net_pton.c:112-134 | Numbers up to 255 between dots |
| InetParse4.Extend | ext/noderb_extension/libuv/src/ares/inet_net_pton.c:184-190 | Zeros exactly until the octets cover the mask, or no room |
| InetParse4.NetCovers | ext/noderb_extension/libuv/src/ares/inet_net_pton.c:162-190 | The octets returned cover the mask and fit the size |
| InetParse6.MovesUp | ext/noderb_extension/libuv/src/ares/inet_net_pton.c:372-375 | Moving up byte by byte, overlapping or not, puts the tail at the end, zeros behind it, and leaves the rest |
| InetParse6.MovesDown | ext/noderb_extension/libuv/src/ares/inet_net_pton.c:372-375 | Moving down byte by byte leaves zeros where the bytes were and, below, the last of them over and over |
| InetParse6.ShiftInside | ext/noderb_extension/libuv/src/ares/inet_net_pton.c:372-375 | Every access of the shift is in its array if and only if no more bytes are moved than are wanted |
| InetParse6.Shift | ext/noderb_extension/libuv/src/ares/inet_net_pton.c:367-375 | The loop does that, upwards and downwards |
| InetParse6.ScanInto | ext/noderb_extension/libuv/src/ares/inet_net_pton.c:291-351 | The character loop gives the groups, the place of "::", the prefix length and the kind of end, and fills the buffer with exactly these bytes |
| InetParse6.Complete | ext/noderb_extension/libuv/src/ares/inet_net_pton.c:360-379 | Moves the bytes behind "::" to the end of what is wanted; fails exactly when there is nothing for "::" to stand for or the length is wrong, and leaves its array exactly when more bytes stand behind "::" than are wanted |
| InetParse6.NetPton6 | ext/noderb_extension/libuv/src/ares/inet_net_pton.c:277-394 | The whole reader: width and bytes, the right kind of failure, the value 0, or a write outside its array; which texts lead to which is what SpellsExact, AcceptedExact, EscapesExact and OverfullExact say |
| InetRoundTrip.RoundTrip4 | ext/noderb_extension/libuv/src/ares/inet_net_pton.c:77-199 | Every IPv4 address is read back from its printed text |
| InetRoundTrip.RoundTrip6 | ext/noderb_extension/libuv/src/ares/inet_net_pton.c:277-394 | Every IPv6 address is read back from its printed text, with or without "::" and an embedded IPv4 address |
| InetRoundTrip.GroupCount | ext/noderb_extension/libuv/src/ares/inet_net_pton.c:317-334 | Canonical texts of n groups without "::": an address for 8, no address below and for 9, and the value 0 from 10 on |
| InetGroups.OverfullExact | ext/noderb_extension/libuv/src/ares/inet_net_pton.c:317-334 | The character loop returns 0 early if and only if the text begins with nine groups of one to four hexadecimal digits, "::" at most once in front or between them, a colon, and something more |
| InetGroups.SpellsExact | ext/noderb_extension/libuv/src/ares/inet_net_pton.c:291-351 | The loop reads exactly the texts that are groups of one to four hexadecimal digits in either case with leading zeros, "::" at most once, and a group, a prefix length, both or a dotted end, of 16 bytes at most; and reads of them what they say |
| InetGroups.AcceptedExact | ext/noderb_extension/libuv/src/ares/inet_net_pton.c:277-394 | The texts taken as addresses of a width are exactly those that spell one and have the bytes it asks for, or fewer and "::" |
| InetGroups.EscapesExact | ext/noderb_extension/libuv/src/ares/inet_net_pton.c:367-375 | The shift leaves its array for exactly the texts that spell more bytes behind "::" than their width asks for |
| InetPrefix.KeptExact | ext/noderb_extension/libuv/src/ares/inet_net_pton.c:355-385 | The bytes kept are those of the address written, cut to the prefix, if and only if what is moved ends behind the prefix or where it belongs, or the bytes that get there are the same by chance |
| InetPrefix.ShapeExact | ext/noderb_extension/libuv/src/ares/inet_net_pton.c:355-385 | They are so whatever the bytes are, if and only if none that is moved ends inside the prefix or the whole address is wanted |
| InetPrefix.TextExact | ext/noderb_extension/libuv/src/ares/inet_net_pton.c:277-394 | Of every text: whether the shift leaves its array, and whether the bytes kept are those of the address written |
| InetPrefix.SpelledExact | ext/noderb_extension/libuv/src/ares/inet_net_pton.c:277-394 | Of every text that spells groups, at most one "::" and an ending: whether it is refused, whether the shift leaves its array, and whether the bytes kept are those of the address written |
| InetPrefix.NotationExact | ext/noderb_extension/libuv/src/ares/inet_net_pton.c:277-394 | Of every text of groups, "::", groups and a prefix length: whether it is refused, whether the shift leaves its array, and whether the bytes kept are those of the address written |
| InetPrefix.PrefixKept | ext/noderb_extension/libuv/src/ares/inet_net_pton.c:355-385 | 2001:db8:1::/32 is read as it is meant |
| InetPrefix.PrefixRefused | ext/noderb_extension/libuv/src/ares/inet_net_pton.c:367-369 | 2001:db8::/32 and ::1:2/32 are no addresses |
| InetPrefix.PrefixMisplaced | ext/noderb_extension/libuv/src/ares/inet_net_pton.c:372-375 | fe80:1:2:3::1/48 is read as fe80:1:1 |
| InetPrefix.PrefixOutside | ext/noderb_extension/libuv/src/ares/inet_net_pton.c:372-375 | ::1:2:3:4:5:6:7/16 makes the shift write in front of its array |
| InetPrefix.PlainInPlace | ext/noderb_extension/libuv/src/ares/inet_net_pton.c:352-385 | Without a slash the address read is the one written, and the shift stays inside |
| InetPton.Accepted4Exact | ext/noderb_extension/libuv/src/ares/inet_net_pton.c:77-199 | A text is taken as an IPv4 address of which so many octets are written if and only if it writes a network that has or needs so many |
| InetPton.ShortNetwork | ext/noderb_extension/libuv/src/ares/inet_net_pton.c:77-199 | 10 is taken, and one octet is written |
| InetPton.ZeroExact | ext/noderb_extension/libuv/src/ares/inet_net_pton.c:277-394 | The IPv6 reader returns 0 if and only if the text has nine groups, a colon and something more, or is an address with prefix length 0 |
| InetPton.NoPrefix | ext/noderb_extension/libuv/src/ares/inet_net_pton.c:382-385 | ::/0 is an address with prefix length 0, without nine groups |
| InetPton.HalfAddress | ext/noderb_extension/libuv/src/ares/inet_net_pton.c:382-385 | fe80::1/64 is taken, and eight bytes are written |
| InetPton.ShortDots | ext/noderb_extension/libuv/src/ares/inet_net_pton.c:342-347 | ::1.2 is taken as the address that ends in 1.2.0.0 |
| InetPton.Pton | ext/noderb_extension/libuv/src/ares/inet_net_pton.c:431-449 | For IPv6, where the shift stays inside: 1 exactly for addresses and for nine groups and something more, with all 16 bytes written exactly for widths above 120, and none exactly for width 0 and for nine groups; for IPv4: 1 with so many octets written exactly as Accepted4 says; 0 for no address, -1 else |
| RedBlackTree.HeightBound | ext/noderb_extension/libuv/include/uv-private/tree.h:50-55 | The height of a red-black tree of n nodes is at most 2 lg(n + 1) |
| RedBlackTree.BalancedPlug | ext/noderb_extension/libuv/include/uv-private/tree.h:401-443 | A balanced subtree in balanced surroundings makes a red-black tree |
| RedBlackTree.BalancedUnplug | ext/noderb_extension/libuv/include/uv-private/tree.h:445-522 | Every subtree of a red-black tree and its surroundings are balanced |
| RedBlackTree.OrderPlug | ext/noderb_extension/libuv/include/uv-private/tree.h:401-620 | Replacing a subtree by one with the same order keeps the order of the tree |
| RedBlackLinks.SwingLeft | ext/noderb_extension/libuv/include/uv-private/tree.h:336-354 | The fields the rotation changes, and those it does not |
| RedBlackLinks.SwingRight | ext/noderb_extension/libuv/include/uv-private/tree.h:356-374 | The fields the rotation changes, and those it does not |
| RedBlackLinks.RotateLeft | ext/noderb_extension/libuv/include/uv-private/tree.h:336-354 | Left, right, parent links and root are those of the rotated tree |
| RedBlackLinks.RotateRight | ext/noderb_extension/libuv/include/uv-private/tree.h:356-374 | Left, right, parent links and root are those of the rotated tree |
| RedBlackLinks.Graft | ext/noderb_extension/libuv/include/uv-private/tree.h:609-617 | A new red leaf hangs where the search ended |
| RedBlackLinks.Splice | ext/noderb_extension/libuv/include/uv-private/tree.h:573-584 | The only child takes the place of the node |
| RedBlackLinks.TakePlace | ext/noderb_extension/libuv/include/uv-private/tree.h:551-564 | A node outside the tree takes fields and place of one inside, whose neighbours all point to it |
| RedBlackInsert.Recolor | ext/noderb_extension/libuv/include/uv-private/tree.h:409-415 | Parent and uncle become black, the grandparent red, and no link changes |
| RedBlackInsert.RecoloredIsFixing | ext/noderb_extension/libuv/include/uv-private/tree.h:407-415 | With a red uncle the only violation moves up two steps; order and black heights stay |
| RedBlackInsert.TurnRight | ext/noderb_extension/libuv/include/uv-private/tree.h:416-423 | With a black uncle one or two rotations remove the violation: the parent above is black afterwards; order and black heights stay |
| RedBlackInsert.TurnLeft | ext/noderb_extension/libuv/include/uv-private/tree.h:432-439 | The mirror image |
| RedBlackInsert.InsertColor | ext/noderb_extension/libuv/include/uv-private/tree.h:401-443 | Ends, and gives a red-black tree with the same order |
| RedBlackInsert.Insert | ext/noderb_extension/libuv/include/uv-private/tree.h:592-620 | A node with an equal key is returned, the node itself if it is in the tree, and nothing changes; otherwise the tree has the new node in its place, sorted and balanced |
| RedBlackRemove.RotateRedSiblingLeft | ext/noderb_extension/libuv/include/uv-private/tree.h:453-458 | A red sibling is rotated away: same order, the missing black node still at the same subtree, a black sibling |
| RedBlackRemove.ShortenedIsLacking | ext/noderb_extension/libuv/include/uv-private/tree.h:459-465 | A black sibling with black children painted red moves the missing black node up |
| RedBlackRemove.TurnedOverLeftIsBalanced | ext/noderb_extension/libuv/include/uv-private/tree.h:467-481 | With a red nephew the rotations give a red-black tree with the same order |
| RedBlackRemove.RotateBlackSiblingLeft | ext/noderb_extension/libuv/include/uv-private/tree.h:466-484 | The code for that case does it |
| RedBlackRemove.RotateRedSiblingRight | ext/noderb_extension/libuv/include/uv-private/tree.h:486-491 | The mirror image |
| RedBlackRemove.RotateBlackSiblingRight | ext/noderb_extension/libuv/include/uv-private/tree.h:499-517 | The mirror image |
| RedBlackRemove.ClimbLeft | ext/noderb_extension/libuv/include/uv-private/tree.h:452-484 | One round: the missing black node moves up, or turns into a red node, or is supplied |
| RedBlackRemove.ClimbRight | ext/noderb_extension/libuv/include/uv-private/tree.h:485-518 | The mirror image |
| RedBlackRemove.RemoveColor | ext/noderb_extension/libuv/include/uv-private/tree.h:445-522 | Ends, and gives a red-black tree with the same order |
| RedBlackRemove.RemoveInner | ext/noderb_extension/libuv/include/uv-private/tree.h:533-572 | The next node, found on the left edge of the right subtree, takes the place of a node with two children; the order loses just that node |
| RedBlackRemove.Remove | ext/noderb_extension/libuv/include/uv-private/tree.h:524-589 | Returns the node; the tree is red-black, its nodes and its order are the old ones without that node |
| RedBlackRemove.RemovedOrder | ext/noderb_extension/libuv/include/uv-private/tree.h:524-589 | What is left is sorted and is everything but the removed node |
| RedBlackLookup.Find | ext/noderb_extension/libuv/include/uv-private/tree.h:622-638 | The node with the key, or null exactly when there is none |
| RedBlackLookup.FindFrom | ext/noderb_extension/libuv/include/uv-private/tree.h:640-659 | The first node in order whose key is not below the given one, or null |
| RedBlackLookup.Next | ext/noderb_extension/libuv/include/uv-private/tree.h:661-681 | The node right after the given one in order, or null |
| Splay.Splay | ext/noderb_extension/libuv/include/uv-private/tree.h:203-236 | Ends; same nodes, same order; smaller nodes left of the root and greater ones right of it, so that a node with the key is the root; the tree is that of the double rotations, in no more rounds than there are nodes on the way |
| Splay.LinkLeft | ext/noderb_extension/libuv/include/uv-private/tree.h:94-98 | Root and right subtree join the tree of greater nodes |
| Splay.LinkRight | ext/noderb_extension/libuv/include/uv-private/tree.h:100-104 | Root and left subtree join the tree of smaller nodes |
| Splay.RotateRight | ext/noderb_extension/libuv/include/uv-private/tree.h:82-86 | The links are those of the rotated tree |
| Splay.RotateLeft | ext/noderb_extension/libuv/include/uv-private/tree.h:88-92 | The links are those of the rotated tree |
| Splay.Assemble | ext/noderb_extension/libuv/include/uv-private/tree.h:106-111 | The three parts become one tree, through the sentinel |
| Splay.AssembledOrder | ext/noderb_extension/libuv/include/uv-private/tree.h:106-111 | Assembling keeps the order, and the cut by the key |
| Splay.CutLeft | ext/noderb_extension/libuv/include/uv-private/tree.h:212-222 | Going left leaves the cut of the nodes by the key as it is |
| Splay.StepLeft | ext/noderb_extension/libuv/include/uv-private/tree.h:213-222 | One round to the left, rotating where two levels go left: makes the tree at hand smaller or stops where nothing is between key and root |
| Splay.StepRight | ext/noderb_extension/libuv/include/uv-private/tree.h:223-233 | The mirror image |
| Splay.Find | ext/noderb_extension/libuv/include/uv-private/tree.h:122-131 | The node with the key, or null exactly when there is none |
| Splay.Insert | ext/noderb_extension/libuv/include/uv-private/tree.h:159-180 | A node with an equal key is returned, the node itself if it is in the tree, and the set stays; otherwise the order has the new node in its place |
| Splay.Remove | ext/noderb_extension/libuv/include/uv-private/tree.h:183-201 | The node with the key is gone from the order and the others stay; null exactly when there is none; what is returned is what is gone if and only if it was in the tree |
| Splay.RemoveStranger | ext/noderb_extension/libuv/include/uv-private/tree.h:183-201 | A node that was never in the tree is returned while another one leaves it |
| SplayCost.Access | ext/noderb_extension/libuv/include/uv-private/tree.h:43-45 | The amortized cost of a splay: the nodes on the way, and three times the change of the potential, are at most twelve times the logarithm of the size, and 3 |
| SplayCost.Amortized | ext/noderb_extension/libuv/include/uv-private/tree.h:43-45 | Any finds, inserts and removals, one after another, on any tree: their cost and the potential they leave are paid for by the potential at the start and a multiple of the logarithm for each |
| SplayCost.Balance | ext/noderb_extension/libuv/include/uv-private/tree.h:43-45 | The balance theorem: any operations on an empty tree, n inserts among them, cost at most their number times 27 lg n + 6 |
| SplayCost.BalanceFrom | ext/noderb_extension/libuv/include/uv-private/tree.h:43-45 | On a tree of any shape they cost at most three times its size times the logarithm more |
| UvStream.Stream.Write | ext/noderb_extension/libuv/src/unix/stream.c:678-737 | The request goes to the end of the queue; with nothing counted as queued the first request is offered at once, otherwise the watcher is active; bytes in order |
| UvStream.Stream.TryWrite | ext/noderb_extension/libuv/src/unix/stream.c:322-414 | The rest of the first request is offered once; on an error it is over and has failed; if all is taken it is over and has not; else exactly what was taken leaves its front and the watcher is active; order and bytes are kept |
| UvStream.ToldTry | ext/noderb_extension/libuv/src/unix/stream.c:361-414 | A request has failed exactly if the descriptor has reported an error for it |
| UvStream.Stream.Finish | ext/noderb_extension/libuv/src/unix/stream.c:301-316 | The request goes from the head of the queue to the end of the completed ones, and an event is pending for its callback |
| UvStream.Stream.WriteCallbacks | ext/noderb_extension/libuv/src/unix/stream.c:417-444 | Each completed request gets its callback once, in order, with its status, whatever the callbacks do; with nothing left to write the watcher stops and a shutdown that was asked for is issued |
| UvStream.Stream.Drain | ext/noderb_extension/libuv/src/unix/stream.c:257-287 | shutdown is issued exactly when it was asked for, on a stream that is not closing or shut, with both queues empty |
| UvStream.Stream.Shutdown | ext/noderb_extension/libuv/src/unix/stream.c:499-526 | Fails exactly on a stream that is shut or closing; otherwise it waits for the queues to drain |
| UvStream.Stream.WriteEvent | ext/noderb_extension/libuv/src/unix/stream.c:529-553 | One writable event offers the first request and makes the callbacks of all completed ones |
| UvStream.Stream.Destroy | ext/noderb_extension/libuv/src/unix/stream.c:106-136 | Every request left gets its callback once; after it the queues are empty |
| UvStream.Stream.Close | ext/noderb_extension/libuv/src/unix/core.c:82-99 | Closing stops the watcher and loses no request |
| UvStream.OneCallbackEach | ext/noderb_extension/libuv/src/unix/stream.c:417-444 | Closed at any moment, every accepted request has exactly one callback, those before the close in order of submission |
| UvStream.SuccessMeansSent | ext/noderb_extension/libuv/src/unix/stream.c:401-407 | A callback with success means that all bytes of the request were taken |
| UvStream.FailedExactly | ext/noderb_extension/libuv/src/unix/stream.c:417-444 | A callback reports failure if and only if the descriptor reported an error for its request or the request was still queued at the close |
| UvStream.ByteBalance | ext/noderb_extension/libuv/src/unix/stream.c:301-316 | Bytes submitted = bytes taken + bytes dropped with failed requests + bytes queued; the counter is the last of these |
| UvStream.Session | ext/noderb_extension/libuv/src/unix/stream.c:529-553 | Any run of writes, events, shutdowns and a close: one callback for each request that has one, with failure if and only if the descriptor reported an error for it or it was queued at the close, those before the close in order of submission; bytes in order, and exactly those the descriptor took; the counter is what is left; shutdown only when every request has had its callback |
| Async.CountedKept | ext/noderb_extension/libuv/src/win/async.c:95-127 | Every step keeps: packets in flight plus senders between exchange and post are 1 or 0 as the flag says |
| Async.OrderedKept | ext/noderb_extension/libuv/src/win/async.c:57-69 | Every step but the exchange of a late sender keeps: a closing handle waits for its packet, for the end of its callback, or on the stack; a closed one has had one close callback and has nothing left |
| Async.StackedKept | ext/noderb_extension/libuv/src/win/handle.c:163-180 | Each handle that waits for its end is on the stack once |
| Async.HeardKept | ext/noderb_extension/libuv/src/win/async.c:107-122 | Each send has a callback after it, or one to come |
| Async.InvAlways | ext/noderb_extension/libuv/src/win/async.c:57-127 | The invariant holds in every reachable state |
| Async.OnePacket | ext/noderb_extension/libuv/src/win/async.c:107-120 | In every run at most one packet of a handle is in flight, as its flag says |
| Async.ClosedOnce | ext/noderb_extension/libuv/src/win/async.c:57-69 | In every run without late senders the close callback comes at most once, exactly for closed handles, and then no packet is in flight, no callback under way and no place taken on the stack |
| Async.TimelyExact | ext/noderb_extension/libuv/src/win/async.c:103-109 | In a run no closed handle ever has a packet in flight if and only if no sender sets the flag of a handle that is closed already |
| Async.CarefulIsTimely | ext/noderb_extension/libuv/src/win/async.c:103-105 | None does when no handle is closed while a sender is between the check and the exchange |
| Async.Overtaken | ext/noderb_extension/libuv/src/win/async.c:103-109 | The run in which closing overtakes a sender, and a closed handle has a packet in flight |
| Async.NoLostWakeup | ext/noderb_extension/libuv/src/win/async.c:107-126 | In every run that has come to rest each send was followed by a callback that began after it |
| Async.ClosedAtRest | ext/noderb_extension/libuv/src/win/async.c:57-69 | And each closed handle had its one close callback, if no sender was late |
| Async.LoopGoesOn | ext/noderb_extension/libuv/src/win/handle.c:173-226 | Until a run has come to rest the loop or a sender that has entered always has a step |
| Async.QuietRunEnds | ext/noderb_extension/libuv/src/win/handle.c:173-226 | Without new sends, closes and handles a run has no more steps than the work that was left |
| Async.ComesToRest | ext/noderb_extension/libuv/src/win/handle.c:173-226 | So every run comes to rest |
| Watcher.Loop.Start | ext/noderb_extension/libuv/src/win/loop-watcher.c:58-82 | A new handle goes in front; what the pass has still to visit stays |
| Watcher.Loop.Stop | ext/noderb_extension/libuv/src/win/loop-watcher.c:85-113 | The handle leaves the list, links mended; if its turn was to come it leaves the pass too, and the next pointer stays in the list or null |
| Watcher.Loop.UserCode | ext/noderb_extension/libuv/src/win/loop-watcher.c:125-125 | A callback that makes any calls has exactly their effect on the list, and takes exactly the handles it stops out of the pass |
| Watcher.Loop.Invoke | ext/noderb_extension/libuv/src/win/loop-watcher.c:116-127 | The pass ends; whatever calls the callbacks make, the handles called, in order, and the list left are those that the calls determine |
| Watcher.PassExact | ext/noderb_extension/libuv/src/win/loop-watcher.c:116-127 | A pass calls, in the order of the list, exactly the handles listed at its start but for those that a callback stopped before the pass had come to them |
| Watcher.CalledOnce | ext/noderb_extension/libuv/src/win/loop-watcher.c:116-127 | A handle is called if and only if it was listed at the start and not stopped before its turn, and then once |
| Watcher.LinkedUnlink | ext/noderb_extension/libuv/src/win/loop-watcher.c:103-108 | Linking the neighbours of an element to each other gives the list without it |

## Left out

- The Ruby binding, loop reference counts, libev, sockets, files, processes and the rest of libuv: calls into code that is
  not part of this model, or state without a property of this kind.
- The query ID generator: random numbers.
- Reply parsers, server lists, the configuration files and the domain search of c-ares: repetitive next to what is here.
- same_questions and same_address: parameters or nondeterministic choices of the engine.
- ares_cancel and ares_destroy, and callbacks that call into the channel.
- AresChannel.Channel.Send: running out of memory is one choice that stands for the three allocations.
- AresChannel.Channel.Connect: why a socket cannot be opened is a nondeterministic choice, as are the results of writing, reading
  and allocating; the log says which one was taken.
- AresChannel.Channel.WriteTcp: writes for want of memory only the first entry; the model lets the socket take any number of the
  queued bytes, which covers both.
- AresChannel.Channel.ProcessFds: what there is to read is a parameter, any number of arbitrary messages and an optional failure
  for each socket; the TCP framing is in `TcpReader`.
- AresChannel.Channel.ProcessBrokenConnections: does not say how often each query moves on, because mending one server can
  send a query to another that is mended next.
- AresChannel.Channel.FreeQuery: lists are sequences of query numbers and queries are values in a map; that the heap nodes do
  the same is shown for one family of lists at a time, in `AresRings`.
- DnsQuery.MkQuery: the output is a growing sequence, so that writing past the announced length shows as a longer result; running
  out of memory is not modelled.
- DnsName.ExpandName: running out of memory is not modelled.
- TcpReader.Receive: one server; running out of memory for the message buffer is not modelled; whether process_answer closes the
  connection is a nondeterministic choice.
- InetParse4.NetPton4: octets are returned as a sequence, so octets that stay in the destination after a failure do not show;
  numbers after "/" are unbounded.
- InetParse6.NetPton6: when the shift leaves its array, the outcome is `Outside` and nothing more is said, because C leaves
  what happens then undefined.
- InetPton.Pton: says nothing about the result in that case, which is that of the texts of `EscapesExact`.
- RedBlackInsert.Insert: keys are integers and their difference is the comparison; RB_AUGMENT is empty, as in the repository.
- RB_PREV and RB_MINMAX, SPLAY_NEXT and SPLAY_MINMAX: the same walks again.
- UvStream.Stream.Write: asks for at least one buffer, as the assertion in the code does; requests are values with a number.
- UvStream.Stream.Drain: the callback after a shutdown is any code of the program, without its status.
- UvStream.Session: connecting and reading are not modelled; how often callbacks may write again is bounded by a number given in
  advance, which is arbitrary.
- Async.ComesToRest: is about the steps that are left without new sends, closes and handles. Only async handles are on the
  stack.
- Watcher.Loop.Invoke: callbacks use handles that are initialised already, and do not run the loop; closing a watcher is not modelled.
- Node and head constructors, and predicates and functions that only name things, have no row.
