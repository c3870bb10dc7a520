# TargetFacade: a verified model

TargetFacade gives clients a small surface over a messaging kernel: hubs with
dotted addresses, connections armed from textual endpoints, broadcasts, pings,
timers, diagnostics and signed logins.  The kernel (Targetcore) is not part of
this model; it appears only as an environment that answers, refuses, delays and
interleaves as it pleases.  What is modelled is the facade's own code, in one
module per component:

| module | component |
|---|---|
| `Text`, `Decimal` | trimming, line splitting, the saturating number scanner |
| `Endpoint` | the endpoint parser and printer, the listen/dial conversions |
| `Grammar` | the endpoint grammar as its documentation tells it, which the parser is measured against |
| `EndpointMap` | the endpoint-map parser and the network's endpoint table |
| `Topology` | the topology parser, the map text it generates, the way line numbers are translated back |
| `Declarations` | what the lines of the two configuration texts mean, and what a topology holds that parses |
| `Address`, `Snapshot` | address relations, derived service names, the sorted merge behind `GetCon` |
| `Message`, `Broadcast` | the field store and the index of names, the broadcast frame |
| `EventQueue` | the COM tier's bounded queue and its wake-up protocol |
| `PingClose`, `DiagSink` | the two teardown handshakes |
| `ConBook`, `Link` | connection bookkeeping against the kernel's list, arming, `Disconnect`, `Link` |
| `RetryDial` | the rendezvous budget of a derived dial |
| `Security` | trust and enforcement on secure hubs |
| `Timers` | timers on a clock truncated to whole seconds |

Two forms are used.  Code that changes an object in place is a class or a method
with loops, proved against functions or predicates on values.  Code whose point
is interleaving is a step system: a `System` of values, a `Step` for every
critical section or interlocked operation of any number of threads, `Enabled`
and `Do`, and `Run` for a finite run; the main lemmas speak of every run from an
`Initial` state.  What the environment decides (a refused post, a broken file, a
connection that does not leave in time) is a parameter of the step or method.

What the proofs found about the code itself:

* A topology entry that is recorded can be lost without any bad line: the table
  serves a recorded address exactly when it has no white space around it, by the
  map parser's reckoning, and does not start with `#` or `;` (`Topology.ServedIff`).
  Such an address is skipped as a comment (`Topology.SkippedEntryWitness`); one that
  ends in white space other than a blank or a tab is filed under another key
  (`Topology.PaddedEntryWitness`).
* `SetField` accepts a name that holds a tab, and the index of names splits it
  (`Message.IndexSurvivesIff`, `Message.TabSplitsAName`).
* A derived service name belongs to a second edge as well exactly when the
  listener holds a `|` after its first character or the dialer, or the pattern
  armed in place of one, holds one before its last (`Address.DerivedNameSharedIff`);
  it does not survive printing and parsing when the dialer's address ends in white
  space (`Address.DerivedSurvivesIff`).
* The comment above `DrainCons` (src/FacadeHub.cpp:873-890) promises that what was
  armed and never came up is retired, and that a peer marked down did connect once.
  A close before any login writes the same row: an armed peer that never logged in
  escapes the drain exactly when a close of it has been handled and no timed-out
  Disconnect remembers it (`ConBook.NeverUpEscapesIff`, `ConBook.NeverUpEscapes`).
* A connection also escapes after a `Link` unwind that timed out
  (`ConBook.UnwindHides`), after a CloseCon that reported it gone on an exception
  (`ConBook.ThrewHides`), and between the moment a login files a connection and the
  moment it marks the peer (`ConBook.FiledBeforeMarkedEscapes`);
  `ConBook.DrainCovers` gives the exact condition.  All of this needs the calls on
  one peer to follow one another: two arms at once, or an arm during a Disconnect,
  hide a connection as well (`ConBook.TwoArmsHide`, `ConBook.ArmDuringDisconnectHides`).
* A `Link` whose dial is refused while the kernel throws out of the unwinding fails
  with a plain code and leaves the listener's connection behind
  (`Link.FailureKeepsCons`); any unwinding takes an earlier record of the peer away
  with it (`Link.UnwoundListener`), although a failed arm promises to leave the read
  side as found (src/FacadeHub.cpp:1229-1230).
* A Ping between creating its event and taking the lock is not waited for by the
  close that has seen the map empty (`PingClose.StillTouchesIff`,
  `PingClose.CreatedMayTouch`), although it is called safe across a Close
  (src/FacadeHub.cpp:4144).
* The comment above `SecureEdgeLocked` says that a failed call leaves two hubs
  exactly as it found them.  The code leaves the first hub's enforcement on
  (`Security.FailedEdgeWitness`) and keeps the new keys of a peer it already
  trusted (`Security.FailedEdgeKeepsNewKeys`);
  `Security.FailedEdgeChangesNothingIff` says exactly when nothing changes.
* A pattern listener stays under enforcement through every continuation exactly
  when the hub trusts someone at the moment it is armed
  (`Security.PatternStaysEnforcedIff`); the gate also admits one when the last
  trusted peer has been withdrawn (`Security.PatternUnenforcedWitness`).
* Replacing one diagnostics sink by another does not wait, although the comment
  at include/TargetFacadeFn.hpp:805-807 relies on it: the old sink can still be
  run exactly when some thread holds it at that moment
  (`DiagSink.ReplacedSinkIsReachedIff`, `DiagSink.ReplacedWhileInside`), as after
  a clear from inside a handler or a wait that ran out.
* Once the COM dispatcher has made its last pop after a quit, what is queued or
  unreported is never handed over (`EventQueue.DeliversIff`).
* The plain arm of a timer can elapse early, by less than a second
  (`Timers.PlainCanBeEarlyIff`), which the re-arm makes good
  (`Timers.NeverEarlyNeverTwice`).

## Model

| member | source | states |
|---|---|---|
| Decimal.ScanUInt | src/FacadeEndpoint.cpp:40-57 | The scanner accepts exactly the non-empty digit strings and yields min(value, 2^32-1), and its 64-bit accumulator never overflows |
| Decimal.ScanDecides | src/FacadeEndpoint.cpp:40-57 | A range check on the saturated result decides on the true number, however long the text |
| Endpoint.ParseGivesCanonical | src/FacadeEndpoint.cpp:196-351 | Whatever is accepted in a mode is a canonical endpoint of that mode |
| Grammar.ParsesIff | src/FacadeEndpoint.cpp:196-351 | For every text, mode and endpoint: the parser answers with that endpoint exactly when the text denotes it, by a relation on token, host, port and brackets that names the family, the any-addresses a listen may say and the hosts a dial may reach |
| Grammar.ListenPicksNoInterface | README.md:405-406 | A tcp listen on any host that is no any-address is refused, whatever the port |
| Grammar.LiteralListenIsRefused | README.md:405-406 | So is one on any bracketed literal that is not all zeroes |
| Grammar.AnyInBrackets | README.md:407-409 | A listen on a bracketed any-address is dual-stack and reads back as tcp46 |
| Grammar.LiteralIsTheFamily | README.md:407-409 | A dial of a bracketed literal is IPv6 and reads back as tcp6 |
| Grammar.BareNumberIsPrefixed | src/FacadeEndpoint.cpp:177-345 | A bare serial number is accepted and reads back with its COM prefix |
| Endpoint.FormatRoundTrip | src/FacadeEndpoint.cpp:154-180 | A canonical endpoint is read back from its printed spelling unchanged, family included |
| Endpoint.ParsePrintParse | src/FacadeEndpoint.cpp:154-351 | For every text and either mode, printing what was accepted parses to the same endpoint |
| Endpoint.CanonicalIffParsed | src/FacadeEndpoint.cpp:196-351 | The canonical endpoints are exactly those that some text denotes |
| Endpoint.FormatInjective | src/FacadeEndpoint.cpp:154-180 | Two endpoints of one mode never share a spelling |
| Endpoint.DialDropsToListen | src/FacadeNetwork.cpp:568-584 | An accepted dial without its host prints to an accepted listen |
| Endpoint.ListenFillsToDial | src/FacadeNetwork.cpp:337-367 | An accepted listen filled with loopback prints to an accepted dial of the same kind, family, port and name, and dropping the host undoes it |
| EndpointMap.ParseMap | src/FacadeEndpoint.cpp:370-458 | Success: the map is exactly the entries of the lines, no address twice; failure: the output is untouched and the number is the first line that cannot stand |
| EndpointMap.ParsedAsUnique | src/FacadeEndpoint.cpp:370-458 | That specification leaves one possible outcome for each text |
| EndpointMap.EntryIsConsumable | src/FacadeEndpoint.cpp:398-447 | Every accepted line stores an address that is no endpoint and a canonical, non-serial dial spelling |
| EndpointMap.ParsedIsConsumable | src/FacadeEndpoint.cpp:370-458 | So does every entry of every map that parses |
| Declarations.MapLineReads | src/FacadeEndpoint.cpp:388-447 | A line of the map is skipped exactly when it is empty or a comment, and is an entry exactly when it is an address, an equals sign and text that denotes a dial other than serial; all else is bad, a line without an equals sign included |
| Declarations.SwappedIff | src/FacadeEndpoint.cpp:463-470 | The guard of every address slot refuses exactly what holds a colon or two slashes in a row |
| Declarations.EndpointIsNoPeer | src/FacadeEndpoint.cpp:463-470 | So no text that parses as an endpoint passes for an address |
| EndpointMap.EndpointTable.SetEndpoint | src/FacadeNetwork.cpp:379-410 | The refusals in order, null address included; otherwise sets or clears one entry, keeping every stored value consumable |
| EndpointMap.EndpointTable.SetEndpointMap | src/FacadeNetwork.cpp:421-437 | Replaces the table from a text that parses, else leaves it alone and reports the bad line |
| EndpointMap.EndpointTable.Lookup | src/FacadeNetwork.cpp:491-511 | The re-parse of a stored value cannot fail and yields the endpoint the value spells |
| EndpointMap.TableServesBothRoles | src/FacadeHub.cpp:1304-1318 | Every stored value serves as a dial, without its host as a listen, and that listen filled as a dial of the same family and port |
| Topology.Parse | include/TargetFacadeTopology.hpp:102-199 | The loop reads the text line by line as the statements of its lines say; a failure names the first refused line and leaves the output alone |
| Text.LinesBreak | include/TargetFacadeTopology.hpp:113-127 | A line ends at a line feed, at a carriage return, or at both together, which count once |
| Declarations.StatementReads | include/TargetFacadeTopology.hpp:129-194 | Every line of a topology is read as exactly what it means, listener left of the first arrow and dialer right of it, and is junk exactly when it means nothing |
| Declarations.HubLineReads | include/TargetFacadeTopology.hpp:135-162 | Every plain hub line, with an endpoint or without, declares that hub and that endpoint |
| Declarations.LinkLineReads | include/TargetFacadeTopology.hpp:165-191 | Every plain link line, with an endpoint or without, is the edge of that listener, that dialer and that endpoint |
| Declarations.BuildsIff | include/TargetFacadeTopology.hpp:102-199 | A text is accepted exactly when no line is junk, no hub and no endpoint of an address is declared twice, and every edge joins hubs declared above it |
| Declarations.FirstRefused | include/TargetFacadeTopology.hpp:102-199 | The line a failure names is the first that breaks one of these rules |
| Declarations.ParsedTopology | include/TargetFacadeTopology.hpp:135-190 | The edges of a topology are those of its link lines in order, each between two different hubs declared above it; its hubs are those of its hub lines in order, without repeats |
| Topology.MapTextLines | include/TargetFacadeTopology.hpp:102-199 | The generated map text has one line per recorded entry under the map parser's own line splitting, in order |
| Topology.BuildEntries | include/TargetFacadeTopology.hpp:150-158 | The recorded addresses are those the declaring lines name, in order |
| Topology.TranslationBlames | include/TargetFacadeTopology.hpp:233-248 | The back-map sends a map line to the source line that declared the entry spelled there |
| Topology.BadLineIsDeclared | include/TargetFacadeTopology.hpp:233-248 | Any line the map parser stops at is in the range of the back-map |
| Topology.PushMap | include/TargetFacadeTopology.hpp:233-248 | Pushing the map either reports the source line that declared the rejected entry and changes nothing, or installs it, after which exactly the served addresses are found |
| Topology.EntrySkippedIff | src/FacadeEndpoint.cpp:388-407 | The map parser reads the line of a recorded entry as blank exactly when its trimmed address opens a comment |
| Topology.RecordedLineReads | src/FacadeEndpoint.cpp:388-447 | How the map parser reads the line generated for any recorded address: bad, blank, or an entry under the trimmed address |
| Topology.ServedIff | include/TargetFacadeTopology.hpp:233-262 | After a push that succeeds a recorded address is in the table exactly when it has no white space around it and opens no comment |
| Topology.SkippedEntryWitness | include/TargetFacadeTopology.hpp:129-162 | A declaration that is read, recorded and then skipped |
| Topology.PaddedEntryWitness | include/TargetFacadeTopology.hpp:129-162 | A declaration that is read, recorded and then filed under another address |
| Address.BelowIffPrefix | src/FacadeEndpoint.cpp:120-128 | Below means: a non-empty address whose components are a proper prefix of the other's |
| Address.BelowIsStrictOrder | src/FacadeEndpoint.cpp:120-128 | It is irreflexive, asymmetric and transitive |
| Address.RelationMirrors | src/FacadeEndpoint.cpp:472-486 | Two plain addresses see each other from opposite sides, and the relation is the one on components |
| Address.RelationIff | src/FacadeEndpoint.cpp:472-486 | The relation of any two texts: a pattern exactly when one is empty or the peer holds a pattern character, else what equality and components say |
| Address.DerivedNameInjective | src/FacadeEndpoint.cpp:488-494 | Between listeners without a bar, a derived service name identifies its edge |
| Address.DerivedNameSharedIff | src/FacadeEndpoint.cpp:488-494 | For two addresses that are not empty: some other such pair derives the same name exactly when a bar stands after the first character of the listener or before the last of the dialer |
| Address.DerivedNameCollides | src/FacadeEndpoint.cpp:488-494 | Two edges that share a derived name when one does |
| Address.DerivedSurvivesIff | src/FacadeEndpoint.cpp:488-494 | The derived endpoint is read back from its record exactly when the dialer's address does not end in white space |
| Snapshot.SnapshotCons | src/FacadeHub.cpp:2600-2640 | The merge returns strictly ordered rows, one for each key of either map, each with its armed endpoint, role, up bit and relation |
| Snapshot.LessIff | src/FacadeHub.cpp:2600-2640 | The order of the merge: a proper prefix, or the smaller character at the first difference |
| Broadcast.UnframeRoundTrip | src/FacadeHub.cpp:3457-3503 | What the receiver splits is byte for byte a frame of what it delivers |
| Broadcast.UnframeIffFrame | src/FacadeHub.cpp:3457-3503 | A body is split exactly when it is some topic's frame, otherwise it is delivered whole |
| Broadcast.AcceptedArrives | src/FacadeHub.cpp:2472-2523 | Every broadcast the guards accept fits one message and arrives with its topic and payload |
| Broadcast.GuardIff | src/FacadeHub.cpp:2472-2484 | Which topics are reserved, and that every other one is accepted exactly when frame and payload fit a message: the bound on the topic's length never decides |
| Broadcast.FrameLayout | src/FacadeHub.cpp:2486-2497 | Where the magic number, the length, every character of the topic and the payload lie in a frame, low bytes first |
| Message.CopyOutBytes | src/FacadeInternal.h:258-275 | A missing size is refused, the needed size is otherwise always reported, a short buffer is not written, a long one is not written past the value |
| Message.FacadeMessage.SetPayload | src/FacadeMessage.cpp:62-74 | Replaces the payload or refuses and keeps it |
| Message.FacadeMessage.SetField | src/FacadeMessage.cpp:83-110 | The refusals in order; otherwise the name maps to the value, no other name changes, an existing name keeps its place and a new one is last |
| Message.FacadeMessage.RemoveField | src/FacadeMessage.cpp:126-137 | The name goes, every other field keeps its value and its order |
| Message.FacadeMessage.GetField | src/FacadeMessage.cpp:160-173 | The stored value of a name, with an empty value told apart from an absent field |
| Message.FacadeMessage.Find | src/FacadeMessage.cpp:47-55 | The position of the name, or a proof that it is absent |
| Message.FacadeMessage.CheckTotalSize | src/FacadeHub.cpp:2993-3008 | The loop's 32-bit sum is the true total for every message the object can hold, so the limit decides on it |
| Message.ChargesAreBytes | src/FacadeHub.cpp:2993-3008 | What the fields are charged: each byte of a value, two bytes for each character of a name, 32 for each field |
| Message.FieldNames | src/FacadeHub.cpp:2884-2924 | No index, or one too short for a character, is refused; otherwise the tokenising loop yields the non-empty stretches between tabs, up to the terminator |
| Message.TokensAreBetweenTabs | src/FacadeHub.cpp:2884-2924 | A tab anywhere splits the names into those before it and those after it |
| Message.TokensOfOne | src/FacadeHub.cpp:2884-2924 | And without a tab there is one name, or none of nothing |
| Message.IndexSurvivesIff | src/FacadeHub.cpp:2302-2331 | The receiver reads back the sender's names in order exactly when no name holds a tab |
| Message.TabSplitsAName | src/FacadeMessage.cpp:83-110 | A name that is accepted and arrives as two |
| EventQueue.HubQueue.Push | com/ComHub.cpp:579-595 | Appends while there is room and asks for a wake-up, else counts the drop |
| EventQueue.HubQueue.Pop | com/ComHub.cpp:597-622 | Hands over the oldest event, then the gap, then nothing |
| EventQueue.QueueSafety | com/ComHub.cpp:579-658 | In every run: at most 4096 queued; what was accepted is what was handed over followed by what is queued, in order; drops equal reported plus pending; a parked dispatcher with anything due has a wake-up set or coming |
| EventQueue.GapComesLast | com/ComHub.cpp:597-622 | A gap is reported only when everything accepted before it has been handed over, and then accounts for every drop |
| EventQueue.NothingIsStranded | com/ComHub.cpp:633-658 | From every reachable state with anything due, unless the dispatcher is already past its last pop of a quit, the threads at work hand all of it over in order without another push |
| EventQueue.NothingAfterQuit | com/ComHub.cpp:633-658 | From past its last pop the dispatcher never hands anything over again, and what is due stays due |
| EventQueue.DeliversIff | com/ComHub.cpp:633-658 | A reachable state with anything due can still hand something over exactly when the dispatcher is not past its last pop |
| PingClose.PingTable.Begin | src/FacadeHub.cpp:4150-4195 | Registers a row, or refuses and registers nothing once a close has begun |
| PingClose.PingTable.Pong | src/FacadeHub.cpp:3306-3325 | Answers and signals one row, and signals nothing for a stray or repeated pong |
| PingClose.PingTable.MarkClosing | src/FacadeHub.cpp:1001-1065 | Marks the close and signals every registered waiter |
| PingClose.EmptyMeansOut | src/FacadeHub.cpp:1001-1065 | In every interleaving, once the close has seen the map empty no caller is inside the hub, none can register, and no event was set after its owner closed it, then and ever after |
| PingClose.StillTouchesIff | src/FacadeHub.cpp:4150-4195 | The threads that can still touch the hub after that are exactly those between creating their event and taking the lock |
| PingClose.CreatedMayTouch | src/FacadeHub.cpp:4150-4195 | A run in which the close has seen the map empty and such a thread is there |
| PingClose.WaitersAreReleased | src/FacadeHub.cpp:1001-1065 | After the mark every waiter's event is set |
| PingClose.SuccessWasAnswered | src/FacadeHub.cpp:4150-4238 | A ping returns success only for an id a pong answered; a close is no answer |
| PingClose.SetIffAnsweredOrClosing | src/FacadeHub.cpp:3306-3325 | In every reachable state the event of a registered ping is set exactly when a pong answered it or a close began |
| PingClose.PongSetsOneEvent | src/FacadeHub.cpp:3306-3325 | The first pong of a registered ping sets its event and no other; a stray or repeated one changes none |
| PingClose.PongIsReturned | src/FacadeHub.cpp:4185-4238 | A pong of a waiting ping lets its thread run, and the thread's own steps return success |
| PingClose.LateAnswerIsNoSuccess | src/FacadeHub.cpp:4185-4238 | A ping whose time ran out, or whose post was refused, never returns success, whatever pong still comes |
| PingClose.CloseCanFinish | src/FacadeHub.cpp:1001-1065 | From every marked state the waiters alone, without pongs or time-outs, bring the close to an empty map |
| DiagSink.SeenZeroMeansQuiet | src/FacadeNetwork.cpp:1142-1254 | In every interleaving, sinks registered and removed any number of times, once an unregister made outside a delivery sees the count at zero no thread is in or can enter a removed sink until that very sink is registered again |
| DiagSink.OneDeliveryPerThread | src/FacadeNetwork.cpp:1142-1198 | Each thread has at most one delivery open, and the count is the number of threads in the counted region |
| DiagSink.HandlerDoesNotWait | src/FacadeNetwork.cpp:1200-1254 | Clearing the sink from inside a handler returns without the promise, since the count includes its own thread |
| DiagSink.ClearWaitsIff | src/FacadeNetwork.cpp:1200-1254 | A clear waits exactly when its thread is inside no handler, and the sink is gone either way |
| DiagSink.CallsWhatItRead | src/FacadeNetwork.cpp:1142-1198 | A thread enters a sink exactly when it has read that sink and the event is wanted |
| DiagSink.RaisedIsDelivered | src/FacadeNetwork.cpp:1142-1198 | An event raised outside every delivery can reach the sink of the moment |
| DiagSink.WaitCanEnd | src/FacadeNetwork.cpp:1232-1254 | The threads in delivery, without the waiter and without new events, always bring the count to zero |
| DiagSink.ReplacedSinkIsReachedIff | src/FacadeNetwork.cpp:1219-1231 | After one sink replaces another, the old one is run in some continuation exactly when some thread had read it and not returned |
| DiagSink.ClearedInHandlerIsReachedIff | src/FacadeNetwork.cpp:1219-1254 | The same of a clear made inside a handler, whose own thread still runs the sink |
| DiagSink.ExpiredWaitIsReachedIff | src/FacadeNetwork.cpp:1232-1254 | The same of a sink that is not registered when a wait runs out of its budget |
| DiagSink.ReplacedWhileInside | src/FacadeNetwork.cpp:1219-1231 | A run that ends with a new sink registered and a thread inside the one it replaced |
| RetryDial.RetryDialDmx.Connect | src/FacadeHub.cpp:457-469 | One attempt is spent before the kernel's call and the budget is whole again after a hit |
| RetryDial.GivesUpExactlyAtEight | src/FacadeHub.cpp:3611-3661 | After any history the close gives up, and does not redial, exactly at the eighth miss in a row |
| RetryDial.LifeIff | src/FacadeHub.cpp:440-475 | The histories that can happen are those in which nothing follows eight misses in a row |
| RetryDial.AtMostEight | src/FacadeHub.cpp:440-475 | No life misses more than eight times running, and only its last close can give up |
| RetryDial.HitRefreshes | src/FacadeHub.cpp:440-475 | After a hit, whatever came before, the budget counts down from eight again |
| ConBook.DrainCovers | src/FacadeHub.cpp:917-971 | In every run serialised peer by peer, in the middle of a pump handler too, a connection whose peer no call names escapes the drain exactly when its peer has a false row that no timed-out Disconnect remembers, or has no row and no record while its login has still to mark it, a Link unwind timed out on it or a CloseCon reported it gone on an exception |
| ConBook.DrainMissesOnlyFalseRows | src/FacadeHub.cpp:917-971 | But for those last three, every connection is drained or its peer has a false row |
| ConBook.NeverUpEscapesIff | src/FacadeHub.cpp:872-890 | With the pump between handlers, an armed peer that never began a login escapes the drain exactly when a close of it has been handled and no timed-out Disconnect remembers it |
| ConBook.NeverUpEscapes | src/FacadeHub.cpp:3564-3578 | A dial armed, closed before any login and redialled, which no drain signals |
| ConBook.FiledBeforeMarkedEscapes | src/FacadeHub.cpp:3589-3609 | A connection filed under a new name is not drained until the mark that follows, and is drained from then on |
| ConBook.UnretiredStaysDrained | src/FacadeHub.cpp:3694-3735 | A peer whose Disconnect timed out is signalled by every drain until a Disconnect reports its connection gone |
| ConBook.NoRowMeansUnseen | src/FacadeHub.cpp:3564-3587 | A peer has a row exactly when a login or a close of it was ever handled, but for the one the pump is at, and a true row only after a login |
| ConBook.RefusedArmRestores | src/FacadeHub.cpp:1209-1254 | The last section of a refused arm puts back exactly what it found recorded of its peer, whatever the pump and the calls on other peers did meanwhile |
| ConBook.QuietDisconnect | src/FacadeHub.cpp:3694-3735 | The critical sections of a Disconnect, undisturbed, erase the record, lower an existing row, add none, and remember the peer exactly when its connection stayed |
| ConBook.UnwindHides | src/FacadeHub.cpp:2238-2266 | A Link unwind that times out or ends in an exception leaves a connection that no drain signals |
| ConBook.ThrewHides | src/FacadeHub.cpp:2250-2264 | A Disconnect that ends in an exception reports success, forgets the peer and leaves a connection that no drain signals |
| ConBook.TwoArmsHide | src/FacadeHub.cpp:1231-1252 | Two arms of one peer at once, of which the loser erases the record of the winner |
| ConBook.ArmDuringDisconnectHides | src/FacadeHub.cpp:2245-2248 | An arm recorded before a Disconnect erases and posted after the old connection left, which no drain signals |
| Link.Hub.MarkPeer | src/FacadeHub.cpp:3564-3587 | The row becomes the new state and the client is told exactly when it changed, a missing row counting as down |
| Link.Hub.ArmRecorded | src/FacadeHub.cpp:1209-1254 | Records and adds one connection, or changes neither |
| Link.Hub.ArmResolved | src/FacadeHub.cpp:1344-1383 | Every refusal in order, before anything is made, and its code; an armed edge to an unrelated address says so |
| Link.Hub.CloseCon | src/FacadeHub.cpp:2238-2266 | Erases the record and reports gone when the connection was seen to leave and, without looking, when the kernel threw; an empty peer changes nothing |
| Link.Hub.Disconnect | src/FacadeHub.cpp:3694-3735 | Every refusal in order, with the caller-pumped exemption and the closed hub; else reports its peer gone, or leaves its connection where the next drain finds it; adds no row |
| Link.Hub.ToSignal | src/FacadeHub.cpp:917-945 | The two loops collect the three classes of peers a drain signals |
| Link.Hub.DrainCons | src/FacadeHub.cpp:917-971 | Reports a full drain exactly when no signalled peer has a connection left |
| Link.Network.Link | src/FacadeNetwork.cpp:540-663 | Every refusal in order with its code; success arms one listening connection and one dialing one, whose records spell, parsed each in its own mode, the stated dial and that dial without its host, or both the service of the two addresses; a failure leaves every hub as it was but for an unwound listener; what the security step did to trust stands whatever follows |
| Link.Network.LinkLocked | src/FacadeNetwork.cpp:601-663 | The same from two named ends on: the refusals, both ends after success and after failure, and what is left of trust |
| Link.FailureKeepsCons | src/FacadeNetwork.cpp:643-662 | A failed Link leaves the listener's connections as they were exactly when it neither says partial nor came out of an unwinding in which the kernel threw and the connection stayed |
| Link.ArmsCodeSays | src/FacadeNetwork.cpp:643-662 | What each code says of the two posts, of what may have stayed behind, and of the two addresses |
| Link.UnwoundListener | src/FacadeNetwork.cpp:650-656 | After an unwinding the listener has no record of the dialer, an earlier one included, and its connection only where it stayed |
| Link.Network.SecureAndArm | src/FacadeNetwork.cpp:636-662 | Two secure hubs go through the security step before anything is armed, two plain ones do not |
| Link.Network.ArmBoth | src/FacadeNetwork.cpp:643-662 | The code and the connections and records of both hubs after both arms, the first's refusal, or the second's with the unwinding |
| Security.SecureHub.WriteAllowList | src/FacadeHub.cpp:1915-1981 | Built aside, moved and loaded: success means the loaded list is the trusted set, any failure keeps the old one, and a list of nobody always fails |
| Security.SecureHub.TrustAndEnforce | src/FacadeHub.cpp:2024-2081 | Success means trusted, loaded, enforced and passed by the gate; failure restores the trusted set values and all, and ends enforcement only where nobody was trusted |
| Security.TrustEndsEnforcementIff | src/FacadeHub.cpp:2064-2080 | One call ends enforcement exactly when nobody was trusted, the list was written and the gate then refused |
| Security.QuietCall | src/FacadeHub.cpp:2024-2081 | The critical sections of the step system, undisturbed, do together what the method does |
| Security.SecureHub.RestoreTrust | src/FacadeHub.cpp:2090-2097 | Puts one entry back as it was found |
| Security.SecureHub.UntrustPeer | src/FacadeHub.cpp:2123-2136 | Withdraws one peer, leaves enforcement alone, and says which list is loaded afterwards; withdrawing the last peer never reaches the loaded list |
| Security.SecureEdgeLocked | src/FacadeNetwork.cpp:884-938 | The exact posture of both hubs afterwards: success means each trusts the other and enforces, failure means each trusts exactly the names it did, with enforcement on and the new keys kept where the first half passed |
| Security.FailedEdgeChangesNothingIff | src/FacadeNetwork.cpp:884-938 | A failed call leaves both hubs as it found them exactly under the stated conditions on the two postures and answers |
| Security.FailedEdgeWitness | src/FacadeNetwork.cpp:924-930 | Two fresh hubs of which the first is left enforcing with a list for a peer it does not trust |
| Security.FailedEdgeKeepsNewKeys | src/FacadeNetwork.cpp:913-930 | A first hub that keeps the new keys of a peer it already trusted |
| Security.ArmedConsAreEnforced | src/FacadeHub.cpp:1412-1440 | At every moment of every run of serialised calls, whatever file or gate fails, each named peer with a connection the hub armed is trusted and loaded and enforcement is on |
| Security.TrustMeansEnforcement | src/FacadeHub.cpp:2024-2136 | Between calls, in every run and after any failures, a hub that trusts anyone enforces with a list that is not empty |
| Security.ArmsOnlyWhenEnforced | src/FacadeHub.cpp:2024-2081 | A call reaches the arm only with its peer loaded and in force |
| Security.EnforcementEndsOnlyUnarmed | src/FacadeHub.cpp:2074-2080 | Enforcement ends only when a first trust is refused by the gate, and then no named peer has a connection; patterns are the subject of the next two rows |
| Security.PatternStaysEnforcedIff | src/FacadeHub.cpp:1484-1501 | A pattern armed between calls stays under enforcement through every continuation exactly when the hub trusts someone at that moment |
| Security.PatternUnenforcedWitness | src/FacadeHub.cpp:2123-2142 | A run that ends with an armed pattern on a hub that no longer enforces |
| Timers.RoundUpIsLeast | src/FacadeHub.cpp:224-233 | A kernel deadline is first seen as past at the next whole second |
| Timers.PlainCanBeEarlyIff | src/FacadeHub.cpp:3855-3870 | The plain arm can elapse early exactly when what its delay lacks to a whole second, plus the time the arming took, is less than the position in the second at which the kernel armed it |
| Timers.PlainIsEarlyByLessThanASecond | src/FacadeHub.cpp:3855-3870 | And then by less than a second |
| Timers.PlainArmEarlyWitness | src/FacadeHub.cpp:3855-3870 | A 200 ms timer that elapses 195 ms early |
| Timers.CompensatedIsNotEarly | src/FacadeHub.cpp:3855-3870 | A compensated arm is early by no more than a forward clock step, so not at all at a constant offset |
| Timers.TimerTable.OnPITimer | src/FacadeHub.cpp:3891-3955 | Re-arms, delivers, retracts or disowns an elapsed timer, erasing the row only when it is spent |
| Timers.TimerTable.Record | src/FacadeHub.cpp:3358-3372 | Files the kernel's answer, forgets the row on a refusal and retracts the timer when the row has gone |
| Timers.NeverEarlyNeverTwice | src/FacadeHub.cpp:3891-3955 | In every run no OnTimer comes before the deadline its SetTimer stamped, none comes twice for an id, and each carries its key |
| Timers.OneRearmSettles | src/FacadeHub.cpp:3855-3955 | In every run no row is re-armed more than once, so the bound on re-arms never lets a timer through |
| Timers.TimersAreOwned | src/FacadeHub.cpp:3331-3389 | Between pump actions each live kernel timer belongs to exactly one row, which names it, and every kernel id in a row is live |
| Timers.KilledIsSilent | src/FacadeHub.cpp:3374-3389 | After its Kill message has been processed an id never produces an OnTimer |
| Timers.ElapsedIsDelivered | src/FacadeHub.cpp:3891-3955 | In every reachable state an elapsed timer is delivered once with its key when its deadline has come, kept and armed again when it has not, dropped when the kernel cancelled it |
| Timers.ComesIff | src/FacadeHub.cpp:3331-3389 | From every reachable state an id can still be delivered exactly when its row is there and the pump is not about to drop it for a cancelled or refused kernel timer |
| Timers.TimerComes | src/FacadeHub.cpp:3331-3389 | It then takes only time, the pump, and posts and arms that are not refused |

## Left out

- Targetcore and Msgcore: routing, relay, login, the pump and its queue are an environment; their source is not part of this model.
- InetPtonW and CString::Trim are parameters of `Endpoint.Platform`, held to the facts `Sane` lists; the folding of scheme names is that of ASCII letters, not of a locale.
- bDerived is not a field of `Endpoint.Endpoint`; only the choice of the dial wrapper depends on it.
- Topology: declaring hubs on a network, arming the edges and closing them (`createHubs`, `closeAll`, the edge half of `arm`) are thin loops over calls modelled elsewhere.
- ConBook.DrainCovers: does not model two calls on one peer at once, which hide connections (`TwoArmsHide`, `ArmDuringDisconnectHides`); calls on different peers interleave freely.
- Security: one arming call on a hub is in progress at a time; the code drops the lock between the trusting of a peer and its undoing.
- Two calls on one object are interleaved only where a step system is given; the class methods are whole calls, with the environment's answers as parameters.
- ConBook: one pump handler runs at a time, and a handler that ends by an exception between filing a connection and marking its peer is not modelled.
- Link.Network.Link: does not model what the pump does between the two arms.
- Security: key files, fingerprints, agreement points and provisioning are oracles; the list on disk is not kept apart from the loaded one.
- DiagSink: nothing between the count and OnDiag raises a diagnostic, which the source asserts and does not enforce; the serial numbers and the slot in the kernel are left out, and the counter is a mathematical integer.
- Timers: the granularity of GetTickCount64, the width of P2Pmsecs_t and of the 32-bit ids, and the delivery to a sink that has been removed are left out; the Timer and Kill messages may be taken in any order.
- PingClose and every other bounded wait: the lemmas about what a wait shows apply when it leaves by its condition; the budgets themselves are not counted.
- EventQueue: the drop counter is a natural number, not a LONG, and the sentence of the drop report is reduced to its count.
- Broadcast: a foreign frame whose topic holds a NUL is cut at delivery, when the topic becomes a C string; null pointers are not modelled.
- Snapshot: the two maps are given as ordered sequences, the order being the one std::map walks.
- Message.FacadeMessage.GetField: does not model GetFieldName and SetFieldText, thin wrappers over the same list and buffer protocol.
- RetryDial: the kernel's own spin and the pacing between attempts are not timed.
- Cryptography, COM marshalling, VARIANT conversion, registration, error sentences, ConOption and FindCon, SecurityStemOf, TargetFacadeFn.hpp and the getters would add only oracles or one-branch facts.
