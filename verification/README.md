# A verified model of libtrp

libtrp is a C implementation of The River Protocol, a connection protocol over datagrams. This project
models its stateful core in Dafny and proves what that core is for: that the two ends of a handshake
agree, that what one function writes another reads back, that containers edited in place behave like
the finite maps and queues they stand for, and that timers and send loops do their work exactly once and
in bounded time. `dafny verify dfyconfig.toml` checks everything.

| file | what it holds |
|---|---|
| `Handshake.dfy`, `Effects.dfy` | any number of routers and connections as one state machine over a network that loses, duplicates and reorders; agreement, roles, timers; what every step leads to, and that any run can be continued to a new handshake |
| `Connection.dfy` | one connection: states, state timer, pending timers; value functions and the record that is changed in place |
| `Segment.dfy`, `Pack.dfy`, `Unpack.dfy`, `Octets.dfy` | the format-driven codec and the OPEN and CHALLENGE packets built on it |
| `ConnMap.dfy`, `Util.dfy`, `Bits.dfy`, `Core.dfy` | the connection id map, power-of-two rounding, bit arithmetic on naturals, the links kept in a connection |
| `Timers.dfy`, `Wait.dfy` | the timer list with re-entrant callbacks, and how long the event loop sleeps |
| `Router.dfy` | the router's states under synchronous re-entry |
| `SendQueue.dfy`, `Listen.dfy` | the queue of senders and one sending pass over it |
| `ResolveQueue.dfy` | keys of pending address resolutions |
| `Backoff.dfy`, `MessageQueue.dfy` | retransmission intervals, and the choice between the two message queues |
| `Options.dfy` | an optional value |

How the model relates to the code:

- Containers and algorithms that the code changes in place are classes or methods over arrays, proved
  against functions on values. `Handshake` composes those values: its connection map and resolve queue
  are the finite maps that `ConnMap` and `ResolveQueue` are shown to refine, its connections change by the
  functions that `Connection.Endpoint` implements, and a delivered packet is known to its receiver only
  through the octets that `Segment` writes and parses.
- Clock readings, random words, the success of allocations, the answers of the packet interface and of the
  user, and what callbacks do are parameters, quantified over all values. Callbacks and packet interface
  calls that happen inside a loop come from a finite script of arbitrary length, so the results speak of
  every execution that ends.
- Integers are unbounded except where the code depends on their width; there the wrap is written out.
- Signing is a function from octets to 64 octets. Whether a signature or a seal is accepted can only
  turn a packet away, and honest packets are accepted.

Where the code and its description disagree, the model follows the code:

- PROTOCOL.md:51 says that variable-length integers are big endian. The reader is; the writer puts the
  low octet first. `Octets.VarIntLaw` says exactly which integers survive.
- Reading a `b` does not move the cursor past its payload. `Unpack.BinThen` says what follows.
- `sendq_del` leaves the tail on a removed last element; `SendQueue.SendQ.Del` says exactly when, and
  `SendQueue.SendQ.Nq` what a stale tail does to the next connection queued.
- A timer that a callback pushes after the first survivor does not lower the minimum of the walk.
  `Wait.LatePushOversleeps` shows it, and `Wait.TimeoutThenWait` says exactly when a deadline is passed.
- `_tripc_set_state` looks at the new state where it means the old one, so a connection can leave ERROR:
  `Handshake.ErrorThenOpen` and `Handshake.ErrorThenPing` show how, `Handshake.LeavesError` that there is no
  other way. `_tripc_send` has no case for CLOSE, so that a timer can outlive its state there as well.
- The seal of an OPEN is looked for in a window that is one signature too short; OPEN packets are long
  enough for that not to matter, which is part of `Segment.OpenReadBack`.
- `_trip_segment` looks for a connection already made by the same source, but none is ever recorded, so an
  OPEN that arrives again makes another connection: `Handshake.DuplicateOpens`.

## Model

| member | source | states |
|---|---|---|
| `Handshake.HandshakeAgreement` | src/trip.c:592-742 | in every honest run, an outgoing connection that left OPEN for PING has as peer id the id of an incoming connection that was created, and that one's peer id is its own id |
| `Handshake.RolesStayApart` | src/conn.c:1223-1250 | in every honest run an incoming connection is never in RESOLVE or OPEN, an outgoing one never in CHAL |
| `Handshake.OneStateTimer` | src/conn.c:1014-1142 | in every honest run at most one timer is live for a connection, none once it is closed, and a live state timer is the one it remembers; it was armed in another state than the present one if and only if that was RESOLVE or CLOSE and the present one is ERROR |
| `Handshake.LeavesError` | src/conn.c:1022-1069 | a step takes a connection out of ERROR if and only if it fires the timer of a found address or the timer of CLOSE |
| `Handshake.ErrorThenOpen` | src/trip.c:940-970 | the first way out: a packet in RESOLVE makes an error, then the address is found and the connection opens |
| `Handshake.ErrorThenPing` | src/conn.c:904-921 | the second: a connection with something to send is disconnected, sending in CLOSE makes an error, and the timer of CLOSE, still live, leads to PING |
| `Handshake.NextInv` | src/conn.c:667-921 | the invariant over connections, connection maps, resolve queues, send queues and packets is kept by every honest step |
| `Handshake.RunInv` | src/trip.c:592-742 | so it holds after every honest run from the start |
| `Handshake.DuplicateOpens` | src/trip.c:592-707 | the same OPEN delivered twice makes two incoming connections with the same peer id |
| `Handshake.ReachesOpen` | src/trip.c:1602-1682 | from every reachable state a new connection can be brought to OPEN through its timers and a resolved address, and is then known under its id |
| `Handshake.ExchangeCompletes` | src/trip.c:592-742 | from every reachable state with a connection in OPEN, delivering its OPEN and the CHALLENGE in answer makes both ends know each other |
| `Effects.CanConnect` | src/trip.c:592-742 | every honest run can be continued, by honest steps, to one in which a new connection of any router under any free id and key and a new one of the router it addresses know each other by their ids |
| `Effects.ResendSends` | src/conn.c:211-228 | when a resend timer fires in time in OPEN, the next call for a packet puts that connection's OPEN on the network, counts it, and with memory the timer comes again |
| `Effects.ResendQueues` | src/conn.c:211-228 | a resend in time, in OPEN or PING, marks the connection and queues it for sending in the same state |
| `Effects.ResolutionEnds` | src/trip.c:909-970 | an answer with an error leaves the connection closed in ERROR and out of its router's connection map once its timer has fired; one without leaves it in OPEN, queued, with its source |
| `Effects.Answered` | src/trip.c:940-970 | the answer releases the key, and leaves one live timer, of the kind for the answer |
| `Effects.GivesUp` | src/conn.c:193-222 | a timeout of RESOLVE, a late resend or a failed resolution leaves the connection closed in ERROR without timer, it and only it out of the connection map, and a key still being resolved taken but naming nothing |
| `Effects.Proceeds` | src/trip.c:1602-1612 | the other callbacks: a started connection resolves and its key is handed over, a found address opens, a quiet connection pings, each queued and with its new timer |
| `Effects.CancelledDropped` | src/timerwheel.c:55-64 | a cancelled entry is dropped and nothing else happens |
| `Effects.Asks` | src/conn.c:825-921 | what a call for a packet sends, unmarks and counts in every state, and nothing else |
| `Effects.Hears` | src/conn.c:698-800 | the states that DATA, PING and DISC lead to, from every state |
| `Effects.HearsAnew` | src/conn.c:735-800 | a PING or DISC that changes or confirms the state starts its timer anew |
| `Effects.HearsChallenge` | src/conn.c:688-697 | only a connection in OPEN takes the peer id of a CHALLENGE; one in RESOLVE has an error, others are unchanged |
| `Effects.HearsGarbage` | src/conn.c:688-697 | a segment that does not parse leaves a connection as it was |
| `Effects.StartsOnce` | src/conn.c:1223-1231 | starting a connection twice is an error |
| `Handshake.Partner` | src/conn.c:688-697 | the incoming connection that an outgoing one met, with both ids crosswise equal |
| `Handshake.WireParses` | src/trip.c:488-742 | the octets of an honest OPEN parse as that OPEN, those of a CHALLENGE are routed to the peer id and carry the sender's body |
| `Handshake.DeliverOpenEffect` | src/trip.c:592-707 | delivering the octets of an OPEN adds one connection in CHAL that names the sender as its peer, exactly when it is let in and an id is free |
| `Handshake.DeliverChalEffect` | src/trip.c:718-742 | delivering the octets of a CHALLENGE concerns only the connection with the peer id, which takes the sender's id if it is in OPEN |
| `Handshake.FireInv` | src/conn.c:193-236 | whichever timer of whichever connection fires or is dropped, the invariant stays |
| `Handshake.ResolvedInv` | src/trip.c:940-970 | so it does when the packet interface answers for a key, also for one whose connection is gone |
| `Handshake.Removed` | src/conn.c:193-209 | a closing connection disappears from the connection map and from the resolve queue, and no other entry changes |
| `Connection.SetStateOk` | src/conn.c:1014-1142 | entering any state but START and ERROR leaves at most one live timer, of the kind for that state and remembered |
| `Connection.StateEntered` | src/conn.c:1064-1142 | entering OPEN or PING marks and queues the connection for sending, entering any other state does not, and no identity changes |
| `Connection.StateTimed` | src/conn.c:1064-1142 | each timed state is entered with a new remembered timer of its kind, or with none without memory |
| `Connection.OldTimers` | src/conn.c:1021-1062 | no older timer becomes live by entering a state |
| `Connection.OpenAsyncOk` | src/trip.c:1602-1620 | the start timer takes a connection from START to RESOLVE, waiting under its key |
| `Connection.ClosingOk` | src/conn.c:193-222 | after a timeout of RESOLVE, a resend past the deadline or a failed resolution no timer of the connection is left |
| `Connection.ResendOk` | src/conn.c:211-228 | a resend keeps timers, roles and identity right |
| `Connection.EnterOk` | src/trip.c:909-919 | a resolved connection enters OPEN, a ready one PING, keeping timers and roles right |
| `Connection.DelayOk` | src/trip.c:940-970 | an answer for a waiting connection keeps timers, roles and identity right, with no claim on the resolve queue left |
| `Connection.MeetOk` | src/conn.c:688-697 | leaving OPEN for PING stores the peer id and keeps timers and roles right |
| `Connection.UpOk` | src/conn.c:698-800 | so do the changes among CHAL, PING, READY and CLOSE |
| `Connection.ErrorInResolveOk` | src/conn.c:74-89 | an error in RESOLVE disturbs neither the timers nor the queue entry |
| `Connection.ErrorInCloseOk` | src/conn.c:914-919 | an error in CLOSE disturbs no timer |
| `Connection.SendOk` | src/conn.c:825-921 | whatever `_tripc_send` finds, timers and roles stay right, and nothing in a resolve queue is disturbed |
| `Connection.Endpoint.constructor` | src/conn.c:926-936 | a new record is the new value, with no timer |
| `Connection.Endpoint.CancelTimeout` | src/conn.c:279-287 | marks the remembered timer and forgets it, after which none is live |
| `Connection.Endpoint.SetTimeout` | src/conn.c:273-277 | adds one pending timer and remembers it, or remembers none without memory |
| `Connection.Endpoint.SendSoon` | src/conn.c:289-294 | marked and queued for sending, nothing else |
| `Connection.Endpoint.EnterState` | src/conn.c:1014-1142 | the whole new record: what is queued for sending, which timer is new, and at most one live timer afterwards |
| `Connection.Endpoint.Fail` | src/conn.c:73-89 | ERROR is entered once and touches nothing else |
| `Connection.Endpoint.Sending` | src/conn.c:825-921 | a packet is made exactly in OPEN, CHAL or PING with something to send, and is counted; sending in START or CLOSE is an error |
| `Connection.Endpoint.Destroy` | src/conn.c:941-955 | no timer and no place in the send queue is left |
| `Connection.Endpoint.Resent` | src/conn.c:211-228 | past the deadline the record is closed in ERROR without live timer or place in the send queue; before it the connection is marked and queued for sending, in the same state, with one new timer |
| `Segment.OpenReadBack` | src/conn.c:320-381 | for every id, nonce, key and sequence number, the staged reader recovers id, nonce, key and limits from the octets of an OPEN, each stage consuming exactly its own |
| `Segment.ChalReadBack` | src/conn.c:383-414 | the same for a CHALLENGE, routed by the peer id |
| `Segment.OpenExact` | src/trip.c:488-700 | only an OPEN of this version and of exactly the right length is taken for one |
| `Segment.RoutedExact` | src/trip.c:709-742 | what is passed to a connection has a known control and is exactly what stands between prefix and signature |
| `Segment.TurnedAway` | src/trip.c:488-562 | short, unreadable and unknown segments are rejected, and when a length would go below zero |
| `Segment.BodyExact` | src/conn.c:480-581 | a body parses only if it has exactly the octets of its format |
| `Segment.PacketNumbers` | src/conn.c:345-406 | the limits and lengths of both packets in numbers, and zeros for a missing nonce or key |
| `Segment.OpenFormat` | src/conn.c:345-373 | the arguments of OPEN form the format "sCQWHboQnkIIIIOS", well bracketed |
| `Segment.ChalFormat` | src/conn.c:386-406 | the arguments of CHALLENGE form the format "sCQWoQnkIIIIOS", well bracketed |
| `Segment.OpenLayout` | src/conn.c:345-373 | an OPEN is prefix, version and route, seal and body, then a signature over all of them |
| `Segment.ChalLayout` | src/conn.c:386-406 | a CHALLENGE is prefix, seal and body, then a signature over all of them |
| `Segment.EncodeSigned` | src/pack.c:363-386 | `s` and `S` around a format sign exactly the octets between them |
| `Segment.EncodeSignedAt` | src/pack.c:363-386 | wherever it stands, `s` begins what the next `S` signs |
| `Segment.PrefixStage` | src/trip.c:511-514 | "CQW" at the front of any longer buffer yields control, id and the octet-reversed sequence number |
| `Segment.RouteStage` | src/trip.c:563-574 | "Hb" yields the version and the empty route |
| `Segment.BodyStage` | src/conn.c:480-516 | "QnkIIII" yields id, nonce, key and limits and consumes all |
| `Segment.ChalStage` | src/conn.c:546-581 | "oQnkIIIIO" yields the same and consumes all |
| `Pack.Pack` | src/pack.c:285-596 | NPOS exactly when a specifier is unknown or the encoding exceeds the capacity; otherwise exactly the encoding is written and nothing behind it is touched |
| `Pack.PackItem` | src/pack.c:323-590 | one specifier changes buffer and cursors as the encoding of that item demands |
| `Pack.PackBin` | src/pack.c:428-450 | a binary is stored as length, low octet first, and payload, if both fit |
| `Pack.StoreVar` | src/pack.c:551-583 | the store loop writes octet count and octets, low one first, and nothing else |
| `Pack.TurnAt` | src/pack.c:323-590 | a turn of the loop appends the item to the encoding so far, signatures covering exactly the octets since `s` and a seal being cleared when it closes |
| `Pack.PackLen` | src/pack.c:200-265 | the sum of the lengths of the specifiers, in 32 bits |
| `Pack.EncodeFits` | src/pack.c:200-265 | without `b` and with no more `S` than `s`, the encoding is at most that sum |
| `Pack.EncodeReaches` | src/pack.c:200-265 | with variable-length integers of full length the sum is reached, up to the octets that `e` and an unmatched `s` reserve |
| `Pack.NullsAreZeros` | src/pack.c:339-426 | a missing nonce, key or signing key and the octets of a seal are written as zeros |
| `Pack.EncodeMono` | src/pack.c:285-596 | encodings only grow, so failing at one item is failing as a whole |
| `Unpack.UnpackOne` | src/pack.c:634-876 | one specifier reads nothing at or past the end, and the cursor falls behind the accounted length exactly by its payload |
| `Unpack.UnpackLoop` | src/pack.c:602-882 | the loop computes the reading of the format, accounts for nothing past the end, and leaves the cursor behind the accounted length by exactly the payloads read |
| `Unpack.FixedFormat` | src/pack.c:602-882 | a format of fixed widths is read exactly if there is room, and takes just that much |
| `Unpack.ReadVar` | src/pack.c:843-869 | the shift-and-add loop reads the big-endian number its count octet announces, or fails |
| `Unpack.ReadWord` | src/pack.c:84-192 | the shift-and-or expressions and the sign restoration deliver the value of the octets |
| `Unpack.Restore` | src/pack.c:90-98 | sign restoration gives the number of the signed range that differs by nothing or by the whole range |
| `Unpack.FixedValue` | src/pack.c:46-192 | every fixed-width item read from its own octets is that item reduced to its width |
| `Unpack.RoundTrip` | src/pack.c:602-882 | for every readable format and wherever its octets stand in a longer buffer, all of them are accounted for and every argument comes back as `Canon` says |
| `Unpack.RoundTripIdentity` | src/pack.c:46-192 | the arguments come back unchanged if and only if each integer fits its width and each variable-length one has octets that read the same both ways |
| `Unpack.CanonIdentity` | src/pack.c:84-180 | the same for one argument, with two's-complement sign restoration |
| `Unpack.UnpackInvertsPack` | src/pack.c:285-882 | reading what was packed accounts for every octet, and returns the arguments if and only if all of them survive |
| `Unpack.BinThen` | src/pack.c:683-718 | a written `b` before any rest of a format and any octets: the payload is cut by the octet-reversed length, and the rest is read again from the first octet of the payload |
| `Unpack.BinLast` | src/pack.c:683-718 | a `b` in last place with any length: as many octets as the reversed length says, or failure if there are not as many |
| `Unpack.BinNotLast` | src/pack.c:683-718 | the items behind a `b` whose length survives are read from its payload |
| `Unpack.BinBeforeOctet` | src/pack.c:683-718 | for example one octet, right exactly if the payload is empty or begins with it |
| `Octets.UvarLenLeast` | src/pack.c:267-280 | the octet count of n is the least k with n < 256^k |
| `Octets.ComputeUvarLen` | src/pack.c:267-280 | so is what the loop computes |
| `Octets.VarIntLaw` | src/pack.c:568-583 | reading back a written variable-length integer reverses its octets, so it is unchanged if and only if they read the same both ways |
| `Octets.SmallVarInt` | src/pack.c:843-869 | integers below 256 survive, 256 is read back as 1 |
| `ConnMap.ConnMap.constructor` | src/connmap.c:71-85 | an empty map with the mask for the rounded and clamped maximum |
| `ConnMap.ConnMap.Init` | src/connmap.c:71-85 | the same for an existing one |
| `ConnMap.ConnMap.Clear` | src/connmap.c:93-99 | an empty map with the same mask |
| `ConnMap.ConnMap.Add` | src/connmap.c:122-192 | the finite map gains exactly the connection under a fresh id with the random tag; ENOSPC if and only if size is mask + 1, ENOMEM if and only if a slot is needed and memory is short |
| `ConnMap.ConnMap.Grow` | src/connmap.c:129-176 | the array doubles, its new slots all on the free list, the finite map unchanged |
| `ConnMap.ConnMap.Fill` | src/connmap.c:178-188 | the head of the free list takes the connection under an id naming that slot |
| `ConnMap.ConnMap.Get` | src/connmap.c:220-239 | the connection of the id in the finite map, or NULL |
| `ConnMap.ConnMap.Del` | src/connmap.c:194-218 | the finite map loses exactly the id; an emptied map gives its array back |
| `ConnMap.MakeIdSplits` | src/connmap.c:178-184 | index and tag can both be read back from an id, which fits in 64 bits |
| `ConnMap.IdParts` | src/connmap.c:27-31 | the slot of an id is its remainder modulo mask + 1, and the tag the rest |
| `ConnMap.DoubleBelow` | src/connmap.c:132-155 | doubling a power of two below mask + 1 does not pass it |
| `ConnMap.FreeListPop` | src/connmap.c:48-54 | popping leaves an acyclic list of exactly the other slots that are not full |
| `ConnMap.FreeListPushOld` | src/connmap.c:39-46 | pushing a released slot adds exactly it |
| `ConnMap.PopFillShape` | src/connmap.c:178-188 | size, free list and contents stay together when a slot is filled, and no live id is overwritten |
| `ConnMap.ReleaseShape` | src/connmap.c:194-208 | and when one is released |
| `Util.NearPwr2_64` | src/util.c:66-81 | six smears give the least power of two at or above n for 1 <= n <= 2^63, and zero for all other 64-bit n |
| `Util.NearPwr2` | src/util.c:38-64 | the doubling loop gives the same for 1 <= n <= 2^30, 1 below and 2^30 above |
| `Util.CeilPow2Least` | src/util.c:66-81 | that reference is a power of two, at least n, and at most every power of two that is |
| `Util.CeilPow2Idempotent` | src/connmap.c:93-99 | rounding twice is rounding once |
| `Util.SmearDoubles` | src/util.c:73-79 | one smear doubles the run of ones at the top |
| `Timers.EveryRunConserves` | src/timerwheel.c:44-120 | in every run of adds, cancels and walks with re-entrant callbacks each timer has fired once, uncancelled and not before its deadline, or was freed once as cancelled or without callback, or is linked once |
| `Timers.ApplyInv` | src/timerwheel.c:44-120 | one add, cancel or walk keeps that |
| `Timers.WalkInv` | src/timerwheel.c:44-92 | a walk keeps that, from any point in the middle of it, whatever the callbacks do |
| `Timers.RestIsVisited` | src/timerwheel.c:44-92 | every timer still ahead of the walk, pushed during it or not, departs in this walk or survives it because it is not due |
| `Timers.FrontIsKept` | src/timerwheel.c:44-92 | every timer behind the walk, among them those pushed after the first survivor, stays linked and does not fire in it |
| `Timers.WalkSound` | src/timerwheel.c:44-92 | the survivors are not due, and the reported minimum is the earliest of them |
| `Timers.EarliestLeast` | src/timerwheel.c:74-85 | the earliest deadline is one of the list and none is before it |
| `Timers.CancelInv` | src/timerwheel.c:116-120 | cancelling loses and doubles no timer |
| `Timers.TimerWheel.WalkWith` | src/timerwheel.c:44-92 | the in-place walk, its cursor moved by pushes at the head, leaves exactly the list, history and minimum of the specification; behind the late pushes stand exactly the timers that were neither due nor cancelled when visited, and the minimum is the earliest of them |
| `Timers.TimerWheel.Sweep` | src/timerwheel.c:44-92 | the loop itself, against the specification |
| `Timers.VisitDecides` | src/timerwheel.c:52-89 | the timer that a walk comes to fires at once if it is due, has a callback and is not cancelled, is freed at once if it is cancelled or due without callback, and stays otherwise |
| `Timers.CancelledLeaves` | src/timerwheel.c:55-64 | a timer cancelled before the walk comes to it departs in this walk, due or not |
| `Timers.KeptAreSurvivors` | src/timerwheel.c:52-89 | from any point of a walk, the timers left behind it are those before it and then those neither due nor cancelled at their visit, in order |
| `Timers.CallbacksAct` | src/timerwheel.c:59-62 | the timers added during a walk are exactly those that the callbacks called in it add, in order |
| `Timers.CancelledNeverFires` | src/timerwheel.c:116-120 | in every run, a timer cancelled while it is on the list never fires |
| `Timers.TimerWheel.Add` | src/timerwheel.c:94-114 | a push at the head, seen from a walk in progress |
| `Timers.TimerWheel.Cancel` | src/timerwheel.c:116-120 | a mark on one timer, seen from a walk in progress |
| `Wait.TripTimeout` | src/trip.c:1296-1327 | the loop is told the earliest surviving deadline, or now + 1024 if that is earlier |
| `Wait.TimeoutThenWait` | src/trip_poll.c:84-118 | for every script, the wait is the time to the earlier of the user's deadline and the earliest survivor, cut to [0, 1024]; it passes no deadline if and only if no timer added after the first survivor is due before its end; adding nothing, or nothing due before the user's wait could end, suffices |
| `Wait.LateAddsLaw` | src/timerwheel.c:44-92 | the late pushes left on the list are exactly the adds of callbacks that run after the first survivor |
| `Wait.CarefulAdds` | src/timerwheel.c:44-92 | if all that callbacks add is due at some time or later, so are the late adds |
| `Wait.Poll.NextTimeout` | src/trip_poll.c:84-118 | between 0 and 1024, 0 if a deadline has passed, else the time to the earlier one as far as 1024; a passed deadline of the router is used up |
| `Wait.NoLatePush` | src/timerwheel.c:44-92 | callbacks that add no timers push nothing late |
| `Wait.LatePushOversleeps` | src/trip_poll.c:84-118 | a timer added after a survivor, due before it, before the user's deadline and within 1024 ms, is always slept past |
| `Router.Router.RunAll` | src/trip.c:755-877 | in every run with synchronous re-entry all events are handled, ERROR is never left, a nonzero error means ERROR and never changes, LISTEN is entered only from BIND, the first call of the packet interface after BIND is bind, after UNBIND unbind, and after an error between the two unbind, with memory the waiting states have their timer, and the ERROR entry never has two of its unbind calls on the stack |
| `Router.Router.SetState` | src/trip.c:755-877 | the change asked for happens first, unless ERROR is being left, the call it demands is the next one made, the timer of the state left is cancelled, and whatever the packet interface calls back into keeps the invariant |
| `Router.Router.Enter` | src/trip.c:814-877 | entering any state keeps the invariant |
| `Router.Router.SetError` | src/trip.c:132-148 | the first error is stored and ERROR entered; a later one changes nothing |
| `Router.Router.Handle` | src/trip.c:890-1035 | what each call of the packet interface changes first: ready, unready, error, stop |
| `Router.Router.Act` | src/trip.c:1337-1492 | what an action changes first, state by state, with the error it stores |
| `Router.Router.Listen` | src/trip.c:253-377 | reading and sending with arbitrary calls back keeps the invariant, and an error of theirs leads to ERROR |
| `Router.Router.Run` | src/trip.c:755-877 | all calls made back are handled, in order |
| `Router.Router.Expire` | src/trip.c:153-179 | the timer is forgotten, and outside ERROR it is a timeout error |
| `Router.Router.Step` | src/trip.c:1511-1579 | every outside event has the effect of its call and keeps the invariant |
| `Router.Router.EnterBind` | src/trip.c:822-828 | binding with arbitrary calls back keeps the invariant |
| `Router.Router.EnterUnbind` | src/trip.c:845-852 | so does unbinding |
| `Router.Router.EnterError` | src/trip.c:858-870 | ERROR calls unbind exactly when bound and no timer says that it is being done |
| `Router.ErrorAbsorbs` | src/trip.c:755-877 | along a path of allowed changes everything after an ERROR is ERROR |
| `SendQueue.SendQ.Dq` | src/sendq.c:20-37 | the first connection leaves; taking the last one repairs the tail |
| `SendQueue.SendQ.Nq` | src/sendq.c:39-59 | a connection not queued becomes the last, a queued one stays; behind a stale tail it cannot be reached |
| `SendQueue.SendQ.Del` | src/sendq.c:61-82 | the others keep their order, whatever the tail is; a right tail stays right if and only if the removed one was not last, and a stale one stays stale |
| `SendQueue.WithoutAt` | src/sendq.c:61-82 | in a list without repetition, unlinking one place is removing that connection |
| `Listen.Pass` | src/trip.c:275-377 | a pass ends whatever is queued meanwhile, sends at most max(max_packet_send_count, 1) + max_connection_send_count packets, exactly those the packet interface took, serves in queue order and fairly, queues again every connection that used up its allowance and all that the packet interface queued; every call before the last went smoothly, and it ends in an error or blocked if and only if the last call, or the retry, did |
| `Listen.Serve` | src/trip.c:320-368 | up to max_connection_send_count packets from one connection, and exactly that many unless it has nothing left, is blocked or fails |
| `Listen.ServeOne` | src/trip.c:314-376 | a turn sends what was counted and queues the connection again if it used up its allowance |
| `Listen.Retry` | src/trip.c:283-306 | a packet left over counts if it is sent, and only a failure ends the pass |
| `Listen.InOrderIsFair` | src/trip.c:275-377 | service in queue order means that no connection is served again before all queued behind it at its first service have been served |
| `ResolveQueue.PopDeliversPut` | src/resolveq.c:86-150 | a key is not issued again before it is popped, and a pop delivers exactly what was put, or nothing if that was deleted |
| `ResolveQueue.KeyStable` | src/resolveq.c:86-150 | a key stays with its connection until it is popped, whatever is put, popped and deleted meanwhile |
| `ResolveQueue.KeyTaken` | src/resolveq.c:86-150 | a key is taken only if it was put and not popped since |
| `ResolveQueue.PopOnce` | src/resolveq.c:109-133 | a key popped and not put again delivers nothing |
| `ResolveQueue.ResolveQ.Emptied` | src/resolveq.c:77-84 | a queue whose keys are all popped has given its array back |
| `ResolveQueue.ResolveQ.Put` | src/resolveq.c:86-104 | adds one legal event to the history, or -1 exactly when a slot is needed and memory is short |
| `ResolveQueue.ResolveQ.Pop` | src/resolveq.c:109-133 | the history gains a pop with the result that the history so far demands; for a negative key, and only then, the code looks before the array |
| `ResolveQueue.ResolveQ.Del` | src/resolveq.c:138-150 | the key stays taken and its connection is forgotten; for a negative key, and only then, the code looks before the array |
| `ResolveQueue.GrowShape` | src/resolveq.c:38-65 | growth happens with an empty free list, so no link into the old array survives it |
| `ResolveQueue.PutShape` | src/resolveq.c:67-75 | the head of the free list is a free slot, and the rest stays a list of exactly the others |
| `ResolveQueue.PopShape` | src/resolveq.c:30-36 | a popped slot is put in front of the free list and forgotten |
| `Backoff.IntervalLaw` | src/conn.c:254-265 | intervals never shrink, stay within [start, cap] and grow strictly until the cap when the start is at least 2; from 1 they stay 1 |
| `Backoff.Drive` | src/conn.c:211-228 | whenever the timers fire, none early, a connection in OPEN resends at most cap div start times and then gives up, and at most 6 times with 100 and 3000 |
| `Backoff.Opening.ResendBound` | src/conn.c:933-935 | the same bound in every reachable state |
| `Backoff.Opening.ResendCb` | src/conn.c:211-228 | gives up exactly when past the deadline, else counts one resend and arms the next interval |
| `Backoff.Opening.GetGrowth` | src/conn.c:254-265 | returns the interval and moves to the next one |
| `Backoff.Opening.constructor` | src/conn.c:1090-1097 | deadline, first interval and first timer on entering OPEN |
| `Backoff.DefaultIntervals` | src/conn.c:933-935 | with 100 and 3000 six intervals take 2074 ms and seven 3209 ms |
| `MessageQueue.OneWheneverPerWindow` | src/conn.c:1168-1195 | with mask 2^k - 1 every window of 2^k picks prefers the whenever queue exactly once |
| `MessageQueue.WhichIsModulo` | src/conn.c:1168-1172 | the 32-bit masked counter is a counter modulo 2^k |
| `MessageQueue.MessageQ.PickMany` | src/conn.c:1168-1195 | with both queues filled, 2^k picks from any state deliver the whenever head once and the priority head 2^k - 1 times |
| `MessageQueue.MessageQ.Pick` | src/conn.c:1168-1195 | the head of the preferred queue, else of the other; nothing if and only if both are empty |
| `MessageQueue.MessageQ.Add` | src/conn.c:1147-1162 | linked behind the last message of its priority, which becomes the end; the other queue is untouched |
| `MessageQueue.MessageQ.Append` | src/conn.c:1147-1162 | the links then lead through the old messages to the new one |
| `MessageQueue.MessageQ.Clear` | src/conn.c:1197-1215 | a message at the front is unlinked and beginning and end stay right, also when it was the only one; any other stays |

## Left out

- Cryptography: libsodium calls, the check of signatures, sealing (the code only writes zeros) and nonces; signing is a function parameter and honest packets are accepted.
- PING, DATA and DISC packets: their parsers are stubs or do not match the codec, so the answer of the parser is an arbitrary choice in the steps of `Handshake`, and what is sent in PING and READY is not put on the network; in OPEN, where the code parses any control as a CHALLENGE, such a packet is taken to be refused.
- Forged and corrupted packets: the network holds only what connections sent.
- Handshake: connections and routers are values in a step function there, so aliasing between the records of two connections is not captured; in-place update of one record is, in `Connection.Endpoint`, and of the containers in their own modules. The timer list and the send queue are split by connection, and the order of firing and sending is arbitrary; a router keeps working after an error of its own.
- Timers: the linked list is a sequence held by one object, with the position of the link `prev` points to kept as an index; freed memory is not modelled.
- MessageQueue.MessageQ.Add: a message that is already in its queue is excluded, as it would make the links a cycle; stream lists, which share the same links, are not modelled.
- Timers.EveryRunConserves: callbacks come from a finite script, so a walk whose callbacks push due timers forever is not described.
- Router-wide close, `trip_free`, and the failure paths of `trip_open_connection` after a key has been taken: teardown without clean-up of timers and queues.
- Router timers: that only one is pending is not claimed, since BIND arms again without cancelling; arming the timer with a minimum on add is not modelled.
- Listen.Pass: the counters are unbounded, which agrees with the code while max_packet_send_count + max_connection_send_count is below 2^32; it needs max_connection_send_count of at least 1, as with 0 a connection is queued again for ever; a blocked connection is not put back by the code and nothing is claimed for it.
- Backoff.Drive: the interval is unbounded before it is cut at the cap, which agrees with `int` while the cap is below 2^30.
- Segment.OpenReadBack: a length that the C code would wrap below zero is an outcome of its own, which packets of the two writers never reach.
- Pack.Pack: formats whose seal is left open, opened twice or closed twice, that have `S` or `e` inside an open seal, and binaries whose stored length wraps 32 bits are excluded; there the code signs or leaves octets it has not written, clears octets elsewhere or through an unset cursor, or counts too little.
- Unpack.UnpackLoop: the buffer is a sequence, since it is only read.
- ResolveQueue.ResolveQ.Pop: what becomes of the queue after a look before the array, for a negative key, is not modelled.
- Wait.TripTimeout: the clock is below 2^64 - 1024 and stands still during the step.
- The sequence windows of src/conn.c:957-1010: stubs or without a caller.
- src/streammap.c, src/stream.c, src/sockmap.c, src/packet.c, the epoll loop, options and printing: I/O, plumbing or code whose lists share links; they would add only easy members or describe other code.
