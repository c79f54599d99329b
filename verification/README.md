# fast-websocket-client: a verified model

A Dafny model of the WebSocket client in this repository: the frame printer and the resumable
frame parser, the buffer they share, the masking-key generator and its cache, the socket
wrapper's partial writes, and the client that polls, answers, pings and closes while its
handlers call back into it. `dafny verify dfyconfig.toml` checks everything.

## How it is put together

| file | what it holds |
|---|---|
| `Bytes.dfy`, `Words.dfy` | bytes, big-endian lengths, exclusive or; 64-bit words |
| `Frames.dfy`, `Streams.dfy` | the wire format of sections 5.2 and 5.3 of RFC 6455 as pure functions: `Encode`, `Decode`, and `DecodeAll` for whole streams. This is the reference that everything else is proved against |
| `Wire.dfy` | the same format byte by byte, in the literal numbers of the RFC and with exclusive or bit by bit: what `Encode` and `Decode` are checked against |
| `FrameBuffer.dfy`, `FrameParser.dfy`, `FrameFactory.dfy` | the buffer, the nine-stage parser and the printer, as classes whose methods and loops update their fields; the storage of the buffer is a `seq` field |
| `Schedules.dfy` | the parser over whole runs, with any chunks through any entry point, and how long a payload view lasts |
| `Draws.dfy`, `RandomKeys.dfy` | the generator, its inverse, its byte stream, and the key cache |
| `Socket.dfy` | `send`, `read_into` and `read` over an arbitrary tape of system-call results |
| `Calls.dfy` | what programs and handlers do with a client: scripts of calls, and the stack of scripts under way |
| `Trace.dfy`, `Theorems.dfy` | histories of a client, which of them are legal, and what every legal history satisfies |
| `Conformance.dfy` | what every legal history means in literal opcodes and first bytes: what is done about each frame, and why each frame goes out |
| `Requests.dfy` | from `send_text` and `send_binary` to the wire: what scripts ask for is what goes out, and in which order |
| `Polls.dfy` | which frames a poll is going to find, and what a poll or a close amounts to |
| `Client.dfy`, `Session.dfy` | the client; every method is proved to extend a legal history, and a whole session from constructor to destructor is proved to end with one |

The environment of a client is a tape: what each receive and write call returns, how far the
clock moves between readings, and, for each call of a handler, a script of calls into the
client. All theorems hold for every tape, so for every finite run, and the reads in a
history are what the tape yields, nothing once it has run out. Exceptions are modelled: a
method that throws returns `ok == false`, and callers and handlers may catch or pass it on.

A `Summary` is what a history amounts to: status, timer, bytes received, frames handed out,
bytes written, and the accounts of data frames, pings, pongs and closes. `due` says what
has to come next, at once: a frame that was dispatched has to be acted on, in the way of its opcode; a text
or binary frame that was asked for has to be written, and no other can be; a ping of our own, the
answer to a close and the end after a close of our own have to follow; and a handler that is
called has to look at the connection (a `Boundary` event) and start its script before anything else
happens. `run` is the stack of scripts under way: a call is made only if it is the next one of the
innermost script, and a script ends only when its calls are done or one of them has thrown. `Fair`
says that the accounts balance, which every `Boundary` requires.

Some invariants are stated for all `k` with `Asked(topic, k)`. The guard is always true; it
keeps a fact out of proofs that do not ask for it, and changes nothing about what is claimed.

## What the code does, where one might expect otherwise

- `send` casts the size to `int` (`include/fastws/socket_wrapper.hpp:361-380`, and for TLS
  `include/fastws/socket_wrapper.hpp:191-219`). It sends everything
  exactly when the size is below 2^31; larger frames are cut or dropped without an error
  (`SendsAllIffInt`, `LargeSendsAreCut`).
- `close` polls first and does not look again whether the connection is still open
  (`include/fastws/fastws.hpp:132-139`). Without a fault the close handler is called, and a close
  frame sent, once for every time that a side closes (`CloseAccounting`), so exactly once for a
  `close` if and only if the server's close does not come in meanwhile and no handler closes as well
  (`DoClose`, `CloseMade`). If handlers only send, this depends only on what is there before the
  call: a turn of the poll makes one read and looks at the next frame of the stream, the poll stops
  at the first turn without a frame, and the handler is called once if and only if none of the at
  most four turns finds a close (`PollMeetsClose`, `OpenThenClose`). A close that comes after a turn
  without a frame is left to the wait for the answer. Two inputs with two calls: one close
  frame waiting (`ServerClosesToo`), and one text waiting whose handler closes (`HandlerClosesToo`),
  as the one in `examples/example.cpp:17-22` does.
- The documentation says that a payload is valid for the duration of the handler call
  (`README.md:52`). A handler that only sends leaves it alone (`CallHandler`). A handler that polls
  or closes may not: if making room for a read, or for a copy, has to grow the buffer, the view may
  dangle; otherwise it still reads the payload after each of any number of updates exactly when each
  of them leaves the same bytes wherever it writes under it (`UpdatesUnderView`). `StaleView` is an
  input for which they do not.
- The parser does not unmask and does not check the reserved bits. The key field of an unmasked
  frame holds whatever was there before, so `Observe` leaves it out.

## Model

| member | source | states |
|---|---|---|
| `Bytes.XorTwice` | single_header/fastws.hpp:517-519 | masking a byte twice with the same key byte is the identity |
| `Bytes.XorAt` | single_header/fastws.hpp:517-519 | each bit of the exclusive or of two bytes is set if and only if that bit of the two differs |
| `Bytes.LengthRoundTrip` | single_header/fastws.hpp:496-508 | a length written in k big-endian bytes reads back, if it fits |
| `Bytes.LengthCanonical` | single_header/fastws.hpp:684-698 | big-endian length bytes, read and written again at the same width, are unchanged |
| `Frames.MaskedTwice` | single_header/fastws.hpp:511-520 | masking a payload twice with the same key gives it back; what the masked bytes are is `Wire.EncodeLaid` |
| `Frames.PrefixComplete` | single_header/fastws.hpp:642-724 | bytes that arrive after a whole frame change neither its size nor its decoding |
| `Frames.IncompleteIsPrefix` | single_header/fastws.hpp:642-724 | a byte string without a whole frame is a strict prefix of one: the bytes that complete it are given |
| `Frames.DecodeEncode` | single_header/fastws.hpp:475-525 | for every frame, with anything behind it: the printed bytes are one frame, they decode to it with the payload masked, and unmasking gives the original |
| `Frames.Canonical` | single_header/fastws.hpp:475-525 | re-encoding a received frame is never longer, and gives the same bytes if and only if the reserved bits were zero and the length was in its shortest form |
| `Wire.EncodeLaid` | single_header/fastws.hpp:475-525 | every byte of a printed frame: 0x80 and opcode, mask bit and length code, length bytes most significant first, key, and payload bytes that differ from the payload exactly in the bits of the key byte of their position |
| `Wire.DecodeReadsOff` | single_header/fastws.hpp:642-724 | the fields of a decoded frame, byte by byte, in any of the three length forms |
| `Wire.ReadOffIsDecode` | single_header/fastws.hpp:642-724 | whatever fits that description is the decoded frame, and its size is that of the description |
| `Streams.DecodeAppend` | single_header/fastws.hpp:613-803 | decoding a stream in two parts, carrying the remainder over, is decoding it at once |
| `Streams.DecodeCount` | single_header/fastws.hpp:642-724 | a stream of n bytes holds at most n/2 frames, not counting the remainder |
| `Streams.StreamRoundTrip` | single_header/fastws.hpp:475-525 | every list of frames, printed one after the other, decodes to itself up to masking, with nothing left over |
| `Streams.CutStream` | include/fastws/socket_wrapper.hpp:361-380 | a stream cut inside a frame decodes to all frames before the cut, and the remainder is the part of the frame |
| `Streams.EncodingIsUnambiguous` | single_header/fastws.hpp:475-525 | two lists of frames with the same bytes agree in everything that the wire carries |
| `Streams.ReencodedLength` | single_header/fastws.hpp:475-525 | printing again what a stream decodes to never takes more bytes than its whole frames did |
| `FrameBuffers.FrameBuffer.EnsureFit` | single_header/fastws.hpp:367-373 | the capacity becomes the larger of the old one and the request; the contents stay |
| `FrameBuffers.FrameBuffer.PushByte` | single_header/fastws.hpp:376-379 | one byte is appended, within capacity |
| `FrameBuffers.FrameBuffer.GetSpace` | single_header/fastws.hpp:382-386 | the next bytes are handed out, within capacity |
| `FrameBuffers.FrameBuffer.PushView` | single_header/fastws.hpp:390-400 | the view is appended; the capacity grows just as much as needed |
| `FrameBuffers.FrameBuffer.Receive` | include/fastws/socket_wrapper.hpp:411-428 | bytes read into the tail and claimed are appended |
| `FrameBuffers.FrameBuffer.Compact` | single_header/fastws.hpp:742-750 | moving the rest to the front in place leaves exactly the bytes from the pointer on |
| `FrameParsers.RepAppend` | single_header/fastws.hpp:632-724 | what the fields of a parser mean does not change when bytes are appended |
| `FrameParsers.StuckIncomplete` | single_header/fastws.hpp:642-724 | a parser that cannot advance holds no whole frame, and its stage and pointer are determined by its bytes |
| `FrameParsers.DoneObserves` | single_header/fastws.hpp:712-724 | in the last stage the fields and the payload view are exactly the decoded frame |
| `FrameParsers.FrameParser.constructor` | single_header/fastws.hpp:760-761 | a new parser, whatever its uninitialised fields hold, has read nothing |
| `FrameParsers.FrameParser.CheckFinBit` | single_header/fastws.hpp:642-647 | keeps the meaning of every stage; stays in its stage only for want of bytes |
| `FrameParsers.FrameParser.CheckOpcode` | single_header/fastws.hpp:649-654 | keeps the meaning of every stage and always leaves its own |
| `FrameParsers.FrameParser.CheckMaskBit` | single_header/fastws.hpp:656-661 | keeps the meaning of every stage; stays in its stage only for want of bytes |
| `FrameParsers.FrameParser.CheckPayloadLen` | single_header/fastws.hpp:663-678 | keeps the meaning of every stage and always moves on to a later one |
| `FrameParsers.FrameParser.CheckExtended16` | single_header/fastws.hpp:680-689 | the same, for a 16-bit length |
| `FrameParsers.FrameParser.CheckExtended64` | single_header/fastws.hpp:691-701 | the same, for a 64-bit length |
| `FrameParsers.FrameParser.ReadLength64` | single_header/fastws.hpp:695-698 | the loop over eight shifted bytes computes their big-endian value |
| `FrameParsers.FrameParser.CheckMaskingKey` | single_header/fastws.hpp:703-710 | the same, for the key |
| `FrameParsers.FrameParser.CheckPayloadData` | single_header/fastws.hpp:712-724 | the same, for the payload view |
| `FrameParsers.FrameParser.Parse` | single_header/fastws.hpp:728-740 | one pass ends in the last stage or where nothing can advance, and a second pass from there changes nothing |
| `FrameParsers.FrameParser.Reset` | single_header/fastws.hpp:742-758 | the buffer holds the bytes after the frame and the parser is at a frame boundary |
| `FrameParsers.FrameParser.Clear` | single_header/fastws.hpp:763-769 | everything is forgotten, from any state |
| `FrameParsers.FrameParser.UpdateView` | single_header/fastws.hpp:771-793 | returns the first frame of unread plus new bytes if there is one, else rests where those bytes say; no byte is lost; an early return changes nothing and hides no frame |
| `FrameParsers.FrameParser.Update` | single_header/fastws.hpp:795-803 | the same for bytes that a read put into the buffer before compaction |
| `FrameParsers.FrameParser.Grown` | include/fastws/socket_wrapper.hpp:411-428 | reading into the buffer behind the parser's back only adds unread bytes |
| `FrameParsers.FrameParser.EmittedThenUnread` | single_header/fastws.hpp:613-803 | in every state, frames handed out followed by the decoding of the unread bytes is the decoding of all bytes taken in |
| `Schedules.ChunksDoNotMatter` | single_header/fastws.hpp:613-803 | for every schedule of updates, frames handed out followed by the decoding of what is unread is the decoding of the whole stream |
| `Schedules.PrintedFramesComeBack` | single_header/fastws.hpp:475-525 | every list of frames, printed and parsed under any chunking, comes back with the same bits, keys and unmasked payloads |
| `Schedules.Feed` | single_header/fastws.hpp:771-803 | one call, by either path, hands out the first frame of unread plus new bytes, leaves the rest, and stops at the stage and place that these bytes say |
| `Schedules.FeedAll` | single_header/fastws.hpp:771-803 | the parser, over any schedule, does what the pure schedule functions say |
| `Schedules.Drain` | single_header/fastws.hpp:783-793 | repeated empty updates terminate, hand out every frame left, at most half as many as there are bytes, and leave the remainder, which is a strict prefix of a frame |
| `Schedules.RunAndDrain` | single_header/fastws.hpp:613-803 | a new parser, over any schedule and drained, yields exactly the frames of the stream and keeps a strict prefix of a frame |
| `Schedules.TwoPaths` | single_header/fastws.hpp:742-803 | two parsers, one on the copying and one on the zero-copy path, hand out the same frames, keep the same bytes and stop at the same stage and pointer |
| `Schedules.UpdateUnderView` | single_header/fastws.hpp:367-400 | exactly when the next update or its read grows the storage, and that otherwise any view still reads what it read if and only if the update leaves the same bytes wherever it writes under it |
| `Schedules.UpdatesUnderView` | single_header/fastws.hpp:742-803 | over any sequence of updates that fits: the storage is a function of the schedule, and a view reads its payload after each of them if and only if each spares it |
| `Schedules.ViewSpared` | single_header/fastws.hpp:742-750 | the exact byte-by-byte condition under which one update spares a view |
| `Schedules.SparesWhatIsBehind` | single_header/fastws.hpp:742-750 | a view behind all bytes in use after the update, and not where a read lands, is spared |
| `Schedules.StaleView` | README.md:52 | a parser and a stream for which the payload view reads another frame's bytes after an update without new data |
| `Words.AddWraps` | single_header/fastws.hpp:318-318 | word addition is addition modulo 2^64 |
| `RandomKeys.StepReversible` | single_header/fastws.hpp:312-319 | the state step has an inverse on all 128-bit states, on both sides |
| `RandomKeys.RunReversible` | single_header/fastws.hpp:312-319 | any number of draws can be undone |
| `RandomKeys.SeedsNeverMeet` | single_header/fastws.hpp:312-319 | different seeds are in different states after any number of draws |
| `RandomKeys.NeverZero` | single_header/fastws.hpp:304-319 | from a seed that is not zero no number of draws reaches the zero state |
| `RandomKeys.SeedNotZero` | single_header/fastws.hpp:304-309 | the constructor never starts at zero; the words are the seeds, except that two zeros give 0 and 1 |
| `RandomKeys.StepBits` | single_header/fastws.hpp:312-319 | bit i of the new state word in terms of the old bits, with the shifts 23, 17 and 26; a step is this and nothing else |
| `RandomKeys.OutputIsSum` | single_header/fastws.hpp:318-318 | the number drawn is the sum of the two new state words modulo 2^64, and nothing else |
| `RandomKeys.XorShift128Plus.Next64` | single_header/fastws.hpp:312-319 | one draw is one step, bit by bit, and returns the sum of the two new state words modulo 2^64 |
| `RandomKeys.XorShift128Plus.FillBytes` | single_header/fastws.hpp:321-334 | fills any number of bytes with the next stretch of the byte stream, in as many draws as needed |
| `RandomKeys.RandomCache.constructor` | single_header/fastws.hpp:538-540 | the cache starts at the beginning of the stream |
| `RandomKeys.RandomCache.FillCache` | single_header/fastws.hpp:542-545 | a fill takes four draws and makes the cache the stretch they produced |
| `RandomKeys.KeyIsDrawn` | single_header/fastws.hpp:547-554 | byte i of the key at position q is byte (q + i) % 8 of the machine's layout of the number that draw (q + i) / 8 + 1 returns, in every run of states from the seed |
| `RandomKeys.RunExists` | single_header/fastws.hpp:312-319 | there is such a run of states of any length |
| `RandomKeys.RandomCache.Get` | single_header/fastws.hpp:547-554 | the key is the next four bytes that the draws yield, across refills |
| `FrameFactories.WriteLength` | single_header/fastws.hpp:490-509 | appends the length field in its shortest form |
| `FrameFactories.WritePayload` | single_header/fastws.hpp:511-524 | appends the key and the payload, each byte under its key byte bit for bit, or the payload as it is |
| `FrameFactories.ConstructFrame` | single_header/fastws.hpp:475-525 | the buffer holds exactly the encoding, laid out byte by byte as in `Wire`; the capacity becomes at least payload + 114, and never more than payload + 14 of it is used |
| `FrameFactories.PrintAll` | single_header/fastws.hpp:475-525 | printing a list of frames through one buffer gives the concatenated encodings |
| `FrameFactories.FrameFactory.Construct` | single_header/fastws.hpp:566-578 | the frame gets the next key of the stream if masked, and its encoding is returned |
| `FrameFactories.FrameFactory.Control` | single_header/fastws.hpp:588-610 | control frames over 125 bytes are refused, before a key is used up |
| `Sockets.SendsAllIffInt` | include/fastws/socket_wrapper.hpp:361-380 | `send` sends everything if and only if the size is below 2^31, and never more; the TLS loop at lines 191-219 is the same |
| `Sockets.LargeSendsAreCut` | include/fastws/socket_wrapper.hpp:363-363 | at 2^31 nothing is sent, at 2^32 + 1 one byte |
| `Sockets.ReadsAtMost1024` | include/fastws/fastws.hpp:142-168 | a read takes in at most 1024 bytes of what a call would deliver |
| `Sockets.Socket.Send` | include/fastws/socket_wrapper.hpp:361-380 | for every pattern of partial writes: on normal return the bytes for the cast size are on the wire, on an exception a strict prefix of them; the TLS loop at lines 191-219 is the same |
| `Sockets.Socket.ReadInto` | include/fastws/socket_wrapper.hpp:411-428 | what the call returned is appended to the buffer; the flag says whether that was anything; only errors throw; room is made for as much as was asked for |
| `Sockets.Socket.Read` | include/fastws/socket_wrapper.hpp:386-409 | what the call returned; only errors throw |
| `Trace.LegalPrefix` | include/fastws/fastws.hpp:132-201 | prefixes of legal histories are legal, and each event was admissible when it came |
| `Theorems.NeverHealthyAgain` | include/fastws/fastws.hpp:95-153 | once the status has left HEALTHY it never returns to it, whatever handlers do |
| `Theorems.HandlersLookFirst` | include/fastws/fastws.hpp:58-62 | a handler that is called sees the connection before anything else happens and before any call returns |
| `Theorems.OpenIffHealthy` | include/fastws/fastws.hpp:130-153 | at every handler call and API return the connection is open exactly when the status is HEALTHY |
| `Theorems.ObserversAgree` | include/fastws/fastws.hpp:130-153 | handlers and callers that have seen the connection over never see it open again |
| `Theorems.StatusMeaning` | include/fastws/fastws.hpp:95-191 | the status is the one of the last of opening, server's close, own close and ping timeout |
| `Theorems.Delivery` | include/fastws/fastws.hpp:165-201 | at every point before a close, the frames dispatched are a prefix of the decoding of the bytes received |
| `Theorems.NothingLeftBehind` | include/fastws/fastws.hpp:165-201 | when poll finds nothing to do, every whole frame received has been dispatched |
| `Theorems.ReceivedIsDelivered` | include/fastws/fastws.hpp:140-171 | the bytes received in a run are what its receive calls delivered, in order |
| `Theorems.StreamToHandlers` | include/fastws/fastws.hpp:172-195 | at every handler call and API return, handlers have seen exactly the data frames dispatched, in order, and without a fault the pongs sent echo exactly the pings dispatched; before a close these are the first ones of the stream |
| `Theorems.CloseAccounting` | include/fastws/fastws.hpp:132-191 | between any two handler calls or API returns without a fault, the close handler is called and a close frame sent once for each time a side closed, so exactly once if and only if just one side closed once |
| `Theorems.OnlyLongPingsFault` | include/fastws/fastws.hpp:71-73 | if no system call fails, an exception comes only from a ping of more than 125 bytes |
| `Theorems.NothingThrows` | include/fastws/fastws.hpp:132-201 | if no system call fails and no ping in the stream is over 125 bytes, however the parser is cleared, nothing ever throws |
| `Theorems.SmallStreamsAreEasy` | include/fastws/fastws.hpp:71-73 | a stream of at most 125 bytes holds no such ping |
| `Theorems.TimerMeaning` | include/fastws/fastws.hpp:89-127 | the timer started at the last ping while waiting, and at the last pong otherwise |
| `Theorems.TickMeaning` | include/fastws/fastws.hpp:95-109 | after a ping update_ping gives up if and only if more than the timeout has gone by since, and never pings; after a pong it pings if and only if more than the interval has gone by since, and never gives up |
| `Theorems.PingsArePaced` | include/fastws/fastws.hpp:103-107 | every ping but the first comes more than the interval after the last pong |
| `Theorems.RttMeaning` | include/fastws/fastws.hpp:89-93 | the round trip is the time from the last ping or pong before the last pong to the first look at the clock for it, and 0 before any pong |
| `Theorems.ClockInTurn` | include/fastws/fastws.hpp:89-109 | every time in a history is a reading of the clock, taken in turn, none twice |
| `Theorems.PongBetweenPings` | include/fastws/fastws.hpp:89-109 | between any two pings a pong was dispatched |
| `Theorems.ExpirySound` | include/fastws/fastws.hpp:95-101 | a timeout is set only more than the timeout after the last ping, with no pong between |
| `Theorems.DeadPeer` | include/fastws/fastws.hpp:89-109 | with update_ping done every g ms and no pong after the one at p, the status is PING_TIMED_OUT by p + every + timeout + 2g; after an unanswered ping at p, by p + timeout + g |
| `Theorems.OutputDecodes` | include/fastws/fastws.hpp:69-81 | the wire decodes, once unmasked, to exactly the frames offered to the socket, in order, if and only if every write went out in full |
| `Theorems.PongsOnTheWire` | include/fastws/fastws.hpp:71-73 | if every write went out, the pongs that the server decodes from the wire echo exactly the pings dispatched |
| `Theorems.OutputCutShort` | include/fastws/socket_wrapper.hpp:361-380 | after the first failed write the wire is a prefix of the stream offered and decodes to all earlier frames |
| `Theorems.KeysInTurn` | single_header/fastws.hpp:531-578 | the k-th frame written is final and masked with the bytes 4k to 4k+4 that the draws from the seed yield |
| `Conformance.LegalConforms` | include/fastws/fastws.hpp:157-195 | in literal opcodes and first bytes: each frame dispatched gets what its opcode asks for (1, 2: text and binary handler; 8: the status and an answer 0x88; 9: a pong 0x8A with its payload, or a refusal over 125 bytes; 10: the timer; others: the continuation handler), each send goes out at once as 0x81 or 0x82, each ping of our own as 0x89, and no frame goes out for any other reason |
| `Conformance.RightHandler` | include/fastws/fastws.hpp:172-195 | a handler call follows the dispatch of its frame; text for opcode 1, binary for 2, continuation for every opcode but 1, 2, 8, 9, 10 |
| `Polls.PollMeetsClose` | include/fastws/fastws.hpp:165-198 | a poll ends with a close if and only if some turn of it, each after one more read, finds a close as the next frame of the stream, and every turn before it finds another frame |
| `Polls.PollingStep` | include/fastws/fastws.hpp:167-198 | one turn keeps what a poll has done and is still going to do equal to the frames foreseen, and counts closes |
| `Requests.RequestsFollowPlan` | include/fastws/fastws.hpp:157-201 | at any point the data frames asked for, followed by those that scripts under way still ask for, are the plan: a handler's come in where it is called, and an exception takes out the rest of a script that does not catch it |
| `Requests.RequestsConserved` | include/fastws/fastws.hpp:157-201 | whatever handlers re-enter, once all is done without a fault, the data frames sent are those of all programs and handlers started: none lost, none twice, none besides |
| `Requests.HandlersCounted` | include/fastws/fastws.hpp:172-195 | the handler scripts started are as many as the handler calls |
| `Requests.RequestsOnTheWire` | include/fastws/fastws.hpp:157-163 | if every write went out, the text and binary frames that the server decodes from the wire are, in order, exactly those asked for (opcodes 1 and 2) |
| `Requests.SendsAsked` | include/fastws/fastws.hpp:157-163 | a script of sends asks for one frame per call, opcode 1 for send_text and 2 for send_binary |
| `Requests.GreetingsAsked` | include/fastws/fastws.hpp:157-163 | the same for the greetings of the open handler |
| `Requests.SendsArriveInTurn` | include/fastws/fastws.hpp:157-163 | if handlers and the program only send and nothing fails, the server decodes the greetings, then the program's frames, then those of the handlers called while closing |
| `Clients.WSClient.constructor` | include/fastws/fastws.hpp:112-121 | the parts of a new client agree with the empty history; seconds become milliseconds |
| `Clients.WSClient.Accept` | include/fastws/fastws.hpp:58-62 | a successful handshake makes the connection open and HEALTHY before the handler sees it |
| `Clients.WSClient.Greet` | include/fastws/fastws.hpp:157-163 | the calls of the open handler are made in order, up to the first uncaught exception, and exactly their frames are written |
| `Clients.WSClient.Open` | include/fastws/fastws.hpp:122-128 | a failed handshake leaves FAILED and throws; otherwise the history begins with the opening, and on normal return it ends with the start of the timer and the first ping, sent in full, whatever the open handler caught |
| `Clients.WSClient.SendFrame` | include/fastws/fastws.hpp:69-81 | exactly one frame with the given opcode and payload and the next key is attempted, or a long control frame refused; nothing of the parser changes |
| `Clients.WSClient.SendData` | include/fastws/fastws.hpp:157-163 | one text or binary frame with the payload just asked for, and only then, is written |
| `Clients.WSClient.Fetch` | include/fastws/fastws.hpp:167-171 | the bytes of the next receive call, and no others, join the unread bytes |
| `Clients.WSClient.Take` | include/fastws/fastws.hpp:167-172 | the next frame of the stream is dispatched, or there is none |
| `Clients.WSClient.HandlePong` | include/fastws/fastws.hpp:89-93 | the round trip is the next reading of the clock less the start of the timer, the timer restarts at the reading after that, the wait is over |
| `Clients.WSClient.TickTimer` | include/fastws/fastws.hpp:95-109 | at the next reading of the clock: a timeout if and only if waiting for more than the timeout, a ping and a restart at the reading after if and only if not waiting for more than the interval, otherwise nothing |
| `Clients.WSClient.UpdatePing` | include/fastws/fastws.hpp:95-109 | exactly one tick is logged, with that decision, and exactly when it asks for one, a ping after it |
| `Clients.WSClient.RunCalls` | include/fastws/fastws.hpp:157-201 | a script makes its calls in order up to the first uncaught exception; those of handlers that run inside them come and go |
| `Clients.WSClient.Invoke` | include/fastws/fastws.hpp:130-201 | each public call, made only if the running script makes it next, does and returns its own thing (a send writes one frame of its kind, poll returns the status, close its success), and the last thing logged is what the caller then sees |
| `Clients.WSClient.CallHandler` | include/fastws/fastws.hpp:174-195 | a handler sees the connection first, then its script starts and is carried out to its end, with any calls back into the client; every invariant is kept; one that only sends leaves the parser and the payload view alone |
| `Clients.WSClient.Dispatch` | include/fastws/fastws.hpp:173-195 | every frame gets the action of its opcode (in literal numbers: `LegalConforms`), and the accounts balance again after it |
| `Clients.WSClient.AnswerPing` | include/fastws/fastws.hpp:71-73 | exactly one pong with the payload of the ping is attempted, or over 125 bytes refused |
| `Clients.WSClient.AnswerClose` | include/fastws/fastws.hpp:186-189 | exactly: the status is set, then an empty close frame sent, before the handler is called; the status is CLOSED_BY_SERVER |
| `Clients.WSClient.PollFrames` | include/fastws/fastws.hpp:165-198 | the frames this call itself dispatched, with their places in the history: at most max(1, max_reads), and fewer only if the server closed, something threw, or nothing was left; it reports a close exactly if the last one is a close; the first one is determined before the call, and all are if handlers only send; no data frame is written but by a handler's call |
| `Clients.WSClient.DoPoll` | include/fastws/fastws.hpp:165-201 | the same; on normal return it ends with the tick of the ping timer unless it met a close, and with the close handler if it did |
| `Clients.WSClient.BeginClose` | include/fastws/fastws.hpp:136-139 | exactly: the parser is cleared, an empty close frame sent, the status set if that went well; then it is CLOSED_BY_CLIENT |
| `Clients.WSClient.AwaitClose` | include/fastws/fastws.hpp:140-150 | success exactly if the last frame read was a close; otherwise ten reads for each second, no close among them, and never more reads |
| `Clients.WSClient.DoClose` | include/fastws/fastws.hpp:132-153 | a closed client does nothing; otherwise it polls first, closes from this side even if that poll met a close, and the close handler is called exactly as often as `CloseMade` says; no data frame is written but by a handler's call |
| `Clients.WSClient.CloseProgram` | include/fastws/fastws.hpp:155-155 | the destructor is one call of close, and nothing else |
| `Clients.WSClient.StillOver` | include/fastws/fastws.hpp:132-153 | a connection that is over stays over through any later calls |
| `Sessions.Session` | include/fastws/fastws.hpp:112-201 | for every environment, program and handlers: the history is legal, program and destructor are carried out, the bytes received are what the receive calls delivered, status, openness, wire and unread bytes are what the history says, handlers and callers find every account balanced, the data frames on the wire are those asked for, in the order of the plan, and an exception in the constructor leaves a legal history that begins with the opening; and every event conforms to the protocol's numbers |
| `Sessions.RequestsAreServed` | include/fastws/fastws.hpp:157-201 | a session's requests follow the plan, are all those of its scripts if nothing throws, and come in turn if scripts only send |
| `Sessions.ObserversAreServed` | include/fastws/fastws.hpp:112-201 | in every legal, balanced history every handler call is followed by a look at the connection, and at every look the accounts agree |
| `Sessions.OpenThenClose` | include/fastws/fastws.hpp:122-153 | opened and closed with no failing call and no ping over 125 bytes: when handlers only send, exactly one call of the close handler if and only if no turn of the poll meets a close; two or more if the first handler called closes |
| `Sessions.ServerClosesToo` | include/fastws/fastws.hpp:132-139 | one close frame waiting: the close handler is called twice |
| `Sessions.HandlerClosesToo` | examples/example.cpp:17-22 | one text waiting, whose handler closes: the close handler is called at least twice |

## Left out

- The handshake request and the scan of the response: one step that succeeds or fails. Bytes read behind the response header are dropped by the source and are not part of any stream here.
- Socket and TLS set-up, address lookup, move operations, OpenSSL error texts, console output and sleeps.
- `FrameParsers.FrameParser.ReadLength64`: the source shifts a promoted `int` by up to 56 bits, which C++ leaves undefined; the model shifts in 64 bits.
- Exceptions of a handler's own: handlers pass on or catch those of the calls they make, and throw no others.
- Reallocation and pointers: the storage of the buffer is a value of type `seq`, so a view into storage that was moved is not read; `UpdateUnderView` says when that happens.
- `Clients.WSClient.Open`: an open handler only sends; the source starts the ping timer after it, so polling from it would use a timer that was never started.
- `Sockets.Socket.Send`: a write call that reports no progress for ever makes the source loop for ever; here such calls are finitely many.
- Aliasing of a payload with the factory's own buffer: payloads are passed as values. No method of the client gives that buffer out.
- The order of bytes in a word (`memcpy` in `fill_bytes`): any fixed layout, as a parameter.
- UTF-8 checks, reassembly of fragments, rejection of reserved bits and close codes: the source does not have them.
- Round-trip time as a floating-point number, and `double` arithmetic on milliseconds: integers.
