# A verified model of the terminal multiplexer

A browser tab, a hub and an agent exchange framed messages; the agent runs shells and shares
each PTY among any number of attached streams. This project models the parts of that system
where something can go wrong quietly, and proves what they promise for every input, every
run or every reachable state. Nothing is executed: `dafny verify dfyconfig.toml` checks it.

| module | part of the system |
|---|---|
| `Prelude`, `Utf8` | machine integers, big-endian fields, UTF-8 |
| `Frame`, `Transport`, `WireFormat` | the 22 frame types, the WebSocket decoder and the byte-stream reader, and all of that in plain numbers |
| `Proxy` | the hub's re-stamping of browser and agent messages, stream id allocation |
| `Cbor`, `Webauthn` | the CBOR cursor, the ES256 key decoder, authenticator data, attestation objects |
| `Osc`, `TermDl` | the escape-sequence scanner, the `term-dl` printer and the agent's parser |
| `Broadcast`, `FanOut`, `Lease`, `Session` | the lossy broadcast channel, scrollback replay, the control lease, the session object |
| `Download`, `Tab`, `Carried` | the agent's download tasks, the browser's reassembly, a tab that meets a second session |
| `Paste`, `PasteSafety`, `PasteOutcomes`, `PasteCap` | the paste registry, file ownership and bounds, what each outcome leaves behind, the aggregate cap |
| `Prio`, `Routing`, `Link`, `Demux` | two-priority bounded channels, which frames ride which half, what is read at the far end of a shared link, the two readers |
| `Delivery` | whole ways: browser to session, disk to browser |
| `Calendar` | UTC dates |

Code that updates objects is a class whose methods are proved equal to a step function
(`Model() == Step(old(Model()), ...)`); the run-level theorems are about sequences of those
steps. Lock sections, polls and handlers are the atomic steps, and every interleaving of them
is a run. Files, clocks, the PTY, the sockets and the success of opening, reading and writing
are parameters of the steps.

Each step function and each encoding is also held to laws that do not name it, in literal bytes
and numbers or in terms of the fields and files it leaves: `WireFormat` for the wire, the last
sections of `Osc` and `Cbor` for the scanner and the cursor, `PasteOutcomes` for the registry.

## What the proofs found

Places where the program does not keep what its comments or its users would expect. Each has
an input and, where the property is the program's own, the exact condition.

- **Aggregate paste cap.** The comment on a group's declared total (agent/src/main.rs:702-706)
  says one paste action cannot claim more than 4 GiB in all. A begin that overflows the cap
  cancels its group but leaves the group's other uploads pending (1110-1128); a later begin with
  the same group id makes a new group, and the old uploads join it when they end.
  `PasteCap.CapExceeded` is a run of accepted frames that types a 6 GiB batch.
  `PasteCap.RunLadenIff`: the cap holds throughout a run exactly when no begin is let through
  while its id's uploads and files come, with it, to more than the cap.
  `PasteCap.StepCoveredIff`: the declared total stops covering the files exactly when a begin
  creates a group under an id that pending uploads still carry.
- **Failed flush.** `handle_paste_end` only logs a failing flush (agent/src/main.rs:1284-1286) and
  goes on to type the file. `PasteSafety.InjectedFilesAreWhole`: a typed file is whole exactly
  when its flush lost nothing. `PasteSafety.ShortFileInjected` types an empty file for two bytes.
- **Attach.** `attach` of a stream that already controls, at another size, leaves `last_size`
  stale. It happens: the proxy accepts a second open on the same socket
  (`Proxy.AcceptsEveryBody`), and every open makes the agent attach that stream id
  (agent/src/main.rs:610-631). `Lease.ReattachBreaksInv` is the run; `Lease.KeepsInvIff` and
  `Lease.RunInvIff` say that this is the only way.
- **Two sessions, one tab.** Download ids count up per session, and a tab keeps its buffers when it
  reconnects (hub/static/app.js:1105-1115), even to another session under the same name.
  `Carried.SessionsMix` has two sessions, runs of the agent with one download each, whose bytes a
  reconnecting tab saves as one file. `Carried.SafeIffNothingCarried` is the exact condition:
  everything a tab saves, in every session and over all its connections, is a file that session
  read if and only if the tab carries no buffer under an id that sessions use. For every buffer
  under such an id `Carried.CarriedMixes` gives the session that fills it. Within one session it cannot happen
  (`Tab.LaggingTabSavesWholeFiles`).
- **Depth limit.** `decode_es256` skips unknown values from level 0 while the outer `skip_value`
  meets them at level 1 (common/src/webauthn/authdata.rs:123-126). `Webauthn.CursorsAgree` gives
  the exact condition, `Webauthn.DeepUnknownEntry` a key that decodes and is still refused.
- **Failed open.** A begin whose file cannot be opened takes its declaration back, but a group
  created for it stays, empty: `PasteSafety.FailedOpenRestores`.
- **Short reads.** A comment in common/src/transport.rs calls a short read within a header an
  error; the code returns a clean end for any end of stream within the header, and the model
  follows the code (`Transport.CutStream`).
- **Over-long sequences.** The module comment of common/src/osc.rs lists over-long OSCs with the
  captured ones; the code drops them, and so does the model (`Osc.ScannerFilters`).

## Model

| member | source | states |
|---|---|---|
| Utf8.TruncateIsLongestPrefix | common/src/frame.rs:718-739 | for every text and cap, what is kept is the longest whole-character prefix within the cap, at most 3 bytes short of it, everything if it fits, and a fixed point |
| Utf8.TruncatedLen | common/src/frame.rs:764-781 | the decrementing loop computes that prefix's length |
| Utf8.BoundaryIffValidPrefix | common/src/frame.rs:721-730 | an offset of a text is a character boundary exactly when the prefix before it is valid UTF-8 |
| Utf8.ValidIffText | common/src/frame.rs:1085 | a byte string is valid UTF-8 exactly when it encodes, six bits to a continuation byte, a list of Unicode scalar values, so no surrogate, no overlong form and nothing past U+10FFFF |
| Prelude.BeIs | common/src/frame.rs:831-833 | each fixed-width field is written as the base-256 digits of its value, the most significant first |
| Prelude.U64Is | common/src/frame.rs:1124-1135 | and read as the value of those digits |
| Frame.BodyRoundTrip | common/src/frame.rs:1063-1328 | decoding the payload of any well-formed body of the 22 types gives the body back |
| Frame.HeaderAcceptsWellFormed | common/src/frame.rs:840-1061 | the header check accepts every well-formed frame with its own type |
| Frame.BodyCanonical | common/src/frame.rs:840-1328 | whatever passes both stages is well-formed and its payload is reproduced exactly, so every accepted payload is canonical |
| Frame.EncodeCutsNames | common/src/frame.rs:718-781 | encoding a frame equals encoding it with its name cut to the kept prefix |
| Frame.EncodeDownloadBegin | common/src/frame.rs:759-781 | the buffer-filling encoder with its truncation loop equals the encoding function |
| Frame.EncodePasteBegin | common/src/frame.rs:711-739 | the same for paste begins |
| Frame.EncodeDownloadChunk | common/src/frame.rs:1341-1353 | the single-copy encoder produces the same bytes as the general one |
| WireFormat.Layout | common/src/frame.rs:688-836 | every well-formed frame is stream id, type byte, payload length and payload, and the payload of each of the 22 numbered types is its fields at their offsets and widths |
| WireFormat.HeaderIff | common/src/frame.rs:840-1061 | a header is accepted exactly for a type byte up to 21, on its kind of stream, with a length in that type's range, all in literal numbers; the type is refused first, the stream next |
| WireFormat.LengthRefused | common/src/frame.rs:840-1061 | which error names a length out of its type's range |
| WireFormat.PayloadIff | common/src/frame.rs:1063-1328 | of payloads of a fitting length exactly those decode whose inner lengths, sizes, status bytes, session ids and text are in order, in literal numbers |
| WireFormat.PayloadRefused | common/src/frame.rs:1063-1328 | which error names a payload out of order, the checks in their order |
| WireFormat.MessageIff | common/src/transport.rs:87-107 | so exactly which byte strings are accepted as messages |
| Transport.DecodeAfterEncode | common/src/transport.rs:87-107 | decoding an encoded well-formed frame gives the frame and its byte count |
| Transport.EncodeAfterDecode | common/src/transport.rs:87-107 | re-encoding any accepted message reproduces it byte for byte |
| Transport.SurvivesIffWellFormed | common/src/frame.rs:688-1328 | a frame survives the wire unchanged exactly when it is well-formed |
| Transport.EncodeInjective | common/src/frame.rs:688-836 | two well-formed frames with the same bytes are the same frame |
| Transport.LongNamesDecode | common/src/frame.rs:1134-1140 | a frame with an over-long name decodes with the kept name, which a second trip leaves alone |
| Transport.ByteStreamRecv.Receive | common/src/transport.rs:43-67 | one receive returns and consumes exactly what the reference decoder says, error by error |
| Transport.CutStream | common/src/transport.rs:43-67 | the bytes of any list of well-formed frames, cut anywhere, yield exactly the frames wholly before the cut with their byte counts, then a clean end at or within a header and an error within a payload |
| Transport.WholeBeforeIsGreatest | common/src/transport.rs:43-67 | those are the most frames that fit before the cut |
| Transport.ReceiveWhatWasSent | common/src/transport.rs:43-67 | uncut, the list itself is received and then a clean end |
| Transport.TransportsAgree | common/src/transport.rs:43-107 | a WebSocket message decodes to a frame exactly when the byte-stream reader takes the same bytes as that frame with nothing left |
| WireFormat.RecvIff | common/src/transport.rs:43-67 | one receive ends cleanly exactly on fewer than nine bytes, returns a frame exactly when a well-formed one stands at the front, that one, and fails on everything else |
| WireFormat.EofIff | common/src/transport.rs:43-67 | and it fails for lack of bytes exactly when an acceptable header announces more payload than there is |
| Proxy.AcceptsIffFrame | hub/src/proxy.rs:129-163 | a browser message is accepted exactly when it is stamped 0 and would be a frame on the allocated stream |
| Proxy.ForwardedBytes | hub/src/proxy.rs:129-163 | what goes to the agent is the message with only its four stream-id bytes replaced; it decodes there to the same body; no control-stream type passes |
| Proxy.ReturnedBytes | hub/src/proxy.rs:175-184 | what goes to the browser is the agent's message with the stream id zeroed |
| Proxy.RestampRoundTrip | hub/src/proxy.rs:118-184 | stamping onto a stream and back gives the original bytes |
| Proxy.WsToStream | hub/src/proxy.rs:118-173 | the message loop queues exactly the accepted messages, in order, up to the first message or the first failing send that stops it |
| Proxy.ForwardedBodies | hub/src/proxy.rs:118-163 | of any acceptable bodies a browser sends, with pings and pongs in between, exactly those before the first text, close or unacceptable message pass |
| Proxy.AcceptsEveryBody | hub/src/proxy.rs:129-163 | every body that can travel on the stream, a second open included, is accepted from a browser |
| Proxy.AllocStreamId | hub/src/agent_link.rs:146-154 | the counter loop yields the next nonzero id |
| Proxy.AllocatedDistinct | hub/src/agent_link.rs:146-154 | no id is 0 and none repeats within 2^32-1 allocations |
| Cbor.SkipIff | common/src/webauthn/cbor.rs:173-209 | skipping succeeds exactly on a definite-length item of major types 0 to 5, strings up to 64 KiB, nesting up to 6, and leaves exactly what follows it |
| Cbor.SkipEncoded | common/src/webauthn/cbor.rs:177-209 | on an encoded item, whatever follows, the outcome at any level is the rest or the nesting error, by the item's depth |
| Cbor.SkippedIsItem | common/src/webauthn/cbor.rs:177-209 | whatever is skipped is an item of the grammar within the limits |
| Cbor.Cursor.SkipValue | common/src/webauthn/cbor.rs:173-209 | the in-place loops and recursion compute that, with at most one head read per byte consumed and one more on failure, whatever counts are declared |
| Cbor.Cursor.ReadHeadByte | common/src/webauthn/cbor.rs:41-85 | the head reader advances the cursor as the reference says, or fails |
| Cbor.Cursor.ReadInteger | common/src/webauthn/cbor.rs:101-120 | signed integers, with the 64-bit range check |
| Cbor.Cursor.ReadStringOf | common/src/webauthn/cbor.rs:123-157 | byte and text strings, with the 64 KiB check |
| Cbor.Cursor.ReadMapCount | common/src/webauthn/cbor.rs:160-170 | map headers |
| Cbor.HeadMeans | common/src/webauthn/cbor.rs:41-85 | a head is three bits of type and five of information, and the argument is those five bits or the next 1, 2, 4 or 8 bytes as a big-endian number |
| Cbor.HeadCut | common/src/webauthn/cbor.rs:41-85 | a head cut short reports how many bytes are missing |
| Cbor.HeadUses | common/src/webauthn/cbor.rs:101-170 | what each leaf reader makes of a head, error by error: integers below 2^63, strings up to 65536 bytes, map counts |
| Cbor.SkipLeafMeans | common/src/webauthn/cbor.rs:177-209 | what a skip makes of a head of each leaf type, error by error, with the same limit |
| Cbor.NestingLimit | common/src/webauthn/cbor.rs:177-209 | six arrays in one another are skipped and seven are refused |
| Cbor.CountedValues | common/src/webauthn/cbor.rs:193-206 | an array holds as many values as its head says and a map twice as many |
| Webauthn.DecodeKey | common/src/webauthn/cose.rs:45-94 | the entry loop with its five optional variables equals the reference decoder, result and cursor |
| Webauthn.CursorsAgree | common/src/webauthn/authdata.rs:118-137 | when the key map is read, skipping the same bytes stops at the same byte, exactly unless a value nests too deep for the outer skip |
| Webauthn.DeepUnknownEntry | common/src/webauthn/authdata.rs:118-137 | a key that decodes while the skip is refused |
| Webauthn.HeldIsEntry | common/src/webauthn/cose.rs:45-94 | with distinct labels, what the decoder holds for a label is the value of the entry with that label |
| Webauthn.KeyIgnoresOrderAndUnknowns | common/src/webauthn/cose.rs:45-94 | keys with distinct labels that agree on the five known ones decode alike, whatever their order, unknown entries and integer widths |
| Webauthn.DecodesIff | common/src/webauthn/cose.rs:45-94 | a key map with distinct labels decodes to 04, x, y exactly when every entry is readable, 1 is 2, -1 is 1, 3 is -7 or absent, and -2 and -3 are these two strings of 32 bytes |
| Webauthn.DecodedPoint | common/src/webauthn/cose.rs:89-93 | every byte string that decodes does so to 04 and two coordinates of 32 bytes |
| Webauthn.RefusedType | common/src/webauthn/cose.rs:67-79 | why a readable map is refused: its key type, then its algorithm, then its curve, with the value found |
| Webauthn.RefusedCoordinates | common/src/webauthn/cose.rs:80-87 | and then a coordinate that is missing, or of another length |
| Webauthn.ParseAttested | common/src/webauthn/authdata.rs:97-137 | the parse equals the reference that `AuthDataParsed` and `AuthDataCut` pin down, with the first failing stage's error; on success both cursors end at the same byte |
| Webauthn.AuthDataParsed | common/src/webauthn/authdata.rs:62-137 | built from a hash, flags, count, aaguid, id and key tail, the data's parse reaches the key exactly when flags & 0x40 is not 0 and the id has at most 1023 bytes, returns those very fields, and otherwise names the missing flag or the id length |
| Webauthn.AuthDataCut | common/src/webauthn/authdata.rs:77-113 | data too short for its fixed part or its own id is refused with its length, after the flag and the id length have been checked |
| Webauthn.ExtractAuthData | common/src/webauthn/mod.rs:395-408 | the entry loop equals the reference reader |
| Webauthn.ExtractEncoded | common/src/webauthn/mod.rs:395-408 | on an encoded attestation object it yields the last authData entry, wherever it stands |
| Webauthn.LastAuthDataRead | common/src/webauthn/mod.rs:395-408 | of any entries of an encoded object the last one under the literal bytes of "authData" is what is read, and nothing when there is none |
| Osc.ChunkingIrrelevant | common/src/osc.rs:103-182 | cutting the input into feeds never changes total output, captures or final state |
| Osc.OscScanner.Feed | common/src/osc.rs:103-182 | the per-byte loop over state and buffer computes the reference run and keeps the buffer within 64 KiB |
| Osc.OscScanner.Finish | common/src/osc.rs:184-214 | a complete OSC is captured without its prefix, or forwarded whole with its own terminator; which of them, `WholeOsc` says |
| Osc.WholeOsc | common/src/osc.rs:184-214 | for every payload up to 65536 bytes and each terminator, `ESC ]`, payload, terminator forwards nothing and captures what follows the `;` exactly when the payload is `5111` or starts with `5111;`, and otherwise comes out unchanged with nothing captured |
| Osc.PayloadWithPair | common/src/osc.rs:145-160 | a payload may hold ESC with any byte but a backslash, BEL and ESC included |
| Osc.LongOsc | common/src/osc.rs:131-181 | an OSC of more than 65536 bytes is swallowed with its terminator and never captured |
| Osc.LongOscEscBel | common/src/osc.rs:161-181 | past the limit a BEL right after an ESC does not end it |
| Osc.LongOscEscEsc | common/src/osc.rs:161-181 | and of two ESCs before a backslash the second one ends it |
| Osc.PlainText | common/src/osc.rs:107-114 | bytes other than ESC pass unchanged |
| Osc.EscapePair | common/src/osc.rs:116-130 | and so does an ESC with any byte but `]` |
| Osc.RunTokens | common/src/osc.rs:103-214 | scanning any list of tokens and an unfinished tail forwards, captures and holds exactly what the token grammar says |
| Osc.ScannerFilters | common/src/osc.rs:103-214 | for every stream and every cutting, output plus held bytes is the stream with exactly the complete 5111 OSCs (those of `WholeOsc`) and the over-long OSCs deleted, captures are the deleted payloads in order, and at most 64 KiB is buffered |
| Osc.ReadingsAgree | common/src/osc.rs:103-214 | any two ways to read a stream as tokens agree on all of that |
| Osc.NothingToDelete | common/src/osc.rs:103-214 | on a stream that can be read without such OSCs the scanner is transparent however it is cut: forwarded plus held bytes are the stream, nothing is captured |
| TermDl.PrintRequests | term-dl/src/main.rs:82-103 | the loop prints exactly the requests of the acceptable arguments and counts the others, saturating at 255 |
| TermDl.Acceptable | term-dl/src/main.rs:70-128 | tokens of letters, digits, `-` and `_` are echoed, and paths without 0x07 and 0x1B printed, and no others |
| TermDl.PreparedAppend | term-dl/src/main.rs:82-103 | each argument is printed or refused by itself, in its turn |
| TermDl.PreparedOne | term-dl/src/main.rs:116-128 | printed exactly if it is a readable file whose path has neither byte |
| TermDl.EmissionBytes | term-dl/src/main.rs:87-91 | what is printed for a path, byte by byte |
| TermDl.ParseRequest | agent/src/session.rs:612-623 | the agent recovers token and path exactly when the path is UTF-8, semicolons included |
| TermDl.ParseIff | agent/src/session.rs:612-630 | the parser takes exactly `dl;`, a token without `;`, another `;` and a path, both of them UTF-8 |
| TermDl.RunEmission | term-dl/src/main.rs:84-94 | a printed request is captured once and never shown, or, if over the cap, neither |
| TermDl.RequestsArrive | agent/src/session.rs:314-345 | for any escape-free text around any requests and any chunking, the terminal sees only the text and the agent parses exactly the requests that fit, in order |
| Broadcast.RecvInv | agent/src/main.rs:785-870 | receiving, lagging included, keeps a receiver's stretches disjoint, ordered pieces of the log |
| Broadcast.RecvIs | agent/src/main.rs:785-870 | one receive yields the next event if it is among the last cap, and otherwise only jumps to the oldest of those |
| Broadcast.CatchesUp | agent/src/main.rs:785-870 | a receiver no more than cap behind gets everything that is left, in order, one receive each |
| Broadcast.ReceivedIsSubsequence | agent/src/main.rs:785-870 | whatever it missed, a receiver sees a subsequence of what was sent since it subscribed |
| FanOut.RunInv | agent/src/session.rs:316-329 | for every interleaving, the ring is the last bytes of all output and every attachment's snapshot meets its subscription exactly |
| FanOut.RunIs | agent/src/session.rs:316-329 | a run's output is what its reader forwarded, its log what was broadcast, in order, and it has one attachment per attach |
| FanOut.AttachedAt | agent/src/session.rs:387-399 | an attachment made after some steps is, for good, at the output of those steps |
| FanOut.EachStretchContiguous | agent/src/session.rs:387-399 | between lags a stream receives one contiguous stretch of the output, the first one from its attach point |
| FanOut.ReplayThenLive | agent/src/session.rs:387-399 | replay followed by the live output of a stream that never lagged is one contiguous stretch, no gap and no duplicate, starting min(cap, output so far) bytes before the attach point |
| FanOut.PiecesFlatten | agent/src/main.rs:747-763 | cutting replay and live output into frames of at most 64 KiB loses and repeats nothing |
| FanOut.ChunksFull | agent/src/main.rs:747-763 | all pieces but the last are of full size |
| Session.ByteRing.Extend | agent/src/session.rs:132-143 | the ring keeps the last cap bytes of what it held and what was added |
| Session.Session.ReadChunk | agent/src/session.rs:316-329 | the reader's lock section is the output step |
| Session.Session.AttachStream | agent/src/session.rs:387-406 | the lock section of attach is the attach step of both the fan-out and the lease, and returns that subscription and snapshot |
| Session.Session.DetachStream | agent/src/session.rs:425-441 | the lease step of the lock section, which `AttachedChanges` pins down; reports whether the stream controlled |
| Session.Session.AcquireControl | agent/src/session.rs:497-516 | the lease step; granted exactly to an attached stream when nobody controls |
| Session.Session.ReleaseControl | agent/src/session.rs:519-533 | the lease step; succeeds exactly for the holder |
| Session.Session.TakeControl | agent/src/session.rs:536-552 | the lease step; succeeds exactly for an attached stream |
| Session.Session.ResizeFor | agent/src/session.rs:479-493 | the lease step; the PTY is resized exactly for the holder |
| Session.Session.AnnounceController | agent/src/session.rs:407-414 | the broadcast after the lock is its own step of the fan-out |
| Session.Session.WriteInputFrom | agent/src/session.rs:457-462 | the gate and the enqueue are the check and enqueue steps of the lease: input reaches the PTY exactly for the holder and if there is room, dropped otherwise |
| Session.Session.WriteInternal | agent/src/session.rs:467-477 | the agent's own writes pass the gate; they fail only when the shell is gone |
| Lease.KeepsInvIff | agent/src/session.rs:387-552 | a lock section keeps the controller attached and `last_size` its geometry exactly unless it re-attaches the controller at another size |
| Lease.RunInvIff | agent/src/session.rs:387-552 | the same over whole runs |
| Lease.ReattachBreaksInv | agent/src/main.rs:610-631 | two attaches of one stream id at different sizes leave the controller with a stale `last_size` |
| Lease.FreshAttachesKeepInv | agent/src/session.rs:387-552 | in particular it is kept whenever attach ids are not already attached |
| Lease.LosesControlIff | agent/src/session.rs:425-552 | control leaves a holder exactly by its own release or detach or another attached stream's take |
| Lease.GainsControlIff | agent/src/session.rs:387-552 | control reaches a stream exactly by its own take, or its acquire or attach when nobody controls |
| Lease.AttachedChanges | agent/src/session.rs:387-552 | attach and resize record the size they name, detach removes any stream, whoever controls, and nothing else touches the attached streams |
| Lease.SizeChanges | agent/src/session.rs:387-552 | `last_size` becomes the size reported by whoever gains or retakes control, or the controller's new size, and never changes otherwise |
| Lease.AttachedIff | agent/src/session.rs:387-552 | at any point of a run a stream is attached exactly when it attached or resized after its last detach, at the size it last reported |
| Lease.DetachedIsRefused | agent/src/session.rs:498-541 | so the take or acquire of a stream that has detached changes nothing |
| Lease.LostOnlyByOuster | agent/src/session.rs:425-552 | over a run, a holder that no longer holds the lease was ousted at some step between |
| Lease.InputOnlyFromHolder | agent/src/session.rs:457-477 | over every run, everything in the PTY's queue is input of a stream that held the lease at its check, or a write of the agent's own |
| Download.StreamDownload | agent/src/session.rs:729-816 | the read loop with its counter, and the cancel its caller sends (350-361), broadcasts exactly the events of that download |
| Download.WholeDownload | agent/src/session.rs:729-816 | a download that opened broadcasts its size and name, each piece read, and one end, with status 0 exactly when the announced size was read to the end of the file and 1 otherwise, unless nobody hears it |
| Download.NoDownload | agent/src/session.rs:350-361 | one that cannot be opened or is over 4294967295 bytes broadcasts only an end of status 1 |
| Download.RunInv | agent/src/session.rs:350-361 | for every interleaving of fewer than 2^32 downloads, the broadcast events keep the discipline: one begin, nonempty chunks within the declared size, one end, OK only when the sizes match |
| Download.RunTrue | agent/src/session.rs:729-816 | an open or committed download has announced and sent exactly what its task found and read |
| Tab.BrowserTab.HandleDownloadBegin | hub/static/app.js:1091-1122 | the handler is the begin step, which `BeginMessage` pins down |
| Tab.BrowserTab.HandleDownloadChunk | hub/static/app.js:1124-1143 | the chunk step; an overrun discards |
| Tab.BrowserTab.HandleDownloadEnd | hub/static/app.js:1145-1164 | the end step; saved exactly when not cancelled and complete |
| Tab.BeginMessage | hub/static/app.js:1091-1122 | for the bytes of every begin message: nothing changes over 268435456 bytes, with 16 downloads open or under an open id; otherwise one empty buffer is added, called by exactly the name sent, without a leading EF BB BF, or "download" if that leaves nothing |
| Tab.OpenedName | hub/static/app.js:1097-1098 | the same name for the begin event that the agent broadcast |
| Tab.ChunkMessage | hub/static/app.js:1124-1143 | for the bytes of every chunk message: it is appended to its buffer and counted, or discards it on overrun; every other buffer is as before |
| Tab.EndMessage | hub/static/app.js:1145-1164 | for the bytes of every end message: the buffer is gone, and saved under its name exactly when it is complete and the status is not 1 |
| Tab.OtherMessage | hub/static/app.js:1355-1394 | no other message changes anything, misfitting lengths included |
| Tab.SameSumIsAll | hub/static/app.js:1145-1164 | some of a download's nonempty chunks that add up to the size of all are all of them |
| Tab.LaggingTabSavesWholeFiles | hub/static/app.js:1091-1164 | for every interleaving of download tasks, attaches and receives, lag and any number of reconnects included, each file a tab saves is every byte read for that download, in order, of the opened size, under the opened name as literal bytes say it is shown, and none is saved twice |
| Tab.LostChunkDiscards | hub/static/app.js:1145-1164 | a tab that was not handed every chunk of a download does not save it |
| Tab.NothingLostAllSaved | hub/static/app.js:1091-1164 | a tab that receives every event saves every committed download within its cap, if no more are in flight than it holds |
| Tab.BrowserTab.HandleMessage | hub/static/app.js:1355-1394 | a message from the hub is parsed and handed to the download handlers as the message step says, anything else leaves the downloads alone |
| Carried.TabsAreConsistent | hub/static/app.js:1091-1164 | whatever events a tab was handed, each buffer holds what its counter says, no more than declared and no more than the cap |
| Carried.OnlyCarriedIdsMix | hub/static/app.js:1105-1115 | whatever buffers a tab carries into a session, every download it saves whose id is not among them is whole |
| Carried.CarriedMixes | hub/static/app.js:1105-1115 | for every buffer carried under an id of at least 1 there is a run of a session in which the tab saves, under the carried name, the carried bytes followed by the session's |
| Carried.SafeIffNothingCarried | hub/static/app.js:1105-1115 | in every session and over every list of connections a tab saves only files that session read, exactly when it carries no buffer under an id of at least 1 |
| Carried.SessionsMix | agent/src/session.rs:347-349 | two sessions, runs of one download each, whose bytes a reconnecting tab saves as one file |
| Paste.PasteRegistry.HandlePasteBegin | agent/src/main.rs:941-1193 | the handler is the begin step: checks in order, reservation, open, roll-back |
| Paste.PasteRegistry.HandlePasteChunk | agent/src/main.rs:1195-1229 | the chunk step |
| Paste.PasteRegistry.HandlePasteEnd | agent/src/main.rs:1232-1313 | the end step, which the `PasteOutcomes` laws pin down: cancel, mismatch, a flush whose failure is ignored, staging, injection, the lone file of a vanished group |
| Paste.PasteRegistry.InjectPastePaths | agent/src/main.rs:1327-1341 | the paths are typed as one batch for the controller and deleted otherwise |
| Paste.PasteRegistry.TearDown | agent/src/main.rs:996-1010 | the two drain loops delete every pending and every staged file and no other |
| PasteSafety.EveryFileInOnePlace | agent/src/main.rs:1076-1313 | after every run, every file ever opened is at exactly one place: one upload, one position of one group, one position of one batch, or deleted |
| PasteSafety.InjectedFilesAreWhole | agent/src/main.rs:1195-1313 | what arrived for an injected file, in order and whatever was interleaved, has exactly the declared size, and the file holds all of it exactly when its flush lost nothing |
| PasteSafety.ShortFileInjected | agent/src/main.rs:1284-1307 | a run that injects a short file after a failed flush |
| PasteSafety.TeardownLeavesOnlyInjected | agent/src/main.rs:996-1010 | after teardown exactly the injected files exist |
| PasteSafety.RunBounded | agent/src/main.rs:1088-1193 | in every reachable state counts are within limits, written ≤ declared ≤ 4 GiB-1, group totals ≤ 4 GiB-1, and every group still waits for a file |
| PasteSafety.NothingSaturates | agent/src/main.rs:1111-1130 | no saturating addition ever saturates |
| PasteSafety.FailedOpenRestores | agent/src/main.rs:1179-1192 | a failed open leaves nothing but its rejection exactly when its group existed; otherwise an empty group |
| PasteSafety.InjectsIff | agent/src/main.rs:1285-1313 | files are typed exactly at the controller's OK end of a complete upload that fills its group or has none, as one batch of the group's declared number of files in completion order |
| PasteOutcomes.BeginRefused | agent/src/main.rs:941-1156 | a begin that fails a check adds only its rejection, with reason 6, 0, 4, 0 or 5, in the order of the checks |
| PasteOutcomes.BeginOverCap | agent/src/main.rs:1110-1128 | a begin that takes its group over 4294967295 bytes costs the group and its finished files, adds reason 5, and touches no upload |
| PasteOutcomes.BeginOpens | agent/src/main.rs:1130-1178 | any other begin adds an empty file pending for its group, which grows by the declared size |
| PasteOutcomes.BeginFails | agent/src/main.rs:1179-1192 | or, if the file cannot be opened, reason 1 and a group with nothing more declared than before |
| PasteOutcomes.ChunkRefused | agent/src/main.rs:1204-1227 | a chunk that overruns or cannot be written costs its upload and its file, with reason 2 or 3, and nothing else |
| PasteOutcomes.ChunkAccepted | agent/src/main.rs:1228 | any other chunk is appended to its file and counted |
| PasteOutcomes.EndCallsOff | agent/src/main.rs:1249-1283 | after a cancel or a wrong count neither the upload nor its group is left, its file and the group's finished files are gone and no others, and reason 2 is added for the wrong count alone |
| PasteOutcomes.EndCommits | agent/src/main.rs:1284-1313 | after any other end the file has joined its waiting group, or the group is gone and its files, this one last, were typed exactly for the controller |
| PasteOutcomes.EndCommitsFiles | agent/src/main.rs:1284-1341 | then only a batch that may not be typed is deleted, and only the upload's own file is changed, to what its flush left of it |
| PasteOutcomes.TeardownLeaves | agent/src/main.rs:996-1010 | teardown leaves exactly the files neither pending nor staged, unchanged |
| PasteOutcomes.FilesMove | agent/src/main.rs:941-1341 | in every reachable state each step takes each file from its place to the one place it should: a refusal or a cancel deletes its own files and no others |
| PasteSafety.AcceptedIsDecoded | common/src/frame.rs:1124-1160 | every paste frame the decoder accepts is within the bounds the registry relies on |
| PasteSafety.DecodedIsAccepted | common/src/frame.rs:1124-1175 | and every action within those bounds arrives in some accepted frame |
| PasteCap.StepCoveredIff | agent/src/main.rs:1109-1160 | declared totals go on covering their files exactly unless a begin creates a group under an id that pending uploads still carry |
| PasteCap.StepLadenIff | agent/src/main.rs:1109-1160 | no group claims more than the cap after a step exactly unless the step is a begin that overloads its group id |
| PasteCap.RunLadenIff | agent/src/main.rs:698-707 | over a run of accepted frames no paste action ever claims more than 4 GiB-1 exactly when no begin overloads its group id |
| PasteCap.BatchesWithinCap | agent/src/main.rs:698-707 | and then no batch typed into the terminal exceeds it |
| PasteCap.CapExceeded | agent/src/main.rs:1110-1128 | a run of actions within the decoder's bounds, 1 MiB chunks included, that types a 6 GiB batch |
| PasteCap.OverCapByPieces | agent/src/main.rs:1110-1128 | the same for any file of 3 GiB in any pieces |
| Prio.BoundedChannel.Send | common/src/prio.rs:57-77 | oversize and closed sends return the message, others wait or take the budget and enqueue; the two halves of it are steps of their own |
| Prio.Receiver.Recv | common/src/prio.rs:126-217 | the biased loop with its closed flags computes the polls it stands for, whatever the senders do between them |
| Prio.RecvIsRun | common/src/prio.rs:126-217 | so every call is part of a run, and the theorems about runs are about calls |
| Prio.RecvMeans | common/src/prio.rs:126-149 | undisturbed, a call returns the oldest hi message, else the oldest lo one, else the end if no sender is left, else it waits |
| Prio.ConservedAndInOrder | common/src/prio.rs:57-95 | for every interleaving of sends, polls and drops, free plus granted plus queued budget is the capacity of each half, and each half is received in enqueue order without gaps |
| Prio.NoneOnlyWhenDone | common/src/prio.rs:126-149 | `None` comes only when both halves have no sender and everything enqueued was received, and is then permanent |
| Prio.DoneLeadsToNone | common/src/prio.rs:126-149 | and then it does come |
| Prio.LoOnlyAfterHiEmpty | common/src/prio.rs:126-149 | a lo message is returned only if the poll before was of hi and found it empty |
| Routing.NeverReordered | common/src/prio.rs:57-149 | in every run whose sends obey a routing, any selection of messages routed to one half arrives in enqueue order, none skipped, and all of it once that half is drained |
| Routing.BulkTypes | agent/src/main.rs:1024-1030 | the low half carries exactly the frames of type byte 11 to 13 from the agent and 7 to 9 from the hub |
| Routing.DownloadsNeverReordered | agent/src/main.rs:1024-1030 | a download's begin, chunks and end never reorder towards the hub |
| Routing.PastesNeverReordered | hub/src/agent_link.rs:169-185 | nor a paste's towards the agent |
| Link.EnqueuedInTurn | hub/src/proxy.rs:161-164 | a sender that awaits each send before the next has enqueued the start of what it has to send, whatever others do |
| Link.ReadInTurn | common/src/prio.rs:57-149 | of such a sender the far end gets, on each half, the start of what was sent there, in order, and all of it once drained |
| Link.HalvesOvertake | common/src/prio.rs:126-149 | across the halves the order is not kept |
| Link.AgentReadsForwarded | hub/src/agent_link.rs:169-185 | whatever a browser sends and whatever else the link carries, the agent decodes everything without error, and of this stream, on each half, the start of what the proxy forwarded before it ended and the close after it, in order; all once drained |
| Link.HubReadsReplay | agent/src/main.rs:747-803 | on a link shared with any other frames, the output bytes the hub reads for a stream that never lagged are one contiguous stretch of the forwarded output from min(cap, output so far) bytes before the attach point; all the stream received, once drained |
| Demux.Reader.Dispatch | agent/src/main.rs:610-667 | one frame is one step: open, offer to its queue, drop the stream, or ignore |
| Demux.Reader.ReadLoop | hub/src/agent_link.rs:453-503 | the loop handles frames until a fatal control frame and then clears the registry |
| Demux.GapFreePrefix | agent/src/main.rs:610-667 | with one open per id, each queue accepts a gap-free prefix of the frames addressed to it, all of them while registered, within its capacity, and its task receives a prefix of that |
| Demux.NoInterference | hub/src/agent_link.rs:474-503 | a stream's whole state after any run is that of the run with all other streams' actions removed, overflow included |
| Demux.DroppedIff | hub/src/agent_link.rs:474-503 | a registered stream leaves the registry exactly by its owner, the link's end, or a frame that finds no receiver or a full queue |
| Demux.QueueStep | agent/src/main.rs:610-667 | all that a step does to a queue: a frame that finds its receiver and room (16 on the agent's low queue, 64 elsewhere) goes last, one that is taken was first, and a receiver that leaves takes the rest along |
| Demux.HandledFirst | agent/src/main.rs:567-609 | of the control stream a reader survives types 4 and 5, and 18 and 20 on the agent or 19 and 21 on the hub, and ends at any other |
| Demux.LoopIsRun | agent/src/main.rs:567-680 | what a reader loop leaves behind is the end of a run, so every queue has accepted a gap-free prefix after it too |
| Delivery.QueueIsStretch | agent/src/main.rs:633-667 | what a stream's task takes from one of its queues is a gap-free stretch of the frames for that queue that the link's reader read |
| Delivery.SessionTakesForwarded | agent/src/main.rs:610-667 | browser to session: what the stream's task takes from each queue is a gap-free stretch, in order, of the accepted bodies for that queue and the close, whatever else the link carries |
| Delivery.MessageDelivers | hub/src/proxy.rs:175-184 | the message the proxy makes of a download frame is handled by the tab as the event the agent broadcast |
| Delivery.TabIsHanded | agent/src/main.rs:785-905 | disk to tab: through the agent's link, the hub's queue and the proxy a tab is handed a gap-free stretch of the download events its stream's task received |
| Delivery.TabSavesWhatWasRead | hub/static/app.js:1091-1164 | so every file a fresh tab saves is exactly what was read from disk for that download |
| Calendar.FmtUtcCorrect | hub-admin/src/main.rs:497-526 | for every i64 the fields are a valid proleptic Gregorian date and time and convert back to the same count |
| Calendar.CivilIsDate | hub-admin/src/main.rs:505-515 | every day number within reach gives a valid date with that day number |
| Calendar.DateRoundTrip | hub-admin/src/main.rs:505-515 | and every date comes from its day number |
| Calendar.ConsecutiveDays | hub-admin/src/main.rs:505-515 | consecutive days are consecutive dates, with day 0 at 1970-01-01 |

## Left out

- Calendar.CivilIsDate: stated for days within 2^50 of the epoch, wider than any 64-bit count of seconds reaches, so that every binding stays within 64 bits as in the program.
- Download.RunInv: fewer than 2^32 downloads per session, because ids then wrap around.
- Demux.GapFreePrefix: one open per stream id; a second open replaces the queue.
- Formatting of `fmt_utc`'s fields as text.
- The order of `ControllerChanged` broadcasts and `pty.resize` relative to the lock sections: both happen after the lock is released.
- `gc_pass`, session lookup and spawning, idle time, eviction, shutdown notification and every question of liveness, fairness or real time.
- Cancelling a paste handler half way through, and failures of deleting a file or of typing the paths into a dead shell, which the program ignores.
- All-or-nothing paste groups: the program does not provide them.
- A sender waiting for budget: it changes nothing until it is granted, so waiting is the absence of a step. The order in which waiters are granted is left open.
- TLS, certificates, ECDSA, HMAC, base64 and JSON; HTTP routes, login, tokens, metrics, configuration; the agent registry, remote procedure calls and reconnecting.
- The Windows `DsrScanner`: the technique of the OSC scanner on a smaller automaton.
- The rest of the browser code: drawing, clipboard, progress display, and what its text decoder makes of invalid UTF-8 (names that reach it are valid).
- Quoting and bracketing of typed paths.
