# Verified model of gnetcli's byte-level state machines

gnetcli drives network devices over SSH, telnet and console servers. This project models the parts of it
whose correctness depends on unbounded input, on how the network cuts bytes into pieces, or on how several
parties interleave, and proves what those parts are for. It is written for Dafny 4.11;
`dafny verify dfyconfig.toml` checks all of it.

What is modelled, and where:

- **Terminal output** (`Terminal`, `TerminalLaws`, `TerminalEdits`). The escape-sequence evaluator edits its buffer in
  place, moves its cursor back and reads again. It computes what a one-pass line editor computes, on every input,
  errors and the panic included; what each control does to a line is told byte by byte.
- **Console-server data** (`Codec`, `CodecLaws`, `CodecPeer`). The acknowledgement filter and the 0xff decoder give the
  same bytes however the stream was cut into deliveries, and the server reads what was encoded.
- **Shared listener** (`Mux`, `Sniff`). Serve, the classifiers, Close and the sub-listeners as atomic steps;
  who may close a connection, and when everything is over.
- **TLS records** (`Padding`, `HalfConn`, `Authenticated`, `Record`, `Outgoing`, `Incoming`, `IncomingLaws`). CBC
  padding, MACs, nonces and sequence numbers, and what they protect; cutting data into records; putting records and
  handshake messages together again from any segments.
- **TLS handshake** (`Handshake`, `HandshakeLaws`, `HandshakeRuns`, `HandshakeTerms`, `HandshakeParts`, `HandshakeAlone`,
  `HandshakeWire`, `HandshakeBytes`). Client and server of the vendored TLS stack in every joint run, full and resumed,
  refusals included: when a run completes and with which messages, secret and keys, told by the two configurations
  alone. Then each side by itself against a peer that sends anything; and every joint run over the bytes that the
  record layers of both sides write and read.
- **TLS messages, tickets, key agreement, session cache** (`Encoding`, `ClientHello`, `ClientHelloMsg`, `ServerHello`,
  `ServerHelloMsg`, `HelloBytes`, `HelloReads`, `Ticket`, `KeyAgreement`, `WireForms`, `SessionCache`). Round trips, the
  bytes that are written and exactly the bytes that are accepted.
- **Reading from devices** (`Streamer`, `StreamerLaws`, `Netconf`). GenericReadX on every order of events, and the
  chunked framing of RFC 6242 section 4.2 on top of it.
- **Running commands** (`Execute`, `ExecuteLaws`, `ExecuteAnswers`). The loop of GenericExecute, over a pattern list that
  shrinks while it runs: it does what cutting the device's stream into parts and answering them in order would do.
- **Port discovery** (`Discovery`, `Marker`). The payload that tells a port what it is connected to, and the pairing
  report with its counts.

Code that works by changing things is modelled by classes and loops, each proved against a function that says what
it computes; the laws are then proved about those functions. The listener and the handshake are state machines
over whole runs. Cryptographic primitives, regular expressions, clocks and the network are parameters.

Where the code turned out not to do what it is meant to do, the exact condition is proved:

- An ESC followed by anything but `[` or `>` swallows the next byte. It can hide a line feed: all line feeds are kept
  exactly when no cursor move reaches one so hidden (`LineFeedsKeptExactly`, `StrayLineFeedLost`). It can make an output
  that changes when evaluated again (`StrayNotIdempotent`); without such an ESC that never happens (`Idempotent`), which
  is sufficient only: an output evaluates to itself exactly when all of its tokens are kept (`FixedPoints`).
  A backspace panics exactly when the text is empty (`CrashesExactly`).
- `extractPadding` never looks at the first padding byte when the padding reaches the end of the window it inspects
  (`AcceptsExactly`, `AcceptsImproper`).
- A connection may reach a protocol server after Close's sweep has closed it (`HandedAfterSweep`), exactly when the
  sweep began before its classifier took it out of the pending set (`HandedClosedExactly`).
- With a stapled OCSP response no full handshake completes: the client reads the status from the wrong message
  (`StapledNeverDone`).
- A ClientHello that offers the renegotiation signalling suite comes back with the extension's flag set, and one with
  255 bytes of renegotiation data does not come back (`ClientHello.RoundTrip`). A next protocol longer than 255 bytes
  leaves the end of a ServerHello unwritten (`CursorExact`).
- When a prompt comes before the echo, GenericExecute puts back the bytes before the prompt but not the prompt
  (`PutBackDropsPrompt`, `PromptLost`). It does so exactly when a prompt is found before the echo with at least two bytes
  in front of it and no echo among them (`PutBackExactly`), and these prompts are all that is ever lost: a run loses no
  byte exactly when it drops none, or only empty ones (`NothingLostExactly`).
- The result of a command can depend on how the network cut the device's stream: a pager's text right in front of a
  prompt is output when both come in one piece and a page break when they do not (`CutsMatter`). A read does not depend
  on the cuts exactly when every beginning of the stream that is matched is matched as the whole is (`SettledExactly`).
- unmarshal does not clear all fields: a used ClientHello can keep its curves, points and renegotiation data, a used
  ServerHello its renegotiation data, and nothing else (`IntoUsed`).
- An empty NETCONF message reads back as the size line it was sent with (`WriteRead`).
- A port name or run with a `|` in it does not come back from a discovery payload (`Marker.RoundTrip`). Port names with
  `=` in them can make two pairs count as one (`SummaryAddsUp`, `NamesCollide`), and the order of port names can go round
  in a circle (`Circle`).

## Model

| member | source | states |
|---|---|---|
| Terminal.Parser.Run | pkg/terminal/parser.go:71-200 | the in-place, rewinding loop ends, and with the result of the one-pass line editor: text, error or panic, on every input |
| Terminal.Parse | pkg/terminal/parser.go:39-46 | evaluating a copy of the data gives what the line editor gives |
| Terminal.ParseDropLastReturn | pkg/terminal/parser.go:49-57 | the same, with the last line dropped when it ends in CR |
| Terminal.Parser.Turn | pkg/terminal/parser.go:73-197 | one turn of the loop is one step of the editor and leaves what will come out unchanged |
| Terminal.Parser.Consume | pkg/terminal/parser.go:59-65 | the cursor moves to the next byte, or reports that there is none |
| Terminal.Parser.Unconsume | pkg/terminal/parser.go:67-69 | the cursor moves back by one |
| Terminal.Parser.ControlBytes | pkg/terminal/parser.go:96-134 | parameter, intermediate and final bytes are found where the grammar puts them |
| Terminal.Parser.ControlSequence | pkg/terminal/parser.go:136-173 | what each control sequence removes from the buffer and where the cursor stands then |
| Terminal.Parser.ClearToLineStart | pkg/terminal/parser.go:174-185 | a CR not followed by CR or LF clears the line and goes back to the line feed before it |
| Terminal.Parser.EraseBack | pkg/terminal/parser.go:186-193 | a backspace removes itself and the byte before it, itself only after a line feed, and panics at the start |
| Terminal.Parser.CutBack | pkg/terminal/parser.go:29-31 | the bytes between a point and the cursor are cut out |
| Terminal.Progress | pkg/terminal/parser.go:73-197 | a turn that does not carry the cursor forward makes the buffer shorter, so the loop ends |
| Terminal.ReadAgain | pkg/terminal/parser.go:178-185 | reading the line feed of a cleared line once more changes nothing |
| TerminalLaws.LineFeedsKept | pkg/terminal/parser.go:71-200 | the output has the line feeds of the input but for those that cursor moves cut off |
| TerminalLaws.OnlyStraysLost | pkg/terminal/parser.go:71-200 | only line feeds behind a stray ESC can be cut off |
| TerminalLaws.LineFeedsKeptExactly | pkg/terminal/parser.go:71-200 | all line feeds are kept exactly when no cursor move reaches one behind a stray ESC |
| TerminalLaws.StrayLineFeedLost | pkg/terminal/parser.go:92-94 | an input on which a stray ESC loses a line feed |
| TerminalLaws.OutputSettled | pkg/terminal/parser.go:71-200 | without a stray ESC the output holds no ESC, no BS, and CR only before CR or LF |
| TerminalLaws.FixedPoints | pkg/terminal/parser.go:71-200 | evaluation leaves a text as it is exactly when all of its tokens are kept |
| TerminalLaws.NeverLonger | pkg/terminal/parser.go:71-200 | the output is never longer than the input, and as long only when it is the input |
| TerminalLaws.Idempotent | pkg/terminal/parser.go:39-46 | evaluating the output of a text without a stray ESC again changes nothing |
| TerminalLaws.StrayNotIdempotent | pkg/terminal/parser.go:92-94 | an input with a stray ESC whose output does not evaluate to itself |
| TerminalLaws.LastReturnIsStray | pkg/terminal/parser.go:51-55 | the last-return rule only ever meets a CR behind a stray ESC |
| TerminalLaws.CrashesExactly | pkg/terminal/parser.go:187-192 | the panic happens exactly when a backspace comes while the text is empty |
| TerminalEdits.NumberRead | pkg/terminal/parser.go:137-141 | the number read is the decimal number printed, up to 63 bits, and none beyond |
| TerminalEdits.CursorMove | pkg/terminal/parser.go:137-149 | behind finished lines, CSI n D takes the last n bytes of the line, or all if there are fewer, one for n = 0, and nothing else |
| TerminalEdits.CursorMoveRefused | pkg/terminal/parser.go:137-141 | without a number, or with one that does not fit, it is an error |
| TerminalEdits.Disappears | pkg/terminal/parser.go:150-169 | erasures, colours, cursor positions and two key settings disappear and leave the text around them |
| TerminalEdits.OthersRefused | pkg/terminal/parser.go:130-173 | every other sequence is an error |
| TerminalEdits.CutShort | pkg/terminal/parser.go:77-134 | a sequence that the text breaks off is an error |
| TerminalEdits.OtherEscapes | pkg/terminal/parser.go:80-94 | ESC > disappears, ESC with any other byte but [ stays with that byte |
| TerminalEdits.ReturnClears | pkg/terminal/parser.go:174-185 | a CR clears the line and none before it |
| TerminalEdits.ReturnStays | pkg/terminal/parser.go:174-177 | a CR in front of a line feed stays |
| TerminalEdits.BackspaceErases | pkg/terminal/parser.go:186-193 | a BS takes the last byte of the line, none of the lines before it, and panics on an empty text |
| Codec.EncodeConserverData | cmd/gconsolecheck/codec.go:43-56 | attentions become their quoting command and 0xff is doubled, byte by byte |
| Codec.QuotePrefixSuffixLen | cmd/gconsolecheck/codec.go:192-200 | the length of the longest suffix that is an unfinished acknowledgement |
| Codec.DataSession.FilterQuoteResponses | cmd/gconsolecheck/codec.go:169-190 | the filter takes out as many acknowledgements as are outstanding and holds back an unfinished one |
| Codec.DataSession.DecodeCommands | cmd/gconsolecheck/codec.go:62-80 | the decoder undoubles 0xff, carries a pending one over, and fails on any other command |
| Codec.DataSession.DecodeIncoming | cmd/gconsolecheck/codec.go:165-167 | filter, then decoder |
| Codec.DataSession.WriteData | cmd/gconsolecheck/codec.go:82-90 | every attention sent adds an expected acknowledgement; what was received so far keeps its meaning |
| Codec.DataSession.ReadData | cmd/gconsolecheck/codec.go:92-125 | after a successful read, everything returned so far and what is kept equal the batch decoding of everything received |
| Codec.DataSession.ReadAvailable | cmd/gconsolecheck/codec.go:141-163 | a quiet window returns all that is decoded, and fails on missing acknowledgements or half a command |
| CodecLaws.FindSound | cmd/gconsolecheck/codec.go:176-178 | the search finds the leftmost acknowledgement, or there is none |
| CodecLaws.KeepSound | cmd/gconsolecheck/codec.go:192-200 | what is held back is exactly the longest unfinished acknowledgement |
| CodecLaws.ScanRemoves | cmd/gconsolecheck/codec.go:169-190 | the output and what is held are the stream without its first outstanding acknowledgements, leftmost first |
| CodecLaws.ScanTwice | cmd/gconsolecheck/codec.go:169-190 | filtering two deliveries one after the other is filtering them joined |
| CodecLaws.DecodeTwice | cmd/gconsolecheck/codec.go:62-80 | so is decoding |
| CodecLaws.IncomingTwice | cmd/gconsolecheck/codec.go:165-167 | and both together, errors included |
| CodecLaws.CutsDoNotMatter | cmd/gconsolecheck/codec.go:165-200 | two histories of writes and deliveries that differ only in the cuts end in the same state |
| CodecLaws.SegmentsAreOne | cmd/gconsolecheck/codec.go:165-200 | segments received in a row are one delivery |
| CodecLaws.Batch | cmd/gconsolecheck/codec.go:92-200 | any pieces of a stream lead where the whole stream leads |
| CodecLaws.DecodeEncoded | cmd/gconsolecheck/codec.go:43-80 | what a peer that ignores attentions reads of encoded data |
| CodecLaws.RoundTrip | cmd/gconsolecheck/codec.go:43-80 | decoding undoes encoding exactly on data without attentions |
| CodecLaws.AcksRemoved | cmd/gconsolecheck/codec.go:169-190 | acknowledgements between pieces of payload are removed and the payload stays |
| CodecPeer.EncodedReaches | cmd/gconsolecheck/codec.go:43-56 | a console server that reads its own quoting commands, octal digits and doubled 0xff gets back any data, attentions included |
| CodecPeer.AnswerTaken | cmd/gconsolecheck/codec.go:15-37 | its printed answer to a quoted byte is the text the filter takes out |
| Mux.HandedOnceAndKept | internal/listenermux/listenermux.go:86-109 | in every run a connection is handed to at most one server, once, and never closed by the mux afterwards |
| Mux.HandedAsJudged | internal/listenermux/listenermux.go:98-108 | it goes to the server its first bytes asked for |
| Mux.HandedClosedExactly | internal/listenermux/listenermux.go:73-109 | it was closed before exactly if the sweep began before its classifier took it out of the pending set |
| Mux.SweptPendingClosed | internal/listenermux/listenermux.go:73-84 | after the sweep every connection still pending has been closed |
| Mux.NothingLeft | internal/listenermux/listenermux.go:46-71 | when Serve returns nothing is pending and every accepted connection was handed over or closed |
| Mux.HandedAfterSweep | internal/listenermux/listenermux.go:86-109 | a run in which a connection closed by the sweep is handed over |
| Mux.StepUsed | internal/listenermux/listenermux.go:46-109 | once a shutdown has begun every step of Serve, Close and the classifiers uses up a bounded budget |
| Mux.ShutdownBounded | internal/listenermux/listenermux.go:46-109 | no run takes more such steps than that, and six for each connection accepted before the listener is closed |
| Mux.NeverStuck | internal/listenermux/listenermux.go:46-109 | in a shutdown, until Serve has returned, Serve, Close or a classifier can move |
| Mux.ReachableInv | internal/listenermux/listenermux.go:46-182 | the ownership invariant holds after every run |
| Mux.AcceptFailsExactly | internal/listenermux/listenermux.go:171-181 | in every run, a waiting Accept call can fail exactly when the mux or its own sub-listener has been closed |
| Mux.AcceptsReturn | internal/listenermux/listenermux.go:171-181 | after that all waiting Accept calls can return, whatever else happens |
| Sniff.SniffProtocol | internal/listenermux/listenermux.go:111-162 | the verdict is that of the first bytes, and the server reads the stream from its beginning |
| Sniff.VerdictStands | internal/listenermux/listenermux.go:111-162 | a verdict is not changed by what follows, and where there is none yet the stream can still turn out to be gRPC, unless it is TLS of another major version |
| Padding.ExtractPadding | internal/tls_hack/conn.go:207-240 | the constant-time check is the plain one over the bytes it inspects, on payloads of up to 2 GiB with the plain comparison of lengths |
| Padding.AcceptsExactly | internal/tls_hack/conn.go:207-240 | the check is the plain comparison over the bytes it inspects: it accepts proper padding, and beyond that exactly padding whose first byte it does not look at |
| Padding.AcceptsImproper | internal/tls_hack/conn.go:217-221 | sixteen bytes that it accepts and RFC 5246 section 6.2.3.2 does not |
| Padding.PadToBlockSize | internal/tls_hack/conn.go:375-385 | full blocks and a final block that together are the payload and its padding |
| Padding.PaddedAccepted | internal/tls_hack/conn.go:207-240 | what the padder makes, the check accepts and strips back to the payload |
| Padding.PaddingSays | internal/tls_hack/conn.go:375-385 | behind the payload every byte is one less than the number of padding bytes |
| HalfConn.IncrementExact | internal/tls_hack/conn.go:190-202 | incSeq adds one to the 64-bit number and refuses exactly when all bits are set |
| HalfConn.CbcAppend | internal/tls_hack/conn.go:422-431 | encrypting full blocks and final block in two calls is encrypting them in one |
| HalfConn.CbcInverse | internal/tls_hack/conn.go:312-330 | CBC decryption undoes encryption and chains on the same block afterwards |
| HalfConn.SealOpens | internal/tls_hack/conn.go:271-368 | matched sides: decrypt accepts what encrypt made, gives the payload back, and both are in the same state, one number on |
| Authenticated.SealedIs | internal/tls_hack/conn.go:388-444 | a sealed record is header, length and body; the body is payload and MAC of number, header, length and payload, XORed with the keystream, or padded and chained, or sealed by the AEAD under its nonce with number, header and length as additional data |
| Authenticated.NextRecordFrom | internal/tls_hack/conn.go:388-444 | the next record goes on from the next number, the keystream behind this one, the last block of this one |
| Authenticated.CbcChains | internal/tls_hack/conn.go:419-432 | each block is encrypted with the block before it folded in |
| Authenticated.MacDecides | internal/tls_hack/conn.go:343-365 | with a MAC, a record opens at another number or under another header exactly if the MAC of those is the same |
| Authenticated.AeadDecides | internal/tls_hack/conn.go:289-311 | with an AEAD, exactly if the AEAD opens it with their nonce and additional data |
| Authenticated.NoncesDiffer | internal/tls_hack/cipher_suites.go:213-260 | different sequence numbers give different nonces, explicit or implicit |
| HalfConn.RoundUpLeast | internal/tls_hack/conn.go:258-260 | roundUp is at most any multiple that is large enough |
| Record.Switched | internal/tls_hack/conn.go:175-187 | changeCipherSpec takes the prepared keys and counts from zero |
| Record.Direction.PrepareCipherSpec | internal/tls_hack/conn.go:167-171 | the version changes at once, the keys wait |
| Record.Direction.ChangeCipherSpec | internal/tls_hack/conn.go:175-187 | new keys and a zero number, or an error and no change |
| Record.Direction.IncSeq | internal/tls_hack/conn.go:190-202 | the number in the array is incremented in place |
| Record.Direction.Encrypt | internal/tls_hack/conn.go:388-444 | the record in the block becomes the sealed record, and the state that of the next |
| Record.Direction.AppendMac | internal/tls_hack/conn.go:390-397 | the MAC of number, header and payload is appended |
| Record.Direction.EncryptBody | internal/tls_hack/conn.go:402-435 | the cipher step for stream, AEAD and block ciphers |
| Record.Direction.Decrypt | internal/tls_hack/conn.go:271-368 | accepts exactly what opens, and leaves payload and state as opening does |
| Record.Direction.DecryptBody | internal/tls_hack/conn.go:285-342 | the cipher step, its length checks and the padding it finds |
| Record.Direction.DecryptAead | internal/tls_hack/conn.go:289-311 | the AEAD step with explicit or implicit nonce |
| Record.Direction.DecryptCbc | internal/tls_hack/conn.go:312-338 | the CBC step with its length checks and padding check |
| Outgoing.SegmentRoomExact | internal/tls_hack/conn.go:843-861 | the payload size reckoned for one TCP segment is the largest whose record fits, for every cipher kind |
| Outgoing.MaxPayload | internal/tls_hack/conn.go:828-875 | 1 to 16384 bytes, one segment's worth for the first record, and what is counted |
| Outgoing.SizesGrow | internal/tls_hack/conn.go:828-875 | the exact size of every record: n times what fits one segment of 1208 bytes for the n-th, 16384 after a thousand records, 128 KiB, or where that is exceeded |
| Outgoing.FirstFits | internal/tls_hack/conn.go:828-875 | the first dynamically sized record is at most 1208 bytes on the wire |
| Outgoing.SealKeepsValid | internal/tls_hack/conn.go:388-444 | the length of a record and its header, whatever the cipher |
| Outgoing.WritesPieces | internal/tls_hack/conn.go:904-975 | what is written is sealed records of 1 to 16384 bytes each that make up the data in order |
| Outgoing.Conn.MaxPayloadSizeForWrite | internal/tls_hack/conn.go:828-875 | the method computes that size and counts the packet |
| Outgoing.Conn.Write | internal/tls_hack/conn.go:878-887 | bytes go to the buffer or the network, and are counted when they leave |
| Outgoing.Conn.Flush | internal/tls_hack/conn.go:889-899 | flushing keeps the bytes and their order |
| Outgoing.Conn.FillExplicitIV | internal/tls_hack/conn.go:949-958 | random bytes for CBC, the sequence number for AEAD |
| Outgoing.Conn.WriteOne | internal/tls_hack/conn.go:909-966 | one turn of the loop writes one sealed piece |
| Outgoing.Conn.WriteRecordLocked | internal/tls_hack/conn.go:904-975 | one call writes all pieces, and switches keys after a ChangeCipherSpec |
| Incoming.Reader.ReadFromUntil | internal/tls_hack/conn.go:480-501 | enough bytes are gathered from any segments exactly when the stream has them, and none is lost |
| Incoming.Reader.SplitBlock | internal/tls_hack/conn.go:533-542 | a block of the first bytes; the rest stays |
| Incoming.Reader.ReadOne | internal/tls_hack/conn.go:593-686 | header checks, body and decryption of one record depend on the stream only |
| Incoming.Reader.Process | internal/tls_hack/conn.go:673-765 | what becomes of an opened record of each type |
| Incoming.Reader.ReadRecord | internal/tls_hack/conn.go:564-766 | warnings are skipped and the first other record is taken or refused, as the stream says |
| IncomingLaws.RefusedByHeader | internal/tls_hack/conn.go:564-672 | what is refused or waited for by the header alone: type, version, length and stage of the connection |
| IncomingLaws.SealedTaken | internal/tls_hack/conn.go:673-765 | what becomes of any sealed record, by its type and bytes: a warning alert is skipped, close_notify, a fatal alert or one of another length ends the connection, ChangeCipherSpec switches keys if asked for and prepared, data and handshake messages are taken where they are wanted |
| Incoming.Reader.ReadHandshake | internal/tls_hack/conn.go:990-1065 | the next message of the handshake data, under any record and TCP segmentation, with no record read that it does not need |
| Incoming.TakesFirst | internal/tls_hack/conn.go:990-1017 | reading records until a message is there takes the first message of all the handshake data to come, and loses none of the rest |
| Incoming.TakesSealed | internal/tls_hack/conn.go:990-1017 | a message cut into records is taken from exactly these records, which leaves reader and writer in one state |
| Incoming.ChangeOfSealed | internal/tls_hack/conn.go:727-741 | a sealed ChangeCipherSpec record switches the reader to the keys it has prepared |
| Incoming.FirstOfSealed | internal/tls_hack/conn.go:593-686 | the first sealed record of a stream is the one that is read |
| Incoming.ReadsWhatWasSealed | internal/tls_hack/conn.go:564-766 | any pieces sealed in a row are read back joined, and both ends go on in the same state |
| Incoming.ReadsWhatWasWritten | internal/tls_hack/conn.go:564-975 | what one side writes, handshake or application data, the other reads |
| Incoming.MessagesBack | internal/tls_hack/conn.go:1000-1017 | messages in a row are read one by one |
| Incoming.MessagesSurvive | internal/tls_hack/conn.go:990-1065 | they come out the same however they were shared out over records |
| Handshake.KeysPartition | internal/tls_hack/prf.go:161-181 | the six keys have the lengths asked for and make up the key block |
| HandshakeLaws.FirstFlightWrites | internal/tls_hack/handshake_server.go:407-519 | the server's first flight: its messages in order, hashed and sealed in a row |
| HandshakeLaws.SecondFlightWrites | internal/tls_hack/handshake_client.go:483-592 | the client's flight up to Finished, signatures over what was hashed before, keys switched in between |
| HandshakeLaws.ClientFinishWrites | internal/tls_hack/handshake_client.go:796-829 | ChangeCipherSpec, the next protocol if negotiated, Finished |
| HandshakeLaws.ServerFinishWrites | internal/tls_hack/handshake_server.go:776-829 | the ticket if promised, ChangeCipherSpec, Finished |
| HandshakeLaws.LinkedJoin | internal/tls_hack/conn.go:165-202 | two stretches of records in which each ends where the next begins join into one |
| HandshakeRuns.InvStep | internal/tls_hack/handshake_client.go:33-280 | every step of either side, a refusal included, keeps the phase of the run and the link between each queue and both its ends |
| HandshakeRuns.Always | internal/tls_hack/handshake_server.go:41-111 | the invariant holds after every joint run |
| HandshakeRuns.AnswerStep | internal/tls_hack/handshake_server.go:115-405 | the server refuses, resumes or starts a full handshake, as the offer, the kept certificates and its configuration say; its hello has left when it refuses kept certificates |
| HandshakeRuns.FlightStep | internal/tls_hack/handshake_client.go:282-481 | the client reads the first flight message by message, whatever its options, and answers it, or stops and had something to refuse |
| HandshakeRuns.FlightEnds | internal/tls_hack/handshake_client.go:479-508 | a client that cannot answer the key exchange stops, after its certificate if that was asked for |
| HandshakeRuns.PartingStep | internal/tls_hack/conn.go:1376-1383 | the last message of a side that gave up is read, and then nothing moves |
| HandshakeRuns.ReplyStep | internal/tls_hack/handshake_server.go:521-687 | the server reads certificate, key exchange and verification, and goes on exactly if it accepts all of them |
| HandshakeRuns.ServerTailStep | internal/tls_hack/handshake_server.go:714-774 | it reads ChangeCipherSpec, next protocol and Finished, and accepts the client's sum |
| HandshakeRuns.ClientTailStep | internal/tls_hack/handshake_client.go:720-794 | the client reads ticket, ChangeCipherSpec and Finished, and accepts the server's sum |
| HandshakeRuns.ResumingStep | internal/tls_hack/handshake_client.go:616-718 | a client that has the session takes the abbreviated path with the secret it kept |
| HandshakeRuns.ClientAsked | internal/tls_hack/handshake_client.go:720-794 | in every state of a run the client waits for a message where a message comes next, and for ChangeCipherSpec, with these keys prepared, where that does |
| HandshakeRuns.ServerAsked | internal/tls_hack/handshake_server.go:714-774 | so does the server, and the offer is the first message it reads and no other |
| HandshakeRuns.ReadAsSealed | internal/tls_hack/conn.go:165-202 | in every joint run, whoever refuses whom, the next packet was sealed under the keys and from the number its reader is at |
| HandshakeRuns.DoneMeansAgreed | internal/tls_hack/handshake_client.go:33-280 | when both sides are done, transcripts and secrets are equal, each side's write keys are the other's read keys, and the condition for success held |
| HandshakeRuns.NotStuck | internal/tls_hack/handshake_server.go:41-111 | where both sides accept each other no side fails, and until both are done one of them can move |
| HandshakeRuns.Completes | internal/tls_hack/handshake_server.go:84-107 | a run that can go no further has completed on both sides in agreement exactly where both sides accept each other; `HandshakeTerms.CompletesExactly` tells from the configurations when that is |
| HandshakeTerms.HellosAre | internal/tls_hack/handshake_client.go:55-120 | what client and server say of themselves: all configured suites, ticket and session number, next protocol exactly if both know it and the client names no ALPN, a ticket exactly if both want one, resumption exactly for a ticket that opens to a usable session |
| HandshakeTerms.DoneTerms | internal/tls_hack/handshake_server.go:41-111 | when both sides are done both have exactly these messages in this order, this secret and these keys, resumed exactly if the configurations say so |
| HandshakeTerms.KeysAre | internal/tls_hack/prf.go:161-181 | the keys are these stretches of the block that the secret expands to, the server random first |
| HandshakeTerms.CompletesExactly | internal/tls_hack/handshake_client.go:33-280 | a run that can go no further has completed exactly if a suite is found among all the client offers and either a session is resumed whose certificates are trusted, or suite, chain, key exchange, certificate and signature pass and there is no stapled status |
| HandshakeRuns.Ends | internal/tls_hack/handshake_client.go:33-280 | no run takes more than nineteen steps, whatever the parameters |
| HandshakeRuns.StapledTake | internal/tls_hack/handshake_client.go:389-421 | with a stapled status announced no message gets the client past the first flight |
| HandshakeRuns.StapledNeverDone | internal/tls_hack/handshake_client.go:389-421 | so no full handshake with a stapled response completes on either side |
| HandshakeParts.DheAgrees | internal/tls_hack/key_agreement.go:696-837 | with whatever parameters and secrets, client and server go on exactly with a valid group and public keys within bounds, and then have one secret |
| HandshakeParts.TicketsAgree | internal/tls_hack/handshake_server.go:327-372 | a kept ticket opens to the kept session as long as the server has its key, with the refresh flag set exactly for an older one; no ticket opens to nothing |
| HandshakeParts.PartsComplete | internal/tls_hack/handshake_server.go:84-107 | with that key agreement, and with or without such a session, a joint run that can go no further has completed in agreement exactly where the two configurations accept each other |
| HandshakeParts.AnonymousCompletes | pkg/streamer/console/console.go:272-302 | between a client without a session and a server without certificates it completes exactly if the server finds a suite among all the client is configured with, the group is long enough and valid, and both public keys are within bounds |
| HandshakeAlone.ClientDoneVouches | internal/tls_hack/handshake_client.go:33-280 | whatever a client is sent, when it is done it has compared the server's sum over all messages, the suite was offered, the chain was trusted unless the suite has none, and secret and keys come from the key exchange it heard or the session it kept |
| HandshakeAlone.ServerDoneVouches | internal/tls_hack/handshake_server.go:41-111 | whatever a server is sent, when it is done it has compared the client's sum, and the client has shown and signed for certificates as the configuration asks, or come with a ticket that opens to such a session |
| HandshakeWire.WritesCut | internal/tls_hack/conn.go:904-975 | data that is not application data is written in records of full size, whatever has been sent before |
| HandshakeWire.PacketPast | internal/tls_hack/conn.go:167-202 | keys and numbers of the joint runs are those of the record layer behind every packet |
| HandshakeWire.QueueArrives | internal/tls_hack/conn.go:564-1065 | out of the bytes written for a linked queue a reader that is ready for each packet takes exactly its messages and key changes, and ends in the writer's state |
| HandshakeWire.QueueRoom | internal/tls_hack/conn.go:190-202 | handshake packets use up five sequence numbers each at the most, so none wraps |
| HandshakeBytes.ClientQueues | internal/tls_hack/conn.go:165-202 | a step of the client takes the first packet of its queue and writes at most six |
| HandshakeBytes.ServerQueues | internal/tls_hack/conn.go:165-202 | so does a step of the server |
| HandshakeBytes.ClientSimulated | internal/tls_hack/conn.go:564-1065 | whatever the client does in a run, its record layer does over bytes, with the keys it has prepared by then |
| HandshakeBytes.ServerSimulated | internal/tls_hack/conn.go:564-1065 | so does the server's |
| HandshakeBytes.RunsArrive | internal/tls_hack/conn.go:564-1065 | every joint run is a run over bytes: each read finds its packet in what the other side has written, across changes of keys, and no number wraps |
| Encoding.Cursor.Put | internal/tls_hack/handshake_messages.go:116-135 | bytes are written in range at the cursor, which moves behind them |
| Encoding.Cursor.Patch | internal/tls_hack/handshake_messages.go:268-284 | earlier bytes are overwritten in place |
| Encoding.StringsBack | internal/tls_hack/handshake_messages.go:479-488 | strings with length bytes are read back |
| Encoding.BlobsBack | internal/tls_hack/handshake_messages.go:812-824 | byte strings with length words are read back |
| ClientHello.RoundTrip | internal/tls_hack/handshake_messages.go:58-499 | unmarshal(marshal(m)) is m exactly for the messages that fit their length fields and whose flags and suites agree |
| ClientHello.FillsAll | internal/tls_hack/handshake_messages.go:365-496 | the extensions written in order fill in all fields, whichever are present |
| ClientHello.Fills | internal/tls_hack/handshake_messages.go:365-496 | each extension fills in its own fields and no other |
| ClientHello.LongRenegotiationFails | internal/tls_hack/handshake_messages.go:255-264 | renegotiation data of 255 bytes is written with length zero and refused |
| ClientHello.DecodeShaped | internal/tls_hack/handshake_messages.go:300-499 | what any accepted bytes can yield |
| ClientHello.IntoUsed | internal/tls_hack/handshake_messages.go:300-499 | a message used before accepts the same bytes, and differs from a new one at most in curves, points and renegotiation data the bytes do not bring |
| HelloBytes.ClientHelloIs | internal/tls_hack/handshake_messages.go:58-298 | every byte of a client hello: lengths, fixed fields, and a block in which another reader finds the extensions |
| HelloBytes.ClientListed | internal/tls_hack/handshake_messages.go:120-294 | that reader finds exactly these numbers with these contents, in this order |
| HelloReads.ClientDecides | internal/tls_hack/handshake_messages.go:300-505 | any bytes are accepted exactly if their parts lie within them and each extension is well formed; then the fields are those at these places, flags are set by an extension of their number, and values are those of the last one |
| ClientHelloMsg.FromSize | internal/tls_hack/handshake_messages.go:63-114 | the extensions are as long as their parts together |
| ClientHelloMsg.Msg.Measure | internal/tls_hack/handshake_messages.go:63-114 | the precomputed length is the length of what will be written; a bad ALPN name panics |
| ClientHelloMsg.Msg.Marshal | internal/tls_hack/handshake_messages.go:58-298 | the cached bytes, or the encoding, with every write in range and the cursor ending exactly at the end |
| ClientHelloMsg.Msg.Unmarshal | internal/tls_hack/handshake_messages.go:300-499 | the parser accepts exactly what decodes, and sets the fields of the message to it, whatever it held before |
| ClientHelloMsg.Msg.UnmarshalExtension | internal/tls_hack/handshake_messages.go:376-494 | one extension of each type, with its checks |
| ClientHelloMsg.ReadSuites | internal/tls_hack/handshake_messages.go:318-329 | the list of suites, and whether the renegotiation signal is in it |
| ServerHello.RoundTrip | internal/tls_hack/handshake_messages.go:548-830 | unmarshal(marshal(m)) is m exactly for the messages that fit their length fields |
| ServerHello.FillsAll | internal/tls_hack/handshake_messages.go:733-827 | the extensions written in order fill in all fields, whichever are present |
| ServerHello.DecodeShaped | internal/tls_hack/handshake_messages.go:692-830 | what any accepted bytes can yield |
| ServerHello.IntoUsed | internal/tls_hack/handshake_messages.go:692-830 | a message used before accepts the same bytes, and differs from a new one at most in renegotiation data the bytes do not bring |
| HelloBytes.ServerHelloIs | internal/tls_hack/handshake_messages.go:548-690 | every byte of a server hello |
| HelloBytes.ServerListed | internal/tls_hack/handshake_messages.go:585-685 | another reader finds exactly these extensions, in this order |
| HelloReads.ServerDecides | internal/tls_hack/handshake_messages.go:692-826 | any bytes are accepted exactly if their parts lie within them and each extension is well formed, and then say this |
| ServerHelloMsg.CursorExact | internal/tls_hack/handshake_messages.go:618-634 | the cursor reaches the end exactly when no next protocol is longer than 255 bytes |
| ServerHelloMsg.Msg.Marshal | internal/tls_hack/handshake_messages.go:548-690 | the cached bytes, or the encoding, with every write in range |
| ServerHelloMsg.Msg.Measure | internal/tls_hack/handshake_messages.go:553-595 | the precomputed lengths; an ALPN name of 256 bytes or more panics |
| ServerHelloMsg.Msg.Unmarshal | internal/tls_hack/handshake_messages.go:692-830 | the parser accepts exactly what decodes, and sets the fields of the message to it, whatever it held before |
| ServerHelloMsg.Msg.UnmarshalExtension | internal/tls_hack/handshake_messages.go:744-825 | one extension of each type, with its checks |
| Ticket.RoundTrip | internal/tls_hack/ticket.go:55-130 | a serialized session parses back exactly when its lengths fit |
| Ticket.Canonical | internal/tls_hack/ticket.go:55-130 | every accepted byte string is what marshal writes for its session |
| Ticket.TicketOpens | internal/tls_hack/ticket.go:132-201 | a ticket opens under every list in which the issuing key is the first of its name, old exactly when it is not first |
| Ticket.OnlySealedOpens | internal/tls_hack/ticket.go:157-201 | only what a key of the list has sealed is accepted |
| WireForms.TicketIs | internal/tls_hack/ticket.go:132-155 | a ticket is key name, IV, encrypted session and a MAC of all three; the session is version, suite, counted secret and certificates with four-byte lengths |
| WireForms.TicketDecides | internal/tls_hack/ticket.go:157-192 | a ticket opens exactly if its last 32 bytes are the MAC of the rest under the first key of its name and what is decrypted parses |
| WireForms.TicketRefused | internal/tls_hack/ticket.go:158-180 | one that is too short or names no key does not |
| Ticket.FindFirst | internal/tls_hack/ticket.go:168-178 | the key used is the first of its name |
| Ticket.SessionState.Marshal | internal/tls_hack/ticket.go:55-87 | the encoding, with the cursor ending at the precomputed length |
| Ticket.SessionState.Unmarshal | internal/tls_hack/ticket.go:89-130 | accepts exactly what decodes |
| Ticket.Config.EncryptTicket | internal/tls_hack/ticket.go:132-155 | name, IV, ciphertext and MAC under the first key |
| Ticket.Config.DecryptTicket | internal/tls_hack/ticket.go:157-201 | accepts exactly what opens, with the session and whether its key is old |
| Ticket.Config.FindKey | internal/tls_hack/ticket.go:168-174 | the index of the first key of that name, or -1 |
| KeyAgreement.SameSecret | internal/tls_hack/key_agreement.go:762-828 | either side may apply its secret first |
| KeyAgreement.ParamsArrive | internal/tls_hack/key_agreement.go:696-799 | the client recovers the parameters and public key the server packed, exactly when they are valid |
| KeyAgreement.SecretsAgree | internal/tls_hack/key_agreement.go:750-837 | when both sides accept, their premaster secrets are the same bytes |
| KeyAgreement.ExchangeAgrees | internal/tls_hack/key_agreement.go:696-837 | the exchange succeeds exactly for valid parameters and public keys within bounds, with one secret |
| KeyAgreement.BytesBack | internal/tls_hack/key_agreement.go:704-717 | minimal big-endian bytes give the number back |
| WireForms.ToBytesIs | internal/tls_hack/key_agreement.go:704-717 | a number is written in the one way without leading zeros, highest byte first |
| WireForms.KeyExchangeIs | internal/tls_hack/key_agreement.go:724-748 | the server sends group, generator and public key in that order, each in its shortest form behind two bytes of length |
| WireForms.ModPowIs | internal/tls_hack/key_agreement.go:720-835 | the powers are those that square and multiply computes |
| WireForms.FixedWidths | internal/tls_hack/handshake_messages.go:58-80 | lengths of two, three and four bytes have the highest byte first |
| KeyAgreement.ChunkBack | internal/tls_hack/key_agreement.go:447-457 | parseUint16Chunk finds a chunk and what follows it |
| KeyAgreement.DheKeyAgreement.GenerateServerKeyExchange | internal/tls_hack/key_agreement.go:696-748 | the message packed from the first positive draw below p - 1, which is kept, or nothing exactly if there is none |
| KeyAgreement.DheKeyAgreement.ProcessServerKeyExchange | internal/tls_hack/key_agreement.go:767-799 | accepts exactly the valid messages and keeps what they say |
| KeyAgreement.DheKeyAgreement.GenerateClientKeyExchange | internal/tls_hack/key_agreement.go:801-837 | premaster secret and message from the first positive draw, or nothing exactly if there is none or the public key is out of bounds |
| KeyAgreement.DheKeyAgreement.ProcessClientKeyExchange | internal/tls_hack/key_agreement.go:750-765 | the premaster secret, or an error for a key out of bounds |
| KeyAgreement.DheKeyAgreement.Secret | internal/tls_hack/key_agreement.go:708-718 | the first positive draw, if there is one |
| KeyAgreement.FillPskPremaster | internal/tls_hack/key_agreement.go:508-513 | zeros as long as the key, then the key, each with its length |
| KeyAgreement.PskInjective | internal/tls_hack/key_agreement.go:508-513 | different keys give different premaster secrets |
| WireForms.PresharedIs | internal/tls_hack/key_agreement.go:508-513 | counted zeros as long as the key, then the counted key |
| SessionCache.HoldsMostRecent | internal/tls_hack/common.go:853-923 | after any operations the cache holds exactly the most recently used keys, in order, each with its last Put |
| SessionCache.GetFinds | internal/tls_hack/common.go:914-923 | Get returns the latest Put exactly for keys among them |
| SessionCache.Cache.Put | internal/tls_hack/common.go:886-910 | map and list stay in step, and the list becomes that of the bounded LRU list |
| SessionCache.Cache.Get | internal/tls_hack/common.go:914-923 | the value under the key, which moves to the front |
| SessionCache.Cache.MoveToFront | internal/tls_hack/common.go:918-919 | one element moves to the front, the others keep their order |
| SessionCache.Cache.Reuse | internal/tls_hack/common.go:903-909 | a full cache evicts only the least recently used key |
| Streamer.GenericReadX | pkg/streamer/streamer.go:293-391 | refuses bad options; otherwise what is read is what the events brought, and what is delivered and left equals what was held and read, on every order of events |
| Streamer.Conserved | pkg/streamer/streamer.go:293-391 | no byte is lost, invented or moved, on any path |
| Streamer.TakenIsBrought | pkg/streamer/streamer.go:293-391 | the bytes taken are all those that the events brought, in order |
| Streamer.SizeIsPrefix | pkg/streamer/streamer.go:319-325 | a read by size returns the first n bytes of the stream |
| Streamer.SizeReads | pkg/streamer/streamer.go:319-325 | undisturbed, it does so as soon as there are n bytes, whatever the chunks, and leaves the rest |
| Streamer.ExprReads | pkg/streamer/streamer.go:337-351 | with a matcher that more bytes do not change, a read for an expression does not depend on the chunks |
| Streamer.Check | pkg/streamer/streamer.go:319-351 | sizes before expression, and how the bytes are split |
| Streamer.Wait | pkg/streamer/streamer.go:352-389 | what each event brings and how it ends the read |
| StreamerLaws.EndsExactly | pkg/streamer/streamer.go:293-391 | why a read ends: by size, by the expression, by a timer, at the end or as an error, with these bytes, and at the first turn at which there is a reason |
| Streamer.FlushCh | pkg/streamer/streamer.go:237-250 | everything queued, in order |
| Netconf.SizeExprSettled | pkg/device/netconf/device.go:38-38 | once the size pattern has matched, later bytes do not change the match |
| WireForms.FirstLineFound | pkg/device/netconf/device.go:38-38 | the match is the first "\n#", number without leading zero or #, "\n" that lies within 200 bytes, and there is none exactly if there is no such line |
| WireForms.NumberIs | pkg/device/netconf/device.go:354-362 | the size is the decimal number |
| Netconf.ReadsChunks | pkg/device/netconf/device.go:332-371 | any chunks, whatever their payload, read back joined, exactly as long as the buffer cap is kept |
| Netconf.WriteRead | pkg/device/netconf/device.go:318-371 | reading inverts writing on all messages but the empty one, which comes back as a size line |
| WireForms.FrameIs | pkg/device/netconf/device.go:318-323 | a message goes out as "\n#", its length in decimal, "\n", its bytes and "\n##\n" |
| WireForms.CapIs | pkg/device/netconf/device.go:363-370 | the cap is kept exactly if at most 2^30 bytes lie in front of each chunk |
| Netconf.ReadChunked | pkg/device/netconf/device.go:332-371 | the result depends on the bytes and not on the segments they arrive in |
| Netconf.WriteChunked | pkg/device/netconf/device.go:318-323 | size line, data and end mark are written in order |
| Netconf.Connector.ReadTo | pkg/streamer/ssh/ssh.go:342-366 | the match of the whole stream, and the stream goes on behind it |
| Netconf.Connector.Read | pkg/streamer/ssh/ssh.go:319-340 | the next n bytes of the stream |
| Execute.SimpleExprList.Add | pkg/expr/expr.go:174-177 | one pattern more at the end |
| Execute.SimpleExprList.Delete | pkg/expr/expr.go:179-192 | all patterns of one name go, the others keep their order and names |
| Execute.SimpleExprList.FindMatch | pkg/expr/expr.go:198-216 | the first pattern that matches |
| Execute.CallbacksLast | pkg/device/genericcli/genericcli.go:607-614 | the callbacks are behind everything else, in order |
| Execute.OneEcho | pkg/device/genericcli/genericcli.go:597-605 | an entry of the name of the echo is the first one, until it is deleted |
| Execute.Connector.ReadTo | pkg/device/genericcli/genericcli.go:622-622 | as little is taken in as a pattern needs to match, and the bytes behind the match stay |
| Execute.Execution.constructor | pkg/device/genericcli/genericcli.go:589-620 | the list is built in order and the start of the callbacks is right |
| Execute.Execution.DropEcho | pkg/device/genericcli/genericcli.go:646-652 | with the echo pattern gone the start of the callbacks is right again |
| Execute.Execution.CheckEcho | pkg/device/genericcli/genericcli.go:656-674 | exactly the bytes behind the echo in the evaluated text, or nothing |
| Execute.Execution.BeforeEcho | pkg/device/genericcli/genericcli.go:679-708 | the output between echo and match, with a line feed added for a prompt that took it |
| Execute.Execution.OnMatch | pkg/device/genericcli/genericcli.go:643-773 | what each match means before and after the echo |
| Execute.Execution.OnQuestion | pkg/device/genericcli/genericcli.go:730-750 | the answer depends on how often in a row the question was asked |
| Execute.Execution.OnCallback | pkg/device/genericcli/genericcli.go:751-765 | the answer sent is that of the pattern that matched, at most a hundred times |
| Execute.Execution.Turn | pkg/device/genericcli/genericcli.go:621-774 | one turn does what one step of the script and the reaction to its part say |
| Execute.Execution.Run | pkg/device/genericcli/genericcli.go:616-776 | the loop ends with the result of the script, having sent exactly the answers to its parts |
| ExecuteAnswers.RepeatsExactly | pkg/device/genericcli/genericcli.go:730-740 | the repeat count is how many times in a row the last question was asked, and no other number |
| ExecuteAnswers.QuestionAsked | pkg/device/genericcli/genericcli.go:730-750 | a question is answered by what the handler says when told how often in a row it was asked, 1 if the one before was another |
| ExecuteAnswers.OthersAnswered | pkg/device/genericcli/genericcli.go:720-765 | a pager is answered by a space, a callback by the answer of its pattern, the first hundred times, and a prompt by nothing |
| ExecuteAnswers.PagesFront | pkg/device/genericcli/genericcli.go:713-728 | the output is what pagers and prompts have before them and store, in order |
| ExecuteAnswers.BehindEcho | pkg/device/genericcli/genericcli.go:656-674 | what is shown behind the echo is all that is behind its first match in the evaluated text |
| ExecuteAnswers.WithLineFeed | pkg/device/genericcli/genericcli.go:679-694 | only a prompt that no line feed precedes is given one |
| ExecuteAnswers.StopsExactly | pkg/device/genericcli/genericcli.go:643-711 | before the echo any match ends the run but the echo, a question with the echo in front and a prompt, both with two bytes before them; after it none does |
| ExecuteAnswers.ExpectedAre | pkg/device/genericcli/genericcli.go:589-614 | the patterns are tried in the order echo, prompt, pager, questions, login, callbacks |
| ExecuteLaws.OutputExactly | pkg/device/genericcli/genericcli.go:616-776 | there is output exactly when the prompt is reached and nothing before it refused: pages and last output with what they store, in order |
| ExecuteLaws.PromptEnds | pkg/device/genericcli/genericcli.go:714-719 | the first prompt that is dealt with is the last part |
| ExecuteLaws.NeverInvalid | pkg/device/genericcli/genericcli.go:755-773 | the invalid-index and unknown-option branches are never taken |
| ExecuteLaws.AtMostHundred | pkg/device/genericcli/genericcli.go:616-616 | at most a hundred callbacks are answered |
| ExecuteLaws.LimitExactly | pkg/device/genericcli/genericcli.go:751-755 | the limit is hit exactly by the callback after a hundred others, if nothing was refused before |
| ExecuteLaws.Conserved | pkg/device/genericcli/genericcli.go:621-774 | after the echo, the parts and what is left are the bytes of the device, in order |
| ExecuteLaws.ConservedThroughout | pkg/device/genericcli/genericcli.go:621-774 | from the first byte on, the bytes of the device are the echo with what came before it, the prompts found before it, the parts with the text before each, and what is left, each where the first match in what had come by then puts it |
| ExecuteLaws.NothingLostExactly | pkg/device/genericcli/genericcli.go:679-708 | no byte is lost exactly when no turn drops a prompt, or only prompts of no bytes |
| ExecuteLaws.PutBackExactly | pkg/device/genericcli/genericcli.go:679-708 | a prompt is dropped exactly when it is found before the echo, with two bytes or more before it and no echo in them |
| ExecuteLaws.PromptLost | pkg/device/genericcli/genericcli.go:695-706 | an input of which a prompt is lost |
| ExecuteLaws.PutBackDropsPrompt | pkg/device/genericcli/genericcli.go:695-706 | after a prompt before the echo the bytes before it are read again, and the prompt is not |
| ExecuteLaws.RunsEnd | pkg/device/genericcli/genericcli.go:621-774 | where no pattern matches the empty text, a run ends within as many turns as there are bytes, and one more |
| ExecuteLaws.MoreTurns | pkg/device/genericcli/genericcli.go:621-774 | more turns change nothing about a run that has ended |
| ExecuteLaws.SettledExactly | pkg/device/genericcli/genericcli.go:622-622 | a read finds the same whatever the cuts exactly when every beginning of the stream that is matched is matched as the whole is |
| ExecuteLaws.CutsDoNotMatter | pkg/device/genericcli/genericcli.go:621-774 | over a stream of which that holds in each turn, the parts do not depend on how the network cut it |
| ExecuteLaws.CutsMatter | pkg/device/genericcli/genericcli.go:713-728 | a stream with a pager's text in front of a prompt, and two cuts with different output |
| Discovery.ExactlyOneLess | cmd/gconsolecheck/discovery_all.go:192-199 | of two different names exactly one is less |
| Discovery.Circle | cmd/gconsolecheck/discovery_all.go:192-214 | the relation is not transitive |
| Discovery.PortsConserved | cmd/gconsolecheck/discovery_all.go:129-188 | connected ports are twice the mutual pairs plus the unpaired ports |
| Discovery.TwoPerPair | cmd/gconsolecheck/discovery_all.go:169-182 | ports that name each other come two to a pair |
| Discovery.Report | cmd/gconsolecheck/discovery_all.go:157-185 | pairs are counted and printed once each whatever the order of names, and the rest is counted as unpaired |
| Discovery.Collect | cmd/gconsolecheck/discovery_all.go:129-155 | the sources heard, and the ports that have heard none |
| Discovery.SummaryAddsUp | cmd/gconsolecheck/discovery_all.go:157-188 | connected = 2 * pairs + unpaired exactly when no two pairs share a key |
| Discovery.PlainNamesTell | cmd/gconsolecheck/discovery_all.go:175-178 | without '=' in the names no two do |
| Discovery.NamesCollide | cmd/gconsolecheck/discovery_all.go:175-178 | four names with which two pairs share a key |
| Marker.MakePayload | cmd/gconsolecheck/discovery_all.go:234-247 | the marker filled up with spaces, or nothing if it is too long or holds a byte that cannot be printed |
| Marker.ParsePayload | cmd/gconsolecheck/discovery_all.go:249-262 | source and run of the fields between the bars, the last of each name, or nothing if one is missing |
| Marker.RoundTrip | cmd/gconsolecheck/discovery_all.go:234-262 | a payload that can be made tells source and run exactly when both are there and neither holds a bar |
| Marker.PayloadIs | cmd/gconsolecheck/discovery_all.go:234-247 | every character of the payload, and that it can be made exactly if 84 characters hold source and run and all can be printed |
| Marker.SplitJoins | cmd/gconsolecheck/discovery_all.go:249-252 | the parts with bars between them are the text |

## Left out

- Mux.NothingLeft: goroutines are atomic steps on values; the sniff deadline and errors of Accept are events, and the error values themselves are not modelled.
- Mux.ReachableInv: the state is a value, so nothing is said about sharing of the map between goroutines beyond the lock's atomicity.
- HandshakeRuns.Completes: the two sides are modelled on values, and from one read to the next a side takes a single step; alerts, version negotiation, ALPN names and certificate parsing are not part of the model, nor are failures of a side by itself (random source, signing, sealing a ticket, making a key exchange).
- HandshakeTerms.CompletesExactly: the suites a client offers are those of its configuration that the stack knows and that suit the version.
- HandshakeAlone.ClientDoneVouches: that a sum or a signature cannot be made without the secret or the key is left to the primitives.
- HelloReads.ClientDecides: stated for a new message; a used one differs as `ClientHello.IntoUsed` says.
- HandshakeRuns.ReadAsSealed: packets carry the keys and numbers they were sealed under instead of ciphertext; that their bytes are read back as these packets is `HandshakeBytes.RunsArrive`.
- HandshakeWire.QueueArrives: marshal and what a suite makes of keys are parameters, messages have at most 65536 bytes, and both sides of a direction have one version number, which only matters once keys are in use.
- ExecuteLaws.CutsDoNotMatter: for a whole run the condition on each turn is sufficient; the exact one is proved for a single read (`ExecuteLaws.SettledExactly`).
- Handshake.KeysPartition: the PRF is a parameter that yields as many bytes as it is asked for.
- Incoming.Reader.ReadRecord: one error outcome stands for all alerts and error values, and the permanent error kept on the connection is not modelled.
- Outgoing.Conn.WriteRecordLocked: errors of the network and of the random source, and the alert sent when no keys are prepared, are left out.
- Padding.AcceptsExactly: payloads are at most 2 GiB, where the source's 32-bit conversion is still exact.
- HalfConn.SealOpens: payloads are below 2 GiB for the same reason; SSLv3 is left out.
- Record.Direction.Decrypt: the block is replaced by its payload with a new header, so slices that alias its old bytes are not modelled; constant time is not a functional property.
- KeyAgreement.DheKeyAgreement.GenerateServerKeyExchange: a list of draws that runs out stands for a random source that fails; signatures over the parameters are left out.
- KeyAgreement.ExchangeAgrees: the parameters take fewer than 65536 bytes each, as their length fields do.
- Ticket.TicketOpens: key names have the 16 bytes that the source's array type gives them.
- SessionCache.Cache.Put: the lock is left out; the list is a sequence of shared elements rather than linked nodes.
- Streamer.GenericReadX: timers, context and channel are a script of events; the chained result of nested pattern lists and error texts are left out.
- Netconf.ReadChunked: reads that fail or are cancelled end the message and are not resumed.
- Execute.Execution.Run: turns are counted, for a pattern that matches the empty text never lets the loop end; errors of Write, the error pattern tried on the last bytes of a read that times out, and the checks of the output after the loop are left out.
- Execute.Execution.BeforeEcho: byte slices are values, so the line feed appended to the text in front of a prompt does not overwrite what follows in the same buffer.
- Marker.ParsePayload: texts are characters, not UTF-8 bytes; payloads that can be made hold printable ASCII only.
- Discovery.Report: sessions, the sending and receiving of payloads and printing are left out; what each port has heard is given.
- Codec.DataSession.ReadData: reads that end in an error, with the partial data they return, are left out.
- Codec.DataSession.WriteData: writes and deliveries are ordered; a write while a delivery is being filtered is not modelled.
- Certificate, certificate request, status, verify, ticket and next-protocol messages: length-prefixed lists like those proved for the hello messages.
- ECDHE, RSA and combined PSK key agreements: the elliptic-curve and RSA operations are foreign libraries.
- Renegotiation, client certificate selection and the choice of a cipher suite: parameters of a run.
- Regular expressions other than the NETCONF size line, X.509, random generation: parameters or not modelled.
- gRPC server, gateway, configuration, SSH, telnet, RFC 2217 and the Python SDK: plumbing around the parts above.
