# Verified model of go-smtp

This project models the parts of go-smtp that carry its guarantees and proves them in Dafny:
the codecs of the wire protocol, the server's session state machine and backend lifecycle, the
content path with its size limit, spool and incomplete-reader defence, the SASL mechanisms and
the AUTH command, the client's pipelining and its final-status contract, Unicode normalisation
and SASLprep, and the connection registry.

Conventions. An octet is a `char` below 256 and wire text is a `string`; a Unicode string is a
sequence of code points. Integers are unbounded; where 64-bit limits matter they are written
out. The network, the peer, the backend, storage faults, contexts, random numbers and the
scheduling of concurrent calls are parameters, so that every result holds for all their
behaviours. A class whose methods are the critical sections of the source stands for every
interleaving of them. Loops and objects of the source are methods and classes proved against
functions, and the properties are lemmas about those functions or invariants of the classes.

Files, by area:

- Unicode: `Hangul`, `UnicodeTables`, `TableGenerator`, `CanonicalOrder`, `Normalization`, `Saslprep`
- Codecs: `Prelude`, `Decimal`, `Commands`, `Params`, `Paths`, `Replies`, `EnhancedCodes`, `DotStuffing`, `Bdat`
- Server: `Delivery`, `SessionState`, `Session`, `ChunkedSession`, `Spool`, `DataCall`, `Authentication`, `ConnectionRegistry`
- SASL: `SaslCrypto`, `Scram`, `ScramProof`, `SaslResponder`, `ScramExchange`, `SaslCredentials`
- Client: `FinalStatus`, `Pipeline`

Main results:

- Composition may pull a mark over marks of lower classes, yet decomposing and reordering gives
  the original back; hence NFC and NFKC are idempotent and decide equivalence, for every table
  that the generator can produce (`RedecomposeComposed`, `NormalFormDecidesEquivalence`,
  `GeneratedExpands`).
- Dot-stuffed content survives every split into writes and reads, and the wire is free of bare
  line endings and of early terminators (`Transfer`, `WireIsSafe`).
- Whatever the peer and the backend do, no session transition fails and the backend sees a
  well-bracketed call sequence (`Serve`, `SessionIsWellBracketed`).
- The spool budget is conserved by every interleaving and returns to zero (`SpoolManager`,
  `BudgetReturns`), every session gives back what it took (`ChunkedSession.Serve`), every
  announced octet is taken whatever storage does, and chunked content reaches the backend intact
  (`ExecuteBdat`, `Relay`).
- No DATA over the limit is accepted, and nothing is accepted that the backend did not read to
  the end (`EvaluateDataCall`, `HandleData`).
- SCRAM: matching keys lead to mutual acceptance, and the responder accepts exactly the
  authentic proofs (`MutualAcceptance`, `JudgeIsExact`); AUTH commits at most once, only on a
  question made of what the client said, and always for an honest client (`HandleAuth`,
  `ExecuteAuth`, `HonestConvinces`).
- Pipelining gives what lock-step would (`ExecuteLocked`), and a client error that is not marked
  as unknown means that nothing was accepted (`Data`, `Bdat`, `Burl`).

Where the code has a rough edge the model keeps it. When the content exceeds the limit and the
stream breaks before its end, `handleDATA` replaces the evaluation that would close the
connection by the 552 results, so the session goes on although the end of the content was never
seen. `DataCall.HandleData` states the exact condition, which `DataCall.BreaksBeyondLimitExactly`
puts on what the transport still does when the backend returns: its first fault comes after more
octets than are allowed and before the end is shown. `DataCall.ContinuesUnsynchronised` gives a
concrete message for which the session goes on, and `DataCall.FaultFreeEnds` shows that a fault is
needed.

A pipelined group reports an unknown final status only for the command whose write or read failed.
`Pipeline.SafeExactlyWhenAlone` states exactly which groups never leave the fate of a completing
command unsaid: those in which each completing command has its window to itself. The only caller,
BURL, sends such a command on its own.

## Model

| member | source | states |
|---|---|---|
| `Hangul.HangulCompositeDecomposes` | internal/unicodenorm/norm.go:217-233 | an algorithmic composite is a syllable and decomposes to the decompositions of its two parts |
| `Hangul.HangulRoundTrip` | internal/unicodenorm/norm.go:148-158 | composing the parts a syllable decomposes to gives the syllable back |
| `UnicodeTables.DecomposeString` | internal/unicodenorm/norm.go:162-172 | the loop yields the concatenated decompositions of the code points |
| `UnicodeTables.DecomposeAllIsDecomposed` | internal/unicodenorm/norm.go:102-116 | nothing that decomposition yields decomposes further |
| `UnicodeTables.CompositeDecomposes` | internal/unicodenorm/norm.go:217-233 | every composite, from the table or algorithmic, decomposes to the decompositions of its parts |
| `TableGenerator.GeneratedExpands` | internal/unicodenorm/gen/main.go:173-196 | recursive expansion of an acyclic mapping gives a table with every property the normal forms need |
| `TableGenerator.CompatibilityExpands` | internal/unicodenorm/gen/main.go:206-232 | the same for the compatibility table, whose expansion falls back on the canonical mapping |
| `CanonicalOrder.SortRuns` | internal/unicodenorm/norm.go:194-213 | sorting each run of marks in place gives the canonical order of the whole sequence |
| `CanonicalOrder.SliceStable` | internal/unicodenorm/norm.go:204-209 | one run is stably sorted by combining class and nothing outside it changes |
| `CanonicalOrder.OrderIsOrdered` | internal/unicodenorm/norm.go:194-213 | after ordering, no mark follows one of a higher class |
| `CanonicalOrder.OrderIsStable` | internal/unicodenorm/norm.go:194-213 | starters and the marks of each class keep their relative order |
| `CanonicalOrder.OrderIsPermutation` | internal/unicodenorm/norm.go:194-213 | ordering neither loses nor adds a code point |
| `CanonicalOrder.OrderedIsUnique` | internal/unicodenorm/norm.go:194-213 | two ordered sequences that agree class by class are equal, so order and stability determine the result |
| `CanonicalOrder.OrderExchange` | internal/unicodenorm/norm.go:194-213 | a mark may be moved over marks of other classes without changing the canonical order |
| `Normalization.ComposeRunes` | internal/unicodenorm/norm.go:245-304 | the one-pass loop with starter index and blocking class computes the composition defined with the Unicode rule of blocking |
| `Normalization.HighestDecidesBlocked` | internal/unicodenorm/norm.go:265-283 | comparing with the running maximum class is exactly the blocking rule |
| `Normalization.RedecomposeComposed` | internal/unicodenorm/norm.go:245-304 | decomposing and reordering the composition of any ordered decomposed sequence gives that sequence back |
| `Normalization.NormalizeString` | internal/unicodenorm/norm.go:50-86 | the three passes compute the normal form |
| `Normalization.NFCIdempotent` | internal/unicodenorm/norm.go:50-60 | NFC of an NFC string is itself |
| `Normalization.NFKCIdempotent` | internal/unicodenorm/norm.go:76-86 | NFKC of an NFKC string is itself |
| `Normalization.NormalFormDecidesEquivalence` | internal/unicodenorm/norm.go:50-86 | two strings share a normal form exactly when their decompositions agree up to exchanging marks of different classes |
| `Saslprep.InTable` | internal/saslprep/saslprep.go:249-252 | binary search over sorted disjoint intervals is plain membership |
| `Saslprep.MapChars` | internal/saslprep/saslprep.go:120-134 | Table B.1 characters vanish, other Table C.1.2 characters become spaces, the rest stay |
| `Saslprep.CheckProhibited` | internal/saslprep/saslprep.go:184-196 | succeeds exactly when no code point is prohibited, unassigned ones counting only for stored strings |
| `Saslprep.CheckBidi` | internal/saslprep/saslprep.go:208-244 | succeeds exactly when section 6 of RFC 3454 holds |
| `Saslprep.Prepare` | internal/saslprep/saslprep.go:91-105 | returns the normalised mapped string exactly when it meets both rules, otherwise an error |
| `Saslprep.PrepareIdempotent` | internal/saslprep/saslprep.go:91-105 | a prepared string prepares to itself, given tables that introduce no Table B.1 character |
| `DotStuffing.DotStuffWriter.Write` | internal/smtpwire/dotstuff.go:105-157 | any piece of content extends the octets sent to those of the content so far; when the underlying writer fails, what went out is a part of that and holds at least what the octets reported as consumed make the filter send; a closed writer refuses |
| `DotStuffing.DotStuffWriter.Close` | internal/smtpwire/dotstuff.go:223-244 | what was sent is the stuffed, CRLF-closed content and the terminator; when the underlying writer fails, it is a proper part of that; closing again does nothing |
| `DotStuffing.DotUnstuffReader.Read` | internal/smtpwire/dotstuff.go:304-376 | any buffer size delivers the next octets of the unstuffed stream, an error comes alone and last |
| `DotStuffing.DotUnstuffReader.ConsumeTerminatorTail` | internal/smtpwire/dotstuff.go:396-409 | the two octets after a lone dot are taken and decide between end of data, truncation and malformed input |
| `DotStuffing.WriteAll` | internal/smtpwire/dotstuff.go:105-244 | the wire depends on the content only, not on how it was split into writes |
| `DotStuffing.ReadAll` | internal/smtpwire/dotstuff.go:304-409 | any sequence of buffer sizes reads the same content and ending |
| `DotStuffing.Transfer` | internal/smtpwire/dotstuff.go:105-409 | for every split into writes and reads the reader yields the CRLF-normalised content, then the end, leaving the suffix unread |
| `DotStuffing.UnstuffWire` | internal/smtpwire/dotstuff.go:304-409 | unstuffing the wire of a content gives its closed CRLF form and stops before the suffix |
| `DotStuffing.WireIsSafe` | internal/smtpwire/dotstuff.go:105-244 | the wire has no bare CR or LF and a lone dot line only as its terminator |
| `DotStuffing.IncompleteNeverEnds` | internal/smtpwire/dotstuff.go:304-409 | no proper prefix of a message on the wire is read as a complete message |
| `DotStuffing.HoldingNeverEnds` | internal/smtpwire/dotstuff.go:105-197 | nothing a writer has sent before Close, in whole or in part, is read as a complete message |
| `DotStuffing.HoldingGrows` | internal/smtpwire/dotstuff.go:105-157 | accepting more content only adds to what was sent, also across a CR that was held back |
| `DotStuffing.NormalizedKeepsCrlfText` | internal/smtpwire/dotstuff.go:105-157 | content that already uses CRLF only is sent unchanged apart from stuffing |
| `SessionState.SummaryMeans` | smtpserver/lifecycle.go:25-74 | the running summary of a trace says what replaying, counting and inspecting the whole trace say |
| `SessionState.CallsAreNested` | smtpserver/lifecycle.go:25-74 | RCPT and DATA calls lie inside an accepted MAIL with only RCPT between, other resets are STARTTLS ones, MAIL and CommitAuth occur with nothing open |
| `SessionState.TransactionEnds` | smtpserver/lifecycle.go:48-67 | an open transaction is closed by a reset before the session ends |
| `SessionState.SessionIsWellBracketed` | smtpserver/lifecycle.go:25-74 | every accepted MAIL is closed by exactly one reset before the next MAIL, and Close occurs once and last |
| `Session.CommandSession.HandleHello` | smtpserver/cmd_session.go:170-212 | a greeting resets a live transaction and records the domain, a bad one changes nothing |
| `Session.CommandSession.HandleMail` | smtpserver/cmd_session.go:214-283 | refused without the required TLS or authentication, otherwise the backend is asked and its answer decides the phase |
| `Session.CommandSession.HandleRcpt` | smtpserver/cmd_session.go:285-334 | a recipient is appended exactly when the backend accepts it below the limit |
| `Session.CommandSession.HandleData` | smtpserver/cmd_data.go:50-82 | refusals change nothing, otherwise the content is handed over and the transaction closed by one reset |
| `Session.CommandSession.HandleBdat` | smtpserver/cmd_data.go:84-146 | the session's part of BDAT: a failed read ends the connection, refusals change nothing, a chunk is kept, delivered when last, or fails the transaction; in the failed phase nothing changes |
| `Session.CommandSession.FailBdat` | smtpserver/cmd_data.go:227-253 | the transaction is reset and the session waits for RSET |
| `Session.CommandSession.FinishContent` | smtpserver/cmd_data.go:178-203 | the transaction ends with the reset its result calls for, or the connection closes |
| `Session.CommandSession.HandleRset` | smtpserver/cmd_session.go:345-360 | returns to the ready phase with nothing open |
| `Session.CommandSession.HandleStartTLS` | smtpserver/floor_extensions.go:137-177 | a completed handshake forgets greeting, extensions and authentication |
| `Session.CommandSession.HandleReadError` | smtpserver/cmd_session.go:57-72 | a malformed line during chunking fails the transaction and is answered |
| `Session.CommandSession.Execute` | smtpserver/cmd_session.go:80-143 | no command makes a transition fail, and the failed-BDAT phase is left only by RSET |
| `Session.CommandSession.Close` | smtpserver/cmd_session.go:50-55 | a live transaction is reset, then the backend is closed, once |
| `Session.Serve` | smtpserver/loop.go:32-86 | for every sequence of inputs and backend answers: no failed transition, and the calls the session recorded are a complete well-formed trace, protected when TLS or AUTH is required, with at most the allowed MAIL calls |
| `ChunkedSession.SpooledSession.ExecuteBdat` | smtpserver/cmd_data.go:84-146 | with CHUNKING active every announced octet is taken on every branch, even when storage fails; the spool holds the chunks so far; the backend is given content exactly when the lifecycle records the DATA call, and then exactly the concatenation of the chunks; without faults and with room the last chunk gets there |
| `ChunkedSession.SpooledSession.Execute` | smtpserver/lifecycle.go:41-67 | after every other command a spool the lifecycle dropped is closed, and no other of the session's spools is live |
| `ChunkedSession.SpooledSession.Close` | smtpserver/lifecycle.go:48-74 | the end of the session closes its spool and completes the backend's call log |
| `ChunkedSession.Serve` | smtpserver/loop.go:32-86 | beside any other sessions, at the end of a connection every spool it opened is released and holds nothing of the budget, no other spool appeared than those that others opened, without others the counters are what they were before, and the calls recorded are as for a session alone |
| `ChunkedSession.AllAppearedAreOwn` | smtpserver/spool.go:95-116 | when no other session opened a spool, every spool that appeared belongs to the session |
| `ChunkedSession.ChunkHandsOver` | smtpserver/cmd_data.go:108-146 | a chunk leads to a DATA call exactly when it is the last, was stored, and can be read again |
| `Spool.SpoolManager.NewSpool` | smtpserver/spool.go:95-103 | a new spool is admitted exactly below the concurrency limit |
| `Spool.SpoolManager.BeginWrite` | smtpserver/spool.go:141-165 | the message limit and the spill decision, with the shared budget kept exact |
| `Spool.SpoolManager.Reserve` | smtpserver/spool.go:296-308 | room is granted exactly when the shared total and memory allow it |
| `Spool.SpoolManager.Evict` | smtpserver/spool.go:208-228 | spilling returns the memory share and keeps the content |
| `Spool.SpoolManager.Write` | smtpserver/spool.go:141-199 | stores all of the octets or a stated prefix, accounts for exactly those, and succeeds whenever there is room and storage works |
| `Spool.SpoolManager.BeginClose` | smtpserver/spool.go:268-285 | closing takes the counters once; closing again does nothing |
| `Spool.SpoolManager.FinishClose` | smtpserver/spool.go:317-323 | the manager gets back what the spool held |
| `Spool.SumsAfterUpdate` | smtpserver/spool.go:296-323 | the sums over all spools move by what one spool gained or gave back |
| `Spool.OthersAct` | smtpserver/spool.go:141-323 | whatever critical sections other sessions run on their spools, in any order, keeps the budget exact and leaves this session's spools as they were |
| `Spool.GoneAddNothing` | smtpserver/spool.go:310-323 | spools that were opened and released in the meantime leave the sums as they were |
| `Spool.BudgetReturns` | smtpserver/spool.go:310-323 | once every spool is closed all counters are zero |
| `Commands.ReadCommandLine` | internal/smtpwire/command_decoder.go:94-130 | the octet loop returns the first CRLF line within the limit, or drains and reports |
| `Commands.EncodeCommand` | internal/smtpwire/encoder.go:45-72 | the line is written exactly when no token holds a control octet |
| `Commands.CommandRoundTrip` | internal/smtpwire/command_decoder.go:42-72 | reading an encoded command gives its verb and joined arguments and leaves the rest unread |
| `Params.ParamRoundTrip` | internal/smtpwire/encoder.go:86-135 | every parameter the encoder accepts is one token and decodes to itself |
| `Params.ParamsRoundTrip` | internal/smtpwire/path.go:154-179 | every list of encodable parameters is parsed back in order |
| `Params.EncodeXtext` | internal/smtpwire/encoder.go:150-166 | the loop escapes octet by octet |
| `Params.DecodeXtext` | internal/smtpwire/encoder.go:179-203 | the index loop decodes exactly the specified text or reports the first fault |
| `Params.XtextRoundTrip` | internal/smtpwire/encoder.go:150-203 | decoding undoes encoding for every octet string |
| `Params.XtextIsValue` | internal/smtpwire/encoder.go:124-166 | a non-empty encoding is a valid esmtp-value |
| `Paths.PathClosingAngle` | internal/smtpwire/path.go:122-152 | the flag loop finds the first angle bracket that is outside quoted strings and outside an open literal, or tells that there is none |
| `Paths.SplitMailbox` | internal/smtpwire/path.go:217-252 | returns the only at sign outside quoted strings, says there is none, or reports: an open quoted string or two such signs |
| `Paths.PathRoundTrip` | internal/smtpwire/path.go:55-120 | an accepted mailbox followed by encoded parameters parses to the same mailbox, less any source route, with those parameters |
| `Paths.EnvelopeRoundTrip` | internal/smtpwire/path.go:45-120 | encode, read and parse of MAIL or RCPT gives back the mailbox, less any source route, and the ordered parameters |
| `Replies.EncodeReply` | internal/smtpwire/reply_encoder.go:67-81 | the lines of a reply without enhanced code are written exactly when code and texts are valid |
| `Replies.ReadLine` | internal/smtpwire/reply.go:241-262 | the loop returns the first line within the limit or the error of the stream |
| `Replies.ReadReplyLoop` | internal/smtpwire/reply.go:323-377 | the loop reads one reply as specified, with every limit |
| `Replies.ReplyRoundTrip` | internal/smtpwire/reply.go:283-377 | an encoded reply within the limits is read back and the rest stays unread |
| `Replies.ReplyStreamRoundTrip` | internal/smtpwire/reply.go:323-377 | a concatenation of encoded replies is read back reply by reply, leaving any suffix |
| `EnhancedCodes.ScanUpTo3Digits` | internal/smtpwire/enhanced.go:94-108 | reads one to three digits and refuses a fourth |
| `EnhancedCodes.EncodeReply` | internal/smtpwire/reply_encoder.go:39-81 | the whole encoder: a reply is sent exactly when its code, texts and enhanced code are valid, with the enhanced code before every line |
| `EnhancedCodes.EnhancedRoundTrip` | internal/smtpwire/enhanced.go:42-87 | extracting from a prefixed text gives the code and the text |
| `EnhancedCodes.EnhancedReplyRoundTrip` | internal/smtpwire/reply_encoder.go:39-95 | the same through encoding and reading a single-line reply |
| `Bdat.ArgumentRoundTrip` | internal/smtpwire/bdat.go:44-107 | the parser recovers size and LAST from the encoded argument |
| `Bdat.FrameRoundTrip` | internal/smtpwire/bdat.go:96-126 | a frame is read back as its chunk and mark, the rest unread |
| `Bdat.ChunksPartition` | smtpclient/ext_a_transport.go:177-222 | all chunks but the last are full and their concatenation is the content |
| `Bdat.SendContent` | smtpclient/ext_a_transport.go:177-222 | the chunk loop emits those chunks with exactly one LAST |
| `Bdat.ContentRoundTrip` | internal/smtpwire/bdat.go:44-126 | reading the emitted frames gives the content and stops before the suffix |
| `Bdat.CopyChunk` | internal/smtpwire/bdat.go:72-126 | exactly the announced octets are taken even when storage fails; on success the spool grew by them, no other spool of the session changed, and without faults and with room it succeeds |
| `Bdat.StorePiece` | smtpserver/spool.go:122-139 | the first storage failure is remembered and later octets are not stored |
| `Bdat.DiscardChunk` | smtpserver/cmd_data.go:98-120 | the announced octets are taken and thrown away |
| `Bdat.Relay` | smtpserver/cmd_data.go:84-146 | from the client's reader to the backend's, with other sessions acting in between: the spool holds exactly the content and the backend reads the trace header followed by it, however the spool spilled |
| `DataCall.SizeEnforcingReader.Read` | smtpserver/cmd_data.go:24-48 | keeps that everything read was passed on and fits, or that the content is longer than the limit and exactly the limit was passed on before the report |
| `DataCall.ReadFacts` | smtpserver/cmd_data.go:24-48 | a read passes on at most what was asked for, reports too-large exactly at the crossing, and sees the end only when nothing is left |
| `DataCall.TrackedReader.Read` | smtpserver/data.go:14-25 | header then content, remembering exactly whether the end was seen |
| `DataCall.TrackedReader.Drain` | smtpserver/data.go:51-58 | copies until the end, the limit report or a fault, and says which |
| `DataCall.TrackedReader.Finish` | smtpserver/data.go:50-60 | reaches the end even when the limit is reported on the way, unless the stream breaks |
| `DataCall.ValidateOutcome` | smtpserver/data.go:82-121 | one result, or one per recipient in order, completed exactly when the backend kept its contract |
| `DataCall.Downgrade` | smtpserver/data.go:66-79 | a success claimed early becomes a 451, other results stay |
| `DataCall.HoldToContract` | smtpserver/data.go:63-80 | the exact evaluation: a temporary failure for a broken contract, otherwise what the backend returned, early successes turned into 451 |
| `DataCall.UniformResult` | smtpserver/data.go:131-151 | one refusing result, or one per recipient in order |
| `DataCall.EvaluateDataCall` | smtpserver/data.go:40-80 | for every sequence of backend reads: closes the connection exactly when the end was not reached; otherwise gives exactly the evaluation the contract leaves, accepted only if those reads themselves reached the end |
| `DataCall.HandleData` | smtpserver/cmd_data.go:50-82 | content over the limit is never accepted; within it the result is exactly what the contract leaves of the backend's answer; what is accepted was read whole by the backend; afterwards the connection is closed or the content was read to its end, except exactly when the stream breaks beyond the limit |
| `DataCall.BreaksBeyondLimitExactly` | smtpserver/cmd_data.go:24-82 | that case, on what the transport still does when the backend returns: the first fault comes after more octets than are allowed and before the end is shown; for a backend that reads nothing a condition on transport and limit alone |
| `DataCall.FaultFreeEnds` | smtpserver/data.go:48-62 | a stream without faults is always drained to its end, however little the backend reads |
| `DataCall.ContinuesUnsynchronised` | smtpserver/cmd_data.go:74-82 | a concrete oversize message and fault after which DATA neither closes the connection nor has seen the end of the content |
| `FinalStatus.FailedRead` | smtpclient/finalstatus.go:115-126 | a failed read of the SMTP final reply keeps the contract, unmarked only for a received 421 |
| `FinalStatus.StreamOutcome` | smtpclient/lmtp.go:24-71 | the LMTP replies received are an authoritative prefix, whatever the server decided for the rest |
| `FinalStatus.Client.ReadStream` | smtpclient/lmtp.go:24-71 | succeeds exactly when every reply came and no other; otherwise a marked error with exactly the replies before the first that could not be read, or with none when a surplus reply makes them unattributable |
| `FinalStatus.Client.ShareReply` | smtpclient/data.go:112-130 | 250 gives every recipient that status, any other reply is an authoritative refusal |
| `FinalStatus.Client.Data` | smtpclient/data.go:37-131 | the three-way contract, with exact conditions for completion and for a marked error and exactly the authoritative replies beside it; without the terminator no part of what was sent is read as a message |
| `FinalStatus.Client.Bdat` | smtpclient/ext_a_transport.go:160-222 | the three-way contract for chunked content, with exact conditions for completion and for a marked error and exactly the authoritative replies beside it |
| `FinalStatus.Client.LastReplies` | smtpclient/ext_a_transport.go:196-256 | the replies to BDAT LAST, single or per recipient: success, refusal or doubt fixed by them, with exactly the replies received before a failed read |
| `Pipeline.AfterFirst` | smtpclient/pipeline.go:76-131 | lock-step replies and state may be computed from the front, as a server does |
| `Pipeline.Wire.Send` | smtpclient/pipeline.go:153-173 | a write is allowed only within depth, size and sync-point bounds, and adds one reply to those due |
| `Pipeline.Wire.Receive` | smtpclient/pipeline.go:182-212 | the next reply read is the oldest one due, whenever the server gets to it |
| `Pipeline.ValidateGroup` | smtpclient/pipeline.go:133-143 | a group is valid exactly when only its last command is a sync point |
| `Pipeline.MeasureCommand` | smtpclient/pipeline.go:145-151 | the loop computes the length the bounds are stated with |
| `Pipeline.FillWindow` | smtpclient/pipeline.go:88-117 | each window makes progress and keeps every bound |
| `Pipeline.ReadWindow` | smtpclient/pipeline.go:118-127 | the window's replies are read in issue order |
| `Pipeline.ExecuteLocked` | smtpclient/pipeline.go:76-131 | success gives the replies and server state of a lock-step client with nothing outstanding and no 421; every failure is the one determined by the commands, the interference and the lock-step replies |
| `Pipeline.FairSucceeds` | smtpclient/pipeline.go:88-131 | a group without interference, 421 and oversize commands succeeds |
| `Pipeline.SafeExactlyWhenAlone` | smtpclient/pipeline.go:101-127 | for all interference and replies a group says when the fate of a completing command is unknown, if and only if each completing command has its window to itself and no oversize command stands in that window's way |
| `Pipeline.SingleIsSafe` | smtpclient/ext_b_burl.go:108-112 | a completing command sent on its own is always safe |
| `Pipeline.Burl` | smtpclient/ext_b_burl.go:35-113 | the three-way contract for BURL LAST through the pipeline: completion, doubt and the error are fixed by the call, the interference and the server's reply; BURL without LAST leaves the transaction open |
| `Pipeline.CollectRcpt` | smtpclient/rcpt.go:124-140 | one result per recipient in order, keeping exactly those answered 250 or 251 |
| `Pipeline.RcptBatch` | smtpclient/rcpt.go:69-147 | succeeds exactly for a valid batch in a transaction on an open connection whose group succeeds; then the accepted recipients are appended in input order, otherwise none are |
| `SaslCrypto.XorTwice` | internal/smtpsasl/sasl.go:257-263 | xor with the same octets twice gives the original |
| `SaslCrypto.XorInto` | internal/smtpsasl/sasl.go:241-243 | the in-place loop computes the octet-wise xor |
| `SaslCrypto.DeriveKey` | internal/smtpsasl/sasl.go:232-246 | the loop computes Hi(), the xor of the HMAC chain (section 2.2 of RFC 5802) |
| `Scram.NameRoundTrip` | internal/smtpsasl/responder.go:544-565 | decoding an escaped name gives the name, and escapes leave no comma |
| `Scram.DecodeSaslName` | internal/smtpsasl/responder.go:544-565 | the index loop decodes exactly the specified names |
| `Scram.ParseFields` | internal/smtpsasl/sasl.go:223-231 | the lenient map holds the last value of each well-formed field |
| `Scram.ParseScramFields` | internal/smtpsasl/responder.go:529-542 | succeeds exactly for well-formed fields without repeated names |
| `Scram.ClientFirstRoundTrip` | internal/smtpsasl/responder.go:416-469 | the responder recovers user name, nonce and header from the client-first-message |
| `Scram.ServerFirstRoundTrip` | internal/smtpsasl/sasl.go:194-208 | the client recovers nonce, salt and iteration count from the server-first-message |
| `ScramProof.SplitProofIsUnique` | internal/smtpsasl/responder.go:493-497 | there is one way to split off a comma-free proof, and the responder finds it |
| `ScramProof.JudgeIsExact` | internal/smtpsasl/responder.go:491-527 | a proof is accepted exactly when nonce and channel data match and H(proof xor HMAC(StoredKey, AuthMessage)) is StoredKey |
| `ScramProof.HonestProof` | internal/smtpsasl/sasl.go:194-222 | a client that knows the password is accepted and gets the signature it expects |
| `SaslResponder.StartAdvances` | internal/smtpsasl/responder.go:159-218 | starting gives exactly one of challenge, verification or end and lowers the rank |
| `SaslResponder.ResponseAdvances` | internal/smtpsasl/responder.go:221-270 | so does every response, and only the closing SCRAM round trip ends in acceptance |
| `SaslResponder.ContinueAdvances` | internal/smtpsasl/responder.go:273-297 | so does every backend answer, and a SCRAM lookup alone is never an acceptance |
| `SaslResponder.OnlyProofReachesEnd` | internal/smtpsasl/responder.go:491-527 | the closing SCRAM round trip is reached only by an authentic proof |
| `SaslResponder.RequestsComeFromClient` | internal/smtpsasl/responder.go:159-270 | what the backend is asked was made of the payload the client just sent, for LOGIN with a user name it said before, for CRAM-MD5 with the challenge it was sent |
| `SaslResponder.StartComesFromClient` | internal/smtpsasl/responder.go:159-218 | the same for an initial response |
| `SaslResponder.Responder.Start` | internal/smtpsasl/responder.go:159-218 | updates the conversation as specified and keeps its invariant |
| `SaslResponder.Responder.Next` | internal/smtpsasl/responder.go:221-270 | updates the conversation as specified; acceptance implies a key proved by a response received |
| `SaslResponder.Responder.Continue` | internal/smtpsasl/responder.go:273-297 | updates the conversation as specified; acceptance implies the backend's |
| `ScramExchange.ScramClient.Next` | internal/smtpsasl/sasl.go:179-222 | answers the offer with its proof, then accepts exactly the expected signature |
| `ScramExchange.MutualAcceptance` | internal/smtpsasl/sasl.go:162-222 | with matching keys the first message makes the responder ask for them, the client reads the offer as meant, its proof is answered with the very signature it looks for, and its last message ends in acceptance |
| `ScramExchange.Authenticate` | internal/smtpsasl/sasl.go:162-222 | the same run on the two objects: both accept, and the responder ends with the backend's keys and the client's own proof, for all inputs that fit the payload limit, with or without an initial response |
| `SaslCredentials.PlainRoundTrip` | internal/smtpsasl/responder.go:299-306 | the responder extracts the three PLAIN values the client sent |
| `SaslCredentials.OAuthBearerRoundTrip` | internal/smtpsasl/responder.go:327-360 | the responder extracts authorization identity and token of OAUTHBEARER |
| `SaslCredentials.XOAuth2RoundTrip` | internal/smtpsasl/responder.go:362-380 | the responder extracts user and token of XOAUTH2 |
| `Authentication.FinalizeAuthentication` | smtpserver/authentication.go:13-34 | CommitAuth runs exactly for a result without failure on a backend that can commit |
| `Authentication.HandleAuth` | smtpserver/cmd_auth.go:45-118 | the loop ends, and in acceptance exactly when the client's messages and the backend's answers lead there; the backend is asked at most once; CommitAuth runs at most once and exactly on an accepted end; then the backend accepted a question made of what the client said and, for SCRAM, a client response opens the very key the backend answered with |
| `Authentication.DirectConvinces` | smtpserver/cmd_auth.go:45-118 | an initial response that settles the mechanism is accepted when the backend accepts the question it makes |
| `Authentication.HonestConvinces` | smtpserver/cmd_auth.go:45-118 | a SCRAM client that knows the password is accepted when the backend answers with its keys |
| `Authentication.ExecuteAuth` | smtpserver/cmd_auth.go:14-118 | a session becomes authenticated exactly when the client convinces and the backend can commit, by a commit that precedes the change of state, and only on such a grant |
| `ConnectionRegistry.FromAdded` | smtpserver/connections.go:62-63 | registering raises the count of its source by one and of no other |
| `ConnectionRegistry.ConnectionRegistry.Register` | smtpserver/connections.go:53-66 | admitted exactly when accepting, below both limits and not already active |
| `ConnectionRegistry.ConnectionRegistry.Unregister` | smtpserver/connections.go:68-83 | removes the connection and its count; repeated calls change nothing |
| `ConnectionRegistry.ConnectionRegistry.Shutdown` | smtpserver/connections.go:138-148 | stops admission and cancels every active connection |
| `ConnectionRegistry.Replay` | smtpserver/connections.go:53-162 | for every sequence of calls: counts by source exact and never zero, limits kept, the wait count zero exactly when nobody is left, nothing admitted after shutdown |

## Left out

- The contents of the Unicode and stringprep tables: the normalisation results assume what `UnicodeTables.Expands` says, which `TableGenerator` derives from an acyclic, Hangul-free one-level mapping; the SASLprep result assumes that the tables introduce no Table B.1 character.
- UTF-8 decoding and validation: strings are sequences of code points, so the invalid UTF-8 error of SASLprep and the replacement of bad octets do not appear.
- Hash, HMAC and base64 are parameters with the laws of `SaslCrypto.Crypto.Sound`; constant-time comparison is equality; `SaslCrypto.SoundExists` shows that the laws can be met; the base64 layer of AUTH lines and channel-binding export are inputs.
- Sockets, deadlines, TLS handshakes, tracing, error texts and context watchers: each is a success, failure or cancellation chosen by the environment.
- Domain and local-part validation, address literals and UTF-8 rune classes in paths are parameters of `Paths`.
- The Received header text, reply texts and enhanced codes of backend results: results carry recipient and code.
- VRFY, EXPN, HELP, NOOP, ETRN, ATRN and capability lists: one-branch handlers, present in `Session` only as commands without transaction effect.
- The spool's temporary file is an octet sequence with short writes and spill failures; `Reader` after writing has ended is the content itself.
- Parameters and arguments of MAIL and RCPT beyond size, encoding flags and policy are decided by the environment in `Session`; their codecs are in `Params` and `Paths`.
- Pipeline.ExecuteLocked: says nothing about replies outstanding after a failed group, because a context found done before a write leaves them unread on an open connection.
- Pipeline.ValidateGroup: verbs are values of a datatype in upper case, so the case folding of the source does not appear.
- Pipeline.Burl: the checks of the URL's octets and of the advertised extension are one input, because they touch nothing else.
- DotStuffing.DotStuffWriter.Write: a writer whose underlying writer has failed is not written to again, because its only caller then closes the connection.
- Spool.OthersAct: other sessions run their critical sections between the writes of the session that is followed, not inside one; inside, no section of theirs touches its spool.
- FinalStatus.Client.Data: does not say which state the connection is left in after an error, because a context found done just before the final read leaves it open.
- Session.Serve: SMTP and LMTP differ only in the greeting verbs; per-recipient LMTP results are in `DataCall`.
- Authentication.HandleAuth: the choice among advertised mechanisms is made before it; the JSON of an OAuth failure is an input.
- ConnectionRegistry.ConnectionRegistry.Shutdown: the wait for handlers and the forced close after a timeout are left to the caller.
