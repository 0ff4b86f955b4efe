# munnel, verified in Dafny

munnel publishes a local web server under a public subdomain. A client keeps one
control connection to a server; after a one-line handshake that connection
carries a multiplexer, and every public request becomes a stream on it. This
project models the parts of munnel where interleavings, buffers and file formats
make correctness hard to see, and proves what they guarantee.

**The multiplexer** (`internal/mux`). `MuxStream` and `MuxSession` give every
critical section, atomic load or store, channel operation and frame write of a
stream and its session as one step; `MuxWorld` joins two endpoints by two FIFO
pipes and lets any step of either happen next. `MuxInvariant` states the
invariant on one stream's view of its endpoint, `MuxSteps` and `MuxEndpoint`
prove that each step keeps it, and `MuxTheorems`, `MuxShutdown` and `MuxDrain`
draw the consequences for whole runs; `MuxCalls` says what the calls come to when
nothing is in their way. `MuxObjects` holds the stream and the session as
objects updated in place, each call tied to the steps of the protocol model it
performs. `MuxBytes`, `FrameCodec` and `Handshake` take the frames down to bytes,
from the first line of a connection on. `Liveness` is the idle watchdog and the
staleness probe against a clock.

**Tunnel registration and the public gate** (`internal/server`,
`internal/forwardauth`, `internal/token`). `Auth` and `AuthConfig` decide who may
hold which name, over the signed strings of `Sealed`, `Token` and `ForwardAuth`.
`Registry` is the name table as an object. `Tunnel` is the whole server as a state
machine: any number of connection handlers and public requests, each a program
counter, stepping over one registry; `TunnelTheorems` says what holds in every run.

**Files and caches.** `CertFile` is the certificate cache over two files that
change under it, `Config` and `ConfigLaws` the rewriter of the client's config file
against its parser, `Store` the inspector's ring buffer against a plain log.

Five promises turn out to need a condition, and each has its exact one:

- A held name need not be a valid subdomain: the scope of a signed token is taken
  as minted, and the operator's `mint --sub` does not validate it
  (`cmd/server/main.go`, line 239). `TunnelTheorems.HeldNameIsValid` says exactly
  when a held name is valid, `TunnelTheorems.InvalidNameCanBeHeld` shows a run
  where it is not.
- A rewritten config file does not always read as the old one with the new token:
  the parser's scanner stops at a line of 64 KiB, which may hide the new token or
  may have hidden settings behind the old one. `ConfigLaws.RewriteSetsToken` and
  `ConfigLaws.RewriteChangesOnlyToken` give the exact conditions for every file,
  `ConfigLaws.LongCommentHidesToken` and `ConfigLaws.LongTokenHidSettings` the
  failing ones.
- A token whose expiry falls on second zero of Unix time never expires, because
  the claims use zero for "never". It takes a clock at or before the first second
  of 1970; `Token.LifetimeExact` has the exact lifetime, and
  `Token.ZeroExpiryNeverExpires` the case.
- Building the authenticator can crash: a line of the reserved names that holds
  only separators has no first field. `AuthConfig.ParseReserved` and
  `AuthConfig.NewAuthenticator` say exactly when, `AuthConfig.SeparatorsCrash` is
  such an input.
- Not every frame that is sent can be read: `OpenStream` does not bound its
  metadata, and a frame of more than 1 MiB ends its reader.
  `MuxBytes.AllArriveIffOpensFit` is the exact condition, `MuxBytes.BytePipe` what
  arrives in any case, `MuxBytes.LongMetadataEndsReader` a failing run.

Hypotheses, stated where they are used: stream ids are fresh (they are unbounded
numbers in the interleaved model); JSON decoding undoes encoding and JSON output has no raw newline; a
file that shows the same modification time and size twice has not changed in
between; watchdog ticks are prompt; one instant of the clock per handshake.

Check everything with `dafny verify dfyconfig.toml`.

## Model

| member | source | states |
|---|---|---|
| MuxTheorems.Delivery | internal/mux/stream.go:79-221 | in every run, the bytes read from a stream are a prefix of the DATA its peer framed for that id, and those are the peer's Writes one after the other, never mixed, whatever the chunking and the read sizes |
| MuxTheorems.EofIsComplete | internal/mux/stream.go:136-174 | a Read that returned io.EOF has returned every byte the peer sent, and the peer sent exactly one CLOSE |
| MuxTheorems.EofIsFinal | internal/mux/stream.go:136-174 | after io.EOF, in any continuation, Read returns nothing else, no byte is added to what was read and the peer sends no more DATA |
| MuxTheorems.DataFinal | internal/mux/stream.go:178-243 | once a CLOSE is on the wire the stream's data never grows again |
| MuxTheorems.Permanent | internal/mux/stream.go:95-106 | the recorded end and its cause, the bytes read, the results returned, the abort signal and the session's first close error are never taken back in any continuation |
| MuxTheorems.CauseIsTrue | internal/mux/stream.go:147-162 | each terminal result of Read is the one its recorded cause calls for, EOF only after the peer's CLOSE, a session end only after the session closed, a reset only after a reset; Aborted never after a graceful close |
| MuxTheorems.GrammarHolds | internal/mux/stream.go:178-277 | the frames one side emits for a stream have at most one CLOSE, at most one RESET, no DATA after CLOSE and at most one DATA after RESET |
| MuxTheorems.RegisteredUntilTerminal | internal/mux/session.go:178-193 | a handed-out stream whose read side is not terminal is in the table |
| MuxTheorems.DoneMeansTerminal | internal/mux/session.go:389-408 | when the session's done channel closes, every handed-out stream is already terminal |
| MuxTheorems.DoneMeansAborted | internal/mux/session.go:389-408 | and every stream still registered has been told: its abort is signalled |
| MuxTheorems.ResetMeansAborted | internal/mux/stream.go:121-128 | in every run, a stream reset by either side, with no Abort or inbound RESET still at work on it, is over for reads and has its abort signalled |
| MuxTheorems.NoReaderLeftAsleep | internal/mux/stream.go:165-172 | a blocked reader's stream is either still registered, and on a closed session still on shutdown's list, or whoever ended it can step now and that step wakes the reader |
| MuxShutdown.ShutdownFinishes | internal/mux/session.go:389-408 | from every reachable closed state, shutdown's own steps alone close done, and every handed-out stream is terminal by then |
| MuxShutdown.ShutdownIsBounded | internal/mux/session.go:389-408 | in every run, whatever else is scheduled, a closed session's done is closed with every handed-out stream terminal, or shutdown has taken fewer steps than three for each stream on its list and three more, and has one to take now |
| MuxShutdown.EveryReaderWakes | internal/mux/session.go:389-408 | and with the steps of goroutines that were just ending a stream themselves, the eofCh of every handed-out stream is closed |
| MuxCalls.AwakeReaderReturns | internal/mux/stream.go:136-174 | and a reader woken on an empty stream comes back, by its own steps, with the result of the recorded cause |
| MuxCalls.EndsAre | internal/mux/stream.go:155-162 | io.EOF for the peer's CLOSE, io.ErrUnexpectedEOF for the session's end, the reset error for a reset |
| MuxCalls.OpenSucceeds | internal/mux/session.go:178-193 | on an open session OpenStream's steps register a fresh stream and put its OPEN on the wire |
| MuxCalls.OpenFails | internal/mux/session.go:178-193 | on a closed session, or if the OPEN fails, nothing stays registered |
| MuxCalls.OpenIsTaken | internal/mux/session.go:259-270 | an inbound OPEN registers a fresh stream unless the session is closed |
| MuxCalls.PingIsAnswered | internal/mux/session.go:290-297 | a PING is answered with a PONG of its own payload, when no other answer is pending |
| MuxCalls.PongsEcho | internal/mux/session.go:353-356 | in every run, every PONG carries the payload of a PING received before |
| MuxTheorems.BothClosedMeansRemoved | internal/mux/stream.go:226-243 | whichever way CloseWrite and the inbound CLOSE interleave, once both are over the stream is out of the table |
| MuxTheorems.IdsFresh | internal/mux/session.go:178-193 | no run hands out, or receives an OPEN for, an id that already names a stream |
| MuxWorld.Always | internal/mux/session.go:178-408 | the invariant of both endpoints holds in every reachable state |
| MuxDrain.NoLeakedStream | internal/mux/stream.go:110-128 | with every frame delivered, a stream half-closed by both, those calls over, or aborted by either, that call over and none on the other side still to unregister it, is in neither table |
| MuxDrain.DeliveryShrinks | internal/mux/session.go:248-304 | delivering sends no frame and strictly shortens what is in flight |
| MuxDrain.ResetIsNotAnswered | internal/mux/stream.go:120-128 | once a stream is reset and no Abort is at work on it, that side never sends another RESET for it in any continuation |
| MuxDrain.CanDeliver | internal/mux/session.go:248-304 | with a reader at work, one endpoint's delivery steps alone bring in every frame in flight, if they are of a length the read loop accepts, and change nothing its senders said |
| MuxDrain.OversizeIsNeverTaken | internal/mux/frame.go:106-109 | and only then: a longer frame in flight is never taken in any continuation |
| MuxDrain.BothDeliver | internal/mux/session.go:248-304 | both directions can be drained one after the other |
| MuxDrain.DrainReaches | internal/mux/stream.go:258-277 | from every reachable state with such a stream and acceptable frames in flight, delivering those, and nothing else, takes it out of both tables |
| MuxBytes.PayloadsFit | internal/mux/session.go:318-328 | in every run, every frame either side sends, echoed PONGs included, has a payload of at most 1 MiB, unless it is an OPEN |
| MuxBytes.IdsFit | internal/mux/session.go:178-193 | in every run in which each side opens fewer than 2^31 streams, every id on the wire fits its four bytes |
| MuxBytes.BytesGrow | internal/mux/frame.go:70-89 | the bytes on a socket at one moment of a run are a prefix of those at any later one |
| MuxBytes.BytePipe | internal/mux/frame.go:70-118 | at any moment of such a run, however many of a side's bytes have arrived, its peer's reader makes of them a prefix of the frames that side sent up to the first oversize one; all of those, then the refusal of that one, once all bytes are there; and the same however the run goes on |
| MuxBytes.TornTail | internal/mux/frame.go:70-89 | after a failed write in any run, whatever part of the failed frame is on the socket, nothing is sent any more, and the peer's reader gets the same frames as without that part, then the error of the cut or an earlier refusal |
| MuxBytes.AllArriveIffOpensFit | internal/mux/frame.go:106-109 | all frames sent can be read exactly when every OPEN's metadata is at most 1 MiB |
| MuxBytes.LongMetadataEndsReader | internal/mux/session.go:178-193 | a run in which longer metadata is sent and its reader ends |
| MuxBytes.TakenBeforeOversize | internal/mux/session.go:248-256 | in every run, a read loop never gets past the first oversize frame |
| MuxBytes.ChunksFit | internal/mux/stream.go:201-219 | in every run each DATA frame carries between 1 byte and 1 MiB |
| MuxBytes.TypeBytes | internal/mux/frame.go:29-36 | the type byte of each kind of frame, and that no other byte is one |
| MuxObjects.Session.OpenStream | internal/mux/session.go:178-193 | a stream is returned, fresh and registered, exactly when its OPEN went out; ids wrap at 32 bits, and an entry still filed under the id is replaced, or removed if the OPEN fails |
| MuxObjects.Session.WriteFrame | internal/mux/session.go:318-328 | a closed session writes nothing; otherwise the frame goes out whole or the write fails |
| MuxObjects.Session.Shutdown | internal/mux/session.go:389-408 | only the first close counts; it then leaves every registered stream over, aborted and its eofCh closed, with the session's end as cause unless it had one, and what it had read or buffered untouched |
| MuxObjects.ShutEndsRuns | internal/mux/session.go:398-406 | what shutdown does to one stream equals the model's own shutdown steps on it |
| MuxObjects.Session.SendPong | internal/mux/session.go:353-356 | the pending PING's payload goes out as a PONG |
| MuxObjects.Session.Dispatch | internal/mux/session.go:257-299 | what each kind of frame does to the table and its stream, an OPEN that replaces an entry included, that a PING's payload is kept for the answer unless one is pending, and that every other stream is left alone |
| MuxObjects.Stream.EndReads | internal/mux/stream.go:95-106 | only the first cause is recorded |
| MuxObjects.Stream.PushData | internal/mux/stream.go:79-91 | appended to the 16 chunks if there is room and reads are not over, otherwise dropped or would block, exactly as a run of the model's push steps |
| MuxObjects.Stream.RemoteClose | internal/mux/stream.go:110-118 | equals a run of the model's inbound CLOSE; unregisters exactly if this side had closed |
| MuxObjects.Stream.RemoteReset | internal/mux/stream.go:121-128 | both directions over and aborted, an earlier cause kept, the stream unregistered; equals a run of the model's inbound RESET |
| MuxObjects.Stream.Read | internal/mux/stream.go:136-174 | no byte is lost or reordered; an end is reported only when everything buffered is out, and is the one its cause calls for; it waits exactly when nothing is buffered and the stream is not over; the call equals a run of the model's Read steps |
| MuxObjects.Stream.Write | internal/mux/stream.go:178-221 | the frames on the wire are the chunks of the bytes it reports written, all of them on success, and the call equals a run of the model's Write steps |
| MuxObjects.Stream.SendChunks | internal/mux/stream.go:201-220 | the chunk loop stops only at a failed frame, on a chunk boundary |
| MuxObjects.Stream.CloseWrite | internal/mux/stream.go:226-243 | at most one CLOSE; unregisters exactly when the peer is done; equals a run of the model's CloseWrite steps |
| MuxObjects.Stream.Abort | internal/mux/stream.go:258-277 | ends and aborts both directions once, with a RESET unless both sides had finished or the write fails; equals a run of the model's Abort steps |
| MuxObjects.ChunksCarry | internal/mux/stream.go:201-219 | the payloads of a Write's frames, joined, are its buffer |
| FrameCodec.DecodeEncode | internal/mux/frame.go:70-118 | a frame up to 1 MiB comes back exactly and nothing behind it is consumed |
| FrameCodec.OversizeRefused | internal/mux/frame.go:106-109 | a longer frame is refused whatever follows |
| FrameCodec.CutIsError | internal/mux/frame.go:99-118 | a frame cut anywhere is an error, never a shorter frame |
| FrameCodec.CutErrors | internal/mux/frame.go:99-118 | which error: io.EOF before the header's or the payload's first byte, io.ErrUnexpectedEOF within either |
| FrameCodec.HeaderLayout | internal/mux/frame.go:91-95 | type, id and length, nine bytes |
| FrameCodec.BigEndianBytes | internal/mux/frame.go:91-95 | the four bytes of a number, most significant first |
| FrameCodec.StreamRoundTrip | internal/mux/frame.go:70-118 | any sequence of frames round-trips, and a stream ending inside a frame loses only that frame |
| FrameCodec.ArrivedFrames | internal/mux/frame.go:99-118 | any number of arrived bytes decodes to a prefix of the frames sent, all of them once all bytes are there |
| FrameCodec.OversizeEnds | internal/mux/frame.go:99-118 | frames before an oversize one come out, then its refusal, whatever follows |
| FrameCodec.PutHeader | internal/mux/frame.go:91-95 | writes the nine header bytes and no others |
| FrameCodec.WriteFrame | internal/mux/frame.go:70-89 | one write or two put the same bytes on the socket; a failing socket keeps a prefix |
| Handshake.LineRoundTrip | internal/proto/message.go:63-88 | exactly the messages that fit the buffer come back, and the bytes after the newline are left |
| Handshake.NoLine | internal/proto/message.go:79-88 | bytes without a newline are never a message: too long from 4096 on, cut below |
| Handshake.Reader.ReadLine | internal/proto/message.go:79-88 | under any fragmentation, reads exactly the first line or reports why not |
| Handshake.Reader.ReadFull | internal/mux/frame.go:99-118 | exactly n bytes or the error for what came |
| Handshake.Reader.ReadFrame | internal/mux/frame.go:99-118 | agrees with decoding all remaining bytes at once |
| Handshake.Reader.ReadFrames | internal/mux/session.go:248-256 | the frame supply of the read loop is the decoding of the whole stream |
| Handshake.AcceptAndPump | internal/server/control.go:280-319 | after a handshake line that fits, under any fragmentation, the mux decodes exactly the frames sent |
| Liveness.StallIsNotSilence | internal/mux/session.go:368-387 | when the watchdog closes a session, no byte has arrived and the loop has not been inside pushData for more than the idle time |
| Liveness.StallIsNotStale | internal/mux/session.go:143-149 | a session found stale has had no byte, and its loop has not been inside pushData, for more than one and a half ping intervals |
| Liveness.HeardIsNotClosed | internal/mux/session.go:368-387 | a peer heard from in every idle window is never closed for idleness |
| Liveness.HeardIsNotStale | internal/mux/session.go:143-149 | a peer heard from within one and a half ping intervals is not found stale |
| Liveness.SilentIsStale | internal/mux/session.go:143-149 | an unstalled session silent for more than one and a half ping intervals is found stale by a probe |
| Liveness.ProbeLooks | internal/mux/session.go:143-149 | a probe of an unstalled session can go on to look at the clock; one of a stalled session answers at once, not stale |
| Liveness.StaleExactly | internal/mux/session.go:143-149 | the answer is exactly whether the last mark is longer ago than that |
| Liveness.IdleExactly | internal/mux/session.go:368-387 | the watchdog closes exactly on more than the idle time since the last mark, never while stalled |
| Liveness.HeardCounts | internal/mux/session.go:121-141 | the mark is set by arriving bytes and by the end of a stall, to that moment, and by nothing else |
| Liveness.SilentIsClosed | internal/mux/session.go:368-387 | an unstalled session silent since T is closed by T + idle + max(idle/4, 1 ms) |
| Sealed.DecodeEncode | internal/token/token.go:172-178 | base64url decoding undoes encoding, and no encoding contains a dot |
| Sealed.OpenSeal | internal/token/token.go:95-124 | splitting a signed string gives back its payload and mac |
| Sealed.SealText | internal/token/token.go:75-94 | a signed string is the prefix, the payload and the mac in base64url, with a dot between |
| Sealed.OpensExactly | internal/token/token.go:99-124 | and opens exactly when it is a prefix, an encoding, a dot and an encoding, cut at the first dot, both of which decode |
| Sealed.DigitTable | internal/token/token.go:172-178 | the alphabet of base64url (section 5 of RFC 4648) |
| Sealed.VectorThree | internal/token/token.go:172-178 | the unpadded test vectors of section 10 of RFC 4648, here of foo |
| Sealed.BreaksAreSkipped | internal/token/token.go:172-178 | line breaks inside an encoding do not matter |
| Sealed.BadCharacter | internal/token/token.go:172-178 | any other character outside the alphabet, padding included, makes it malformed |
| Token.MintParse | internal/token/token.go:75-131 | a minted token parses to exactly its claims until it expires, and its id can be read without the key |
| Token.LifetimeExact | internal/token/token.go:85-130 | the exact seconds a token is good for |
| Token.ZeroExpiryNeverExpires | internal/token/token.go:85-87 | minted one second before 1970 for one second, a token is good for ever |
| Token.IdOfAgrees | internal/token/token.go:138-156 | IDOf agrees with Parse whenever Parse succeeds |
| Token.AcceptedIsSigned | internal/token/token.go:99-131 | an accepted token carries the key's own mac over the claims it was accepted for |
| Token.MintedText | internal/token/token.go:75-94 | the text of a minted token: m1, a dot, its claims, a dot, their mac |
| Token.MintedClaims | internal/token/token.go:75-87 | the claims asked for, expiring after the lifetime or never |
| Token.LifetimeInNanoseconds | internal/token/token.go:85-130 | good exactly until the last nanosecond of the second its lifetime ends in |
| Token.RefusedFor | internal/token/token.go:99-131 | a wrong mac is a bad signature, claims that do not decode or have no id are malformed |
| ForwardAuth.SignVerify | internal/forwardauth/forwardauth.go:170-207 | a session cookie verifies to its own session until it expires and never after |
| ForwardAuth.KindsAreDisjoint | internal/forwardauth/forwardauth.go:179-207 | a tunnel token never passes as a session cookie |
| ForwardAuth.SignedText | internal/forwardauth/forwardauth.go:170-177 | the text of a cookie and the second it expires in |
| ForwardAuth.VerifiedIsSigned | internal/forwardauth/forwardauth.go:179-207 | a cookie that verifies carries the key's own mac over its session and has not expired |
| ForwardAuth.GateIdentity | internal/server/proxy.go:97-107 | whatever identity headers a viewer sends, exactly the verified session's identity passes a protected tunnel's gate, none passes an unprotected one, other headers are unchanged |
| ForwardAuth.GateHeaders | internal/server/proxy.go:97-107 | past the gate every header but the two identity headers is as the viewer sent it; on a protected tunnel those two are the verified session's user and its groups, if any, joined by commas, on any other tunnel absent |
| ForwardAuth.JoinParts | internal/forwardauth/forwardauth.go:95-97 | groups are joined by commas, one by itself is as it is |
| ForwardAuth.StripsTwo | internal/forwardauth/forwardauth.go:165-168 | for every other name, present as before with the same value; the two are absent |
| ForwardAuth.Request.StripIdentity | internal/forwardauth/forwardauth.go:165-168 | both identity headers are gone, every other header is as it was |
| ForwardAuth.Request.Authorize | internal/forwardauth/forwardauth.go:90-104 | succeeds exactly on a verified cookie and then sets exactly that session's headers |
| ForwardAuth.Request.Admit | internal/server/proxy.go:97-107 | strip, then authorize: equals the gate, and no header but the two identity headers changes |
| Auth.AdmittedIsEntitled | internal/server/control.go:291-322 | a handshake that passes every check is entitled to the name it asked for; a protected tunnel needs a provider |
| Auth.AdmittedIffAcceptable | internal/server/control.go:291-322 | a handshake is admitted exactly when its token is accepted, its name is valid or its token's own, a reserved name is asked for by a listed id over TLS, and a protected tunnel has a provider; and what is admitted: the name, token id and protection |
| Auth.RequestedNameIsKept | internal/server/control.go:295-298 | an admitted handshake without a scope that asks for a valid name gets exactly that name |
| Auth.RequestIsNormalized | internal/proto/message.go:95-98 | in general the name asked for, without white space around it and in lower case |
| Auth.BlankIsGenerated | internal/server/control.go:324-336 | a blank request without a scope leaves the name to the server |
| Auth.ScopeIsKept | internal/server/control.go:296-298 | with a scope the name is the scope, whatever was asked for |
| Auth.TlsIsAskedFor | internal/server/control.go:302-308 | the answer "needs TLS" is given exactly to those who would be admitted over TLS, a missing provider apart, and whose name is reserved |
| Auth.ValidSubdomainLength | internal/proto/message.go:90-93 | 1 to 63 characters, and any such run of lower-case letters and digits is one |
| Auth.ValidSubdomainChars | internal/proto/message.go:90-93 | lower-case letters, digits and hyphens only |
| Auth.ValidSubdomainHyphen | internal/proto/message.go:90-93 | a hyphen anywhere but at the start, and never there |
| Auth.GeneratedIsEntitled | internal/server/control.go:327-336 | a handshake without a name is entitled to any unreserved one |
| Auth.NameIsValid | internal/server/auth.go:318-349 | an admitted name is a valid subdomain exactly unless a signed token's own scope is not |
| Auth.RandomSubdomain | internal/server/control.go:417-428 | six base-36 digits of the random number, always a valid subdomain |
| Auth.DigitsReadBack | internal/server/control.go:417-428 | reading the digits gives back the number below 36 to the number of digits, so different numbers make different names |
| AuthConfig.ParseReserved | internal/server/auth.go:272-303 | holds exactly the listed pairs if every line fits the scanner and is a comment or an entry; otherwise the first line that is not decides between an error and, for a line of separators only, the crash on its missing field |
| AuthConfig.LineLists | internal/server/auth.go:279-301 | a name, a separator and an id list that id for that name and nothing else |
| AuthConfig.FieldsPart | internal/server/auth.go:279-279 | a separator parts the fields before it from those after it |
| AuthConfig.FieldsOfOne | internal/server/auth.go:279-279 | and what has no separator is one field, so fields are the maximal runs between separators |
| AuthConfig.AsciiSeparators | internal/server/auth.go:279-279 | commas, equals signs and white space |
| AuthConfig.CommentLines | internal/server/auth.go:275-278 | blank lines and those that begin with # after white space |
| AuthConfig.SeparatorsCrash | internal/server/auth.go:279-280 | an input that crashes: a comma |
| AuthConfig.LoadRevoked | internal/server/auth.go:354-373 | exactly the listed ids, or the error of a line too long for the scanner |
| AuthConfig.RevokedLine | internal/server/auth.go:362-368 | a line revokes the id it holds, white space around it apart, and no other |
| AuthConfig.AddAuthFile | internal/server/auth.go:86-103 | every token bound to its normalized name, or some name is invalid |
| AuthConfig.TokenGiven | internal/server/auth.go:79-85 | a listed token is taken without the white space around it |
| AuthConfig.NewAuthenticator | internal/server/auth.go:71-143 | exactly when it builds, fails and crashes, unreadable files included; what it builds is well formed and holds exactly what the options list |
| AuthConfig.WithEntries | internal/server/auth.go:111-142 | the reserved names are added exactly when they are well made, there is a key to sign with and no static token clashes |
| Registry.Client.MarkReady | internal/server/registry.go:29-29 | however often it is called, the ready channel is closed, and closed once |
| Registry.Clients.Register | internal/server/registry.go:76-102 | granted exactly when the name is free, or held by a stale session with the same non-empty token id, which is then the one evicted; the table gets that entry and nothing else changes |
| Registry.ClaimCases | internal/server/registry.go:76-84 | a free name is granted to anybody, a held one to its stale holder's own non-empty token id, and refused in every other case |
| Registry.Clients.Unregister | internal/server/registry.go:106-118 | the name goes if this session holds it; otherwise the table is as it was |
| Registry.Clients.Get | internal/server/registry.go:121-125 | the client filed under the name |
| Tunnel.Always | internal/server/control.go:276-383 | the registry, handler and request invariant holds in every reachable state |
| TunnelTheorems.HolderIsEntitled | internal/server/control.go:291-349 | every held name is held by a connection between register and unregister, under its own token id, that passed the checks: reserved names by a listed unrevoked id over TLS, scoped tokens at their scope, generated names valid and unreserved |
| TunnelTheorems.HeldNameIsRequested | internal/server/control.go:295-340 | a name held through a scoped token is its scope, one held without a scope by a handshake that asked for a valid name is that name |
| TunnelTheorems.HolderHasItsName | internal/server/control.go:324-340 | a name held by a handshake that was admitted with a name is that name |
| TunnelTheorems.ClaimGranted | internal/server/control.go:327-349 | an available name that need not be re-rolled is registered, a free one or the claimant's own stale one, and the loser known |
| TunnelTheorems.ClaimDenied | internal/server/control.go:327-349 | otherwise nothing is registered: a generated name is drawn again while tries are left, else the answer is no |
| TunnelTheorems.HundredTries | internal/server/control.go:329-329 | there are a hundred tries |
| TunnelTheorems.OneNameEach | internal/server/registry.go:76-118 | a connection holds at most one name, and holds it until it unregisters exactly if it was never evicted |
| TunnelTheorems.HowANameChanges | internal/server/registry.go:76-118 | a name changes only by its holder leaving, by a claim while free, or by a claim with the stale holder's own non-empty token id |
| TunnelTheorems.EvictedIsHarmless | internal/server/registry.go:104-118 | nothing an evicted connection does, its late unregister included, changes any name |
| TunnelTheorems.EvictedIsClosed | internal/server/control.go:355-358 | in every run, an evicted connection's session is closed or whoever took its name has that as its next step or the one after |
| TunnelTheorems.HeldNameIsValid | internal/server/auth.go:318-335 | exactly which held names are valid subdomains |
| TunnelTheorems.MintedScopeIsHeld | internal/server/auth.go:318-335 | any unreserved scope a token was minted for, whatever its letters, can come to be held |
| TunnelTheorems.InvalidNameCanBeHeld | cmd/server/main.go:239-239 | a run in which a name that is no subdomain is held |
| TunnelTheorems.AckComesFirst | internal/server/control.go:360-379 | on every connection the ack precedes every mux frame, frames follow only an ack that said ok, and a rejected or failed handshake sends none |
| TunnelTheorems.AckOutcome | internal/server/control.go:360-372 | on an open connection a written ack says ok and leads to the ready gate; a failed one to unregistering |
| TunnelTheorems.ProxiedIsVouched | internal/server/proxy.go:83-109 | a request past the ready gate sees the protection the handshake settled; one let through carries exactly its verified session's identity on a protected tunnel and none on any other |
| TunnelTheorems.ArriveOutcome | internal/server/proxy.go:76-88 | a request for a valid held name waits for its holder, any other ends |
| TunnelTheorems.RequestReachesTunnel | internal/server/proxy.go:83-109 | a request whose tunnel is ready gets through its gate exactly with the headers the gate lets out, and onto the tunnel unless it has closed |
| TunnelTheorems.ReadyReached | internal/server/control.go:351-382 | from every reachable state, a registered connection's own steps alone lead to its ready gate being open, failed acks included |
| TunnelTheorems.GateIsBounded | internal/server/control.go:351-382 | in every run, whatever else is scheduled, a registered connection's gate is open, or it has taken fewer own steps than its Distance, at most six and five without a takeover, and has one to take now, whether its ack goes out or fails |
| TunnelTheorems.WaiterIsReleased | internal/server/registry.go:31-49 | from every reachable state, the own steps of a waiting request's tunnel lead to where it passes |
| TunnelTheorems.WaitIsBounded | internal/server/registry.go:31-49 | in every run, a request that still waits can pass at once, or its tunnel's handler has taken fewer own steps than its Distance since and has one to take now |
| CertFile.CertCache.constructor | internal/server/certfile.go:38-43 | a first, forced refresh |
| CertFile.CertCache.Refresh | internal/server/certfile.go:61-79 | for each thing the two stats and reads can show, the whole new cache, errors and skipped reloads included |
| CertFile.CertCache.GetCertificate | internal/server/certfile.go:46-56 | refreshes exactly if no pair is cached or the last check is an interval ago, and serves the cached pair or the last error |
| CertFile.FileStamp | internal/server/certfile.go:81-94 | the stamps of all files, or the first file's error |
| CertFile.MatchedIsCurrent | internal/server/certfile.go:68-70 | a skipped reload is safe: the cached pair is the one on disk |
| CertFile.AgreesWithDisk | internal/server/certfile.go:46-79 | once the files are quiet, the first call an interval after the last check, or with no pair, serves the pair on disk if it loads and else what was served before, even if files changed between stamping and loading |
| CertFile.StaysAgreed | internal/server/certfile.go:46-79 | and every later call serves just that |
| CertFile.ServedForever | internal/server/certfile.go:46-56 | once a pair is served one always is, every served pair was read from the files, and without one there is an error to report |
| CertFile.NoLookWithinInterval | internal/server/certfile.go:49-51 | with a pair cached, a call within the interval looks at nothing and changes nothing |
| CertFile.CheckedIsLastLook | internal/server/certfile.go:61-62 | the interval runs from the last call that looked |
| CertFile.ErrorIsLatest | internal/server/certfile.go:61-79 | without a pair the error is the one the last call met |
| Config.LoadConfig | cmd/client/defaults.go:42-55 | the settings of the lines up to the first one too long for the scanner |
| ConfigLaws.FileSays | cmd/client/defaults.go:42-55 | in a file that fits, a key has the value of its last setting line |
| ConfigLaws.LoadUnset | cmd/client/defaults.go:42-55 | a key no line sets is not set |
| ConfigLaws.LoadStops | cmd/client/defaults.go:42-44 | nothing behind a line too long counts |
| ConfigLaws.SettingReads | cmd/client/defaults.go:45-53 | a key, an equals sign and a value, white space around each apart, set the lower-cased key to the value |
| Config.RewriteLines | cmd/client/main.go:416-433 | the new line in place of the first of its kind or at the end, every other line of the kind dropped |
| Config.UpdateConfigToken | cmd/client/main.go:415-436 | the whole rewritten file |
| ConfigLaws.RewriterAgreesWithParser | cmd/client/main.go:419-421 | the rewriter replaces exactly the lines the parser files under "token" |
| ConfigLaws.RewriteShape | cmd/client/main.go:434-436 | the file's lines are the rewritten ones, with exactly one line break at the end |
| ConfigLaws.EndsInOneBreak | cmd/client/main.go:434-436 | the file ends in exactly one line break |
| ConfigLaws.RewriteSetsToken | cmd/client/main.go:415-437 | for every file: the new token reads back exactly when the scanner reaches it, and then the rest reads as the file without its token lines |
| ConfigLaws.RewriteChangesOnlyToken | cmd/client/main.go:415-437 | for every file: the old settings with only the token replaced, exactly when the new line is reached and the lines that come into reach, if the scanner used to stop at an old token line, set nothing new |
| ConfigLaws.ReachedIsEnough | cmd/client/main.go:415-437 | unless the scanner used to stop at an old token line, exactly when the new line is reached |
| ConfigLaws.ReadableFile | cmd/client/defaults.go:42-55 | so on every file without over-long lines |
| ConfigLaws.LongCommentHidesToken | cmd/client/defaults.go:43-44 | a comment of 64 KiB hides the token written after it |
| ConfigLaws.LongTokenHidSettings | cmd/client/defaults.go:43-44 | rewriting an old token line of 64 KiB brings back any setting behind it, so more than the token changes |
| ConfigLaws.LongTokenHidServer | cmd/client/defaults.go:43-44 | the same with a server address as the setting |
| ConfigLaws.RewriteKeepsOtherLines | cmd/client/main.go:418-430 | non-token lines stay, in order, up to trailing blank lines |
| ConfigLaws.LastRewriteWins | cmd/client/main.go:415-437 | rewriting twice equals the second rewrite alone, byte for byte |
| Store.Store.constructor | internal/inspection/store.go:46-51 | empty, with the default capacity when none is given |
| Store.Store.Draw | internal/inspection/store.go:55-58 | an id nobody has had, drawn outside the lock |
| Store.Store.Insert | internal/inspection/store.go:59-65 | appends to the log, whatever was drawn, added or cleared in between |
| Store.Store.Add | internal/inspection/store.go:54-67 | appends to the log under an id larger than any stored before, clears included |
| Store.Store.List | internal/inspection/store.go:70-79 | the last min(count, capacity) records since the last clear, newest first |
| Store.Store.Get | internal/inspection/store.go:82-92 | finds an id exactly when the list shows it, and then that record |
| Store.Store.Size | internal/inspection/store.go:95-99 | the length of the list |
| Store.Store.Clear | internal/inspection/store.go:102-108 | forgets the records and never their ids |

## Left out

- The interleaved session and tunnel models are transition systems on values; the objects of MuxObjects and Registry cover update in place without interference.
- MuxObjects.Stream.Write: the flag test between two chunks is a step of the interleaved model only, since without interference it finds the flags unchanged.
- MuxTheorems.IdsFresh: ids are unbounded in the interleaved model, so what wrap-around of 32-bit ids and an OPEN for a used id do to runs is not modelled; the objects of MuxObjects do wrap and replace.
- MuxBytes.BytePipe: requires that each side opens fewer than 2^31 streams and that OPEN metadata is shorter than 2^32 bytes, beyond which the header's fields wrap.
- Socket writes: a write that fails ends its direction, so a write succeeding after a failed one on the same connection is not modelled; the interleaved model keeps whole frames, and MuxBytes.TornTail adds the part of a frame a failed write leaves.
- MuxDrain.CanDeliver: promises delivery only with a reader that keeps reading, since a full stream buffer blocks the read loop for as long as nobody reads.
- TunnelTheorems.WaiterIsReleased: the five-second limit and the cancelling of a waiting request are one step that gives up at any time.
- The OnClose callback and which error it receives when closers race.
- Handshake.AcceptAndPump: JSON decoding of the line is not part of it; the message is its newline-free encoding.
- The checks of message type and protocol version before the token check, and the handshake deadline.
- Auth.AdmittedIsEntitled: the handshake reads the clock once, where the code parses the token several times.
- AuthConfig.NewAuthenticator: files come read and split into lines, the reserved file and the inline entries one after the other as they are parsed.
- Text is a sequence of Unicode characters: files that are not valid UTF-8 are not modelled.
- CertFile.FileStamp: keeps modification times and sizes as numbers, not as formatted text.
- Store.Store.Add: a record is a value, so adding the same record object twice is not modelled.
- Finding the config path, file permissions, environment variables and flags.
- HMAC-SHA256, JSON, the login pages of a provider, and where random bits come from.
- Relaying HTTP headers and bodies, WebSocket piping, the web inspector and the terminal UI: thin wrappers that would add only easy members.
- Client reconnection and backoff, self-service token issuance, TLS and TCP tuning, deployment.
