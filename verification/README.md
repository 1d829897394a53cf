# Verification of the LSP gateway, its sessions, and execution jobs

A Dafny model of the hard parts of this repository, and proofs about it. `dafny verify dfyconfig.toml` checks the
whole project.

## What is modelled

**The wire** (`Sequences`, `Unicode`, `Decimal`, `LspFraming`, `LspHeader`, `LspText`, `LspStandard`,
`UriTransformer`, `LspPipeline`, `JsonText`). The streaming decoder of the gateway as an object with a byte buffer and
a loop; the framing that `LspMessage.format` and the URI transformer produce; the header pattern and the messages of
the protocol themselves, defined without the decoder; the rewriting of URIs over whole JSON trees; and a message's way
through all of them, in both directions. The standard is the Language Server Protocol 3.17, Base Protocol, "Header
Part"; for UTF-8 it is RFC 3629, section 3. The JSON library is a parameter of `LspPipeline` (`Understands` says what
is asked of it); `JsonText` gives a printer and a parser that meet it, so that the end-to-end result also holds with
nothing assumed.

**Sessions and containers** (`LspSessions`, `LspSessionSafety`, `LspNames`, `LspRuns`, `LspLiveSessions`,
`LspAttachment`, `LspFiles`, `LspReaping`, `LspLease`, `LspLostUpdates`, `LspDrives`, `LspFates`, `LspServices`).
`LspSessions` is a step relation in which every await is a scheduling point: Redis with expiry instants, Docker's
containers and the names they hold, the worker's `containerMap`, the scan, the sweep, the API's calls in flight, the
gateway's clients. Each read-modify-write of a session appears split into its reads and writes, as the source performs
it, and as one indivisible step (`IsAtomic`). The invariants are proved of every run of either vocabulary. What split
updates can break is proved with the exact condition under which they do; runs with indivisible updates meet that
condition always. Each such condition is about the one session the result is about: what happens to other sessions
does not matter. `Safe`, and `Sound` with Docker's names, are the invariants every reachable state has. `LspServices`
has the API server's and the worker's code in the form the source has it, with arbitrary interference at every await,
and shows that whatever it does is a run of that relation.

**Execution jobs** (`JobLifecycle`, `JobResults`, `JobProcessor`, `JobStatus`, `JobSubmission`). Submission,
`processJob` with its nested try/catch and its timeout, the two "latest status" computations of the API, and the
client's poller. Any awaited call may fail, and the process may die between any two.

**Request correlation** (`LspClient`). The pending completers of the command-line client, with responses, timeouts
and disconnections in any order.

## What the proofs found

- Every sender of this repository announces `.length`, in UTF-16 units, where the protocol counts bytes. To a receiver
  that counts bytes, a message arrives whole exactly when its text is ASCII (`StreamIsIntactIffAscii`), and is a
  message of the protocol exactly then (`SentIsStandardIff`). The gateway's requests go to the container's language
  server, which is not part of this model; what is proved of a stream after a non-ASCII message is proved of a
  receiver that decodes as this repository's decoder does: it emits nothing more, for good
  (`NonAsciiMessageSilencesTheStream`). That the residue is empty only for ASCII text needs one condition, no raw
  carriage return in the text, which serialised JSON meets; `StrayBytesMayBeAFrame` shows it fails without, and
  `ResidueIsEmptyIff` says exactly when.
- The decoder emits a `Buffer` and the gateway's listener declares a `string`
  (api-server/src/language-server/language-server.gateway.ts:146-162). `substring` then throws and the catch returns the
  frame as it came, so no response is rewritten. `ResponsesArrive` and `EchoRoundTrip` say what the client reads as the
  gateway is wired, and what it would read at the declared type.
- A container that counts bytes hears a request exactly when the rewritten text is ASCII (`RequestIsHeardIff`).
- The response rewriting restores the client's URIs except those that were in the container's namespace to begin with
  (`TreeRoundTrip`, if and only if). A session root in which `replace` would read a pattern, such as `$&`, sends the
  client's URIs elsewhere, and no other root does (`UriMovesIff`); the roots of this system hold no `$`.
- Split updates lose writes. A session that has its container can lose it exactly when a call in flight read the record
  before the attachment (`ContainerIsLostIff`); an upload does it (`StuckIsReachable`), and from then on the session
  answers 'Container not ready' for as long as its owner keeps it alive (`StuckWhileAlive`). A failed read right after a
  start does the same, indivisible updates or not (`FailedAttachIsReachable`).
- An uploaded file can vanish from its session's list exactly when a copy in flight is without it (`FileIsLostIff`);
  with indivisible updates the list only grows (`IndivisibleFilesGrow`), and no interleaving lists a file twice
  (`FilesAreDistinct`).
- A key that is gone comes back exactly when a `setex` of it is under way (`GoneComesBackIff`), and stays away through
  a run exactly when no `setex` of it misses (`GoneForeverIff`). An activity update that overlaps expiry brings a key
  back that names a container the sweep has stopped (`DeadContainerIsReachable`). In every run in which each `setex` of
  a session finds its key, that session's key names a live container if it names one (`LiveSessionHasLiveContainer`).
- A session is blocked when a container that no record or copy in flight names, and the worker does not know, holds
  its name in Docker. Every attempt to create another is then refused and no sweep frees the name, so the session
  stays without a container for good, in every run (`BlockedForever`). A container that is created and fails to start
  is enough (`FailedStartBlocks`; `BlockedIsReachable` gives a run from the start). Nothing else bars a session for
  good: from any sound state some run leaves it naming a container, and some run a container that does not run, if and
  only if its key is there, or a `setex` of it is under way, and it is not blocked (`DeadContainerIsPossibleIff`).
- An upload, and the attachment of a container, read the time a key has left at one await and write it back at a later
  one. If the clock or the session's last refresh has moved in between, and not by the same amount, its deadline
  slips, and nothing else makes it slip (`LeaseThroughoutIff`, `UploadIsOnTimeIff`, `AttachmentIsOnTimeIff`). For
  every `g` from 1 to 599 a run exists in which the key is gone `g` seconds after a renewal was granted in full
  (`LateUploadCutsLease`). The next refresh that is granted makes the deadline exact again (`RefreshRestoresLease`).
- A container Docker refuses to stop is tracked until the sweep that condemned its session completes, and then forgotten
  while it runs (`ContainerLeaksIff`, `LeakIsReachable`); no other container is lost (`NoLeakedContainer`).
- An answer its request cannot digest (an error field that is not an object; for `initialize`, a result that is neither
  an object nor null) makes the client drop a completer it never completes: the caller waits for its timer. Nothing else
  does (`NothingIsLostIff`).

## Model

| member | source | states |
|---|---|---|
| LspFraming.DecodeIsTheReading | api-server/src/language-server/lsp-response-buffer.ts:6-39 | the decoder's result is the one account of the stream: whole frames of the protocol, then a rest that holds none, and an error exactly when the rest has a header without a length; both directions |
| LspFraming.DecodeResumes | api-server/src/language-server/lsp-response-buffer.ts:7-13 | decoding `a + b` is decoding `a`, then what `a` left followed by `b`, wherever the cut falls, inside a separator included |
| LspFraming.ChunkInvariance | api-server/src/language-server/lsp-response-buffer.ts:6-39 | any cutting of a stream, empty chunks included, gives the same frames, residue and verdict as one call on the whole |
| LspFraming.EmittedFramesAreSelfDelimiting | api-server/src/language-server/lsp-response-buffer.ts:30-37 | every frame emitted on any input decodes alone to itself with nothing left |
| LspFraming.WholeStreamIsOneFrame | api-server/src/language-server/lsp-response-buffer.ts:10-37 | a stream is among the frames decoded from it if and only if it is the only one and nothing is left |
| LspFraming.PoisonIsPermanent | api-server/src/language-server/lsp-response-buffer.ts:15-28 | after a complete header without a length, later bytes are only kept |
| LspFraming.ThrowsOnceThrowsForever | api-server/src/language-server/lsp-response-buffer.ts:15-28 | once a call has thrown every later call throws and emits nothing |
| LspFraming.NextFrameExtends | api-server/src/language-server/lsp-response-buffer.ts:10-33 | more input changes neither a complete frame nor a rejected header |
| LspFraming.FindContentLength | api-server/src/language-server/lsp-response-buffer.ts:16-24 | the loop over header lines finds the first line that matches the pattern |
| LspHeader.HeaderPatternIff | api-server/src/language-server/lsp-response-buffer.ts:18-22 | the decoder reads `n` from a line's bytes if and only if the text of the line is the name in any case, white space, digits that spell `n`, and white space |
| LspHeader.SpaceIsASpace | api-server/src/language-server/lsp-response-buffer.ts:18 | the bytes skipped as white space are those of the characters `\s` matches, and of no other |
| LspFraming.LspResponseBuffer.OnData | api-server/src/language-server/lsp-response-buffer.ts:6-39 | emits, keeps and throws what the specification says for the buffer followed by the chunk; frames and buffer together are the bytes received, at every turn of the loop and at its end |
| LspText.FrameSplits | cli/lib/lsp/lsp_message.dart:4-7 | a formatted message is `Content-Length: `, the number of UTF-16 units of its content, an empty line, and the content |
| LspText.HeaderIsRead | api-server/src/language-server/lsp-response-buffer.ts:16-28 | a printed length is the length the header pattern reads |
| LspText.FramingRoundTrip | api-server/src/language-server/lsp-response-buffer.ts:6-39 | any list of byte bodies, framed, concatenated and cut anyhow, comes back as those frames with nothing left |
| LspText.SentMessageDecodes | api-server/src/language-server/lsp-uri-transformer.ts:27-28 | a sent message decodes to a frame of its first `.length` bytes, then whatever its last bytes and the rest of the stream make |
| LspText.StreamIsIntactIffAscii | cli/lib/lsp/lsp_message.dart:4-7 | a stream of sent messages arrives as those messages exactly when each is ASCII |
| LspText.ResidueIsTheDrift | api-server/src/language-server/lsp-uri-transformer.ts:27-28 | without carriage returns: one frame, short by utf8Len - utf16Len bytes, which are the residue; empty exactly for ASCII |
| LspText.ResidueIsEmptyIff | api-server/src/language-server/lsp-uri-transformer.ts:27-28 | for every text: nothing is left over if and only if the bytes past the announced length are themselves whole frames |
| LspText.StrayBytesMayBeAFrame | api-server/src/language-server/lsp-uri-transformer.ts:27-28 | with carriage returns the residue may be empty for a text that is not ASCII |
| LspText.NonAsciiMessageSilencesTheStream | api-server/src/language-server/lsp-uri-transformer.ts:27-28 | after a non-ASCII message a receiver that decodes as this repository does rejects the next header and emits nothing again, whatever follows |
| LspStandard.StandardMessageIsFrame | api-server/src/language-server/lsp-response-buffer.ts:10-33 | every message of the protocol is a frame to the decoder: any other header fields before and after its length, the name of the length in any case, blanks around the digits, leading zeros |
| LspStandard.StandardStreamDecodes | api-server/src/language-server/lsp-response-buffer.ts:6-39 | a stream of such messages, cut anyhow, comes out as those messages with nothing left |
| LspStandard.SentIsStandardIff | cli/lib/lsp/lsp_message.dart:4-7 | what is sent is a message of the protocol if and only if its text is ASCII |
| Unicode.LengthDrift | cli/lib/lsp/lsp_message.dart:6 | utf16Len <= utf8Len <= 3 utf16Len, with equality on the left exactly for ASCII |
| Unicode.UnitsSpellTheText | cli/lib/lsp/lsp_message.dart:6 | the announced length is the number of UTF-16 units, with surrogate pairs, from which the text can be read back |
| Unicode.Utf16LengthIs | api-server/src/language-server/lsp-uri-transformer.ts:28 | it is the number of characters, those from 0x10000 on counted twice |
| Unicode.DriftIs | cli/lib/lsp/lsp_message.dart:6 | the bytes exceed it by one for each character from 0x80 to 0x7FF and by two for each from 0x800 on |
| Unicode.EncodingIsTheStandards | api-server/src/language-server/lsp-response-buffer.ts:13 | the bytes of a character are those of the table in section 3 of RFC 3629 |
| Unicode.Utf8Injective | api-server/src/language-server/lsp-response-buffer.ts:15 | bytes that encode a text encode no other |
| Decimal.ParseUndoesPrint | api-server/src/language-server/lsp-response-buffer.ts:22 | `parseInt` of a printed length is that length |
| Decimal.ParseIsPositional | api-server/src/language-server/lsp-response-buffer.ts:22 | `parseInt` reads a decimal numeral: the first digit counts a power of ten for each digit after it |
| Decimal.PrintIsShortest | cli/lib/lsp/lsp_message.dart:6 | a printed length has no zero in front, one digit below ten, and one zero more for ten times as much |
| UriTransformer.ReplaceIsPrefixReplacement | api-server/src/language-server/lsp-uri-transformer.ts:44-47 | first-occurrence `replace` on a string that starts with the pattern replaces that prefix |
| UriTransformer.RewriteStringMoves | api-server/src/language-server/lsp-uri-transformer.ts:38-52 | the source namespace is moved onto the target's and every other string is left alone |
| UriTransformer.UriMoves | api-server/src/language-server/lsp-uri-transformer.ts:45-48 | for every tail that is empty or starts with a slash: file:///workspace and the tail goes to file://, the root and the tail, and comes back; for the way out the root holds no pattern |
| UriTransformer.UriMovesIff | api-server/src/language-server/lsp-uri-transformer.ts:45-46 | the way out fails exactly for the roots in which `replace` reads a pattern: `$$`, `$&`, a `$` before a backquote or a quote |
| UriTransformer.ImageIsRewritten | api-server/src/language-server/lsp-uri-transformer.ts:38-52 | a string is rewritten to its image, with the URIs written out: moved if it is such a URI, and itself if not |
| UriTransformer.StringRoundTrip | api-server/src/language-server/lsp-uri-transformer.ts:100-114 | back and forth restores a string if and only if it was not in the target namespace alone |
| UriTransformer.TreeRoundTrip | api-server/src/language-server/lsp-uri-transformer.ts:100-128 | the response rewriting of the request rewriting is the tree itself if and only if no string of it collides; in both orders |
| UriTransformer.RewriteKeepsSkeleton | api-server/src/language-server/lsp-uri-transformer.ts:53-65 | keys, order, nesting and non-strings are preserved |
| UriTransformer.RewriteIsIdentityIff | api-server/src/language-server/lsp-uri-transformer.ts:38-66 | a tree is unchanged if and only if no string of it is in the source namespace |
| UriTransformer.RewriteKeepsKeysUnique | api-server/src/language-server/lsp-uri-transformer.ts:57-62 | no object gains a duplicate key |
| UriTransformer.TransformUris | api-server/src/language-server/lsp-uri-transformer.ts:38-66 | the code's traversal, with its fresh object filled key by key, computes the tree rewriting; at the end of every path to a string of the tree is that string's image, and everything else is as it was |
| LspPipeline.TransformRebuilds | api-server/src/language-server/lsp-uri-transformer.ts:6-33 | a formatted request becomes the formatted rewriting of its tree |
| LspPipeline.ParseReadsFormat | cli/lib/lsp/lsp_message.dart:4-30 | `parse` of a formatted object is that object, and of anything else formatted nothing |
| LspPipeline.RequestArrives | api-server/src/language-server/lsp-uri-transformer.ts:6-33 | the bytes of a rewritten request, cut anyhow, arrive as one frame with no residue if and only if its text is ASCII, and parse to the rewritten request |
| LspPipeline.RequestIsHeardIff | api-server/src/language-server/lsp-uri-transformer.ts:6-33 | a byte-counting container finds the request among the frames it decodes, however the bytes are cut, if and only if the rewritten text is ASCII; then all it reads is the rewritten tree |
| LspPipeline.ResponsesArrive | api-server/src/language-server/language-server.gateway.ts:146-162 | byte-framed responses, cut anyhow, all come out of the decoder; as wired the client reads each tree with the container's URIs, and at the declared type it would read the rewritten tree |
| LspPipeline.EchoRoundTrip | api-server/src/language-server/lsp-uri-transformer.ts:71-98 | the request's bytes are in the container's stream as a message if and only if the rewritten text is ASCII; its answer comes through whole; for an ASCII request what it read, and answers with, is the rewritten tree, and the client gets its own tree back: at the declared type if and only if nothing collides, as wired if and only if nothing was moved |
| JsonText.ReadUndoesWrite | cli/lib/lsp/lsp_message.dart:4-30 | the compact JSON text of a tree with integer numbers reads back as the tree, whatever follows it |
| JsonText.WriteIsAsciiIff | cli/lib/lsp/lsp_message.dart:4-7 | that text is ASCII if and only if every key and every string of the tree is |
| JsonText.CompactUnderstandsItself | cli/lib/lsp/lsp_message.dart:4-30 | what the pipeline asks of a JSON library is met by this one |
| JsonText.CompactRequestArrives | api-server/src/language-server/lsp-uri-transformer.ts:6-33 | end to end with nothing assumed: one intact frame if and only if the rewritten tree's keys and strings are ASCII, and it parses to that tree |
| LspSessionSafety.OwnershipKept | api-server/src/language-server/language-server.service.ts:39-167 | every step, of either vocabulary, keeps every copy of a session its creator's |
| LspSessionSafety.ContainersKept | worker-service/src/worker/language-server-manager.ts:59-195 | every step keeps: a session being started is not in the map, one to be cleaned still is, and no running container is lost sight of |
| LspSessionSafety.SafeAlways | worker-service/src/worker/language-server-manager.ts:59-195 | both invariants over every run |
| LspSessionSafety.NoLeakedContainer | worker-service/src/worker/language-server-manager.ts:59-166 | in every reachable state a running container Docker never refused to stop is recorded under its own session, or was started this instant |
| LspSessionSafety.OneToOne | worker-service/src/worker/language-server-manager.ts:59-166 | the map is injective and a session has at most one running container, refused stops aside |
| LspNames.OneContainerEach | worker-service/src/worker/language-server-manager.ts:91-120 | Docker gives out a name once: in every reachable state a session has at most one running container, refused stops included |
| LspSessionSafety.ContainerLeaksIff | worker-service/src/worker/language-server-manager.ts:164-195 | a step leaves a tracked running container running and untracked if and only if it ends the sweep that condemned its session, and then Docker had refused to stop it |
| LspSessionSafety.EveryCopyIsTheCreators | api-server/src/language-server/language-server.service.ts:39-160 | every stored or in-flight copy of a session has its creator's id, the root /lsp-files/ and its id, a container name, lsp- and its id, exactly when it has a container id, and only its own container |
| LspSessionSafety.SessionsAreApart | api-server/src/language-server/language-server.service.ts:44 | different sessions have different roots and container names |
| LspSessionSafety.ClientsAreOwners | api-server/src/language-server/language-server.gateway.ts:90-141 | an authenticated client is only joined to a session it created, at that session's root |
| LspSessionSafety.IdentityIsImmutable | api-server/src/language-server/language-server.service.ts:39-160 | owner and root of a session are the same at any two moments it is stored |
| LspLiveSessions.GoneComesBackIff | api-server/src/language-server/language-server.service.ts:111-160 | over all runs of either vocabulary: a key that is gone can come back if and only if a suspended call, or the scan, is at a `setex` of it |
| LspLiveSessions.QuietAlways | api-server/src/language-server/language-server.service.ts:111-160 | otherwise it stays gone, and no `setex` of it comes up, in every run |
| LspLiveSessions.AliveKept | worker-service/src/worker/language-server-manager.ts:120-166 | every step keeps the key, the copies in flight and the container of a session in agreement, unless it is a `setex` of that session that finds its key missing |
| LspLiveSessions.LiveSessionHasLiveContainer | worker-service/src/worker/language-server-manager.ts:120-166 | in every run, split updates included, in which each `setex` of that session finds its key: if its key names a container, that one is running and the worker has recorded it |
| LspLiveSessions.GoneKeptIff | api-server/src/language-server/language-server.service.ts:111-160 | a step leaves a gone key gone if and only if it is not a `setex` of that session |
| LspLiveSessions.GoneForeverIff | api-server/src/language-server/language-server.service.ts:111-160 | over a whole run an id whose key is gone has no key at any moment if and only if no `setex` of it misses its key |
| LspLiveSessions.IndivisibleSessionHasLiveContainer | worker-service/src/worker/language-server-manager.ts:120-166 | a run with indivisible updates is such a run, for every session |
| LspAttachment.RecordKeepsAgreeingIff | api-server/src/language-server/language-server.service.ts:111-160 | over all runs: a record goes on saying what it says (that it has a container, which one, or that it lists a file) if and only if no copy in flight disagrees and the scan is not giving it another container |
| LspAttachment.ContainerIsLostIff | api-server/src/language-server/language-server.service.ts:131-159 | over all runs: an attached session can be found without its container if and only if a call in flight read it before the attachment |
| LspAttachment.ContainerIsWriteOnceIff | worker-service/src/worker/language-server-manager.ts:126-137 | over all runs: a record can come to name another container, or none, if and only if something in flight does |
| LspAttachment.ContainerIsWriteOnce | worker-service/src/worker/language-server-manager.ts:126-137 | from a state reached by indivisible updates a container id never changes, whatever steps follow |
| LspFiles.EveryCopyComesFromOne | api-server/src/language-server/language-server.service.ts:39-160 | whatever the step, a copy of a record, stored or in flight, is the record as created, a copy from before, or the stored record with one field set: the activity time, one file more at the end, or the container |
| LspFiles.FilesAreDistinct | api-server/src/language-server/language-server.service.ts:151-155 | over all runs no copy of a record lists a file twice |
| LspFiles.IndivisibleFilesGrow | api-server/src/language-server/language-server.service.ts:151-160 | with indivisible updates the list of a key that stays is a beginning of every later one |
| LspFiles.FileIsLostIff | api-server/src/language-server/language-server.service.ts:131-160 | over all runs: a listed file can be missing from the record if and only if a copy in flight lacks it |
| LspReaping.CompletedSweepReaps | worker-service/src/worker/language-server-manager.ts:153-195 | under any interference, a session recorded when a sweep begins and without a key until it completes is then forgotten, and its container stopped or refused |
| LspReaping.ExpiredSessionIsReaped | worker-service/src/worker/language-server-manager.ts:153-195 | a key missing when the sweep begins, with no `setex` of it under way, is enough; split updates included |
| LspReaping.StoppedStaysStopped | worker-service/src/worker/language-server-manager.ts:173-180 | a container that was stopped runs again in no run |
| LspLease.LeaseKeptIff | api-server/src/language-server/language-server.service.ts:56-160 | a step leaves a session's deadline at 600 s after its last refresh if and only if it writes back no `ttl` of that session that is not the time left |
| LspLease.LeaseThroughoutIff | api-server/src/language-server/language-server.service.ts:56-160 | over a whole run the deadline of a session is exact at every moment if and only if every such write of that session is on time |
| LspLease.UploadIsOnTimeIff | api-server/src/language-server/language-server.service.ts:157-160 | an upload's write is on time if and only if, since it asked, the clock and the last refresh have moved by the same amount |
| LspLease.AttachmentIsOnTimeIff | worker-service/src/worker/language-server-manager.ts:132-136 | so is the write of an attachment |
| LspLease.LateUploadCutsLease | api-server/src/language-server/language-server.service.ts:157-160 | for every g from 1 to 599 a run from the start has the key gone g seconds after a renewal granted in full |
| LspLease.LeaseIsExact | api-server/src/language-server/language-server.service.ts:56-160 | from the start, in every run, split updates included, in which such writes of the session are on time: it is there if and only if less than 600 s have passed since its last refresh |
| LspLease.RefreshRestoresLease | api-server/src/language-server/language-server.service.ts:56-123 | a granted renewal or activity update makes the deadline exact, however far off it was |
| LspLease.AskingKeepsSession | api-server/src/language-server/language-server.service.ts:56-123 | from any reachable state in which the session's deadline is exact, while its own writes are on time: renewals and activity less than 600 s apart are all granted and keep the session |
| LspLease.ClientTimerKeepsSession | cli/lib/lsp/lsp_session_manager.dart:10-31 | under the same condition the five-minute timer is enough, given less than five minutes of delay |
| LspLease.OneMissedRenewalIsFatal | cli/lib/lsp/lsp_session_manager.dart:10-31 | under the same condition, without other refreshes, the key expires exactly when the second renewal is due |
| LspLease.IndivisibleRunsArePunctual | api-server/src/language-server/language-server.service.ts:157-160 | with indivisible updates every write is on time, for every session |
| LspLostUpdates.AtomicIsUninterruptedSplit | api-server/src/language-server/language-server.service.ts:56-160 | each indivisible API step is the split one with nothing in between |
| LspLostUpdates.AttachUninterrupted | worker-service/src/worker/language-server-manager.ts:125-137 | so is the attachment of a container |
| LspLostUpdates.ProvisionRuns | worker-service/src/worker/language-server-manager.ts:59-141 | left alone, the scan gives the next listed session that has none, and whose name is free, a container and records it, whatever else is stored or in flight |
| LspLostUpdates.StuckKept | worker-service/src/worker/language-server-manager.ts:65-67 | every step keeps a stuck session stuck, except the end of a sweep that condemned it |
| LspLostUpdates.StuckWhileAlive | worker-service/src/worker/language-server-manager.ts:65-67 | as long as its key lives a stuck session is stuck and shows no container |
| LspLostUpdates.UploadErasesContainer | api-server/src/language-server/language-server.service.ts:131-159 | an upload that read before the attachment and writes after it erases the container, whatever other sessions and calls there are |
| LspLostUpdates.StuckIsReachable | api-server/src/language-server/language-server.service.ts:131-159 | a run from the start reaches a live stuck session whose container runs |
| LspLostUpdates.FailedAttachIsReachable | worker-service/src/worker/language-server-manager.ts:123-137 | a run from the start, of indivisible steps, reaches the same through a failed read after a start |
| LspLostUpdates.ActivityRevivesSession | api-server/src/language-server/language-server.service.ts:111-123 | an activity update that read before expiry brings the key back after the sweep, whatever else is stored or recorded |
| LspLostUpdates.DeadContainerIsReachable | api-server/src/language-server/language-server.service.ts:111-123 | split updates: an expired id comes back and names a container that does not run |
| LspLostUpdates.LeakIsReachable | worker-service/src/worker/language-server-manager.ts:164-195 | a run from the start reaches a running container nothing tracks |
| LspFates.BlockedForever | worker-service/src/worker/language-server-manager.ts:62-120 | a session whose name is held by a container that no record names and the worker does not know stays without one in every run |
| LspFates.FailedStartBlocks | worker-service/src/worker/language-server-manager.ts:105-123 | a container that is created and does not start leaves its session so, if none was named in its record or in a copy in flight |
| LspFates.BlockedIsReachable | worker-service/src/worker/language-server-manager.ts:105-123 | a run from the start, of indivisible steps, reaches a live session that is blocked |
| LspFates.DeadContainerIsPossibleIff | worker-service/src/worker/language-server-manager.ts:59-195 | from every sound state: some run has the record name a container, and some run has it name one that does not run, if and only if the key is there or a `setex` of it is under way, and the session is not blocked |
| LspServices.Backend.CreateSession | api-server/src/language-server/language-server.service.ts:39-54 | is a run; stores one new key with the record of a new session of the caller, root /lsp-files/ and its id, for 600 s, and touches no other |
| LspServices.Backend.RenewSession | api-server/src/language-server/language-server.service.ts:56-71 | is a run under any interference; 404 and 403 exactly when they apply and with no effect; granted exactly when `expire` is answered, and then the key as it is found ends 600 s from now, its record unchanged |
| LspServices.Backend.UpdateLastActivity | api-server/src/language-server/language-server.service.ts:111-123 | is a run; stores at the end the record read at the start with nothing but its activity time set, key or no key, for 600 s |
| LspServices.Backend.UploadFile | api-server/src/language-server/language-server.service.ts:125-167 | is a run; refuses as the source does; with every call answered it records the file, unless the time had run out; what it stores is the record read at the start with the file added to the end of its list, unless it was listed already |
| LspServices.Backend.RecordUpload | api-server/src/language-server/language-server.service.ts:148-160 | is a run; records if and only if all calls are answered and there was time left when asked, with exactly that time |
| LspServices.Backend.HandleLspConnect | api-server/src/language-server/language-server.gateway.ts:90-146 | is a run; 403 exactly when the owner differs; 404 only if the record shows no container or Docker shows no address for it; otherwise the calls' answers decide; a joined client has its own session, user and the session's root |
| LspServices.Backend.Dial | api-server/src/language-server/language-server.gateway.ts:102-146 | 404 exactly when the record shows no container, or Docker answers and shows no address for it; a failed call is an error; a client reached is joined at the root the record names |
| LspServices.Backend.Join | api-server/src/language-server/language-server.gateway.ts:131-144 | is a run; adds the one entry and ends the call |
| LspServices.Backend.HandleDisconnect | api-server/src/language-server/language-server.gateway.ts:68-75 | is a run, and drops that client only |
| LspServices.Backend.ScanAndCreateContainers | worker-service/src/worker/language-server-manager.ts:59-86 | is a run; every listed session gets its turn, in order, up to a `get` that is not answered, and each turn does what `Served` says |
| LspServices.Backend.ScanSession | worker-service/src/worker/language-server-manager.ts:62-85 | the loop body: a recorded session is skipped with no remote call; otherwise its container is on record, or was adopted, or its name was taken, or the key had run out, or the next call was not answered; only an unanswered `get` ends the pass |
| LspServices.Backend.Provide | worker-service/src/worker/language-server-manager.ts:76-83 | a record that names a container has it adopted; one that names none ends up naming one, unless its name is taken, the key has run out, or a call is not answered |
| LspServices.Backend.StartContainer | worker-service/src/worker/language-server-manager.ts:88-141 | is a run; nothing is created exactly when `createContainer` is not answered or the name is taken; five answered calls leave the new id in the session's record; fewer mean that the next was not answered or that the key had run out; an id given is made out to the session |
| LspServices.Backend.LaunchContainer | worker-service/src/worker/language-server-manager.ts:117-120 | is a run; the started container is in the map before the next await |
| LspServices.Backend.AttachContainer | worker-service/src/worker/language-server-manager.ts:122-138 | is a run; the record read, with the container's id, name and root in it and nothing else changed, is stored, unless a call was not answered or the key had run out |
| LspServices.Backend.StoreContainer | worker-service/src/worker/language-server-manager.ts:132-136 | which calls are made is decided by the answers and the time left, and what is stored lives exactly that time |
| LspServices.Backend.CleanupExpiredSessions | worker-service/src/worker/language-server-manager.ts:153-171 | is a run; completes only when every entry has been visited, and then is the step that forgets the condemned; aborts only on an unanswered `exists`, forgetting none |
| LspServices.Backend.SweepSession | worker-service/src/worker/language-server-manager.ts:156-164 | the loop body; condemns the session if and only if its key is missing when `exists` is answered; its container then runs no more, now and later, or Docker refused |
| LspServices.Backend.StopContainer | worker-service/src/worker/language-server-manager.ts:173-195 | is a run; a granted stop leaves the container not running, now and later; a granted removal then frees its name and a refused one leaves it taken; a refused stop is swallowed and changes nothing but the record of it |
| LspServices.Backend.RemoveContainer | worker-service/src/worker/language-server-manager.ts:178-194 | is a run; frees the name exactly when Docker agrees, and otherwise the stopped container keeps it |
| JobLifecycle.LogIsInLanguage | worker-service/src/worker/execution.processor.ts:68-189 | whatever fails and wherever the process dies, the log is one of nine words |
| JobLifecycle.LanguageIsExact | worker-service/src/worker/execution.processor.ts:68-189 | a word is the log of some run if and only if it is one of the nine |
| JobLifecycle.ErrorThenFailedIsCaught | worker-service/src/worker/execution.processor.ts:119-137 | an error row followed by a failure row only comes through the inner catch |
| JobLifecycle.ResultsBeforeVerdict | worker-service/src/worker/execution.processor.ts:126-187 | in every reachable state each terminal row is backed by its columns: success by exit code 0 and an output, failure by -1 and an error |
| JobLifecycle.TimeoutIsReportedOnce | worker-service/src/worker/execution.processor.ts:126-187 | after a genuine timeout the failure row changes neither error nor exit code |
| JobResults.ResolvedIff | worker-service/src/worker/execution.processor.ts:68-177 | the job resolves if and only if eleven awaits are answered; its columns then hold the exit code and the output, by the code as output or as error, and the time of the update |
| JobResults.ResolvedShowsTheAnswers | worker-service/src/worker/execution.processor.ts:139-177 | for a submitted job: all four columns and all four rows, from the answers alone |
| JobResults.SuccessIff | worker-service/src/worker/execution.processor.ts:153-165 | success is logged if and only if all eleven are answered and the exit code is 0 |
| JobResults.FailureIsReported | worker-service/src/worker/execution.processor.ts:178-189 | an await other than the exit fails: the columns as they were by then, with the message, -1 and the time of the update, if that is answered, and the row, if that is answered too |
| JobResults.TimeoutIsReported | worker-service/src/worker/execution.processor.ts:119-137 | the exit fails: the timeout reported at await 9, then the failure, whose message is the last that came up; whatever `kill` and `remove` answer |
| JobProcessor.ExecutionProcessor.ProcessJob | worker-service/src/worker/execution.processor.ts:62-190 | the nested try/catch, with a failure or a death at any await, leaves the database of the flat machine and resolves or throws exactly when it does: it resolves if and only if eleven awaits are answered, with the exit code and the output in the columns |
| JobProcessor.ExecutionProcessor.AwaitExit | worker-service/src/worker/execution.processor.ts:112-137 | the race and the inner catch end where the flat machine does |
| JobProcessor.ExecutionProcessor.Prepare | worker-service/src/worker/execution.processor.ts:68-110 | so does the way to the container's start |
| JobProcessor.ExecutionProcessor.Collect | worker-service/src/worker/execution.processor.ts:139-153 | so do the output, the removal and the result |
| JobProcessor.ExecutionProcessor.Record | worker-service/src/worker/execution.processor.ts:154-177 | so do the columns and the row that announces them |
| JobProcessor.ExecutionProcessor.CreateStatusLog | worker-service/src/worker/execution.processor.ts:192-204 | one row more, last in the log, anywhere in the query order, and no column touched |
| JobStatus.StableSortSorts | api-server/src/execution/execution.controller.ts:75-82 | the sort is a sorted permutation that keeps rows of one time in order |
| JobStatus.StableSortIsUnique | api-server/src/execution/execution.controller.ts:108-130 | there is only one such sequence, so `statusHistory` is determined by the rows |
| JobStatus.DetailIsLastLatest | api-server/src/execution/execution.controller.ts:108-116 | the detail endpoint shows the last of the latest rows in database order |
| JobStatus.ListedIsFirstLatest | api-server/src/execution/execution.controller.ts:75-82 | the list endpoint shows the first of them |
| JobStatus.EndpointsAgree | api-server/src/execution/execution.controller.ts:75-116 | the two agree if and only if these are the same row; the position is one exactly when the latest time is unique |
| JobStatus.InsertedRowShowsOrNot | api-server/src/execution/execution.controller.ts:75-116 | a row that turns up anywhere is what an endpoint, either of the two, shows next, or changes nothing there |
| JobStatus.ShownNeverRegresses | api-server/src/execution/execution.controller.ts:75-116 | for any clocks, ties and row order, successive reads of either endpoint never go back, and a terminal status stays terminal |
| JobStatus.ShownVerdictIsBacked | api-server/src/execution/execution.controller.ts:75-131 | a verdict shown by either endpoint is backed by the columns of the job, a success by the container's own output and exit code |
| JobStatus.PollUntilComplete | cli/lib/api/execution_api.dart:32-53 | returns at the first answer that shows one of the three final statuses, breaks at the first that does not come, and times out only if none of the allowed ones is either |
| JobStatus.FinishedStaysFinished | cli/lib/api/models/execution_job.dart:32-35 | a poller that is told a job has finished is told so by every later read |
| JobSubmission.ExecutionService.CreateExecutionJob | api-server/src/execution/execution.service.ts:25-77 | file, then a blank row and one QUEUED row together, then queue: what is left behind is determined by how many awaits succeeded, and what is queued always has the rest |
| LspClient.IdsAreConserved | cli/lib/lsp/lsp_client.dart:200-257 | over every interleaving in which each answer fits its request: ids issued are pending, answered or timed out, and only one of these |
| LspClient.NothingIsLostIff | cli/lib/lsp/lsp_client.dart:226-257 | no completer is ever dropped without being completed if and only if every answer to a pending request is an error object, or a result, which for `initialize` is an object or null |
| LspClient.AccountedAlways | cli/lib/lsp/lsp_client.dart:200-257 | with any messages at all every id is in one place and a settlement never changes |
| LspClient.RequestsDoNotInterfere | cli/lib/lsp/lsp_client.dart:202-257 | the first event that bears a request's id decides: an error object, a result its kind takes, or its timer settles it for good, any other answer leaves it to its timer, and no other event matters |
| LspClient.LspClient.GenerateId | cli/lib/lsp/lsp_client.dart:200 | hands out an id that is not pending, lost or settled, and greater than any that is |
| LspClient.LspClient.SendRequest | cli/lib/lsp/lsp_client.dart:202-215 | registers a completer of that kind under a fresh id |
| LspClient.LspClient.HandleLspMessage | cli/lib/lsp/lsp_client.dart:226-257 | the completer that bears the message's id is taken out, and told of an error object, or of a result: any for a definition, an object or null for `initialize`; otherwise it is lost; nothing else changes |
| LspClient.LspClient.Initialize | cli/lib/lsp/lsp_client.dart:119-141 | sends nothing unless connected, and then a request that takes an object or null |
| LspClient.LspClient.GoToDefinition | cli/lib/lsp/lsp_client.dart:158-190 | sends nothing unless initialized, and then a request that takes any result |
| LspClient.LspClient.OnTimeout | cli/lib/lsp/lsp_client.dart:202-215 | settles its own request, as timed out, and no other |
| LspClient.LspClient.Disconnect | cli/lib/lsp/lsp_client.dart:192-198 | leaves requests in flight to their timers |

## Left out

- Docker, Redis, MySQL, BullMQ, socket.io and TCP internals: they are maps, sets, logs and calls that succeed or fail.
  A failed call has no effect, and a job is delivered once.
- Worker shutdown and restart (`onModuleDestroy`, `stopAllContainers`), and containers that die by themselves: Redis
  is not told of either, so a live session may then name a dead container.
- Neither timer overlaps itself: one scan and one sweep at a time, as with passes shorter than their intervals.
- `updateSessionContainer` and `getContainerId`: nothing calls them.
- Session files: where uploads are stored, how their names are made safe, and their removal by `stopContainer`.
  `createdAt` of a session.
- A container created but never started holds its name; beyond that `NoLeakedContainer` is about running ones.
- Redis time is in whole seconds; rounding below a second is not modelled.
- LspServices.Backend.CleanupExpiredSessions: `rounds` bounds how long the sweep is watched, because others may add
  entries to the map for ever; the result says whether it ended within them.
- LspServices.Backend.HandleLspConnect: ends with the answer of the TCP connection; the `updateLastActivity` that
  follows is `Backend.UpdateLastActivity`, and the socket's `close` is `Backend.HandleDisconnect`.
- LspServices.Backend.StartContainer: `mkdir` and `createContainer` fail alike; Docker never gives an id twice, and no
  one but the worker creates or removes containers.
- LspPipeline.RequestArrives: numbers in JSON are integers nobody looks into, lone surrogates are not representable,
  and keys named `__proto__` or like an index are not set apart.
- UriTransformer.TreeRoundTrip: the root holds no pattern of `replace`; `UriMovesIff` says what such a root does.
- JsonText.ReadUndoesWrite: no white space between tokens, no fractions, and an object with a duplicate key is read as
  it stands.
- LspFraming.LspResponseBuffer.OnData: a listener that throws inside `emit` is not modelled; lengths are unbounded,
  and one beyond 2^53 waits for ever in both.
- JobLifecycle.LogIsInLanguage: one delivery per job; a second delivery would append to the log of the first.
- LspClient.LspClient.Initialize: what follows the response (state Initialized, the `initialized` notification), the
  retry loop of `connect`, and server notifications are not modelled.
- LspClient.LspClient.GoToDefinition: how the result is handed on, as null, a list or a list of one.
- `LspSessionManager` as an object: only its renewal interval.
- Authentication, guards, DTOs, upload filters, menus, token storage and generated models.
