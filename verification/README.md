# Lunatic: verified models of its hardest protocols

Lunatic is an Erlang-style WebAssembly runtime. This project models five of its components in
Dafny and proves what they promise over every run, every failure pattern and every input:

* **Audit dispatcher** (`Audit*.dfy`). Emitters, flush callers and one writer thread share an
  admission word, counters, a bounded channel and epoch-stamped flush barriers. The model is a
  labelled transition system with one step per atomic operation and a program counter per call;
  any number of calls interleave, any deadline may pass, any compare-exchange may fail spuriously
  and any sink call may fail. `AuditModel` is the system, `AuditInvariants` its invariant, the
  three `*Steps` files show that every step keeps it, `AuditTheorems` and `AuditTally` draw the
  conclusions, `AuditAnswers` says what flush calls return, `AuditProgress` and `AuditCompletion`
  show that no flush call waits in vain and which of them can still succeed, `AuditEmitAlone` gives
  the whole effect of an undisturbed emit, and `AuditCapacity` builds the runs that reach a full
  channel where one can be reached.
* **Credential record and cookies** (`Utf8`, `Base64`, `Text`, `CredentialCodec`,
  `CredentialRecord`, `Cookies`). The length-prefixed record inside unpadded base64, as functions,
  and the buffer-appending and slice-advancing code proved equal to them; the attribute loop of
  `Set-Cookie` proved against a declarative expiry rule.
* **Credential transaction** (`CredentialMachine`, `CredentialTransaction`). Login, refresh,
  logout and legacy migration over a configuration file and an operating-system credential store,
  either of which may fail at any step, with a process crash or a power loss between any two steps.
* **Node control server** (`BearerToken`, `ControlServer`). Two-phase bearer rotation with leases,
  and the registration, node and module maps behind the lifecycle lock.
* **Process resources** (`Tables`, `ResourceQuota`, `ProcessConfig`, `Attenuation`, `TlsCredentials`,
  `ProcessState`, `TlsPreflight`, `SnapshotRestore`, `SnapshotCapture`, `SnapshotMigration`). Quotas,
  the transfer of everything a process owns on reload, capture into and restoration from a serialized
  snapshot and the round trip of both, single-use TLS credential handles, and the authority order
  down spawn chains.

`Wrappers` holds what several of them share.

`dafny verify dfyconfig.toml` checks the whole project.

## Assumptions

* Atomics are sequentially consistent; counters, sequence numbers, epochs and the ID counters of
  tables, registrations and modules are unbounded. The admission word, the channel capacity, bearer
  generations, node IDs, configuration ceilings, cookie times and record lengths keep their widths.
  Building the channel always succeeds, whatever its capacity: the allocation of its slots is not modelled.
* The credential store: `get` is truthful or fails; `put` answering `Ok` or `Failed` may leave the
  entry in any state; any other `put` error leaves the store unchanged; `delete` may do nothing and
  answer anything. That a new reference is unused is not assumed: the store is shown to be empty.
* A file write fails before the replacement, or replaces the file; if the directory was not
  synchronized, a power loss may bring back any version since the last synchronized one.
* URL parsing, HTTP dates, percent-decoding, path canonicalization and socket address parsing are
  function parameters. The derived reference of a legacy login is injective in application ID and
  provider. Digests and certificates are abstract values.
* Values that Rust owns (maps, tables' contents, verifiers) are values here; what Rust shares behind
  an `Arc` (the quotas, the credential provider) is an object, so that a transfer hands over the
  very same quota. Iteration over a hash map visits the keys in an arbitrary order.
* Whether an address binds, and the time at which an entry is looked at, is fixed per entry of a
  snapshot and does not depend on the order of the visits. During a capture the clock does not go
  back, and each provision draws more distinct handles than the provider can hold.

## What does not hold

* Staging a bearer at the last generation, `u64::MAX`, is refused and stages the token all the same
  (`ExhaustedStagingStillStages`); `RefusedStagingIsIdle` gives the exact condition under which a
  refused staging changes nothing.
* With an event capacity of `usize::MAX` the saturating addition leaves no extra slot for a flush
  command, and a run that fills the channel leads a flush into its `Full` branch (`FullIsReachable`).
  `FullIsDeadExactly`: the `Full` branches are dead if and only if the capacity is smaller or there is
  no channel. A flush call that waits for a barrier whose leader took that branch can then no longer
  return `Flushed`, although its own deadline has not passed and nothing failed; `FlushSucceeds` and
  `DoomedNeverSucceeds` say exactly which calls can.
* A TLS listener restore that fails gives back every unit of quota but not the credentials it has
  already taken (`FailureCanTake`). `FailureIsFreeExactly`: it leaves all credentials if and only if
  the first entry visited takes none; `FailureIsFreeInEveryOrder`: whatever the order, if and only if
  no entry takes one.
* A configuration file that is refused stops logout for good (`RefusedForGood`): one that does not
  decode, one whose tombstone is no UUID (`MalformedTombstoneIsRefused`), and one that holds a login
  beside a tombstone, whose credential then stays in the store (`LoginBesideTombstoneIsRefused`).
  `Logout`: when nothing fails, it succeeds if and only if the file is none of these. No run turns an
  accepted file into a refused one (`Run`).

## Model

| member | source | states |
|---|---|---|
| AuditTheorems.RunsKeepInv | crates/lunatic-common-api/src/audit.rs:616-940 | the inductive invariant over admission word, depth, counters, channel, barriers, records and every call's program counter holds in every state of every interleaving |
| AuditTheorems.StepKeepsInv | crates/lunatic-common-api/src/audit.rs:616-940 | every enabled atomic step of any call or of the writer keeps the invariant |
| AuditTheorems.CloseMeansAllDurable | crates/lunatic-common-api/src/audit.rs:616-716 | once a `close_and_flush` has returned `Flushed`, every emit that ever returns `Enqueued`, before or after that point in the run, had returned it already and its record is in the sink and flushed |
| AuditTheorems.FlushedMeansDurable | crates/lunatic-common-api/src/audit.rs:719-823 | a flush call that returned `Flushed`, leading or joining a barrier, made durable every event whose emit had returned `Enqueued` before the call began |
| AuditTheorems.FlushedBarrierCovers | crates/lunatic-common-api/src/audit.rs:488-540 | a barrier completed with `Flushed` covers every event counted below its epoch, wherever its waiters came from |
| AuditTheorems.FlushedCallCovers | crates/lunatic-common-api/src/audit.rs:739-823 | in any reachable state, the events a returned flush call had to cover are durable |
| AuditTheorems.FlushedCloseCovers | crates/lunatic-common-api/src/audit.rs:685-716 | in any reachable state, all events of returned emits are durable for a returned close |
| AuditTheorems.SendsSucceed | crates/lunatic-common-api/src/audit.rs:578-582 | over every run and every capacity: no call is ever on a `Disconnected` branch, nor on a `Full` one where the flush slot is reserved; the channel holds at most the event capacity in events and at most one flush command |
| AuditCapacity.FullIsDeadExactly | crates/lunatic-common-api/src/audit.rs:578-582 | no reachable state of a configuration has a call on a `Full` branch if and only if its channel has the extra slot or does not exist |
| AuditCapacity.FullIsReachable | crates/lunatic-common-api/src/audit.rs:578-582 | for every enabled configuration with the largest event capacity, a run of atomic steps that ends with a flush leader on its `Full` branch |
| AuditCapacity.Fills | crates/lunatic-common-api/src/audit.rs:616-676 | emits alone reach a channel holding any number of events up to that capacity, all of them enqueued |
| AuditTheorems.PendingMeansIncomplete | crates/lunatic-common-api/src/audit.rs:739-812 | `flush_pending` is raised only while the newest barrier, and no other, lacks an outcome |
| AuditProgress.NoWaitInVain | crates/lunatic-common-api/src/audit.rs:519-540 | in every state of every run, a call parked on a barrier has a continuation without a passed deadline or a failed sink call after which that barrier has its outcome and the call goes on, although the leader may have timed out |
| AuditProgress.BarriersComplete | crates/lunatic-common-api/src/audit.rs:719-940 | from any reachable state with live handles, steps of the writer and of the one leader, if there is one, give every barrier its outcome and move nobody else |
| AuditProgress.WriterDrains | crates/lunatic-common-api/src/audit.rs:883-940 | the writer alone empties the channel from any reachable state |
| AuditProgress.LeaderDelivers | crates/lunatic-common-api/src/audit.rs:739-812 | with the channel drained, a leader anywhere on its way sends its barrier or completes the one it has given up, and leaves no leader behind |
| AuditAnswers.AnswersAreOutcomes | crates/lunatic-common-api/src/audit.rs:814-823 | every returned flush or close call returns the outcome of the barrier it waited for, or without one says that its deadline passed, that auditing is disabled, or that there is no writer; in a run without a failed sink call none returns `SinkFailed` |
| AuditAnswers.NoFailureNoBlame | crates/lunatic-common-api/src/audit.rs:883-940 | in every state of a run without a failed sink call no barrier's outcome is `SinkFailed` and the sink stays available to emits |
| AuditAnswers.FailStop | crates/lunatic-common-api/src/audit.rs:883-940 | after one failed sink call no record is ever written again and no barrier without an outcome ever gets `Flushed`, in every continuation of every run |
| AuditAnswers.BatchFlagIsRedundant | crates/lunatic-common-api/src/audit.rs:883-940 | in every state of every run, a sink flush that began with an available sink finds `batch_failed` unset, so the outcome depends on the sink's availability and the flush alone |
| AuditAnswers.RunsKeepAnswers | crates/lunatic-common-api/src/audit.rs:719-823 | in every state of every run returned calls and barriers agree, no barrier is closed, none is timed out where the flush slot is reserved, and the lock is with a call that releases it |
| AuditAnswers.StaysDoomed | crates/lunatic-common-api/src/audit.rs:719-823 | no step of any kind saves a call whose deadline has passed or whose barrier has been given up |
| AuditCompletion.FlushSucceeds | crates/lunatic-common-api/src/audit.rs:685-823 | from every state of every run without a failed sink call, every flush or close call that is not doomed, wherever it stands, has a continuation without a passed deadline or a failed call in which it returns `Flushed`: emitters leave, the lock is released, older barriers complete, and it leads or joins one that covers what it requires |
| AuditCompletion.DoomedNeverSucceeds | crates/lunatic-common-api/src/audit.rs:739-823 | conversely, no continuation whatsoever lets a doomed call return `Flushed` |
| AuditCompletion.SuccessIsDecided | crates/lunatic-common-api/src/audit.rs:685-823 | both together: while no sink call has failed, a flush or close call has a continuation in which nothing goes wrong and it returns `Flushed` if and only if it is not doomed |
| AuditCompletion.OnlyDeadlinesDoom | crates/lunatic-common-api/src/audit.rs:578-582 | where the flush slot is reserved and no sink call failed, a call is doomed if and only if its own deadline has passed |
| AuditCompletion.DeadlinesHold | crates/lunatic-common-api/src/audit.rs:685-823 | from every state of every run, a flush or close call whose deadline has passed returns within ten steps of its own, whatever the others do or hold |
| AuditCompletion.GuardsLeave | crates/lunatic-common-api/src/audit.rs:616-676 | from every reachable state the emits that hold a guard release it by their own steps, so a close can drain them |
| AuditCompletion.LockFrees | crates/lunatic-common-api/src/audit.rs:739-770 | whoever holds the flush lock releases it by its own steps |
| AuditEmitAlone.UndisturbedEmit | crates/lunatic-common-api/src/audit.rs:616-676 | from every state of every run, an emit that runs undisturbed returns the first reason to drop its event or `Enqueued`, counts one attempt and that one outcome, leaves every other counter and the admission word as they were, and appends its event exactly if it is accepted |
| AuditEmitAlone.AcceptedBelowCapacity | crates/lunatic-common-api/src/audit.rs:642-663 | in every state of every run with the flush slot reserved, admission open and the sink available, the next emit is accepted if and only if fewer events are queued than the configured capacity, where zero counts as one |
| AuditFlushSteps.KeepsHeld | crates/lunatic-common-api/src/audit.rs:739-812 | a leader gives its barrier up only by sending or completing it, so a barrier without an outcome stays with a leader, in the channel or with the writer |
| AuditWriterSteps.KeepsHeld | crates/lunatic-common-api/src/audit.rs:914-934 | the writer takes a barrier from the channel and keeps it until it completes it |
| AuditTheorems.AdmissionWord | crates/lunatic-common-api/src/audit.rs:847-874 | the admission word is the closed bit plus the number of calls holding a guard, with no carry or borrow between them |
| AuditTheorems.RecordsInOrder | crates/lunatic-common-api/src/audit.rs:883-913 | written records carry 1, 2, 3, ... and are the channel's events in order without a gap |
| AuditTheorems.Conservation | crates/lunatic-common-api/src/audit.rs:616-676 | at quiescence attempts equal written plus failed writes plus the four kinds of drops plus queue depth, although two threads bump one counter and one counter is rolled back |
| AuditTally.CountersMatchOutcomes | crates/lunatic-common-api/src/audit.rs:616-676 | at quiescence each counter is the number of emit calls that returned its outcome, and enqueued events are written, failed, skipped or still queued |
| AuditTally.TimeoutsAreCounted | crates/lunatic-common-api/src/audit.rs:719-823 | in every state the timeout counter is the number of flush and close calls that timed out |
| AuditTally.FailuresAreCounted | crates/lunatic-common-api/src/audit.rs:883-940 | in every state the failure counters are the numbers of sink calls, and of sink flushes, that failed so far |
| AuditTally.ClosedFlagMeans | crates/lunatic-common-api/src/audit.rs:685-940 | in every state the closed flag is up if and only if auditing is enabled and the writer could not be started, a close call has raised it, or the writer has ended |
| AuditTheorems.QuietStays | crates/lunatic-common-api/src/audit.rs:847-868 | once closed with no guard left, no run of steps ever lets another emit return `Enqueued` |
| AuditTheorems.SeenStays | crates/lunatic-common-api/src/audit.rs:719-735 | what a call must cover is fixed when it begins, and a returned call never changes |
| AuditEmitSteps.EmitKeepsInv | crates/lunatic-common-api/src/audit.rs:616-676 | every atomic operation of `emit`, including both rollback paths and the guard's drop, keeps the invariant |
| AuditEmitSteps.RoomForEvent | crates/lunatic-common-api/src/audit.rs:642-663 | a reserved emit finds at most the event capacity in the channel, so it finds room wherever the channel is larger than that |
| AuditFlushSteps.FlushKeepsInv | crates/lunatic-common-api/src/audit.rs:685-823 | every atomic operation of `flush_with_timeout` and `close_and_flush` keeps the invariant |
| AuditFlushSteps.RoomForFlush | crates/lunatic-common-api/src/audit.rs:739-812 | the leader of a barrier finds at most the event capacity in the channel, so it finds room for its flush command wherever the channel is larger than that |
| AuditFlushSteps.LeaderFindsNoFlush | crates/lunatic-common-api/src/audit.rs:739-812 | whoever is about to send a flush command is the only one who could have one in the channel |
| AuditWriterSteps.WriterKeepsInv | crates/lunatic-common-api/src/audit.rs:883-940 | every step of the writer loop, with any sink result, keeps the invariant |
| AuditWriterSteps.BeginKeepsInv | crates/lunatic-common-api/src/audit.rs:616-735 | a new call of any kind keeps the invariant |
| AuditWriterSteps.DropKeepsInv | crates/lunatic-common-api/src/audit.rs:569-612 | dropping the last handle keeps the invariant |
| Utf8.RoundTrip | src/mode/credential_store.rs:207-267 | every text survives encoding and decoding |
| Utf8.Canonical | src/mode/credential_store.rs:207-267 | only the shortest form of a text decodes to it |
| Base64.RoundTrip | src/mode/credential_store.rs:176-205 | every byte string survives encoding and decoding |
| Base64.Canonical | src/mode/credential_store.rs:207-267 | only the encoding of a byte string decodes to it, so stray trailing bits are refused |
| Base64.SymbolsAreTheAlphabet | src/mode/credential_store.rs:195 | the symbols are the text of table 1 of RFC 4648 |
| CredentialCodec.RoundTrip | src/mode/credential_store.rs:176-267 | every credential that encodes decodes to itself |
| CredentialCodec.Canonical | src/mode/credential_store.rs:207-267 | every accepted byte string is exactly the encoding of the credential it decodes to |
| CredentialCodec.EncodingsIdentify | src/mode/config.rs:633-646 | equal encodings mean equal credentials, which is what verification compares |
| CredentialCodec.SizeCeiling | src/mode/credential_store.rs:176-205 | a valid credential is refused exactly when a field or its record, at 1780 bytes, is too large, and then as too large |
| CredentialCodec.ValidMeans | src/mode/credential_store.rs:153-174 | a credential is valid if and only if its version is 1, its URL is in canonical form, its IDs are not empty, and it has 1 to 64 cookies each with an equals sign that is not its first character |
| CredentialCodec.Envelope | src/mode/credential_store.rs:195-204 | what is stored is the fixed prefix and the base64 of the record, 2400 bytes at most |
| CredentialCodec.RecordBegins | src/mode/credential_store.rs:178-180 | the record begins with the seven magic bytes and the version |
| CredentialCodec.BeDigit | src/mode/credential_store.rs:677-687 | each byte of a number is the digit of its weight, the most significant first |
| CredentialCodec.CookieLayout | src/mode/credential_store.rs:185-194 | a cookie is the length and bytes of its text, a tag that is 1 exactly if it expires, and then the expiry, byte by byte |
| CredentialCodec.RecordInverse | src/mode/credential_store.rs:176-205 | the binary record parses back to the credential |
| CredentialCodec.RecordAccepts | src/mode/credential_store.rs:207-267 | a parsed record is the record of what it parsed to, with nothing left over |
| CredentialCodec.BodyInverse | src/mode/credential_store.rs:181-194 | the fields after the version parse back, whatever their contents |
| CredentialCodec.BodyAccepts | src/mode/credential_store.rs:222-257 | the fields parse only from the bytes their printers write |
| CredentialCodec.CookiesInverse | src/mode/credential_store.rs:185-194 | a printed cookie list parses back in front of any rest |
| CredentialCodec.CookieInverse | src/mode/credential_store.rs:185-194 | a printed cookie parses back in front of any rest |
| CredentialCodec.CookieAccepts | src/mode/credential_store.rs:241-253 | a cookie parses only from its own bytes, so the expiry tag is 0 or 1 |
| CredentialCodec.TextInverse | src/mode/credential_store.rs:683-687 | a printed text parses back in front of any rest |
| CredentialCodec.CookiesAccept | src/mode/credential_store.rs:239-254 | the cookie list parser accepts only what the printer writes, in front of any rest |
| CredentialCodec.TextAccepts | src/mode/credential_store.rs:713-725 | a length-prefixed text parses only from its own bytes |
| CredentialRecord.Encode | src/mode/credential_store.rs:176-205 | the buffer-appending encoder computes the specified encoding, or the specified error |
| CredentialRecord.Decode | src/mode/credential_store.rs:207-267 | the slice-advancing decoder computes the specified decoding, or the specified error |
| CredentialRecord.EncodeRecord | src/mode/credential_store.rs:178-194 | succeeds exactly when every length fits 32 bits, with the specified record in the buffer |
| CredentialRecord.EncodeHead | src/mode/credential_store.rs:178-184 | the buffer holds magic, version, three texts and the cookie count, exactly if all lengths fit |
| CredentialRecord.EncodeCookies | src/mode/credential_store.rs:185-194 | the loop appends exactly the specified cookie records |
| CredentialRecord.DecodeCookies | src/mode/credential_store.rs:239-254 | the cookie loop consumes what the recursive parser consumes and fails when it fails |
| CredentialRecord.Buffer.PushBytes | src/mode/credential_store.rs:677-687 | appends length and bytes, or nothing when the length does not fit |
| CredentialRecord.Buffer.PushU32 | src/mode/credential_store.rs:677-681 | appends four big-endian bytes, or nothing when the value does not fit |
| CredentialRecord.Buffer.PushCookie | src/mode/credential_store.rs:185-194 | appends the cookie's record |
| CredentialRecord.Reader.TakeText | src/mode/credential_store.rs:713-725 | takes what the text parser takes |
| CredentialRecord.Reader.TakeU8 | src/mode/credential_store.rs:689-693 | takes the first byte, if there is one |
| CredentialRecord.Reader.TakeExact | src/mode/credential_store.rs:718-725 | takes exactly that many bytes, if there are as many |
| CredentialRecord.Reader.TakeU32 | src/mode/credential_store.rs:695-702 | takes four bytes as a big-endian number |
| CredentialRecord.Reader.TakeU64 | src/mode/credential_store.rs:704-711 | takes eight bytes as a big-endian number |
| CredentialRecord.Reader.TakeCookie | src/mode/credential_store.rs:241-253 | takes what the cookie parser takes |
| Cookies.FoldAttributes | src/mode/credential_store.rs:311-342 | the loop accepts exactly when every Max-Age, and every Expires not preceded by a Max-Age, parses; its expiry is the last Max-Age, else the last Expires, else the local limit |
| Cookies.Parse | src/mode/credential_store.rs:292-348 | accepts exactly the headers the rule accepts and gives the cookie the rule gives |
| Cookies.ClassifyMeans | src/mode/credential_store.rs:315-341 | a segment that reads name, equals sign, value is a Max-Age or an Expires with that value if its name is one of these in any ASCII case, and otherwise ignored |
| Cookies.MaxAgeMeans | src/mode/credential_store.rs:318-332 | a Max-Age that is a signed decimal numeral is refused exactly outside 64 bits; otherwise it means now if not positive, else the earliest of that many seconds from now, thirty days from now and the last second there is |
| Cookies.MaxAgeNeedsNumeral | src/mode/credential_store.rs:318-322 | no other Max-Age is accepted |
| Cookies.ExpiresMeans | src/mode/credential_store.rs:333-340 | an Expires that is an HTTP date, with any white space around it, means second 0 if it is before the epoch, else the earliest of that second, thirty days from now and the last second there is; any other value is refused |
| Cookies.AttributeRecognized | src/mode/credential_store.rs:314-341 | the two attribute names are recognized in any letter case and after any white space |
| Cookies.ExpiresHeader | src/mode/credential_store.rs:292-348 | a header whose only attribute is an Expires is accepted if and only if it has no line break, names its cookie and holds a date, and the cookie then expires when that date says |
| Cookies.PlainHeader | src/mode/credential_store.rs:311-313 | a cookie without attributes lasts thirty days |
| Cookies.CookieValueMeans | src/mode/credential_store.rs:298-310 | the cookie is the first segment without the white space around it, if and only if what precedes its first equals sign is not all white space |
| Cookies.HeaderSegments | src/mode/credential_store.rs:298-314 | every header is its segments joined with semicolons, and its attributes are those segments after the first, in order |
| Cookies.SegmentsMakeHeader | src/mode/credential_store.rs:298-314 | conversely, joining any semicolon-free segments gives a header with exactly those attributes |
| Cookies.ExpiryDetermined | src/mode/credential_store.rs:311-342 | the rule leaves one expiry |
| Cookies.ExpiryBounded | src/mode/credential_store.rs:311-342 | no accepted header yields an expiry beyond thirty days from now |
| Cookies.FromSetCookieHeaders | src/mode/credential_store.rs:80-113 | builds a valid credential with one cookie per header, in order, exactly when all headers and fields are acceptable |
| Cookies.AcceptedGives | src/mode/credential_store.rs:292-348 | every header the rule accepts gives a cookie |
| Cookies.GivesOne | src/mode/credential_store.rs:292-348 | and only one |
| Cookies.UsableOnlyBriefly | src/mode/credential_store.rs:132-151 | a received credential is usable exactly until its first cookie expires, and never for thirty days |
| Cookies.CookieHeaderSplits | src/mode/credential_store.rs:145-150 | the text sent splits at its separator into every cookie's value, in order, if no value holds the separator |
| Cookies.ReceivedValuesSplit | src/mode/credential_store.rs:145-150 | as no received value does |
| Text.SplitJoin | src/mode/credential_store.rs:298-314 | splitting at semicolons loses nothing |
| Text.JoinSplit | src/mode/credential_store.rs:298-314 | splitting a joined list of separator-free pieces gives the list back, so the pieces are exactly the segments |
| Text.SplitOnce | src/mode/credential_store.rs:303-315 | splits at the first separator, exactly if there is one, and loses nothing |
| Text.TrimOf | src/mode/credential_store.rs:301-315 | trimming white space, a tight text and white space gives the text |
| Text.TrimMeans | src/mode/credential_store.rs:301-315 | and every text is of that form |
| Text.AttributeNames | src/mode/credential_store.rs:316-334 | comparison without regard to ASCII case accepts exactly the spellings of the two names in letters of either case |
| Text.JoinSplitPair | src/mode/credential_store.rs:145-150 | splitting at a two-character separator undoes joining pieces that do not hold it |
| Text.NumeralsParse | src/mode/credential_store.rs:319-322 | an optional sign, any leading zeros and the decimal numeral of n parse to the signed n, exactly if that is in 64-bit range |
| Text.OnlyNumeralsParse | src/mode/credential_store.rs:319-322 | nothing else parses, and the parsed number is the one the numeral denotes |
| CredentialMachine.RecordCodecIsFaithful | src/mode/config.rs:633-646 | the record codec has the two inverse laws the transaction relies on |
| CredentialMachine.CleanMeansEmpty | src/mode/config.rs:547-631 | a file without login or tombstone means an empty store |
| CredentialMachine.PowerLossKeepsSafe | src/mode/config.rs:253-279 | no credential is orphaned whichever version of the file survives a power loss |
| CredentialMachine.Machine.WriteConfig | src/mode/config.rs:253-279 | fails before replacement with nothing changed, or replaces the file with or without durability; refuses to be called where it would orphan an entry |
| CredentialMachine.Machine.Put | src/mode/credential_store.rs:411-420 | may leave the entry in any state, may only be called for a reference every surviving file names |
| CredentialMachine.Machine.Get | src/mode/credential_store.rs:422-429 | answers what the entry decodes to, that it is missing, or not at all |
| CredentialMachine.Machine.Delete | src/mode/credential_store.rs:431-437 | may remove the entry or do nothing, and never changes another |
| CredentialMachine.Machine.Crash | src/mode/config.rs:253-279 | the process may die in any state exposed since the command began, with or without a power loss, and safety holds |
| CredentialMachine.Machine.VerifyCredential | src/mode/config.rs:633-646 | success means the entry holds exactly the expected credential |
| CredentialMachine.Machine.DeleteCredentialVerified | src/mode/config.rs:648-661 | success means the entry is gone, whatever `delete` answered |
| CredentialMachine.Machine.RollbackCredential | src/mode/config.rs:663-675 | success means the previous credential is back, or the entry is gone |
| CredentialTransaction.Migrate | src/mode/config.rs:491-538 | success commits the derived reference with exactly the migrated credential; other failures than uncertain durability leave the legacy file, and without rollback failure no copy of a new credential; when nothing fails it succeeds if and only if provider, login ID and cookies mean a credential that encodes |
| CredentialTransaction.WriteEmpty | src/mode/config.rs:480-489 | a file without login becomes a current one without login, or stays |
| CredentialTransaction.Load | src/mode/config.rs:453-538 | success means the file holds the loaded, valid configuration; only missing and legacy files are ever changed; a file that does not decode or whose tombstone is not acceptable always fails; when nothing fails it succeeds if and only if the file is missing, current and valid, or a legacy one whose login, if any, can be migrated; what it gives is a function of the file, and a migrated login is one a refresh accepts |
| CredentialTransaction.ConfigManager.ClearStagedTombstone | src/mode/config.rs:677-691 | memory follows the file, whether the tombstone could be cleared or not |
| CredentialTransaction.ConfigManager.Refresh | src/mode/config.rs:1017-1056 | the entry holds the new credential, or on any error but a rollback failure exactly the previous one |
| CredentialTransaction.ConfigManager.FirstLogin | src/mode/config.rs:1001-1070 | tombstone first, provider last: success leaves provider and credential together and durable, every exit leaves memory and file in step |
| CredentialTransaction.ConfigManager.LoginLoaded | src/mode/config.rs:962-1070 | success maps the provider on disk to the credential of these headers; an existing login survives every refusal but a failed rollback; a pending tombstone refuses without touching anything; it succeeds only if, and when nothing fails exactly if, there is no tombstone, the URL parses, an existing login is for the same URL and its stored credential decodes and is in scope, and the request means a credential that encodes; the provider counts as changed if and only if there is no tombstone and both URLs parse to different ones |
| CredentialTransaction.ConfigManager.PreviousCredential | src/mode/config.rs:980-992 | the stored credential of an existing login, exactly if it decodes and is valid for this provider and application |
| CredentialTransaction.CredentialExists | src/mode/config.rs:993-1000 | a request means a credential if and only if every field and every header is acceptable |
| CredentialTransaction.CredentialUnique | src/mode/config.rs:993-1000 | and then only one |
| CredentialTransaction.ConfigManager.Login | src/mode/config.rs:948-1070 | on every exit after the load memory and disk agree; success means provider, no tombstone, and exactly the new credential, durably where the login is new; an existing login survives every refusal but a failed rollback; a refused file refuses with nothing changed; a migration on the way reads its own clock; it succeeds only if, and when nothing fails exactly if, the file loads and the login is allowed by what it loads to |
| CredentialTransaction.FinishDeletion | src/mode/config.rs:582-588 | success means store empty and tombstone durably gone |
| CredentialTransaction.Logout | src/mode/config.rs:547-631 | success only with the entry gone and the file clean; the answer says whether there was a login, and answering no writes nothing; when nothing fails it succeeds if and only if the file decodes and has no unacceptable tombstone; otherwise it always fails with nothing changed |
| CredentialTransaction.RemoveLogin | src/mode/config.rs:599-631 | commits a tombstone in place of the login before the entry is touched |
| CredentialTransaction.Run | src/mode/config.rs:432-1070 | over any number of commands, each cut short anywhere by a crash or power loss, every exposed state names each stored entry in every version of the file that may survive, and none holds both provider and tombstone; an accepted file is never turned into a refused one, and from a refused one file and store never change |
| CredentialTransaction.AnyCommand | src/mode/config.rs:453-1070 | any command with any arguments and failures keeps safety, and changes nothing at all when the file is refused |
| CredentialTransaction.LogoutConverges | src/mode/config.rs:547-631 | after any such run from a file that is not refused one undisturbed logout empties the store and the file, and the next answers no |
| CredentialTransaction.LogoutConvergesForRecords | src/mode/config.rs:547-631 | the same with the record codec itself as the codec of the store, from any safe file and store |
| CredentialTransaction.RefusedForGood | src/mode/config.rs:563-576 | after any number of commands, crashes and power losses from a file that does not decode or has an unacceptable tombstone, a logout still fails and file and store are what they were |
| CredentialTransaction.MalformedTombstoneIsRefused | src/mode/config.rs:569-572 | the failing case, concretely: a tombstone that is no UUID, on stores that never fail |
| CredentialTransaction.LoginBesideTombstoneIsRefused | src/mode/config.rs:569-576 | the other one: a login beside a tombstone, whose credential is still in the store after any run and a logout |
| BearerToken.RunInvariant | crates/lunatic-control-axum/src/server.rs:77-136 | over every sequence of presentations and stagings: the current bearer is the one promoted last, pending differs from it, the generation counts the promotions, the lease ends one TTL after the last success |
| BearerToken.LeaseBoundsUse | crates/lunatic-control-axum/src/server.rs:87-109 | no bearer is accepted more than one TTL after the last success or the registration |
| BearerToken.CurrentIsAccepted | crates/lunatic-control-axum/src/server.rs:87-109 | after every run the bearer promoted last is accepted for one TTL after the last success, at the generation that counts the promotions; this renews the lease and moves nothing else |
| BearerToken.AcceptanceDecided | crates/lunatic-control-axum/src/server.rs:87-109 | after every run exactly the bearer promoted last and, below the last generation, the staged one are accepted, and only within the lease; a refusal changes nothing |
| BearerToken.StagingDecided | crates/lunatic-control-axum/src/server.rs:111-131 | after every run a staging succeeds if and only if it names the number of promotions, that is not the last generation, its bearer is not current and no other is staged; it promises the next generation and leaves current bearer and lease |
| BearerToken.ReplacedTokenRefused | crates/lunatic-control-axum/src/server.rs:87-131 | a bearer that was current once is accepted later only as current or if it was staged again |
| BearerToken.PendingNeedsStaging | crates/lunatic-control-axum/src/server.rs:111-131 | a bearer becomes pending only by a staging at the then current generation |
| BearerToken.StagedStays | crates/lunatic-control-axum/src/server.rs:87-131 | whatever is presented or staged meanwhile, until it is promoted a staged bearer stays staged, and current bearer and generation stay as they were |
| BearerToken.RotationCompletes | crates/lunatic-control-axum/src/server.rs:87-131 | so presenting the staged bearer within the lease, however many requests later, makes it the current one at the next generation, and from then on the old one is refused |
| BearerToken.HeldWasIssued | crates/lunatic-control-axum/src/server.rs:87-131 | over every sequence of operations only the first bearer and staged ones are ever current or pending |
| BearerToken.ReplacedNeedsRestaging | crates/lunatic-control-axum/src/server.rs:87-131 | a bearer current at any point of a run and replaced later is accepted again only if it was staged after that point |
| BearerToken.RefusedStagingIsIdle | crates/lunatic-control-axum/src/server.rs:111-131 | a refused staging changes nothing if and only if it is not the first staging at the last generation |
| BearerToken.EveryGenerationIsReached | crates/lunatic-control-axum/src/server.rs:77-131 | for every generation up to the last, a run of stagings and presentations from a new verifier that ends at it |
| BearerToken.ExhaustedStagingStillStages | crates/lunatic-control-axum/src/server.rs:111-131 | the failing case at the end of such a run: refused as exhausted, and staged |
| ControlServer.ControlServer.constructor | crates/lunatic-control-axum/src/server.rs:170-189 | a new server is empty and keeps the invariant |
| ControlServer.ControlServer.Register | crates/lunatic-control-axum/src/server.rs:209-235 | refuses exactly a live duplicate name or a failed issue, changing nothing but the purge; else adds one fresh registration |
| ControlServer.ControlServer.Enroll | crates/lunatic-control-axum/src/server.rs:222-233 | a new registration under the next ID keeps names unique |
| ControlServer.ControlServer.StartNode | crates/lunatic-control-axum/src/server.rs:237-316 | succeeds exactly if the registration is live with this generation at both ends of the signing and an ID is left; then replaces its node and certificate together; otherwise only purges, and a failed signing keeps node and counter |
| ControlServer.ControlServer.CommitNode | crates/lunatic-control-axum/src/server.rs:290-316 | one node per registration, holding the certificate signed for its ID, under an ID never issued before |
| ControlServer.ControlServer.StageBearerRotation | crates/lunatic-control-axum/src/server.rs:318-337 | a vanished registration or a stale generation changes nothing but the purge |
| ControlServer.ControlServer.Authenticate | crates/lunatic-control-axum/src/server.rs:339-364 | accepts exactly if some live registration of that name takes the bearer, and moves only its verifier; an accepted bearer was issued at registration or staged, is presented within one TTL of the last success, and if it had been replaced was staged again since; the current bearer of a live registration is accepted under its name at its generation and renews the lease, the pending one is promoted at the next, and any other is refused |
| ControlServer.AcceptedIsJustified | crates/lunatic-control-axum/src/server.rs:87-131 | the run theorems put together for a verifier that is the replay of its past: what acceptance says about that past |
| ControlServer.HolderIsAccepted | crates/lunatic-control-axum/src/server.rs:347-363 | names being unique, the answer to a bearer is that of the one live registration of the name |
| ControlServer.LiveMeans | crates/lunatic-control-axum/src/server.rs:405-417 | a registration outlives a purge if and only if one TTL has not passed since its last success |
| ControlServer.ControlServer.Match | crates/lunatic-control-axum/src/server.rs:347-363 | the scan stops at an accepting registration and leaves refusing ones as they were |
| ControlServer.ControlServer.Offer | crates/lunatic-control-axum/src/server.rs:348-361 | one registration accepts or refuses; a refusal leaves every verifier as it was, an acceptance moves only that one |
| ControlServer.ControlServer.Apply | crates/lunatic-control-axum/src/server.rs:77-136 | every live verifier stays a replay of its own past, so the run theorems hold of it |
| ControlServer.ControlServer.StopNode | crates/lunatic-control-axum/src/server.rs:366-383 | removes the registration and its node, exactly for the current generation, without purging expired registrations first |
| ControlServer.ControlServer.StopNodesForRegistration | crates/lunatic-control-axum/src/server.rs:385-395 | removes exactly the nodes of one registration |
| ControlServer.ControlServer.RemoveRegistrations | crates/lunatic-control-axum/src/server.rs:412-416 | removing registrations one by one leaves exactly the nodes of the remaining ones |
| ControlServer.ControlServer.PurgeExpiredLocked | crates/lunatic-control-axum/src/server.rs:405-417 | removes exactly the registrations whose last success is more than one TTL ago, and their nodes, and counts them |
| ControlServer.ControlServer.AddModule | crates/lunatic-control-axum/src/server.rs:419-446 | stores under a fresh ID exactly if the caller's authority still holds after the upload |
| ControlServer.ControlServer.StoreModule | crates/lunatic-control-axum/src/server.rs:443-445 | the bytes are stored under an ID never handed out before |
| ControlServer.ControlServer.Serve | crates/lunatic-control-axum/src/server.rs:209-446 | over every run of requests names are unique, every node belongs to a registration that has no other and holds the certificate signed for it, no node or module ID is handed out twice, and modules never change |
| ControlServer.ControlServer.Handle | crates/lunatic-control-axum/src/server.rs:209-446 | every request keeps the whole invariant |
| Tables.HashMapId.Add | crates/hash-map-id/src/lib.rs:24-29 | the next ID, never used before |
| Tables.HashMapId.Remove | crates/hash-map-id/src/lib.rs:31-33 | removes and returns exactly that item |
| Tables.HashMapId.constructor | crates/hash-map-id/src/lib.rs:17-22 | a new table is empty and counts from zero |
| Tables.HashMapId.Run | crates/hash-map-id/src/lib.rs:24-33 | over every run of additions and removals IDs strictly increase, so none names two items |
| ResourceQuota.ResourceStats.ReserveHandle | src/state.rs:291-311 | one descriptor and one network unit, or neither, exactly if both have room |
| ResourceQuota.ResourceStats.ReleaseHandle | src/state.rs:313-328 | gives both back, or neither |
| ResourceQuota.ResourceStats.DropLeases | crates/lunatic-networking-api/src/lib.rs:244-252 | dropping n leases gives back exactly n of each |
| ResourceQuota.ResourceStats.TransferLease | crates/lunatic-networking-api/src/lib.rs:204-226 | moves one unit between quotas, or leaves both as they were, and says exactly when |
| ResourceQuota.ResourceStats.Perform | src/state.rs:139-329 | each quota operation takes effect exactly when permitted and keeps every ceiling |
| ResourceQuota.ResourceStats.Run | src/state.rs:139-329 | over every run ceilings hold and counts are the sum of the operations that took effect |
| ResourceQuota.ResourceStats.SetLimits | src/state.rs:240-251 | new ceilings over unchanged counts |
| ResourceQuota.ResourceStats.constructor | src/state.rs:127-138 | nothing open; the DNS ceiling is the network ceiling |
| ResourceQuota.ResourceStats.ReserveFileDescriptor | src/state.rs:140-153 | one more descriptor, exactly below the ceiling |
| ResourceQuota.SqliteStats.SetLimits | crates/lunatic-sqlite-api/src/sqlite_bindings.rs:85-94 | new ceilings over unchanged counts |
| ProcessConfig.ValidateRetainedValuesAgainst | src/config.rs:530-565 | the checked accumulating loops give the verdict of the unbounded totals, overflow included |
| ProcessConfig.AddStrings | src/config.rs:546-549 | the loop's checked sum is the total, or overflow exactly if the total overflows |
| ProcessConfig.AddPairs | src/config.rs:550-557 | the same for pairs |
| ProcessConfig.RetainedMeans | src/config.rs:530-557 | the counts are the number of retained entries and the UTF-8 length of all their texts put one after the other |
| ProcessConfig.ValidatePreopens | src/config.rs:376-378 | passes exactly if every directory can be delegated |
| Attenuation.ReachIsDownward | src/config.rs:919-924 | whoever reaches a path reaches every path that continues it |
| Attenuation.CoversMeans | src/config.rs:919-924 | a directory covers exactly the paths that are what it resolves to followed by some suffix |
| Attenuation.DelegationMeans | src/config.rs:715-743 | a directory may be delegated if and only if it resolves to a directory that is what one of the parent's preopens resolves to followed by some suffix |
| Attenuation.PreopensMeanFiles | src/config.rs:715-743 | the preopen checks pass if and only if every directory resolves and the child reaches no path the parent cannot |
| Attenuation.ValidateDecides | src/config.rs:260-380 | a child validates if and only if it is sound by itself, its directories resolve, and it is below the parent in the authority order |
| Attenuation.CeilingsMeanOrder | src/config.rs:274-375 | the comparisons pass if and only if the fifteen ceilings are pointwise at most the parent's |
| Attenuation.WithinIsTransitive | src/config.rs:260-380 | the authority order is transitive |
| Attenuation.ChainAttenuates | src/state.rs:565-572 | in a spawn chain of any depth every descendant is within every ancestor: capabilities, ceilings with unlimited fuel on top, and reachable files |
| Attenuation.NewChildValidates | src/config.rs:232-258 | a fresh child validates if and only if three limits of the parent are non-zero, so for every valid parent; it has the parent's ceilings, less capability than anyone, and reaches no file |
| Attenuation.DistributedMeansDefaultChild | src/config.rs:382-494 | a remote node accepts exactly what its default configuration accepts as a child, on any filesystem |
| Attenuation.DistributedDecides | src/config.rs:382-494 | a remote configuration is accepted if and only if it is sound, holds no capability and no preopened directory, and stays below the fifteen default ceilings; fuel does not matter |
| Attenuation.RemoteChainStaysWithinDefault | src/state.rs:1539-1548 | everything spawned below a remotely spawned process is within the default, holds no capability and reaches no file |
| TlsCredentials.SingleUse | src/tls_credentials.rs:95-127 | two takes of one handle have a new provision of it in between |
| TlsCredentials.AnswerIsDue | src/tls_credentials.rs:214-235 | what is stored answers a take exactly as the history of provisions and takes says it must |
| TlsCredentials.Provider.Provision | src/tls_credentials.rs:179-212 | purges what expired, refuses exactly at capacity or past the end of time, else stores under an unused handle; the capacity is never exceeded; exactly the expired credentials are dropped |
| TlsCredentials.Provider.FirstUnused | src/tls_credentials.rs:197-202 | the drawing loop ends with a drawn handle that is not in use |
| TlsCredentials.Provider.Take | src/tls_credentials.rs:214-235 | gives the material only to its scope and before expiry, and then uses the handle up; every take in the history used up one provision with its scope and material within its TTL; with a clock that does not run back a take succeeds if and only if this process was provisioned that handle less than one TTL ago and nothing happened to the handle since |
| TlsCredentials.Provider.Revoke | src/tls_credentials.rs:121-127 | succeeds exactly when a take would; the handle is gone exactly if it was of this scope, and no other credential is touched |
| TlsCredentials.Provider.constructor | src/tls_credentials.rs:152-158 | a new provider is empty |
| ProcessState.CanTransfer | src/state.rs:771-871 | the sequence of checks and scans decides the transfer condition |
| ProcessState.TransferMeans | src/state.rs:771-871 | the transfer condition: what is open is at least what the tables hold and fits the new ceilings, the replacement is untouched, it could hold the retained values and reach the files of this configuration, and could have created every module and configuration itself |
| ProcessState.InheritedIsSound | src/state.rs:818-871 | what a transfer hands over is accounted for, within every new ceiling, and holds only configurations within the replacement's authority |
| ProcessState.NewState | src/state.rs:488-559 | refuses exactly unsound limits, more preopens than descriptors, or a directory that does not open; else a process that owns its preopens, one descriptor each, and nothing else |
| ProcessState.Spawn | src/state.rs:565-631 | refuses exactly a child that does not validate under its parent, has more preopens than descriptors, or does not open one; else a process like a new one, with its own scope, within its parent's authority and on the parent's provider |
| ProcessState.State.Commit | src/state.rs:888-904 | everything owned changes hands, under the replacement's ceilings, with every quota within its ceiling on both sides |
| ProcessState.State.AdoptLimits | src/state.rs:888-895 | both quotas take the replacement's ceilings over unchanged counts |
| ProcessState.State.Swap | src/state.rs:896-902 | all seven owned parts change hands |
| ProcessState.State.TransferRuntimeResourcesTo | src/state.rs:767-905 | succeeds exactly under the transfer condition; on failure neither process nor quota changes; on success the target has the source's very tables, IDs and quota object, and the source the target's; what the target then holds is accounted for, within its ceilings, and within its authority |
| ProcessState.ScanConfigs | src/state.rs:856-871 | the scan passes exactly if every carried configuration validates under the replacement's |
| ProcessState.ScanModules | src/state.rs:841-855 | the scan passes exactly if every module fits |
| TlsPreflight.PreflightDecides | src/state.rs:1088-1119 | in whatever order the entries come, taking them one by one succeeds exactly when all are ready: parsable, bindable, with a live credential of their own |
| TlsPreflight.PreparedMeans | src/state.rs:1088-1119 | ready in turn means ready from the start with an unused handle; the credentials left are those no entry used |
| TlsPreflight.PreparedListens | src/state.rs:1112-1118 | each prepared listener has its entry's address and its handle's material |
| TlsPreflight.PrepareOne | src/state.rs:1094-1118 | a listener and one unit of quota, or no unit; in either case the entry's credential is used up exactly if the entry is well formed and the credential exists in this scope, and no other is touched |
| TlsPreflight.TakeFor | src/state.rs:1094-1105 | the steps up to the take: the exact credentials left on every path, and material exactly for an entry that is ready apart from the bind |
| TlsPreflight.Preflight | src/state.rs:1088-1119 | all entries prepared and leased, or the quota exactly as before; on failure the entry it stuck at and exactly the credentials left, on success those no entry used |
| TlsPreflight.PrepareAll | src/state.rs:1093-1119 | the loop prepares in order until the first entry that is not ready or has no room; the credentials left are exactly those after the prepared entries and the attempt at that one |
| TlsPreflight.FailureIsFreeExactly | src/state.rs:1088-1119 | a failed preflight leaves all credentials if and only if the first entry visited takes none |
| TlsPreflight.FailureIsFreeInEveryOrder | src/state.rs:1088-1119 | for entries that cannot all be restored, every order of visits leaves all credentials if and only if no entry takes one |
| TlsPreflight.FailureCanTake | src/state.rs:1088-1119 | the failing case, concretely: the first entry is ready, the second has no parsable address, and the first handle is gone |
| SnapshotRestore.RestoreOne | src/state.rs:1121-1146 | an entry that binds within the ceilings is in the table with its unit; any other leaves table and quota as they were |
| SnapshotRestore.RestoreSockets | src/state.rs:1121-1172 | the table holds the usable entries in order for as long as there was room, one unit each |
| SnapshotRestore.SocketsFillRoom | src/state.rs:1121-1172 | as many sockets come back as are usable or as there is room for, whatever the order of the entries |
| SnapshotRestore.InstallTls | src/state.rs:1174-1178 | the prepared listeners are in the table under consecutive fresh IDs |
| SnapshotRestore.GainsMean | src/state.rs:1088-1178 | after a restore every TLS listener is back with its own material, and TCP then UDP fill the remaining room |
| SnapshotRestore.GrownIsPaid | src/state.rs:414-420 | after a restore open network handles equal live table entries, each with one descriptor and one network unit |
| SnapshotRestore.Rebind | src/state.rs:1121-1178 | after the preflight nothing fails: TCP, UDP, then the prepared TLS listeners, one unit for each new entry |
| SnapshotRestore.RestoreTables | src/state.rs:1088-1178 | preflight and rebinding together: all of it, or empty tables and the quota as before |
| SnapshotRestore.RestoreInto | src/state.rs:1088-1197 | the same seen from the process: every other table and count is as before, and the credentials are exactly those the preflight left |
| SnapshotRestore.RestoreResourceSnapshot | src/state.rs:1045-1197 | succeeds exactly for an empty snapshot, or without TLS streams into a process without network resources with all TLS entries ready; on error all tables and counts are as before; on success nothing but the three tables and their units changed, all TLS listeners are back and TCP then UDP fill the room; a refusal before the preflight takes no credential, a failure in it takes none if and only if the first entry visited takes none, and the credentials left are given exactly on every path |
| SnapshotRestore.SpentSpares | src/state.rs:1088-1119 | on every path, credentials the snapshot does not name stay as they were |
| SnapshotCapture.CaptureTls | src/state.rs:942-981 | a failed capture leaves none of the handles it provisioned and nothing that was not there before; a successful one gives every listener its entry and every entry with a known address a credential of its own with its material, and stores nothing else; it succeeds whenever the provider has room and time; no unexpired credential is lost either way |
| SnapshotCapture.CaptureAll | src/state.rs:943-981 | the loop up to the first listener without a credential, and why it stopped there: the end of time or a full provider |
| SnapshotCapture.CaptureOne | src/state.rs:946-971 | one more handle, different from every live one of this capture, or an error that adds nothing |
| SnapshotCapture.RevokeAll | src/state.rs:951-955 | the rollback leaves no handle of this capture and removes nothing else |
| SnapshotCapture.CapturedIsReady | src/state.rs:907-1119 | captured and restored in one scope within the TTL, the listeners are all ready if and only if there is room for them, and each comes back with its own address and material |
| SnapshotMigration.CaptureAndRestore | src/state.rs:907-1197 | capture and restore in one scope on one provider: if the provider has room and time, addresses bind, the receiver is free with room for all, and the restore falls within the TTL, every listener and socket is back exactly once, TLS listeners with their own material, each paid for by one unit; on failure the receiver is as before |
| SnapshotMigration.RestoreCaptured | src/state.rs:1045-1197 | the restoring half, from any snapshot whose credentials are as the capture left them |
| SnapshotMigration.CaptureResourceSnapshot | src/state.rs:907-1037 | nothing for a process without network handles, else an entry for every one of them; a failure leaves no credential behind |
| SnapshotMigration.RoundTrip | src/state.rs:907-1197 | whatever order a restore visits the entries in, what it gains from a captured snapshot is exactly what was captured |
| SnapshotMigration.GainsAreThoseCaptured | src/state.rs:1088-1178 | the three tables after the restore are the captured tables under consecutive new IDs |
| SnapshotMigration.CapturedComesBack | src/state.rs:907-1119 | such a snapshot is restorable, and each TLS entry is ready with its own listener |
| SnapshotMigration.EmptyMeansIdle | src/state.rs:1033-1037 | a snapshot is empty exactly if the process had no network handle |

## Left out

- ResourceQuota.ResourceStats.Perform: one method for the file, connection and DNS operations, which differ only in the counter they move.
- ProcessState.CanTransfer: reads one snapshot of both processes' tables and counts; concurrent releases by in-flight messages during the checks are not modelled.
- SnapshotRestore.RestoreResourceSnapshot: the quota is not used by others meanwhile; a panicking credential provider, mapped to a provider failure, is not modelled.
- SnapshotCapture.CaptureTls: the provider is the ephemeral one, whose only provisioning error is a provider failure, and is not used by others meanwhile.
- TlsCredentials.Provider.Provision: the random draws are a parameter that contains an unused handle; a poisoned lock is not modelled.
- Memory orderings, condition variables, park timeouts, the log sink and the event schema of the audit dispatcher.
- The `version` field of the configuration, node status and timestamps, and the 64-bit wrap-around of the registration and module counters.
- TOML, file permissions and links, Windows file replacement, keyring back ends and their worker thread.
- Certificate signing, TLS, QUIC, SHA-256 and zeroization.
- The metadata of captured streams, which never come back.
- `can_access_fs_location` and path normalization of single file accesses.
- SQLite reserve and release operations, which are two more counters of the same kind.
- The HTTP routes of the control server and its unlocked readers.
- The reload coordinator, the module registry, mailboxes, the distributed registry and the host-call glue.
