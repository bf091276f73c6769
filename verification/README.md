# QSOL-FED in Dafny

A model of the federation core: envelope admission over a durable replay log, the canonical JSON profile in both its
implementations, the crash-recoverable object store, operational key lifecycles, the generated seccomp filters, the
Federation Assembly, relay chains and queues, the peer registry, portable bundles and the Holodeck ledger. Every
theorem is stated over all inputs, all runs or all crash points of the modelled component.

`dafny verify dfyconfig.toml` checks the whole project.

| file | component |
|---|---|
| `Wrappers.dfy`, `Lex.dfy`, `Ordering.dfy`, `Wire.dfy` | results, orders and sorting, identifier shapes |
| `Utf8.dfy` | UTF-8 (RFC 3629): both round trips, and byte order as code point order |
| `Json.dfy`, `JsonGrammar.dfy` | RFC 8259 parser, compact printer, round trip; the grammar as a relation, which the parser decides |
| `Canonical.dfy` | the profile in `src/canonical.rs`: visitor, bounds, normalization, printing, message preimage |
| `CanonicalMeaning.dfy` | which documents the profile accepts and which value each stands for, stated without the code |
| `PythonCanonical.dfy` | the second printer in `tools/qsol_canonical.py`, proved equal to the first |
| `KeyLifecycle.dfy` | `src/crypto.rs`: clock policy, rotation, status, verification |
| `ReplayStore.dfy`, `Admission.dfy` | `src/replay.rs` and the pipeline of `post_envelope` |
| `ObjectStore.dfy` | `src/store.rs`: attributions and the namespace move under crashes |
| `Seccomp.dfy` | the filter programs of `tools/moriarty_isolation.py` and a classic BPF interpreter |
| `Assembly.dfy` | `src/assembly.rs` |
| `Relay.dfy` | relay chains, offline packages and the bounded queue of `src/transport.rs` |
| `Peering.dfy` | `src/peering.rs`: stored peers, partition and rejoin |
| `Hex.dfy`, `Bundle.dfy`, `BundleImport.dfy` | `src/bundle.rs`: hex, export, verification, import |
| `Holodeck.dfy` | `src/holodeck.rs`: the event ledger and the operator's commands |

Hashes, signatures and normalization form C are function-valued parameters. A theorem that needs a law of one of
them says so: idempotence of normalization, absence of message id collisions on the bodies of a run, parsing as the
inverse of canonical encoding on text in form C. Where distinct records must have distinct ids (relay chains,
packages, Holodeck receipts), the statement ends in "or here is a collision" and assumes nothing.

## Where the code does less than its description

* `valid_until` is inclusive when an envelope is verified and exclusive when a rotation is checked for overlap, so
  at a single instant any number of keys can be accepted (`KeyLifecycle.InclusiveValidityUnbounded`). On half-open
  intervals the bound of two holds (`KeyLifecycle.AtMostTwoActiveKeys`). With inclusive ends it holds all along a
  history exactly when no rotation starts at an instant at which another key ends, one such key being allowed in a
  recovery (`KeyLifecycle.HistoryAcceptsTwoIff`).
* `check_and_record` by itself can write a log that will not open again: recording an id whose line is past retention
  but not compacted away repeats the id (`Admission.StaleIdBreaksLog` shows it for every retention,
  `Admission.FreshRecordReopensIff` gives the exact condition). Behind the clock check of `post_envelope` this never
  happens (`Admission.RestartIsInvisible`).
* Handlers run side by side (src/bin/qsol-fed.rs:83) and read the clock before they take the replay lock
  (src/api.rs:853, src/api.rs:902). The retention of 4200 seconds leaves no room for that: a post overtaken at the lock
  by one with a later reading can be admitted a second time (`Admission.OvertakenPostAdmittedTwice`). Retention for
  `lag` more seconds is exactly what readings lagging by `lag` need (`Admission.RetentionBoundExact`). The lag also
  stands for a system clock that steps back.
* A stored advertisement must verify on every write (src/peering.rs:841), so the registry refuses every history that
  revokes or compromises the advertised key, and keeps it Active (`Peering.AdvertisedKeyIsActive`,
  `Peering.AdvertisedKeyStrikeRefused`).
* `transition` accepts Disconnected to Disconnected and then records Disconnected as the state to restore; from then
  on no operation ever reconnects the peer (`Peering.SelfTransitionForgets`, `Peering.ForgottenStaysDisconnected`).
  It is the only way a partition loses that state (`Peering.PartitionKeeps`).
* `end_program` is described as impossible to block (src/holodeck.rs:407-412). A reason of 1 to 4096 bytes whose
  normalized form is longer than 8192 bytes is refused while the ledger has room (`Holodeck.EndSucceedsIff`,
  `Holodeck.ReasonThatCannotEnd`).
* `encode_hex` accepts the empty byte string and `decode_hex` refuses the text it gives (`Hex.EncodedDecodes`).
* The Assembly's sequence is a 64-bit number, but a proposal id can only be computed up to 2^53 - 1, so submissions end
  there (`Assembly.SubmitError`, src/assembly.rs:359-368).

## Model

| member | source | states |
|---|---|---|
| `Admission.AdmittedAtMostOnce` | src/api.rs:853-938 | over every run of hellos, posts, restarts and crashes whose clock readings lag behind earlier ones by at most `lag` when they reach the store, no message id is admitted twice if the retention is at least lifetime + 2 * skew + lag; lag 0 is the serialized case |
| `Admission.ForgetsNothingThatMatters` | src/api.rs:853-938 | in every such run a post that gets past the refusals is answered as a replay exactly if its id was ever recorded |
| `Admission.PostKeeps` | src/replay.rs:263-314 | a post is answered from the whole record of ids, and the run invariant holds after it |
| `Admission.PastRetentionIsDead` | src/replay.rs:14-15 | a record older than the retention belongs to a message the clock check rejects at every reading that may still come |
| `Admission.RetentionBoundExact` | src/crypto.rs:211-235 | for every lag, at-most-once over all settings and runs with readings lagging by at most that much holds if and only if the retention is at least lifetime + 2 * skew + lag |
| `Admission.ProgramRetentionExact` | src/replay.rs:14-15 | at the program's constants at-most-once holds over all runs exactly for lag 0, that is for posts reaching the store in the order of their readings, and with one second less for no lag |
| `Admission.OvertakenPostAdmittedTwice` | src/api.rs:901-928 | the failing run at the program's constants: an envelope posted at 0 and again with reading 4200, overtaken at the lock by a post with reading 4201, is admitted twice and the log no longer opens |
| `Admission.ShorterRetentionAdmitsTwice` | src/lib.rs:155-161 | for every lag and any shorter retention an explicit run admits one message twice and leaves a log that does not open |
| `Admission.RestartIsInvisible` | src/replay.rs:142-206 | along every run the log opens, has unique ids and stays within 64 MiB; after a restart, which forgets all peers, and the same hellos, every continuation in the order of its readings gets the answers it would have got without the restart |
| `Admission.CrashKeeps` | src/replay.rs:222-260 | a crash after the compaction or after the append of a post leaves a log that keeps the run invariant |
| `Admission.FreshRecordReopensIff` | src/replay.rs:263-314 | without the clock check a fresh record leaves an openable log exactly when compaction ran or the id was not on a line |
| `Admission.StaleIdBreaksLog` | src/replay.rs:263-314 | for every retention a concrete store on which a fresh record leaves a log that does not open |
| `Admission.Api.PostEnvelope` | src/api.rs:811-938 | the handler against one clock reading computes the step of the run, in the order parse, peer, verify, recipient, replay; which posts pass is `ReachesStoreIff` |
| `Admission.ReachesStoreIff` | src/api.rs:811-938 | a post reaches the replay store exactly if it is authentic: a known sender, addressed to this node, within the clock window, under an accepted key, its id derived from its body, its signature verifying; any other post changes nothing |
| `Admission.OnlyAuthenticRecorded` | src/api.rs:811-938 | no run admits or records an id of which it has not seen an authentic envelope, signed under a key of the peer introduced at that point |
| `Admission.NothingWithoutSignature` | src/crypto.rs:898-909 | under a scheme that accepts no signature no run admits or records anything |
| `Admission.NothingUntilHello` | src/api.rs:235-306 | after a restart or a crash nothing is admitted or recorded until the next hello |
| `Admission.NewMessageAdmittedIff` | src/api.rs:901-938 | after any run an authentic envelope never recorded is admitted exactly unless the live records with it would fill the log |
| `ReplayStore.OpensExactlyGoodLogs` | src/replay.rs:142-206 | opening succeeds exactly on valid, duplicate-free logs within the size limit |
| `ReplayStore.GoodLogOpens` | src/replay.rs:142-206 | a good log opens and the memory then mirrors its lines |
| `ReplayStore.CompactedMirrors` | src/replay.rs:222-260 | compaction writes a clean log that mirrors memory |
| `ReplayStore.DurableReplayStore.CheckAndRecord` | src/replay.rs:263-314 | decision, memory and log after one check, in the order the code updates them; when a new id is refused for space is `RefusedForSpaceIff` |
| `ReplayStore.RefusedForSpaceIff` | src/replay.rs:288-296 | an id not remembered is refused exactly if the lines of the live records and its own exceed 64 MiB, and recorded otherwise |
| `ReplayStore.RecordedLog` | src/replay.rs:281-314 | below the threshold recording only appends a line; from there on the log is first cut down to the live records |
| `ReplayStore.DurableReplayStore.Compact` | src/replay.rs:222-260 | the log becomes the pruned memory in ascending id order |
| `ReplayStore.PruneLater` | src/replay.rs:217-220 | pruning on the way never changes what a later pruning leaves |
| `Admission.TrimmedKept` | src/replay.rs:217-260 | pruning and compaction keep the run invariant: every id admitted is still logged or can never pass the clock check again |
| `Canonical.ParsePrinted` | src/canonical.rs:189-201 | parsing the printed form of any representable value of the profile returns the value |
| `Canonical.CanonicalizeIdempotent` | src/canonical.rs:320-322 | canonicalizing canonical bytes gives the same bytes |
| `Canonical.SameBytesSameValue` | src/canonical.rs:320-322 | two documents have equal canonical bytes exactly when they denote one value |
| `Canonical.ParsedPrints` | src/canonical.rs:276-284 | after a successful parse printing fails only on output size |
| `Canonical.ExactlyCanonical` | src/store.rs:542-548 | the bytes that pass the exact-canonical check are exactly the printed forms |
| `Canonical.SerializedIsCanonical` | src/canonical.rs:203-254 | serializing any constructed value gives the printed form of a profile value or an error |
| `Canonical.SamePreimageSameFields` | src/canonical.rs:341-360 | two envelopes have the same id preimage exactly when all fields but id and signature agree |
| `Canonical.VisitSound` | src/canonical.rs:119-155 | what the visitor accepts is normalized, sorted, free of duplicate keys and within every bound; that it is the value the document stands for is `CanonicalMeaning.VisitMeans` |
| `Canonical.VisitIdentity` | src/canonical.rs:119-155 | the visitor leaves a profile value as it is |
| `Canonical.VisitMap` | src/canonical.rs:133-155 | the map loop refuses raw and normalized duplicate keys and oversized maps, and fills the sorted map |
| `Canonical.VisitSeq` | src/canonical.rs:119-131 | the sequence loop visits in order up to the item limit |
| `Canonical.NormalizeSound` | src/canonical.rs:203-254 | a normalized constructed value is in the profile and within the depth limit |
| `Canonical.NormalizeIdentity` | src/canonical.rs:203-254 | normalizing a profile value changes nothing |
| `Canonical.NormalizeObject` | src/canonical.rs:231-254 | the object loop of the normalization |
| `CanonicalMeaning.VisitMeans` | src/canonical.rs:50-156 | the visitor accepts exactly the documents with integers in the safe range, no fractions, bounded normalized strings, bounded counts and keys that differ once normalized, and returns a value of the same shape and scalars with every string and key normalized |
| `CanonicalMeaning.NormalizeMeans` | src/canonical.rs:203-254 | the same for the normalization of constructed values, with the depth limit |
| `CanonicalMeaning.DenotesOne` | src/canonical.rs:133-155 | a document stands for one value only |
| `CanonicalMeaning.DepthIsHeight` | src/canonical.rs:167-187 | the depth check admits exactly the values at most 32 levels high |
| `CanonicalMeaning.ParseMeans` | src/canonical.rs:189-201 | parsing yields a value exactly when the bytes are the UTF-8 of a JSON text, by the grammar, of an acceptable document that stands for it |
| `CanonicalMeaning.CanonicalizeMeans` | src/canonical.rs:320-322 | canonicalizing yields exactly the printed form of the one value the input stands for, if there is one and its text is not too long |
| `CanonicalMeaning.SerializeMeans` | src/canonical.rs:276-284 | serializing a constructed value yields exactly the printed form of what it stands for, if it is acceptable and the text is not too long |
| `CanonicalMeaning.PreimageMeans` | src/canonical.rs:341-360 | two envelopes have one message preimage exactly when they agree on every field but message id and signature |
| `JsonGrammar.ParsesExactlyTheGrammar` | src/canonical.rs:189-201 | the parser answers a value exactly on the texts that spell it by the grammar of RFC 8259, a relation with every escape, surrogate pair, number form and spacing |
| `JsonGrammar.PrintedIsShortest` | src/canonical.rs:256-318 | no text that spells a value is shorter than its printed form |
| `Json.PrintThenParse` | src/canonical.rs:286-318 | the parser of the RFC 8259 grammar inverts the compact printer on every printable value |
| `Json.PrintInjective` | src/canonical.rs:286-318 | distinct values print differently |
| `Json.CharRoundTrip` | src/canonical.rs:256-274 | every character, escaped or not, reads back |
| `Json.EscapeString` | src/canonical.rs:256-274 | the buffer grows by exactly the quoted form |
| `Json.SerializeInto` | src/canonical.rs:286-318 | the buffer grows by exactly the printed value |
| `Utf8.OrderPreserved` | src/canonical.rs:286-318 | byte order of UTF-8 encodings is code point order |
| `Utf8.DecodeEncode` | src/canonical.rs:189-201 | decoding inverts encoding |
| `Utf8.EncodeDecode` | src/canonical.rs:189-201 | accepted bytes are the only encoding of their string |
| `PythonCanonical.PrintersAgree` | tools/qsol_canonical.py:106-148 | both printers emit the same text for every in-bounds value in any member order; only the Rust one refuses size |
| `PythonCanonical.InsertPrinted` | tools/qsol_canonical.py:129-148 | sorting by code points puts a new key where the byte-ordered map puts it |
| `KeyLifecycle.AtMostTwoActiveKeys` | src/crypto.rs:593-681 | for every accepted history at most two Active keys cover any instant on half-open intervals; the sequence counts the records |
| `KeyLifecycle.RotationKeepsTwo` | src/crypto.rs:487-500 | the strict overlap check keeps the bound across a rotation |
| `KeyLifecycle.AlwaysSomeActiveKey` | src/crypto.rs:593-681 | without status records some Active key covers every instant from creation on |
| `KeyLifecycle.ExtensionNeverValidates` | src/crypto.rs:837-912 | an envelope valid after further records, under a key known before, was valid before |
| `KeyLifecycle.StruckKeyStaysStruck` | src/crypto.rs:717-752 | a revoked or compromised key verifies nothing after any further records |
| `KeyLifecycle.InclusiveValidityUnbounded` | src/crypto.rs:885-895 | for every n an accepted history accepts n + 1 keys at one instant when the end is read as inclusive |
| `KeyLifecycle.HistoryAcceptsTwoIff` | src/crypto.rs:487-500 | with inclusive ends at most two keys are accepted all along a history exactly when no rotation in it starts crowded |
| `KeyLifecycle.RotationAcceptsTwoIff` | src/crypto.rs:593-681 | one rotation keeps the inclusive bound exactly when no other key ends at its start, one being allowed in a recovery |
| `KeyLifecycle.StatusKeepsTwoAccepted` | src/crypto.rs:717-752 | a status record never breaks the inclusive bound |
| `KeyLifecycle.AcceptedMeansChecked` | src/crypto.rs:837-912 | the accepted keys at an instant are those under which verification reaches the signature |
| `KeyLifecycle.ValidIff` | src/crypto.rs:837-912 | verification answers Valid exactly when schema, sender and node match, the clock accepts, the key is Active and within its validity at the time of issue, the id is derived from the body and the signature over both verifies under that key |
| `KeyLifecycle.ClockWindow` | src/crypto.rs:211-262 | the clock accepts exactly a lifetime of 1 to the allowed seconds, from issue to expiry, widened by the skew on both sides |
| `KeyLifecycle.AcceptedIffEntitled` | src/crypto.rs:593-752 | the exact signatures, times and keys under which a rotation or status record is accepted |
| `KeyLifecycle.RecordEffect` | src/crypto.rs:593-752 | what an accepted record does to each key and what it leaves |
| `KeyLifecycle.HistoryAcceptedIff` | src/peering.rs:770-787 | a history is accepted exactly when its document is signed by the root it names and each record was entitled at its turn |
| `KeyLifecycle.KeysAccountedFor` | src/crypto.rs:593-752 | every key an accepted history leads to was brought in by the signed document or a rotation signed by the root and the key itself, and every key not Active was struck by a record the root signed |
| `KeyLifecycle.PayloadsCommit` | src/crypto.rs:264-457 | signed payloads determine the record up to its signatures, and no payload of one kind is one of another |
| `KeyLifecycle.ExtendSplits` | src/peering.rs:770-787 | rebuilding from the whole history is extending the earlier state by the suffix |
| `KeyLifecycle.RebuildPeerIdentity` | src/peering.rs:770-787 | the loop over mutable state computes the fold, stopping at the first rejection |
| `KeyLifecycle.IdentityState.ApplyRotation` | src/crypto.rs:593-681 | the checks in the source's order: an accepted rotation is the fold's step, keeps at most two Active keys and only restricts known keys; a rejected one changes nothing |
| `KeyLifecycle.IdentityState.ApplyKeyStatus` | src/crypto.rs:717-752 | the checks in the source's order: an accepted status is the fold's step, keeps at most two Active keys and only restricts known keys; a rejected one changes nothing |
| `ObjectStore.FederationObjectStore.MoveThroughCrashes` | src/store.rs:248-275 | a move cut off after any durable action, then any number of cut-off recoveries, ends in the uninterrupted result; cut off before the first, in the old tree |
| `ObjectStore.FederationObjectStore.ReopenThroughCrashes` | src/store.rs:394-420 | recovery reaches the settled tree however often it is interrupted |
| `ObjectStore.SettledSpec` | src/store.rs:422-473 | settling leaves each attribution in one namespace, the target of its move, moved records with that namespace and the time of the move, others as they were, and loses none |
| `ObjectStore.DestinationReached` | src/store.rs:394-420 | a tree without markers is determined by where it leads |
| `ObjectStore.FederationObjectStore.FinishNamespaceMove` | src/store.rs:422-473 | wherever it stops the destination is unchanged; when done the marker is gone |
| `ObjectStore.FederationObjectStore.MoveRecord` | src/store.rs:433-459 | target first, then source: each durable action keeps the destination |
| `ObjectStore.WritingTarget` | src/store.rs:644-679 | writing a target record keeps the tree consistent and its destination |
| `ObjectStore.RemovingSource` | src/store.rs:451-456 | removing a source record keeps the tree consistent and its destination |
| `ObjectStore.RemovingMarker` | src/store.rs:461-466 | removing the marker of a finished move keeps the destination |
| `ObjectStore.FederationObjectStore.MoveNamespace` | src/store.rs:248-275 | the exact error cases, the result when it completes, and the destination after every crash |
| `ObjectStore.MoveCarries` | src/store.rs:422-473 | the move takes every record of the object to the target, with the namespace and the time of the move unless the target held one, and leaves every other record as it was |
| `ObjectStore.PutMeans` | src/store.rs:122-185 | the exact condition for a put, and its answer: the record that was there, or else the new one |
| `ObjectStore.PutAdds` | src/store.rs:122-185 | all that a put changes: content, document and one new record; a refused one leaves at most the document behind |
| `ObjectStore.FederationObjectStore.PutForeign` | src/store.rs:122-185 | content, attribution and answer of one put |
| `ObjectStore.FederationObjectStore.PutUntil` | src/store.rs:144-184 | provenance, object, record in this order: cut off at any point, a put leaves no record without its content |
| `ObjectStore.FederationObjectStore.PutThroughCrashes` | src/store.rs:95-185 | a put cut off at any point and then reopened keeps every record and adds its own only with its content |
| `ObjectStore.PutForeignKeeps` | src/store.rs:122-185 | a put keeps the tree consistent and changes or forgets no record |
| `ObjectStore.FederationObjectStore.RunRequests` | src/store.rs:90-475 | over runs of crashing puts and moves no attribution or content is lost, each attribution is in one namespace, and each has the bytes of its object and provenance |
| `Seccomp.NetworkFilterMeans` | tools/moriarty_isolation.py:306-366 | for every deny list, architecture word and call the program returns exactly the verdict of the policy |
| `Seccomp.HandlesFilterMeans` | tools/moriarty_isolation.py:1571-1601 | the second program denies exactly the listed calls, foreign architectures and x32 calls |
| `Seccomp.BuildNetworkFilter` | tools/moriarty_isolation.py:306-366 | the imperative generator builds a well-formed program with that meaning |
| `Seccomp.BuildHandlesFilter` | tools/moriarty_isolation.py:1571-1601 | the imperative generator builds a well-formed program with that meaning |
| `Seccomp.WellFormedReturns` | tools/moriarty_isolation.py:306-366 | a program whose jumps go forward and stay in range always returns |
| `Seccomp.RunIsExec` | tools/moriarty_isolation.py:117-128 | the interpreter over a program counter agrees with the one over the remaining text |
| `Seccomp.StackAllowsIntersection` | tools/moriarty_isolation.py:1604-1607 | both filters attached allow exactly what both policies allow |
| `Seccomp.InstalledFiltersAccepted` | tools/moriarty_isolation.py:264-304 | with the call numbers of either supported machine both programs are well formed and short enough |
| `Seccomp.X32Bit` | tools/moriarty_isolation.py:306-366 | the x32 test is bit 30 of the call number |
| `Assembly.OneVotePerSubject` | src/assembly.rs:534-590 | a receipt counts each representation subject at most once in every run; snapshot missing and drift are unreachable |
| `Assembly.VoteOrderIrrelevant` | src/assembly.rs:710-737 | the same ballots in any order are accepted alike and lead to one state and one receipt |
| `Assembly.ReceiptDependsOnBallots` | src/assembly.rs:710-867 | two runs with the same ballots, one per elector, in any order and among any other events both finalize, with receipts equal but for the number of Nexus advisories, and wholly equal exactly when those numbers agree |
| `Assembly.NexusAdvisoryChangesReceipt` | src/assembly.rs:838-867 | one accepted Nexus advisory changes the receipt |
| `Assembly.RunCounts` | src/assembly.rs:710-737 | over any run that does not end the vote, a proposal changes only by advisories and by each elector's first ballot |
| `Assembly.CastAllSpec` | src/assembly.rs:710-737 | ballots are accepted together exactly when each comes from a different elector who has not voted |
| `Assembly.OtherEventsKeepProposal` | src/assembly.rs:534-590 | membership changes and other proposals leave a proposal and its electorate alone |
| `Assembly.PassedMeansTwoThirds` | src/assembly.rs:781-837 | a receipt counts the voters of each choice; a proposal passes exactly when open, two thirds of the electorate took part and two thirds of decisive votes were yes, and is withdrawn exactly when its proposer withdrew it |
| `Assembly.QuoraIntersect` | src/assembly.rs:289-295 | two quorate voter sets over one electorate share at least a third of it |
| `Assembly.TwoThirdsCeil` | src/assembly.rs:289-295 | the least k with 3k >= 2v |
| `Assembly.FinalizationIsTerminal` | src/assembly.rs:869-873 | at most one receipt per proposal over a run, and a finalized proposal never returns |
| `Assembly.RunSound` | src/assembly.rs:592-661 | proposals and electorates keep one key set and equal snapshots along every run |
| `Assembly.CountVotes` | src/assembly.rs:781-797 | the tally loop counts the voters of one choice |
| `Assembly.FederationAssembly.AdmitMember` | src/assembly.rs:534-576 | the checks in the source's order give the step of the run or its first error, and the run invariant is kept: one active member per subject stays true |
| `Assembly.FederationAssembly.WithdrawMember` | src/assembly.rs:578-590 | the checks in the source's order give the step of the run or its first error, and the run invariant is kept: the subject is freed and electorates keep what they represent |
| `Assembly.FederationAssembly.SubmitProposal` | src/assembly.rs:592-663 | the checks in the source's order give the step of the run or its first error, and the run invariant is kept: the new proposal has a fresh id and its electorate snapshot; what the charter gate means over runs is `CharterHolds` |
| `Assembly.CharterHolds` | src/assembly.rs:382-455 | over every run a receipt accepts only a draft without forbidden effects; a draft with one that proposes no fork takes no ballot and its receipt requires the fork, unless withdrawn |
| `Assembly.SubmittedGate` | src/assembly.rs:635-641 | a submitted draft is open exactly if it has no forbidden effect or proposes a fork, and its electorate is all who are active members then |
| `Assembly.SequencesCount` | src/assembly.rs:592-663 | over any run proposals are numbered from one without gaps, one number for each accepted submission |
| `Assembly.TakesPlaceIff` | src/assembly.rs:534-875 | the exact condition under which each of the seven operations takes place; otherwise nothing changes |
| `Assembly.NothingUnasked` | src/assembly.rs:534-758 | after every run each member, vote, advisory and withdrawal goes back to an event that asked for just that |
| `Assembly.ReceiptCallsFor` | src/assembly.rs:818-837 | a receipt calls for a change of the source exactly if the proposal passed or needs a fork and is no resolution that leaves the protocol alone, and says which |
| `Assembly.FederationAssembly.CastVote` | src/assembly.rs:710-737 | the checks in the source's order give the step of the run or its first error, and the run invariant is kept: voters stay within the electorate |
| `Assembly.FederationAssembly.AttachAdvisory` | src/assembly.rs:665-708 | the checks in the source's order give the step of the run or its first error, and the run invariant is kept: votes and electorates are untouched |
| `Assembly.FederationAssembly.WithdrawProposal` | src/assembly.rs:739-758 | the checks in the source's order give the step of the run or its first error, and the run invariant is kept: votes and electorates are untouched |
| `Assembly.FederationAssembly.Finalize` | src/assembly.rs:760-875 | the loops give the receipt of the tally with its version path and its count of Nexus advisories, and the state without the proposal, or the first error; the run invariant is kept |
| `Relay.LastIdCommits` | src/transport.rs:454-480 | two chains valid for one frame with the same last id are equal hop by hop, or two receipts collide |
| `Relay.ExtensionValidIff` | src/transport.rs:421-452 | a built receipt extends a valid chain exactly when hop, link and ingress are the next ones |
| `Relay.ChainCanGrow` | src/transport.rs:421-452 | below the hop limit a next receipt can always be built |
| `Relay.ValidateRelayChain` | src/transport.rs:454-480 | the loop accepts exactly the valid chains |
| `Relay.ChainValidIff` | src/transport.rs:454-480 | a chain is valid exactly if the frame is bound, at most 16 hops follow, and each names the frame, is bound to its id and takes up where the one before left off |
| `Relay.FrameIdCommits` | src/transport.rs:149-176 | two bound frames with one id are equal, or their ids collide |
| `Relay.BuildsIff` | src/transport.rs:421-452 | a receipt is built exactly for a bound frame, a hop within the limit, a node and a well-formed link, and says so under an id bound to it |
| `Relay.PackageRoundTrip` | src/transport.rs:492-515 | a built package validates and carries its frame and chain; its id commits to both, or packages collide |
| `Relay.PackageValidIff` | src/transport.rs:492-515 | a package validates, and is built, exactly if its chain is valid for its frame, its id is bound to both and it fits |
| `Relay.QueueConserves` | src/transport.rs:518-548 | over any run frames leave in order of acceptance, none lost or repeated, and the queue stays bounded |
| `Relay.QueueServesBoundFrames` | src/transport.rs:518-548 | over any run whatever enters or leaves the queue is a frame bound to its id |
| `Relay.BoundedTransportQueue.Enqueue` | src/transport.rs:534-541 | accepts exactly valid, unqueued frames below the limit |
| `Relay.BoundedTransportQueue.Dequeue` | src/transport.rs:542-547 | hands out the first frame and frees its id |
| `Peering.HistoryOnlyAppends` | src/peering.rs:191-259 | over any run a stored lifecycle grows by appending, its sequence is its length, full rebuild is applying the suffix, Revoked is final |
| `Peering.NoPeerRegainsValidity` | src/peering.rs:184-189 | whatever the registry goes through, no envelope becomes valid under a key the peer already had |
| `Peering.ExtensionAppliedIff` | src/peering.rs:191-240 | a known peer's history is replaced exactly by a well-formed strict extension under which the stored advertisement still verifies and whose record fits |
| `Peering.AdvertisedKeyIsActive` | src/peering.rs:841-843 | after any run the key behind a stored advertisement is Active in the stored identity |
| `Peering.AdvertisedKeyStrikeRefused` | src/peering.rs:817-845 | a history that revokes or compromises the advertised key is refused and the stored one stays |
| `Peering.StepSound` | src/peering.rs:817-845 | every operation keeps all stored records valid and no peer is dropped |
| `Peering.StoredPeersValid` | src/peering.rs:817-845 | after any run every stored peer has an accepted history, its fingerprint and length, a verifying advertisement if any, and what a partition needs |
| `Peering.AdvertisementsOnlyAdvance` | src/peering.rs:282-311 | over any run a stored advertisement is kept or replaced by ones with ever higher sequences |
| `Peering.WritesAreCounted` | src/peering.rs:191-448 | whatever operation changes a stored record advances its event counter, up to the largest number, and sets its time |
| `Peering.IntroducedIff` | src/peering.rs:191-259 | the exact condition under which a new peer is introduced, and the record stored |
| `Peering.ExtensionEffect` | src/peering.rs:222-259 | what an accepted extension replaces, and that it keeps identity, state, advertisement, what a partition holds and every other peer |
| `Peering.TransitionAcceptedIff` | src/peering.rs:313-337 | the exact condition for a transition, and the record it leaves |
| `Peering.DisconnectAcceptedIff` | src/peering.rs:339-362 | the exact condition for a disconnection, and the record it leaves |
| `Peering.ArchivalStoredIff` | src/peering.rs:282-311 | an archived advertisement is stored exactly if it names the known peer, is signed under its history, advances and fits |
| `Peering.LiveStoredIff` | src/peering.rs:418-448 | a live one exactly if besides that the present lies within its lifetime |
| `Peering.RejoinRestores` | src/peering.rs:339-416 | through any interleaving from disconnection to rejoin the snapshot is kept, a different one needs the flag, and the earlier state is restored; it survives exactly without a self-transition |
| `Peering.PartitionKeeps` | src/peering.rs:313-362 | during a partition the snapshot is kept, and the state to restore is kept exactly unless an accepted operation is the self-transition |
| `Peering.RejoinAcceptedIff` | src/peering.rs:385-416 | the exact condition under which a rejoin is accepted, and the record it leaves |
| `Peering.SelfTransitionForgets` | src/peering.rs:847-850 | Disconnected to Disconnected is accepted and overwrites the state to restore |
| `Peering.ForgottenStaysDisconnected` | src/peering.rs:401-409 | after that no run of operations reconnects the peer |
| `Peering.ReimportChangesNothing` | src/peering.rs:263-280 | importing a stored history again changes nothing |
| `Peering.RequireLifecyclePrefix` | src/peering.rs:789-802 | the loop accepts exactly extensions |
| `Peering.PeerRegistry.IntroducePeer` | src/peering.rs:191-259 | registry and answer of one introduction, checks in order |
| `Peering.PeerRegistry.ImportPeer` | src/peering.rs:263-280 | registry and answer of a quarantined import |
| `Peering.PeerRegistry.TransitionPeer` | src/peering.rs:313-337 | registry and answer of a transition |
| `Peering.PeerRegistry.DisconnectPeer` | src/peering.rs:339-362 | registry and answer of a disconnection |
| `Peering.PeerRegistry.ConfirmPeerRejoin` | src/peering.rs:385-416 | registry and answer of a rejoin |
| `Peering.PeerRegistry.AttachArchivalAdvertisement` | src/peering.rs:282-311 | registry and answer of attaching an archived advertisement |
| `Peering.PeerRegistry.RecordPeerAdvertisement` | src/peering.rs:418-448 | registry and answer of recording a live advertisement |
| `Hex.EncodedDecodes` | src/bundle.rs:400-430 | encoded bytes decode back, except the empty string |
| `Hex.DecodedEncodes` | src/bundle.rs:412-430 | accepted text is the only spelling of its bytes |
| `Hex.EncodeHex` | src/bundle.rs:400-410 | the loop writes two digits a byte within the limit |
| `Hex.DecodeHex` | src/bundle.rs:412-430 | the loop reads exactly the even, lower-case, bounded, nonempty texts |
| `Bundle.ExportBundle` | src/bundle.rs:86-195 | succeeds exactly on selections without repetition that have a verifying bundle, and returns its bytes |
| `Bundle.ExportInTwoOrders` | src/bundle.rs:101-178 | permuting the selection changes neither bytes nor success |
| `Bundle.OneBundle` | src/bundle.rs:130-178 | a selection has at most one sorted bundle |
| `Bundle.PlacedIff` | src/bundle.rs:130-141 | a selection covers exactly the records of its objects, in both namespaces |
| `Bundle.PeerEntryIff` | src/bundle.rs:103-129 | a peer can be exported exactly if it is stored and nothing of it is too large |
| `Bundle.ObjectEntryIff` | src/bundle.rs:130-172 | an attribution can be exported exactly if it is well named and its content is there and not too large |
| `Bundle.VerifyBundle` | src/bundle.rs:197-303 | the loops with seen-sets accept exactly the bundles whose every entry verifies |
| `Bundle.VerifiedIff` | src/bundle.rs:197-303 | bytes verify as a bundle exactly if canonical, bounded, of this schema without authority, with peers and attributions all different and each vouched for |
| `Ordering.Sort` | src/bundle.rs:130-178 | a sorted permutation, strictly ascending where keys differ |
| `BundleImport.ExportThenImport` | src/bundle.rs:305-380 | importing an export into an empty target brings exactly the selection, bytes, sources, provenance, identities and histories, all quarantined |
| `BundleImport.ExportImports` | src/bundle.rs:305-380 | importing an export into an empty target succeeds exactly when the time is well formed and the records it writes for each selected peer fit |
| `BundleImport.TakesInIff` | src/peering.rs:263-311 | a verified new peer is taken in exactly when its introduced, quarantined and advertised records fit |
| `BundleImport.ImportKeepsFormC` | src/bundle.rs:331-370 | an import keeps all stored text in normalization form C |
| `BundleImport.ImportTwiceIsImportOnce` | src/bundle.rs:305-380 | into any target, importing again at any later time changes nothing |
| `BundleImport.ImportOnlyAdds` | src/bundle.rs:331-370 | into any target nothing is lost, changed or moved, known peers keep their state, new material is quarantined |
| `BundleImport.FailedImportStops` | src/bundle.rs:315-370 | a failed import leaves what the entries before the failing one brought in and what that one did before it failed; nothing after it is done |
| `BundleImport.PeerEntryReads` | src/bundle.rs:103-129 | an exported peer entry reads back as its identity, history and advertisement |
| `BundleImport.ImportBundle` | src/bundle.rs:305-380 | the loops over store and registry compute the import |
| `Holodeck.LedgerOfEveryRun` | src/holodeck.rs:286-498 | in every run the ledger is bounded, numbered from one, starts with its only start, ends with its only end, and a resume lies between a stop and a later synthetic event |
| `Holodeck.BoundaryAttemptFreezes` | src/holodeck.rs:353-374 | a running program is frozen by an attempt exactly when the actor belongs to its plan, even with a full ledger, after which nothing makes it run again; any other attempt is refused and changes nothing |
| `Holodeck.EndSucceedsIff` | src/holodeck.rs:413-427 | the exact condition under which teardown succeeds; otherwise nothing changes |
| `Holodeck.SyntheticEnteredIff` | src/holodeck.rs:315-351 | the exact condition under which a synthetic event is entered, and what is entered; otherwise nothing changes |
| `Holodeck.StartedIff` | src/holodeck.rs:286-301 | a program starts exactly if it has room and its plan is anchored in at most 16 different references to the source; its start is then on the ledger |
| `Holodeck.AttemptEnteredIff` | src/holodeck.rs:353-374 | the exact condition under which an attempt is entered, and the entry |
| `Holodeck.OperatorCommandsIff` | src/holodeck.rs:376-405 | the operator freezes exactly a running and resumes exactly a frozen program while there is room; otherwise nothing changes |
| `Holodeck.ReasonThatCannotEnd` | src/holodeck.rs:436-481 | a reason of 1024 eighth notes passes the length check and does not end the program |
| `Holodeck.EndFreezesReceipt` | src/holodeck.rs:413-427 | an ended program never changes, and every later teardown gives the same receipt |
| `Holodeck.ReceiptCommits` | src/holodeck.rs:519-544 | equal counts and chain hashes mean equal ledgers up to normalization, or a hash collides |
| `Holodeck.StepSound` | src/holodeck.rs:315-498 | every command keeps the ledger authentic and in step with the state |
| `Holodeck.ValidateEventSourceRefs` | src/holodeck.rs:582-596 | the loop accepts exactly bounded lists of distinct references to the source |
| `Holodeck.HolodeckSandbox.PushEvent` | src/holodeck.rs:436-498 | appends one event or reports the first fault and changes nothing |
| `Holodeck.HolodeckSandbox.RecordSynthetic` | src/holodeck.rs:315-351 | state and answer of a synthetic event |
| `Holodeck.HolodeckSandbox.AttemptBoundaryEffect` | src/holodeck.rs:353-374 | state first, ledger second |
| `Holodeck.HolodeckSandbox.FreezeProgram` | src/holodeck.rs:376-391 | state and answer of an operator freeze |
| `Holodeck.HolodeckSandbox.ResumeProgram` | src/holodeck.rs:393-405 | state and answer of an operator resume |
| `Holodeck.HolodeckSandbox.EndProgram` | src/holodeck.rs:413-427 | state and receipt of a teardown |
| `Holodeck.HolodeckSandbox.IssueReceipt` | src/holodeck.rs:519-544 | the loop hashes the ids of the ledger in order |

## Left out

- SHA-256, Ed25519, the tables of normalization form C and calendar arithmetic: parameters, and integer seconds for
  parsed timestamps.
- Holodeck.Kernel: the fixed wordings of the sandbox's own events are a parameter, required to be short and in ASCII;
  schema and effect fields that are constants are omitted.
- Holodeck.Start: `compile_world_plan` is not modelled; the plan is an arbitrary value whose anchors are checked.
- Holodeck.HolodeckSandbox.RecordSynthetic: one method for the narrative and the transition, which differ only in the
  kind.
- Canonical.ParsedPrints: text is parsed before it is visited, so which of a grammar error and a bound error is
  reported first is not modelled; neither is the recursion limit of serde_json (128, beyond the profile's depth of 32
  except that the reported error may differ).
- PythonCanonical.PrintersAgree: compares printing of values; that the Python parser accepts minus zero and does not
  check output size is outside it.
- ReplayStore.LogFile: a torn last line is a flag of the file; failures of the file system are not modelled.
- Admission.Post: HTTP status codes, audit records, rate limits and the peer hello checks are not modelled; a hello
  may install any identity, and a restart forgets all of them.
- Admission.ValidRun: a post is one step, at the moment it holds the replay lock; that it has read the clock earlier is
  its lag, and that it has looked up its peer earlier is covered by hellos, which may install any identity at any time.
- Admission.CrashKeeps: a crash falls between the durable actions of a post, not inside one.
- KeyLifecycle.Verify: malformed hexadecimal in keys and signatures counts as a failing signature; sequences are
  unbounded where the code reports u64 overflow.
- ObjectStore.FederationObjectStore.MoveRecords: records are visited in any order, which includes the code's sorted
  one; the returned record list is not modelled.
- ObjectStore.FederationObjectStore.MoveThroughCrashes: one completed `write_exact_or_same` or removal is atomic; a
  crash inside one leaves a temporary name that directory readers reject.
- ObjectStore.Key: an attribution id is the content it hashes; local descendants and listings are not modelled.
- Seccomp.NetworkAllows: the first argument is its low word, which is all the programs load; installation, Landlock
  and cgroups are outside the model.
- Assembly.SubmitError: whether the text of a draft fits a canonical encoding is a parameter.
- Assembly.ProposalId: a proposal id is the content it hashes; receipt ids and the list of charter violations
  are derived fields that are omitted.
- Assembly.CountVotes: votes are counted in any order, since the tally does not depend on it.
- Relay.ValidFrame: the three record ids are functions of the record without its id; NAT traversal tickets, route
  admission and drills are not modelled.
- Peering.RecordFault: records are compared as values, where the code compares canonical bytes, which agrees for text
  in form C (`Bundle.RegistryInC`); trust levels and capability policy are not modelled.
- Peering.AdvertisementVerifies: the grammar of a capability id is a parameter.
- Bundle.ExportBundle: export errors are not told apart; the attributions of one object are visited in any order
  before the sort.
- Bundle.ReadBack: parsing is only asked of canonical bytes, since verification comes first.
- BundleImport.Import: import errors are not told apart, though what an interrupted import has stored is.
- src/claims.rs, src/invariants.rs and the validators: constant tables and drift checks that a reading of each branch
  settles.
- src/oracle_live.rs, src/qsol_adapters.rs, src/sdk.rs and the subprocess tools: shape checks and input/output around
  the core.
