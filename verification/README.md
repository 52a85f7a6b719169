# Verified model of placitum-cookie

placitum-cookie is an inspector that issues, reads and drops cookies by the rules
of a profile, answers over a bounded work queue, mirrors lists from a keeper and
takes new generations of profiles while it runs. This project models its hardest
parts in Dafny and proves what they are for. Code that changes things step by step
is modelled by classes and loops, each method proved against a specification; the
theorems are about the specifications.

| files | part of the program |
|---|---|
| `Queue`, `PoolProtocol`, `PoolLedger`, `PoolOrder`, `PoolTheorems`, `PoolOutcomes` | the work queue, one critical section at a time and over every interleaving |
| `Wafs`, `Composition`, `Mirror`, `MirrorSet`, `MirrorTheorems`, `MirrorOutcomes` | the list mirror: codec, indexed set, replication protocol |
| `Bytes`, `Sequences`, `Text`, `Cookie`, `CookieHeader` | cookies: issue, header, read |
| `Rollout`, `RolloutWatch`, `RolloutHost` | a generation's way into service, with every file operation failing at will |
| `Rules`, `Reply`, `Marker` | rule evaluation, the cookies of a reply, marker templates |
| `Audit`, `Loader` | the audit batcher, batched loading of bodies |

## Main results

- The queue. Over every interleaving of submitters, workers, sweeper, timers and
  Close: a queued task always has a worker awake (`NoLostWakeUp`), every task is in
  one place and answered once (`ExactlyOnce`), Close drains (`CloseDrains`), workers
  get tasks in acceptance order (`InOrder`), reasons are true (`ReasonsHold`) and
  counters exact (`Accounting`). A full queue sheds in drop mode, and whoever waits has
  a timer (`SubmitShed`, `WaitingIsTimed`). With no workers the first and third fail
  (`NoWorkersStrand`); `internal/config/config.go:177` refuses that setting.
- The mirror. Under lost, repeated and reordered frames and failing reads a ready
  mirror equals the keeper at exactly the epoch and sequence it holds (`Agreement`),
  and a frame ahead of it brings it there when the packages can be had
  (`FrameFollows`); a new epoch, a failed check and a set that is not ready bring the
  snapshot on offer (`FrameSyncs`, `DivergenceHeals`); what is held is the last word on
  each key (`NetByLastRecord`, `ValueByLastRecord`); replay has no gaps (`GapFreeReplay`) and bad snapshots cause no storm
  (`NoResyncStorm`). The incremental hash and the length table are what a recount
  gives, and the fast address lookup finds exactly the live masked prefixes that
  cover the address. `unpack` checks neither that prefixes are masked nor that their
  length fits: `FoundIffMasked` and `UnmaskedIsMissed` say what that does to the
  lookup, `SaneSurvives` and `SurvivesIffSane` when it ends the program. The mutable set
  is tied to the runs of these theorems by `Follow`.
- The WAFS codec and an encoder for it are inverse both ways.
- A cookie issued, carried in a Cookie header among others and read back is the
  same cookie; it only ever goes from present to expired (`EndToEnd`).
- The rollout. A failed Apply never serves the rejected generation, the record is
  always that of the last success, and a manifest whose lists are late comes through by
  retry (`RetryWins`). Over a run of several manifests memory can
  still come to serve a remainder of a rejected generation: `ResidueServed` gives the
  runs, `SafeIffAgrees` the exact condition on the state before an Apply,
  `RemainsIffUnnoticed` exactly which remainders break it, `OnlyWinsChangeMemory` the
  statement for all runs without such remainders, and `ServesLast` that memory and disk
  are the last success when the two removals are complete.
- Dropping beats issuing whatever the order of the rows (`DropBeatsIssue`,
  `OrderDoesNotMatter`), and a reply has one entry per name (`OneEntryEach`).

## Assumptions

- Time is an integer that does not go back; one critical section of the queue sees
  one instant. A wait timer may fire any time after it is due, also after its
  submitter has left the loop, which allows more than the program does.
- The keeper writes one object per epoch and sequence (`Authentic`). `SlotPerKey`
  says that a read of n packages answers n slots (`internal/livelist/livelist.go:68-83`).
- Indexing outside an array ends the program. `unpack` accepts prefixes whose length
  is out of range (`TooLongAccepted`), and adding one indexes outside the length table
  (`internal/livelist/livelist.go:143`); the methods of the mirror say exactly when.
  The runs of the protocol theorems go on past that point, which covers more runs
  than the program has.
- The keyed hash, the message authentication code, digests and decryption are
  function parameters. Of XOR only its group laws are used, which `Xor64Lawful`
  proves for 64-bit words.
- Go's `os.Rename` refuses a destination that is a directory.
- White space and letter case are those of ASCII.

## Model

| member | source | states |
|---|---|---|
| `Queue.FillIsFull` | internal/queue/queue.go:171-177 | the fill is a percentage, and 100 exactly for a full queue |
| `Queue.PurgeMembers` | internal/queue/queue.go:195-220 | a purge keeps exactly the tasks with budget and hands back exactly the others |
| `Queue.PurgeCount` | internal/queue/queue.go:200-213 | a purge neither loses nor doubles a task |
| `Queue.AliveIsWithout` | internal/queue/queue.go:202-213 | a purge takes its tasks out of the middle and keeps the order of the rest |
| `Queue.Compact` | internal/queue/queue.go:200-213 | the in-place compaction leaves the kept tasks at the front of the same array, in order, and returns the dead ones |
| `Queue.Pool.EnqueueLocked` | internal/queue/queue.go:165-169 | the queue grows by the task at its end, in place or in a larger array |
| `Queue.Pool.TakeExpiredLocked` | internal/queue/queue.go:195-220 | the new queue, the dead tasks and the wake-up are those of the purge |
| `Queue.Pool.PopLocked` | internal/queue/queue.go:284-302 | one pass of the loop of pop: task, end, dead tasks or wait, with its wake-up |
| `Queue.Pool.WaitLocked` | internal/queue/queue.go:136-162 | one pass of the wait loop of a submitter, its exits included |
| `Queue.Pool.SubmitLocked` | internal/queue/queue.go:96-129 | the locked part of Submit: fill, enqueue, shed, expire or wait, and whether the timer is armed |
| `PoolProtocol.ThreadsNext` | internal/queue/queue.go:233-304 | every step keeps each thread within its own code |
| `PoolProtocol.TimersNext` | internal/queue/queue.go:103-147 | fills and timers belong only to submitters that have been in their critical section |
| `PoolProtocol.WakefulNext` | internal/queue/queue.go:128-145 | every step keeps the wake-up invariant: parked submitters have no reason to run, and queued tasks have workers awake while any worker sleeps |
| `PoolProtocol.WakefulEnqueue` | internal/queue/queue.go:165-169 | Signal after an insertion can reach only a worker, and reaches one when any sleeps |
| `PoolProtocol.TurnsFair` | internal/queue/queue.go:213-217 | every removal broadcasts, every insertion signals, and a section that wakes nobody leaves the queue alone |
| `PoolLedger.LedgerNext` | internal/queue/queue.go:86-163 | every step keeps the ledger: one place per task, marks, answers and counters |
| `PoolLedger.HandsTurn` | internal/queue/queue.go:280-304 | what leaves the queue in a critical section reaches the hands of its thread, and the other way round |
| `PoolOrder.FifoNext` | internal/queue/queue.go:195-220 | every step keeps: popped then queued is accepted minus purged, in order |
| `PoolOrder.HonestNext` | internal/queue/queue.go:306-334 | every step keeps the reasons told, and about to be told, true: out of time or closed by that instant, a full queue met in drop mode, or budget left |
| `PoolTheorems.Reached` | internal/queue/queue.go:86-334 | every run from the start keeps all invariants |
| `PoolTheorems.NoLostWakeUp` | internal/queue/queue.go:128-145 | with a worker in the pool, a non-empty queue has a worker neither asleep nor gone; the queue is within its depth; sleeping submitters face a full open queue |
| `PoolTheorems.ExactlyOnce` | internal/queue/queue.go:86-163 | a submitted task is in exactly one of queue, one thread's hands, answered, and once; nothing else is anywhere |
| `PoolTheorems.CloseDrains` | internal/queue/queue.go:233-240 | when Close has returned, the queue is empty, no worker or sweeper holds a task, and with the submitters done every task has its answer |
| `PoolTheorems.InOrder` | internal/queue/queue.go:287-291 | tasks reach workers in the order of acceptance despite purges |
| `PoolTheorems.ReasonsHold` | internal/queue/queue.go:306-334 | a deadline answer only for a task out of time or a pool closed by the instant of the decision, a limit answer only in drop mode for a task that met a full queue, a served one only with budget |
| `PoolTheorems.Accounting` | internal/queue/queue.go:306-334 | with no thread between counting and telling, Expired and Shed are the numbers of handler calls with those reasons |
| `PoolTheorems.FillSampled` | internal/queue/queue.go:103 | the fill noted with a task is 100 exactly when it met a full queue |
| `PoolTheorems.NoWorkersStrand` | internal/queue/queue.go:54-84 | without workers there is a run in which Close returns over a queued task |
| `PoolOutcomes.SpentIff` | internal/queue/queue.go:183-186 | a task is out of time exactly when what it waited, the reserve and the least budget exceed its deadline |
| `PoolOutcomes.FillRounds` | internal/queue/queue.go:171-177 | the fill is the share of the depth in use, in percent and rounded down |
| `PoolOutcomes.CheckOutcome` | internal/queue/queue.go:86-92 | a task without budget is told so at once, any other goes on |
| `PoolOutcomes.SubmitTaken` | internal/queue/queue.go:96-109 | an open queue with room takes the task at its end; a closed one refuses it as out of time |
| `PoolOutcomes.SubmitShed` | internal/queue/queue.go:111-117 | at a full queue in drop mode the task is about to be told the limit, nobody waits and the queue is as it was |
| `PoolOutcomes.SubmitWaits` | internal/queue/queue.go:120-145 | at a full queue in wait mode a task with budget waits with its timer armed, asleep or telling what is out of time; one without is told so |
| `PoolOutcomes.RewaitOutcome` | internal/queue/queue.go:136-162 | a submitter that wakes is refused at a closed pool, accepted when there is room, out of time when its timer fired, and waits on otherwise |
| `PoolOutcomes.PopTakes` | internal/queue/queue.go:284-292 | a worker takes the first task that still has budget and carries exactly those that have none |
| `PoolOutcomes.PopIdles` | internal/queue/queue.go:294-302 | without such a task it leaves a closed pool, goes round after telling, or sleeps over an empty queue |
| `PoolOutcomes.BudgetOutcome` | internal/queue/queue.go:306-314 | a task taken is served or told out of time by what is left of it then |
| `PoolOutcomes.GatherOutcome` | internal/queue/queue.go:188-220 | a collection takes out exactly what is out of time, to be told so |
| `PoolOutcomes.WaitingIsTimed` | internal/queue/queue.go:111-147 | on every run nobody waits, sleeps or has a timer in drop mode, and in wait mode whoever waits has a timer that will fire or has fired |
| `Wafs.ReadRecord` | internal/livelist/wafs.go:92-174 | one record read in place, all reads in bounds, as the parser on the rest of the data does |
| `Wafs.UnpackRecords` | internal/livelist/wafs.go:89-175 | the loop advancing the position reads the records the specification reads |
| `Wafs.Unpack` | internal/livelist/wafs.go:65-178 | the in-place parser answers as the specification for every input, errors included |
| `Wafs.ParseEncode` | internal/livelist/wafs.go:65-178 | unpacking an encoded head and records with any bytes behind them gives exactly them |
| `Wafs.ParseCut` | internal/livelist/wafs.go:68-70 | every strict prefix of an encoded object is refused as short |
| `Wafs.EncodeParse` | internal/livelist/wafs.go:111-134 | an accepted object can be encoded exactly when its prefixes are in range, and then byte for byte as it was consumed |
| `Wafs.LEInverse` | internal/livelist/wafs.go:83-87 | little-endian numbers read back as written |
| `Wafs.HeadStands` | internal/livelist/wafs.go:68-92 | an accepted object begins with WAFS and version 1, each field of its head stands at its place, and it has the number of records it says |
| `Wafs.NetStands` | internal/livelist/wafs.go:99-156 | where operation, family, length, address and expiry of an address record stand, for both families and every length |
| `Wafs.SignedMeans` | internal/livelist/wafs.go:155 | an expiry is a 64-bit number in two's complement |
| `Wafs.ReasonsFlag` | internal/livelist/wafs.go:158 | reasons are there exactly when the lowest flag is set |
| `Composition.XorToggle` | internal/livelist/livelist.go:139-152 | adding or removing a key changes the XOR over a set by the hash of that key, in no order |
| `Composition.HashApply` | internal/livelist/livelist.go:134-171 | a record changes the hash exactly when it changes the keys held, so re-adds leave no trace |
| `Composition.HashOfOne` | internal/livelist/livelist.go:142-162 | nothing hashes to zero, one value or prefix to the keyed hash of its bytes |
| `Composition.LengthsApply` | internal/livelist/livelist.go:141-151 | the counters change with the keys, at the family and length of the record's prefix only |
| `Composition.NetByLastRecord` | internal/livelist/livelist.go:134-155 | after any records a prefix is held with an expiry exactly when the last record about it adds it with that expiry, or none is about it and it was held so |
| `Composition.ValueByLastRecord` | internal/livelist/livelist.go:157-170 | the same for a value with its expiry and reason |
| `Composition.AliveUntil` | internal/livelist/livelist.go:196-198 | expiry 0 never ends; any other is the first instant at which the entry is gone |
| `Composition.UnmapMeans` | internal/livelist/livelist.go:174 | an IPv4 address inside an IPv6 one is that IPv4 address, every other address itself |
| `Composition.MaterialInjective` | internal/livelist/wafs.go:53-63 | different prefixes are hashed as different bytes |
| `Composition.MaterialBegins` | internal/livelist/wafs.go:53-63 | those bytes are the family, 4 or 6, the length and the address |
| `Composition.Composed.ApplyNet` | internal/livelist/livelist.go:134-155 | the program ends exactly at the addition of a prefix out of range; otherwise contents become those of the record applied, and hash and counters stay what a recount gives |
| `Composition.Composed.ApplyStr` | internal/livelist/livelist.go:157-170 | the same for a string |
| `Composition.Composed.ApplyRecords` | internal/livelist/livelist.go:575-577 | a whole package or snapshot keeps contents and index together, or ends the program exactly when it holds such an addition |
| `Composition.Composed.ContainsAddr` | internal/livelist/livelist.go:173-192 | the lookup by used lengths is true exactly when a live masked prefix of the set covers the unmapped address |
| `Composition.CoversIsProbe` | internal/livelist/livelist.go:185-186 | a masked prefix covers an address, bit by bit, exactly when it is the address cut to that length |
| `Composition.InTableIffInRange` | internal/livelist/livelist.go:143 | the length of an accepted prefix indexes inside the table exactly when it is in range |
| `Composition.MaskedSuffice` | internal/livelist/livelist.go:173-192 | with masked prefixes only, the lookup finds every live prefix that covers the address |
| `Composition.FoundIffMasked` | internal/livelist/livelist.go:185-188 | a prefix stored alone is found, for every address and instant, wherever it covers, if and only if it is masked |
| `Composition.UnmaskedIsMissed` | internal/livelist/wafs.go:119-129 | in any set, a live prefix that is not masked is not found by its own address unless another stored prefix covers that |
| `Composition.SomeUnmasked` | internal/livelist/wafs.go:119 | there is such a prefix: 10.0.0.1/8 |
| `Composition.Xor64Lawful` | internal/livelist/livelist.go:142 | XOR of 64-bit words has the laws the hash proofs use |
| `Mirror.BatchHeld` | internal/livelist/livelist.go:538-549 | a batch taken whole moves the held sequence to its last package, so catching up ends |
| `Mirror.KeptFrame` | internal/livelist/livelist.go:438-500 | whatever is kept by an installed snapshot and by the next package in sequence is kept by every frame, and ready stays ready |
| `Mirror.KeptRun` | internal/livelist/livelist.go:425-436 | and by every run |
| `MirrorTheorems.Agreement` | internal/livelist/livelist.go:438-583 | over every run a ready mirror's entries, expiries and reasons are the keeper's at the held epoch and sequence |
| `MirrorTheorems.NoFalseAlarm` | internal/livelist/livelist.go:676-688 | with honest hashes no snapshot is found bad on any run |
| `MirrorTheorems.HonestPackage` | internal/livelist/livelist.go:555-583 | an honest package in sequence is taken without a snapshot |
| `MirrorTheorems.CatchUpFollows` | internal/livelist/livelist.go:502-553 | when every read succeeds with the keeper's packages, the loop reaches its goal by packages alone |
| `MirrorTheorems.FrameFollows` | internal/livelist/livelist.go:476-500 | a frame ahead by any distance, with or without a package inside, brings the mirror to exactly its sequence and the keeper's set there, with no snapshot asked for, when the store has the packages |
| `MirrorTheorems.InlineFollows` | internal/livelist/livelist.go:483-493 | the next package inside the frame does the same without a read |
| `MirrorTheorems.GapFreeReplay` | internal/livelist/livelist.go:476-582 | over every run each package applied is the successor of what was held |
| `MirrorOutcomes.FrameSyncs` | internal/livelist/livelist.go:453-474 | any frame at a set that is not ready, and a frame of another epoch at one that is, make it the keeper's at the epoch and sequence of the honest snapshot on offer |
| `MirrorOutcomes.DivergenceHeals` | internal/livelist/livelist.go:476-481 | a check at the held sequence that finds another hash does the same |
| `MirrorOutcomes.UnreadyResyncs` | internal/livelist/livelist.go:453-457 | a set that is not ready asks for a snapshot on every frame and takes the one on offer |
| `MirrorOutcomes.NewEpochResyncs` | internal/livelist/livelist.go:468-474 | a frame of another epoch lifts the mute, asks and takes |
| `MirrorOutcomes.HeldIsChecked` | internal/livelist/livelist.go:478-481 | at the held sequence a right hash changes nothing and a wrong one asks and takes, unless muted |
| `MirrorOutcomes.CheckMeans` | internal/livelist/livelist.go:585-605 | a check passes exactly for the hash of what is held or for none; one that fails asks for the snapshot and takes it, unless muted |
| `MirrorOutcomes.CaughtUpIsChecked` | internal/livelist/livelist.go:502-553 | caught up by packages, the set is checked against the hash of the frame |
| `MirrorOutcomes.StaleIsIgnored` | internal/livelist/livelist.go:438-477 | other versions, calls for a resync, unreadable epochs and what is held already change nothing |
| `MirrorOutcomes.WrongInlineResyncs` | internal/livelist/livelist.go:555-573 | an inline object that is not the next package of this epoch and type asks and takes |
| `MirrorOutcomes.PackageIsChecked` | internal/livelist/livelist.go:575-605 | the next package is applied and its hash checked; a wrong one asks and takes |
| `MirrorOutcomes.UnreadableKeeps` | internal/livelist/livelist.go:502-536 | when nothing can be read, all stays as it is |
| `MirrorOutcomes.GoneResyncs` | internal/livelist/livelist.go:538-544 | a package gone from the store asks and takes |
| `MirrorTheorems.NoResyncStorm` | internal/livelist/livelist.go:585-617 | after a bad snapshot nothing is asked until a frame of another epoch; bad snapshots are at most one more than such frames |
| `MirrorTheorems.ReadyStays` | internal/livelist/livelist.go:684-688 | a ready mirror stays ready |
| `MirrorTheorems.OneMapFilled` | internal/livelist/livelist.go:134-171 | over every run, whatever objects are shown, only the map of the set's type is filled |
| `MirrorTheorems.ParseFits` | internal/livelist/wafs.go:102-153 | every accepted object holds only records of its own type |
| `MirrorTheorems.TooLongAccepted` | internal/livelist/wafs.go:108-119 | an IPv4 prefix longer than 32 bits is accepted, becomes length -1 and is one that ends the program when added |
| `MirrorTheorems.SaneSurvives` | internal/livelist/livelist.go:575-577 | on objects without additions out of range no run indexes outside the length table |
| `MirrorTheorems.SurvivesIffSane` | internal/livelist/livelist.go:555-583 | in any state, a snapshot that is asked for is survived exactly when it has none; a package that fits exactly when it has none and any snapshot its check installs has none |
| `MirrorTheorems.PackageSurvivesIffSane` | internal/livelist/livelist.go:575-582 | an honest package in sequence is survived exactly when it has none |
| `MirrorSet.Mirrored.Snapshot` | internal/livelist/livelist.go:607-698 | a snapshot is asked for and installed as specified, the set built aside and index intact; a crash exactly when the specification says so |
| `MirrorSet.Mirrored.Verify` | internal/livelist/livelist.go:585-605 | the check compares with the hash a recount gives and asks for a snapshot unless muted |
| `MirrorSet.Mirrored.ApplyPackage` | internal/livelist/livelist.go:555-583 | a package is taken, or refused for a snapshot, as specified |
| `MirrorSet.Mirrored.ApplyBatch` | internal/livelist/livelist.go:538-549 | the loop over the slots of one read does what the specification does |
| `MirrorSet.Mirrored.CatchUp` | internal/livelist/livelist.go:502-553 | the loop in reads of at most 256 ends and does what the specification does |
| `MirrorSet.Mirrored.OnFrame` | internal/livelist/livelist.go:438-500 | one frame does what the specification does, with the index intact, or ends the program exactly when the specification says so |
| `MirrorSet.Mirrored.Follow` | internal/livelist/livelist.go:425-436 | after the first snapshot and any frames the set is exactly what the specified run gives, hash and length table included, or the program has ended exactly when that run says so |
| `MirrorSet.Mirrored.Contains` | internal/livelist/livelist.go:303-336 | a ready string set answers for its live entries, an address set for live prefixes that cover an address or are the network asked for |
| `MirrorSet.Mirrored.ContainsAddr` | internal/livelist/livelist.go:360-375 | an address is found exactly when the mirrored set covers it |
| `Cookie.SanitizeTag` | internal/policy/cookie.go:206-230 | the loop gives the sanitised tag: each byte kept or replaced, up to the limit |
| `Cookie.SanitizedMeans` | internal/policy/cookie.go:206-230 | each character of the tag is that of the value, or an underscore where that is no letter, digit, underscore or dash; cut to the limit and to 128 |
| `Cookie.CleanStays` | internal/policy/cookie.go:206-230 | a value of such characters within the limit is its own tag |
| `Cookie.TagOfMeans` | internal/policy/cookie.go:189-195 | the tag is what stands before the first tilde |
| `Cookie.ParseCookie` | internal/policy/cookie.go:248-353 | a declaration is taken exactly when each numeric and textual condition holds, and then declares what the file says |
| `Cookie.Issue` | internal/policy/cookie.go:62-121 | the builder gives the specified value, or the specified error |
| `Cookie.IssuedTag` | internal/policy/cookie.go:62-104 | the tag of an issued value is the request's value, or the fallback, sanitised; the number when there is neither |
| `Cookie.PayloadShape` | internal/policy/cookie.go:78-96 | tag, tilde and number, or either alone |
| `Cookie.HexInjective` | internal/policy/cookie.go:93 | different numbers are written differently |
| `Cookie.HexLast` | internal/policy/cookie.go:93 | each byte is two digits, the high one first |
| `Cookie.HexDigitMeans` | internal/policy/cookie.go:93 | the digits are 0 to 9 and a to f |
| `Cookie.NoiseShows` | internal/policy/cookie.go:82-96 | issues with different numbers differ |
| `Cookie.LengthBound` | internal/policy/cookie.go:71-120 | for every accepted declaration, request and time the value has 1 to 225 bytes; too long never happens; no value only with a source |
| `Cookie.IssuedSafe` | internal/policy/cookie.go:96-112 | an issued value has no byte the Cookie header could break |
| `Cookie.SignedParts` | internal/policy/cookie.go:140-148 | a signed value comes apart at its last two dots into what it was made of |
| `Cookie.UnixInverse` | internal/policy/cookie.go:111-160 | for every instant a time.Time can be, the stamp leads back to its second, also where 64-bit seconds wrap |
| `Cookie.ReadsBack` | internal/policy/cookie.go:123-171 | at every later instant an issued value reads with its tag: present, then expired once renew_after has passed |
| `Cookie.ExpiresOnce` | internal/policy/cookie.go:166-170 | once expired, always expired |
| `Cookie.ReadPlain` | internal/policy/cookie.go:123-138 | absent exactly for no text, invalid beyond 256 bytes, unsigned text taken as it is, no answer exactly when a key is needed and missing |
| `Cookie.BelievedIsSigned` | internal/policy/cookie.go:140-170 | a value is believed by a signed cookie exactly when it carries the right code for its own payload and stamp, and the instant time.Unix makes of the stamp is at most a minute ahead |
| `Text.ParseFormat` | internal/policy/cookie.go:111-155 | a number written in base 36 is read back |
| `Text.BaseIs36` | internal/policy/cookie.go:111 | the base is 36, with small letters |
| `Text.TrimMeans` | cmd/inspector/source.go:192-197 | only white space in front and behind is taken away, and all of it |
| `Text.CutLastParts` | internal/policy/cookie.go:197-204 | the cut gives the parts around the last separator, or there is none |
| `CookieHeader.Source.Cookies` | cmd/inspector/source.go:167-208 | however often asked, the answer is the pairs of all Cookie headers in order, or that there are none to be had |
| `CookieHeader.States` | cmd/inspector/handler.go:259-296 | every declared cookie is read from its first pair; states and values are those readings and no others; a missing key fails them all |
| `CookieHeader.RawMeans` | cmd/inspector/handler.go:272-283 | the text of a cookie is its first pair, and none without headers |
| `CookieHeader.ItemParses` | cmd/inspector/source.go:186-203 | a pair as a user agent writes it parses to its name and value |
| `CookieHeader.OddItems` | cmd/inspector/source.go:187-201 | no pair without a name or an equals sign; quotes around a value are not part of it |
| `CookieHeader.SpacedItem` | cmd/inspector/source.go:192-197 | nor is white space |
| `CookieHeader.HeaderInAnyCase` | cmd/inspector/source.go:182 | the header is known by its name in any case |
| `CookieHeader.OtherHeaders` | cmd/inspector/source.go:181-184 | headers of other names give no pairs |
| `CookieHeader.NotMentioned` | cmd/inspector/handler.go:274-283 | a cookie no pair names has no text |
| `CookieHeader.SentBack` | cmd/inspector/source.go:181-186 | a pair sent in a Cookie header behind any others, none of its name, is carried as EndToEnd asks |
| `CookieHeader.CarriedIsFound` | cmd/inspector/handler.go:276-283 | a pair with none of its name before it, in any of the headers, is the one found |
| `CookieHeader.EndToEnd` | cmd/inspector/handler.go:271-292 | issued, carried and read: the same text, and as tag the value that was asked for, sanitised, or the number; present until renew_after and expired from then on |
| `Rollout.Undone` | internal/desired/desired.go:244-300 | after a failed Apply memory is as before or what the old live tree loads to; the old tree is live or parked; it is live again when removal and renaming succeed; staging is gone when its removal succeeds |
| `Rollout.Done` | internal/desired/desired.go:276-299 | after a successful Apply live and memory are the generation over what was left of older staging, and the generation itself exactly when every file left over is rewritten |
| `Rollout.Succeeds` | internal/desired/desired.go:244-300 | when nothing fails, a generation that loads goes into service and nothing else stays on disk |
| `Rollout.SucceedsIff` | internal/desired/desired.go:244-300 | an Apply succeeds exactly when directory, write, parking, promotion and reading do and the tree loads; nothing but the parked tree can then be left |
| `Rollout.IncompleteFails` | internal/desired/desired.go:320-325 | a generation that lacks a list's body fails and touches neither memory nor the live and parked trees |
| `Rollout.SafeIffAgrees` | internal/desired/desired.go:286-295 | whatever fails, a failed Apply leaves memory alone, if and only if a live tree that loads at all loads to what memory serves |
| `Rollout.AgreesKept` | internal/desired/desired.go:286-299 | that agreement is kept by every success and by every complete removal |
| `Rollout.RemainsIffUnnoticed` | internal/desired/desired.go:286-295 | when the removal of a rejected tree stops half way, agreement is kept whatever else fails, if and only if what is left of it loads to nothing or to what memory serves |
| `RolloutWatch.RecordIsLast` | internal/desired/desired.go:449-504 | over every run the recorded hash, revision and names are those of the last generation whose Apply succeeded |
| `RolloutWatch.FilesMean` | internal/desired/desired.go:302-334 | the files are every profile with its text and every list with a body of its hash, and nothing else |
| `RolloutWatch.SkippedEntry` | internal/desired/desired.go:459-470 | a malformed manifest, or one recorded as applied, changes nothing and gives up what was pending |
| `RolloutWatch.EntryWins` | internal/desired/desired.go:472-504 | a fresh manifest whose lists are there and whose generation loads is in service and recorded when nothing fails |
| `RolloutWatch.StepVerdict` | internal/desired/desired.go:481-489 | an Apply that fails is noted as failed |
| `RolloutWatch.RetryIffConfigured` | internal/desired/desired.go:472-478 | when its lists cannot be had nothing is touched, and it is due again exactly when there is a list store |
| `RolloutWatch.RetryWins` | internal/desired/desired.go:403-442 | over runs: tried again however often in vain, it goes into service as soon as its lists can be had and nothing fails |
| `RolloutWatch.ServesLast` | internal/desired/desired.go:244-300 | over every run with complete removals of staging and of rejected trees, memory and live are the last generation put into service |
| `RolloutWatch.PendingIsLatest` | internal/desired/desired.go:403-442 | over every run a retry is due exactly while a manifest is pending; it is the last received, well formed, and nothing went into service since |
| `RolloutWatch.OnlyWinsChangeMemory` | internal/desired/desired.go:244-300 | over every run from agreement whose half-finished removals leave nothing that is noticed, only a successful Apply changes what memory serves |
| `RolloutWatch.ResidueServed` | internal/desired/desired.go:286-295 | for all manifests without lists: two refused in a row put into service whatever loadable part of the first its half-finished removal left, though nothing was applied |
| `RolloutWatch.SomeResidue` | internal/desired/desired.go:84-86 | manifests with the default profile that make such a run |
| `RolloutHost.WriteFiles` | internal/desired/desired.go:302-334 | the files of the generation over what is there, in any order; a list without a body fails |
| `RolloutHost.FetchLists` | internal/desired/desired.go:194-242 | bodies exactly when each list is there with the hash the manifest gives |
| `RolloutHost.Watcher.ReloadFrom` | internal/policy/store.go:91-107 | memory is replaced only by profiles that loaded |
| `RolloutHost.Watcher.Apply` | internal/desired/desired.go:244-300 | the directory operations, step by step, do what the specification says, for every pattern of failures |
| `RolloutHost.Watcher.Handle` | internal/desired/desired.go:449-504 | one manifest: skipped, fetched, applied and recorded as specified |
| `RolloutHost.Watcher.Watch` | internal/desired/desired.go:394-442 | the loop with its pending manifest and timer does what the specified run does |
| `Rules.DoesMatch` | internal/policy/policy.go:163-205 | the loops decide the declarative match: prefix, one of the methods, one of the suffixes |
| `Rules.HasTag` | internal/policy/policy.go:297-303 | the index of a long tag list answers as the list |
| `Rules.UnconditionalFires` | internal/policy/policy.go:226-256 | a rule without conditions fires on every request |
| `Rules.ConditionsNarrow` | internal/policy/policy.go:235-250 | phase, status, state and match each narrow a rule by exactly what they say, whatever the others are |
| `Rules.TagsNarrow` | internal/policy/policy.go:248-250 | so do the tags, with a missing value counting as none of them |
| `Rules.MatchesMeans` | internal/policy/policy.go:163-205 | each part of a match counts only when given |
| `Rules.MissingNeverMatches` | internal/policy/listed.go:40-70 | without a value or without the list "in" is false and "not in" true |
| `Rules.ListedMeans` | internal/policy/listed.go:42-70 | a value is looked up as it is, or hashed, in the rule's set or in the mirror |
| `Rules.Index` | internal/policy/policy.go:605-611 | the index holds exactly the tags, for long lists only |
| `Rules.FindCookie` | internal/policy/policy.go:143-151 | a declaration of the name is found exactly when there is one |
| `Rules.DeclareAll` | internal/policy/policy.go:411-427 | declarations are taken exactly when no name is declared twice |
| `Rules.CheckList` | internal/policy/listed.go:42-80 | the list check decides firing and notes an unready list once |
| `Rules.Collect` | internal/policy/policy.go:226-293 | the loop with its sets, and the filter that writes over the front of the same list, give the specified outcome, order included |
| `Rules.DropBeatsIssue` | internal/policy/policy.go:258-290 | dropped are the declared names a fired rule drops, issued those a fired rule issues and none drops, each once |
| `Rules.WantedMeans` | internal/policy/policy.go:258-272 | a name is issued, or dropped, by the issue, or drop, field of a rule that fires |
| `Rules.UsesInOrder` | internal/policy/policy.go:258-274 | names come in the order of their first use |
| `Rules.KeptConcat` | internal/policy/policy.go:281-290 | dropping leaves the order of the rest |
| `Rules.OrderDoesNotMatter` | internal/policy/policy.go:226-293 | under any order of the rows: the same names issued, dropped and noted, the same actions and list writes as often |
| `Rules.CollectOverload` | internal/policy/policy.go:1161-1177 | the loop collects from exactly the overload rules that fire, in order |
| `Rules.OverloadMeans` | internal/overload/overload.go:33-39 | all overload rules on shedding, otherwise those below 100 whose mark the fill has reached |
| `Rules.OverloadGrows` | internal/overload/overload.go:33-39 | a fuller queue or shedding only adds rules; shedding fires all; no rule answers both to a request and to overload |
| `Reply.ApplyOutcome` | cmd/inspector/handler.go:322-356 | entries of an outcome, an error exactly when some cookie cannot be issued; empty names and known values up to the first that fails |
| `Reply.FailsMeans` | cmd/inspector/handler.go:326-336 | a missing key, a missing number and a value too long fail a reply; a request without a value does not |
| `Reply.OneEntryEach` | cmd/inspector/handler.go:322-356 | the reply to what Collect found has at most one entry per name |
| `Reply.EntryFor` | cmd/inspector/handler.go:326-353 | an expired entry exactly for the dropped names, a value exactly for the issued names that have one |
| `Reply.DropEntryIs` | cmd/inspector/handler.go:348-353 | a dropped cookie is sent empty, with its path, to expire at once |
| `Reply.IssueEntryIs` | cmd/inspector/handler.go:338-345 | an issued one with its value, path and age in whole seconds |
| `Reply.KnownMeans` | cmd/inspector/handler.go:346 | an issued cookie is known by its new value, every other as before |
| `Reply.EmptiesMean` | cmd/inspector/handler.go:328-333 | the empty names are those the request has no value for |
| `Marker.CheckMarkerSlots` | internal/policy/marker.go:31-75 | the scanner ends and accepts exactly the scans whose literals have no braces and whose slots are allowed |
| `Marker.AllowedMeans` | internal/policy/marker.go:50-68 | a value slot needs a rule's cookie that has one, a name slot a cookie, any other a declaration |
| `Marker.CheckedIffWritten` | internal/policy/marker.go:31-75 | accepted exactly when written as brace-free literals and allowed slots, and then in one way only |
| `Marker.ScanWritten` | internal/policy/marker.go:79-120 | the scan loses no character |
| `Marker.ScanUnique` | internal/policy/marker.go:34-74 | a template of brace-free parts is found again from its text |
| `Marker.FillMarker` | internal/policy/marker.go:79-120 | success exactly when every slot has a value, and then the literals and values in turn; values are not scanned again |
| `Marker.RenderedInPlace` | internal/policy/marker.go:79-120 | literals and values stand where literals and slots stood |
| `Marker.SlotsMean` | internal/policy/marker.go:8-14 | value and tag are the value of the rule's cookie and name its name, before any cookie called so; other slots are the cookies of their names |
| `Marker.CheckedFills` | internal/policy/marker.go:77-120 | a checked marker is filled exactly when each cookie its slots speak of has a value in the request |
| `Marker.FilledBraceless` | internal/policy/marker.go:79-120 | and no brace is left when those values have none |
| `Audit.GroupBySubject` | internal/audit/sink.go:170-183 | the subjects in order of first appearance, each with exactly its items in order |
| `Audit.OrderByFirst` | internal/audit/sink.go:174-178 | the subjects stand in the order of their first items |
| `Audit.SizeAdds` | internal/audit/sink.go:207-215 | an item counts its bytes and two more, and items add up |
| `Audit.BatchesSent` | internal/audit/sink.go:156-168 | per subject a batch hands over exactly its items in their order |
| `Audit.BatchesTotal` | internal/audit/sink.go:156-183 | a batch hands over as many items as it has |
| `Audit.SoundRun` | internal/audit/sink.go:65-154 | over every interleaving: size and cap, only the oldest leave, losses counted, hand-over in the order of adds per subject |
| `Audit.AddKeepsNewest` | internal/audit/sink.go:80-89 | nothing is given up within the cap of 50000, and beyond it the oldest, one for one |
| `Audit.TakeOldest` | internal/audit/sink.go:138-148 | a flush takes the oldest, up to 256 |
| `Audit.NothingUnaccounted` | internal/audit/sink.go:65-154 | added is handed over plus in hand plus pending plus dropped |
| `Audit.Sink.Add` | internal/audit/sink.go:65-99 | the pending items, size and losses after an add, and when a flush is asked for |
| `Audit.Sink.Take` | internal/audit/sink.go:130-151 | the locked half of a flush takes at most 256 of the oldest |
| `Audit.Sink.Publish` | internal/audit/sink.go:156-168 | the batch goes out as one message per subject |
| `Audit.Sink.Flush` | internal/audit/sink.go:130-154 | with nobody adding, a flush empties the queue, in order per subject |
| `Loader.LoadMany` | internal/body/body.go:86-188 | at every place what loading that locator alone gives, for any mix of locators; and what is delivered has its own digest, the one the locator gives |
| `Loader.DeliveredIff` | internal/body/body.go:58-188 | delivered exactly when the store has it, it decrypts and its digest matches, and then as that text |
| `Loader.FaultMeans` | internal/body/body.go:66-80 | which fault is reported, by what went wrong first |
| `Loader.LoadGiven` | internal/body/body.go:58-65 | no locator or driver is no body; an unavailable one says so and is no fault |
| `Loader.RedisCoherent` | internal/body/redis.go:32-79 | the Redis store answers for many keys as for each alone |

## Left out

- NATS, Redis, JetStream, heartbeat, logging, flow counters and the probe: plumbing around the modelled code.
- HMAC, SHA-256, MD5, SipHash, AES-GCM and base64: kept as parameters with length and alphabet only.
- YAML and JSON decoding and the field checks of parseAction, parseWrite and parseOverloadRule: one-branch facts.
- Operands, the geo resolver and list publishing: an operand is an optional string, a list lookup a parameter.
- The fields syncing, refused, lastSeen and silent of a mirrored set and the resync ticker: a set is handled by one goroutine, so syncing never holds on entry, and the others only steer logging.
- Store.Watch polling the profile directory beside Apply: the rollout is modelled as the only writer.
- Bootstrap and NewStore: the state a run starts from is a parameter of the rollout theorems.
- expand and its cutting of a filled marker to 128 bytes: a thin loop around FillMarker.
- Liveness that rests on the scheduler; the safety form, that someone is awake, is proved instead.
- Parsing of addresses and networks from text: Contains is given what netip makes of the value.
- MirrorTheorems.SaneSurvives: only the index into the length table is modelled as a way to end the program; the room unpack sets aside for the count in the head (internal/livelist/wafs.go:89), which can exhaust memory, is not.
- Wrap-around of 64-bit sequence numbers and counters, which are unbounded here.
- Queue.Pool.PopLocked: one pass from waking to the next wait or return; waiting itself is a step of PoolProtocol.
- RolloutHost.Watcher.Apply: a failed write leaves any tree at all in staging, not only a part of the generation's files.
- RolloutHost.Watcher.ReloadFrom: the directory and fingerprint the store notes are not modelled, because only the polling of Store.Watch reads them.
- Loader.LoadMany: for stores that answer for many keys as for each alone, since a store that does not can give different answers.
