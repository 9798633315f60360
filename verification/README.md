# torlane: a verified model

torlane runs one Tor process and spreads SOCKS traffic over *lanes*: sets of SOCKS credentials that
Tor keeps on separate circuits. This project models, in Dafny, the three parts of it with the most
behaviour, and proves what each of them keeps.

**The lane pool.** Any number of pool handles share a published snapshot `ready`, a set
`unavailable`, a cursor and a closed flag, and send commands to one manager task, which owns the lanes.
- `Lanes`, `Select`, `PoolCore` are the values: lanes, endpoints, credentials, the snapshot function,
  and what each manager command does when nothing runs in between.
- `Manager` and `Handles` are the source's objects, updated in place, each method proved against those
  functions.
- `Protocol` is the fine-grained machine: every lock access, atomic access and channel access of every
  call and of the manager is one step, and a `Run` is any interleaving of them, with a manager that may
  take commands, tick, fail to rotate, fail to stop or start Tor. `Refinement` and `Handles` show that
  steps taken in a row are exactly the methods. `Spawn` is where runs start.
- `Shape`, `Agreement`, `Runs`, `Ledger`, `Tokens`, `Outcomes`, `Awaited`, `ShutdownRuns`,
  `RoundRobin` and `Ttl` prove what holds in every run.
- `Limits` gives runs in which documented behaviour does not hold. `Exposure`, `Staleness`,
  `FailedLanes`, `Joins` and `Instances` say exactly when it does not, over every step and every run, and
  `Exclusion` proves the documented behaviour of the same fine-grained runs when rotations do not
  disturb each other.

**The control connection.** `Codec` is the reply parser and the canonical printer of section 2.3 of
the Tor control-spec; `Framing` proves that parsing undoes printing on a stream with any tail and
that nothing else parses, `Truncation` what becomes of a reply cut short, `Reader` that the source's
loops compute the parser. `ControlWords` is the quoted-word tokenizer, `ProtocolInfo` and
`SafeCookie` are sections 3.21 and 3.24 of the control-spec end to end. `Actor` is the connection's actor with its
clients and a server as a step machine, `ActorLoop` its loop.

**The torrc.** `TorConfig` is the builder's validation, `TorRender` the renderer and how option lines
are got back from the text, `TorReading` a reader that looks each option up by its keyword and gives the
configuration back.

`Wrappers`, `Decimal`, `Hex` and `Text` are the shared vocabulary.

## Where the documentation and the code disagree

The model follows the code.

- `README.MD` 200-207 says that after a rotation the old credentials are no longer handed out, that
  an awaited rotation returns after the new epoch is published, and that a rotating lane is skipped.
  None of these holds of every run, for five reasons.
  - A rotation marks its lane while another one, of any lane, is between its look and its send: one of
    the two overwrites `ready` with a snapshot it read before (`Limits.OldCredentialsReturn`,
    `Limits.HiddenLaneIsPublished`).
  - A rotation looks between another one's insert and its overwrite (`Limits.LookBetweenIsStale`).
  - The manager stores a snapshot it computed before a rotation marked its lane; for this one rotation,
    alone in the run, is enough, and the next one queues the lane a second time
    (`Limits.StoredOverHidden`, `Limits.RotationQueuedTwice`).
  - The manager stores a snapshot while a rotation is between its look and its overwrite. The overwrite
    then restores what the other lanes had before: old credentials, or a Failed lane, which the next
    rotation can queue. Again one rotation is enough (`Limits.StoredInWindow`, `Limits.FailedLaneIsQueued`).
  - A restart shows a lane whose Rotate is still queued (`Limits.RestartLetsQueueTwice`).

  `Staleness.StaleIffRestored` is the exact condition for old credentials, over every run: with the
  manager at rest an endpoint that is not that of a Ready lane now is published if and only if the last
  write of `ready` was the overwrite of a rotation of another lane that had read it, and
  `Staleness.HandedOutWasPublished` carries it to what callers are handed. For hidden lanes it is
  `Exposure.PublishedByStep`, `Exposure.ExposedByStep` and `Exposure.PublishedIffBroughtBack`, and
  for an Ok that finds the new endpoint published `Exposure.PublishedAtOk`.
  A run without the first three reasons and the last keeps the exclusion (`Exclusion.RotationExclusion`),
  and one without any of the five also the exact snapshot (`Exclusion.SettledSnapshot`). At
  quiescence the snapshot is right in every run (`Agreement.QuiescentSnapshot`).
- `src/pool/lane.rs` 73-74 says a Failed lane will not become ready again. A restart brings it back, and so
  does every Rotate of it that succeeds: one queued before it failed (`Limits.FailedLaneRevives`), or one
  accepted later because the lane had been restored to the snapshot (`Limits.FailedLaneIsQueued`).
  `FailedLanes.FailedUnlessRevived` and `FailedLanes.FailedIffNotRevived` are exact, over steps and runs.
- The comment on `shutdown` reads as if every caller waited for the manager. The caller that finds
  the join handle taken does not (`Limits.ThirdShutdownReturnsEarly`, `Joins.ShutdownReturned`).
- A restart that stops the old Tor and fails to start a new one reports an error and keeps the old
  address. A Rotate queued behind it then publishes an endpoint with no instance behind it
  (`Limits.DeadInstanceIsPublished`, `Instances.PublishedAtRest`).
- A reply whose connection ends inside its last line is accepted as a shorter reply
  (`Truncation.TruncatedReply`), so a command can get a wrong Ok if the server hangs up there
  (`Actor.WrongReplyIsDelivered`, `Actor.OnlyCutRepliesAreWrong`). Nothing in the documentation mentions it.
- `TorOption::new` admits a key that starts with `#`; such an option is rendered as a comment
  (`TorRender.CommentedOptionIsLost`, `TorRender.ConfigComesBack`). A typed value with a line break is
  rendered as it is, and what follows the break is an option of its own (`TorRender.BrokenValueIsOption`).

## Model

| member | source | states |
|---|---|---|
| `Lanes.GenerateLaneAuth` | src/pool/lane.rs:112-118 | `lane-`, the lane in six digits or more, a dash and the epoch in eight or more, and a password of lower-case hexadecimal digits that decodes to the random bytes; or the random source's failure |
| `Lanes.Lane.Rotate` | src/pool/lane.rs:120-144 | in place: the next epoch with fresh credentials on the current runtime, counter and age reset; on epoch overflow or a failing random source only the state changes, and the epoch check comes first |
| `Lanes.RotationEffect` | src/pool/lane.rs:120-144 | a lane comes out Ready exactly when its epoch can grow and the random source works, at exactly the next epoch; otherwise nothing but its state changes |
| `Lanes.RotationCredentials` | src/pool/lane.rs:120-144 | the credentials of a renewed lane are those of its id, its new epoch and the random bytes |
| `Lanes.NewLaneEffect` | src/pool/lane.rs:88-110 | a new lane is Ready at epoch 1 with credentials of its own, unless the random source fails |
| `Lanes.UsernameInjective` | src/pool/lane.rs:112-118 | two usernames are equal only for the same lane and epoch, also past the padding widths |
| `Hex.EncodeHex` | src/tor/controller/auth.rs:183-191 | the loop computes the encoding, two digits a byte |
| `Hex.EncodedDigits` | src/tor/controller/auth.rs:183-191 | byte i gives two entries of the sixteen-letter alphabet, the high half first |
| `Hex.DecodeEncode` | src/tor/controller/auth.rs:193-224 | decoding undoes encoding in upper and in lower case |
| `Select.StableLaneIndex` | src/pool/select.rs:99-106 | the hashed lane is one of the pool's lanes, for any key: the fold over its bytes from the offset, exclusive or and then the prime modulo 2^64, modulo the lane count |
| `Select.KnownHashes` | src/pool/select.rs:99-106 | the hashes of no byte, of `a`, of `f` and of `fo`, as numbers |
| `Select.HashSeparates` | src/pool/select.rs:99-106 | the hash loses nothing from one byte to the next: a different last byte gives a different hash, and keys with the same last byte collide if and only if they do without it |
| `Select.FindIsUnique` | src/pool/manager.rs:97-108 | in a snapshot with increasing lanes the lookup finds the only match |
| `PoolCore.ReadyLanesMembers` | src/pool/manager.rs:461-471 | the snapshot holds exactly the endpoints of the Ready lanes outside `unavailable`, in strictly increasing lane order |
| `PoolCore.HidingOneLane` | src/pool/manager.rs:138-146 | filtering a lane out of an exact snapshot is the snapshot with that lane unavailable |
| `PoolCore.AssignEffect` | src/pool/manager.rs:341-360 | lane by lane: an assignment counts for the Ready lane it names at the epoch it names if there is a limit, renews it at the limit, and touches no other |
| `PoolCore.RotateEffect` | src/pool/manager.rs:362-378 | an unknown lane, a failed rotation or success, which of them exactly, and no other lane touched |
| `Manager.ManagerState.Assign` | src/pool/manager.rs:341-360 | in place: counts for the matching Ready lane only, rotates it and republishes exactly when the limit is reached |
| `Manager.ManagerState.Rotate` | src/pool/manager.rs:362-378 | in place: rotates, shows the lane again only on success, republishes, and reports an unknown lane or a failure |
| `Manager.ManagerState.RotateExpired` | src/pool/manager.rs:380-396 | in place: the loop rotates exactly the expired lanes and republishes exactly when there is one |
| `Manager.ManagerState.Restart` | src/pool/manager.rs:398-436 | in place: the state and the answer at each of the exits |
| `Manager.ManagerState.ShutdownInstance` | src/pool/manager.rs:438-444 | in place: publishes nothing, stops the instance if there is one |
| `Handles.Pool.Next` | src/pool/manager.rs:79-87 | the entry the cursor points at, a counted proxy exactly when one is returned, and every refusal |
| `Handles.Pool.ForKey` | src/pool/manager.rs:97-108 | the hashed lane's endpoint or an error naming that lane, never another lane |
| `Handles.Pool.QueueRotation` | src/pool/manager.rs:123-158 | each refusal with its condition, in their order, touching nothing; the hidden lane and queued command; what a refused send undoes and leaves |
| `Handles.RotationRefines` | src/pool/manager.rs:123-158 | its start and the protocol's steps in a row are that call: of an open or a closed pool, a known or an unknown lane, awaited or not, with the manager there or gone |
| `Handles.NextRefines` | src/pool/manager.rs:79-87 | so for `next`, of an open or a closed pool: its start and three steps |
| `Handles.ForKeyRefines` | src/pool/manager.rs:97-108 | and for `for_key` |
| `Refinement.AssignRefines` | src/pool/manager.rs:341-360 | the protocol's steps for an Assign, nothing interfering, are the manager's method |
| `Refinement.TickRefines` | src/pool/manager.rs:380-396 | the same for a tick |
| `Refinement.RotateRefines` | src/pool/manager.rs:362-378 | the same for a Rotate, with the answer delivered to its waiter |
| `Refinement.RestartRefines` | src/pool/manager.rs:398-436 | the same for a Restart, for any number of lanes and any outcome of stopping and starting |
| `Refinement.ShutdownRefines` | src/pool/manager.rs:438-444 | the same for a Shutdown, after which the manager is gone |
| `Spawn.SpawnedIsInit` | src/pool/manager.rs:243-274 | a validated configuration gives a pool exactly when the random source serves every lane, and it is a starting state of the protocol |
| `Protocol.GoMovesOnly` | src/pool/manager.rs:123-158 | a step of a call moves no other call, queues at most one command and leaves the lanes to the manager |
| `Shape.StepAdvancesLanes` | src/pool/lane.rs:120-144 | over every step: an epoch never falls, a lane becomes Ready only by starting exactly its next epoch, an endpoint changes only with its epoch |
| `Shape.RunIsShaped` | src/pool/manager.rs:303-338 | in every run: lanes well formed, every snapshot anybody holds increasing and of known epochs, Ready lanes bound to the runtime |
| `Agreement.RunIsCached` | src/pool/manager.rs:446-448 | the invariant behind the cache: what `ready` must be at each point of the manager's work, and that no hidden Ready lane is forgotten |
| `Agreement.CacheAgreement` | src/pool/manager.rs:123-158 | under every interleaving, with the manager between commands, no call between insert and send and no Rotate queued, `ready` is what `ready_lanes` computes now |
| `Agreement.NoLaneLost` | src/pool/manager.rs:137-155 | a Ready lane in `unavailable` always has a call or a queued Rotate of its own |
| `Agreement.QuiescentSnapshot` | src/pool/manager.rs:461-471 | at quiescence `ready` holds exactly the endpoints of all Ready lanes |
| `Runs.EpochsNeverFall` | src/pool/lane.rs:120-144 | over any stretch of any run, restarts included, epochs never fall, and an unchanged epoch means an unchanged endpoint |
| `Runs.SnapshotShape` | src/pool/manager.rs:138-146 | every published snapshot is strictly increasing, and each entry was its lane's real endpoint at an earlier point, of an epoch not above the current one |
| `Runs.CredentialsNeverReused` | src/pool/lane.rs:112-144 | two endpoints ever published or handed out in a run with the same username are the same endpoint, whatever the random source returns |
| `Runs.ForKeySticks` | src/pool/manager.rs:97-108 | a `for_key` call, however interleaved, ends with the hashed lane's endpoint, with an error naming that lane, or Closed |
| `Ledger.AssignmentsConserved` | src/pool/manager.rs:276-288 | per lane and epoch, hand-outs are the queued plus the counted plus the ignored Assign commands |
| `Ledger.HandedOutIsGiven` | src/pool/manager.rs:276-288 | hand-outs are exactly the calls that returned that endpoint |
| `Ledger.CountsStayWithinLimit` | src/pool/manager.rs:341-360 | a Ready lane's counter is the number counted for its epoch and below the limit; no epoch is ever counted past the limit |
| `Ledger.CounterNeverSaturates` | src/pool/manager.rs:351-352 | the saturating increment always increments |
| `Tokens.RunKeepsTokens` | src/pool/manager.rs:312-321 | each response channel is in one place at most, and only of a call that has sent its command |
| `Tokens.NobodyIsStranded` | src/pool/manager.rs:312-321 | while the manager lives, the channel of every call that waits for an answer is in the queue or in the manager's hands |
| `Tokens.AnsweredAtMostOnce` | src/pool/manager.rs:312-333 | the manager answers a call at most once in a run: rotate, restart or shutdown |
| `Tokens.AnswersAreTheManagers` | src/pool/manager.rs:110-180 | a rotate or restart that has waited returns the verdict the manager sent to it, or Closed once the manager is gone, and nothing else |
| `Outcomes.AwaitedRotationRaisesEpoch` | src/pool/manager.rs:117-121 | an awaited rotation returns Ok only when the lane's epoch exceeds the one at which it was queued |
| `Awaited.AwaitedRotationIsStored` | src/pool/manager.rs:446-448 | the last step before the Ok publishes the lane's new endpoint unless another rotation of that very lane is in flight |
| `Outcomes.RestartOutcome` | src/pool/manager.rs:398-436 | at every point of a restart each lane is the old one hidden, moved by exactly one epoch onto the new instance, or Failed |
| `Outcomes.RestartAnswer` | src/pool/manager.rs:398-436 | an Ok leaves each lane one epoch on and current, or Failed; an error after the configuration check leaves no lane Ready |
| `Outcomes.RestartVerdictExactly` | src/pool/manager.rs:398-436 | RestartUnavailable if and only if there is no configuration, otherwise Instance if and only if the old instance did not stop or the new one did not start, and Ok if and only if neither |
| `Outcomes.RuntimeRecorded` | src/pool/manager.rs:423-425 | a step records a new instance and address exactly when it starts one, and then those |
| `Outcomes.ReadyLanesAreCurrent` | src/pool/manager.rs:427-433 | in every run a Ready lane's endpoint has the recorded address and instance, which are those of the instance started last |
| `ShutdownRuns.AtMostOneShutdown` | src/pool/manager.rs:182-201 | across all clones at most one Shutdown is ever queued |
| `ShutdownRuns.ShutdownApproaches` | src/pool/manager.rs:303-338 | its position falls by one with each command handled, no other step moves it, and at the head it is what the manager does next |
| `ShutdownRuns.WinnerReturnsAfterStop` | src/pool/manager.rs:182-201 | the caller that closed the pool returns only after the instance was stopped |
| `ShutdownRuns.WinnerIsToldExactly` | src/pool/manager.rs:182-201 | and it is told of an error if and only if there was an instance to stop for it and stopping that failed |
| `ShutdownRuns.AnswersAreFinal` | src/pool/manager.rs:182-201 | what a call has returned never changes |
| `ShutdownRuns.ClosedRefusesCalls` | src/pool/manager.rs:210-216 | a call that starts after the pool was closed returns Closed |
| `ShutdownRuns.NoProxyAfterTheEnd` | src/pool/manager.rs:276-288 | once the manager is gone no call gets a proxy any more |
| `Exclusion.StepExcludes` | src/pool/manager.rs:123-158 | every fine-grained step outside a restart and a shutdown keeps the exclusion below, if no call marks its lane inside another one's look-to-send window or between the manager's computing and storing, or looks between an insert and its overwrite |
| `Exclusion.RotationExclusion` | src/pool/manager.rs:123-158 | over every run of such steps without a restart, while the manager lives: one queued Rotate per lane; a lane unavailable exactly when about to be queued, queued, about to be shown or failed; published only if available, but for the moment between insert and overwrite |
| `Exclusion.RotationExclusionAtRest` | src/pool/manager.rs:123-158 | there, with nobody mid-rotation: unavailable exactly when queued or failed, and `ready` disjoint from `unavailable` |
| `Exclusion.ManualFailureIsFinal` | src/pool/lane.rs:73-74 | there, a lane whose queued rotation failed stays Failed, unpublished and out of the queue |
| `Exclusion.SettledSnapshot` | src/pool/manager.rs:138-146 | there, if nothing is stored while a rotation holds a snapshot it has yet to write: between commands `ready` is what `ready_lanes` computes now, but for the lane about to be hidden |
| `Exclusion.FailedStaysFailed` | src/pool/lane.rs:73-74 | in such runs a Failed lane that nobody is rotating stays Failed and unpublished, however it failed |
| `Limits.HiddenLaneIsPublished` | src/pool/manager.rs:138-146 | from any pool of two lanes, a run that publishes a lane whose Rotate is queued |
| `Limits.OldCredentialsReturn` | src/pool/manager.rs:138-146 | from any pool of two lanes, a run in which a rotation returns Ok with the old credentials published and the new ones not |
| `Limits.StoredOverHidden` | src/pool/manager.rs:446-448 | from any pool with a ttl, a run with one single rotation that publishes its lane while its Rotate is queued |
| `Limits.RotationQueuedTwice` | src/pool/manager.rs:446-448 | its continuation by a second rotation, begun after the first has sent: the lane is queued twice |
| `Limits.StoredInWindow` | src/pool/manager.rs:446-448 | from any pool of two lanes with a ttl, a serial run with one single rotation, of lane 0, that ends with lane 1's old endpoint published, lane 1 being at its next epoch or Failed |
| `Limits.FailedLaneIsQueued` | src/pool/lane.rs:73-74 | its continuation: the Failed lane is queued by a rotation that overlaps no other, and is Ready again |
| `Limits.LookBetweenIsStale` | src/pool/manager.rs:137-146 | from any pool of two lanes, a run in which no call marks its lane in another one's window and a queued lane is published all the same |
| `Limits.RestartLetsQueueTwice` | src/pool/manager.rs:427-435 | from any restartable pool, a run in which a restart shows a queued lane and it is queued a second time |
| `Exposure.PublishedByStep` | src/pool/manager.rs:138-146 | an unpublished lane, hidden or not, becomes published in a step if and only if the step overwrites `ready` for another lane with a snapshot holding it, or stores one holding it |
| `Exposure.ExposedByStep` | src/pool/manager.rs:137-146 | a lane becomes published although hidden if and only if a step publishes it while hidden, as above, or hides it while published |
| `Exposure.PublishedIffBroughtBack` | src/pool/manager.rs:138-146 | over any stretch of any run, a lane unpublished at its start is published at its end if and only if such a step brought it back and none took it out since |
| `Exposure.PublishedAtOk` | src/pool/manager.rs:446-448 | when the Ok of an awaited rotation is about to go out, the lane's new endpoint is published if and only if nothing has overwritten the manager's store and the lane was not hidden when it was computed, or the last overwrite was for another lane and held that endpoint |
| `Staleness.StaleIffRestored` | src/pool/manager.rs:138-146 | in every run, with the manager at rest: an endpoint that is not that of a Ready lane now is published if and only if the last write of `ready` was an overwrite for another lane by a call that held it |
| `Staleness.OtherInstanceIffRestored` | src/pool/manager.rs:138-146 | so with every endpoint of an instance or address other than the recorded one |
| `Staleness.HandedOutWasPublished` | src/pool/manager.rs:79-108 | whatever `next` or `for_key` hands out was published in the one moment the call looked, and if stale with the manager at rest, then restored so |
| `Limits.FailedLaneRevives` | src/pool/lane.rs:73-74 | from any pool, a run in which a Failed lane is Ready again without a restart |
| `FailedLanes.FailedUnlessRevived` | src/pool/manager.rs:362-436 | a step takes a lane out of Failed if and only if it is a successful Rotate of that lane or part of a restart |
| `FailedLanes.FailedIffNotRevived` | src/pool/manager.rs:341-436 | over whole runs: a lane is Failed if and only if some rotation or restart failed it and no successful Rotate or restart has revived it since |
| `Limits.ThirdShutdownReturnsEarly` | src/pool/manager.rs:182-208 | from any pool, a run in which a third shutdown caller returns while the manager runs |
| `Joins.HandleIsTakenOnce` | src/pool/manager.rs:203-208 | in every run the handle is there until the first shutdown call reaches for it |
| `Joins.PastJoining` | src/pool/manager.rs:203-208 | a call reaches for the handle once at most |
| `Joins.JoinReturnsAtOnce` | src/pool/manager.rs:203-208 | a call that reaches for the handle returns in that step if and only if another has done so before |
| `Joins.ShutdownReturned` | src/pool/manager.rs:182-208 | every shutdown call that returned without being cancelled either was the first to reach for the handle, and the manager is gone, or was not and returned at once |
| `Limits.DeadInstanceIsPublished` | src/pool/manager.rs:409-421 | from any restartable pool, a run in which a restart stops the old instance, starts none, and a Rotate behind it publishes an endpoint of the stopped one |
| `Instances.InstanceHeld` | src/pool/manager.rs:409-425 | in every run of a pool built on an instance, while the manager lives, there is one if and only if every restart that let one go has started another |
| `Instances.OrphanStep` | src/pool/manager.rs:341-436 | a lane is Ready without an instance after a step if and only if a Rotate of it succeeds in the step with none there, or it was so before and no rotation of it fails and no restart retires it |
| `Instances.OrphanIffRescued` | src/pool/manager.rs:341-436 | over whole runs: if and only if such a Rotate succeeded at some step and the lane has not left Ready since |
| `Instances.PublishedInstance` | src/pool/manager.rs:398-436 | at quiescence a published endpoint has the recorded instance and address, and one runs if and only if the lane was not rescued so, if and only if every instance let go was replaced |
| `Instances.PublishedAtRest` | src/pool/manager.rs:398-436 | with the manager at rest, quiescent or not: a published endpoint of a Ready lane is bound to the recorded instance, which runs if and only if the lane was not rescued; any other was restored by an overwrite |
| `RoundRobin.HitsBalanced` | src/pool/manager.rs:79-87 | over any window of consecutive cursor values two residues are hit equally often but for one |
| `RoundRobin.PickChooses` | src/pool/manager.rs:79-87 | a selection of entry `i` is a `next` call about to hand out exactly that entry of the snapshot it read |
| `RoundRobin.SelectionsAreHits` | src/pool/manager.rs:79-87 | in such a window entry `i` is selected exactly as often as the cursor values of the window name it, wrapping at the machine word |
| `RoundRobin.RoundRobinBalance` | src/pool/manager.rs:79-87 | over any window of any run with one snapshot, whichever clones call, lanes are selected equally often but for 1, or for 2 across one wrap of the cursor |
| `Ttl.TickPeriodBounds` | src/pool/manager.rs:473-476 | a quarter of the ttl between 20 ms and 4 s, a second above, 5 ms at least, and a day without a ttl; at most a quarter of the ttl exactly from 20 ms on |
| `Ttl.TickRotatesExpired` | src/pool/manager.rs:380-396 | a tick renews or fails exactly the Ready lanes as old as the ttl and leaves every other lane alone |
| `Ttl.AgeBound` | src/pool/manager.rs:307-309 | over every run: if the pool was built, or the last tick handled, at most a period ago, no Ready lane is as old as ttl plus period |
| `Reader.ReplyReader.ReadProtocolLine` | src/tor/controller/codec.rs:159-171 | the loop strips every trailing line end and consumes exactly the first line |
| `Reader.ReplyReader.ConsumeStatus` | src/tor/controller/codec.rs:92-126 | the data-block loop ends at the dot, unstuffs, and consumes exactly the block |
| `Reader.ReplyReader.ReadWholeReply` | src/tor/controller/codec.rs:58-90 | the reply loop computes the parser's result and leaves what the parser leaves |
| `Framing.DataReads` | src/tor/controller/codec.rs:92-126 | a dot-stuffed block reads back line by line and leaves the tail |
| `Framing.ReplyRoundTrip` | src/tor/controller/codec.rs:58-171 | any well-formed reply, printed and followed by any tail, reads as that reply and leaves exactly the tail |
| `Framing.StreamRoundTrip` | src/tor/controller/codec.rs:58-171 | any concatenation of printed replies reads back as those replies, to the end |
| `Framing.ParserImage` | src/tor/controller/codec.rs:128-157 | a reply can come out of the parser if and only if it is well formed |
| `Framing.StatusLineVerdict` | src/tor/controller/codec.rs:141-157 | exactly which lines are status lines, with which code, and which error each other line gives |
| `Framing.PayloadVerdict` | src/tor/controller/codec.rs:128-139 | a payload is a key and a value if and only if its first `=` comes after characters none of which is white |
| `Framing.RawDataReads` | src/tor/controller/codec.rs:92-126 | of the lines of any data block exactly those that start with two dots lose one |
| `Framing.DataKeyVerdict` | src/tor/controller/codec.rs:92-126 | the key of a data block is its payload, but for one `=` at the end |
| `Framing.MixedCodes` | src/tor/controller/codec.rs:58-90 | a line of another code after the first is never taken into a reply |
| `Truncation.TruncatedReply` | src/tor/controller/codec.rs:159-171 | a reply cut by the end of the input is accepted if and only if the cut is four characters or more into its last line, then with the payload so far; it is the right reply if and only if only line-end characters are missing |
| `ControlWords.ControlWordsOf` | src/tor/controller/client.rs:242-268 | the tokenizer's loop computes the words |
| `ControlWords.QuotedWordsRoundTrip` | src/tor/controller/client.rs:242-268 | quoted and joined words come back without the empty ones, so all of them if and only if none is empty |
| `ControlWords.WordsAmongWhitespace` | src/tor/controller/client.rs:242-268 | so do words with any whitespace around and among them, quoted or not |
| `ControlWords.BareWords` | src/tor/controller/client.rs:242-268 | words without quotes come back as they are, a backslash among them too |
| `ControlWords.FieldFindsFirst` | src/tor/controller/client.rs:270-274 | in printed `NAME="value"` pairs the first value of the name is found, also an empty one and one whose name is a prefix of another |
| `ProtocolInfo.ParseProtocolInfo` | src/tor/controller/client.rs:206-240 | the loop over the lines computes the record or the missing-methods error |
| `ProtocolInfo.InfoNeedsMethods` | src/tor/controller/client.rs:228-232 | parsing fails if and only if no AUTH line has a METHODS field |
| `ProtocolInfo.InfoOfAnyReply` | src/tor/controller/client.rs:206-240 | the record of any reply: each known name of the last METHODS is its method and each other name is kept, the cookie file is that of the last AUTH line and the version that of the last VERSION line |
| `ProtocolInfo.OthersAreIgnored` | src/tor/controller/client.rs:206-226 | lines other than AUTH and VERSION change nothing, wherever they stand |
| `ProtocolInfo.MethodNameInverts` | src/tor/controller/auth.rs:34-44 | no two method names parse to the same method |
| `ProtocolInfo.InfoRoundTrip` | src/tor/controller/client.rs:206-240 | any reply whose AUTH and VERSION lines announce a record, printed, read from the stream and parsed, gives that record, name by name, and leaves the tail |
| `ProtocolInfo.CanonicalInfoRoundTrip` | src/tor/controller/client.rs:206-240 | so does the reply of section 3.21 for any method names without comma, whitespace and quote and any one-line path and version |
| `SafeCookie.NoChallenge` | src/tor/controller/auth.rs:124-134 | a reply is refused for want of a challenge if and only if no line of text begins with it |
| `SafeCookie.ChallengeAccepted` | src/tor/controller/auth.rs:136-154 | a challenge is accepted if and only if both fields of its first line are 32 bytes in hexadecimal, and what each missing or malformed field gives |
| `SafeCookie.ChallengeRoundTrip` | src/tor/controller/auth.rs:124-154 | a printed challenge of two 32-byte values parses to them |
| `SafeCookie.ChallengeOverWire` | src/tor/controller/auth.rs:124-154 | so does one that is printed, followed by any tail, and read from the stream |
| `SafeCookie.HonestRepliesRead` | src/tor/controller/auth.rs:78-107 | whatever the client sent, the printed answer of a server following section 3.24 reads back as that answer |
| `SafeCookie.ExchangeWithAnyone` | src/tor/controller/auth.rs:78-107 | whoever answers: the client checks and makes its hashes over the cookie, its own nonce and the server's in this order, with the two texts of section 3.24, and sends exactly these two commands |
| `SafeCookie.ExchangeAgrees` | src/tor/controller/auth.rs:78-107 | against a server following section 3.24 the proof is sent if and only if the server hash is the client's own, and the exchange succeeds if and only if both hashes agree, so always with one cookie |
| `Actor.SendIsAccepted` | src/tor/controller/client.rs:61-75 | a command is accepted if and only if it has no line break and the actor is there, and which error each other one gives |
| `Actor.ReadConcludes` | src/tor/controller/client.rs:168-191 | what the reply, an error and the end of the stream become, who hears of it, and when the actor stops |
| `Actor.WrittenIsCommands` | src/tor/controller/client.rs:168-191 | in every run the bytes written split into exactly the commands sent, in order, and a beginning of the next |
| `Actor.RepliesArePaired` | src/tor/controller/client.rs:61-75 | in every run a waiter's Ok is the server's reply to its own command, whoever was abandoned, except for a reply the server cut |
| `Actor.OnlyCutRepliesAreWrong` | src/tor/controller/client.rs:168-191 | that exception needs a cut four characters or more into the last line, and is wrong if and only if payload is missing |
| `Actor.WrongReplyIsDelivered` | src/tor/controller/client.rs:168-191 | for every command, every reply and every such cut, a run in which the waiter gets an Ok that is not the reply |
| `Actor.NothingAfterError` | src/tor/controller/client.rs:168-191 | after the first error nothing is written, taken or answered any more |
| `Actor.AnsweredOnce` | src/tor/controller/client.rs:61-75 | a waiter that has its answer, the reply or the closed channel of a stopped actor, never gets another |
| `ActorLoop.RunActor` | src/tor/controller/client.rs:168-191 | the loop's outcomes, and the bytes on the wire: the commands so far as far as the writer took them |
| `ActorLoop.LoopPairs` | src/tor/controller/client.rs:168-191 | given printed replies to come, command k gets reply k, and the first command without one fails and is the last |
| `TorConfig.ValidateDuplicatePorts` | src/tor/torc/builder.rs:186-208 | Ok if and only if the fixed TCP ports are pairwise distinct; otherwise the first port that repeats an earlier one |
| `TorConfig.RangeIsDistinct` | src/tor/torc/socks.rs:196-217 | a range repeats no port, and clashes with the control port if and only if that lies in it |
| `TorConfig.RangeBuilds` | src/tor/torc/socks.rs:196-217 | a configuration with a range builds if and only if the range is not empty, ends by 65535 and leaves out the control port, the control interface is not exposed and the bridges are in order, with exactly `count` listeners |
| `TorConfig.ValidateBridges` | src/tor/torc/bridges.rs:166-208 | Ok if and only if every transport has a plugin and every obfs4 bridge a fingerprint, a first cert that is not empty and a first iat-mode up to 2; otherwise the first fault of the first faulty bridge |
| `TorConfig.Obfs4BridgeOk` | src/tor/torc/bridges.rs:116-124 | a converted obfs4 bridge passes if and only if its own fields are in order |
| `TorConfig.NewRawOption` | src/tor/torc/option.rs:16-33 | accepted if and only if key and value are as the type demands; a bad key is reported before a bad value |
| `TorConfig.Build` | src/tor/torc/builder.rs:124-184 | Ok if and only if the configuration is in order, a control port without authentication being on 127/8, ::1 or a path; with exactly the warranted warnings, each once and in order; otherwise the error of the first check that fails, and which port or bridge it names |
| `TorRender.AppendSection` | src/tor/torc/render.rs:179-193 | the loop appends the section's text, and nothing for no lines |
| `TorRender.RenderSocksPort` | src/tor/torc/render.rs:216-224 | the joined parts are one `SocksPort` option line |
| `TorRender.RenderBridges` | src/tor/torc/render.rs:234-252 | the loops give one option line per plugin and bridge after `UseBridges` |
| `TorRender.RenderConfig` | src/tor/torc/render.rs:11-177 | the sections in order, rendered one after the other |
| `TorRender.SectionsAreRead` | src/tor/torc/render.rs:179-193 | what a reader finds in rendered sections, whatever the options: each option's own lines but blanks and comments, in section order |
| `TorRender.TextIsRows` | src/tor/torc/render.rs:179-193 | the whole text row by row: for each section with any line a heading with its name, its lines and a blank row |
| `TorRender.SectionNames` | src/tor/torc/render.rs:14-174 | the names of the sections, in order, with `Bridges` only when there is a bridge configuration |
| `TorRender.SectionsComeBack` | src/tor/torc/render.rs:179-193 | dropping blanks and headers gives back exactly the option lines in section order if and only if each is non-empty, one line, and has no `#` in front |
| `TorRender.ConfigComesBack` | src/tor/torc/render.rs:11-177 | for a whole configuration that holds if and only if no typed value has a line break and no raw key starts with `#` |
| `TorReading.ConfigIsReadBack` | src/tor/torc/render.rs:11-177 | a reader that looks every option up by its literal keyword and parses its value gives the rendered configuration back, each field absent exactly when it was not set, listeners, plugins, bridges, logs and raw options in order |
| `TorReading.SocksReads` | src/tor/torc/render.rs:216-224 | a listener with its flags and isolation reads back, but for the address of one on a path |
| `TorReading.PlaceReads` | src/tor/torc/render.rs:226-232 | an address of either version and its port read back, also `auto` and a path |
| `TorReading.PluginReads` | src/tor/torc/render.rs:234-252 | a plugin with its names, executable and arguments reads back |
| `TorReading.BridgeReads` | src/tor/torc/render.rs:254-270 | a bridge with or without transport and fingerprint reads back |
| `TorReading.ControlReads` | src/tor/torc/render.rs:21-38 | the control interface reads back from any tidy configuration, and is absent from one without |
| `TorReading.NodesRead` | src/tor/torc/render.rs:126-141 | so do exit and excluded nodes and the strict flag |
| `TorRender.CommentedOptionIsLost` | src/tor/torc/option.rs:16-33 | the option `#x` with value `1` is admitted, and its line is lost from the text of any configuration that has it |
| `TorRender.BrokenValueIsOption` | src/tor/torc/render.rs:283-285 | of a syslog tag with a line break, what follows the break is read as an option line |

## Left out

- RoundRobinBalance: windows on one published snapshot and at most one wrap of a 64-bit cursor; the cursor of a 32-bit machine would wrap earlier.
- RestartOutcome: at the instants of one restart; a lane is tracked against the state in which the command was taken.
- Protocol: work on state that only the manager sees is merged with the shared access that follows it, and sending on the response channel of a restart or shutdown with the step that ends it.
- TruncatedReply: the cut is at a character; a cut inside a multi-byte character is an encoding error in the source.
- Text: strings are sequences of characters, so the byte lengths in the status-line check and hex decoding are character lengths, and invalid UTF-8 is not modelled.
- Starting, stopping and supervising Tor, files, directories, sockets and timers: steps that succeed or fail as the environment decides.
- HMAC-SHA256 is any function to 32 bytes and the random source any bytes or a failure; their quality is not modelled.
- The tokio runtime and lock poisoning: each lock and atomic operation is one step, channels are queues in send order, the control channel has no capacity bound.
- Panics and process termination.
- Range checks on pool and rotation settings: they are what `Protocol.Init` assumes.
- `bootstrap_progress`, `socks_listeners`, `wait_bootstrap` and COOKIE and NULL authentication: thin combinations of the parsers and commands modelled here.
- Asynchronous 650 events: the client never subscribes to them.
- `TorIdentityPool`, the `reqwest` adapter, redacted formatting, getters and setters: easy or cosmetic.
- Durations in the torrc are whole seconds, addresses the texts they print as.
- ConfigIsReadBack: for texts without line breaks, lists without commas, words without spaces and raw options under other keywords; without these the text is ambiguous.
