# loto: the git-gate, its territory rule and its repair, verified

loto lets several agents work in one repository. A change an agent proposes is
captured in an *envelope* (the paths it writes, the content each of them must
still have, the directories its new files rely on), judged by *admission*,
queued as a candidate ref, moved onto `refs/loto/integration` by *promotion*,
and carried from there onto one branch a bead by the *bridge*. Beside that path
stand the *territory rule* (whose hold refuses which write), the lock rows it
is asked over, the *lane* commit that builds a proposal, and `loto sync`, which
repairs a checkout that has fallen behind.

The project models those parts in Dafny and proves what they promise:

- **Promotion** (`Protocol`, `Histories`) is a step system over one shared ref
  store: any number of pushers, their claims, verifies, landings, releases and
  rejections interleaved one transaction at a time, crashes between any two
  steps, claims taken away rightly or wrongly, and no lock at all. In every run
  integration is one linear chain of landings, each verified and each built on
  exactly the value it replaces; no candidate is lost, promoted twice, or both
  promoted and rejected; a batch whose claim is gone never lands. `Claims` adds
  the flock, and with it claim exclusivity.
- **One pusher's call** (`PromoteRuns`, with `Pushers` and `Diaries`) is the
  imperative code of `Promote`, run inside that step system beside arbitrary
  peers and arbitrary transaction failures. What the call did is kept in a
  diary, in legal order; its outcomes, its errors and the reason it ended are
  proved to be exactly what the diary says. `Overtakings` is one run in full: how
  a look at the queue can be overtaken.
- **The batch theorem** (`Envelopes`, `Admission`, `Selection`, `Choices`, `Chain`,
  `BatchChains`): every candidate gets exactly what it is due, every freshness check
  reads the snapshot, the batch is applied as a chain, and that is enough.
- **The bridge** (`Bridge`, `BridgeBuilds`, `BridgeRuns`): grouping, first-touch
  staleness, replay, and the branch/marker pair under concurrent runs.
- **Territory and leases** (`Territory`, `Targets`, `Leases`, `HoldRefs`):
  string-level rules against their meaning on segments, and mutual exclusion
  over every run of the lock rows.
- **Sync** (`SyncDecisions`, `SyncAccounts`, `SyncRuns`) and **the lane commit**
  (`Lane`).
- **Messages** (`Messages`, `Decimals`): the claim a chain tip carries, read back
  and stripped.

`Options`, `Text`, `Ordering`, `Filters`, `Paths` and `Trees` hold what the others
share. A commit is its content (parents, tree, message) and a tree is a map from
paths to blobs, so equal objects are one object. Clocks, verify verdicts, liveness
answers, peers' actions and failures are arbitrary functions of time. Nothing here
was executed.

## Where the code is weaker than its words

Each of these is proved, with the exact condition where there is one.

- A queued candidate whose path is a directory in the snapshot is not stale but a
  read error, and it stops the round for everyone behind it: exactly when the scan
  gets to such a candidate (`Selection.SelectFailsExactly`). Promotion never makes a
  directory (`Histories.NoNewDirectories`), so a queue read while integration is
  still the snapshot can always be chosen from (`Pushers.UnmovedSelects`), and a
  pusher's look fails to choose only when integration moved between the two reads
  (`PromoteRuns.World.Phase1`). Nothing can land between them while phase 1 holds the
  flock that phase 3 takes as well (`Pushers.LockedLookSelects`), so the flock does
  more than the saving of work its comment claims for it; without it the failure
  happens (`Overtakings.ReadErrorHappens`).
- "Every candidate a round touches leaves with exactly one" outcome
  (internal/gate/promotion.go:57-58): some leave with none. A solo look says nothing
  exactly when a peer claimed the candidate or took it away, or it is not whole
  (`Choices.SilentExactly`), and a solo round gives exactly one outcome unless the
  look is silent or blocked or the call has an error (`PromoteRuns.World.PromoteSolo`).
  Of a claimed batch everybody hears when there is no verdict, everybody after a pass
  unless the landing fails outright, and after a red verdict exactly those whom the
  sweep answered before it stopped (`PromoteRuns.World.VerifyAndCommit`).
- "Any interleaving at all … requeues" (internal/gate/promotion.go:206-210): a
  landing is requeued exactly when integration moved; a claim taken away or a
  member settled by a peer stops the run instead (`Histories.RequeuedOnlyWhenMoved`,
  `PromoteRuns.World.Phase3`).
- A directory a member of a batch relies on can be gone at that member's own base,
  exactly when the members before it deleted every file in it and put none there
  (`Chain.AncestryLapsesExactly`, `Chain.LapseHappens`); it never turns into a file
  (`Chain.AncestorsNeverFiles`).
- The bridge can replay a commit twice: a run that listed integration before a
  peer's build, and read the refs after that build's branch was deleted, rebuilds
  from the start and moves the marker back (`BridgeRuns.ReplayedTwice`). A build
  moves its marker forward exactly when its plan is not behind it
  (`BridgeRuns.MarkerForwardExactly`), and nothing is ever replayed twice or past its
  marker exactly when no build that goes through is behind its own
  (`BridgeRuns.ExactlyOnce`).
- Canonicalising a typed target is not idempotent, because the white-space rule
  looks at the raw token (`Targets.TypedNotFixed`; `Targets.FixedPointExactly` says
  exactly when it is).
- A lapsed lock row comes back to life exactly when a call that began before the
  lapse posts late, after it was flagged or given up (`Leases.RevivesExactly`,
  `Leases.RevivalHappens`). Exclusion holds regardless (`Leases.LiveHoldsNeverOverlap`).
- Sync deletes a file integration holds, and which was in order, exactly when a
  rejected candidate once recorded the same bytes at that untracked path and
  nobody holds it (`SyncAccounts.RescanForeseen`, `SyncAccounts.IntegratedFileDeleted`).
- A lane commit loses a file nobody named exactly when a staged file lies beneath a
  path the parent tracks as a file (`Lane.FrameExactly`, `Lane.AFileLost`);
  admission then refuses the commit (`Lane.AdmissionAcceptsExactly`).
- A claim written with an empty host reads back only if the attribution above it
  names no host (`Messages.ClaimReadsBackExactly`).

## Model

| member | source | states |
|---|---|---|
| RefTransactions.UpdateRefsTx | internal/gate/refs.go:67-111 | A script of ref updates is all or nothing: carried out exactly when every line holds against the store as found and no ref is named twice; otherwise the first failing line names the error |
| RefTransactions.TransactEffect | internal/gate/refs.go:67-150 | A script that goes through has exactly the effect of each line and leaves every ref it does not name alone |
| RefTransactions.CasLostMeansMoved | internal/gate/refs.go:67-111 | A lost compare-and-swap is reported only when the first failing line names a ref that exists with another value |
| Envelopes.CaptureTransitions | internal/gate/envelope.go:290-308 | One transition a write-set path with both sides as they stand, plus exactly the created paths; fails exactly when some path is a directory on either side |
| Envelopes.CaptureAncestry | internal/gate/envelope.go:316-336 | The needed directories are exactly the ancestors of the created paths, sorted, each a tree now; otherwise one that is not is named |
| Envelopes.Capture | internal/gate/envelope.go:251-285 | An envelope is minted exactly when nothing stands against it; it is one Capture could have made of these trees, carries every field given, and every refusal is true |
| Envelopes.CapturedIsSound | internal/gate/envelope.go:290-348 | A captured envelope lists every ancestor of every path it creates, never writes beneath a path it writes, and names each path consistently |
| Envelopes.ListCreated | internal/gate/envelope.go:167-180 | The one-pass loop computes CreatedPaths |
| Envelopes.CreatedExactly | internal/gate/envelope.go:167-180 | What a rejection hands a deleter: exactly the declared paths integration lacked at capture, each with the bytes the proposal gave it |
| Paths.AncestorsExact | internal/gate/envelope.go:342-348 | ancestorsOf lists exactly the proper directory prefixes of a canonical path |
| Admission.DiffStringSets | internal/gate/admission.go:345-369 | The two-index merge computes the recursive difference of two lists |
| Admission.DifferenceExact | internal/gate/admission.go:345-369 | On sorted lists the merge is multiset difference, both ways |
| Admission.DeclaredExactly | internal/gate/admission.go:230-255 | The write-set check passes exactly when the declared paths are the changed paths, each once |
| Admission.TransitionsVerdict | internal/gate/admission.go:278-290 | The preimage check accepts exactly when every path reads as the envelope captured it |
| Admission.RefusesExactly | internal/gate/admission.go:278-290 | It refuses exactly when some path can be read and has moved while every earlier one holds; a directory met first is an error instead |
| Admission.FailsExactly | internal/gate/admission.go:278-290 | It fails to read exactly when the first path that does not hold is a directory |
| Admission.AncestryVerdict | internal/gate/admission.go:294-306 | The ancestry check accepts exactly when every needed directory is one still |
| Admission.EpochsVerdict | internal/gate/admission.go:262-271 | The lease check accepts exactly when every write-set path is leased under the same epoch now as at capture, an absent one counting as zero |
| Admission.ViolationsVerdict | internal/gate/admission.go:322-333 | The violation check accepts exactly when no write-set path carries one |
| Admission.AdmitExact | internal/gate/admission.go:166-197 | A candidate is admitted exactly when all conditions hold at once |
| Admission.RefusalEarned | internal/gate/admission.go:166-197 | Every refusal is true of what it names and every condition asked before it held; a read error means a directory at a declared path |
| Admission.CapturedIsFresh | internal/gate/envelope.go:251-336 | An envelope is fresh against the tree it was captured from |
| Admission.CaptureThenAdmit | internal/gate/admission.go:278-306 | With nothing moved, admission never calls a capture stale and never fails to read |
| Selection.SelectCandidates | internal/gate/promotion.go:522-554 | The selection loop computes the fold over candidates in id order, which Choices.ChoosesExactly says in full |
| Selection.StaleVerdict | internal/gate/promotion.go:611-627 | A candidate is passed over exactly when it is not fresh; stale-ancestry only when every preimage holds |
| Selection.SelectionAccounts | internal/gate/promotion.go:522-581 | The batch is fresh, pairwise disjoint, in id order and within its size; every candidate scanned is a member, an outcome with its true reason, or a skip with one, and an overlap goes to the smaller id; the scan ends early only when full |
| Selection.FailureAccounts | internal/gate/promotion.go:522-554 | A selection that fails had accounted for every candidate before the one it failed on, and that one is ours, loads, overlaps nothing taken, and has a directory as its first path that does not hold |
| Selection.FailureNamesADirectory | internal/gate/promotion.go:567-581 | Selection fails only on a candidate one of whose paths is a directory in the snapshot |
| Selection.SelectFailsExactly | internal/gate/promotion.go:522-581 | Selection fails exactly when the scan reaches, with room left, a candidate it may take whose first path that does not hold is a directory |
| Selection.ReadableQueueSelects | internal/gate/promotion.go:522-581 | A queue none of whose paths is a directory in the snapshot can be chosen from |
| Choices.SilentExactly | internal/gate/promotion.go:325-332 | A solo round that can choose neither takes its candidate nor gives it an outcome exactly when a peer claimed it, or the queue holds no whole envelope and proposal under its id |
| Selection.FailsSilently | internal/gate/promotion.go:522-554 | A solo round that cannot choose gives no outcome |
| Choices.LoadsExactly | internal/gate/promotion.go:591-601 | A candidate loads exactly when the queue holds an envelope for it with an id, a bead, a write-set and a transition for each of its paths, and its proposal |
| Choices.ChoosesExactly | internal/gate/promotion.go:522-581 | Of a round that can choose: a candidate that loads, is unclaimed and allowed, shares no path with a member of smaller id, and comes before the batch is full, is a member if every preimage and needed directory holds, else is told stale-preimage or, only if every preimage holds, stale-ancestry; nobody else is a member or told anything |
| Choices.ShortBatchSawAll | internal/gate/promotion.go:536-554 | A batch smaller than it might be leaves no candidate it could have taken: each is a member, told why not, or yields to a smaller id |
| Chain.WritesNeverNest | internal/gate/envelope.go:316-348 | Of two envelopes fresh against one tree, neither writes beneath a path the other writes |
| Chain.ChainWellFormed | internal/gate/promotion.go:828-874 | The tip of a chain on a well-formed snapshot is well-formed: no file where a directory is needed |
| Chain.EveryTreeWellFormed | internal/gate/promotion.go:828-874 | So is every tree along the chain, in any member order |
| Chain.PreimagesAtOwnBase | internal/gate/promotion.go:828-851 | Every member still reads every captured preimage at the tree its own commit is built on |
| Chain.AncestorsNeverFiles | internal/gate/admission.go:294-306 | A directory a member needs is a file neither at its own base nor at the tip |
| Chain.AncestryLapsesExactly | internal/gate/admission.go:294-306 | It is gone at that base exactly when earlier members deleted every file the snapshot had in it and wrote nothing else beneath it |
| Chain.LapseHappens | internal/gate/promotion.go:828-874 | A fresh batch in which that happens |
| Chain.TipExactly | internal/gate/promotion.go:858-874 | The tip is the snapshot off the write-sets and each member's result on its own |
| Chain.OrderIndependent | internal/gate/promotion.go:828-851 | The tip does not depend on member order |
| Chain.LandedWellFormed | internal/gate/promotion.go:828-874 | Any sequence of batches, each fresh where it lands, keeps integration well-formed |
| Chain.DirectoriesOnlyShrink | internal/gate/envelope.go:316-336 | A batch makes no directory: one that is there after it was there before |
| Chain.LandedReadable | internal/gate/promotion.go:828-874 | A path that is no directory never becomes one, whatever lands |
| Chain.WaitingPreimages | internal/gate/promotion.go:611-627 | Batches that miss a waiting candidate's path leave its preimage reading exactly as captured |
| Chain.WaitingVerdict | internal/gate/promotion.go:611-627 | A waiting candidate none of whose paths was written stays fresh, or turns stale-ancestry exactly when a directory it needs is gone |
| Chain.WaitingAncestry | internal/gate/promotion.go:611-627 | A needed directory is lost only if the batches wrote away every file in it |
| BatchChains.BuildBatchChain | internal/gate/promotion.go:828-874 | The running-base loop builds one single-parent commit a member |
| BatchChains.ChainRestsOn | internal/gate/promotion.go:828-851 | The chain tip carries the members' transitions in turn and descends from the snapshot by one commit a member |
| BatchChains.LandExactly | internal/gate/promotion.go:966-985 | The landing transaction goes through exactly when integration, the claim and every member's refs are what phase 1 read; it then moves integration, drops all of them and nothing else |
| BatchChains.RequeuedExactly | internal/gate/promotion.go:985-998 | It reports a lost compare-and-swap exactly when integration moved, and a plain failure exactly when only the claim or a member is gone |
| BatchChains.RetireExactly | internal/gate/promotion.go:368-379 | The rejection transaction goes through exactly when the candidate and the claim are untouched, and drops those three refs alone |
| Protocol.NextRefs | internal/gate/promotion.go:206-248 | Every step of every pusher, in any interleaving, keeps the ref store true to the record of the run |
| Protocol.NextRecords | internal/gate/promotion.go:476-514 | Every batch on record is fresh against its own snapshot, disjoint and honestly built |
| Protocol.LandTree | internal/gate/promotion.go:828-874 | What lands on a well-formed tree is well-formed |
| Protocol.NextTrees | internal/gate/promotion.go:828-874 | Every step keeps every value of integration well-formed |
| Protocol.NextCaptured | internal/cli/cmd_submit.go:117-138 | Every accepted candidate was captured from some value integration had |
| Protocol.NextKeeps | internal/gate/promotion.go:206-248 | Every step keeps the whole invariant, and the record only grows |
| Protocol.RunKeeps | internal/gate/promotion.go:206-248 | So does every run |
| Histories.LinearHistory | internal/gate/promotion.go:265-299 | In every run each value integration takes after bootstrap is the tip of a batch that passed verify, built on exactly the value it replaces, every member's preimages holding at its own base |
| Histories.OneChain | internal/gate/promotion.go:966-985 | Every value integration takes descends from every earlier one |
| Histories.TreesAreLandings | internal/gate/promotion.go:828-874 | Between any two values of integration the tree is what the batches between wrote |
| Histories.NoNewDirectories | internal/gate/promotion.go:828-874 | In every run a directory of integration was one at every earlier value |
| Histories.CapturedQueueSelects | internal/gate/promotion.go:522-581 | A queue whose candidates were captured by the time of the snapshot can always be chosen from |
| Histories.WaitingStaysFresh | internal/gate/promotion.go:611-627 | In every run a waiting candidate none of whose paths later batches write keeps every preimage; it can only turn stale-ancestry, exactly when a directory it needs is gone, and then every file of that directory was written away |
| Histories.Conservation | internal/gate/refs.go:157-162 | In every run an accepted id is queued, promoted or rejected, exactly one of the three, and its two refs come and go together |
| Histories.PromotedOnce | internal/gate/promotion.go:966-985 | No id is promoted twice |
| Histories.PromotedAsAccepted | internal/gate/promotion.go:966-985 | What was promoted is what was accepted |
| Histories.RejectedAlone | internal/gate/promotion.go:361-379 | A rejected candidate was alone in a chain that failed verify |
| Histories.LandsOnlyClaimed | internal/gate/promotion.go:966-985 | Only a batch whose claim stands can land |
| Histories.ReclaimedNeverLands | internal/gate/promotion.go:663-722 | A batch whose claim is gone lands in no continuation of the run |
| Histories.RequeuedOnlyWhenMoved | internal/gate/promotion.go:985-998 | In every run a lost landing of candidates as accepted, which is all a pusher ever carries (Pushers.ChosenAsAccepted), is requeued exactly when integration moved; a reclaimed claim or settled member fails otherwise |
| Claims.TurnsKeep | internal/gate/promotion.go:476-514 | Under the flock every standing claim is still to be swept or has spoken for its candidates, whatever peers do |
| Claims.SweepDrops | internal/gate/promotion.go:699-722 | A claim that reads back whole and whose owner is gone is dropped and speaks for nobody; if it no longer stands, the round ends |
| Claims.SweepHeeds | internal/gate/promotion.go:699-747 | Any other claim stays, speaks for exactly the candidates it names, and blocks the round exactly if it names none |
| Claims.ClaimsNeverOverlap | internal/gate/promotion.go:663-722 | A claim made under the flock shares no candidate with any other standing claim, garbled ones included |
| Claims.ListlessClaimStopsAll | internal/gate/promotion.go:727-747 | While a claim that names no candidate stands, no claim is made |
| Diaries.ToldJoins | internal/gate/promotion.go:211-248 | Outcomes of a record are those of its parts, in order |
| Diaries.NothingEligible | internal/gate/promotion.go:522-581 | After a look that found nothing, every candidate that loads, is unclaimed and allowed is not fresh against the snapshot, and was told so |
| Diaries.LegalJoins | internal/gate/promotion.go:265-299 | Records in legal order, one complete after the other, are in legal order |
| Diaries.AnswersJoin | internal/gate/promotion.go:265-299 | Who is answered by a record is who is answered by its parts |
| Pushers.SpokenExactly | internal/gate/promotion.go:663-747 | The ids a round holds back are exactly those named by the claims it left standing |
| Pushers.SweepMeans | internal/gate/promotion.go:663-747 | A finished sweep, claim by claim: one that read back whole with its owner gone no longer stands; the others and only they speak for their candidates; one that names nobody blocks |
| Pushers.ChosenFacts | internal/gate/promotion.go:522-554 | A selection gives each candidate one outcome at most, none to a member, and in a solo round is about that candidate alone |
| Pushers.QueuedIsWhole | internal/gate/promotion.go:591-601 | In every run of the protocol a candidate found queued, its proposal read later still, loads, as it was accepted |
| Pushers.QueuedIsServed | internal/gate/promotion.go:522-581 | So, queued, unclaimed and allowed, it is taken exactly if it is fresh, and told why not exactly if it is stale, unless it shares a path with a member of smaller id or the batch was full before its turn |
| Pushers.RaceHonest | internal/gate/promotion.go:60-62 | Candidates called a race belong to a batch whose landing found integration moved |
| Pushers.UnmovedSelects | internal/gate/promotion.go:476-503 | A queue read while integration is still the snapshot can be chosen from |
| Pushers.LockedLookSelects | internal/gate/promotion.go:198-210 | A round during whose look nothing lands can choose |
| Pushers.FailsOvertaken | internal/gate/promotion.go:476-503 | A look that saw the queue fails to choose only when integration had moved on from the snapshot by then |
| Pushers.ChosenAsAccepted | internal/gate/promotion.go:522-554 | What a look chooses are candidates as they were accepted, though queue and proposals were read at different moments |
| Pushers.LandRefused | internal/gate/promotion.go:985-998 | A landing refused without a lost compare-and-swap means the claim is gone or a member settled |
| Pushers.SoloLook | internal/gate/promotion.go:325-332 | A solo look gives its candidate exactly one outcome unless it claims it, fails, or is silent |
| Pushers.SawClaimsInFull | internal/gate/promotion.go:536-554 | Every look of a call at the whole queue is for the call's batch size and a solo look for one; what it chose is claimed next, and less than the size only at the queue's end |
| Overtakings.ReadErrorHappens | internal/gate/promotion.go:476-503 | A run in which integration moves between snapshot and queue: the round stops on a read error at a candidate that is in order as integration stands |
| PromoteRuns.World.Commit | internal/gate/refs.go:67-111 | Without a fault a pusher learns the store's own verdict; with one, a failure that may have happened |
| PromoteRuns.World.ResolveIntegration | internal/gate/integration.go:31-50 | What comes back is what the ref holds, created from HEAD or by the peer that won the race; nothing comes back only after a fault, with the ref still absent |
| PromoteRuns.World.ReclaimOne | internal/gate/promotion.go:699-747 | A claim is dropped exactly when it reads back whole and its owner is gone when looked for; otherwise it stays, speaks for exactly the ids it names, and blocks the round exactly when it names none |
| PromoteRuns.World.Reclaim | internal/gate/promotion.go:663-682 | Of the claims that stood at one moment of the call, those that read back whole and whose owners were gone at their turns no longer stand; an id is held back exactly if one of the others names it; one that names nobody blocks |
| PromoteRuns.World.Survey | internal/gate/promotion.go:476-503 | Snapshot, claims, queue and proposals are what the store held at four moments of the call, in that order; a blocked round met a claim that names nobody, an unreadable one a fault or a claim that was gone before it could be dropped |
| PromoteRuns.World.ClaimReads | internal/gate/promotion.go:886-894 | A peer that reads the claim off the tip of a batch reads this process as its owner and the batch's candidates, all of them and in order |
| PromoteRuns.World.TextsRead | internal/gate/promotion.go:878-894 | Each commit of a chain reads back as its own candidate, proposal, agent, session and bead, the tip with the claim on it as well |
| PromoteRuns.World.ClaimBatch | internal/gate/promotion.go:504-514 | The batch claimed is the selection, its chain built on the snapshot; its tip reads back as this process's claim on exactly its members; only a fault can stop the claim |
| PromoteRuns.World.Phase1 | internal/gate/promotion.go:476-514 | Phase 1 claims what it selected, its members as accepted, reports exactly the stale, and fails only if the queue cannot be read, the claim does not go through, or integration moved between snapshot and queue |
| PromoteRuns.World.VerifyBatch | internal/gate/promotion.go:131-146 | Every verify is accounted for, its verdict is the one given, and it is on record before it is acted on |
| PromoteRuns.World.ReleaseBatch | internal/gate/promotion.go:457-465 | A release that goes through leaves none of the call's claims; it fails only on a fault or when the claim is already gone |
| PromoteRuns.World.Phase3 | internal/gate/promotion.go:966-1001 | A landing promotes all its members; a lost one leaves the batch as it was and found integration moved; it fails otherwise only on a fault, or when the claim is gone or a member settled |
| PromoteRuns.World.RejectSolo | internal/gate/promotion.go:368-386 | A rejection needs a red verdict on a batch of one and rejects that candidate; it fails only on a fault or when the candidate or claim is gone |
| PromoteRuns.World.SettleSolo | internal/gate/promotion.go:333-358 | A solo batch is verified once and its verdict acted on at once; outcomes and errors are exactly what was done, and its candidate gets exactly one outcome exactly without an error |
| PromoteRuns.World.PromoteSolo | internal/gate/promotion.go:325-359 | A solo round looks for one candidate, verifies at most once, and speaks of nobody else; it gives that candidate exactly one outcome unless it has an error or the look was silent or blocked, and none then |
| PromoteRuns.World.RedBatchSweep | internal/gate/promotion.go:309-320 | The sweep looks for each member alone, in order, all of them unless trouble stops it, and gives an outcome to exactly those its diary answers |
| PromoteRuns.World.VerifyAndCommit | internal/gate/promotion.go:265-299 | A passed batch is landed, a red one released and swept, one without a verdict released and the call stopped; at most one outcome a candidate, each borne out; everybody has one without a verdict, everybody after a pass unless the landing failed outright, exactly the answered after a red verdict |
| PromoteRuns.World.Round | internal/gate/promotion.go:220-238 | A round takes one look at the whole queue, for the batch size it is given, and solo looks after it; another follows exactly after one that found work and met no trouble |
| PromoteRuns.World.Promote | internal/gate/promotion.go:211-248 | Every look of a call at the queue is for MaxBatch candidates, three if none is given, what it chose is claimed, and less is claimed only at the queue's end; rounds go on to MaxRounds, four if none is given, unless there is trouble or nothing to do; outcomes are what the diary tells, in legal order; the call fails exactly on an error, then and only then may leave a claim; at most MaxRounds x (MaxBatch + 1) verifies |
| Messages.ReadTrailers | internal/gate/promotion.go:808-818 | The loop computes the trailers of a message, the last occurrence of a key winning |
| Messages.ParseIgnoresTrimming | internal/gate/promotion.go:776-782 | Trimming a message, as reading it through git does, changes no trailer |
| Messages.AttributionReads | internal/gate/promotion.go:878-885 | What a chain commit says of its candidate reads back line by line, a blank value saying nothing |
| Messages.AttributionStays | internal/gate/promotion.go:878-894 | It reads back the same from a commit with the batch's claim below it |
| Messages.ClaimRoundTrip | internal/gate/promotion.go:878-894 | Host, pid, process start and candidates come back from the tip whatever the attribution above says |
| Messages.ClaimReadsBackExactly | internal/gate/promotion.go:776-804 | A claim comes back exactly when it names candidates that fit a comma list and its host fits a line; a blank host only when the attribution names none |
| Messages.ReadClaimClean | internal/gate/promotion.go:776-804 | Whatever is read is one trimmed line, ids without commas or newlines |
| Messages.Strip | internal/gate/bridge.go:506-515 | The loop computes the stripped message |
| Messages.StripExactly | internal/gate/bridge.go:506-524 | A stripped message is the original's lines but those that start with one of the five batch keys, in order, and has its trailers minus exactly those keys |
| Decimals.ParseFormatInt | internal/gate/promotion.go:891-892 | A 64-bit integer printed in decimal parses back to itself, and no other integer does |
| Bridge.GroupByBead | internal/gate/bridge.go:277-295 | The index-map loop gives each usable bead its commits in order, by first appearance, and the rest as unattributed |
| Bridge.BeadReadsBack | internal/gate/bridge.go:277-297 | The bead the bridge groups a commit under is the one promotion wrote it for |
| Bridge.UsableExactly | internal/gate/bridge.go:704-723 | A bead can name a branch exactly when, read at its dots, no part is empty, each is of letters, digits, "-" and "_", it does not start with "-", and it does not end in a part "lock" |
| Bridge.OfBeadPositions | internal/gate/bridge.go:277-295 | A bead's group is an order-preserving subsequence that misses none of its commits |
| Bridge.GroupingIsAPartition | internal/gate/bridge.go:277-295 | Grouping loses nothing and duplicates nothing |
| Bridge.SelectExactly | internal/gate/bridge.go:362-394 | Pending is everything when there is neither branch nor marked commit in the list, what follows the marked commit when there are both; every other case is refused, each for its own reason |
| Bridge.CommitTransitions | internal/gate/bridge.go:614-657 | One transition a changed path with both sides, in order; fails exactly when a written path was a directory in the parent |
| Bridge.PlanStaleBase | internal/gate/bridge.go:406-434 | No staleness exactly when every first-touch preimage holds on the parent; otherwise the first path in order that moved, or that is a directory |
| Bridge.AggregateWriteSet | internal/gate/bridge.go:661-674 | The write-set is the sorted union of the pending paths |
| Bridge.ReplayFindsExpected | internal/gate/bridge.go:472-483 | First-touch preimages suffice: every replayed commit finds on the branch what its source expected |
| Bridge.ReplayChangesExactly | internal/gate/bridge.go:472-483 | And changes exactly the paths its source changed |
| Bridge.ReplayedReads | internal/gate/bridge.go:496-545 | A replayed commit's trailers are its source's minus the five batch keys, and the source's sha |
| Bridge.ReplayCarries | internal/gate/bridge.go:472-545 | A branch is its parent with one single-parent commit for each pending one, in order: its changes, its other lines, no batch trailer, and its sha as the source |
| Bridge.CarriedAt | internal/gate/bridge.go:472-545 | The k-th pending commit is found that many first-parent steps behind the head, with its own words and credits |
| Bridge.BranchExactly | internal/gate/bridge.go:472-483 | The finished branch is its parent off the write-set and the last result on it |
| Bridge.AnyBeadOrder | internal/gate/bridge.go:192-203 | With disjoint beads, applying the groups in any bead order gives the tree of the original interleaving |
| Bridge.DisjointIsCoherent | internal/gate/bridge.go:406-414 | With disjoint beads, a bead's later commits expect what its own earlier ones left |
| Bridge.ReadChainReplays | internal/gate/bridge.go:472-483 | Of any stretch of integration as CommitTransitions reads it, with beads disjoint, a bead's commits replay cleanly wherever their first-touch preimages hold |
| BridgeBuilds.BuildExactly | internal/gate/bridge.go:484-534 | Branch and marker move together, exactly when neither has moved since it was read |
| BridgeBuilds.BeadBridge.ReplayPending | internal/gate/bridge.go:472-483 | The head loop replays the pending commits in order, each with its own changes and lines, without the batch's trailers and with its source |
| BridgeBuilds.BeadBridge.Build | internal/gate/bridge.go:456-494 | A build succeeds exactly when the bead is buildable, something is pending and neither ref has moved; it then publishes the marker and a branch that carries every pending commit, stripped and credited, on the plan's parent, and otherwise touches nothing |
| BridgeBuilds.PlanBead | internal/gate/bridge.go:301-350 | Every class is earned: refused or up to date by the selection, stale by the first moved path, buildable exactly when every first-touch preimage holds |
| BridgeBuilds.BuildAndPlanAgain | internal/gate/bridge.go:362-394 | A run that follows a build with nothing moved finds the bead up to date |
| BridgeRuns.RunKeeps | internal/gate/bridge.go:301-394 | Over concurrent runs, growing integration, absorption and deleted branches, markers name commits of their bead and branches carry theirs |
| BridgeRuns.BranchCarriesUpToMarker | internal/gate/bridge.go:456-494 | Whenever a branch exists it carries, in order, its bead's commits up to the marker |
| BridgeRuns.MarkerForwardExactly | internal/gate/bridge.go:362-394 | A build moves the marker forward exactly when its plan was not behind it |
| BridgeRuns.RebuiltIsUpToDate | internal/gate/bridge.go:362-394 | After a build that went through, in any world, reading the same list again finds nothing pending |
| BridgeRuns.ExactlyOnce | internal/gate/bridge.go:362-394 | All along a run nothing is replayed twice or past its bead's marker, exactly when no build that goes through is taken from a plan behind its marker |
| BridgeRuns.AtomicPlanIsNotBehind | internal/gate/bridge.go:204-249 | Reads taken with nothing between them never plan behind the marker |
| BridgeRuns.ReplayedTwice | internal/gate/bridge.go:301-394 | A run in which a commit is replayed twice and the marker moves back |
| Territory.OverlapSegments | internal/domain/overlap.go:25-30 | Overlap holds exactly when one segment list is a prefix of the other, the root being the empty list |
| Territory.OverlapMeansCommonPath | internal/domain/overlap.go:25-30 | Which is exactly when some path is at or beneath both |
| Territory.HoldAboveStrict | internal/domain/decide.go:59-61 | A hold is above a path exactly when the path lies strictly inside it |
| Territory.CoversInside | internal/domain/overlap.go:25-30 | What overlaps a path inside a hold overlaps the hold |
| Territory.Context.Decide | internal/domain/decide.go:48-55 | The first hold that refuses, or none |
| Territory.ConflictsExactly | internal/domain/staleness.go:147-155 | A row conflicts exactly when it is another actor's, neither run out nor known dead, in the same worktree or either unset, and its path overlaps the one asked for, case folded or not |
| Territory.LettersKeepTerritories | internal/domain/overlap.go:60-79 | Folding names letter by letter keeps territories, and what lies in one in it |
| Targets.CanonicalizeExactly | internal/domain/target.go:84-120 | A token is accepted exactly when it is spelled right, names something and never climbs out of the root; the result has only ordinary segments |
| Targets.RefusedTruly | internal/domain/target.go:84-120 | Every refusal is true of the token it refuses |
| Targets.CleanRelative | internal/domain/target.go:107-119 | Cleaning a relative path leaves its climbs first and ordinary segments after |
| Targets.FixedPointExactly | internal/domain/target.go:84-120 | A git path canonicalises to a fixed point; a typed one exactly when its cleaned form has no white space at its ends |
| Targets.TypedNotFixed | internal/domain/target.go:84-120 | A typed token whose canonical form is refused when typed again |
| Targets.PrefixExactly | internal/domain/target.go:137-152 | A prefix claim is accepted exactly when its token, off trailing slashes, is spelled right and never climbs out; it is then that file target or the root |
| Targets.FileTargetsArePrefixes | internal/domain/target.go:137-152 | Every token a file target accepts is accepted as a prefix, as the same path, with any number of slashes after it |
| Leases.AcquireKeeps | internal/store/locks_acquire.go:39-106 | Whatever an acquire leaves contending has a dead side, even when a holder dies between its two looks |
| Leases.AcquireExactly | internal/store/locks_acquire.go:39-106 | An acquire changes no row exactly when somebody else's row overlaps a request from a worktree that may be the same and is live on the second look; else every requested row is the new one, and any other nobody takes over stays as it was unless it stood in the way and was not live |
| Leases.RunKeeps | internal/store/locks_acquire.go:248-275 | In every run of the lock rows contending rows stand together only when a holder is dead |
| Leases.LiveHoldsNeverOverlap | internal/domain/staleness.go:147-155 | Two live holds of different actors, in one worktree or either in none, never overlap, case folded or not, in any run |
| Leases.OnlyTheHolderWrites | internal/domain/decide.go:37-55 | A path inside a live hold may be written by exactly its holder, on a file system that folds case too |
| Leases.TouchedExactly | internal/store/locks_refresh.go:149-222 | Outside an acquire a row leaves only when deleted; a refresh moves its expiry only while it has not run out, a call only if it is the caller's own, was live when the call began, and has less than a quarter of an hour left, to half an hour from now |
| Leases.RevivesExactly | internal/domain/staleness.go:60-65 | A lapsed row of a living holder revives without a grant exactly by a late post of a call that began before the lapse |
| Leases.RevivalHappens | internal/domain/staleness.go:60-65 | A run in which a row does |
| Leases.RowsAreTerritories | internal/store/locks_acquire.go:166-190 | Every row names a canonical path or the root |
| HoldRefs.RoundTripExactly | internal/domain/holdref.go:44-60 | A reference reads back as itself exactly when it has an owner and a 64-bit non-negative epoch; the owner may hold any number of "@" |
| HoldRefs.ParsedIsWellFormed | internal/domain/holdref.go:50-60 | Whatever parses has both, and prints back to something that parses the same |
| HoldRefs.SortHoldRefs | internal/domain/holdref.go:65-72 | Sorts in place: ordered by owner then epoch, a permutation |
| HoldRefs.HoldRefsEqual | internal/domain/holdref.go:78-88 | True exactly when the two lists are equal element by element |
| HoldRefs.OrderedEqualExactly | internal/domain/holdref.go:65-88 | Two sorted lists are equal exactly when they are the same multiset |
| HoldRefs.SameHolds | internal/domain/holdref.go:65-88 | Sort both, compare: true exactly when the two sets of references were the same, repetition included |
| SyncDecisions.Scan | internal/cli/cmd_sync.go:915-947 | The scan reports exactly the entries not in place, in path order, each truly, or fails exactly when a file stands where an entry needs a directory |
| SyncDecisions.ScannedExactly | internal/cli/cmd_sync.go:915-947 | A scan reports every entry that is not in place, with its bytes and its mode, and nothing else; what it says of each (unsupported, missing, modified, mode only) is so of the work tree |
| SyncDecisions.LockConflictExactly | internal/cli/cmd_sync.go:1130-1152 | A lock refuses exactly when a hold spans the path from this worktree or an unset one, and is live, or lapsed with a holder its rule still protects; the refusal names the first such hold's owner and says which of the three it is |
| SyncDecisions.ConflictExactly | internal/cli/cmd_sync.go:1116-1127 | A path is refused exactly when a lock holds it back or a candidate claims it: for the first such lock if there is one, else for the first claim's candidate |
| SyncDecisions.Decide | internal/cli/cmd_sync.go:1069-1087 | Every path is clear or a conflict with its true reason, each once |
| SyncDecisions.DecideResidue | internal/cli/cmd_sync.go:729-745 | The same for residue |
| SyncRuns.Checkout.ApplyOne | internal/cli/cmd_sync.go:1175-1207 | A path is written only over what the scan saw, skipped when it moved |
| SyncRuns.Checkout.Apply | internal/cli/cmd_sync.go:1175-1207 | Every path is published or skipped, once; what was written is named even on failure; with nobody about, exactly the entries are in place |
| SyncRuns.Checkout.DeleteOne | internal/cli/cmd_sync.go:759-781 | A residue is removed only while it holds the recorded bytes |
| SyncRuns.Checkout.DeleteResidue | internal/cli/cmd_sync.go:759-781 | Every residue is deleted, skipped, kept as modified or found gone, once; with nobody about, deleted are exactly those that held the recorded bytes |
| SyncRuns.Checkout.FastForwardBatch | internal/cli/cmd_sync.go:490-518 | One section: its writes were refused by nobody in its own read, and integration stood |
| SyncRuns.Checkout.FastForwardBatches | internal/cli/cmd_sync.go:490-518 | Sixteen paths a section, and as many sections as that takes; every path synced, refused or skipped, once, across all sections |
| SyncRuns.Checkout.SweepBatch | internal/cli/cmd_sync.go:528-557 | One section of the sweep, likewise authorized |
| SyncRuns.Checkout.SweepBatches | internal/cli/cmd_sync.go:528-557 | Sixteen residues a section; every residue told once across all sections; with nobody about, deleted are exactly those that held the recorded bytes and were not refused |
| SyncRuns.Checkout.Publish | internal/cli/cmd_sync.go:253-318 | The first half of a run: each difference is reported as unsupported or decided, and a decided one published, refused or skipped, once, every write authorized in its own section |
| SyncRuns.Checkout.Sync | internal/cli/cmd_sync.go:253-318 | A whole run: every write authorized in its own section and over the bytes observed, every path told once; undisturbed it succeeds, and with the coordination state standing still a second scan diverges exactly where its inputs say: at what is unsupported or refused, and where nobody holds a path that a residue names with integration's own bytes |
| SyncAccounts.RescanExactly | internal/cli/cmd_sync.go:457-469 | A second scan after an undisturbed run diverges exactly where the first could not decide, was refused, or deleted, whatever the coordination state did meanwhile |
| SyncAccounts.RescanForeseen | internal/cli/cmd_sync.go:457-469 | With the coordination state standing still, told from the inputs alone: unsupported or conflicting differences, and unheld paths a residue names with integration's own bytes; without such a residue only the former |
| SyncAccounts.IntegratedFileDeleted | internal/cli/cmd_sync.go:371-400 | An undisturbed run that deletes a file that was in order |
| Lane.LexicalIsCanonical | internal/lane/lane.go:356-381 | What passes the spelling check is a canonical path or the root |
| Lane.CanonicalIsLexical | internal/lane/lane.go:356-381 | Every canonical path without pathspec magic passes |
| Lane.LexicalExactly | internal/lane/lane.go:356-381 | The spelling check passes exactly the root and the canonical paths without a NUL, a leading colon or a glob |
| Lane.ValidateWriteSet | internal/lane/lane.go:337-350 | The check passes exactly when every path is well spelled and no directory on disk, and every refusal is true |
| Lane.BuildLaneTree | internal/lane/lane.go:121-222 | A tree is built exactly when every path may be staged as one file and matches something; path by path it is the staged one |
| Lane.FrameExactly | internal/lane/lane.go:121-167 | The tree is the parent off the write-set and the work tree on it, exactly unless a staged file lies beneath a path tracked as a file and not named |
| Lane.AFileLost | internal/lane/lane.go:121-167 | That exception happens, on a write-set the checks accept |
| Lane.StagedWellFormed | internal/lane/lane.go:121-167 | Either way the result is a tree git can write |
| Lane.AdmissionAcceptsExactly | internal/gate/admission.go:230-255 | Admission accepts the commit's diff exactly when nothing unnamed was lost, no path is declared twice and every declared path really changed |

## Left out

- Running git, the file system, SQLite, flock polling, timeouts and retries: replaced
  by an abstract ref store, path maps, lock rows and atomic steps.
- Object hashes: a commit is its content and an envelope blob is its envelope, so
  hash collisions and the JSON encoding are outside the model.
- The verify command and the worktree it runs in: an arbitrary verdict.
- Releasing candidate claim rows after a promotion or rejection, the claim detail
  text, warnings, and the stable sort of outcomes by candidate when a call ends.
- Authors, committers and dates of the commits promotion and the bridge write.
- Batch and candidate ids are fresh by construction; their randomness is not modelled.
- PromoteRuns.World.ResolveIntegration: does not model a HEAD that cannot be read,
  because a failed read has the effect of a failed create.
- PromoteRuns.World.Reclaim: a claim whose commit cannot be read for reasons of
  infrastructure is not modelled there; the code skips such a claim with a warning,
  and then only claim exclusivity is lost, never safety, which `Histories` proves
  for any claims at all.
- Claims.ClaimsNeverOverlap: assumes, as every claim in the model does, that the
  promoting commits found can be read.
- Leases.RunKeeps: does not model candidate claims, which block an acquire too,
  because they only refuse more; nor the order in which an acquire sorts its rows.
- Leases.RowsAreTerritories: the checks a file target also passes on disk (regular,
  one link, no symlink) are the file system's.
- Case folding is an arbitrary function on paths, which `Leases.OnlyTheHolderWrites`
  asks to keep territories; what a file system folds is not modelled.
- SyncRuns.Checkout.ApplyOne: probing a path and renaming over it is one step here;
  the code narrows that window and does not close it. Likewise for a removal.
- SyncRuns.Checkout.Sync: does not model `--dry-run`, the refusal to run behind HEAD,
  the rendering of reports, or which untracked files count as residue; residue is any
  list.
- BridgeRuns.BranchCarriesUpToMarker: branches people create or rewrite by hand are
  not modelled, deleted ones are.
- Lane.BuildLaneTree: ignored files, symlinked and empty directories and the ref move
  that follows are not modelled.
- Lane.LexicalIsCanonical: ref-name validation of the lane itself is not modelled.
- HoldRefs.SortHoldRefs: does not model which sorting algorithm the library uses,
  because only the order it leaves matters.
- Doctor, hooks, sessions, stash and worktree scans, pull requests and all rendering.
