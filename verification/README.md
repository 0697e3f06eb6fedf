# Verified model of the Common Measure edge

A Dafny model of the parts of Common Measure whose promises span many steps:
the durable call queue, the rewriting of the operator's home in every served
answer, the reader of a process's arguments, the edge tokens and the issuer
keys, the hosted sessions, the custody schedule, and four smaller loops. What
the source changes in place is a class whose methods are proved against
functions of the state; what many parties do at once is a state machine over
atomic steps, and its theorems hold for every run.

| file | what it models |
|---|---|
| `DurableQueue.dfy` | the two tables of the queue and its transactions |
| `QueueRuns.dfy`, `QueueGuarantees.dfy`, `QueueOutcomes.dfy` | workers, operator and stops over it, what every run keeps, and what each operation comes to |
| `HomeText.dfy`, `HomeNames.dfy`, `HomeClean.dfy`, `HomeForms.dfy` | the scanning rewrite of the home, what it puts out at each place, what it leaves, and the fold over the home's forms |
| `JsonWalk.dfy`, `ToolAnswer.dfy`, `AnswerContents.dfy` | the walk of an answer, its two copies of a payload, and what becomes of each part |
| `NativeBytes.dfy`, `ProcessArguments.dfy` | native integers; the buffer of arguments and environment |
| `EdgeTokens.dfy`, `KeyCache.dfy` | the token file under concurrent change; the issuer's keys |
| `SessionTable.dfy`, `CustodySchedule.dfy` | hosted sessions; when credentials are fetched |
| `EventStream.dfy` | the sources a conversation stream names |
| `Dossier.dfy`, `NativeFraming.dfy` | the wrapped entry; length-prefixed messages |
| `Router.dfy`, `RouterRuns.dfy` | the router's session state, and its hooks interleaved |
| `Wrappers.dfy` | Option and Result |

`dafny verify dfyconfig.toml` verifies everything.

## Where the code falls short of its own words

Each is proved with the exact condition under which the promise holds.

- A home may still stand in served text. Where a character of the home that
  ends a name, such as a space, is followed by one that continues a name,
  rewriting an inner occurrence can put the same home together again out of
  what is around it: home `/a b` in `/a /a b/b` serves `/a b`. One rewrite is
  clean, and idempotent, for every text exactly when its home has no such pair
  (`HomeClean.CleanExactlyWhenSeamless`, `HomeClean.NamedTwiceExactly`); with
  such a pair it may serve any text at all (`HomeClean.ServedExactly`). The
  home as served has at most two forms, as given and as canonical: each stays
  out of every text exactly when it has no such pair, or the other has none and
  stands wherever the first would be put together (`HomeForms.FirstFormExactly`,
  `HomeForms.SecondFormExactly`, `HomeForms.TwoFormsExactly`), and then, and
  only then, out of every answer (`ToolAnswer.ServedFreeExactly`).
- A tagged and a bare link to one page need not collapse, as the header of the
  stream parser says they do: deleting a parameter writes the others again as
  a form writes them, while the bare link keeps its query as it was
  (`EventStream.TaggedMeetsBare`).
- The found edge server need not be kept for the session, as the router's
  comment says. A hook that asked for the tool list before the edge was found
  assigns what its own, older list shows, and a later fetch then runs natively
  (`RouterRuns.EdgeKeptExactly`, `RouterRuns.NativeAfterExactly`,
  `RouterRuns.FoundEdgeLost`). With one call at a time it cannot happen
  (`RouterRuns.SerialRun`).
- A fetch of credentials need not start an interval after the one before it, as
  the comment over the custody thread and the contract
  (docs/contracts/supplier-credentials.md:260-262) say each does. The loop counts its first
  wake from the start of the process's first fetch and not from its end, so
  when that one overruns, the fetch that follows at once is itself followed at
  once: an interval of 10 s and a first fetch of 30 s give starts at 30 s and
  31 s (`CustodySchedule.OverrunIsOwedOnce`). No start makes up for a missed
  one exactly when the first fetch is over within the interval
  (`CustodySchedule.NoBacklogExactly`); the one gap at stake has its own exact
  condition (`CustodySchedule.SecondGapExactly`), and after it an overrun is
  never owed (`CustodySchedule.NoBacklog`).

## Readings

- A worker of the queue is a program counter over its atomic steps, not one
  sequential method: nothing but each transaction is atomic in the source
  either, and a stop may fall between any two steps.
- The check before each launch and the launch itself are two steps, as the
  source says in claiming no remote fencing; the one child this lets through
  after a revocation is an exact bound (`QueueGuarantees.AtMostOneMoreChild`,
  `QueueGuarantees.LaunchAfterRevocation`).
- A home is taken as trimmed: it begins with a separator and ends with none.
- Digests are injective and drawn identifiers and secrets are new ones.
- Time is a real number read from one clock. Sleeping may wake late, by an
  amount the schedule's theorems carry.
- Where a theorem starts from any world with the invariant, the run lemma shows
  that every world reached from the empty one has it.

## Model

| member | source | states |
|---|---|---|
| `DurableQueue.Queue.AddProject` | demo/durable-sweep/proof.py:71-74 | a negative allowance or a project already there is refused and nothing changes; otherwise the project is added, enabled |
| `DurableQueue.Queue.Revoke` | demo/durable-sweep/proof.py:76-77 | the project is disabled if it exists; nothing else changes |
| `DurableQueue.Queue.Get` | demo/durable-sweep/proof.py:79-91 | a row is read only through its own project, and only while that project is enabled |
| `DurableQueue.Queue.Submit` | demo/durable-sweep/proof.py:93-116 | the whole new tables: validation, then the sealed slot answers its own definition with its execution and refuses any other, then one queued row is inserted |
| `DurableQueue.Queue.Claim` | demo/durable-sweep/proof.py:118-132 | the whole new tables: reserved with its token raised and its cases held, only when queued and within the allowance; otherwise nothing changes |
| `DurableQueue.Queue.Transition` | demo/durable-sweep/proof.py:134-141 | the row moves only from the expected state under the expected token; otherwise nothing changes |
| `DurableQueue.Queue.Recover` | demo/durable-sweep/proof.py:143-155 | a reserved row is not sent and gives back its units, a dispatched one has an unknown outcome and keeps them, any other is left |
| `QueueRuns.InvNext` | demo/durable-sweep/proof.py:118-155 | one invariant (allowances, the token and held units a state implies, what each worker position says of its row and launches) is kept by every transaction, launch, stop and operator command |
| `QueueRuns.InvRun` | demo/durable-sweep/proof.py:253-335 | that invariant holds over any interleaving of workers from any world that has it |
| `QueueGuarantees.ChildrenWithinAllowance` | demo/durable-sweep/proof.py:118-132 | in every run from the empty store, children ever launched for a project never exceed its held units, and those never exceed its allowance |
| `QueueGuarantees.ReleasedUnitsStayUnspent` | demo/durable-sweep/proof.py:143-150 | if an execution ever gives units back, then in every later world it is not sent and has launched no child |
| `QueueGuarantees.ExecutionRun` | demo/durable-sweep/proof.py:118-155 | over any run: tokens never fall, terminal rows never change, launches only grow, definitions never change, and held units fall only to not sent |
| `QueueGuarantees.RevocationFreezes` | demo/durable-sweep/proof.py:76-83 | once a project is revoked no row of it changes again, whatever runs |
| `QueueGuarantees.AtMostOneClaim` | demo/durable-sweep/proof.py:118-132 | over any run at most one claim of an execution succeeds, and none once its token is not zero |
| `QueueGuarantees.AtMostOneMoreChild` | demo/durable-sweep/proof.py:268-283 | after a recovery or revocation at most one more child starts, and none unless a worker stood between its check and its launch |
| `QueueGuarantees.LaunchAfterRevocation` | demo/durable-sweep/proof.py:272-278 | that bound is met: a revocation between the check and the launch does not stop the launch |
| `QueueGuarantees.LaunchAfterRevocationReached` | demo/durable-sweep/proof.py:253-283 | and met from the empty store, for any execution that can be claimed: a run in which its project is revoked before any child, and its first child starts then |
| `QueueGuarantees.StaleWorkerIsInert` | demo/durable-sweep/proof.py:134-141 | a worker whose token was raised past its own never changes the tables again, in any later world |
| `QueueGuarantees.IndexedExecutions` | demo/durable-sweep/proof.py:322-332 | each case is launched at most once and in order; an indexed execution launched all of them, has one cell for each, and is completed exactly when every cell was retrieved |
| `QueueGuarantees.SlotStaysSealed` | demo/durable-sweep/proof.py:102-116 | after a submission, in every later world where the project is enabled, the same definition for that slot gives the same execution back and any other is refused |
| `QueueOutcomes.FetchedExactly` | demo/durable-sweep/proof.py:79-91 | a row is read exactly through its own project, and only while that is open |
| `QueueOutcomes.RecoveryExactly` | demo/durable-sweep/proof.py:143-155 | field by field: a reserved row is not sent and holds nothing, a dispatched one has an unknown outcome and keeps its units, both under a higher token; any other row, and everything else, is left; the answer is the state left |
| `QueueOutcomes.RecoveryFences` | demo/durable-sweep/proof.py:143-155 | after either recovery the execution is fenced, and no worker comes to stand past a check |
| `QueueOutcomes.RecoveryBoundsChildren` | demo/durable-sweep/proof.py:143-155 | over any run after the recovery itself: at most the one child a check had already let through when dispatched, and none ever when reserved |
| `QueueOutcomes.RecoveryStopsWorkers` | demo/durable-sweep/proof.py:134-155 | over any run after it, a worker that had claimed the execution leaves the tables as they are |
| `QueueOutcomes.RevocationExactly` | demo/durable-sweep/proof.py:76-77 | its project is closed and nothing else changes |
| `QueueOutcomes.RevocationIsForEver` | demo/durable-sweep/proof.py:76-83 | over any run after a revocation itself, no execution of the project changes |
| `QueueOutcomes.ProjectRun` | demo/durable-sweep/proof.py:71-77 | over any run a project stays, its allowance unchanged, and once closed is not opened again |
| `QueueOutcomes.ChildrenWithinGiven` | demo/durable-sweep/proof.py:71-132 | children ever launched for a project never exceed the allowance it was added with |
| `QueueOutcomes.SubmissionExactly` | demo/durable-sweep/proof.py:93-116 | for a slot not sealed: one queued row that holds nothing, exactly when the definition can be run, field by field, and the project is open |
| `QueueOutcomes.OnlyRunnable` | demo/durable-sweep/proof.py:93-100 | in every world reached each definition held can be run and its cases have distinct names |
| `QueueOutcomes.ClaimExactly` | demo/durable-sweep/proof.py:118-132 | a claim succeeds exactly when the execution is queued in its own open project and its cases fit what is left of the allowance; what it leaves in the row |
| `QueueOutcomes.TransitionExactly` | demo/durable-sweep/proof.py:134-141 | a row moves exactly from the state and under the token named, and only its state and export change |
| `QueueOutcomes.StoppedIsOver` | demo/durable-sweep/proof.py:262-283 | a worker that stops leaves the tables and children as they are and does nothing more |
| `QueueOutcomes.CellsReported` | demo/durable-sweep/proof.py:268-320 | over any run a worker's cells are what its children reported, in order |
| `QueueOutcomes.ExportIsReported` | demo/durable-sweep/proof.py:285-332 | the cells of an indexed execution are what the children of one worker of it reported, in order, none of another status |
| `QueueOutcomes.IndexedReached` | demo/durable-sweep/proof.py:253-335 | from the empty store every execution that can be claimed can be run to its index, whatever its children report |
| `QueueOutcomes.OtherProjectsUntouched` | demo/durable-sweep/proof.py:79-155 | no step taken in one project changes a row of another, its children, its allowance or whether it is open |
| `HomeText.RelativeTo` | crates/commonmeasure-cli/src/hosted.rs:1386-1426 | the find-and-skip loop equals the one-pass reference form that tests every position against the true preceding character; it terminates |
| `HomeText.NamedReplaces` | crates/commonmeasure-cli/src/hosted.rs:1409-1422 | one turn over a standing home: what is put out and where reading goes on, with the character before it |
| `HomeNames.HomeServed` | crates/commonmeasure-cli/src/hosted.rs:1409-1422 | by the characters alone: a home that stands, with every separator after it, becomes `.`, or nothing when those separators lead to a name; also at the end of the text |
| `HomeNames.LongerNameIsLeft` | crates/commonmeasure-cli/src/hosted.rs:1391-1408 | by the characters alone: a home that a longer name ends in or goes on from is kept |
| `HomeNames.ElsewhereIsKept` | crates/commonmeasure-cli/src/hosted.rs:1391-1425 | text the home is nowhere in is served as it is |
| `HomeClean.NamedClean` | crates/commonmeasure-cli/src/hosted.rs:1386-1426 | rewriting one home keeps a text clean of any other, and leaves it clean of its own, unless the text holds a place where the two would join |
| `HomeClean.CleanIsKept` | crates/commonmeasure-cli/src/hosted.rs:1391-1425 | a text in which no home stands is served unchanged |
| `HomeClean.CleanExactlyWhenSeamless` | crates/commonmeasure-cli/src/hosted.rs:1382-1426 | the output is clean of the home for every text if and only if no character of the home that cannot continue a name is followed by one that can and is no separator |
| `HomeClean.ServedExactly` | crates/commonmeasure-cli/src/hosted.rs:1386-1426 | the image of the rewrite: every text there is for a home with such a pair, and exactly the texts in which the home stands nowhere for one without |
| `HomeClean.SpacedHomeIsLeft` | crates/commonmeasure-cli/src/hosted.rs:1382-1426 | a concrete home and text for which the rewrite leaves a standing home |
| `HomeClean.NamedTwiceExactly` | crates/commonmeasure-cli/src/hosted.rs:1386-1426 | rewriting twice is rewriting once for every text if and only if the home is seamless |
| `HomeClean.NamedShortens` | crates/commonmeasure-cli/src/hosted.rs:1409-1422 | the rewrite never lengthens a text and shortens one in which a home stands |
| `HomeForms.TextKeepsClean` | crates/commonmeasure-cli/src/hosted.rs:1363-1367 | whatever other forms are rewritten after it, a seamless form does not come back |
| `HomeForms.TextIsClean` | crates/commonmeasure-cli/src/hosted.rs:1363-1367 | after the fold over any forms, no seamless form among them stands anywhere in the text |
| `HomeForms.FormIsClean` | crates/commonmeasure-cli/src/hosted.rs:1363-1367 | nor does a form that is not seamless, if a seamless one stands wherever it does, or in every text it would be put together from |
| `HomeForms.TextKept` | crates/commonmeasure-cli/src/hosted.rs:1363-1367 | a text clean of every form is unchanged by the fold, whatever the forms |
| `HomeForms.TextTwice` | crates/commonmeasure-cli/src/hosted.rs:1363-1367 | a served text is left as it is by a second fold if and only if no form stands in it |
| `HomeForms.FirstFormExactly` | crates/commonmeasure-cli/src/hosted.rs:1247-1254 | of two forms, the one rewritten first is kept out of every text if and only if it is seamless, or the second is and stands wherever the first does |
| `HomeForms.SecondFormExactly` | crates/commonmeasure-cli/src/hosted.rs:1247-1254 | the one rewritten last is kept out of every text if and only if it is seamless, or the first is and stands in every text it would be put together from |
| `HomeForms.TwoFormsExactly` | crates/commonmeasure-cli/src/hosted.rs:1247-1254 | for both forms: the exact condition under which every served text is clean, and under which serving is idempotent |
| `HomeForms.KeptOutExactly` | crates/commonmeasure-cli/src/hosted.rs:1247-1254 | of a home's forms, one or two, each stands in no served text if and only if it is kept out |
| `JsonWalk.Walker.Value` | crates/commonmeasure-cli/src/hosted.rs:1335-1361 | the recursive walk gives the reference walk and returns with the path as it found it |
| `JsonWalk.Walker.Members` | crates/commonmeasure-cli/src/hosted.rs:1348-1358 | the members of an object, each walked under its key as it was; the path is restored |
| `JsonWalk.ShapeKeptExactly` | crates/commonmeasure-cli/src/hosted.rs:1346-1358 | the walk keeps the shape and everything that is no string if and only if no two keys of one object are rewritten to the same key |
| `JsonWalk.WalkAtEveryPlace` | crates/commonmeasure-cli/src/hosted.rs:1328-1361 | the places after are the places before; each string is rewritten unless its pointer is kept, then byte-identical; containers at kept pointers are still descended into, keys rewritten |
| `JsonWalk.WalkElsewhere` | crates/commonmeasure-cli/src/hosted.rs:1377-1380 | a walk below a prefix with prefixed pointers is the walk without them |
| `JsonWalk.WalkKeepsWellFormed` | crates/commonmeasure-cli/src/hosted.rs:1346-1358 | what is walked stays well formed: numbers as they were, no object with a key twice, no deeper than before |
| `JsonWalk.WalkedTexts` | crates/commonmeasure-cli/src/hosted.rs:1328-1361 | what the rewrite gives every text, every key and every string not at a kept pointer has after the walk, at any depth and whatever keys fall together |
| `ToolAnswer.WalkedCopy` | crates/commonmeasure-cli/src/hosted.rs:1284-1297 | the structured copy, walked inside the answer, is the payload walked alone with the supplier pointers |
| `ToolAnswer.ServedCopiesAgree` | crates/commonmeasure-cli/src/hosted.rs:1272-1326 | on a successful tool result both served copies of a payload are its own walk: the structured copy, and the text, which reads back as the same value |
| `ToolAnswer.ServedTexts` | crates/commonmeasure-cli/src/hosted.rs:1272-1326 | over the whole served answer, what the rewrite gives every text is had by every key, every string not at a kept pointer, and every payload text, rewritten whole or written from such a value |
| `ToolAnswer.HomeRewriteLeavesNames` | crates/commonmeasure-cli/src/hosted.rs:1374-1376 | the rewrite of any home leaves every text without a separator, and so the field names the edge itself relies on |
| `ToolAnswer.ServedAnswerIsHomeFree` | crates/commonmeasure-cli/src/hosted.rs:1265-1326 | no form of the home that is kept out stands in any key of a served answer, nor in any string but the supplier's own; of a tool error nothing is left out |
| `ToolAnswer.ServedHomeCopiesAgree` | crates/commonmeasure-cli/src/hosted.rs:1272-1326 | and the two served copies of a payload agree, for any forms of the home |
| `ToolAnswer.ServedFreeExactly` | crates/commonmeasure-cli/src/hosted.rs:1247-1326 | a form of the home stands in no key, and in no string but those left, of any served answer if and only if it is kept out |
| `ToolAnswer.SplitPointer` | crates/commonmeasure-cli/src/hosted.rs:1377-1380 | splitting a pointer at its separators gives back the segments it was written from |
| `AnswerContents.UnreadTextIsRewritten` | crates/commonmeasure-cli/src/hosted.rs:1316-1326 | in every answer a content text that is no JSON is served as its own rewrite |
| `AnswerContents.ReadTextIsWalked` | crates/commonmeasure-cli/src/hosted.rs:1284-1326 | one that is JSON is served as text that reads back as its value walked, with the supplier's fields left on a success and nothing left on an error |
| `AnswerContents.CopyIsWalked` | crates/commonmeasure-cli/src/hosted.rs:1286-1298 | so is the structured copy, on a success and on an error |
| `AnswerContents.BlockIsKept` | crates/commonmeasure-cli/src/hosted.rs:1286-1298 | a file's `blob` and `uri` are left on a success and rewritten on an error |
| `AnswerContents.OtherFieldIsRewritten` | crates/commonmeasure-cli/src/hosted.rs:1286-1298 | beside the result, an answer's own error among it, nothing is left |
| `ProcessArguments.ReadHome` | crates/commonmeasure-cli/src/processes.rs:219-240 | the three-flag pass equals the declarative reading: the first setting entry wherever it is; else the default exactly when something was read and nothing follows an empty entry |
| `ProcessArguments.ProcArgs` | crates/commonmeasure-cli/src/processes.rs:392-427 | the parser of the kernel buffer: every refusal, the exact strings, the guessed end, and no environment when the end is in doubt |
| `ProcessArguments.ProcStringsInverts` | crates/commonmeasure-cli/src/processes.rs:249-255 | reading terminated strings gives back any non-empty list of them |
| `ProcessArguments.ArgumentsExact` | crates/commonmeasure-cli/src/processes.rs:392-405 | parsing an encoded buffer gives exactly the arguments written, for any path length and an empty argument zero, and exactly the strings after them |
| `ProcessArguments.EnvironmentSound` | crates/commonmeasure-cli/src/processes.rs:405-426 | wherever the environment is taken to end, the home read from it is unknown or the true one |
| `ProcessArguments.HomeShownIsSound` | crates/commonmeasure-cli/src/processes.rs:213-240 | for any process image the home shown is unknown or the one the first setting entry of its real environment gives |
| `ProcessArguments.HomeShownExactly` | crates/commonmeasure-cli/src/processes.rs:381-390 | with no empty entries and the kernel strings after a gap, the home shown is the true one, unless the environment is empty, and then it is unknown |
| `ProcessArguments.KernelStringsSetNoHome` | crates/commonmeasure-cli/src/processes.rs:429-449 | no string under the twelve kernel keys sets the home, so the hypotheses above hold on macOS |
| `ProcessArguments.FirstEntryIsRead` | crates/commonmeasure-cli/src/processes.rs:219-228 | of the first entry that begins with the variable's name and `=`, the home is what comes after, or the default when that is blank |
| `ProcessArguments.UnsetIsDefault` | crates/commonmeasure-cli/src/processes.rs:229-240 | without such an entry, the default exactly when the entries show they are all there are, otherwise unknown |
| `ProcessArguments.ValueShownIsSound` | crates/commonmeasure-cli/src/processes.rs:213-240 | of a process that sets the home to a value, that value is shown, or the default when it is blank, or nothing |
| `ProcessArguments.DefaultShownIsSound` | crates/commonmeasure-cli/src/processes.rs:213-240 | of a process that sets none, the default is shown or nothing |
| `ProcessArguments.ValueShownExactly` | crates/commonmeasure-cli/src/processes.rs:381-390 | under the kernel's usual layout the value is shown |
| `ProcessArguments.DefaultShownExactly` | crates/commonmeasure-cli/src/processes.rs:381-390 | and so is the default, unless the environment is empty |
| `ProcessArguments.EnvironmentExactly` | crates/commonmeasure-cli/src/processes.rs:405-426 | the environment is what comes before the first kernel string, trailing empties dropped; in doubt exactly when the home is set only after that |
| `ProcessArguments.StringsSound` | crates/commonmeasure-cli/src/processes.rs:392-405 | whatever buffer is read is a count, a path, NULs up to the next multiple of eight and then those strings |
| `ProcessArguments.StringsComplete` | crates/commonmeasure-cli/src/processes.rs:392-405 | and every buffer laid out so is read, unless it holds fewer strings than its count |
| `NativeBytes.UnsignedOfFour` | crates/commonmeasure-cli/src/processes.rs:393 | four bytes are read least first |
| `ProcessArguments.UnterminatedIsRead` | crates/commonmeasure-cli/src/processes.rs:249-255 | a file whose last string is not terminated is read to its end |
| `TokenFile.TokenStore.Issue` | crates/commonmeasure-cli/src/hosted_tokens.rs:487-530 | the new file, error by error: a token is appended only for an allowed label not yet issued; a failed directory sync is an error that leaves the file changed |
| `TokenFile.TokenStore.Revoke` | crates/commonmeasure-cli/src/hosted_tokens.rs:534-551 | the first token of the label is marked revoked, once; otherwise the file is as it was |
| `TokenFile.IssuedExtends` | crates/commonmeasure-cli/src/hosted_tokens.rs:506-528 | an issue finds its label taken, or appends one live token with its label, endpoint, digest and time; labels and digests stay unique |
| `TokenFile.RevokedExtends` | crates/commonmeasure-cli/src/hosted_tokens.rs:539-551 | each refusal exactly; otherwise the token of that label is marked with the time and no other changes |
| `TokenFile.VerifiedExactly` | crates/commonmeasure-cli/src/hosted_tokens.rs:559-584 | a secret is let in as a label if and only if a live token of that label carries its digest and is bound to this endpoint or to none; each refusal exactly |
| `TokenRuns.InvNext` | crates/commonmeasure-runtime/src/declaration.rs:124-142 | every step of any process keeps the invariant, and every file version extends the one before it; a power loss may leave any version renamed since the last sync, and that one extends the durable one |
| `TokenRuns.LabelsStayUnique` | crates/commonmeasure-cli/src/hosted_tokens.rs:506-510 | every reachable version of the file holds each label once |
| `TokenRuns.IssuedIsNotLost` | crates/commonmeasure-cli/src/hosted_tokens.rs:511-529 | the secret an issue returned names its label to every later reader, on its own endpoint, until that label is revoked, through any stops and power losses |
| `TokenRuns.RevocationIsPermanent` | crates/commonmeasure-cli/src/hosted_tokens.rs:534-583 | after a revocation returned, no later reader accepts any token of that label on any endpoint |
| `TokenRuns.OnlyIssuedVerifies` | crates/commonmeasure-cli/src/hosted_tokens.rs:511-584 | over every run, a secret that verifies was drawn by a process that began to issue that label, for this endpoint or every one |
| `TokenRuns.TokensStayPermitted` | crates/commonmeasure-cli/src/hosted_tokens.rs:488-504 | in every version reached, labels are one to 128 visible ASCII characters without quote or backslash, endpoints known ones |
| `TokenRuns.PermittedIsIssued` | crates/commonmeasure-cli/src/hosted_tokens.rs:488-530 | any such label not in the file can be issued, and its secret then verifies |
| `KeyCache.Verifier.LookUp` | crates/commonmeasure-cli/src/hosted_tokens.rs:302-330 | the cache after a lookup and its answer, fetch made or refused |
| `KeyCache.Verifier.Refresh` | crates/commonmeasure-cli/src/hosted_tokens.rs:165-174 | the cache after a refresh; one that fails leaves it as it was |
| `KeyCache.AskedSpaced` | crates/commonmeasure-cli/src/hosted_tokens.rs:302-321 | fetches caused by unknown key ids start at least the interval apart, failed ones included, whatever refreshes come between |
| `KeyCache.AskedInWindow` | crates/commonmeasure-cli/src/hosted_tokens.rs:53 | so at most floor(T/60)+1 of them start in T seconds |
| `KeyCache.OmittedStaysRefused` | crates/commonmeasure-cli/src/hosted_tokens.rs:302-330 | while no fetch publishes a key id the cache does not hold, every lookup of it is an error |
| `KeyCache.FetchWithdraws` | crates/commonmeasure-cli/src/hosted_tokens.rs:182-189 | a fetch that leaves a key id out withdraws it until a later fetch publishes it |
| `KeyCache.PublishedIsFound` | crates/commonmeasure-cli/src/hosted_tokens.rs:165-189 | once a fetch published a key, every lookup of its id answers that key until a fetch publishes otherwise, whatever fails between |
| `KeyCache.UnknownIsAsked` | crates/commonmeasure-cli/src/hosted_tokens.rs:302-330 | an id not held is asked for exactly when the issuer was not asked in the last minute; what is then held and answered |
| `KeyCache.HeldIsNotAsked` | crates/commonmeasure-cli/src/hosted_tokens.rs:302-309 | an id that is held is answered with its key, and nobody is asked |
| `KeyCache.RefreshIsAwaited` | crates/commonmeasure-cli/src/hosted_tokens.rs:165-174 | a refresh that answers begins that minute too |
| `SessionTable.HostedSession.Handle` | crates/commonmeasure-cli/src/hosted.rs:960-1020 | one request under the session lock: what is answered and the whole new state |
| `SessionTable.HostedEdge.Find` | crates/commonmeasure-cli/src/hosted.rs:1088-1107 | a session is found only by the endpoint and bearer that opened it |
| `SessionTable.HostedEdge.Mint` | crates/commonmeasure-cli/src/hosted.rs:1025-1066 | only initialize mints; the new session is pending, bound, and alone added to the table |
| `SessionTable.HostedEdge.Post` | crates/commonmeasure-cli/src/hosted.rs:953-1020 | a message to a session: unknown to anyone but its owner and then nothing changes; otherwise that session alone is handled |
| `SessionTable.HostedEdge.End` | crates/commonmeasure-cli/src/hosted.rs:1068-1083 | a session is removed only for its owner, and no other with it |
| `SessionTable.HostedEdge.EndIdle` | crates/commonmeasure-cli/src/hosted.rs:1111-1120 | exactly the sessions idle for the whole timeout and not in use are dropped |
| `SessionRuns.AnsweredOnlyToOwner` | crates/commonmeasure-cli/src/hosted.rs:1088-1107 | over every run each answer went to the endpoint and bearer the session was minted for |
| `SessionRuns.OpenedOnce` | crates/commonmeasure-cli/src/hosted.rs:985-1019 | the server of a session was given its stored initialize once, first, and then exactly the messages it answered or panicked over, in order; only a message that is not lifecycle opened it |
| `SessionRuns.RepliedFollows` | crates/commonmeasure-cli/src/hosted.rs:965-1019 | what each request is answered, by its message and whether its session is pending: parse errors, notices, the three lifecycle methods, and all else the server's |
| `SessionRuns.MintedAlone` | crates/commonmeasure-cli/src/hosted.rs:1025-1066 | exactly an `initialize` object mints, and it adds its session alone |
| `SessionRuns.RemovedStaysRemoved` | crates/commonmeasure-cli/src/hosted.rs:1088-1120 | a session out of the table is found by no later lookup |
| `SessionRuns.FoundOnlyByOwner` | crates/commonmeasure-cli/src/hosted.rs:1088-1107 | whatever is minted later, a session is found only by its own owner |
| `SessionRuns.SurvivesExactly` | crates/commonmeasure-cli/src/hosted.rs:1068-1120 | over any run, a session is still found by its owner if and only if no DELETE of its owner removed it and no sweep found it free, its lock not poisoned, and its last use, its minting or last request, the whole timeout ago |
| `SessionRuns.PostAlone` | crates/commonmeasure-cli/src/hosted.rs:953-1020 | a request found, locked and answered with nothing in between is what the edge does of it alone: the same table and the same answer |
| `SessionRuns.DeleteAlone` | crates/commonmeasure-cli/src/hosted.rs:1068-1083 | and so a DELETE found and removed |
| `CustodySchedule.Fetches` | crates/commonmeasure-cli/src/hosted.rs:345-354 | the loop over its next start gives the reference schedule |
| `CustodySchedule.StartsBounded` | crates/commonmeasure-cli/src/hosted.rs:332-342 | consecutive starts are never further apart than the longer of the interval and a fetch, and the lateness of one wake |
| `CustodySchedule.ChangeHeldWithin` | crates/commonmeasure-cli/src/hosted.rs:332-342 | a change made after a fetch began is held within that bound and one fetch more of that start |
| `CustodySchedule.StartsOnTheGrid` | crates/commonmeasure-cli/src/hosted.rs:346-351 | with no overrun start k is the first start and k intervals, and its own wake: no drift |
| `CustodySchedule.NoBacklog` | crates/commonmeasure-cli/src/hosted.rs:351 | from the loop's second start on, and from its first when the first fetch did not overrun, later starts are whole intervals apart but for one wake, whatever overran: a missed start is dropped |
| `CustodySchedule.SecondGapExactly` | crates/commonmeasure-cli/src/hosted.rs:349-353 | the gap after the loop's first start is an interval, but for the wakes, if and only if the first fetch did not overrun or the turn itself fills the interval |
| `CustodySchedule.NoBacklogExactly` | crates/commonmeasure-cli/src/hosted.rs:349-353 | every gap of every run is an interval but for its wake if and only if the first fetch is over within the interval |
| `CustodySchedule.OverrunIsOwedOnce` | crates/commonmeasure-cli/src/hosted.rs:349-353 | a concrete run in which two fetches start a second apart at an interval of ten |
| `EventStream.CanonicalUrl` | browser/parse.js:114-127 | deleting one parameter at a time gives the canonical form |
| `EventStream.CanonicalTwice` | browser/parse.js:114-127 | a canonical URL is its own canonical form |
| `EventStream.UntrackedAround` | browser/parse.js:112-127 | a parameter anywhere is left out when its name begins with `utm_`, and otherwise kept, in its place |
| `EventStream.CanonicalKeepsPage` | browser/parse.js:112-127 | a canonical URL reads back as the same page with exactly the parameters that are not tracking ones; what is not on the web has none |
| `EventStream.TaggedMeetsBare` | browser/parse.js:17-18 | a tagged and a bare link to one page collapse if and only if the bare one has no parameters or its query is already form-encoded |
| `EventStream.TaggedStaysApart` | browser/parse.js:17-18 | two concrete links to one page that do not collapse |
| `EventStream.Canonicalise` | browser/parse.js:102-110 | strictly ascending, and exactly the canonical forms of its input |
| `EventStream.AscendingIsUnique` | browser/parse.js:102-110 | what is strictly ascending is determined by its elements, so the sort used does not matter |
| `EventStream.Harvest` | browser/parse.js:58-92 | one frame pushes onto both lists what the traversal gathers and answers its first id |
| `EventStream.GatheredIsNamed` | browser/parse.js:58-92 | a URL is gathered if and only if some place in the value, at any depth, names it |
| `EventStream.ShownExactly` | browser/parse.js:73 | a place shows exactly the urls of its entries |
| `EventStream.CitedExactly` | browser/parse.js:75-84 | a place cites exactly the urls of its items, their supporting websites and its sources |
| `EventStream.IdsExactly` | browser/parse.js:71 | a place's id is the text of its `conversation_id`, and nothing else |
| `EventStream.FramesCarried` | browser/parse.js:34-48 | the frames are exactly what lines carry after `data:` that reads and is no advertisement |
| `EventStream.LinesAround` | browser/parse.js:34 | a line ends at a newline, with or without a carriage return before it |
| `EventStream.FirstIsEarliest` | browser/parse.js:58-92 | the first id gathered is the one at the place the traversal reaches first, and no earlier place has one |
| `EventStream.ParseSse` | browser/parse.js:25-54 | for every stream both sets are strictly ascending and exactly the canonical URLs at the naming places of frames that are no advertisement; what is cited was retrieved |
| `Dossier.WriteBody` | crates/commonmeasure-cli/src/inspect.rs:387-406 | the word loop gives the reference wrap |
| `Dossier.WriteEntry` | crates/commonmeasure-cli/src/inspect.rs:387-419 | what is written after the text before it is the rows of the entry, each trimmed and ended |
| `Dossier.EntryAsWritten` | crates/commonmeasure-cli/src/inspect.rs:382-419 | the text written, split at its newlines: body words in order; a line with two or more of them is within the width; the citation is whole at the end of the last line, within the margin or alone after the hanging indent |
| `Dossier.EntryKeepsWords` | crates/commonmeasure-cli/src/inspect.rs:387-419 | splitting the written entry at white space gives the words of the label, of the body and of the citation |
| `Dossier.WrapFits` | crates/commonmeasure-cli/src/inspect.rs:397-403 | no line of two or more words is over the width, and none breaks where its next word would have fitted |
| `Dossier.HeadExactly` | crates/commonmeasure-cli/src/inspect.rs:387-396 | the indent, the label, and white space up to the column of the body |
| `Dossier.CitationHolds` | crates/commonmeasure-cli/src/inspect.rs:407-412 | every cite is whole in its citation, in order, parted by `; ` within one pair of brackets |
| `Dossier.CitationPlaced` | crates/commonmeasure-cli/src/inspect.rs:407-416 | the citation has a line of its own exactly when it does not fit the last line and its margin |
| `Dossier.WidthOfOne` | crates/commonmeasure-cli/src/inspect.rs:399 | a width is counted in bytes, character by character |
| `NativeFraming.NativeHost` | crates/commonmeasure-cli/src/main.rs:1567-1594 | the read and reply loop writes the reference output for any input |
| `NativeFraming.OneReplyEach` | crates/commonmeasure-cli/src/main.rs:1567-1594 | n messages within the limit and an unfinished tail give exactly their n replies in order, and one more exactly when the tail announces too long a message |
| `NativeFraming.BodiesOfFrames` | crates/commonmeasure-cli/src/main.rs:1572-1590 | reading a stream of frames and a tail gives those bodies and that tail |
| `NativeFraming.RepliesReadBack` | crates/commonmeasure-cli/src/main.rs:1629-1638 | decoding the written bytes gives the replies back |
| `NativeFraming.LongLengthIsRefused` | crates/commonmeasure-cli/src/main.rs:1575-1583 | a length over the limit is answered as that length, and nothing after it is read |
| `NativeFraming.UnfinishedIsLeft` | crates/commonmeasure-cli/src/main.rs:1572-1590 | an unfinished message is answered by nothing |
| `Router.Module.FindEdge` | plugin/hooks/register.js:311-316 | the edge once found is answered without a listing; otherwise the first preferred server listed, or none, is assigned |
| `Router.ChosenExactly` | plugin/hooks/register.js:311-316 | the plugin's own server is preferred when its tool is listed, then the other, by their tool names |
| `Router.CallEnds` | plugin/hooks/register.js:134-179 | how a whole fetch or search ends for every answer of the host, the edge kept, and what is remembered |
| `Router.Module.RouteFetch` | plugin/hooks/register.js:134-148 | a whole fetch equals its continuations one after another, state and outcome |
| `Router.Module.RouteSearch` | plugin/hooks/register.js:243-260 | the same of a search |
| `Router.Module.PostToolUse` | plugin/hooks/register.js:123-131 | the crossing is passed on exactly when the module did not answer the call, whose id is then forgotten |
| `Router.LastRowsHeld` | plugin/hooks/register.js:429-433 | of calls with distinct ids the last five hundred rows are held, in order |
| `Router.RowsBounded` | plugin/hooks/register.js:88-89 | never more, whatever ids recur |
| `Router.RowIsReplaced` | plugin/hooks/register.js:429-433 | a later row of one call replaces its earlier one in place |
| `RouterRuns.NativeExactlyWhenPermitted` | plugin/hooks/register.js:134-179 | over every interleaving, a finished fetch ran natively if and only if its own listing showed no edge and the mode is observe or prefer, or strict and allowed |
| `RouterRuns.SearchNativeExactly` | plugin/hooks/register.js:243-254 | over every interleaving, a finished search ran natively if and only if its own listing showed no edge or the edge has no provider to ask |
| `RouterRuns.CarriedByEdge` | plugin/hooks/register.js:134-179 | over every interleaving, a call goes through the edge known when it began, the one its own listing showed, or the one connected for it |
| `RouterRuns.RecordedExactlyWhenNative` | plugin/hooks/register.js:65-70 | over every interleaving, what is passed on to be recorded is exactly what ran natively, so no answered call is recorded again |
| `RouterRuns.EdgeKeptExactly` | plugin/hooks/register.js:60-63 | a found edge is kept in every later run if and only if no hook still waits for an earlier listing |
| `RouterRuns.NativeAfterExactly` | plugin/hooks/register.js:134-148 | in every world reached, a fetch under way may yet run natively if and only if it has, or waits for its listing, the policy or the person; one not begun, if and only if the edge is not found or a hook still waits for an earlier listing |
| `RouterRuns.SerialRun` | plugin/hooks/register.js:134-148 | with one call at a time no fetch runs natively once the edge was found, and the edge is never lost |
| `RouterRuns.FoundEdgeLost` | plugin/hooks/register.js:311-316 | a concrete run in which the found edge is lost and a later fetch runs natively |

## Left out

- SQL, files, subprocesses, the network, clocks and random draws: their answers are parameters or atomic steps.
- The evidence checks of a worker after a child and the shape check of its export, but for the count, the verdict and the outcomes: a failure there is a worker that stops.
- `HomeNamed::new` and its canonical form, and homes that are relative or begin with a drive letter: no separator begins them.
- The headers of an answer and the body that is not JSON: the first are rewritten by the same text function, the second is refused.
- The order of an object's members after rewriting: the model keeps the order the map gives them.
- ToolAnswer.ServedCopiesAgree: takes an answer in which no other key is rewritten to a field name the edge gave it on the way to the payload; a payload's own keys may fall together. The two copies are one value up to the order of an object's members.
- ToolAnswer.ServedHomeCopiesAgree: takes the same of the answer's keys.
- Dossier.EntryAsWritten: takes a label and citations without newlines; one within them would break its row in two.
- UTF-8 decoding and white-space trimming of the home's value: a predicate says which values are blank.
- `shown`, `identify`, `same_name`, `mapped` and the process tables: branches over what the system answers.
- Native integers are read little-endian, as on the systems served.
- Signatures and the claims of an access token, and the key cache on disk.
- What a panic in an open server leaves of that server: it holds the message it was given, and the session's lock is poisoned.
- HTTP answers beside the session's own: the malformed body, the missing header and the status codes.
- The message loop of an open server: it is a consumer of the messages it is given.
- CustodySchedule.StartsOnTheGrid: states each start with the lateness of its own wake, which the source leaves to the operating system.
- NativeFraming.RepliesReadBack: replies longer than a 32-bit length can say are outside it; the source writes the largest length for them.
- The replies of the native host themselves, and a standard output that refuses a write.
- The URL parser and the form encoding, a record of functions that read back what they write; the order of strings by UTF-16 units, which for canonical URLs, being ASCII, is the order by character.
- The text of the router's answers, the notes it logs once each, the prefix cut from its provenance lines, the rows drawn and the sources line; a hook that overruns is one that threw.
- The other formatting of the dossier, the console and the reports; the MCP server, the policy resolver, the relay and the spool.
