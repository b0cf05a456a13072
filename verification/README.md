# Evidence integrity of the regression and audit experiments

This project models the code that keeps the repository's experiments honest, and proves what that
code is for. It covers

- the patch algebra by which a frozen model request is edited at whitelisted pointers and checked
  (`JsonTree`, `Patches`, with its clients `Requests`, `BenchRecovery` and `SelfDebug`);
- the freeze, prepare, send-once protocol for paid requests: write-once files, a hash chain, exclusive
  start markers, a transport gate, and pools of runs and workers (`Store`, `Freeze`, `Provenance`,
  `Preparation`, `Prepared`, `OnePost`, `Runs`, `Collect`);
- the supplementary audit of logged payments and its negative controls (`Payments`, `PaymentAudit`,
  `PaymentTheorems`, `PaymentFacts`, `PaymentControls`, `PaymentExamples`);
- the reconciliation of tool logs into a trial report (`ToolEvents`, `Dispatches`, `Sop`,
  `WorldReceipts`, `NaturalEnd`, `Verdicts`, `ToolCalls`);
- two supporting loops (`Paging`, `Bounded`).

`dafny verify dfyconfig.toml` checks everything. `Wrappers` and `Counting` hold shared types and
facts about finite sets.

## How the code is represented

**Documents.** JSON is a recursive datatype; a location is a sequence of path segments, and a pointer
is read as the code reads it: slashes stripped at both ends, then split. Two documents *agree outside*
a set of pointers when every location that is not at or below a pointer looks the same in both: same
scalar, same list length, same keys. This includes the containers on the way to a pointer.

**Files and hashes.** The canonical text, its parser and the digest are functions of a `Codec`. Where a
theorem needs it, `Codec.Faithful` states the idealisation: reading canonical text back gives the
document, and the digest has no collisions. A directory is a map from paths to bytes. What an operation
writes is a *plan*, a set of pairs of path and bytes; nothing is in its way if no two pairs disagree and
no file there already does (`Store.Fits`), which is exactly when write-once saving succeeds.

**The paid protocol.** `OnePost` is a transition system over a map of evidence files. A process may be
launched at any time, for any directory, any number of times; creating the marker, counting the post,
writing each record, transmitting, finishing and crashing are separate atomic steps that interleave
freely; every transmission keeps the verb, the URL and the body that went out. `Runs` adds paid runs
over one directory: each selects, verifies, looks at a marker, reads and checks the prepared payload
and launches, in separate steps, while any file may be overwritten at any moment and runs overlap and
start again. `Collect` adds sessions, each with a queue that two workers share and a stop flag. The
classes `OnePost.OnePost` and `Store.Directory` are the objects of the code with their fields updated in place,
and `OnePost.UninterruptedGate` connects the class to the transition system.

**The audit.** A logged run is a typed record; `Payments` holds the checks as predicates,
`PaymentAudit.Audit` is the loop that fills the table of checks, and `Payments.Passing` is what the
table amounts to. Decimals are reals. Missing evidence is an absent option or an empty list, and leads
to the same failing check as in the code.

**The report.** Rows of logs are records with optional fields. `NaturalEnd.Verdict` has the three values
of `natural_end` and `Raised` for a report that breaks off; `Verdicts` says in terms of the rows alone when
each of them is reached.

Predicates that a method computes with are matched by statements over the records alone, as in
`Patches.DeclaredMeans`, `PaymentFacts`, `ToolEvents.ClosedMeans` and `Verdicts`, so that a check left out
of both the method and its predicate contradicts a theorem.

## What turned out not to hold

The code is modelled as it is. Where a property one would expect fails, the project has a lemma with an
input that shows it, and the exact condition under which the property does hold.

- *Any accepted edits validate.* Not when pointers nest: `/a/b` and then `/a` both go through, and the
  check refuses the result (`Patches.NestedEditsRefused`). Edits validate exactly if no pointer was
  changed twice and every written value is still in place at the end (`Patches.ReplayValidates`);
  pointers none of which is at or above another always qualify (`Patches.UnnestedEditsValidate`).
- *Redirecting a payment to another bank line is always rejected.* The control redirects to `-1` when
  the run has a single bank line, so it is blind exactly for traces whose bank lines are `[-1]`
  (`PaymentControls.NegativeControls`, `PaymentExamples.BlindBankControl`).
- *Swapping two payments is always rejected on the order.* Exactly if the two payments would not pass
  for each other within the tolerance; a difference of a cent between the expected amounts suffices, and
  with equal amounts the control always reports a failure (`PaymentControls.NegativeControls`,
  `PaymentControls.ApartAmountsAreNoticed`; passing traces of either kind
  in `PaymentExamples.SwapControlAnswers`).
- *The procedure flag speaks about when a reading started.* It compares the number in the end row, which
  nothing compares with the start row (`Sop.FlagTrustsEndRows`). It speaks about start rows, whatever the
  listing, if and only if the smallest end-row number of the successful readings is at most every
  start-row number (`Sop.ListingReachesStarts`), which holds for rows as the product writes them
  (`Sop.CopiesCover`).
- *Every row gets its own directory.* The directory name has underscores for colons, so rows whose ids
  differ only in that share one, and at most one of them is ever sent for; exactly these do
  (`Collect.TargetsClash`).
- *The bounded projection says when it drops nested data.* Below the depth limit it does so if and only if
  its remark is placed among the first 24 fields: at an existing scalar of that name, or else behind all
  scalars (`Bounded.OmissionIsTold`; a silent object in `Bounded.SilentOmission`, one with as many scalars
  that tells because it was projected before in `Bounded.RemarkKeepsPlace`).

## Model

| member | source | states |
|---|---|---|
| JsonTree.SegmentsOfPointer | experiments/agent_regression/prepare.py:16-16 | reading a pointer gives back the location it was written for, if no segment is empty or holds a slash |
| JsonTree.WriteEffect | experiments/agent_regression/prepare.py:46-47 | assigning at a location that resolves succeeds, is read back at and below it, keeps the shape of everything above it, and leaves all other subtrees alone |
| JsonTree.TransplantResolves | experiments/agent_regression/prepare.py:46-47 | restoring one location never makes another location unresolvable that resolves in both documents, so every restore step can be carried out even when pointers nest |
| JsonTree.Extensionality | experiments/agent_regression/prepare.py:48-49 | documents that look the same at every location are equal |
| JsonTree.AgreeSubtrees | experiments/agent_regression/prepare.py:48-49 | if two documents agree outside some pointers, their whole subtrees are equal at every location that is neither at, above nor below a pointer |
| Patches.Location | experiments/agent_regression/prepare.py:15-20 | the loop finds a parent and key exactly when the parent of the pointer resolves and takes the last segment as a key; reading `parent[key]` is reading the document at the pointer |
| Patches.CheckEntry | experiments/agent_regression/prepare.py:42-45 | an entry passes exactly if it resolves in both documents and carries the digests of what they hold there; otherwise the error says which of the two failed |
| Patches.CheckAndUndo | experiments/agent_regression/prepare.py:38-47 | one turn of the loop accepts exactly whitelisted, unrepeated, truthful entries and moves the restored document one patch closer to the baseline; the error names the first of the three that failed |
| Patches.ValidatePatches | experiments/agent_regression/prepare.py:34-49 | returns normally if and only if every patch is whitelisted, unique and truthful and the candidate agrees with the baseline outside the patches, nested pointers included; then each `before` is the digest of what the baseline holds at the pointer and each `after` of what the candidate holds; the last error is raised exactly when only the agreement fails |
| Patches.DeclaredMeans | experiments/agent_regression/prepare.py:38-49 | acceptance in terms of the two documents and the digest alone: both digests of every entry, the whitelist, no pointer twice, and the same shape at every location that is at or below no pointer |
| Patches.RecordDeterminesCandidate | experiments/agent_regression/prepare.py:38-49 | with a collision-free digest, two candidates accepted against one baseline with one patch list are the same document |
| Patches.DocumentsDetermineRecord | experiments/agent_regression/prepare.py:42-45 | conversely, two patch lists with the same pointers and producers that are accepted for one baseline and one candidate are equal |
| Patches.Workbench.Replace | experiments/agent_regression/prepare.py:23-31 | the new candidate and patch list are those of one recorded edit; a refusal changes nothing |
| Patches.ReplayFrame | experiments/agent_regression/prepare.py:23-31 | after any sequence of accepted edits, whatever their pointers, candidate and baseline agree outside the recorded patches, and each patch carries the baseline's digest and the written value's |
| Patches.ReplayValidates | experiments/agent_regression/prepare.py:23-49 | the result of any accepted edits validates if and only if no pointer was changed twice and every written value is still in place |
| Patches.UnnestedEditsValidate | experiments/agent_regression/prepare.py:23-49 | edits at pairwise unnested pointers go through exactly if each pointer is whitelisted and resolves in the baseline, and then validate and all hold |
| Patches.UnnestedPatches | experiments/agent_regression/prepare.py:26-31 | unnested edits are recorded one by one against the baseline: one patch, with the digests of the old and the new value, for each edit that changes something |
| Patches.OverwrittenEditRefused | experiments/agent_regression/prepare.py:23-49 | whenever a later accepted edit replaces a container above an earlier one and drops its value, the result is refused |
| Patches.NestedEditsRefused | experiments/agent_regression/prepare.py:23-49 | a concrete document and two nested edits for which that happens |
| Store.FingerprintInjective | experiments/agent_regression/freeze.py:11-16 | under the idealised codec, equal digests of canonical text mean equal documents |
| Store.Directory.Save | experiments/agent_regression/freeze.py:23-31 | succeeds exactly if the file is new or already holds these bytes; never changes the bytes of an existing file, nor any other file |
| Freeze.VerifyEvidence | experiments/agent_regression/freeze.py:130-132 | holds exactly if every evidence file listed in the manifest has its digest |
| Freeze.VerifyCase | experiments/agent_regression/freeze.py:123-132 | holds exactly if manifest, request and evidence of the case match the chain |
| Freeze.Verify | experiments/agent_regression/freeze.py:120-133 | returns the frozen record exactly if the whole chain below it is intact |
| Freeze.TamperEvidence | experiments/agent_regression/freeze.py:120-133 | two states with the same root file that both verify agree, byte for byte, on every manifest, request and evidence file the root answers for |
| Freeze.CaptureCase | experiments/agent_regression/freeze.py:47-113 | succeeds exactly if no file is in the way of what it writes; then the request, its evidence and the manifest are on disk; never changes an existing file and touches nothing else |
| Freeze.FreezeCases | experiments/agent_regression/freeze.py:34-117 | a pool that is already frozen is only verified; otherwise it succeeds exactly if no file is in the way of any case, and what it leaves verifies and is the record of what was captured; it never changes an existing file, even when it stops half-way |
| Prepared.WhitelistMeans | experiments/agent_regression/prepare.py:156-169 | a pointer may be patched exactly if the manifest of the case or the policy for the case lists it |
| Prepared.VerifyPreparedCase | experiments/agent_regression/prepare.py:160-169 | holds exactly if baseline is the frozen request, digests match, and the candidate is declared by its patches within the whitelist |
| Prepared.VerifySources | experiments/agent_regression/prepare.py:157-159 | holds exactly if every recorded source file still has its digest |
| Prepared.VerifyPrepared | experiments/agent_regression/prepare.py:147-170 | returns the digest table exactly if freeze, policy, provenance, sources and every case match the record |
| Prepared.RecordPins | experiments/agent_regression/prepare.py:147-159 | two states that both verify against one preparation record agree, byte for byte, on the frozen pool, its provenance, the policy and every listed source |
| Prepared.RecordPinsCase | experiments/agent_regression/prepare.py:160-169 | and, for every listed case, on the patch file, the request and both prepared documents, the baseline being the request |
| Provenance.VerifyProvenance | experiments/agent_regression/provenance.py:124-133 | returns the record exactly if it belongs to the frozen pool and all archived evidence is unchanged |
| Provenance.ProvenancePins | experiments/agent_regression/provenance.py:124-133 | two traced states with the same provenance record belong to the same frozen pool and agree, byte for byte, on all archived evidence |
| Provenance.Supplement | experiments/agent_regression/provenance.py:39-121 | with a record there already, it only verifies; otherwise it succeeds exactly if the pool is intact and nothing is in the way of the evidence; then every case is archived and the record names the pool and the digest of every archived file; it writes archived files and the record, and never changes an existing file |
| Preparation.PatchesReadBack | experiments/agent_regression/prepare.py:132-132 | the recorded patch list is read back as it was written |
| Preparation.BuildCandidate | experiments/agent_regression/prepare.py:62-109 | succeeds exactly if every edit goes through and the result validates, and yields that result |
| Preparation.PrepareCase | experiments/agent_regression/prepare.py:125-134 | succeeds exactly if the edits of the case go through and no file is in the way; then the candidate on disk is the request with the edits made and the patch file is their record: for unnested edits each location holds the value of its edit, every location untouched by an edit is that of the request, and there is one patch per change; verification accepts the case with the returned row; no existing file changes |
| Preparation.UnnestedIsEditable | experiments/agent_regression/prepare.py:125-134 | unnested edits go through exactly if the whitelist of the case names them and its request has a value at each |
| Preparation.PrepareCases | experiments/agent_regression/prepare.py:124-134 | the loop over the frozen cases succeeds exactly if the edits of every case go through and nothing is in the way; then every case carries its edits |
| Preparation.IntactKept | experiments/agent_regression/prepare.py:112-144 | an intact hash chain stays intact under write-once saving |
| Preparation.RecordedIsOk | experiments/agent_regression/prepare.py:137-143 | a record of the digests on disk passes every check of verification |
| Preparation.Prepare | experiments/agent_regression/prepare.py:112-144 | on a first run it succeeds exactly if the provenance can be supplied, the edits of every frozen case go through and nothing is in the way, and then every candidate on disk carries its edits and every frozen case has a row; on a later run exactly if the existing record verifies; what it leaves is what `verify_prepared` accepts, with the returned rows; it never changes an existing file |
| Prepared.OrderCovers | experiments/agent_regression/runner.py:172-176 | the two loops visit a case and arm exactly if both were selected |
| Prepared.OrderDistinct | experiments/agent_regression/runner.py:165-176 | and visit none twice |
| Prepared.Attempt | experiments/agent_regression/runner.py:176-191 | sends exactly what is unstarted, readable and unchanged at that moment, and names the obstacle otherwise: a start marker first, then an unreadable file, then a changed digest |
| Prepared.RunCase | experiments/agent_regression/runner.py:176-191 | the arms of a case are sent in order up to the first obstacle or inconclusive answer |
| Prepared.RunPool | experiments/agent_regression/runner.py:161-191 | what is sent is a prefix of the selected cases and arms in order; everything sent was unstarted and vetted; the pool stops exactly at the first obstacle, which it names, or inconclusive answer |
| Prepared.VettedIsWithinScope | experiments/agent_regression/runner.py:180-182 | a payload that passes the digest check is the frozen request (baseline arm) or differs from it at most at whitelisted pointers (candidate arm), whatever the files have become since |
| Prepared.VettedMeans | experiments/agent_regression/runner.py:180-182 | against the digests of a verified directory a payload passes exactly if it is the document the prepared file held |
| Prepared.SelectionMeans | experiments/agent_regression/runner.py:158-159 | without a choice a run takes every frozen case, in the order of the frozen record |
| Prepared.Run | experiments/agent_regression/runner.py:156-191 | verify, select, go through the pool, in terms of markers, files and answers as the pool finds them: every slot sent was unstarted and its file held the payload sent, which is the verified document and in scope; it stops with a replay exactly if the next slot was started, as inconclusive exactly at the last answer; and if all slots are unstarted and unchanged and no answer is inconclusive, the whole selection is sent |
| Prepared.TargetsDiffer | experiments/agent_regression/runner.py:177-177 | different cases or arms have different result directories |
| Runs.NextKeepsInv | experiments/agent_regression/runner.py:156-191 | every atomic step of every run, process or overwriting keeps this: each process was launched for a slot of a run that had verified the directory, with a payload whose digest that run had checked |
| Runs.ExecKeepsInv | experiments/agent_regression/runner.py:156-191 | so does every interleaving |
| Runs.LaunchesInOrder | experiments/agent_regression/runner.py:172-183 | each run launches a prefix of its selection, in order and without repetition |
| Runs.StartedEndsRun | experiments/agent_regression/runner.py:178-179 | a run that finds its next slot started launches nothing for it or any later one, whatever happens next |
| Runs.InconclusiveEndsRun | experiments/agent_regression/runner.py:184-191 | nor does a run after an inconclusive answer |
| Runs.SentWithinVerified | experiments/agent_regression/runner.py:170-183 | whatever is overwritten, the record included, what goes out for a case and arm was launched by a run for that case and arm and is in the scope of the state that run verified |
| Runs.EndToEnd | experiments/agent_regression/runner.py:170-183 | from a directory that verifies, with every file but the preparation record overwritten at will and runs overlapping, crashing and starting again: each case and arm is sent for at most once, and what is sent for it is the frozen request (baseline arm) or differs from it at most at whitelisted pointers (candidate arm) |
| Runs.UninterruptedAttempt | experiments/agent_regression/runner.py:176-183 | looking and launching without interruption launches exactly what the sequential pool would send at that moment |
| OnePost.NextKeepsInv | experiments/agent_regression/runner.py:46-122 | every atomic step of every process keeps the protocol's invariant |
| OnePost.ExecKeepsInv | experiments/agent_regression/runner.py:46-122 | so does every run |
| OnePost.AtMostOnePost | experiments/agent_regression/runner.py:46-61 | in every run, at most one transmission per directory; each was a POST to the frozen URL made by the process that created the marker, after marker and transport record, with a body that parses to its payload and equals the wire record |
| OnePost.RecordedPostsNeverUndercount | experiments/agent_regression/runner.py:120-121 | the posts recorded in the output are never fewer than those transmitted for the directory |
| OnePost.AbandonedIsNeverReplayed | experiments/agent_regression/runner.py:80-82 | once a process that created the marker died, nothing more is ever sent for its directory |
| OnePost.UninterruptedGate | experiments/agent_regression/runner.py:46-61 | the atomic steps of one request, run without interruption, have the outcome the gate function states |
| OnePost.OnePost.HandleRequest | experiments/agent_regression/runner.py:46-61 | exactly a first POST to the frozen URL whose body parses to the payload is counted, recorded twice and transmitted as it is; a request with another verb, a foreign URL, another body, or after the first changes neither counter, evidence nor transmissions |
| OnePost.Complete | experiments/agent_regression/runner.py:76-122 | a started directory is refused untouched; otherwise, whatever requests the client issues, at most one goes out, it is a POST to the frozen URL whose body parses to the payload, and a fresh directory's output counts it |
| Collect.SessionStep | experiments/tool_routing/collect_dataset.py:166-179 | a pool action leaves a session alone, opens it, or advances it by one logged event |
| Collect.PoolExecKeepsInv | experiments/tool_routing/collect_dataset.py:153-180 | queues add up, hold rows only, and nothing is dequeued after a stop, together with the protocol's invariant, over every interleaving |
| Collect.QueueSharedSafely | experiments/tool_routing/collect_dataset.py:159-180 | a session hands out exactly a prefix of what it found pending, each entry once and in order, and nothing after its stop flag was set |
| Collect.OpenTakesFirst | experiments/tool_routing/collect_dataset.py:159-164 | a session takes the first of the unstarted rows, as many as its limit says, all of them without one |
| Collect.IncompleteEndsSession | experiments/tool_routing/collect_dataset.py:166-177 | after an incomplete answer a session hands out nothing more, whatever happens next |
| Collect.FailureEndsSession | experiments/tool_routing/collect_dataset.py:167-179 | nor after a failure |
| Collect.CompleteGoesOn | experiments/tool_routing/collect_dataset.py:167-177 | a complete answer stops nobody: its worker next takes the head of the queue |
| Collect.ResumeSkipsStarted | experiments/tool_routing/collect_dataset.py:159-164 | a session, new or resumed, skips every row that was ever started, and without a limit takes all others |
| Collect.TargetsClash | experiments/tool_routing/collect_dataset.py:160-168 | two rows share a result directory, and so at most one transmission, exactly if their ids differ at most in a colon where the other has an underscore |
| Collect.PaidPostsBounded | experiments/tool_routing/collect_dataset.py:153-180 | all sessions together, resumed or overlapping, start each directory at most once, send for it at most once, and stay within the number of rows |
| PaymentTheorems.SortIsStable | experiments/enterprise_validation/audit_payments.py:87-87 | sorting by sending time gives the same actions in order, simultaneous ones as logged |
| PaymentAudit.CheckRecords | experiments/enterprise_validation/audit_payments.py:117-140 | each check of the first group is recorded with its value; they all hold exactly if the payment's records pass |
| PaymentAudit.CheckMatch | experiments/enterprise_validation/audit_payments.py:141-181 | each check of the second group that is reached is recorded with its value; they all hold exactly if one reconcile action has a line of the payment and that action passes; a pair naming payment, bank line, both actions and both lines is listed exactly if there is one such action with an exact pair of lines |
| PaymentAudit.CheckLog | experiments/enterprise_validation/audit_payments.py:59-100 | the audit enters its loop exactly if nothing needed is missing and the counts fit; whatever is read so far is in the table with its value, and missing evidence is on record |
| PaymentAudit.Audit | experiments/enterprise_validation/audit_payments.py:49-187 | passes exactly if every check of a complete trace holds; every check that is reached is in the table with its own value; missing evidence is recorded exactly if something the audit reads is missing, with everything up to there; the pairs are those of the payments with an exact pair, in order |
| PaymentTheorems.PairingIsExact | experiments/enterprise_validation/audit_payments.py:91-104 | a passing audit forces a one-to-one correspondence of creating actions, payments, bank lines, final records and reconcile actions, with none left over |
| PaymentTheorems.EachPaired | experiments/enterprise_validation/audit_payments.py:138-152 | each payment has its own bank line, final record and the only reconcile action that touches it |
| PaymentTheorems.NoneLeftOver | experiments/enterprise_validation/audit_payments.py:91-92 | every reconcile action is that of some payment |
| PaymentTheorems.RemainingDrift | experiments/enterprise_validation/audit_payments.py:135-137 | the running remainder drifts from the expected one by at most half a cent per payment |
| PaymentTheorems.ResidualBound | experiments/enterprise_validation/audit_payments.py:134-136 | before the k-th payment the logged residual is within k half cents of the amounts still expected |
| PaymentTheorems.TotalReduced | experiments/enterprise_validation/audit_payments.py:182-182 | expected total and logged reductions differ by less than half a cent, however many payments there are |
| PaymentTheorems.PaymentsInSequence | experiments/enterprise_validation/audit_payments.py:95-96 | each payment is verified before any later one is sent, and before its own reconciliation is sent |
| PaymentFacts.OneIdentity | experiments/enterprise_validation/audit_payments.py:121-129 | in a passing trace invoice, wizard, payment, final record and bank line of each payment name one company, the scenario's, and one partner; all but the line one currency; wizard and payment the frozen journal |
| PaymentFacts.DirectionFollowsScenario | experiments/enterprise_validation/audit_payments.py:121-129 | money direction, partner type and document type of each payment, as literals for each of the four scenarios |
| PaymentFacts.SourceIsFrozen | experiments/enterprise_validation/audit_payments.py:113-120 | each payment settles one posted document: the frozen invoice, or for a refund the only credit note, which reverses it |
| PaymentFacts.AmountsAgree | experiments/enterprise_validation/audit_payments.py:130-137 | wizard, payment, final record and reduction are of the expected amount, the bank line too, negative when money goes out; nothing is written off |
| PaymentFacts.SettledOnItsLine | experiments/enterprise_validation/audit_payments.py:138-140 | the final record lists the bank line of its payment and nothing else; both are settled |
| PaymentFacts.ReconciledOpposite | experiments/enterprise_validation/audit_payments.py:141-181 | the reconcile action of a payment comes after it and holds two lines, one of the payment and one of the bank line, of one account and the payment's parties, that cancel each other, are fully settled and are linked by exactly one partial reconciliation |
| PaymentFacts.ActionsMean | experiments/enterprise_validation/audit_payments.py:75-87 | the payments are exactly the logged actions of the payment wizard's model and method, in the order they were sent, and the reconciliations exactly those of the move line's |
| PaymentFacts.EveryActionApproved | experiments/enterprise_validation/audit_payments.py:79-86 | every payment and reconciliation was verified, approved under its own id and run, and finished after it was sent |
| PaymentFacts.LogIsComplete | experiments/enterprise_validation/audit_payments.py:59-104 | the fixtures are the frozen ones; there is one payment, bank line, final record and reconciliation for each expected amount, in that order, with different ids |
| PaymentFacts.NothingForeign | experiments/enterprise_validation/audit_payments.py:88-104 | no bank line or final payment of a passing trace is of another company or unsettled |
| PaymentFacts.PairsNamed | experiments/enterprise_validation/audit_payments.py:175-181 | the pairs of a passing report: for each payment in turn its bank line, its action, its reconcile action and the two lines of that action |
| PaymentFacts.ChecksAreNamed | experiments/enterprise_validation/audit_payments.py:117-140 | in any readable trace, a record that is not as it should be shows under the name of its check |
| PaymentFacts.MovedLineNoticed | experiments/enterprise_validation/audit_payments.py:121-129 | moving any bank line of a passing trace to another company makes the audit fail, on the identity of the payment settled on it |
| PaymentControls.SwapEffect | experiments/enterprise_validation/audit_payments.py:192-199 | swapping the times reverses the order of two payments and changes nothing if only one of the actions makes a payment |
| PaymentControls.RedirectNoticed | experiments/enterprise_validation/audit_payments.py:201-208 | redirecting the first final payment leaves the trace readable and makes one payment's bank check fail, exactly unless the trace's bank lines are `[-1]` |
| PaymentControls.NegativeControls | experiments/enterprise_validation/audit_payments.py:190-209 | on a passing trace, what both controls report, with the exact condition of each |
| PaymentControls.ApartAmountsAreNoticed | experiments/enterprise_validation/audit_payments.py:196-200 | amounts a cent apart make the first control report a rejection, equal amounts a failure |
| PaymentExamples.EveryListPasses | experiments/enterprise_validation/audit_payments.py:49-187 | for each of the four scenarios, for every list of payments it allows, on different bank lines, there is a trace that passes every check; two payments are interchangeable exactly if their amounts are within the tolerance of each other |
| PaymentExamples.SwapControlAnswers | experiments/enterprise_validation/audit_payments.py:192-200 | on such a passing trace of two payments of any amounts, from a customer or to a vendor, the first control answers true exactly if the amounts are not within the tolerance of each other, so false for equal amounts |
| PaymentExamples.BlindBankControl | experiments/enterprise_validation/audit_payments.py:201-208 | in each scenario, a passing trace on which the second control is blind |
| ToolEvents.ClosedIsMatching | bench/adapters/report.py:102-128 | the counters report valid if and only if the events are non-empty and form a perfect start/end matching by call id with allowed, equal tools and start before end |
| ToolEvents.ClosedMeans | bench/adapters/report.py:102-128 | the same over the rows alone: every start has one later end of its call with the same, allowed tool, every end a start, nothing else in between |
| Dispatches.BalancedIsEqual | bench/adapters/report.py:671-672 | no unfinished and no unmatched dispatches if and only if started and ended ids are equal as multisets |
| Dispatches.NoneMissing | bench/adapters/report.py:673-673 | no missing ids if and only if every row has a non-empty id |
| Dispatches.CountersMean | bench/adapters/report.py:671-672 | each counter is positive exactly if some call has more rows of the one kind than of the other |
| Sop.OrderingMeans | bench/adapters/report.py:716-771 | the flag is true if and only if the receipts are valid, some listing ended before every successful reading began, and some reading ended before every numbered mutation |
| Sop.OrderedRun | bench/adapters/report.py:716-771 | a true flag yields one listing and one reading in that order, before every numbered mutation, in a perfectly matched log |
| Sop.ListingReachesStarts | bench/adapters/report.py:749-765 | the comparison behind the flag implies, for every end number a listing may have, that it ended before every start row of a successful reading, if and only if the smallest end-row number is at most every start-row number |
| Sop.ListedBeforeStart | bench/adapters/report.py:749-771 | a true flag yields one listing which, where the start rows are covered, ended before all of them |
| Sop.CopiesCover | bench/adapters/report.py:752-754 | end rows that repeat their start number are covered |
| Sop.FlagTrustsEndRows | bench/adapters/report.py:749-771 | a valid log with a true flag whose only reading started, by its start row, before the only listing ended |
| WorldReceipts.CollectReads | bench/adapters/report.py:193-219 | collects the observations in order; no fault exactly if every row is well-formed |
| WorldReceipts.CollectProjections | bench/adapters/report.py:220-231 | the same for projections |
| WorldReceipts.CountsAddUp | bench/adapters/report.py:264-266 | successes and failures add up to the observations |
| WorldReceipts.CheckWorld | bench/adapters/report.py:182-290 | valid if and only if every row is well-formed, observations are an exact cover of the expected calls, projections mention observed calls only, and declared totals are the recomputed ones; missing and orphan calls are listed exactly |
| WorldReceipts.CoveredOnce | bench/adapters/report.py:232-252 | with valid receipts each expected call has one observation and no other |
| WorldReceipts.ValidMeans | bench/adapters/report.py:182-290 | valid receipts, over the rows alone: none malformed, no receipt or call twice, every expected call read and no other, projections over observed calls with their sizes, and successes and failures declared as often as there are such rows |
| WorldReceipts.ObservationAdds | bench/adapters/report.py:253-268 | what one more observation adds to each recomputed total, a success to one count and a failure to the other |
| WorldReceipts.ProjectionAdds | bench/adapters/report.py:270-273 | what one more projection adds |
| NaturalEnd.WorldCheck | bench/adapters/report.py:881-902 | world integrity holds exactly if the receipts are valid for the dispatched reads and the summary is present and healthy where required |
| NaturalEnd.ReportEnd | bench/adapters/report.py:967-1062 | computes the three-valued verdict; a natural end is certified |
| Verdicts.VerdictMeans | bench/adapters/report.py:967-1062 | the verdict, exactly, over what the trial left behind: negative for a stopped run or a result with a fault, positive for neither of these with every option, request, count and snapshot confirmed, open otherwise |
| Verdicts.RaisedMeans | bench/adapters/report.py:700-771 | the report breaks off exactly if a successful reading or a configuration is not numbered |
| NaturalEnd.NaturalIsCertified | bench/adapters/report.py:967-1062 | a natural end implies: result file, equal started and ended ids, no misrouted dispatch, closed requests, confirmed snapshot; in the native mode a summarised ledger with no open action; with a world an exact cover of the reads; in controlled mode the procedures read first; in dynamic mode every configuration published |
| NaturalEnd.LedgerIsSettled | bench/adapters/report.py:984-998 | a valid ledger without unresolved counts has no row with an unresolved status |
| NaturalEnd.NoResultFile | bench/adapters/report.py:968-973 | without a result file the verdict is never true, and false only for a local stop or a failed last message |
| ToolCalls.SameCallMeans | bench/adapters/trial_summary.py:311-317 | two rows are of one call, with ids, exactly if the ids are equal; without ids, never if one is untimed, and for names without a bar exactly if name and time are equal |
| ToolCalls.MergeStep | bench/adapters/trial_summary.py:317-321 | a further row of a call adds its flags to the call's entry and to no other |
| ToolCalls.NewStep | bench/adapters/trial_summary.py:322-324 | a row of a new call adds one entry at the end |
| ToolCalls.Counts | bench/adapters/trial_summary.py:275-310 | the exits of the loop admit exactly the rows that count as tool calls |
| ToolCalls.CountedRows | bench/adapters/trial_summary.py:262-310 | which rows count, over the trace alone: named rows of a tool kind or the plain form; in a session tree only calls and results; beside execution rows no calls |
| ToolCalls.NeverBothForms | bench/adapters/trial_summary.py:275-310 | no trace counts both a call and the start of its execution |
| ToolCalls.MergeCalls | bench/adapters/trial_summary.py:262-325 | one entry per distinct signature in order of first appearance, one per unsigned row, each with the disjunction of its rows' flags |
| ToolCalls.GroupingIsUnique | bench/adapters/trial_summary.py:262-325 | that description determines the result |
| Bounded.ProjectFits | experiments/tool_routing/decision_dataset.py:15-30 | at any depth, size and width limits hold for any input |
| Bounded.BoundedSize | experiments/tool_routing/decision_dataset.py:15-30 | at most 8308825 nodes, four elements to a list, 24 fields to an object, 666 characters to a text |
| Bounded.ListAccounts | experiments/tool_routing/decision_dataset.py:25-26 | a list shows its first three elements, projected, and says exactly how many are missing |
| Bounded.ObjectShows | experiments/tool_routing/decision_dataset.py:24-24 | down to the depth limit an object shows exactly those of its first 24 fields that are not always left out |
| Bounded.TextKeepsEnds | experiments/tool_routing/decision_dataset.py:27-29 | a long text keeps its first 400 and last 250 characters, a short one is kept whole |
| Bounded.EveryTextRedacted | experiments/tool_routing/decision_dataset.py:15-30 | every text in a projection, at any depth, is the stand-in for nested data or a redacted text of the value, cut to its ends |
| Bounded.OmissionIsTold | experiments/tool_routing/decision_dataset.py:21-24 | below the depth limit an object tells about omitted nested data if and only if the remark is placed among its first 24 fields, at an existing scalar of that name or else behind all scalars; otherwise it is silent |
| Bounded.SilentOmission | experiments/tool_routing/decision_dataset.py:21-24 | a concrete object whose nested data is dropped silently |
| Bounded.RemarkKeepsPlace | experiments/tool_routing/decision_dataset.py:21-24 | one with as many scalars that tells, because it already carries the remark |
| Paging.SourceRows | experiments/enterprise_validation/retrieval_check.py:62-71 | the loop terminates, its progress check holds, and it returns every matching row with a positive id once, in the order of ids |
| Requests.ContentWrite | experiments/agent_regression/bench_recovery.py:76-77 | assigning a message's content in the document is assigning it in the message |
| BenchRecovery.Candidate | experiments/agent_regression/bench_recovery.py:31-53 | succeeds exactly for requests with a system message first; the result has the policy on that message, current descriptions, and the allocation tool appended exactly if it was missing; making the recorded changes on the source gives the result and undoing them gives back the source; its own inverse check never fails |
| BenchRecovery.CandidateUndone | experiments/agent_regression/bench_recovery.py:36-52 | undoing the recorded changes in reverse gives back the source |
| BenchRecovery.CandidateRedone | experiments/agent_regression/bench_recovery.py:31-50 | making the recorded changes on the source gives the candidate: nothing changes unrecorded |
| BenchRecovery.CandidateParts | experiments/agent_regression/bench_recovery.py:31-47 | what the candidate is, message by message and tool by tool |
| BenchRecovery.ReplaceReply | experiments/agent_regression/bench_recovery.py:66-79 | recording and validating the replaced reply never refuses, leaves the request with the new reply, and records the digests of both |
| BenchRecovery.RecoveryCandidate | experiments/agent_regression/bench_recovery.py:63-80 | succeeds exactly for one recorded failure and one failing response; the result is the candidate with that reply replaced and nothing else, with its changes and the patch |
| BenchRecovery.RecoverableMeans | experiments/agent_regression/bench_recovery.py:67-73 | what it takes, over the messages alone: the only tool message with the call id reads as a failure and the response reports one; that message is the one replaced |
| Requests.UndoTools | experiments/agent_regression/self_debug_recovery.py:109-117 | undoing the recorded descriptions in reverse gives back the tools |
| Requests.RedoTools | experiments/agent_regression/self_debug_recovery.py:109-117 | making the recorded descriptions on the source gives the described request |
| Requests.DescriptionsAreCurrent | experiments/agent_regression/self_debug_recovery.py:109-117 | every catalogued tool ends up with today's description and is otherwise the same; the others are untouched |
| SelfDebug.UndoAll | experiments/agent_regression/self_debug_recovery.py:120-133 | undoing the reply and then the descriptions gives back the source |
| SelfDebug.RedoAll | experiments/agent_regression/self_debug_recovery.py:110-125 | making the descriptions and then the reply gives the candidate |
| SelfDebug.CandidateOfParts | experiments/agent_regression/self_debug_recovery.py:87-125 | what the candidate is, message by message and tool by tool |
| SelfDebug.UndoReversed | experiments/agent_regression/self_debug_recovery.py:126-132 | the reversed loop computes the undoing of all changes |
| SelfDebug.CurrentCandidate | experiments/agent_regression/self_debug_recovery.py:87-135 | succeeds exactly for acceptable requests, changes only descriptions of catalogued tools and the selected reply, records changes that lead from the source to the result and whose undoing leads back, and never fails its own inverse check |
| SelfDebug.AcceptableMeans | experiments/agent_regression/self_debug_recovery.py:90-119 | what it takes, over messages and tools alone: the diagnostic tool is published, and the only tool message with the call id is a failure, raw or as JSON, that gives way to another failure |

## Left out

- Pointer segments in unusual notation: `int()` also takes signs, spaces, underscores and leading zeros; here a list position is an ordinary decimal, and anything else does not resolve.
- Python equality across types (`True == 1`, `1 == 1.0`): documents are compared structurally, numbers by their literal.
- Aliasing inside documents: the code deep-copies before it edits, so documents are values here; the candidate, patch list, directory, gate counter and evidence are fields updated in place.
- SHA-256, canonical JSON text and JSON parsing: functions of a codec, assumed collision-free and faithful only where a theorem says so.
- Files that exist but cannot be read, partial writes after a crash, and disk errors: a file is present with its bytes or absent.
- The group filter and the credential check of `run`, `summary`, verdict evaluation and the response stream: not needed for what is sent; a run may be given any selection of frozen cases.
- The sources that `supplement` archives and the versions it notes: inputs, of which only file, path and digest matter later.
- Result directories in `Runs`: only the protocol's own steps change them; overwriting is modelled for all input files, the prepared payloads among them.
- Business fixtures and the generated tool results of `build_candidate`: their values are inputs to the edits. The commit and the list of changed paths in the preparation record carry no digest and are not written.
- The HTTP client and its events: `Complete` takes whatever requests the client issues.
- The other fields of the pairs the audit lists, its list of unknowns and hashes: reporting only.
- Rounding of `Decimal` and the order of time stamps as text: reals and integers.
- Fields absent from a record of the payment log: the code then fails the audit as missing evidence; here the fields of a record are present, and missing evidence is an empty list, an unset option, an unknown id or evidence of another kind.
- Summaries with explicit zero counts: status counts are multisets, in which a zero entry cannot be told from none.
- Null fields in tool logs are treated as absent, and ids that are not text as missing.
- The rest of `report_trial` (usage, cost, HTML, odoo request counts, telemetry) and of `build_trial_summary` (usage, timing, failures): totals without a law to prove.
- Normalising a trace row (case folding, first present name and id, the failure test on payloads): inputs of `ToolCalls.Item`.
- `followup_candidate`, `split_family`, `perform`, `score`, `_percentile` and `_aggregate_usage`: only easy members.
- The token pattern of `bounded`: an arbitrary text function; keys of objects are not shortened by the code and not counted in the size.
