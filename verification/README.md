# Verified model of the submission platform's engines

This project models two engines of the platform and three state machines around them, and proves what they keep over every run.
`dafny verify dfyconfig.toml` checks all of it.

**Verification runs** (`app/services/verifications/service.py`, `app/temporal/workflows/verification.py`). A run is a table of
steps with dependencies. Advancing it executes, pass after pass, every pending step whose dependencies are terminal; challenge
steps then wait for a code, comparison steps read what other steps left. When all steps are terminal, first-match rules over a
tree of facts decide the run. `VerificationModel` holds the data and the pure rules, `VerificationScheduler` and
`VerificationAdvance` the loop as a rewriting system, `VerificationDecision` the facts and rules, `VerificationRuns` whole runs
as sequences of calls, `VerificationReferences`, `VerificationConditions` and `VerificationRetries` what references, conditions
and codes mean, `VerificationTheorems`, `VerificationChallenges`, `VerificationLiveness` and `VerificationFinality` the results
over runs, `VerificationRows` the mutable rows and the methods that update them in place, `Workflow` the Temporal workflow with
its signals.

**Answer migration** (`app/services/transforms/`, `app/services/submissions/answer_validator.py`). Two versions of a form are
compared and a rule program is generated (`DiffService`, `DiffCoverage`); the program is dry-run on made-up answers (`Sandbox`);
an interpreter runs it over a submission's answers (`Executor`, `OperationMeaning`, `RuleMeaning`, `RoundTrips`); the result is
validated against the target version (`AnswerValidator`, `OptionMaps`) and, if it passes, answers and version are switched
(`AnswerStore`), one submission or many at a time (`BulkMigrate`). `GeneratedMigration` follows a generated program from the
diff to the validator, `MigratedAnswers` an answer from its old row to its new one, `MigrationExamples` holds inputs on which
migration does less than one might expect, and `FormData` the stored form data of a submission and its validation.

**Around them**: the submission workflow with its history (`Submissions`), the review and publication of definitions
(`Definitions`), deep merging of configuration trees (`DeepMerge`) and the closure of permissions (`Permissions`).

Library behaviour that the code only calls is a parameter: `str`, `float`, `lower`, the similarity ratio, rounding and attribute
access for verifications; regular expressions, date parsing and the COMPUTE evaluator for migrations. A statement without
further hypotheses therefore holds for every such library. The submission and the flow configuration are loaded afresh by each
call of the verification service, so each call of a modelled run brings its own.

## Where the code differs from what its text says, or surprises

- The rule loop says that it stops on the first required-rule error (`app/services/transforms/executor.py:326`). It stops after
  the first required rule whose value is kept, once any rule, required or not, has failed, and a discarded value skips the check
  altogether. It then refuses only if a required rule has itself failed, so a truncated migration can go through
  (`RuleMeaning.RuleListMeaning`, `RuleMeaning.RefusedIff`; an input: `MigrationExamples.TruncatedRun`).
- The bulk counter of successes counts submissions without any error entry, which is less than those that have switched
  (`BulkMigrate.TurnJudges`; an input: `MigrationExamples.TruncatedMigration`).
- An answer that happens to be the text `__DROP__` is discarded like a DROP rule (`DiffCoverage.RunAnswersTarget`).
- The diff gives a target key no rule or two when a `renamed_from` names a key that is missing from the source or whose target
  also exists in the source; `DiffCoverage.FedOnceIffCovered` says exactly when a key has one rule
  (inputs: `MigrationExamples.RenameFromNowhere`, `MigrationExamples.RenameOntoKept`).
- A generated option map is not always legal: a checkbox option with blank ends, or a single-choice answer with commas, can
  migrate to a value that the target rejects (`OptionMaps.GeneratedCheckboxMap`, `OptionMaps.SingleChoiceMap`, both exact;
  inputs: `MigrationExamples.BlankEndRejected`, `MigrationExamples.CommaRejected`).
- The dry run of a generated program fails exactly when a made-up answer that is coerced to a date does not parse
  (`Sandbox.GeneratedPassesIff`); the format `YYYY-MM-DD` that the diff writes is no format of `strptime`.
- Applying a rule set does not check that the submission is at the source version. A submission of a version without common
  questions is switched, and loses all its answers, exactly if the rule set run on no answers validates
  (`AnswerStore.OffSourceSwitches`; an input: `MigrationExamples.NameLost`).
- Finalizing a run writes its summary where the next advance reads facts, so a repeated advance can overturn the decision
  (`VerificationFinality.VerdictFlips`). A fact path never sees the summary if and only if it leads past it
  (`VerificationFinality.AsideIffUnseen`), and if all rules read such paths the decision stands for good
  (`VerificationFinality.FinalForGood`).
- A run is stored before its steps. If an entry of the step list is refused, the run stays behind without steps, and the next
  start decides it at once (`VerificationRows.CreateRun`, `VerificationTheorems.EmptyRunDecided`).
- Starting a run deferred changes only what it shows: its waiting steps stay waiting and go on accepting actions
  (`VerificationTheorems.DeferralOnlyShows`).
- A decision rule whose list of conditions holds no dict at all matches whatever the facts are
  (`VerificationConditions.RuleMatchesIff`).
- A failed dependency satisfies a step that depends on it, and a missing one blocks it for ever; the steps that can ever be
  reached are the grounded ones (`VerificationAdvance.SettledIffGrounded`).
- A code is stripped when it comes in but not when it goes out, so an announced code with blank ends is never accepted
  (`VerificationChallenges.AnnouncedCodePasses`).
- A Fayda step that fails because its profile has gone keeps its `waiting_for` (`VerificationChallenges.StaleWaitingFor`).
- A queued action without a code, or on a step that is missing or has ended, blocks the workflow for ever, for instance a right
  code sent twice before the first is carried out (`Workflow.BlockedIff`, `Workflow.BlockedForEver`, `Workflow.RepeatedCodeBlocks`).
- The freeze of a definition under review covers its metadata only: questions that nobody has reviewed can be published
  (`Definitions.GroupsOfLastEdit`; an input: `Definitions.UnreviewedQuestionPublished`), and publishing checks question keys
  inside each group only (`Definitions.DefinitionRow.CheckKeys`).
- The permission closure refuses no more than direct membership would, with the implications as they stand
  (`Permissions.AcceptedIffNoneForbidden`).

## Model

| member | source | states |
|---|---|---|
| `VerificationScheduler.Confluence` | app/services/verifications/service.py:356-392 | if every step reference names a step that depends on the reading one or on which it depends, all complete schedules of starts end with the same rows and take equally many steps |
| `VerificationScheduler.Diamond` | app/services/verifications/service.py:356-392 | two ready steps may be started in either order, and neither start disables the other |
| `VerificationScheduler.MoveToFront` | app/services/verifications/service.py:356-392 | a ready step can be moved to the front of any complete schedule without changing where it ends |
| `VerificationScheduler.DependenciesTerminal` | app/services/verifications/service.py:395-402 | when started steps had terminal dependencies, all transitive dependencies of a ready step are terminal |
| `VerificationScheduler.ExecuteStarts` | app/services/verifications/service.py:366-380 | starting any step leaves it terminal or waiting, only known challenges wait, and no challenge passes by being started |
| `VerificationScheduler.ChallengeStarts` | app/services/verifications/service.py:405-473 | the same for each challenge adapter |
| `VerificationScheduler.ComparisonStarts` | app/services/verifications/service.py:476-535 | the same for comparisons, with and without usable pairs |
| `VerificationScheduler.ExecuteReads` | app/services/verifications/service.py:476-498 | the result of a start depends on other rows only through the snapshots its configuration refers to |
| `VerificationScheduler.ResolveReads` | app/services/verifications/service.py:801-828 | a reference depends on at most the output and result of the one step it names |
| `VerificationReferences.AnswersReference` | app/services/verifications/service.py:801-813 | `answers.a.b`, with or without its dollar sign, is what the names walk to in the form data |
| `VerificationReferences.SubmissionReference` | app/services/verifications/service.py:814-815 | `submission.path` is that attribute of the submission |
| `VerificationReferences.StepsReference` | app/services/verifications/service.py:816-827 | `steps.K.output.a.b` and `steps.K.result.a.b` walk the output and the result of K, and give null without a step K |
| `VerificationReferences.LiteralReference` | app/services/verifications/service.py:807-828 | any other text without blank ends stands for itself |
| `VerificationReferences.ValueReference` | app/services/verifications/service.py:807-808 | and so does what is no text |
| `VerificationReferences.PhoneStepReadsAnswer` | app/services/verifications/service.py:405-435 | a phone step on an answer waits if and only if the answer is a text that is not blank, and its configured code goes to exactly that answer |
| `VerificationReferences.FaydaStepReadsAnswer` | app/services/verifications/service.py:437-468 | a Fayda step on an answer waits if and only if the registry has a profile under it, and otherwise fails for the reason that applies; its code is the profile's, else the configured one, else 222222 |
| `VerificationReferences.UnsupportedFails` | app/services/verifications/service.py:374-378 | steps of other types and challenges with other adapters fail |
| `VerificationReferences.SimilarityMeans` | app/services/verifications/service.py:859-868 | texts that agree once stripped and lowered score 1, a missing or empty side 0, anything else the library's ratio |
| `VerificationReferences.ComparesEachPair` | app/services/verifications/service.py:486-509 | every dict among the pairs is compared, in order, by what its two sides resolve to |
| `VerificationReferences.AnswerAgainstStep` | app/services/verifications/service.py:486-509 | a pair of an answer and a step's value compares exactly these two |
| `VerificationScheduler.FireKeeps` | app/services/verifications/service.py:363-385 | a start keeps every definition and every row already started, and takes exactly one step from the pending ones |
| `VerificationAdvance.PassSchedules` | app/services/verifications/service.py:365-385 | one pass of the for loop is a sequence of legal starts, and reports no progress exactly when nothing was ready |
| `VerificationAdvance.PassKeeps` | app/services/verifications/service.py:363-390 | a pass with progress leaves strictly fewer steps pending, so the outer loop ends |
| `VerificationAdvance.AdvanceCompletes` | app/services/verifications/service.py:363-390 | the loop, despite the break inside a pass, stops only when no pending step has satisfied dependencies |
| `VerificationAdvance.AdvanceKeeps` | app/services/verifications/service.py:356-392 | advancing keeps definitions and started rows, and that started steps have terminal dependencies |
| `VerificationAdvance.AdvanceOrderIndependent` | app/services/verifications/service.py:315-392 | the rows after an advance do not depend on the order in which the database lists the steps |
| `VerificationAdvance.FireGrounds` | app/services/verifications/service.py:395-402 | only steps whose dependency chains all end are ever started |
| `VerificationAdvance.SettledIffGrounded` | app/services/verifications/service.py:356-402 | at a fixpoint with nobody waiting, the terminal steps are exactly the grounded ones |
| `VerificationAdvance.AcyclicGrounded` | app/services/verifications/service.py:395-402 | a ranking lowered by every dependency on an existing step grounds every step |
| `VerificationAdvance.GroundedAcyclic` | app/services/verifications/service.py:395-402 | and a table of grounded steps has such a ranking |
| `VerificationDecision.FirstMatch` | app/services/verifications/service.py:716-753 | the rule used is the first whose conditions all hold, and none is used only if none matches |
| `VerificationConditions.NumberConditions` | app/services/verifications/service.py:763-785 | on a number, gte, lte, truthy and equals test what they say against their bound |
| `VerificationConditions.ConvertedConditions` | app/services/verifications/service.py:771-780 | a text is compared by the number it reads as, and not at all without one |
| `VerificationConditions.BooleanConditions` | app/services/verifications/service.py:771-785 | true is compared as 1 and false as 0 |
| `VerificationConditions.NoNumberNoMatch` | app/services/verifications/service.py:771-780 | neither numeric test holds on what is no number or against a bound that is none |
| `VerificationConditions.ChoiceConditions` | app/services/verifications/service.py:769-785 | a choice or equality test holds if and only if some choice is equal to the fact; a condition without a test never holds |
| `VerificationConditions.RuleMatchesIff` | app/services/verifications/service.py:756-760 | a rule matches if and only if its list is not empty and every dict in it holds |
| `VerificationConditions.DecideCases` | app/services/verifications/service.py:716-753 | the verdict is that of the first matching rule, else of the fallback, else manual review, with the defaults for what they leave out |
| `VerificationConditions.FinalStatusIff` | app/services/verifications/service.py:646-661 | approved completes a run, rejected fails it, anything else is manual review; the facts are kept |
| `VerificationConditions.ShowsFirstWaiting` | app/services/verifications/service.py:626-636 | a waiting run shows the first waiting step in listing order |
| `VerificationConditions.SubmissionFact` | app/services/verifications/service.py:691-713 | fact paths under submission, answers and computed_data lead into the submission |
| `VerificationConditions.StepFact` | app/services/verifications/service.py:691-713 | fact paths under steps.K lead to its status, outcome, input, output and result |
| `VerificationConditions.ComparisonResult` | app/services/verifications/service.py:476-535 | a comparison is graded by the rounded average of its pairs against both thresholds, and fails without pairs |
| `VerificationConditions.ComparisonListed` | app/services/verifications/service.py:500-534 | its input, output and result list label, sides and score of each pair |
| `VerificationConditions.ReachedComparisons` | app/services/verifications/service.py:476-535 | in every reachable state a comparison row is untouched, graded by the score it shows, or failed without a result |
| `VerificationConditions.ScoreConditionIff` | app/services/verifications/service.py:763-785 | `steps.K.result.score` gte b holds if and only if K has a score that is a number of at least b |
| `VerificationConditions.PassAndScoreRuleIff` | app/services/verifications/service.py:756-785 | a rule of passes and a score matches if and only if all have passed and the score is reached |
| `VerificationConditions.DecidedByScore` | app/services/verifications/service.py:644-785 | a run decided by a rule that demands a score of a comparison step completed that step with such a score |
| `VerificationDecision.OutcomeFact` | app/services/verifications/service.py:691-713 | the path `steps.K.outcome` of a dot-free key reads the outcome of step K and nothing else |
| `VerificationDecision.MatchSawPass` | app/services/verifications/service.py:756-785 | a matched rule that demands the pass of K implies that K has passed |
| `Json.LookupNames` | app/services/verifications/service.py:844-856 | a dotted path of dot-free names is looked up name by name |
| `VerificationRuns.RunInvariant` | app/services/verifications/service.py:110-202 | in every state any sequence of calls reaches: started steps have terminal, grounded dependencies, attempts stay within bounds, an inactive run is terminal throughout |
| `VerificationRuns.PerformSound` | app/services/verifications/service.py:110-202 | one call of any kind keeps that invariant and every step definition |
| `VerificationRuns.AdvanceRowsSound` | app/services/verifications/service.py:356-392 | advancing keeps it, starts steps with no attempts used, and passes no challenge |
| `VerificationRuns.ActionStep` | app/services/verifications/service.py:538-617 | an action carried out spends one attempt, passes the step if and only if it carried the code expected now, and leaves it waiting only with attempts to spare |
| `VerificationRuns.PhoneSpends` | app/services/verifications/service.py:552-570 | the same for the phone adapter |
| `VerificationRuns.FaydaSpends` | app/services/verifications/service.py:572-596 | the same for the Fayda adapter |
| `VerificationRuns.ActedSound` | app/services/verifications/service.py:1088-1123 | an action touches the row of its own step only, and only if that step was waiting |
| `VerificationRuns.ActCall` | app/services/verifications/service.py:160-202 | a submitted action is carried out exactly when the run is active, the step exists and waits and the adapter accepts it; it is then followed by an advance, and otherwise changes nothing |
| `VerificationRuns.PlannedIff` | app/services/verifications/service.py:324-353 | steps are created if and only if all keys are distinct and not empty, one for each dict and in order |
| `VerificationRetries.WrongCodeCounts` | app/services/verifications/service.py:604-617 | a wrong code leaves the step waiting if and only if another attempt is allowed after it, and otherwise fails it for good |
| `VerificationRetries.LostProfileFails` | app/services/verifications/service.py:572-578 | a Fayda step whose profile has gone fails at the next code |
| `VerificationRetries.WrongCodesWait` | app/services/verifications/service.py:538-617 | over a run, fewer wrong codes than attempts left leave the step waiting, each counted once |
| `VerificationRetries.LastWrongCodeFails` | app/services/verifications/service.py:604-612 | the one that uses up the budget fails it |
| `VerificationRetries.RightCodeAfterWrongOnes` | app/services/verifications/service.py:538-601 | before that the right code still passes it |
| `VerificationRetries.FaydaVerifiesProfile` | app/services/verifications/service.py:582-596 | the right code verifies the profile's own fields, each under its name |
| `VerificationRetries.AttributeReference` | app/services/verifications/service.py:801-828 | a reference to such an attribute reads that field of the profile |
| `VerificationTheorems.TerminalAbsorbs` | app/services/verifications/service.py:363-385 | no call ever changes a terminal step |
| `VerificationTheorems.PerformAllowance` | app/services/verifications/service.py:604-617 | what the steps may still consume never grows, and drops with each accepted action |
| `VerificationTheorems.ActionBound` | app/services/verifications/service.py:538-617 | a run accepts at most the sum over its steps of max(1, max_attempts) actions, and each step at most its own share |
| `VerificationTheorems.ExhaustedRunEnds` | app/services/verifications/service.py:538-617 | a run that has accepted that many actions has only terminal steps |
| `VerificationTheorems.PassNeedsCode` | app/services/verifications/service.py:538-601 | a passed challenge step was sent, at some earlier call, the code expected at that moment |
| `VerificationTheorems.ApprovalSound` | app/services/verifications/service.py:646-785 | if the rule that decided a run demands `steps.K.outcome equals "pass"` of a challenge K, an accepted action of this run carried K's code |
| `VerificationTheorems.CompletedNeedsCode` | app/services/verifications/service.py:646-661 | a run ends completed only after K's code, if every way to approve demands K |
| `VerificationTheorems.AdvanceOutcome` | app/services/verifications/service.py:620-661 | right after an advance the status is waiting exactly if a step waits, in progress exactly if none waits and some step is ungrounded, and the run is inactive exactly if all steps are terminal |
| `VerificationTheorems.FinalizeStatus` | app/services/verifications/service.py:620-661 | finalizing changes no row, and its status and current step reflect the rows |
| `VerificationTheorems.DeadlockFree` | app/services/verifications/service.py:356-392 | with acyclic dependencies on existing steps an advance leaves the run waiting on a waiting step or finished, never in progress |
| `VerificationTheorems.RunOrderIndependent` | app/services/verifications/service.py:356-392 | rows, facts, verdict and status after an advance do not depend on the listing order |
| `VerificationTheorems.ReplayOrderIndependent` | app/services/verifications/service.py:110-202 | nor do they after any sequence of calls |
| `VerificationTheorems.FinishedRowsFixed` | app/services/verifications/service.py:1069-1085 | a finished run keeps its rows and stays finished through every call, and an advance evaluates the rules again on the submission as it is then |
| `VerificationTheorems.DeferralOnlyShows` | app/services/verifications/service.py:136-143 | after a deferral every step accepts exactly the actions it would have accepted, and the next call that advances leaves the run as if it had never been deferred |
| `VerificationTheorems.EmptyRunDecided` | app/services/verifications/service.py:117-131 | a run left without steps is decided by the next advance, on facts without steps |
| `VerificationFinality.ReadsAside` | app/services/verifications/service.py:663-702 | what a path past the summary shows is the same before and after the summary is written |
| `VerificationFinality.AsideIffUnseen` | app/services/verifications/service.py:844-856 | a path never depends on the summary if and only if it leads somewhere and neither to the summary nor to what contains it |
| `VerificationFinality.SameDecision` | app/services/verifications/service.py:716-753 | if all rules read such paths the decision is the same before and after |
| `VerificationFinality.FinalForGood` | app/services/verifications/service.py:644-688 | a run finalized under such rules keeps rows, verdict and status through all later calls, and changes at most its copy of the facts |
| `VerificationFinality.SecondAdvanceIdle` | app/services/verifications/service.py:1069-1085 | a repeated advance then decides the same and writes nothing new to the submission |
| `VerificationFinality.SummaryFacts` | app/services/verifications/service.py:663-679 | after finalization the paths under computed_data.verification tell the run's id, status, decision and level |
| `VerificationFinality.SummaryStepFacts` | app/services/verifications/service.py:663-679 | and each step's status, outcome and result |
| `VerificationFinality.PayloadTells` | app/services/verifications/service.py:716-753 | the decision document tells decision, level, matched rule and reasons |
| `VerificationFinality.VerdictFlips` | app/services/verifications/service.py:677-702 | under a rule that rejects what has a summary every finished run is approved and then, advanced again, rejected |
| `VerificationFinality.PhoneRunFlips` | app/services/verifications/service.py:677-702 | a concrete run of one phone step to which this happens |
| `VerificationLiveness.RightCodePasses` | app/services/verifications/service.py:160-202 | in every reachable state of an active run the code expected of a waiting step is accepted and passes it, whatever the attempts before |
| `VerificationLiveness.RightCodeFinishes` | app/services/verifications/service.py:620-661 | on the last open step it finishes the run |
| `VerificationLiveness.PassRuleMatchesIff` | app/services/verifications/service.py:756-785 | a rule that asks for the passes of some steps matches if and only if all of them have passed |
| `VerificationLiveness.ApprovedIffPassed` | app/services/verifications/service.py:716-753 | if only such a first rule approves, the decision is approval if and only if these steps have passed |
| `VerificationLiveness.CompletedIffPassed` | app/services/verifications/service.py:646-661 | and a run so finalized is completed if and only if they have |
| `VerificationLiveness.RightCodeApproves` | app/services/verifications/service.py:160-202 | the right code for the last open step completes a run whose other required steps have passed |
| `VerificationLiveness.PhoneRunApproved` | app/services/verifications/service.py:405-435 | a concrete run of one phone step, from its start to its approval |
| `VerificationChallenges.ChallengeAnnouncesCode` | app/services/verifications/service.py:405-473 | the code a challenge sends is the code with which its action is compared, for both adapters |
| `VerificationChallenges.AnnouncedCodePasses` | app/services/verifications/service.py:538-601 | sent back exactly as announced it passes the step if and only if it is not blank and has no blank ends |
| `VerificationChallenges.PhoneSends` | app/services/verifications/service.py:417-435 | a phone challenge sends its code to the number of its resolved input |
| `VerificationChallenges.PhoneVerifiesTarget` | app/services/verifications/service.py:552-570 | a right code verifies exactly the number the code was sent to, a wrong one changes neither number |
| `VerificationChallenges.StaleWaitingFor` | app/services/verifications/service.py:572-578 | a step finished by an action is still marked as waiting for a code exactly if its Fayda profile is gone |
| `VerificationChallenges.ScoresInUnit` | app/services/verifications/service.py:859-868 | pair scores lie between 0 and 1 if the library's ratio does |
| `VerificationChallenges.PerfectTotal` | app/services/verifications/service.py:486-513 | the total equals the number of pairs if and only if every pair agrees completely |
| `VerificationChallenges.AgreementPasses` | app/services/verifications/service.py:515-524 | full agreement passes for every pass score up to the rounded 1 |
| `VerificationChallenges.OrderMattersOtherwise` | app/services/verifications/service.py:356-392 | a concrete table where a step reads a step it does not depend on, and where the listing order decides whether it waits or fails |
| `VerificationRows.StepRun.StartChallenge` | app/services/verifications/service.py:405-473 | updating the row in place yields the step of the model |
| `VerificationRows.StepRun.StartPhone` | app/services/verifications/service.py:417-435 | the phone branch, in place |
| `VerificationRows.StepRun.StartFayda` | app/services/verifications/service.py:437-468 | the Fayda branch, in place |
| `VerificationRows.StepRun.Compare` | app/services/verifications/service.py:486-509 | the loop over pairs keeps the comparisons made and their running total |
| `VerificationRows.StepRun.RunComparison` | app/services/verifications/service.py:476-535 | the comparison step in place, including both configuration errors |
| `VerificationRows.StepRun.Execute` | app/services/verifications/service.py:371-378 | dispatch on the step type, in place |
| `VerificationRows.StepRun.MarkRetryOrFail` | app/services/verifications/service.py:604-617 | a wrong code either fails the step for good or leaves it waiting |
| `VerificationRows.StepRun.ApplyUserAction` | app/services/verifications/service.py:538-601 | the action in place; where the source raises the row is as it was |
| `VerificationRuns.PlannedKeys` | app/services/verifications/service.py:324-353 | the steps created have distinct keys that are not empty, and each is found under its own |
| `VerificationRows.InitializeSteps` | app/services/verifications/service.py:324-353 | the loop over the configured entries builds pending rows, and refuses an empty or repeated key |
| `VerificationRows.CreateRun` | app/services/verifications/service.py:117-131 | a new run with these rows, or, when they are refused, an active run without steps |
| `VerificationRows.StartVerification` | app/services/verifications/service.py:110-157 | starting takes up the latest run while it is active and creates one otherwise, deferred or not |
| `VerificationRows.VerificationRun.RunPass` | app/services/verifications/service.py:365-385 | the for loop with its break yields the rows and the progress flag of a pass |
| `VerificationRows.VerificationRun.AdvanceSteps` | app/services/verifications/service.py:363-390 | the while loop terminates with the rows of the model |
| `VerificationRows.VerificationRun.Finalize` | app/services/verifications/service.py:620-688 | the run's new state, and the submission is written to only when the run finishes |
| `VerificationRows.VerificationRun.Conclude` | app/services/verifications/service.py:644-688 | deciding and summarizing a run whose steps are all terminal |
| `VerificationRows.VerificationRun.WriteSummary` | app/services/verifications/service.py:663-683 | only `verification` in computed data and `decision` in validation results change |
| `VerificationRows.VerificationRun.Advance` | app/services/verifications/service.py:356-392 | the whole advance on mutable rows equals the model's |
| `VerificationRows.VerificationRun.SubmitStepAction` | app/services/verifications/service.py:160-202 | submitting an action equals the model's call, and reports whether it was carried out |
| `Workflow.SubmissionVerificationWorkflow.Resume` | app/temporal/workflows/verification.py:29-31 | the signal raises the flag and nothing else |
| `Workflow.SubmissionVerificationWorkflow.SubmitAction` | app/temporal/workflows/verification.py:33-35 | the signal queues the action last |
| `Workflow.SubmissionVerificationWorkflow.Proceed` | app/temporal/workflows/verification.py:37-64 | the stretch between two awaits equals the model's step |
| `Workflow.CarriedOutIsPrefix` | app/temporal/workflows/verification.py:48-56 | under any interleaving the actions carried out on the run are a prefix of those delivered: in order, each at most once, and none besides; what is missing is in hand or queued |
| `Workflow.AppliedIsPrefix` | app/temporal/workflows/verification.py:48-49 | the actions taken from the queue are a prefix of those delivered, and the rest is queued |
| `Workflow.BlockedIff` | app/services/verifications/service.py:1099-1110 | an action on a started step can in no context be carried out if and only if it has no code or the step is missing or has ended |
| `Workflow.BlockedForEver` | app/temporal/workflows/verification.py:48-55 | at such an action the workflow stays for ever, whatever events follow |
| `Workflow.RepeatedCodeBlocks` | app/temporal/workflows/verification.py:48-55 | the right code sent twice before the first is carried out brings this about |
| `Workflow.NoResumeLost` | app/temporal/workflows/verification.py:29-62 | after a resume signal the flag is up until an advance begins |
| `Workflow.FlagCleared` | app/temporal/workflows/verification.py:57-62 | the flag goes down only in the step that begins an advance |
| `Workflow.ReturnsIffInactive` | app/temporal/workflows/verification.py:39-64 | the workflow returns exactly when an advance leaves the run inactive, whatever is still queued, and otherwise waits |
| `Workflow.ReturnedForEver` | app/temporal/workflows/verification.py:64 | having returned it takes no further action |
| `Workflow.DrainProgress` | app/temporal/workflows/verification.py:45-62 | every successful stretch takes one more action from the queue or, the queue being empty, lowers the flag and begins an advance |
| `Workflow.ExecuteFaithful` | app/services/verifications/service.py:1069-1123 | the run behind the workflow is always the result of the calls made on it |
| `Workflow.ApprovedWorkflow` | app/temporal/workflows/verification.py:37-64 | a workflow that returns an approved run, where approval demands challenge K, was preceded by K's code, delivered as a signal or sent to the service |
| `Forms.QuestionMapOrder` | app/services/transforms/executor.py:76-84 | the keys of the map come in the order in which they are first seen |
| `Forms.QuestionMapLast` | app/services/transforms/executor.py:76-84 | the map has exactly the keys seen, each with the question seen last |
| `Forms.QuestionMapEntries` | app/services/transforms/diff_service.py:43-67 | every question's key is in the map, and each entry is a question of the version under its own key |
| `AnswerValidator.ComplaintsIffUnacceptable` | app/services/submissions/answer_validator.py:168-235 | the ordered checks report nothing if and only if the answer is acceptable |
| `AnswerValidator.ComplaintsByKind` | app/services/submissions/answer_validator.py:168-220 | each complaint is made if and only if its own condition holds |
| `AnswerValidator.DateComplaintsByKind` | app/services/submissions/answer_validator.py:212-222 | a date is too early or too late by the bounds that are set and parse |
| `AnswerValidator.VisibleIff` | app/services/submissions/answer_validator.py:158-165 | a question is visible if and only if its controlling question has the answer asked for, or any non-empty one |
| `AnswerValidator.LastAnswerCounts` | app/services/submissions/answer_validator.py:100-102 | of several answers to a question the last one counts |
| `AnswerValidator.ReportedErrors` | app/services/submissions/answer_validator.py:111-123 | the errors are exactly the complaints about visible questions, under the question's id and key |
| `AnswerValidator.ValidateAnswers` | app/services/submissions/answer_validator.py:88-123 | the loops find the errors of the specification; none are found if and only if every visible question has an acceptable answer |
| `FormData.CoerceAnswerValue` | app/services/submissions/answer_validator.py:37-58 | each kind of JSON value becomes the specified text, a list the joined texts of its items |
| `FormData.ValidateFormData` | app/services/submissions/answer_validator.py:61-85 | coercion and validation of stored form data; no error if and only if every visible question has an acceptable answer |
| `FormData.ListAnswerLegalIff` | app/services/submissions/answer_validator.py:47-57 | a checkbox answer given as a list is legal if and only if every selection of every item is an option |
| `AnswerValidator.ValidatorsAgree` | app/services/submissions/answer_validator.py:61-123 | with unique keys both validators report the same errors |
| `Executor.MapPieces` | app/services/transforms/executor.py:160-173 | the loop over the pieces of a multiple answer, value and warnings |
| `Executor.ApplyOperation` | app/services/transforms/executor.py:125-267 | one rule with the shared error and warning lists yields the effect of the specification and appends at most its own entry |
| `OperationMeaning.CopyMeans` | app/services/transforms/executor.py:142-153 | IDENTITY and RENAME copy, DROP leaves the marker, DEFAULT_VALUE its parameter, an unknown operation copies with a warning |
| `OperationMeaning.NothingMeans` | app/services/transforms/executor.py:154-234 | without a source answer there is nothing to map, convert or split |
| `OperationMeaning.CoerceKeeps` | app/services/transforms/executor.py:183-206 | a conversion to anything but a date keeps the answer |
| `OperationMeaning.CoerceToDate` | app/services/transforms/executor.py:188-204 | a conversion to a date takes the first listed format that parses, and fails if and only if none does |
| `OperationMeaning.MapPlain` | app/services/transforms/executor.py:174-181 | an answer without commas becomes its entry, else the default; only a missing entry without a default warns |
| `OperationMeaning.MapMultiple` | app/services/transforms/executor.py:160-173 | an answer with commas is mapped piece by piece, with a warning for each piece lost |
| `OperationMeaning.SplitMeans` | app/services/transforms/executor.py:215-228 | SPLIT counts from the front or, for a negative index, from the end; past the last piece it yields nothing, before the first it raises |
| `OperationMeaning.MergeMeans` | app/services/transforms/executor.py:230-234 | MERGE joins the answers of its sources and yields nothing when the result is blank |
| `OperationMeaning.ComputeSees` | app/services/transforms/executor.py:236-247 | a computation sees the answers of exactly its sources |
| `OperationMeaning.ComputeMeans` | app/services/transforms/executor.py:249-258 | it yields what the evaluator makes of them and fails if and only if that does |
| `Executor.ApplyRules` | app/services/transforms/executor.py:321-327 | the rule loop with its continue and break yields the specified progress |
| `Executor.FinishedStays` | app/services/transforms/executor.py:326-327 | after a break or an exception no later rule has any effect |
| `Executor.SortOrders` | app/services/transforms/executor.py:319 | sorting by display order orders the rules and loses none |
| `Executor.SortStable` | app/services/transforms/executor.py:319 | rules of equal display order keep their places among each other |
| `Executor.SortFixed` | app/services/transforms/executor.py:319 | rules already in order stay as they are |
| `RuleMeaning.RuleListMeaning` | app/services/transforms/executor.py:319-327 | exactly a prefix is executed, up to the first rule that raises or stops the loop; each key holds what the last writer of that prefix yields on the unchanged answers, and the errors are those of that prefix |
| `RuleMeaning.RunMeans` | app/services/transforms/executor.py:321-327 | the same for every prefix of the list |
| `RuleMeaning.TargetsHold` | app/services/transforms/executor.py:321-327 | with distinct targets and all rules executed, each target holds its own rule's value and no other key is answered |
| `RuleMeaning.CleanRun` | app/services/transforms/executor.py:321-327 | a list without failures executes completely and reports no error |
| `RuleMeaning.RuleOrderIndependent` | app/services/transforms/executor.py:319-327 | with distinct targets and no failures the result is the same for every order of the rules |
| `RuleMeaning.RunWarnings` | app/services/transforms/executor.py:319-327 | a run counts the warnings of exactly the rules it has executed |
| `RuleMeaning.RefusedIff` | app/services/transforms/executor.py:329-334 | a run is refused if and only if a required rule among the executed ones has itself failed |
| `DiffService.GenerateRuleSet` | app/services/transforms/diff_service.py:132-232 | the loops over both versions build the specified program |
| `DiffService.BuildRenameIndex` | app/services/transforms/diff_service.py:135-142 | the loop builds the rename index, the last claim winning |
| `DiffService.AddDefaults` | app/services/transforms/diff_service.py:217-232 | one default rule for each target key that is neither in the source nor renamed to |
| `DiffService.NewKeys` | app/services/transforms/diff_service.py:217-221 | exactly those keys, each once |
| `DiffService.OptionMappingMeans` | app/services/transforms/diff_service.py:168-174 | the value map has exactly the source options; a hint decides, else a kept option stays and a removed one is lost |
| `DiffCoverage.RenameTargets` | app/services/transforms/diff_service.py:135-142 | a target is indexed at most under the key it names, and every named key is indexed |
| `DiffCoverage.ProgramShape` | app/services/transforms/diff_service.py:144-232 | display orders count up from 0, no rule is required, source questions come first, and every rule but a DROP aims at a target key |
| `DiffCoverage.OneRulePerSource` | app/services/transforms/diff_service.py:144-215 | every source key has exactly one rule |
| `DiffCoverage.FedOnceIffCovered` | app/services/transforms/diff_service.py:144-232 | a target key has exactly one non-DROP rule if and only if exactly one of rename, keep and default applies to it |
| `DiffCoverage.ProperRenamesCover` | app/services/transforms/diff_service.py:135-232 | renames that each name a distinct removed key, on new keys, cover every target key |
| `DiffCoverage.CoveredDistinct` | app/services/transforms/diff_service.py:144-232 | then no two rules share a target |
| `DiffCoverage.ProgramRunsThrough` | app/services/transforms/executor.py:321-327 | on any answers every rule of a generated program is executed and none raises |
| `DiffCoverage.ProgramRun` | app/services/transforms/executor.py:321-327 | if every target key is covered, each rule's target holds exactly what that rule yields |
| `DiffCoverage.RunAnswersTarget` | app/services/transforms/executor.py:321-327 | then only target keys are answered, and all of them if and only if no rule but a DROP yields the drop marker |
| `DiffCoverage.MarkerFreeAnswersAll` | app/services/transforms/executor.py:322-325 | answers, options, hints and dates without the marker answer the whole target version |
| `OptionMaps.CheckboxMapLegalIff` | app/services/transforms/executor.py:154-181 | no checkbox answer whatever migrates through a map to an illegal selection if and only if every comma-free option maps to legal selections |
| `OptionMaps.GeneratedCheckboxMap` | app/services/transforms/diff_service.py:166-184 | the map generated without hints is legal if and only if every kept option is, once stripped, empty or still an option |
| `OptionMaps.KeptOptionRejected` | app/services/submissions/answer_validator.py:196-204 | every kept option that fails the condition is itself an answer that becomes illegal |
| `OptionMaps.TrimmedOptionsLegal` | app/services/transforms/diff_service.py:166-184 | target options without blank ends meet that condition |
| `OptionMaps.SingleChoiceMap` | app/services/submissions/answer_validator.py:189-194 | a dropdown or radio answer migrates to an illegal option exactly when it has commas, selects at least two pieces and their images joined are no option |
| `OptionMaps.PlainSingleChoiceLegal` | app/services/transforms/executor.py:174-181 | a comma-free dropdown or radio answer never migrates to an illegal option |
| `OptionMaps.SelectedJoin` | app/services/submissions/answer_validator.py:196-204 | what the validator selects from joined values is what it selects from each of them |
| `OptionMaps.SelectedPieces` | app/services/transforms/executor.py:162 | selected pieces are comma-free, non-empty and trimmed |
| `OptionMaps.CheckboxError` | app/services/submissions/answer_validator.py:196-204 | a checkbox answer is rejected for its options if and only if some selected piece is none |
| `GeneratedMigration.SoleFeeder` | app/services/transforms/executor.py:321-327 | a covered target key holds what its one rule yields, whatever happens to the other keys |
| `GeneratedMigration.GeneratedCompletes` | app/services/transforms/executor.py:315-359 | a migration by a generated rule set is never refused and never raises; only the validator can stop it |
| `GeneratedMigration.MigratedOptionLegal` | app/services/transforms/diff_service.py:166-184 | the program leaves no illegal option under a key whose options have migrated |
| `GeneratedMigration.SeenByValidator` | app/services/transforms/executor.py:346-358 | the validator judges a target question by the answer the run left under its key |
| `GeneratedMigration.MigrationKeepsOptionsLegal` | app/services/transforms/executor.py:315-359 | from diff to validator: such a migration reports no illegal option on such a question |
| `MigrationExamples.TruncatedRun` | app/services/transforms/executor.py:321-334 | three rules of which an optional one fails: the run stops after two and is not refused |
| `MigrationExamples.TruncatedMigration` | app/services/transforms/executor.py:321-406 | its migration switches the submission, without the third answer and without being a success |
| `MigrationExamples.BlankEndRejected` | app/services/transforms/diff_service.py:166-184 | the kept option " a" becomes an illegal selection |
| `MigrationExamples.CommaRejected` | app/services/transforms/executor.py:160-173 | the kept dropdown option "a,b" becomes an illegal value |
| `MigrationExamples.RenameFromNowhere` | app/services/transforms/diff_service.py:217-221 | a target question that names a missing source key gets no rule |
| `MigrationExamples.RenameOntoKept` | app/services/transforms/diff_service.py:144-166 | a kept key that also names another source key gets two |
| `MigrationExamples.NameLost` | app/services/transforms/executor.py:284-406 | a draft whose answer is lost to a rule set between two other versions |
| `MigratedAnswers.LoadedAnswer` | app/services/transforms/executor.py:105-120 | a source question is loaded if and only if a row answers it, with the last such answer |
| `MigratedAnswers.OnlySourceKeys` | app/services/transforms/executor.py:105-120 | nothing but keys of source questions is loaded |
| `MigratedAnswers.NewRowsAnswer` | app/services/transforms/executor.py:394-404 | the new rows of a target question hold the answer that the run left under its key |
| `MigratedAnswers.MigrationCopies` | app/services/transforms/executor.py:310-404 | an executed copying rule that alone writes a target question leaves in its new row exactly the answer of the old row |
| `MigratedAnswers.ProgramCopies` | app/services/transforms/diff_service.py:144-203 | under a covered key a generated program leaves exactly the answer of the question it is renamed from, or kept from with the same options or another type that is no date |
| `MigratedAnswers.GeneratedKeepsAnswer` | app/services/transforms/executor.py:310-404 | from the old row to the new one, through such a program |
| `MigratedAnswers.ProgramDates` | app/services/transforms/diff_service.py:81-87 | a kept question that becomes a date holds what its answer parses to by the first of the formats tried |
| `MigratedAnswers.ProgramMaps` | app/services/transforms/diff_service.py:162-184 | a kept question whose options change holds what hint and target options make of its answer |
| `MigratedAnswers.NewQuestionUnanswered` | app/services/transforms/diff_service.py:217-231 | a new target question is left without an answer |
| `RoundTrips.SplitUndoesMerge` | app/services/transforms/executor.py:215-234 | SPLIT at index i of a MERGE gives back the answer of source i, for trimmed, non-empty, separator-free answers and a one-character separator |
| `RoundTrips.MergeKeepsParts` | app/services/transforms/executor.py:230-234 | splitting a merged answer gives back exactly its parts |
| `RoundTrips.InverseCopies` | app/services/transforms/executor.py:142-146 | the inverse of a copying program is one, and inverting twice gives the program |
| `RoundTrips.InverseRestores` | app/services/transforms/executor.py:142-146 | a bijective IDENTITY and RENAME program followed by its inverse restores every answer but the drop marker |
| `Sandbox.GenerateSyntheticAnswers` | app/services/transforms/sandbox.py:252-268 | every source key gets its first option or the sample of its type |
| `Sandbox.DryRun` | app/services/transforms/sandbox.py:294-380 | one rule's dry run, check by check |
| `Sandbox.ValidateRules` | app/services/transforms/sandbox.py:271-387 | one result per rule in order, and a rule set is valid if and only if nothing is found on any of its rules |
| `Sandbox.NothingFound` | app/services/transforms/sandbox.py:383-387 | the list of errors is empty if and only if each rule's is |
| `Sandbox.RulePassesIff` | app/services/transforms/sandbox.py:294-380 | a rule passes if and only if it has its parameters and keys and neither raises nor fails |
| `Sandbox.PassingReport` | app/services/transforms/sandbox.py:356-377 | a rule that passes shows what it yields, with its warnings |
| `Sandbox.SampleMeans` | app/services/transforms/sandbox.py:252-268 | the made-up answer is the first option, else the fixed one of the type |
| `Sandbox.TextToDatePasses` | app/services/transforms/sandbox.py:271-387 | a text question that becomes a date passes exactly if the made-up text parses |
| `Sandbox.SourceRulePasses` | app/services/transforms/sandbox.py:49-88 | a generated rule passes unless it coerces a made-up answer to a date that does not parse |
| `Sandbox.GeneratedPassesIff` | app/services/transforms/sandbox.py:271-387 | a generated program passes if and only if every such answer parses; without coercions to date it always does |
| `AnswerStore.AnswerDatabase.LoadSubmissionAnswers` | app/services/transforms/executor.py:105-120 | the answers under the keys of the source version, the last row of a question winning |
| `AnswerStore.AnswerDatabase.BuildRows` | app/services/transforms/executor.py:394-404 | one row for each answer whose key the target version has |
| `AnswerStore.AnswerDatabase.RunMigration` | app/services/transforms/executor.py:310-359 | everything up to validation changes nothing in the database |
| `AnswerStore.AnswerDatabase.ApplyRuleSet` | app/services/transforms/executor.py:272-410 | the whole call: guards, refusal with its log, validation, and the switch |
| `AnswerStore.AllOrNothing` | app/services/transforms/executor.py:386-406 | rows and version both switch, or neither does, and they switch exactly for an admitted real run that validates |
| `AnswerStore.OthersUntouched` | app/services/transforms/executor.py:386-406 | other submissions keep their rows and versions |
| `AnswerStore.ApplyKeepsConsistent` | app/services/transforms/executor.py:272-410 | every row keeps fitting its submission's current version, and no question is answered twice |
| `AnswerStore.AlwaysConsistent` | app/services/transforms/executor.py:272-410 | so it stays through any sequence of previews, applications and refusals |
| `AnswerStore.NewRowsFit` | app/services/transforms/executor.py:394-404 | inserted rows fit the target version and answer no question twice |
| `AnswerStore.LogAppended` | app/services/transforms/executor.py:335-410 | an admitted run that does not raise is logged with its answers before and after, its errors and its preview flag |
| `AnswerStore.OnlyKnownRowsMatter` | app/services/transforms/executor.py:284-315 | a migration is decided by the rows that answer questions of the source version, whatever version the submission is at |
| `AnswerStore.OffSourceReadsNothing` | app/services/transforms/executor.py:284-315 | for a version without common questions it is the migration of no answers |
| `AnswerStore.OffSourceSwitches` | app/services/transforms/executor.py:386-406 | such a submission is switched and its answers replaced if and only if that migration validates, and otherwise nothing happens to it |
| `BulkMigrate.Selection` | app/services/transforms/bulk_migrate.py:67-76 | exactly the eligible submissions at the source version, each once |
| `BulkMigrate.MigrateAll` | app/services/transforms/bulk_migrate.py:32-133 | the loop with its counters yields the specified report and database |
| `BulkMigrate.ReportedIff` | app/services/transforms/bulk_migrate.py:67-123 | a submission has a result if and only if it is listed, a draft or returned, at the source version, and asked for |
| `BulkMigrate.Totals` | app/services/transforms/bulk_migrate.py:78-133 | one result per selected submission, and total = succeeded + failed + skipped |
| `BulkMigrate.TurnJudges` | app/services/transforms/bulk_migrate.py:95-123 | a result is a success exactly if the migration's log has no error entry |
| `BulkMigrate.ResultsJudged` | app/services/transforms/bulk_migrate.py:83-123 | the results are those of the submissions as they were before the run, whatever the turns before have changed |
| `BulkMigrate.DryRunPredicts` | app/services/transforms/bulk_migrate.py:32-133 | a dry run reports exactly the results and counts of the real run and changes no answer and no version |
| `BulkMigrate.LoopSwitches` | app/services/transforms/bulk_migrate.py:83-123 | after a real run a selected submission is at the target if its migration validates, and is otherwise as it was |
| `BulkMigrate.SecondSelection` | app/services/transforms/bulk_migrate.py:67-76 | a second real run selects only submissions that could not switch |
| `BulkMigrate.SecondRunIdle` | app/services/transforms/bulk_migrate.py:32-133 | a second real run changes no answer and no version and reports no success |
| `Submissions.SubmissionRow.constructor` | app/services/submissions/service.py:526-581 | creation records the first history entry |
| `Submissions.SubmissionRow.UpdateFields` | app/services/submissions/service.py:734-759 | only drafts, and only the fields that are set |
| `Submissions.SubmissionRow.TransitionStatus` | app/services/submissions/service.py:782-844 | the guards in their order, the new status, the reviewer and the history entry |
| `Submissions.SubmissionRow.SubmitDraft` | app/services/submissions/service.py:847-888 | validation, its record and the transition to submitted |
| `Submissions.HistoryPath` | app/services/submissions/service.py:50-79 | the history is always a path from creation along the valid transitions to the current status |
| `Submissions.PerformPath` | app/services/submissions/service.py:505-523 | a call only ever appends to the history and never changes the creator |
| `Submissions.FieldsFromCreation` | app/services/submissions/service.py:734-759 | each field is what creation gave it, until an allowed update sets it |
| `Submissions.FieldsOfLastUpdate` | app/services/submissions/service.py:734-759 | from any state on, and updates are allowed exactly in draft to those who may access it |
| `Submissions.ReviewerOnRecord` | app/services/submissions/service.py:820-826 | the reviewer on record is the one of the last decision in the history |
| `Submissions.FinalStays` | app/services/submissions/service.py:50-79 | completed and cancelled submissions stay so |
| `Submissions.ReviewedWasSubmitted` | app/services/submissions/service.py:50-79 | what is in review, decided, returned or completed has been submitted before |
| `Submissions.ValidatedWasValid` | app/services/submissions/service.py:865-879 | a submission on record as valid went through a submit that found its form data valid |
| `Submissions.FormDataFrozen` | app/services/submissions/service.py:745-759 | form data never changes after leaving draft, not even when the submission is returned |
| `Submissions.DecidedNeedsReview` | app/services/submissions/service.py:791-801 | every approved, rejected or completed submission was decided by somebody other than its creator, or by a super admin |
| `Definitions.DefinitionRow.UpdateDefinition` | app/services/tenant_templates/service.py:603-625 | editable drafts only; a change after a review resets it |
| `Definitions.DefinitionRow.SubmitDefinition` | app/services/tenant_templates/service.py:737-773 | submission for review with its log entry |
| `Definitions.DefinitionRow.ApproveDefinition` | app/services/tenant_templates/service.py:776-818 | approval, refused to the submitter |
| `Definitions.DefinitionRow.RequestDefinitionChanges` | app/services/tenant_templates/service.py:821-853 | return to the author with its log entry |
| `Definitions.DefinitionRow.CheckKeys` | app/services/tenant_templates/service.py:684-701 | the nested loops with their sets decide that group keys differ and that question keys differ inside each group |
| `Definitions.DefinitionRow.PublishDefinition` | app/services/tenant_templates/service.py:648-716 | only approved drafts with unique keys are published |
| `Definitions.PublishedAsSubmitted` | app/services/tenant_templates/service.py:673-682 | in every run a published definition carries the metadata of its last submission for review, and the log alternates |
| `Definitions.RunSound` | app/services/tenant_templates/service.py:280-299 | a definition pending or approved carries what was submitted, and the log's length tells whether a review is pending |
| `Definitions.ApprovedByAnother` | app/services/tenant_templates/service.py:776-818 | every approved definition was approved, with the metadata it carries, by a user who may approve it |
| `Definitions.ContentOfLastUpdate` | app/services/tenant_templates/service.py:603-625 | each field of the metadata is what the last allowed update of it has set |
| `Definitions.ApproverIsNotSubmitter` | app/services/tenant_templates/service.py:793-802 | where logins are enforced nobody approves what they have last submitted |
| `Definitions.ReviewOnRecord` | app/services/tenant_templates/service.py:776-853 | while a review stands, reviewer and last log entry are those of that review |
| `Definitions.GroupsOfLastEdit` | app/services/tenant_templates/service.py:982-987 | in every run a definition's groups are those of its last allowed edit, whatever its review; published ones have unique keys |
| `Definitions.UnreviewedQuestionPublished` | app/services/tenant_templates/service.py:858-959 | a run that publishes a question added after the approval |
| `DeepMerge.MergePathwise` | app/services/tenant_templates/service.py:51-59 | every path shows the override's value where the override cuts, a merged dict where both have dicts, and the base's value elsewhere |
| `DeepMerge.MergeSelf` | app/services/tenant_templates/service.py:51-59 | merging a tree with itself changes nothing |
| `DeepMerge.MergeTwice` | app/services/tenant_templates/service.py:51-59 | applying the same override again changes nothing |
| `Permissions.PermissionClosure` | app/core/authz.py:141-151 | the stack search terminates despite duplicate pushes and returns exactly the reachable permissions |
| `Permissions.Push` | app/core/authz.py:148-150 | the inner loop pushes exactly the unvisited successors |
| `Permissions.ClosureIdempotent` | app/core/authz.py:107-151 | a closure contains its start and is its own closure |
| `Permissions.ClosureMonotone` | app/core/authz.py:107-151 | granting more never reaches less |
| `Permissions.ClosureOfUnion` | app/core/authz.py:107-151 | two grants together reach what either reaches |
| `Permissions.ValidateRole` | app/core/authz.py:154-177 | a set is accepted if and only if it reaches none of the role's forbidden permissions |
| `Permissions.AcceptedIffNoneForbidden` | app/core/authz.py:114-139 | with the implications as they stand, if and only if it contains none |
| `Permissions.RolesKeptApart` | app/core/authz.py:154-177 | a maker set is accepted exactly without reading all and transition, a checker set exactly without create, update, delete and submit |
| `Permissions.GrantsReachReading` | app/core/authz.py:114-139 | each implying grant reaches reading its resource, a transition by way of reading all |

## Left out

- Database sessions, commits, eager loading and concurrency between requests: tables are maps and sequences, a commit succeeds, an exception rolls the call back.
- Timestamps beyond set or unset, display names, correlation ids, journeys, flow keys, rule snapshots, review notes, reasons and error texts: no result depends on them.
- HTTP routes, request schemas, Temporal transport, its retry policy and timeouts, and the polling that waits for a run to change; a failing activity is tried again by the model's workflow step.
- `VerificationChallenges.AgreementPasses`: does not compute rounding to four digits, because scores are real numbers and rounding is a library parameter.
- `VerificationRows.InitializeSteps`: takes the fields of an entry other than its key as parsed, and lists new rows in the order of their entries.
- `Workflow.CarriedOutIsPrefix`: assumes that the activities are run by the workflow only, and that an activity has carried out its action exactly when it completes; a completion lost after the commit, which Temporal would answer by running the activity again, is not modelled.
- Binary floating point: scores, thresholds and numeric conditions are real numbers.
- `Executor.ApplyOperation`: takes parameters of their declared types, so what the source does with ill-typed ones is not modelled; of errors and warnings it keeps rule ids and counts.
- `DiffService.GenerateRuleSet`: leaves out the guards on template ownership and on an existing rule set; hints are strings, and the fresh id of a rule is its position.
- `Sandbox.ValidateRules`: counts the warnings of a rule without their texts; the answers collected on the way are dropped, as the source drops them.
- `Forms.QuestionMap`: takes the questions of a version as one list; the ordering of groups and questions by display order happens before it.
- `Definitions.DefinitionRow.PublishDefinition`: does not switch the template's active version and does not trigger the generated rule set, whose failure the source ignores. Creating the first definition of a template as its active version is not modelled either.
- `GeneratedMigration.MigrationKeepsOptionsLegal`: covers questions without a value hint; with hints the exact condition on the map is that of `OptionMaps.CheckboxMapLegalIff`.
- Deleting submissions and definitions, the guards on copied groups and questions, rule-set and product maintenance, comments, search filters, column masking, tenant provisioning, token checks and policy caches are not modelled.
- Today's date in age computations: the COMPUTE evaluator is one fixed function.
