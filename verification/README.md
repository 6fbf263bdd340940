# Verified model of the Ares workbench and its change lens

The project models five parts of the repository and proves what they promise over all inputs, runs and interleavings.

1. **Workflow runs** (`Contracts`, `Validation`, `Catalog`, `RunEngine`, `Honesty`, `RunTheorems`, `Dispatching`,
   `RunEvents`, `Outcomes`, `Approvals`, `WorkBound`, `Endless`, `Stranded`, `Coordinator`, `Backend`). `RunEngine` is
   the run state machine as functions; handler answers, the backend's choice of nodes, cancellation, deadlines and
   failing event sinks are unconstrained inputs. `Coordinator` is the coordinator class over its stores, each method
   tied to the engine's functions. The theorems are about every history of starts, resumes, rewinds, decisions and
   stops: those of `Honesty` of any definition, those about completion of every catalog workflow. `Dispatching` and
   `RunEvents` say exactly, from what happens around a call, what each dispatch, drive and event makes of a run.
2. **The acceptance protocol around an external implementer** (`Direct`, `DirectTheorems`, `DirectSteps`,
   `DirectVerify`, `DirectVerdict`, `DirectDelivery`, `DirectHistory`, `DirectBaseline`, `DirectRework`,
   `DirectCauses`, `DirectService`). Sources and project policies may change between any two commands. A log of what was seen, and
   when, carries the evidence; one inductive invariant over all commands, with verification composed from part 1,
   gives the theorems. `DirectCauses` and `DirectVerdict` say exactly when each command is taken and what it leaves.
   `DirectService` is the service class.
3. **The OLD/NEW graph comparison** (`GraphDiff`, `GraphCompare`, `GraphTheorems`, `GraphMirror`, `GraphCopy`,
   `GraphInput`). The loops visit keys and edges in any order and are proved equal to a specification that mentions no
   order.
4. **The queue protocol** (`Queue`, `QueueTheorems`, `QueueMarks`, `QueueTrace`, `QueueCauses`, `QueueWork`,
   `QueueHistory`, `QueueService`). One step is one lock-protected section, or one unlocked access of the single worker
   to the stores; all interleavings are covered. `QueueCauses`, `QueueWork` and `QueueHistory` say exactly what each
   request and move stores, and what only it can.
5. **Smaller algorithms** (`CommandLine`, `Versions`, `Chains`, `ChainCuts`, `Assemblies`).

Some promises turned out not to hold as one would state them. Each has a witness and an exact condition, both ways:

- *Validation bounds the work.* A run can go on for ever on a valid definition (`Endless.CircleIsValidAndEndless`,
  `Endless.DetourIsValidAndUnbounded`); `Endless.WorkIsBoundedExactly` says on which. All catalogs are chains, where
  `WorkBound` has the tighter bound.
- *No run is left Running.* It holds for a drive, but not for a decision
  (`Stranded.ApprovedRunIsStranded`, `Outcomes.DecisionLeavesRunningExactly`).
- *One task owns a project.* Feedback moves a Ready task to Rework without the check for another writer
  (`DirectRework.TwoOwnersAreReached`, `DirectHistory.OneOwnerExactly`).
- *Implementation begins from the agreed baseline.* Only at Ready, which plain feedback leaves
  (`DirectRework.ChangedBaselineIsReached`, `DirectBaseline.FirstBeginSeesBaselineExactly`).
- *Stored approvals are well formed.* Begin stores an approval it did not need unchecked
  (`DirectRework.EmptyApprovalIsReached`, `DirectHistory.ApprovalsHoldExactly`).
- *One run or discussion keeps a project busy.* The failure handler of the worker writes back a task record it read outside
  the lock, which can bring back a stopped discussion beside another task's run (`QueueTrace.TwoOwnersAreReached`,
  `QueueTheorems.OneOwnerExactly`).
- *Uncut enumeration covers every relationship.* A cycle nothing leads into is skipped and not reported
  (`Chains.RootlessCycleIsSkipped`, `Chains.UncutChainsAreExact`).
- *A reported cut means a path was cut.* A root that leads only to itself is counted as left over when the enumeration
  is full (`ChainCuts.NothingIsCutThere`, `ChainCuts.CutExactly`).

Assumptions: fingerprints and digests stand for the values they are taken of (SHA-256 as injective); run, task and
request ids drawn at random are fresh.

## Model

| member | source | states |
|---|---|---|
| Catalog.CatalogIsChain | src/Ares.Workbench.Application/MvpWorkflowCatalog.cs:8-58 | Every definition of the five catalogs passes validation, and its success routes are one chain in the declared node order, with every rework route leading to the policy target, earlier on the chain or off it. |
| Catalog.CatalogBuilt | src/Ares.Workbench.Application/WorkflowCatalog.cs:14-36 | Every definition is its chain routes plus rework routes, including the Fusion variant, whose filters drop exactly the preparation node and its route. |
| Catalog.WorkflowIdNamesDefinition | src/Ares.Workbench.Application/WorkflowCoordinator.cs:46-54 | A catalog workflow id names one kind and risk, so a resume, which compares ids, only goes on with the definition the run was started on. |
| Catalog.FusionKeeps | src/Ares.Workbench.Application/MvpWorkflowCatalog.cs:8-16 | What the Fusion filters keep of the thin definition: everything but preparation, in order. |
| Catalog.ReworkGoesBack | src/Ares.Workbench.Application/MvpWorkflowCatalog.cs:17-58 | Every node that may send work back comes after `codex`, where the work is sent. |
| Catalog.CatalogIsGuarded | src/Ares.Workbench.Application/MvpWorkflowCatalog.cs:17-58 | In every definition the test comes straight after the work and delivery last; there is a review unless the risk is Fast, and the owner's approval straight after it exactly for Critical risk outside Direct; and how many rework rounds there are. |
| Catalog.ReworkLeadsBack | src/Ares.Workbench.Application/WorkflowCatalog.cs:32-33 | Which nodes may send work back, exactly: a review, the test in Direct, Fusion and all but Fast classic definitions, and the classic independent verification; always to the policy target. |
| Catalog.NodesAreGuarded | src/Ares.Workbench.Application/WorkflowCatalog.cs:22-28 | Only the implementer may write, only the owner's node is human, no node retries, and which nodes are agents. |
| Validation.ValidationIsExact | src/Ares.Workbench.Domain/Contracts.cs:27-47 | A definition passes exactly when node ids and the exits of routes are distinct, every name used is that of a node, limits are positive, texts are not blank, and no human node retries. |
| RunTheorems.DispatchKeeps | src/Ares.Workbench.Application/WorkflowCoordinator.cs:101-171 | Any dispatch attempt, whatever handler, cancellation, deadline or event sink does, keeps the run invariant: chain position, honest numbering, rework limit, proper waiting; versions and history only grow. |
| RunTheorems.AdvanceKeeps | src/Ares.Workbench.Application/WorkflowCoordinator.cs:172-191 | Leaving a succeeded node completes the run only when every chain node ended in success in chain order, and otherwise moves to the next node. |
| RunTheorems.DecideKeeps | src/Ares.Workbench.Application/WorkflowCoordinator.cs:192-205 | A matching decision settles the waiting last entry only, keeps its attempt number, and closes the current chain prefix when it approves. |
| RunTheorems.ApplyKeeps | src/Ares.Workbench.Application/WorkflowCoordinator.cs:46-59 | Start, resume, decision, rewind to test, stop, block and any other write of the task keep the invariant from any state that has it. |
| RunTheorems.PlayKeeps | src/Ares.Workbench.Application/WorkflowCoordinator.cs:101-191 | The invariant holds after any sequence of such events, and any continuation only appends to the history, except that a waiting last entry may be settled. |
| RunTheorems.CatalogRunInv | src/Ares.Workbench.Application/WorkflowCoordinator.cs:24-45 | Every reachable run of every catalog workflow: attempt numbers equal counts, rework stays within its limit across resumes, a waiting run waits at its human node for exactly its version. |
| RunTheorems.CompletedRunWasRetested | src/Ares.Workbench.Application/WorkbenchService.cs:81-86 | In every reachable Completed run each chain node's last execution succeeded and these stand in chain order, so the last test follows the last write, and the last review the last test, across rework, pause, resume, rewind and approval. |
| Honesty.DriveSettles | src/Ares.Workbench.Application/WorkflowCoordinator.cs:61-100 | However the backend call ends, driving never leaves a run Running. |
| Dispatching.DispatchRecords | src/Ares.Workbench.Application/WorkflowCoordinator.cs:109-131 | A dispatch that calls its handler appends exactly one execution, the node's next attempt: Interrupted or Cancelled when cancellation was requested before the handler was back, as a pause or not; a timeout, open as to its effect unless the node only reads, when it was late or gave up; its own answer when that keeps the result contract; and an invalid result otherwise. |
| Dispatching.DispatchEndsExactly | src/Ares.Workbench.Application/WorkflowCoordinator.cs:135-191 | Exactly when a dispatch leaves the run Paused, Cancelled, Waiting, Blocked, Failed, Completed or Running, told from what was recorded, the retries and rework rounds left, and the cancellations seen. |
| Dispatching.DispatchLeaves | src/Ares.Workbench.Application/WorkflowCoordinator.cs:138-163 | What the stopped run says of its failure, and what the waiting one waits for. |
| Dispatching.DispatchNamesExactly | src/Ares.Workbench.Application/WorkflowCoordinator.cs:143-191 | The backend is told a next node, and the run moves to one, exactly along the success route, back to the rework target while rounds are left, or once more to the same node after a transient failure with retries left; nothing else of the run changes then. |
| Dispatching.DispatchReplies | src/Ares.Workbench.Application/WorkflowCoordinator.cs:132-191 | What the backend gets back otherwise: nothing to do when the run has stopped, and an exception when it has not, a cancellation exactly when cancellation is why. |
| Dispatching.DriveEndsExactly | src/Ares.Workbench.Application/WorkflowCoordinator.cs:71-99 | What a drive makes of the run its attempts left: nothing, the stop of a pause or a cancellation with one more execution, or a runtime failure that takes a delivery back. |
| RunEvents.DecisionIsExact | src/Ares.Workbench.Application/WorkflowCoordinator.cs:192-211 | A decision that answers the pending request settles the waiting execution as it was decided and goes on as after a success; any other changes nothing. |
| RunEvents.AdvanceIsExact | src/Ares.Workbench.Application/WorkflowCoordinator.cs:172-191 | Leaving a node: an exception when there is nowhere to go, completion is not earned or cancellation was requested, and otherwise the next node, or completion and the handing over of the task. |
| RunEvents.ResumeIsExact | src/Ares.Workbench.Application/WorkflowCoordinator.cs:46-59 | Only a run that is blocked or paused somewhere is resumed, under the next version, and what stopped it is forgotten. |
| RunEvents.RewindIsExact | src/Ares.Workbench.Application/WorkbenchService.cs:80-86 | A run that stands still after a good test, at review, human or delivery, goes back to the test. |
| Outcomes.DispatchIsUnderway | src/Ares.Workbench.Application/WorkflowCoordinator.cs:101-171 | On any definition one dispatch leaves a state its last execution explains: paused by an interruption, cancelled by a cancellation, blocked by exhausted rework or an unknown effect, completed only with its conditions met. |
| Outcomes.DriveIsExplained | src/Ares.Workbench.Application/WorkflowCoordinator.cs:61-100 | On any definition a driven run ends in a state that its last execution or a runtime error explains. |
| Honesty.AnyRunIsHonest | src/Ares.Workbench.Application/WorkflowCoordinator.cs:101-205 | Every run of every definition with a rework limit, whatever its routes: after any events attempt numbers equal counts, rework stays within its limit, a waiting run waits at its human node for exactly its version; and any further events only append to the history, except that a waiting last entry may be settled. |
| Honesty.DecisionIsUsedOnce | src/Ares.Workbench.Application/WorkflowCoordinator.cs:192-204 | In no history of any run of any definition with a rework limit is one decision accepted at two points. |
| Outcomes.DecisionLeavesRunningExactly | src/Ares.Workbench.Application/WorkflowCoordinator.cs:192-209 | A decision leaves a run Running if and only if it approves and then its emission fails, or there is no success route, or completion conditions are unmet, or a cancellation is seen before the run moves on. |
| Stranded.ApprovedRunIsStranded | src/Ares.Workbench.Application/WorkflowCoordinator.cs:192-209 | From its start every shipped Critical workflow with a human node has a history that ends in Running: every handler succeeds, the human node asks, and a cancellation is seen after the owner approved. |
| Approvals.SuccessWasApproved | src/Ares.Workbench.Application/Ports.cs:27-32 | With the human handler, every successful human execution was made by one approval that matched the request pending at that moment. |
| Approvals.CriticalRunWasApproved | src/Ares.Workbench.Application/WorkflowCoordinator.cs:136-142 | A Completed Critical run got its last human success from an approved matching decision, made when the last review was already recorded. |
| WorkBound.ObedientDriveIsBounded | src/Ares.Workbench.Application/WorkflowCoordinator.cs:143-171 | A backend that dispatches what it is told stops: attempts and executions are paid by rework rounds, chain distance and retries left. |
| WorkBound.RunIsBounded | src/Ares.Workbench.Application/WorkflowCoordinator.cs:157-190 | Without cancellation or resume a chain-shaped run's history has at most (MaxReworks + 1) times the chain length plus the sum of MaxRetries executions. |
| WorkBound.CatalogRunIsBounded | src/Ares.Workbench.Application/MvpWorkflowCatalog.cs:17-58 | That bound for every catalog workflow. |
| Endless.WorkIsBoundedExactly | src/Ares.Workbench.Domain/Contracts.cs:29-51 | Validation alone does not bound the work. On a valid definition the drives of an obedient backend, whatever handlers answer, have bounded length if and only if the success routes from the current node end within as many steps as there are nodes and, when rework is left and a node on that way has a rework route, so do those from the rework target. |
| Endless.DriveIsPaid | src/Ares.Workbench.Application/WorkflowCoordinator.cs:143-191 | On any definition whose ways end so, an obedient drive has at most rework rounds left times the number of nodes, plus the steps left on the way, plus the retries left. |
| Endless.CircleIsValidAndEndless | src/Ares.Workbench.Domain/Contracts.cs:29-47 | A valid definition whose way itself never ends. |
| Endless.DetourIsValidAndUnbounded | src/Ares.Workbench.Application/WorkflowCoordinator.cs:157-169 | A valid definition whose way ends at once, and whose drives are unbounded because work that is sent back goes round in a circle. |
| Coordinator.WorkflowCoordinator.Commit | src/Ares.Workbench.Application/WorkflowCoordinator.cs:19-23 | The stored run becomes the given one under the next version; nothing else changes. |
| Coordinator.WorkflowCoordinator.Advance | src/Ares.Workbench.Application/WorkflowCoordinator.cs:172-191 | The method over the stores leaves what the engine's step computes, and touches one run and its task. |
| Coordinator.WorkflowCoordinator.Act | src/Ares.Workbench.Application/WorkflowCoordinator.cs:135-170 | Waiting, stopping, retrying, sending back and advancing leave what the engine's step computes. |
| Coordinator.WorkflowCoordinator.Dispatch | src/Ares.Workbench.Application/WorkflowCoordinator.cs:101-171 | One dispatch over the stores leaves what the engine's dispatch computes. |
| Coordinator.WorkflowCoordinator.Finish | src/Ares.Workbench.Application/WorkflowCoordinator.cs:71-99 | The exception handlers over the stores leave what the engine's handlers compute. |
| Coordinator.WorkflowCoordinator.Drive | src/Ares.Workbench.Application/WorkflowCoordinator.cs:61-100 | A drive over the stores leaves what the engine's drive computes. |
| Coordinator.WorkflowCoordinator.Start | src/Ares.Workbench.Application/WorkflowCoordinator.cs:24-45 | Refused, or a new run that stands where the engine says after creation and driving. |
| Coordinator.WorkflowCoordinator.Resume | src/Ares.Workbench.Application/WorkflowCoordinator.cs:46-59 | Refused for any state but Blocked or Paused, otherwise the engine's resumed and driven run. |
| Coordinator.WorkflowCoordinator.SubmitHuman | src/Ares.Workbench.Application/WorkflowCoordinator.cs:192-211 | Accepted exactly when the decision matches the pending request, and then the engine's decided run. |
| Backend.Reachable | src/Ares.Workbench.Adapters.AgentFramework/MicrosoftAgentFrameworkBackend.cs:25-28 | The worklist ends with exactly the nodes that routes lead to from the entry node. |
| Backend.BuildGraph | src/Ares.Workbench.Adapters.AgentFramework/MicrosoftAgentFrameworkBackend.cs:22-34 | The graph handed to the framework: reachable nodes, one edge per distinct pair of ends of their routes, and besides one loop per retryable node; none for an invalid definition. |
| Backend.ToldNodeIsReachable | src/Ares.Workbench.Adapters.AgentFramework/MicrosoftAgentFrameworkBackend.cs:31-34 | Whatever node a dispatch names next, by success, rework or retry, the graph has it and an edge to it. |
| Backend.ObedientDriveWalks | src/Ares.Workbench.Adapters.AgentFramework/MicrosoftAgentFrameworkBackend.cs:37-39 | On any definition that sends rework to its policy target, every attempt of an obedient drive is at a node of the graph and follows one of its edges. |
| Backend.CatalogReworkAtTarget | src/Ares.Workbench.Application/MvpWorkflowCatalog.cs:8-58 | All catalog and Direct definitions send rework to their policy's target, as the graph theorem asks. |
| DirectHistory.DoneHasOneFingerprint | src/Ares.Workbench.Application/DirectWorkflowService.cs:83-98 | A task is Done only if one source was seen at submission, at the start of verification, at delivery and at acceptance, in this order, under the latest agreement and its policy, and differs from the baseline only in writable paths, whatever is edited in between; the stored run is Completed, and its last test, review (unless Fast) and delivery succeeded in this order. |
| DirectHistory.OneTaskHoldsTheSource | src/Ares.Workbench.Application/DirectWorkflowService.cs:28-32 | In every reachable set of tasks at most one per project is Implementing, Submitted, Checking or AwaitingAcceptance. |
| DirectHistory.RecordsAgree | src/Ares.Workbench.Application/DirectWorkflowService.cs:53-90 | In every reachable state: stage and lifecycle correspond outside Checking, alignment and lens belong to the latest run and the submitted source, every criterion of an alignment has a result and every manual one the owner's words and their source, a begun Critical task has an approval later than its latest agreement, agreements are numbered 1..n and map every criterion. |
| DirectHistory.HistoryMovesOn | src/Ares.Workbench.Application/DirectWorkflowService.cs:22-25 | Over any further commands agreements are only appended, revisions never fall, equal revisions mean an equal task, and a Done task never changes. |
| DirectHistory.RevisionIsUsedOnce | src/Ares.Workbench.Application/DirectWorkflowService.cs:16-21 | After a command changed a task, no later command naming the same revision changes it. |
| DirectHistory.StagesFollowEdges | src/Ares.Workbench.Application/DirectWorkflowService.cs:53-246 | A command that changes a task names it and its revision and follows an edge of the nine-stage machine; verification leaves the task Checking only when it was cut off. |
| DirectHistory.EveryCriterionIsMappedOnce | src/Ares.Workbench.Application/DirectWorkflowService.cs:61-64 | An accepted mapping covers every criterion by exactly one check. |
| DirectHistory.StepKeeps | src/Ares.Workbench.Application/DirectWorkflowService.cs:43-246 | Every command, every edit of a project and every run of other tasks keeps the acceptance invariant. |
| DirectHistory.OneOwnerExceptRework | src/Ares.Workbench.Application/DirectWorkflowService.cs:176-183 | Counting Rework and Blocked as owning, a command keeps ownership exclusive if and only if it is not plain feedback on a Ready task beside another owner. |
| DirectHistory.OneOwnerExactly | src/Ares.Workbench.Application/DirectWorkflowService.cs:28-32 | In every history, counting Rework and Blocked as owning, each project has one owner at every point if and only if no plain feedback is carried out on a Ready task beside another owner. |
| DirectRework.TwoOwnersAreReached | src/Ares.Workbench.Application/DirectWorkflowService.cs:176-183 | From an empty store six commands reach two owners of one project, for any agreement. |
| DirectHistory.ApprovalsHoldExactly | src/Ares.Workbench.Application/DirectWorkflowService.cs:72-82 | In every history all stored approvals are well formed at every point if and only if no Begin was carried out with one that is not: only the approval a Critical task still needs is checked. |
| DirectRework.EmptyApprovalIsReached | src/Ares.Workbench.Application/DirectWorkflowService.cs:78-80 | From an empty store an agreement and one Begin leave an approval without a quote or a source. |
| DirectBaseline.FirstBeginSeesBaselineExactly | src/Ares.Workbench.Application/DirectWorkflowService.cs:72-82 | In every history the first Begin after each agreement sees the agreed baseline if and only if none is carried out on a changed source after plain feedback sent the task back at Ready. |
| DirectRework.ChangedBaselineIsReached | src/Ares.Workbench.Application/DirectWorkflowService.cs:72-77 | From an empty store an agreement, plain feedback and Begin start the implementation from any source of the workspace. |
| DirectSteps.AgreeKeeps | src/Ares.Workbench.Application/DirectWorkflowService.cs:53-71 | Freezing an agreement keeps the invariant and starts a new evidence trail. |
| DirectSteps.BeginKeeps | src/Ares.Workbench.Application/DirectWorkflowService.cs:72-82 | Beginning keeps the invariant; nobody else may hold the source. |
| DirectSteps.SubmitKeeps | src/Ares.Workbench.Application/DirectWorkflowService.cs:83-98 | A submission stands under the frozen agreement and policy with allowed changes only. |
| DirectSteps.CompletedRunDelivered | src/Ares.Workbench.Application/DirectWorkflowService.cs:128-138 | A Completed verification run went through a delivery that saw the source it started with. |
| DirectVerify.VerifyKeeps | src/Ares.Workbench.Application/DirectWorkflowService.cs:109-161 | Verification keeps the invariant wherever it ends: crash, refused run, failure, rework, completion, lost evidence or audit. |
| DirectVerify.VerifyCases | src/Ares.Workbench.Application/DirectWorkflowService.cs:139-160 | Which stores verification wrote, and that AwaitingAcceptance means its own run completed and was not launched in vain. |
| DirectVerdict.VerifyEndsExactly | src/Ares.Workbench.Application/DirectWorkflowService.cs:139-160 | The stage a verification leaves: Checking when it was cut off; Blocked when its run was refused, got stuck at its start or its end was not recorded; else AwaitingAcceptance exactly when the stored run is Completed, Rework exactly when it is not and says that the primary must rework, and Blocked otherwise. |
| DirectVerdict.SentBackLeavesRework | src/Ares.Workbench.Application/DirectWorkflowService.cs:99-108 | A verification whose backend dispatches what it is told until the run ends, undisturbed, and in which some handler asked for rework, leaves its task in Rework. |
| DirectDelivery.VerifierRecords | src/Ares.Workbench.Application/DirectWorkflowService.cs:121-138 | What the replaced handlers record: a delivery succeeds exactly when the source is still the one verification started with, the documents hold and the handler says so in time; another source is reported as such, and rework always hands the work back. |
| DirectDelivery.VerifyNotesExactly | src/Ares.Workbench.Application/DirectWorkflowService.cs:113-138 | A verification notes the source it starts from, and then that same source once for every successful delivery of the run it stores, and nothing else. |
| DirectCauses.AgreeIsExact | src/Ares.Workbench.Application/DirectWorkflowService.cs:53-71 | Exactly when an agreement is frozen, told from the stores and what the command sees, and everything it writes. |
| DirectCauses.BeginIsExact | src/Ares.Workbench.Application/DirectWorkflowService.cs:72-82 | The same for Begin. |
| DirectCauses.SubmitIsExact | src/Ares.Workbench.Application/DirectWorkflowService.cs:83-98 | The same for Submit: every file that is not as agreed is one the policy lets be written. |
| DirectCauses.VerifyIsExact | src/Ares.Workbench.Application/DirectWorkflowService.cs:109-114 | Exactly when a verification is started; a refused one changes nothing. |
| DirectCauses.AcceptIsExact | src/Ares.Workbench.Application/DirectWorkflowService.cs:162-175 | Exactly when the owner's acceptance is taken, and everything it writes. |
| DirectCauses.FeedBackIsExact | src/Ares.Workbench.Application/DirectWorkflowService.cs:176-183 | The same for Feedback. |
| DirectCauses.AlignIsExact | src/Ares.Workbench.Application/DirectWorkflowService.cs:190-226 | The same for Align, in every state the protocol keeps: a result for every criterion, the owner's words for every manual one and none for an automatic one. |
| DirectCauses.LensIsExact | src/Ares.Workbench.Application/DirectWorkflowService.cs:227-234 | The same for RecordLens. |
| DirectCauses.RecoverIsExact | src/Ares.Workbench.Application/DirectWorkflowService.cs:235-246 | The same for Recover. |
| DirectSteps.AcceptKeeps | src/Ares.Workbench.Application/DirectWorkflowService.cs:162-175 | Acceptance closes the trail under the same source, agreement and policy. |
| DirectSteps.AlignKeeps | src/Ares.Workbench.Application/DirectWorkflowService.cs:190-226 | A recorded alignment covers every criterion once, for the latest run and source. |
| DirectSteps.RecoverKeeps | src/Ares.Workbench.Application/DirectWorkflowService.cs:235-246 | Acknowledging an interruption blocks the task and its unfinished run without touching evidence. |
| DirectService.DirectWorkflowService.Agree | src/Ares.Workbench.Application/DirectWorkflowService.cs:53-71 | Accepted exactly under its guard; the new world is the command applied to the old one, and the invariant holds. |
| DirectService.DirectWorkflowService.Begin | src/Ares.Workbench.Application/DirectWorkflowService.cs:72-82 | The same for Begin. |
| DirectService.DirectWorkflowService.Submit | src/Ares.Workbench.Application/DirectWorkflowService.cs:83-90 | The same for Submit. |
| DirectService.DirectWorkflowService.ValidateChanges | src/Ares.Workbench.Application/DirectWorkflowService.cs:91-98 | The loop over changed paths accepts exactly changes in writable paths under the same workspace stamp. |
| DirectService.DirectWorkflowService.Drive | src/Ares.Workbench.Application/DirectWorkflowService.cs:139-143 | One dispatch after another leaves the run the engine says, and notes the source each successful delivery saw. |
| DirectService.DirectWorkflowService.Verify | src/Ares.Workbench.Application/DirectWorkflowService.cs:109-161 | The same for Verify: guards, marking, a run stepped dispatch by dispatch, the last saves, and its crash points. |
| DirectService.DirectWorkflowService.Accept | src/Ares.Workbench.Application/DirectWorkflowService.cs:162-175 | The same for Accept. |
| DirectService.DirectWorkflowService.Feedback | src/Ares.Workbench.Application/DirectWorkflowService.cs:176-183 | The same for Feedback. |
| DirectService.DirectWorkflowService.Document | src/Ares.Workbench.Application/DirectWorkflowService.cs:184-189 | The same for Document. |
| DirectService.DirectWorkflowService.Align | src/Ares.Workbench.Application/DirectWorkflowService.cs:190-226 | The same for Align. |
| DirectService.DirectWorkflowService.RecordLens | src/Ares.Workbench.Application/DirectWorkflowService.cs:227-234 | The same for RecordLens. |
| DirectService.DirectWorkflowService.Recover | src/Ares.Workbench.Application/DirectWorkflowService.cs:235-246 | The same for Recover. |
| GraphInput.ReadGraph | tools/change-lens/src/aeh_change_lens/languages/csharp/graph_diff.py:265-300 | A result is read exactly when every node and edge fits its role, ids are distinct and no edge dangles; the graph then holds exactly those nodes and edges. |
| GraphInput.RenameMap | tools/change-lens/src/aeh_change_lens/languages/csharp/graph_diff.py:312-323 | Renames are read exactly when none contradicts another, into the map they describe. |
| GraphDiff.StableKeyIgnoresRole | tools/change-lens/src/aeh_change_lens/languages/csharp/graph_diff.py:302-310 | The stable key of a C# type or method is what follows language and role, whichever role it is. |
| GraphDiff.OnlySymbolsHaveKeys | tools/change-lens/src/aeh_change_lens/languages/csharp/graph_diff.py:302-310 | Nothing but C# types and methods of either role has a stable key. |
| GraphDiff.Group | tools/change-lens/src/aeh_change_lens/languages/csharp/graph_diff.py:331-337 | Grouping holds exactly the keys that occur, each with exactly its items. |
| GraphDiff.AddMapping | tools/change-lens/src/aeh_change_lens/languages/csharp/graph_diff.py:82-108 | A pair is refused exactly when one end is mapped already, and otherwise added in both directions. |
| GraphDiff.AddUnique | tools/change-lens/src/aeh_change_lens/languages/csharp/graph_diff.py:109-130 | A pass over the keys in any order adds exactly the pairs that are alone with their key on both sides, never hits the one-to-one check, and reports exactly the other shared keys. |
| GraphCompare.ApplyHints | tools/change-lens/src/aeh_change_lens/languages/csharp/graph_diff.py:132-142 | Hints are applied in order, each to the only unmapped nodes with its labels, or the comparison is refused with that label. |
| GraphCompare.MatchNodes | tools/change-lens/src/aeh_change_lens/languages/csharp/graph_diff.py:109-163 | The three passes compute the specified mapping and limitations; the only error is a label that does not resolve. |
| GraphCompare.MatchEdges | tools/change-lens/src/aeh_change_lens/languages/csharp/graph_diff.py:172-193 | The matched edges of both sides are exactly the pairs alone with their carried key. |
| GraphCompare.Propagate | tools/change-lens/src/aeh_change_lens/languages/csharp/graph_diff.py:360-375 | Spreading over edges in any order updates exactly the unchanged mapped nodes an unmatched edge touches, and their peers. |
| GraphCompare.Compare | tools/change-lens/src/aeh_change_lens/languages/csharp/graph_diff.py:62-263 | The whole comparison equals its specification, a function of the request alone: visiting order does not matter. |
| GraphCompare.MatchingIsBijective | tools/change-lens/src/aeh_change_lens/languages/csharp/graph_diff.py:82-163 | The mapping is one to one and within the two graphs, across all three passes. |
| GraphTheorems.OnlyHintsRefuse | tools/change-lens/src/aeh_change_lens/languages/csharp/graph_diff.py:92-93 | The not-one-to-one error is unreachable; without hints no comparison is refused. |
| GraphTheorems.StableSymbolsComeFirst | tools/change-lens/src/aeh_change_lens/languages/csharp/graph_diff.py:111-130 | Symbols alone with a shared stable key are mapped to each other whatever hints and renames say, with the confidence asked for, as moved exactly when their paths differ and as the same symbol otherwise. |
| GraphTheorems.HintsAreKept | tools/change-lens/src/aeh_change_lens/languages/csharp/graph_diff.py:132-142 | Every hint ends in the mapping, between nodes with its labels and under its kind, structural, and starts moved exactly when that kind says so and updated otherwise. |
| GraphTheorems.EveryLinkIsExplained | tools/change-lens/src/aeh_change_lens/languages/csharp/graph_diff.py:109-163 | Every pair of the mapping comes from one of the three passes and says what that pass says; a pair found by structure has one kind, name and renamed path and starts unchanged. |
| GraphTheorems.EdgeChangesAreExact | tools/change-lens/src/aeh_change_lens/languages/csharp/graph_diff.py:172-200 | An edge is unchanged exactly when it has its one counterpart between the images of its ends; other old edges are removed and other new ones added. |
| GraphTheorems.LimitationsAreExact | tools/change-lens/src/aeh_change_lens/languages/csharp/graph_diff.py:118-200 | What is reported as unclear is exactly the stable keys and carried relations that several items share, and the structural keys nodes left on both sides share; the comparison is complete exactly when both graphs are and nothing is reported. |
| GraphTheorems.SummaryCounts | tools/change-lens/src/aeh_change_lens/languages/csharp/graph_diff.py:218-241 | Every number of the summary counts what its name says. |
| GraphTheorems.NoUniqueStructureIsLeft | tools/change-lens/src/aeh_change_lens/languages/csharp/graph_diff.py:144-163 | Afterwards no structural key has exactly one unmapped node on each side. |
| GraphTheorems.NothingIsLost | tools/change-lens/src/aeh_change_lens/languages/csharp/graph_diff.py:225-245 | Mapped plus removed is old and mapped plus added is new, for nodes and for edges. |
| GraphTheorems.FinalChangeIsExact | tools/change-lens/src/aeh_change_lens/languages/csharp/graph_diff.py:165-206 | Both ends of a mapping carry the same change; a pair that started unchanged ends updated exactly when a removed edge touches its old node or an added edge its new node; any other change is never overwritten. |
| GraphCompare.SpreadTwice | tools/change-lens/src/aeh_change_lens/languages/csharp/graph_diff.py:201-206 | Spreading from OLD and then from NEW reaches exactly the touched pairs. |
| GraphMirror.MappingMirror | tools/change-lens/src/aeh_change_lens/languages/csharp/graph_diff.py:109-163 | Exchanging OLD and NEW, without hints and renames, inverts the mapping. |
| GraphMirror.ComparisonMirrors | tools/change-lens/src/aeh_change_lens/languages/csharp/graph_diff.py:174-245 | It keeps every pair's change and whether the comparison is complete, swaps added with removed for nodes and edges, and keeps the updated, moved and unchanged counts. |
| GraphCopy.CopyShowsNoChange | tools/change-lens/src/aeh_change_lens/languages/csharp/graph_diff.py:62-263 | A graph with unique keys compared with its relabelled copy maps every node to its image, shows no change and no limitation. |
| QueueTheorems.OneOwnerExactly | src/Ares.Workbench.Application/WorkbenchService.cs:20-24 | Over every interleaving of requests and worker, all busy markers of a project name one run or discussion at every point if and only if no step is the failure handler's late write of a record whose discussion was busy while another marker of the project is on. |
| QueueTheorems.WriteBackIsExact | src/Ares.Workbench.Application/WorkbenchService.cs:185-195 | In every state the interleavings reach before that, the late write keeps one owner if and only if the record was quiet or nothing else is busy in the project. |
| QueueTrace.TwoOwnersAreReached | src/Ares.Workbench.Application/WorkbenchService.cs:185-195 | Eighteen steps from empty stores in which a stopped discussion is brought back beside another task's queued run. |
| QueueMarks.PlainTasksHaveOneOwner | src/Ares.Workbench.Application/WorkbenchService.cs:128-204 | Without discussion tasks one owner holds over every interleaving, unconditionally. |
| QueueMarks.EachAskingIsTakenOnce | src/Ares.Workbench.Application/WorkbenchService.cs:143-150 | Over every interleaving each mark is taken at most as often as it was asked for, and while it stands it has an item in the queue. |
| QueueTheorems.StaleResumeIsRefused | src/Ares.Workbench.Infrastructure/SqliteWorkbenchStore.cs:83-93 | A run cancelled while its resume is being prepared is not resumed, whatever else is requested in between: the version check refuses the commit. |
| QueueTheorems.LostStopKeeps | src/Ares.Workbench.Application/WorkbenchService.cs:91-117 | A stop whose own update loses the version check to the worker still leaves one owner. |
| QueueTheorems.BusyIsMarked | src/Ares.Workbench.Application/WorkbenchService.cs:21-24 | The busy check over its tables is exactly whether some marker of the project is on. |
| QueueTheorems.HandleKeeps | src/Ares.Workbench.Application/WorkbenchService.cs:45-127 | Every request section keeps one owner. |
| QueueTheorems.WorkKeeps | src/Ares.Workbench.Application/WorkbenchService.cs:128-204 | Every step of the worker but the late write that revives a busy discussion beside another marker keeps one owner. |
| QueueTheorems.RestartKeeps | src/Ares.Workbench.Application/WorkbenchService.cs:207-227 | After a restart nothing is busy. |
| QueueCauses.RequestsChangeTasks | src/Ares.Workbench.Application/WorkflowFusionService.cs:36-162 | Which request changes which task and how, exactly: a message, a stop, a freeze, a return to discussion, an acceptance and a rejection, each only where it may be made; no other task changes, and only drafts and idle discussions are created. |
| QueueCauses.StartIsExact | src/Ares.Workbench.Application/WorkbenchService.cs:45-59 | A start that may be made queues a new ticket; any other changes nothing. |
| QueueCauses.ResumeIsExact | src/Ares.Workbench.Application/WorkbenchService.cs:60-90 | The same for a resume, with the rewind stored under a new version. |
| QueueCauses.CancelIsExact | src/Ares.Workbench.Application/WorkbenchService.cs:100-117 | The same for a cancellation. |
| QueueCauses.DecisionIsExact | src/Ares.Workbench.Application/WorkbenchService.cs:118-127 | The same for a decision, queued as it was made. |
| QueueCauses.MessageIsExact | src/Ares.Workbench.Application/WorkflowFusionService.cs:36-46 | The same for a message to a discussion. |
| QueueHistory.JudgementIsExact | src/Ares.Workbench.Application/WorkflowFusionService.cs:147-162 | A step makes a task Done exactly when the owner accepts its delivery, and takes a delivery back to its discussion exactly when the owner rejects it. |
| QueueHistory.DoneWasAccepted | src/Ares.Workbench.Application/WorkflowFusionService.cs:147-162 | Over every interleaving a task is Done only because its owner once accepted a delivery of it. |
| QueueHistory.SettleIsExact | src/Ares.Workbench.Application/WorkbenchService.cs:131-136 | A settled decision lets the run go on exactly when it approves, and fails it otherwise, unless the run was stored anew. |
| QueueHistory.ReplyIsExact | src/Ares.Workbench.Application/WorkflowFusionService.cs:82-101 | A discussion that ends is idle exactly when it went well, and stopped otherwise. |
| QueueWork.TakeIsExact | src/Ares.Workbench.Application/WorkbenchService.cs:130-150 | What is taken from the queue, what no longer stands and is dropped, and how the worker goes on. |
| QueueWork.CommitsAreTheEngines | src/Ares.Workbench.Application/WorkflowCoordinator.cs:61-99 | The run states the worker may store are exactly those of the coordinator: starting a created run, what a dispatch makes of a running one, what the handlers around the backend call make of any, and blocking a rejected one. |
| QueueWork.DriveIsExact | src/Ares.Workbench.Application/WorkbenchService.cs:170-173 | A state is stored only over the run as it was read; a completed run hands its task to the owner, or delivers it. |
| QueueWork.ReturnIsExact | src/Ares.Workbench.Application/WorkbenchService.cs:174-178 | How a driven run closes its ticket and is waited for. |
| QueueWork.StoringIsExact | src/Ares.Workbench.Application/WorkbenchService.cs:196-198 | The failure handler stores a stop only over the run as it was read, and never over a completed one. |
| QueueWork.RestartIsExact | src/Ares.Workbench.Application/WorkbenchService.cs:207-227 | What a restart makes of every task, ticket and run. |
| QueueService.WorkbenchService.Busy | src/Ares.Workbench.Application/WorkbenchService.cs:21-24 | Answers whether the project is busy. |
| QueueService.WorkbenchService.UpdateRun | src/Ares.Workbench.Infrastructure/SqliteWorkbenchStore.cs:83-93 | Stores the next version exactly when the stored one is the version that was read. |
| QueueService.WorkbenchService.RequestRun | src/Ares.Workbench.Application/WorkbenchService.cs:45-59 | Accepted exactly under its guard; the new state is the section applied to the old one, and one owner is kept. |
| QueueService.WorkbenchService.RequestResume | src/Ares.Workbench.Application/WorkbenchService.cs:60-90 | The same for a resume, with the rewind to test. |
| QueueService.WorkbenchService.RequestStop | src/Ares.Workbench.Application/WorkbenchService.cs:91-117 | The same for a stop. |
| QueueService.WorkbenchService.RequestApproval | src/Ares.Workbench.Application/WorkbenchService.cs:118-127 | The same for an approval. |
| QueueService.WorkbenchService.RequestDiscussion | src/Ares.Workbench.Application/WorkflowFusionService.cs:36-46 | The same for a discussion. |
| QueueService.WorkbenchService.StopDiscussion | src/Ares.Workbench.Application/WorkflowFusionService.cs:47-55 | The same for stopping a queued discussion. |
| QueueService.WorkbenchService.ReturnToDiscussion | src/Ares.Workbench.Application/WorkflowFusionService.cs:137-146 | The same for reopening a discussion. |
| QueueService.WorkbenchService.FreezeReady | src/Ares.Workbench.Application/WorkflowFusionService.cs:111-127 | The same for freezing the agreement. |
| QueueService.WorkbenchService.OwnerAcceptance | src/Ares.Workbench.Application/WorkflowFusionService.cs:147-162 | The same for accepting or rejecting a delivery. |
| QueueService.WorkbenchService.Take | src/Ares.Workbench.Application/WorkbenchService.cs:128-150 | Taking the head of the queue is the worker's first section. |
| CommandLine.Parse | src/Ares.Workbench.Infrastructure/ProjectWorkspace.cs:36-50 | The character loop computes the specified result, errors included. |
| CommandLine.ParseInvertsRender | src/Ares.Workbench.Infrastructure/ProjectWorkspace.cs:36-50 | Every non-empty list of arguments, empty ones, quotes and operators included, has a rendering that parses back to exactly that list. |
| CommandLine.WordsAreRead | src/Ares.Workbench.Infrastructure/ProjectWorkspace.cs:36-50 | Words separated by white space, each of bare and quoted pieces in any mixture, are read as what their pieces say. |
| CommandLine.AcceptedTextsAreWords | src/Ares.Workbench.Infrastructure/ProjectWorkspace.cs:36-50 | Every accepted text is written as such words, and its arguments are what they say. |
| CommandLine.ArgumentsAreKept | src/Ares.Workbench.Infrastructure/ProjectWorkspace.cs:36-50 | The arguments of an accepted text, one after another, are exactly its characters without delimiting quotes and unquoted white space. |
| CommandLine.AcceptedTexts | src/Ares.Workbench.Infrastructure/ProjectWorkspace.cs:39-49 | A text is accepted if and only if its quotes are balanced, no operator stands outside them and some argument is there; and which error any other text gets. |
| Versions.VersionKey | tools/change-lens/src/aeh_change_lens/languages/csharp/unity_context.py:185-201 | The key method computes the specified key. |
| Versions.ReadableExactly | tools/change-lens/src/aeh_change_lens/languages/csharp/unity_context.py:185-201 | A version can be read exactly when it has two or three numbers and, after a hyphen, nothing but identifiers of letters, digits and hyphens. |
| Versions.NumbersAreRead | tools/change-lens/src/aeh_change_lens/languages/csharp/unity_context.py:185-201 | Three numbers in decimal notation have the key of these three numbers, released. |
| Versions.DecimalIsRead | tools/change-lens/src/aeh_change_lens/languages/csharp/unity_context.py:191 | Digits are read as the number they write in decimal notation. |
| Versions.FoldedAt | tools/change-lens/src/aeh_change_lens/languages/csharp/unity_context.py:200 | Letters lose their case and nothing else changes. |
| Versions.KeysAreOrdered | tools/change-lens/src/aeh_change_lens/languages/csharp/unity_context.py:190-201 | Keys are totally ordered, so versions are totally preordered. |
| Versions.VersionsFollowSemVer | tools/change-lens/src/aeh_change_lens/languages/csharp/unity_context.py:185-201 | The order given to two readable version strings is their precedence under section 11 of Semantic Versioning 2.0.0, up to letter case. |
| Versions.KeysFollowSemVer | tools/change-lens/src/aeh_change_lens/languages/csharp/unity_context.py:190-201 | The order of keys is the precedence of section 11 on keys, up to letter case. |
| Versions.IdentsFollowSemVer | tools/change-lens/src/aeh_change_lens/languages/csharp/unity_context.py:196-200 | Identifiers compare as rule 11.4 says, up to letter case. |
| Versions.MissingPatchIsZero | tools/change-lens/src/aeh_change_lens/languages/csharp/unity_context.py:188-201 | A version of two numbers has the key of the one with third number zero, with or without pre-release and build labels, and is unreadable exactly when that one is. |
| Versions.IntervalIsExact | tools/change-lens/src/aeh_change_lens/languages/csharp/unity_context.py:216-233 | An interval selects exactly the versions between its endpoints, each included or not as its bracket says, and is unreadable unless both endpoints can be read and are in order. |
| Versions.BracketsHoldOneOrTwo | tools/change-lens/src/aeh_change_lens/languages/csharp/unity_context.py:216-233 | Nothing but one version, or two with a comma between them, can be read between brackets. |
| Versions.ExactIsInterval | tools/change-lens/src/aeh_change_lens/languages/csharp/unity_context.py:219-224 | A bracketed version selects what the interval from it to itself selects. |
| Versions.MinimumIsUpwardClosed | tools/change-lens/src/aeh_change_lens/languages/csharp/unity_context.py:234-235 | A bare version selects itself and everything above what it selects. |
| Versions.SelectionIsConvex | tools/change-lens/src/aeh_change_lens/languages/csharp/unity_context.py:204-235 | A version between two selected ones is selected. |
| Chains.ChainBuilder.Visit | tools/change-lens/src/aeh_change_lens/reporting/change_story.py:914-939 | The recursive visit appends and truncates as the enumeration function says. |
| Chains.ChainBuilder.Run | tools/change-lens/src/aeh_change_lens/reporting/change_story.py:941-947 | The loop over the roots does as the enumeration function says. |
| Chains.ChainsAreSound | tools/change-lens/src/aeh_change_lens/reporting/change_story.py:894-948 | At most 16 chains, each a simple connected path of one to eight hops from a root. |
| Chains.UncutChainsAreExact | tools/change-lens/src/aeh_change_lens/reporting/change_story.py:914-948 | If nothing was cut, a relationship is on some chain if and only if a simple path from a root ends with it. |
| ChainCuts.CutExactly | tools/change-lens/src/aeh_change_lens/reporting/change_story.py:894-948 | On distinct relationships a cut is reported exactly when some simple path from a root lies on no chain, or the enumeration is full with roots left; the second implies the first whenever every root leads to another node. |
| ChainCuts.NothingIsCutThere | tools/change-lens/src/aeh_change_lens/reporting/change_story.py:914-947 | Seventeen relationships on which a cut is reported although no simple path from a root is missing: the root left over leads only to itself. |
| ChainCuts.RootsAre | tools/change-lens/src/aeh_change_lens/reporting/change_story.py:905-909 | A root is a source nothing leads to, or any source when each is led to; there is one whenever there is a relationship. |
| Chains.AcyclicChainsAreComplete | tools/change-lens/src/aeh_change_lens/reporting/change_story.py:894-948 | On acyclic relationships, if nothing was cut, every relationship lies on some chain. |
| Chains.RootlessCycleIsSkipped | tools/change-lens/src/aeh_change_lens/reporting/change_story.py:907-909 | Acyclicity is needed: a cycle nothing leads into, beside a rooted part, is skipped and nothing is reported cut. |
| Assemblies.BuildGraph | tools/change-lens/src/aeh_change_lens/languages/csharp/unity_context.py:382-418 | The stack ends on cyclic references; it fails exactly when a reachable assembly fails to build otherwise than by a missing project, and else holds exactly the reachable buildable assemblies, each once, with their references once, and names exactly the missing ones. |
| Assemblies.EachReferenceOnce | tools/change-lens/src/aeh_change_lens/languages/csharp/unity_context.py:382-418 | The dependencies of distinct assemblies are their references, each as often as its assembly has it, and no others. |
| Assemblies.CompleteGraphIsClosed | tools/change-lens/src/aeh_change_lens/languages/csharp/unity_context.py:409-418 | In a complete graph every reference that is not analyzer-only leads to an assembly of the graph. |

## Left out

- Processes, Git, the Codex command line, Roslyn, SQLite, JSON, files and reparse points: foreign code or I/O; stores are maps and snapshots are values, and what is read from outside is a parameter.
- Wall-clock time: timestamps and the order of runs by start time are not modelled; a deadline is a parameter of the attempt it cuts short.
- The agent framework itself: only the graph it is given, and dispatches in any order or along its edges.
- Node ids are a datatype of the shipped names and any other name, so two ids are equal exactly when their names are; node handler names are dropped.
- Message texts, reports, audit event contents and redaction.
- A run's pause request is read once per exception handler, where the source may read it more than once.
- Commands of the acceptance protocol other than Verify are one step each, although they await a source snapshot between reading and saving; the writer lease of the command line tool keeps other commands out.
- DirectSteps.AlignKeeps: the artifacts behind automatic criteria are one flag; what is proved is that the recorded criteria are all the agreed ones, each once, for the latest run and source.
- DirectService.DirectWorkflowService.Align: the same flag stands for the artifact names of automatic criteria.
- Paths compare exactly, where the source ignores letter case.
- GraphCompare.Compare: the basis texts, rendered nodes and digest are not part of the result; mappings are keyed by their old node instead of a hash of both ends.
- Projects with acceptance-protocol tasks are outside the queue theorems, because that service writes tickets and runs without the queue's lock.
- The methods of QueueService.WorkbenchService and DirectService.DirectWorkflowService run alone; interleavings are covered by the steps they are tied to. A stop that loses its update to the worker is a step of its own.
- Checkpoints, fingerprints of tasks, Ready anchors and approval records of the queue protocol are folded into the flags of the requests. A cancelled run need not stay cancelled there, and nothing claims it.
- SaveReadyDraft and SaveProject: neither changes anything that makes a project busy.
- Versions.KeysFollowSemVer: digits, letters and spaces are ASCII; the key of a Unity version is a parameter of the expression lemmas.
- Chains: roots and relationships come in any order instead of the sorted one; chain ids are left out.
- Assemblies.BuildGraph: what building one assembly's context does is a parameter; the results hold for every builder with finitely many buildable assemblies.
- Compile and build manifests, snapshot resolution, the scenario recipes of the story builder, web pages and the legacy scenario runner.
