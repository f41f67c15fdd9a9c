# Verification of the application service

A Dafny model of the controllers that run applications on the cluster, with proofs of what
they keep over whole runs. `dafny verify dfyconfig.toml` checks the project.

## What is modelled

**The application lifecycle** (`AppStates`, `Lifecycle*`, `Engine`). An application manager
moves through 41 states (one of them the empty one). An operator operation sets its state, the controller reconciles it,
a factory keeps at most one in-progress operation per name, and the operation's watcher
writes the outcome. `Lifecycle` gives every step as a function on values: what a reconcile,
a timeout, a finished operation, an operator, a deletion and a restart of the process do to
the manager and to the factory's entry. `LifecycleLaws` says what each of them means for one
application, without the layers in between, and what follows for runs. What helm, the image service, the clock and the API
server answer is an oracle, so a theorem about all runs covers all answers. `Engine` is the
same in the form of the source: classes whose methods update the factory's map under its
mutex and the stored managers, each proved to compute exactly the step function. The mutex
is a flag that `Lock` requires to be free, so that no method locks it twice is proved with
the methods.

**The lock layer** (`LockLayer`). Operations with identities and phases, the factory's
critical sections as steps, any interleaving. Only here can a removal by name hit the entry
of another operation.

**Status history** (`OpHistory`). The bounded operation records and the generation counter
of one manager under its three writers.

**Environment propagation** (`EnvSync`, `EnvProtocol`, `EnvConvergence`, `EnvApply`,
`EnvEntries`). The loop that copies SystemEnv and UserEnv values into an AppEnv, and the
annotation handshake of the three controllers: every read and every write of the store is a
step, any may fail, steps interleave, the process may restart, and every read comes from a
cache that lags behind the store by any number of versions. Beside convergence: that changed
references are applied, and that no entry is invented or lost.

**Image download** (`ImageStatus`, `ImageProtocol`, `PollProgress`, `PullJobs`). Agents on
all nodes write into one status object, with cached reads; one poller folds it to the least
progress.

**Smaller cores.** `ExposePorts` (port allocation), `NetworkPolicy` (policies of a
namespace), `NodeAlert` (hourly alerts), `FanOut` (bounded parallel inspection), `TopLoad`
(the two applications to suspend).

## Where the code differs from its own documentation

* `pkg/appstate/state_transition.go:50-173` documents the valid transitions. The code never
  makes five of them and makes many others: `LifecycleEdges.EdgesExactly` gives the exact
  relation.
* Nine declared states are never written (`LifecycleReach.ReachableExactly`), among them
  UpgradingCancelFailed.
* The factory's unknown-in-progress error does occur, in exactly two situations
  (`LifecycleSafety.UnknownInProgressExactly`, both reached by runs): a running helm operation
  has written Initializing early (`pkg/appinstaller/helm_ops_install.go:547-572`), or a
  middleware installation was cancelled while it waited for its launch and then wrote the
  Initializing it had chosen (`pkg/appstate/installing_app.go:119-143`).
* Cancelling is admitted in UpgradingCancelFailed and ApplyingEnvCancelFailed, but the cancel
  switch has no target for them. The webhook then stores the empty state and the HTTP handler
  keeps the current one; the model does the same (`AppStates.CancelWithoutTargetExactly`).
* A canceling state does not by itself stop an operation that is still registered: the exact
  condition is `LifecycleRuns.CancelHoldsExactly`.
* A changed reference that asks to be applied can stay unapplied for good when helm clears
  NeedApply between the read and the patch of the run that found it: the patch does not send
  NeedApply, and the controller goes on with the object the server returned
  (`EnvApply.ChangeIsLost`). In every other case it is applied (`EnvApply.ChangedIsApplied`).
* The record list of the recommend and middleware handlers is cut before the new record is
  added: when it is full, every second record is lost (`OpHistory.DirectLosesEverySecond`).
* Preset expose ports are never checked, and drawn numbers are not checked against them;
  `ExposePorts.PortsNeverClashExactly` says exactly when nothing clashes.
* The per-metric counter of the load selection can pass over a candidate when a list repeats
  its first namespace; `TopLoad.ChosenAreFirstTwoExactly` says exactly when it does.

## Assumptions

* Run layer: a reconcile is atomic and reads the current store; cancelling an entry and the
  wake-up of its watcher are one step; a helm operation that is cancelled before its worker
  has chosen a final write makes none. Polling operations, and a middleware installation that
  waits for its launch, have chosen theirs and make it.
* Environment: sources are created and updated, not deleted; source names are not empty; the
  watch delivers the versions of an object in order, possibly skipping some, and only for
  writes that changed it; a work queue holds a key at most once and never hands out a key that
  is being worked on.
* Images: each (node, image) is pulled once with one size, and a node completes only after its
  own pulls have ended (`pkg/images/puller.go:172-179` waits for the progress writer).
* Fractions are exact numbers; formatting with two decimals rounds ties to even.

## Model

| member | source | states |
|---|---|---|
| AppStates.CancelWithoutTargetExactly | pkg/apiserver/handler_webhook.go:1265-1284 | Among the states whose admission table allows a cancel, exactly UpgradingCancelFailed and ApplyingEnvCancelFailed have no cancel target; every other target is a canceling state in which no operation is allowed. |
| Engine.StatefulAppFactory.New | pkg/appstate/factory.go:29-66 | Under a free mutex: the decision fresh / in progress / unknown in progress for a manager's state and the name's entry; the mutex is free again. |
| Engine.StatefulAppFactory.WaitForPolling | pkg/appstate/factory.go:68-95 | Registers exactly when the name has no entry; every other entry is untouched. |
| Engine.StatefulAppFactory.ExecAndWatch | pkg/appstate/factory.go:97-139 | Starts and registers unless an operation of the same state is already there; overwrites one of another state. |
| Engine.StatefulAppFactory.Remove | pkg/appstate/factory.go:141-152 | Removes the name's entry, whichever it is, and returns it. |
| Engine.AppMgrController.UpdateStatus | pkg/appstate/types.go:50-79 | Writes state and generation + 1 exactly when the manager exists and the patch succeeds; no other manager changes. |
| Engine.AppMgrController.ExecPending | pkg/appstate/pending_app.go:66-122 | The counting loop and the write under the factory's lock: Downloading is written exactly when no manager is downloading and both requests succeed. |
| Engine.AppMgrController.ExecDownloading | pkg/appstate/downloading_app.go:92-120 | Registers polling, or writes DownloadFailed when the image manager cannot be created. |
| Engine.AppMgrController.ExecResuming | pkg/appstate/resuming_app.go:42-73 | Registers polling, or writes ResumeFailed when scaling up fails. |
| Engine.AppMgrController.ExecHelm | pkg/appstate/installing_app.go:48-157 | Registers the helm operations of Installing, Initializing, Upgrading, ApplyingEnv and Uninstalling; writes nothing itself. |
| Engine.AppMgrController.ExecStopping | pkg/appstate/suspending_app.go:44-75 | Writes Stopped or StopFailed. |
| Engine.AppMgrController.CancelAndWake | pkg/appstate/factory.go:141-152 | Removes the entry and makes the write its watcher still makes: ResumeFailed, InstallingCancelFailed, or what a launching middleware installation had chosen. |
| Engine.AppMgrController.ExecInstallingCanceling | pkg/appstate/installing_canceling_app.go:57-82 | Cancels the entry first, with the write that one still makes, then registers its own polling or writes InstallingCancelFailed. |
| Engine.AppMgrController.ExecCanceling | pkg/appstate/download_canceling_app.go:43-64 | The canceling states that remove the entry and write their successor; two of them do nothing when the image manager cannot be marked. |
| Engine.AppMgrController.ExecApplyingEnvCanceling | pkg/appstate/applying_env_canceling_app.go:39-61 | Removes the entry, writes Stopping, and ApplyingEnvCancelFailed when that write fails. |
| Engine.AppMgrController.ForceDeleteApp | pkg/appstate/types.go:96-139 | Writes Uninstalled exactly when the deletion and the patch succeed. |
| Engine.AppMgrController.Cancel | controllers/appmgr_controller.go:110-120 | What a timed-out state writes, and which of them also remove the entry. |
| Engine.AppMgrController.LoadAndRun | controllers/appmgr_controller.go:103-143 | Loads through the factory, then cancels when late, runs when fresh, and does nothing for an operation in progress. |
| Engine.AppMgrController.LoadRunning | pkg/appstate/running_app.go:21-67 | A running app whose Application object is missing is force-deleted; lookup errors change nothing. |
| Engine.AppMgrController.Reconcile | controllers/load.go:23-192 | One reconcile of any name changes manager and entry exactly as the specification step does, and nothing of any other name. |
| Engine.AppMgrController.Watch | pkg/appstate/factory.go:121-136 | The end of an operation: entry removed by name, then the final status written, whatever the manager's state is by then. |
| Engine.AppMgrController.MarkStartedUp | pkg/appinstaller/helm_ops_install.go:547-572 | The early Initializing write of a running helm operation of an app, at most once per operation. |
| Engine.AppMgrController.MarkLaunching | pkg/appstate/installing_app.go:119-129 | A middleware installation has chosen to write Initializing and waits for its launch; nothing is written yet. |
| Engine.AppMgrController.Operate | pkg/apiserver/handler_webhook.go:1217-1284 | An operator operation is accepted exactly when the admission table allows it, and sets the state both doors give it. |
| Engine.AppMgrController.DeleteManager | pkg/apiserver/handler_webhook.go:1083-1110 | Deletion succeeds exactly when the state is not an operating state. |
| Engine.AppMgrController.ReconcileAll | controllers/appmgr_controller.go:76-100 | The periodic pass is a run of reconciles in list order, for any list and any answers. |
| Engine.AppMgrController.PerformAll | controllers/appmgr_controller.go:103-153 | Any sequence of reconciles, watcher ends, early writes, launches, operator operations and deletions moves the two stores as a run, and from a fresh process entries and managers always agree. |
| LifecycleSafety.RunKeepsJoint | pkg/appstate/factory.go:29-152 | In every run with any number of applications, every in-progress entry agrees with its manager: same state, its cancel target, or back in Initializing after an early write or after the cancel of a launching middleware. |
| LifecycleSafety.LiveEntryBlocksDeletion | pkg/appstate/state_transition.go:313-332 | While an operation is in progress the manager is in an operating state and the webhook refuses its deletion. |
| LifecycleSafety.UnknownInProgressExactly | pkg/appstate/factory.go:38-63 | The unknown-in-progress error arises exactly when Initializing was written by the entry's own operation ahead of its end, or by the middleware installation the entry cancels. |
| LifecycleSafety.NeverUnknownInProgress | pkg/appstate/factory.go:38-63 | In runs in which neither an early write nor a waiting middleware occurs the error never arises, and an entry is the manager's own operation or the one its canceling state cancels. |
| LifecycleSafety.RegisteringCancelsWriterExactly | pkg/appstate/installing_app.go:119-143 | A reconcile that cancels one operation and registers another cancels one that still writes if and only if that is a middleware installation waiting for its launch. |
| LifecycleReach.UnknownInProgressReachable | pkg/appinstaller/helm_ops_install.go:547-572 | An ordinary installation reaches the first unknown-in-progress situation. |
| LifecycleReach.CancelledLaunchReachesUnknown | pkg/appstate/installing_app.go:119-143 | A middleware that misses its time limit while it waits for its launch reaches the second. |
| LifecycleReach.ReachableExactly | pkg/appstate/state_transition.go:50-173 | A state is reachable from an empty cluster if and only if it is not one of the never-written ones. |
| LifecycleRuns.AtMostOneDownload | pkg/appstate/factory.go:168-185 | In every run at most one manager is downloading. |
| LifecycleRuns.DownloadingNeedsGate | pkg/appstate/pending_app.go:66-122 | No step of any kind enters Downloading except through the one-download gate. |
| LifecycleRuns.CancelHoldsExactly | pkg/appstate/installing_canceling_app.go:57-160 | From a canceling state, no run without a new operator operation reaches Installing, Initializing or Running if and only if nothing but a cancel operation is registered. |
| LifecycleRuns.CompletionBeatsCancel | pkg/appstate/installing_app.go:88-157 | A registered operation that finishes first undoes the cancel. |
| LifecycleRuns.InstalledBefore | pkg/appstate/state_transition.go:175-301 | From an empty cluster, an application in any state beyond installation has been Installing, and since then never back before it. |
| LifecycleRuns.NoLostUpdate | controllers/appmgr_controller.go:163-175 | Whatever writes an informer merges, the merged update is accepted if and only if the manager was written. |
| LifecycleLaws.EndMeans | pkg/appstate/installing_app.go:88-157 | For every registered operation, both application types and every outcome: the failed, canceling, stopping or successful state its end leads to; after an early write it is Initializing; when the write fails only the entry goes. |
| LifecycleLaws.OperationPath | pkg/appstate/uninstalling_app.go:50-94 | From a manager with nothing registered, an on-time reconcile registers its operation, a successful end brings it to that operation's goal, a failed one to its failed state. |
| LifecycleLaws.RunningNeedsDone | pkg/appstate/initializing_app.go:82-121 | A step other than to a running manager brings it to Running if and only if it is the successful end of a launch, or of the installation of a middleware. |
| LifecycleLaws.NeverRunningWithoutDone | pkg/appstate/initializing_app.go:82-121 | A run in which no operation of a name ends with success never brings it to Running. |
| LifecycleLaws.RunningLeavesExactly | pkg/appstate/running_app.go:21-67 | In every run, a step that is neither an operation nor a deletion takes a running manager elsewhere if and only if it is an app, the lookup finds its Application missing, and deletion and write succeed; then it is Uninstalled. |
| LifecycleLaws.MiddlewareStaysRunning | pkg/appstate/running_app.go:49-64 | A running middleware stays exactly as it is in every run without an operation on it or its deletion. |
| LifecycleLaws.LateMeansCancelled | controllers/appmgr_controller.go:110-120 | In the six cancellable states a late reconcile does what the operator's cancel does, and leaves the registered operation to the canceling state. |
| LifecycleLaws.LateElsewhere | controllers/appmgr_controller.go:110-120 | A late pending manager is canceled at once, a late uninstall has failed and loses its entry, a late stop is left alone. |
| LifecycleLaws.LateRemoval | pkg/appstate/installing_canceling_app.go:160-176 | A late removal of an installation has failed and loses its entry, after the write the cancelled operation still makes. |
| LifecycleLaws.TimelessElsewhere | controllers/load.go:23-192 | In every other state the result of a reconcile does not depend on the time. |
| LifecycleLaws.InProgressWaits | pkg/appstate/factory.go:38-63 | An operation in progress is left alone until its time is up. |
| LifecycleLaws.StartFails | pkg/appstate/downloading_app.go:92-120 | A start that fails: download and resume have failed, an installation or a launch is tried again, the other operations start anyway. |
| LifecycleLaws.PendingStartsExactly | pkg/appstate/pending_app.go:66-122 | In every run a pending manager starts its download if and only if no Application of its name exists, nothing is being downloaded in the whole cluster, and the requests succeed. |
| LifecycleLaws.StopMeans | pkg/appstate/suspending_app.go:44-75 | An on-time stop ends Stopped or StopFailed in one reconcile, without an entry. |
| LifecycleLaws.RestingStays | controllers/load.go:23-192 | A reconcile changes nothing in the twelve resting states. |
| LifecycleLaws.ForcedDeletion | pkg/appstate/uninstall_failed_app.go:36-51 | A failed uninstall or removal is deleted by force at every reconcile until the requests succeed. |
| LifecycleLaws.UninstalledAgain | pkg/appstate/uninstalled_app.go:20-56 | So is an uninstalled manager, exactly while its Application object still exists. |
| LifecycleLaws.CancelingMovesOn | pkg/appstate/initializing_canceling_app.go:40-54 | A canceling state removes whatever entry there is and moves on to the canceled state or to Stopping; two of them wait for the image manager first. |
| LifecycleLaws.ApplyingEnvFallsBack | pkg/appstate/applying_env_canceling_app.go:39-61 | A canceled apply whose first write fails ends ApplyingEnvCancelFailed when the second succeeds. |
| LifecycleLaws.CancelledStillWrites | pkg/appstate/resuming_app.go:98-108 | When the write of a canceling state fails, what remains is what the cancelled operation itself still writes. |
| LifecycleLaws.RemovalStarts | pkg/appstate/installing_canceling_app.go:57-82 | The removal of an installation first cancels it, with the write that one still makes, and then is registered or has failed. |
| LifecycleLaws.UnrecognisedIsCancelled | pkg/appstate/factory.go:38-63 | A reconcile that meets an entry it does not recognise cancels it and does nothing else. |
| LifecycleLaws.EarlyWriteMeans | pkg/appinstaller/helm_ops_install.go:547-572 | An early write happens once, only for an app, and only while it is installed, upgraded or given its environment. |
| LifecycleLaws.LaunchMeans | pkg/appstate/installing_app.go:119-129 | Only the installation of a middleware waits for its launch, and waiting writes nothing. |
| LifecycleLaws.OperateMeans | pkg/apiserver/handler_webhook.go:1217-1284 | An operation changes the manager if and only if its state allows it, the type is right and the webhook is used for an app; then the state it sets through either door, one generation on, the entry untouched. |
| LifecycleLaws.FailedAcceptsAgain | pkg/appstate/state_transition.go:175-301 | An uninstall, upgrade, resume or apply whose work fails leaves a state that accepts the same operation again. |
| LifecycleLaws.OthersUntouched | pkg/appstate/factory.go:13-27 | A step on one name changes no other; a restart loses the in-progress entries and no manager. |
| LifecycleLaws.DeletableExactly | pkg/apiserver/handler_webhook.go:1083-1110 | In every run from an empty cluster a manager can be deleted if and only if its state accepts some operation other than a cancel. |
| LifecycleTermination.StepLowersRank | controllers/appmgr_controller.go:103-143 | Without an operator, every step that changes the state lowers the rank, even a watcher overwriting a canceling state, and none raises it. |
| LifecycleTermination.EngineComesToRest | controllers/appmgr_controller.go:103-143 | N managers left alone change state at most 8 * N times, however long the run. |
| LifecycleEdges.EdgesExactly | pkg/appstate/state_transition.go:50-173 | From every reachable state, a step of some run from an empty cluster changes a to b if and only if (a, b) is documented and not one of five never made, or one of the listed undocumented changes. |
| LockLayer.EveryInterleaving | pkg/appstate/factory.go:68-152 | Under every interleaving: registered at most once, every entry has a live watcher of its name, finally runs at most once and only for an operation in no entry. |
| LockLayer.OrphansExactly | pkg/appstate/factory.go:83-93 | A step leaves a live operation without its entry if and only if it is a cancel, a cleanup, an overwriting registration, or a removal by an operation that does not own the entry. |
| LockLayer.UndisturbedRunsMatch | pkg/appstate/factory.go:97-139 | As long as no such step happens, the map shows exactly the live operations. |
| LockLayer.OperationMoves | pkg/appstate/factory.go:68-139 | Under every interleaving an operation moves only by its own steps, one phase after the other, and is cleaned only by a cancel of its entry or the cleanup of an unknown-in-progress error. |
| LockLayer.EntryMoves | pkg/appstate/factory.go:68-152 | Under every interleaving the entry of a name changes only to an operation of that name that is registered on a free name, or to nothing by a cancel, a watcher of that name, or a cleanup. |
| LockLayer.NewMeans | pkg/appstate/factory.go:29-66 | A new operation is handed out if and only if the name has no entry, or one of another state while the manager is canceling; otherwise an entry of another state is captured. |
| LockLayer.LiveCanFinish | pkg/appstate/factory.go:68-139 | Whatever happened before, a live operation's own three steps finish it and run its finally once. |
| LockLayer.LateRemovalHitsSuccessor | pkg/appstate/factory.go:83-93 | Removal by name does remove a successor's entry: a run that does it. |
| OpHistory.Manager.UpdateStatus | pkg/appstate/types.go:50-79 | The engine's writer: new status, generation + 1, record pushed, cut to twenty; nothing when the patch fails. |
| OpHistory.Manager.UpdateAppMgrStatus | pkg/utils/app/app.go:153-197 | The handlers' writer: generation + 1, records kept, empty fields keep their stored value. |
| OpHistory.Manager.DirectUpdateStatus | pkg/utils/app/app.go:416-449 | The third writer: generation kept, cut made on the list as read. |
| OpHistory.RecordsAreNewest | pkg/appstate/types.go:69-74 | Over any sequence of engine and handler writes from an empty list, the records are the newest twenty of everything recorded, newest first. |
| OpHistory.LastWriteWins | pkg/utils/app/app.go:153-197 | After any sequence of writes, state, message and reason are each those of the last write that sets them. |
| OpHistory.UnsetIsKept | pkg/utils/app/app.go:153-197 | A field no write sets keeps its value: an empty state, message or reason sets nothing. |
| OpHistory.DirectKeepsRecordExactly | pkg/utils/app/app.go:431-436 | The third writer keeps its record if and only if the list it read had at most twenty. |
| OpHistory.DirectLosesEverySecond | pkg/utils/app/app.go:431-436 | From an empty list it keeps the first twenty-one records, then alternates between twenty and twenty-one and loses every second one. |
| OpHistory.UpdateSeenExactly | controllers/appmgr_controller.go:163-175 | Between any two versions the update predicate accepts if and only if an engine or handler write lies between them. |
| EnvSync.AppEnv.SyncEntry | controllers/appenv_controller.go:125-176 | One entry: new value, whether it changed, whether it asks to be applied, UserEnv first. |
| EnvSync.AppEnv.SyncEnvValues | controllers/appenv_controller.go:124-178 | The loop edits the entries in place to the synced list; updated exactly when something changed; NeedApply raised exactly when an apply-on-change reference was out of sync. |
| EnvSync.SyncMeansInSync | controllers/appenv_controller.go:124-178 | A sync puts every reference in sync, keeps length, order, names and unresolved values, and a second one changes nothing. |
| EnvSync.UserShadowsSystem | controllers/appenv_controller.go:135-152 | A SystemEnv that a UserEnv shadows influences no reference. |
| EnvProtocol.StepKeepsNetOk | controllers/appenv_controller.go:53-98 | Every step keeps: caches lag by exactly the undelivered versions; annotated implies pending or being cleared; NeedApply implies pending or about to be applied; stale implies the application or its source is pending or being worked on; a run that will patch works on current entries and current lists up to pending sources. |
| EnvProtocol.StartFanCarries | controllers/systemenv_controller.go:42-110 | A source reconcile takes over every pending visit to applications its list shows as they are and not annotated. |
| EnvProtocol.SourceCarries | controllers/systemenv_controller.go:42-81 | No write, delivery, start or end of a source reconcile loses a visit an application that is not pending still needs, and a changed source is always due. |
| EnvProtocol.VisitCarries | controllers/userenv_controller.go:34-112 | A visit settles only what is due to the visited application, and only if it did not fail. |
| EnvProtocol.PatchKeeps | controllers/appenv_controller.go:174-178 | A patch computed from older lists and an older object keeps the invariant. |
| EnvProtocol.ListUsrKeeps | controllers/appenv_controller.go:114-122 | A list from the cache keeps it: it is current for every name whose source has been delivered. |
| EnvProtocol.ApplyKeeps | controllers/appenv_controller.go:77-95 | The apply phase keeps it: a failure or an active lease requeues, and success clears NeedApply as a write of its own. |
| EnvProtocol.QuiescentMeansInSync | controllers/appenv_controller.go:53-98 | In every reachable state in which nothing is queued, on its way or worked on, every reference whose source exists holds its effective value and type, UserEnv first, no annotation is left and nothing is left to apply, whatever failed and however old what was read. |
| EnvApply.PatchAsksExactly | controllers/appenv_controller.go:154-178 | A successful patch that changes an apply-on-change reference leaves NeedApply stored if and only if it was stored before or the object read did not have it, and the run goes on to apply exactly then. |
| EnvApply.PatchAsksNothing | controllers/appenv_controller.go:154-178 | A sync that changes no such reference leaves NeedApply as it is; the run goes on to apply if and only if the object it works on by then has NeedApply, and ends when its patch fails. |
| EnvApply.NeedStaysUntilSettled | controllers/appenv_controller.go:252-260 | In every run NeedApply, once stored, is cleared only by a run that had to apply and started to, or by helm applying the environment. |
| EnvApply.ChangedIsApplied | controllers/appenv_controller.go:72-98 | Between such a patch and any later state in which the controllers have nothing left to do, the application is applied, unless the run read NeedApply set and patched when it was cleared. |
| EnvApply.LostIsNotApplied | controllers/appenv_controller.go:77 | In that case the store stays without NeedApply and the run goes on without applying. |
| EnvApply.ChangeIsLost | pkg/appinstaller/helm_utils.go:312-317 | The exception is real: a run in which helm clears NeedApply between the read and the patch, the controllers finish, and the change is never applied. |
| EnvEntries.FanListsExactly | controllers/systemenv_controller.go:42-91 | A source reconcile visits exactly the applications its cache shows with a reference to its name, for a UserEnv only those of its user, and skips those shown annotated. |
| EnvEntries.VisitMeans | controllers/systemenv_controller.go:93-110 | A visit changes nothing but the annotation of the visited application, to the source's name. |
| EnvEntries.EntriesComeFromWrites | controllers/appenv_controller.go:124-178 | In every run, every list of entries that is stored, cached, on its way or at work was written by the operator, up to values, types and status of references: none is invented, dropped, reordered or renamed. |
| EnvEntries.ReadsAreCached | controllers/appenv_controller.go:41-122 | A run works on the cached object and on the sources the informer has delivered, never on the store. |
| EnvEntries.WriteAppMeans | pkg/apiserver/handler_appenv.go:76-106 | The operator's write stores the entries as given, raises NeedApply when asked to and never lowers it. |
| EnvConvergence.EveryStepLowers | controllers/appenv_controller.go:53-98 | Every delivery and every successful controller step that does anything, the write that clears NeedApply included, lowers a well-founded measure, so no schedule of them goes on for ever. |
| EnvConvergence.PatchLowers | controllers/appenv_controller.go:174-178 | A patch pays for the version it adds: it leaves clean entries, or works on outdated lists, which happens once for each change of the cache. |
| EnvConvergence.NotQuiescentMoves | controllers/systemenv_controller.go:42-81 | While anything is queued, on its way or being worked on, some delivery or successful step does something. |
| EnvConvergence.Converges | controllers/userenv_controller.go:34-83 | From every reachable state the controllers can finish, and then everything is in sync with the sources as they were. |
| ImageStatus.ComputeOffset | pkg/images/jobs.go:232-271 | The accumulating loop yields the image size when every relevant layer is finished, and the sum of the counted bytes otherwise. |
| ImageStatus.StatusAdds | pkg/images/jobs.go:232-271 | What each kind of status adds to the offset. |
| ImageStatus.OffsetNeverFalls | pkg/images/jobs.go:232-271 | As the contents of an image are pulled further its offset never falls, and it is the image size exactly when everything that counts is finished or the sum is that large. |
| ImageStatus.ImageManager.UpdateProgress | pkg/images/jobs.go:226-318 | Writes (offset, size) of one node and image exactly when the offset rises and stays within the size. |
| ImageStatus.ImageManager.SetPulledImageStatus | pkg/images/jobs.go:320-354 | Stores equal offset and total for an image that is not pulled. |
| ImageStatus.ImageManager.CompleteStatus | controllers/image_controller.go:220-294 | Fills the node's missing images and sets completed exactly when every node and image of the read object is equal after the fill; as a merge patch on the stored object. |
| ImageStatus.CheckAllCompleted | controllers/image_controller.go:258-277 | The nested loops decide whether every node is present and every image on it has offset equal to total. |
| ImageProtocol.RunKeepsCond | pkg/images/jobs.go:286-303 | In every run, offsets stay within totals, and an unfinished pull only ever stored its own size. |
| ImageProtocol.ProgressStores | pkg/images/jobs.go:286-303 | A report of an unfinished pull is stored if and only if it is more than what is stored and not more than the image; nothing else changes. |
| ImageProtocol.PulledStores | pkg/images/jobs.go:320-354 | An image that needs no pull gets an equal entry and nothing else changes. |
| ImageProtocol.EqualIsStable | pkg/images/jobs.go:286-303 | Offset equal to total holds in every later version. |
| ImageProtocol.CompleteIsSafe | controllers/image_controller.go:278-281 | A node that finds everything equal in any older version, with its fill, has everything equal in the stored object. |
| ImageProtocol.CompletedMeansAllEqual | controllers/image_controller.go:220-294 | Under every interleaving and with any cached reads, completed means offset equals total for every image on every node. |
| ImageProtocol.CompletesExactly | controllers/image_controller.go:258-281 | A node whose pulls have ended sets completed if and only if every listed image on every listed node is equal in the version read, once its own missing ones are filled in, and that version was not completed. |
| ImageProtocol.CompleteStores | controllers/image_controller.go:220-257 | It stores an equal entry for each listed image it found missing, and nothing else. |
| ImageProtocol.CompletedInTheEnd | controllers/image_controller.go:220-294 | Once all pulls have ended with equal or missing entries and every node has completed with a current read, the state is completed in every later version until somebody sets another. |
| ImageProtocol.ProgressBreaksEqualExactly | pkg/images/jobs.go:286-303 | Without the pull-once discipline, a later progress write breaks an equal entry if and only if its offset lies strictly between the stored one and its image size. |
| PollProgress.FindImageSize | pkg/images/client.go:240-247 | The size of the first listed image of that name, or the fallback. |
| PollProgress.SumNodes | pkg/images/client.go:156-186 | The nested loops hold the summed offset and total of every listed node. |
| PollProgress.Fold | pkg/images/client.go:187-201 | The progress of a snapshot is a hundred times the least node ratio; infinite without nodes or images. |
| PollProgress.UpdateProgress | pkg/images/client.go:212-238 | Publishes exactly new records, and succeeds exactly when the progress is no step back and reads 100.00. |
| PollProgress.PollDownloadProgress | pkg/images/client.go:119-210 | For any sequence of snapshots, errors and cancellation: what is published, and which tick ends the poll with which result. |
| PollProgress.RecordsIncrease | pkg/images/client.go:212-234 | Published progress strictly increases and ends with the greatest progress seen. |
| PollProgress.ReadsHundredExactly | pkg/images/client.go:217-236 | Progress reads 100.00 if and only if it lies between 99.995 and 100.005. |
| PollProgress.ProgressMeansEveryNode | pkg/images/client.go:187-201 | With offsets within totals, progress lies between 0 and 100 and reads 100.00 if and only if every node has at least 99.995% of its total. |
| PollProgress.PollsUntilHundred | pkg/images/client.go:136-210 | As long as progress stays within 100, the poll goes on exactly until a snapshot reads 100.00. |
| PollProgress.PublishedMeans | pkg/images/client.go:212-238 | For any ticks with non-empty snapshots and offsets within totals, published values strictly increase within 0 to 100. |
| PollProgress.PollMeans | pkg/images/client.go:119-238 | And the poll succeeds exactly at the first snapshot in which every node has 99.995% of its total. |
| PollProgress.SizeMeans | pkg/images/client.go:240-247 | The size found is that of the first listed image of the name, or the fallback when there is none. |
| PollProgress.ImageAdds | pkg/images/client.go:156-186 | One more listed image without a stored status leaves a node's offset and raises its total by its size; one with a status adds what is stored. |
| PollProgress.NodeCountsOnce | pkg/images/client.go:156-186 | A node listed once counts what it holds of all images once, whatever other nodes are listed. |
| PollProgress.SuccessMeansStored | pkg/images/client.go:119-238 | A poll that succeeds has seen a stored status for every listed image on every node, except for images of at most 0.005% of the node's total. |
| PollProgress.PollEnds | pkg/images/client.go:136-156 | Every tick the poll looked at was a snapshot of a download that had not failed; a failed download, a read error or a cancellation ends it with exactly that result, and nothing else but success does. |
| PollProgress.StoredWithinTotals | pkg/images/jobs.go:286-303 | Every status object the nodes can produce has its offsets within its totals. |
| PullJobs.Jobs.Add | pkg/images/jobs.go:378-388 | The kept descriptors stay the first of each digest among those met, in order. |
| PullJobs.FirstsAreDistinct | pkg/images/jobs.go:361-388 | Each digest met is kept exactly once. |
| PullJobs.FirstsInOrder | pkg/images/jobs.go:361-388 | The descriptors that were the first of their digest are kept in the order they came. |
| ExposePorts.ExistingKeys | pkg/appstate/utils.go:45-60 | The loops collect every pair of number and protocol any installed application holds. |
| ExposePorts.Draw | pkg/appstate/utils.go:72-84 | The five attempts always run and only the last one counts. |
| ExposePorts.SetExposePorts | pkg/appstate/utils.go:33-96 | In place: succeeds exactly when every last draw is available and free, and then every unnumbered port has its draw. |
| ExposePorts.ToAppTCPUDPPorts | pkg/appinstaller/appcfg_utils.go:54-74 | The nested loops build one entry for each protocol, in order. |
| ExposePorts.AllocateIsSound | pkg/appstate/utils.go:33-96 | A successful allocation keeps presets as they are, gives every other port a number of the range and pairs nobody had, and no two drawn ports share a pair. |
| ExposePorts.AllocateSucceedsExactly | pkg/appstate/utils.go:61-96 | An allocation succeeds if and only if the fifth draw of every unnumbered port gives a number whose pairs are free in the cluster and apart from those of the earlier unnumbered ports; no other draw and no preset number matters. |
| ExposePorts.AllocateGivesLastDraw | pkg/appstate/utils.go:72-92 | Each of those ports gets the number of its fifth draw, every other port keeps its own. |
| ExposePorts.ExpandedKeepsKeys | pkg/appinstaller/appcfg_utils.go:54-74 | Expanding the empty protocol keeps the set of pairs. |
| ExposePorts.ExpandedHoldsOne | pkg/appinstaller/appcfg_utils.go:54-74 | Every expanded entry holds one pair. |
| ExposePorts.ExpandedKeepsSeparated | pkg/appinstaller/appcfg_utils.go:54-74 | Ports that share no pair expand to entries that share none. |
| ExposePorts.ExpandedReflectsSeparated | pkg/appinstaller/appcfg_utils.go:54-74 | Entries that share no pair come from ports that share none. |
| ExposePorts.InstallKeepsNoClashExactly | pkg/appstate/utils.go:61-96 | A successful install keeps a cluster free of clashes if and only if its presets lie in the range, are not taken, and share no pair with another port of the application, preset or drawn. |
| ExposePorts.FitWhateverIsDrawn | pkg/appstate/utils.go:61-96 | Presets that are in range, free, apart from each other, and of other protocols than the unnumbered ports fit whatever is drawn. |
| ExposePorts.PortsNeverClashExactly | pkg/appstate/utils.go:33-116 | Over any sequence of installs and uninstalls, no pair is ever held twice within or across applications and all numbers lie in [46800, 50000), if and only if the presets of every successful install fitted. |
| ExposePorts.PortsNeverClash | pkg/appstate/utils.go:33-116 | In particular, ports that all start without a number never clash. |
| ExposePorts.PresetsAreNotChecked | pkg/appstate/utils.go:63-65 | Preset numbers are accepted unchanged whatever is taken. |
| ExposePorts.PresetsCanClash | pkg/appstate/utils.go:63-65 | Two applications that preset the same number both install and clash. |
| ExposePorts.DrawCanMeetPreset | pkg/appstate/utils.go:72-92 | Within one application a drawn number can meet a preset one. |
| NetworkPolicy.NamespaceMustAdd | controllers/security_controller.go:821-833 | The loops decide whether some peer already selects the namespace by name. |
| NetworkPolicy.PrepareMain | controllers/security_controller.go:561-582 | Adds an empty rule and the namespace's own peer where they are missing, except for the middleware policy. |
| NetworkPolicy.PreparedAllowsSelf | controllers/security_controller.go:561-582 | The prepared policy lets its namespace in (the middleware one only if it already did), and preparing again adds nothing. |
| NetworkPolicy.PolicyStore.CreateOrUpdate | controllers/security_controller.go:316-363 | It succeeds if and only if none of its requests is refused; then the policy is set and what is not wanted in its namespace is gone; otherwise every policy is as it was or as it would be then; no call touches another namespace. |
| NetworkPolicy.PolicyStore.ReconcileLive | controllers/security_controller.go:584-602 | The main policy with its fix, then the additional ones, through the same call. It succeeds if and only if no request is refused; otherwise what is stored was stored or is wanted so, and what is gone was not wanted. |
| NetworkPolicy.PolicyStore.DeleteAll | controllers/security_controller.go:604-618 | It succeeds if and only if no deletion is refused, and then the namespace has lost all its policies; otherwise the refused ones remain; nothing else changes in any case. |
| NetworkPolicy.ReconcileIsExact | controllers/security_controller.go:316-363 | From any store one successful reconcile leaves the namespace with exactly the wanted policies and specs, all others untouched. |
| NetworkPolicy.ReconcileIsIdempotent | controllers/security_controller.go:316-363 | Further reconciles change nothing, so no ingress list grows. |
| NetworkPolicy.ReconcileProfile | controllers/security_controller.go:382-559 | For every kind of namespace the policy names are distinct, the result is exact, and except for middleware the main policy lets the namespace in. |
| NodeAlert.NodeAlertController.ShouldSendAlert | controllers/node_alert_controller.go:199-208 | True without a remembered time, or when it is at least an hour old. |
| NodeAlert.NodeAlertController.SendNodeAlert | controllers/node_alert_controller.go:211-244 | A failed publish changes nothing; a successful one logs the alert and remembers its time for pressure only. |
| NodeAlert.NodeAlertController.CheckPressureStateChange | controllers/node_alert_controller.go:141-196 | One check changes the memory exactly as specified and fails exactly when a wanted alert cannot be published. |
| NodeAlert.NodeAlertController.CheckNodePressure | controllers/node_alert_controller.go:128-138 | The three types in order, stopping at the first failed publish. |
| NodeAlert.KeysAreInjective | controllers/node_alert_controller.go:166 | Keys of different nodes or types never collide, even with dashes in node names. |
| NodeAlert.AlertLog | controllers/node_alert_controller.go:141-244 | Over any checks and publish failures: the remembered pressure is the last alert's, consecutive pressure alerts are an hour apart, and a recovery always follows a pressure alert. |
| NodeAlert.ChangeIsReported | controllers/node_alert_controller.go:166-196 | After any checks, a published check whose observation differs from the last alert sends an alert; without pressure before and now, or when publishing fails, none is sent. |
| NodeAlert.LastingIsRepeated | controllers/node_alert_controller.go:180-208 | A pressure that lasts is reported again by every published check that starts an hour after the last one of its key returned. |
| NodeAlert.PressureMeans | controllers/node_alert_controller.go:144-163 | The first condition of the type decides whether there is pressure. |
| NodeAlert.NodeCheckIsRun | controllers/node_alert_controller.go:128-138 | Checking a node is a run of its three checks, each under its own key, up to the first wanted alert that is not published; so the laws of all runs hold for all nodes. |
| FanOut.NothingBlocks | controllers/image_info_controller.go:283-301 | Under every schedule at most the given number of goroutines work, and no send or release ever waits. |
| FanOut.NoDeadlock | controllers/image_info_controller.go:283-352 | Some step is enabled if and only if not all have finished. |
| FanOut.OneResultEach | controllers/image_info_controller.go:354-371 | After the wait there is exactly one result from each reference and no token is out. |
| FanOut.StepsAreBounded | controllers/image_info_controller.go:283-352 | A run takes at most three steps for each reference, exactly that many when it is over. |
| FanOut.Inspect | controllers/image_info_controller.go:292-351 | Every path of the goroutine sends exactly one result, an error exactly when a call failed. |
| FanOut.Collect | controllers/image_info_controller.go:354-371 | Infos plus errors are all results; the first error received is returned. |
| FanOut.InfosInOrder | controllers/image_info_controller.go:354-371 | The infos stand in the order in which they were received, errors left out. |
| TopLoad.GetTopLoadApps | pkg/appwatchers/suspend.go:117-144 | The loops with their counter and early returns compute the specified set. |
| TopLoad.FirstTwoMeans | pkg/appwatchers/suspend.go:117-144 | What the first two distinct entries of a list are: at most two, all of them if fewer, each before every entry left out. |
| TopLoad.ChosenAreFirstTwo | pkg/appwatchers/suspend.go:242-269 | With duplicate-free lists the chosen namespaces are the first two distinct eligible ones of the enabled lists, for both selections. |
| TopLoad.PickIsFirstTwoExactly | pkg/appwatchers/suspend.go:126-141 | For one list the counter does no harm if and only if its first two eligible entries differ or no other one follows. |
| TopLoad.ChosenAreFirstTwoExactly | pkg/appwatchers/suspend.go:117-144 | Over all metric lists the loops choose the first two distinct eligible namespaces if and only if the second one is still the first other entry among those the counter lets through. |
| TopLoad.CandidatesMeans | pkg/appwatchers/suspend.go:119-134 | The candidates are exactly the namespaces of known applications, other than the built-in ones, in the lists of metrics that are not switched off. |
| TopLoad.SwitchedOffIsIgnored | pkg/appwatchers/suspend.go:119-125 | A metric that is switched off plays no part, whatever its list. |
| TopLoad.CounterPassesOver | pkg/appwatchers/suspend.go:117-144 | Two metrics for which the counter passes over the second busiest namespace. |

## Left out

- Helm, registry, containerd, Prometheus, NATS and LLDAP calls: their answers are parameters.
- REST routing, JSON and YAML encoding, listing endpoints, user and namespace controllers: they only move data.
- `pkg/apiserver/handler_middleware.go` and the recommend handlers as lifecycle steps: they write states without asking the admission table; only their record list is modelled.
- System applications, which are created Running with generation 0 (`pkg/utils/app/app.go:305-345`).
- Stale cache reads and reconciles that are not atomic, at the run layer; late status writes of cancelled operations, at the lock layer.
- Engine.AppMgrController.ExecHelm: the work of the helm goroutines is an outcome chosen when the operation ends, because their only effect on the status is the final write and the early one.
- LockLayer.EveryInterleaving: does not say that a cancelled operation writes nothing any more; a cancelled resume still writes ResumeFailed (`pkg/appstate/resuming_app.go:98-108`).
- The env batch lease as mutual exclusion: it does not exclude other holders (`pkg/apiserver/handler_userenv.go:270-293`); an active lease is one way an apply is put off.
- What applying an environment does to the application, and deletion of AppEnvs and of sources.
- EnvSync.AppEnv.SyncEnvValues: does not model two sources of one kind with the same name in one list; object names are derived from the env name.
- ImageProtocol.CompletedMeansAllEqual: does not cover an image pulled again with another size; ProgressBreaksEqualExactly says when that would break it.
- PollProgress.Fold: does not model the rounding of binary fractions.
- PollProgress.ReadsHundredExactly: the bounds are those of exact numbers; a binary fraction next to a bound may fall on its other side.
- ExposePorts.PortsNeverClash: installs happen one after the other; two that both list the applications before either is stored are not ordered by the code.
- The Tailscale entries written after the ports are set.
- NetworkPolicy.ReconcileIsIdempotent: the changes of the per-namespace fix are a function of the spec, so applications it looks up are the same in both reconciles.
- Labels, owners and finalizers of namespaces.
