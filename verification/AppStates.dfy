/** States, operations and admission tables of an application manager. */
module AppStates {

  /** `NoState` is the empty string: a manager that has no state yet. */
  datatype State =
    | NoState
    | Pending | Downloading | Installing | Initializing | Running
    | Resuming | Upgrading | ApplyingEnv | Stopping | Uninstalling
    | PendingCanceling | DownloadingCanceling | InstallingCanceling | InitializingCanceling
    | ResumingCanceling | UpgradingCanceling | ApplyingEnvCanceling
    | PendingCancelFailed | DownloadingCancelFailed | InstallingCancelFailed
    | UpgradingCancelFailed | ApplyingEnvCancelFailed | ResumingCancelFailed
    | PendingCanceled | DownloadingCanceled | InstallingCanceled | InitializingCanceled
    | ResumingCanceled | UpgradingCanceled | ApplyingEnvCanceled
    | Stopped | Uninstalled | Failed
    | DownloadFailed | InstallFailed | StopFailed | UpgradeFailed
    | ApplyEnvFailed | ResumeFailed | UninstallFailed

  datatype OpType = InstallOp | UninstallOp | UpgradeOp | StopOp | ResumeOp | CancelOp | ApplyEnvOp

  datatype AppType = App | Middleware

  /** The operations a manager in the given state accepts. */
  predicate IsOperationAllowed(s: State, op: OpType) {
    match s
    case NoState | PendingCanceled | DownloadingCanceled | InstallingCanceled
      | Uninstalled | DownloadFailed | InstallFailed => op.InstallOp?
    case Pending | Downloading | Installing | Initializing | Upgrading | ApplyingEnv | Resuming
      | PendingCancelFailed | DownloadingCancelFailed => op.CancelOp?
    case InstallingCancelFailed | UpgradingCancelFailed | ApplyingEnvCancelFailed =>
      op.CancelOp? || op.UninstallOp?
    case StopFailed => op.StopOp? || op.UpgradeOp? || op.UninstallOp?
    case ResumeFailed => op.ResumeOp? || op.UpgradeOp? || op.ApplyEnvOp? || op.UninstallOp?
    case UninstallFailed => op.UninstallOp?
    case UpgradeFailed => op.UninstallOp? || op.UpgradeOp?
    case ApplyEnvFailed => op.UninstallOp? || op.ApplyEnvOp?
    case Running => op.UninstallOp? || op.UpgradeOp? || op.ApplyEnvOp? || op.StopOp?
    case Stopped => op.UninstallOp? || op.UpgradeOp? || op.ApplyEnvOp? || op.ResumeOp?
    case _ => false
  }

  predicate IsCanceling(s: State) {
    match s
    case PendingCanceling | DownloadingCanceling | InstallingCanceling | InitializingCanceling
      | ResumingCanceling | UpgradingCanceling | ApplyingEnvCanceling => true
    case _ => false
  }

  /** The states in which the deletion webhook refuses to delete a manager. */
  predicate IsOperating(s: State) {
    match s
    case Pending | Downloading | Installing | Initializing | Resuming | Upgrading | ApplyingEnv
      | Stopping | Uninstalling => true
    case _ => IsCanceling(s)
  }

  /** Target of a cancel operation; `NoState` (the zero value) when the switch has no case. */
  function CancelState(s: State): State {
    match s
    case Pending | PendingCancelFailed => PendingCanceling
    case Downloading | DownloadingCancelFailed => DownloadingCanceling
    case Installing | InstallingCancelFailed => InstallingCanceling
    case Initializing => InitializingCanceling
    case Resuming => ResumingCanceling
    case Upgrading => UpgradingCanceling
    case ApplyingEnv => ApplyingEnvCanceling
    case _ => NoState
  }

  /** A cancel is admitted but has no target in exactly the two states its switch forgets. */
  lemma CancelWithoutTargetExactly(s: State)
    requires IsOperationAllowed(s, CancelOp)
    ensures CancelState(s) == NoState <==> s == UpgradingCancelFailed || s == ApplyingEnvCancelFailed
    ensures CancelState(s) != NoState ==>
      IsCanceling(CancelState(s)) && forall op :: !IsOperationAllowed(CancelState(s), op)
  {
  }
}
