/** The kinds of fault a sweep reports, and one reported problem. */
module Detect {

  datatype Kind =
    | OOMKilled | CrashLoopBackOff | ImagePullBackOff | CreateContainerError | ContainerError
    | Unschedulable | Evicted | NotReady | RestartStorm
    | MemoryPressure | CPUPressure
    | PVCPending | VolumeMountFailed
  {
    /** A forecast rather than a confirmed failure; never drives a rollback. */
    predicate Predictive() {
      MemoryPressure? || CPUPressure?
    }

    predicate Storage() {
      PVCPending? || VolumeMountFailed?
    }

    function Name(): string {
      match this
      case OOMKilled => "OOMKilled"
      case CrashLoopBackOff => "CrashLoopBackOff"
      case ImagePullBackOff => "ImagePullBackOff"
      case CreateContainerError => "CreateContainerError"
      case ContainerError => "ContainerError"
      case Unschedulable => "Unschedulable"
      case Evicted => "Evicted"
      case NotReady => "NotReady"
      case RestartStorm => "RestartStorm"
      case MemoryPressure => "MemoryPressure"
      case CPUPressure => "CPUPressure"
      case PVCPending => "PVCPending"
      case VolumeMountFailed => "VolumeMountFailed"
    }
  }

  /** No two kinds of problem go by one name. */
  lemma KindsAreNamedApart(a: Kind, b: Kind)
    requires a.Name() == b.Name()
    ensures a == b
  {
  }

  datatype Problem = Problem(namespace: string, pod: string, container: string, kind: Kind)
}
