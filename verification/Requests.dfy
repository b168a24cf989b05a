/** Optional values, and how a request to Vault or to Kubernetes may end. */
module Requests {

  datatype Option<+T> = None | Some(value: T)

  /** Done and acknowledged, done but reported as failed, or not done. */
  datatype Fate = Done | DoneButError | NotDone
}
