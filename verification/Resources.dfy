/** The constants of the application: message actions and their names, the states of a client record. */
module Resources {

  /** OTHER stands for an empty or unknown action. */
  datatype Action =
    | ACCEPT
    | ACCEPTED
    | INIT_REQ
    | INIT_DONE
    | UNICAST_REPEATED
    | SV_DISCONNECTED
    | THR_DISCONNECTED
    | CL_DISCONNECTED
    | OTHER

  function ActionName(a: Action): string {
    match a
    case ACCEPT => "ACCEPT"
    case ACCEPTED => "ACCEPTED"
    case INIT_REQ => "INIT_REQ"
    case INIT_DONE => "INIT_DONE"
    case UNICAST_REPEATED => "UNICAST_REPEATED"
    case SV_DISCONNECTED => "SV_DISCONNECTED"
    case THR_DISCONNECTED => "THR_DISCONNECTED"
    case CL_DISCONNECTED => "CL_DISCONNECTED"
    case OTHER => ""
  }

  const SERVER_NAME: string := "SERVER"
  const QUIT_MSG: string := "#quit"

  const DISCONNECT_STATE: int := -1
  const INITIAL_STATE: int := 0
  const REQUESTED_INIT: int := 1
  const SENT_INIT_CONFIRMATION: int := 2
  const INITIALIZED: int := 3
}
