/** Result codes, limits and reserved names of the bus. */
module BusTypes {
  import opened Bytes

  const SUCCESS: int32 := 0
  const ERROR_GENERAL: int32 := 1
  const ERROR_INVALID_PARAM: int32 := 2
  const ERROR_INVALID_STATE: int32 := 4
  const ERROR_REMOTE_END_FAILED_TO_RESPOND: int32 := 6
  const ERROR_REMOTE_TIMED_OUT: int32 := 7
  const ERROR_MALFORMED_RESPONSE: int32 := 8
  const ERROR_UNSUPPORTED_METHOD: int32 := 9
  const ERROR_UNSUPPORTED_EVENT: int32 := 10
  const ERROR_OUT_OF_RESOURCES: int32 := 11
  const ERROR_DESTINATION_UNREACHABLE: int32 := 12
  const SUCCESS_ASYNC: int32 := 13
  const SUBSCRIBE_NOT_HANDLED: int32 := 14
  const EVENT_NOT_HANDLED: int32 := 15

  const MAX_OBJECT_NAME: nat := 128
  const MAX_EVENT_NAME: nat := 128
  const MAX_METHOD_NAME: nat := 64
  const MAX_METHODS: nat := 32

  /** "_subscribe" */
  const SUBSCRIBE: CString := [95, 115, 117, 98, 115, 99, 114, 105, 98, 101]
  /** "_unsubscribe" */
  const UNSUBSCRIBE: CString := [95, 117, 110, 115, 117, 98, 115, 99, 114, 105, 98, 101]
  /** "METHOD_RESPONSE" */
  const RESPONSE: CString := [77, 69, 84, 72, 79, 68, 95, 82, 69, 83, 80, 79, 78, 83, 69]

  /** The process-wide mutex, of the error-checking kind and used by one thread: locking it
      while it is held and unlocking it while it is free both fail and change nothing. */
  class Mutex {
    var held: bool

    constructor ()
      ensures !held
    {
      held := false;
    }

    method Lock() returns (ok: bool)
      modifies this
      ensures held && ok == !old(held)
    {
      ok := !held;
      held := true;
    }

    method Unlock() returns (ok: bool)
      modifies this
      ensures !held && ok == old(held)
    {
      ok := held;
      held := false;
    }
  }
}
