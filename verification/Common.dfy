/** Shared value types. */
module Common {

  datatype Option<+T> = None | Some(value: T)

  // What a wait state is put down to.
  datatype Reason =
    | DeviceIdle | WaitForDevice | BlockingTransfer
    | MpiCollective | MpiLateSender | MpiLateReceiver | MpiLateSendRecv
    | OmpBarrier | Unclassified
}
