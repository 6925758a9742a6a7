/** Operations as they travel between the decryptor, the executor and the channel buffers. */
module Operations {
  import opened Common

  datatype RequestType =
    | Users | AddMessageType | ReadChannel | AddChannel | CloseChannel
    | SubscribeChannel | ChannelEncrypt | TransactionEncrypt

  datatype Operation = Operation(
    requestType: RequestType,
    timestamp: Time,
    issuerId: string,
    certifierId: string,
    payload: string,
    buffered: bool)

  /** Whether a failed decryption or verification ends the operation for good. */
  predicate ShouldDrop(op: Operation) {
    !(op.requestType.AddMessageType? && !op.buffered)
  }

  function Marked(op: Operation): Operation {
    op.(buffered := true)
  }
}
