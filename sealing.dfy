/** The sealing part of a protocol message: sealing has no body of its own; it is
    carried by the Sealing flag bit alone. */
module Sealing {
  import opened Encoding

  /** `encodeSealingProtocolMessage`: no bytes. */
  function EncodeSealingProtocolMessage(): (message: seq<byte>)
    ensures |message| == 0
  {
    []
  }
}
