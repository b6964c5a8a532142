/** Packet codes and their classification (pkg/radius/code.go). */
module Codes {
  import opened Bytes

  const ACCESS_REQUEST: byte := 1
  const ACCESS_ACCEPT: byte := 2
  const ACCESS_REJECT: byte := 3
  const ACCOUNTING_REQUEST: byte := 4
  const ACCOUNTING_RESPONSE: byte := 5
  const ACCESS_CHALLENGE: byte := 11
  const DISCONNECT_REQUEST: byte := 40
  const DISCONNECT_ACK: byte := 41
  const DISCONNECT_NAK: byte := 42
  const COA_REQUEST: byte := 43
  const COA_ACK: byte := 44
  const COA_NAK: byte := 45

  predicate IsResponse(code: byte) {
    code in {ACCESS_ACCEPT, ACCESS_REJECT, ACCESS_CHALLENGE, ACCOUNTING_RESPONSE,
             COA_ACK, COA_NAK, DISCONNECT_ACK, DISCONNECT_NAK}
  }

  /** Requests whose authenticator is computed rather than random. */
  predicate IsComputedRequest(code: byte) {
    code == ACCOUNTING_REQUEST || code == COA_REQUEST || code == DISCONNECT_REQUEST
  }
}
