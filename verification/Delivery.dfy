/** The protocol spoken and the results of a delivery, as server and client hold them
    (smtpserver/state.go, result.go). */
module Delivery {
  datatype Mode = SMTP | LMTP

  datatype RecipientResult = RecipientResult(recipient: string, code: int) {
    predicate Accepted() { 200 <= code < 300 }
  }
}
