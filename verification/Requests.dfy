/** How a write request to the API server ends. */
module Requests {

  /** A lost reply means that the server stored the object although the client got an
      error. */
  datatype Reply = Accepted | Refused | LostReply

  predicate Stores(reply: Reply) { !reply.Refused? }
}
