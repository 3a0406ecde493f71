/** What the pages receive from the repositories, and the notification log.
    A repository call resolves to a JavaScript object that may carry a
    `message` property (a server- or transport-reported failure text) and
    a payload. The pages test that property in two different ways, and the
    two tests disagree on an empty message. */
module Replies {

  datatype Option<+T> = None | Some(value: T)

  /** A resolved repository call: `message` is `None` when the property is
      `undefined`, and `data` is the payload the page reads on success. */
  datatype Reply<+T> = Reply(message: Option<string>, data: T)

  /** A notification raised through the toast library, kept only as a log entry. */
  datatype Toast = ErrorToast(text: string) | SuccessToast(text: string)

  /** The test `reply.message !== undefined`. */
  predicate HasMessage<T>(reply: Reply<T>)
  {
    reply.message.Some?
  }

  /** The test `if (reply.message)`: a string is truthy exactly when it is not empty. */
  predicate HasTruthyMessage<T>(reply: Reply<T>)
  {
    reply.message.Some? && reply.message.value != ""
  }

  /** The two tests agree on every reply except one whose message is the
      empty string: that one passes the "defined" test and fails the
      truthiness test. */
  lemma MessageTestsDiffer<T>(reply: Reply<T>)
    ensures HasTruthyMessage(reply) ==> HasMessage(reply)
    ensures HasMessage(reply) && !HasTruthyMessage(reply) <==> reply.message == Some("")
  {
  }
}
