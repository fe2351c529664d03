/** The two domain failures of a withdrawal (backend/Domain/Exceptions).
    Only the kind of failure and the amount it carries are modelled; the
    formatted message text is not. */
module Exceptions {

  datatype WithdrawalError =
    | /** A negative amount was requested. The source exception carries only
          a message; `amount` stands for the amount formatted into it. */
      InvalidArgument(amount: real)
    | /** The amount cannot be formed from the available notes; carries the
          amount originally requested, not what was left over. */
      NoteUnavailable(requestedAmount: real)
}
