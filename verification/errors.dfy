/** The failures the core raises, one variant per exception it throws, carrying
    the data the exception carries (messages are not modelled). */
module Errors {
  import opened Wrappers
  import opened Primitives

  /** Why a property is not available (`PropertyNotAvailableException`). */
  datatype NotAvailableReason =
    | Unavailable(propertyId: Guid)   // raised by the lease orchestrator with the property id
    | AlreadyListed                   // `ListForRent` on a listed property
    | HasActiveLeases                 // `ListForRent` with an Active lease

  /** Which state-machine rule an `InvalidOperationException` reports. */
  datatype TransitionRule =
    | OnlyPendingCanActivate
    | OnlyActiveCanExpire
    | ExpiredCannotBeCanceled

  /** The reason of an `ArgumentException` raised by a value object or entity. */
  datatype ArgumentIssue =
    | NegativeAmount
    | BlankCurrency
    | BlankAddressField
    | ShortZipCode
    | AddressRequired
    | NewAddressRequired

  datatype Error =
    | InvalidLeasePeriod
    | OverduePayment(renterId: Option<Guid>)          // None: the message-only constructor
    | PropertyNotAvailable(reason: NotAvailableReason)
    | InvalidOperation(rule: TransitionRule)
    | Argument(issue: ArgumentIssue)
    | ArgumentNull(parameter: string)                 // a guard saw null
    | ArgumentEmpty(parameter: string)                // a guard saw ""
    | NotPositive(parameter: string)                  // a guard saw a value <= 0
    | NotFound(typeName: string, id: Guid)
    | NullReference                                   // a null entity was dereferenced
    | Format                                          // `Guid.Parse` rejected its input
}
