/** Reservation states and the transitions allowed between them (`state.rs`). */
module ReservationState {

  datatype State =
    | Reserved
    | Dispatching
    | DispatchedWithId
    | DispatchedIdUnknown
    | Settled
    | ConsumedUnrecoverable
    | ReleasedUnsent
    | RejectedBeforeProcessing

  /** The state carries its liability in the stored `reserved` counter. */
  predicate IsActive(s: State) {
    s.Reserved? || PossiblySent(s)
  }

  /** May have reached the provider, and is not yet resolved. */
  predicate PossiblySent(s: State) {
    s.Dispatching? || s.DispatchedWithId? || s.DispatchedIdUnknown?
  }

  datatype Transition =
    | BeginDispatch
    | AttachResponseId
    | MarkIdUnknown
    | Settle
    | Unrecoverable
    | ReleaseUnsent
    | RejectBeforeProcessing

  function Target(t: Transition): State {
    match t
    case BeginDispatch => Dispatching
    case AttachResponseId => DispatchedWithId
    case MarkIdUnknown => DispatchedIdUnknown
    case Settle => Settled
    case Unrecoverable => ConsumedUnrecoverable
    case ReleaseUnsent => ReleasedUnsent
    case RejectBeforeProcessing => RejectedBeforeProcessing
  }

  predicate AllowedFrom(t: Transition, from: State) {
    match t
    case BeginDispatch => from.Reserved?
    case AttachResponseId => from.Dispatching?
    case MarkIdUnknown => from.Dispatching?
    case Settle => from.Dispatching? || from.DispatchedWithId?
    case Unrecoverable => PossiblySent(from)
    case ReleaseUnsent => from.Reserved?
    case RejectBeforeProcessing => from.Dispatching?
  }
}
