/** The status tables of purchase orders and goods receipts. */
module ProcurementStates {

  datatype PoStatus = Draft | PendingApproval | Approved | PartiallyReceived | Received | Cancelled

  datatype GrnStatus = GrnDraft | QcPending | GrnApproved | GrnRejected

  function PoTransitions(from: PoStatus): seq<PoStatus> {
    match from
    case Draft => [PendingApproval, Cancelled]
    case PendingApproval => [Approved, Cancelled]
    case Approved => [PartiallyReceived, Received]
    case PartiallyReceived => [Received]
    case Received => []
    case Cancelled => []
  }

  predicate CanTransitionPo(from: PoStatus, to: PoStatus) {
    to in PoTransitions(from)
  }

  function GrnTransitions(from: GrnStatus): seq<GrnStatus> {
    match from
    case GrnDraft => [QcPending, GrnRejected]
    case QcPending => [GrnApproved, GrnRejected]
    case GrnApproved => []
    case GrnRejected => []
  }

  predicate CanTransitionGrn(from: GrnStatus, to: GrnStatus) {
    to in GrnTransitions(from)
  }

  /** The states in which goods can have arrived. */
  predicate InReceipt(status: PoStatus) {
    status == Approved || status == PartiallyReceived || status == Received
  }
}
