/** The payment status enumeration and its transition table. */
module PaymentStatuses {

  datatype PaymentStatus = Pending | Completed | Failed | Overdue | Canceled

  const AllStatuses: set<PaymentStatus> := {Pending, Completed, Failed, Overdue, Canceled}

  /** The permitted (source, destination) pairs, written out as data. */
  const Transitions: set<(PaymentStatus, PaymentStatus)> :=
    { (Pending, Completed), (Pending, Failed), (Pending, Overdue), (Pending, Canceled),
      (Failed, Pending), (Failed, Canceled),
      (Overdue, Completed), (Overdue, Canceled) }

  /** Whether a payment in status `current` may move to `next`. */
  function CanTransitionTo(current: PaymentStatus, next: PaymentStatus): (r: bool)
    ensures r <==> (current, next) in Transitions
  {
    match (current, next)
    case (Pending, Completed) => true
    case (Pending, Failed) => true
    case (Pending, Overdue) => true
    case (Pending, Canceled) => true
    case (Failed, Pending) => true
    case (Failed, Canceled) => true
    case (Overdue, Completed) => true
    case (Overdue, Canceled) => true
    case _ => false
  }

  predicate IsFinal(status: PaymentStatus) {
    status == Completed || status == Canceled
  }

  /** A human-readable description of each status. */
  function GetDescription(status: PaymentStatus): (d: string)
    ensures |d| > 0
  {
    match status
    case Pending => "Payment is pending."
    case Completed => "Payment has been completed."
    case Failed => "Payment failed. Please try again."
    case Overdue => "Payment is overdue!"
    case Canceled => "Payment has been canceled."
  }

  /** Exactly eight pairs are permitted. */
  lemma TransitionCount()
    ensures (set a, b | a in AllStatuses && b in AllStatuses && CanTransitionTo(a, b) :: (a, b)) == Transitions
    ensures |Transitions| == 8
  {
    var s := set a, b | a in AllStatuses && b in AllStatuses && CanTransitionTo(a, b) :: (a, b);
    forall p | p in Transitions ensures p in s {
      assert p.0 in AllStatuses && p.1 in AllStatuses;
    }
    TransitionsSize();
  }

  lemma TransitionsSize()
    ensures |Transitions| == 8
  {
    var t1 := {(Pending, Completed), (Pending, Failed), (Pending, Overdue), (Pending, Canceled)};
    var t2 := {(Failed, Pending), (Failed, Canceled)};
    var t3 := {(Overdue, Completed), (Overdue, Canceled)};
    assert Transitions == t1 + t2 + t3;
    assert |t1| == 4 && |t2| == 2 && |t3| == 2;
    assert t1 !! t2 && (t1 + t2) !! t3;
  }

  /** No status may transition to itself. */
  lemma NoSelfTransition(s: PaymentStatus)
    ensures !CanTransitionTo(s, s)
  {
  }

  /** IsFinal holds exactly for Completed and Canceled; final statuses have no
      way out and every other status has at least one. */
  lemma FinalIffNoOutgoing(s: PaymentStatus)
    ensures IsFinal(s) <==> s in {Completed, Canceled}
    ensures IsFinal(s) <==> forall t :: !CanTransitionTo(s, t)
  {
    if !IsFinal(s) {
      assert CanTransitionTo(s, Canceled);
    }
  }

  /** Canceled is one step away from every non-final status. */
  lemma CancelReachable(s: PaymentStatus)
    requires !IsFinal(s)
    ensures CanTransitionTo(s, Canceled)
  {
  }

  /** Completed is entered only from Pending or Overdue, Failed only from Pending. */
  lemma EntryPoints(s: PaymentStatus)
    ensures CanTransitionTo(s, Completed) <==> s == Pending || s == Overdue
    ensures CanTransitionTo(s, Failed) <==> s == Pending
  {
  }

  /** The five descriptions are pairwise distinct. */
  lemma DescriptionsDistinct(a: PaymentStatus, b: PaymentStatus)
    ensures GetDescription(a) == GetDescription(b) <==> a == b
  {
    if a != b {
      var da, db := GetDescription(a), GetDescription(b);
      assert |da| != |db| || da[11] != db[11];
    }
  }
}
