/** The click handlers of the three payment buttons. Each awaits the payment and
    only then awaits the balance refetch; a rejected payment never reaches the
    refetch. The payment hook and the refetch are outside the model: they appear
    as events in a trace, and the payment's outcome is a parameter. */
module PaymentHandlers {
  import opened StorageManager

  datatype Event =
    | Submitted(payment: PaymentAction)  // the payment hook is called
    | Confirmed                          // the awaited payment resolved
    | Rejected                           // the awaited payment rejected
    | Refetched                          // the balance refetch is called

  /** A trace of finished clicks: each is a submission followed either by its
      confirmation and a refetch, or by its rejection. */
  ghost predicate Rounds(t: seq<Event>)
    decreases |t|
  {
    || t == []
    || (|t| >= 3 && t[0].Submitted? && t[1] == Confirmed && t[2] == Refetched && Rounds(t[3..]))
    || (|t| >= 2 && t[0].Submitted? && t[1] == Rejected && Rounds(t[2..]))
  }

  /** Finished rounds, then, while a payment is processing, its submission alone. */
  ghost predicate WellFormed(t: seq<Event>, processing: bool) {
    if processing then |t| >= 1 && t[|t| - 1].Submitted? && Rounds(t[..|t| - 1])
    else Rounds(t)
  }

  lemma {:induction false} RoundsAppend(t: seq<Event>, u: seq<Event>)
    requires Rounds(t) && Rounds(u)
    ensures Rounds(t + u)
    decreases |t|
  {
    if t == [] {
      assert t + u == u;
    } else if |t| >= 3 && t[0].Submitted? && t[1] == Confirmed && t[2] == Refetched && Rounds(t[3..]) {
      RoundsAppend(t[3..], u);
      assert (t + u)[3..] == t[3..] + u;
    } else {
      RoundsAppend(t[2..], u);
      assert (t + u)[2..] == t[2..] + u;
    }
  }

  /** In a trace of finished clicks, a refetch only ever comes right after a
      confirmed payment, which comes right after its submission. */
  lemma {:induction false} RefetchFollowsConfirmedPayment(t: seq<Event>)
    requires Rounds(t)
    ensures forall i :: 0 <= i < |t| && t[i] == Refetched ==> 2 <= i && t[i - 1] == Confirmed && t[i - 2].Submitted?
    decreases |t|
  {
    if t == [] {
    } else if |t| >= 3 && t[0].Submitted? && t[1] == Confirmed && t[2] == Refetched && Rounds(t[3..]) {
      RefetchFollowsConfirmedPayment(t[3..]);
      forall i | 3 <= i < |t| && t[i] == Refetched
        ensures t[i - 1] == Confirmed && t[i - 2].Submitted?
      {
        assert t[3..][i - 3] == t[i];
      }
    } else {
      RefetchFollowsConfirmedPayment(t[2..]);
      forall i | 2 <= i < |t| && t[i] == Refetched
        ensures 2 <= i - 2 && t[i - 1] == Confirmed && t[i - 2].Submitted?
      {
        assert t[2..][i - 2] == t[i];
      }
    }
  }

  /** In a trace of finished clicks, each submission is immediately followed by
      its own outcome (no second payment starts while one is processing), and a
      rejection is never followed by a refetch. */
  lemma {:induction false} PaymentsNeverOverlap(t: seq<Event>)
    requires Rounds(t)
    ensures forall i :: 0 <= i < |t| && t[i].Submitted? ==> i + 1 < |t| && (t[i + 1] == Confirmed || t[i + 1] == Rejected)
    ensures forall i :: 0 <= i < |t| && t[i] == Rejected ==> i + 1 == |t| || t[i + 1].Submitted?
    decreases |t|
  {
    if t == [] {
    } else if |t| >= 3 && t[0].Submitted? && t[1] == Confirmed && t[2] == Refetched && Rounds(t[3..]) {
      PaymentsNeverOverlap(t[3..]);
      forall i | 3 <= i < |t| ensures t[3..][i - 3] == t[i] { }
    } else {
      PaymentsNeverOverlap(t[2..]);
      forall i | 2 <= i < |t| ensures t[2..][i - 2] == t[i] { }
    }
  }

  /** The action buttons of one mounted panel, with the payment hook's pending flag
      (which disables every button) and the trace of calls they have made. */
  class ActionButtons {
    var isProcessingPayment: bool
    var trace: seq<Event>

    ghost predicate Valid()
      reads this
    {
      WellFormed(trace, isProcessingPayment)
    }

    constructor ()
      ensures Valid()
      ensures !isProcessingPayment && trace == []
    {
      isProcessingPayment := false;
      trace := [];
    }

    /** A click on the button of `offer`: ignored while a payment is processing
        (the button is disabled); otherwise the offer's triple is submitted. */
    method Click(offer: Offer)
      requires Valid()
      modifies this
      ensures Valid()
      ensures old(isProcessingPayment) ==> isProcessingPayment && trace == old(trace)
      ensures !old(isProcessingPayment) ==> isProcessingPayment && trace == old(trace) + [Submitted(offer.payment)]
    {
      if !isProcessingPayment {
        assert (trace + [Submitted(offer.payment)])[..|trace|] == trace;
        trace := trace + [Submitted(offer.payment)];
        isProcessingPayment := true;
      }
    }

    /** The awaited payment settles with `succeeded`: on success the handler goes
        on to the refetch; on rejection the refetch line is never reached. */
    method Settle(succeeded: bool)
      requires Valid()
      modifies this
      ensures Valid()
      ensures !isProcessingPayment
      ensures !old(isProcessingPayment) ==> trace == old(trace)
      ensures old(isProcessingPayment) && succeeded ==> trace == old(trace) + [Confirmed, Refetched]
      ensures old(isProcessingPayment) && !succeeded ==> trace == old(trace) + [Rejected]
    {
      if isProcessingPayment {
        var pending := trace[..|trace| - 1];
        var round := if succeeded then [trace[|trace| - 1], Confirmed, Refetched]
                     else [trace[|trace| - 1], Rejected];
        assert Rounds(round[|round|..]);
        assert Rounds(round);
        RoundsAppend(pending, round);
        assert pending + round == trace + round[1..];
        trace := trace + round[1..];
        isProcessingPayment := false;
      }
    }
  }
}
