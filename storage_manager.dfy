/** The decision logic of the storage manager panel: which payment action, if any,
    is offered for a balance snapshot, the usage bar's percentage and level, and
    the colour of the payment status badge. */
module StorageManager {
  import opened Wrappers
  import opened Text

  /** The balance snapshot the panel receives. Amounts are token units scaled by
      10^18; the "needed" amounts and the sufficiency flags are computed elsewhere
      and are taken here as they come, with no relation assumed between them. */
  datatype Snapshot = Snapshot(
    filBalance: nat,
    usdfcBalance: nat,
    currentLockupAllowance: nat,
    rateNeeded: nat,
    depositNeeded: nat,
    totalLockupNeeded: nat,
    isRateSufficient: bool,
    isLockupSufficient: bool,
    isSufficient: bool)

  /** The triple submitted to the payment hook. */
  datatype PaymentAction = PaymentAction(lockupAllowance: nat, epochRateAllowance: nat, depositAmount: nat)

  /** The three buttons: "Deposit & Increase Lockup", "Increase Rate",
      "Deposit & Increase Allowances". */
  datatype ActionKind = IncreaseLockup | IncreaseRate | DepositAndIncrease

  datatype Offer = Offer(kind: ActionKind, payment: PaymentAction)

  /** What the action section renders: nothing, the "Sufficient" badge, the
      missing-token warnings, or the list of action components it mounts. */
  datatype Panel =
    | Hidden
    | SufficientBadge
    | FundsWarnings(needFil: bool, needUsdfc: bool)
    | Actions(offers: seq<Offer>)

  /** The payment buttons a panel shows. */
  function OffersOf(p: Panel): seq<Offer> {
    if p.Actions? then p.offers else []
  }

  /** The lockup-increase component: renders nothing unless all three amounts are nonzero. */
  function LockupIncreaseAction(totalLockupNeeded: nat, depositNeeded: nat, rateNeeded: nat): Option<Offer> {
    if totalLockupNeeded == 0 || depositNeeded == 0 || rateNeeded == 0 then None
    else Some(Offer(IncreaseLockup, PaymentAction(totalLockupNeeded, rateNeeded, depositNeeded)))
  }

  /** The rate-increase component: renders nothing unless both amounts are nonzero;
      it resubmits the current lockup allowance and deposits nothing. */
  function RateIncreaseAction(currentLockupAllowance: nat, rateNeeded: nat): Option<Offer> {
    if currentLockupAllowance == 0 || rateNeeded == 0 then None
    else Some(Offer(IncreaseRate, PaymentAction(currentLockupAllowance, rateNeeded, 0)))
  }

  /** Both allowances short: the combined button, with no guard of its own. */
  function CombinedAction(s: Snapshot): Offer {
    Offer(DepositAndIncrease, PaymentAction(s.totalLockupNeeded, s.rateNeeded, s.depositNeeded))
  }

  /** The three conditionally mounted children of the action list, each tested on its own. */
  function ActionList(s: Snapshot): seq<Offer> {
    (if s.isRateSufficient && !s.isLockupSufficient
     then AsSeq(LockupIncreaseAction(s.totalLockupNeeded, s.depositNeeded, s.rateNeeded)) else [])
    + (if !s.isRateSufficient && s.isLockupSufficient
       then AsSeq(RateIncreaseAction(s.currentLockupAllowance, s.rateNeeded)) else [])
    + (if !s.isRateSufficient && !s.isLockupSufficient then [CombinedAction(s)] else [])
  }

  /** A snapshot in which both token balances are nonzero. */
  predicate Funded(s: Snapshot) {
    s.filBalance != 0 && s.usdfcBalance != 0
  }

  /** The action section: guards in order, then the action list. */
  function ActionSection(isLoading: bool, balances: Option<Snapshot>): (r: Panel)
    ensures r.Actions? ==> |r.offers| <= 1
    ensures r.FundsWarnings? ==> r.needFil || r.needUsdfc
    ensures r.FundsWarnings? ==> balances.Some?
                                 && (r.needFil <==> balances.value.filBalance == 0)
                                 && (r.needUsdfc <==> balances.value.usdfcBalance == 0)
    ensures OffersOf(r) != [] ==> !isLoading && balances.Some? && !balances.value.isSufficient
                                  && Funded(balances.value)
                                  && !(balances.value.isRateSufficient && balances.value.isLockupSufficient)
  {
    if isLoading || balances.None? then Hidden
    else
      var s := balances.value;
      if s.isSufficient then SufficientBadge
      else if s.filBalance == 0 || s.usdfcBalance == 0 then
        FundsWarnings(s.filBalance == 0, s.usdfcBalance == 0)
      else Actions(ActionList(s))
  }

  /** Nothing is offered while loading or without a snapshot, and a sufficient
      snapshot shows only the "Sufficient" badge. */
  lemma NothingOfferedUnlessInsufficient(isLoading: bool, balances: Option<Snapshot>)
    ensures isLoading || balances.None? ==> ActionSection(isLoading, balances) == Hidden
    ensures !isLoading && balances.Some? && balances.value.isSufficient
            ==> ActionSection(isLoading, balances) == SufficientBadge
    ensures isLoading || balances.None? || balances.value.isSufficient
            ==> OffersOf(ActionSection(isLoading, balances)) == []
  {
  }

  /** With a zero token balance only the warnings are shown: the FIL warning
      exactly when the FIL balance is zero, the USDFC warning exactly when the
      USDFC balance is zero. */
  lemma ZeroBalanceShowsWarnings(s: Snapshot)
    requires !s.isSufficient && !Funded(s)
    ensures ActionSection(false, Some(s)) == FundsWarnings(s.filBalance == 0, s.usdfcBalance == 0)
    ensures OffersOf(ActionSection(false, Some(s))) == []
  {
  }

  /** Rate sufficient, lockup short: the lockup increase, offered exactly when
      all three amounts are nonzero, with the needed amounts as its triple. */
  lemma LockupOnlyBranch(s: Snapshot)
    requires !s.isSufficient && Funded(s)
    requires s.isRateSufficient && !s.isLockupSufficient
    ensures var offers := OffersOf(ActionSection(false, Some(s)));
            && (offers != [] <==> s.totalLockupNeeded != 0 && s.depositNeeded != 0 && s.rateNeeded != 0)
            && (offers != [] ==> offers == [Offer(IncreaseLockup, PaymentAction(s.totalLockupNeeded, s.rateNeeded, s.depositNeeded))])
  {
  }

  /** Rate short, lockup sufficient: the rate increase, offered exactly when the
      current lockup allowance and the needed rate are nonzero; it keeps the lockup
      allowance unchanged and deposits nothing. */
  lemma RateOnlyBranch(s: Snapshot)
    requires !s.isSufficient && Funded(s)
    requires !s.isRateSufficient && s.isLockupSufficient
    ensures var offers := OffersOf(ActionSection(false, Some(s)));
            && (offers != [] <==> s.currentLockupAllowance != 0 && s.rateNeeded != 0)
            && (offers != [] ==>
                  && |offers| == 1
                  && offers[0].kind == IncreaseRate
                  && offers[0].payment.lockupAllowance == s.currentLockupAllowance
                  && offers[0].payment.epochRateAllowance == s.rateNeeded
                  && offers[0].payment.depositAmount == 0)
  {
  }

  /** Both short: the combined action is always offered, with no zero guard. */
  lemma BothShortBranch(s: Snapshot)
    requires !s.isSufficient && Funded(s)
    requires !s.isRateSufficient && !s.isLockupSufficient
    ensures OffersOf(ActionSection(false, Some(s)))
            == [Offer(DepositAndIncrease, PaymentAction(s.totalLockupNeeded, s.rateNeeded, s.depositNeeded))]
  {
  }

  /** Both flags true but the snapshot not sufficient (and funded): nothing is offered. */
  lemma BothSufficientOffersNothing(s: Snapshot)
    requires !s.isSufficient && Funded(s)
    requires s.isRateSufficient && s.isLockupSufficient
    ensures ActionSection(false, Some(s)) == Actions([])
  {
  }

  /** The four cells of the sufficiency matrix as one tagged value. */
  datatype Shortfall = NoShortfall | NeedsRate | NeedsLockup | NeedsBoth

  function ShortfallOf(s: Snapshot): Shortfall {
    match (s.isRateSufficient, s.isLockupSufficient)
    case (true, true) => NoShortfall
    case (false, true) => NeedsRate
    case (true, false) => NeedsLockup
    case (false, false) => NeedsBoth
  }

  /** A reference planner written as one match over the matrix cell, with the
      components' zero guards: at most one action by construction. */
  function Plan(s: Snapshot): Option<Offer> {
    match ShortfallOf(s)
    case NoShortfall => None
    case NeedsLockup =>
      if s.totalLockupNeeded != 0 && s.depositNeeded != 0 && s.rateNeeded != 0
      then Some(Offer(IncreaseLockup, PaymentAction(s.totalLockupNeeded, s.rateNeeded, s.depositNeeded)))
      else None
    case NeedsRate =>
      if s.currentLockupAllowance != 0 && s.rateNeeded != 0
      then Some(Offer(IncreaseRate, PaymentAction(s.currentLockupAllowance, s.rateNeeded, 0)))
      else None
    case NeedsBoth =>
      Some(Offer(DepositAndIncrease, PaymentAction(s.totalLockupNeeded, s.rateNeeded, s.depositNeeded)))
  }

  /** The three independent conditionals of the action list agree with the
      single-match planner on every funded, insufficient snapshot. */
  lemma ActionSectionFollowsPlan(s: Snapshot)
    requires !s.isSufficient && Funded(s)
    ensures ActionSection(false, Some(s)) == Actions(AsSeq(Plan(s)))
  {
  }

  /** Exactly when a funded, insufficient snapshot is left without any button. */
  lemma NoOfferIff(s: Snapshot)
    requires !s.isSufficient && Funded(s)
    ensures OffersOf(ActionSection(false, Some(s))) == [] <==>
            || (s.isRateSufficient && s.isLockupSufficient)
            || (s.isRateSufficient && !s.isLockupSufficient
                && (s.totalLockupNeeded == 0 || s.depositNeeded == 0 || s.rateNeeded == 0))
            || (!s.isRateSufficient && s.isLockupSufficient
                && (s.currentLockupAllowance == 0 || s.rateNeeded == 0))
  {
  }

  /** An offered deposit is positive only when the lockup is short, and the rate
      increase never carries a deposit. */
  lemma DepositOnlyWhenLockupShort(isLoading: bool, balances: Option<Snapshot>)
    ensures forall o :: o in OffersOf(ActionSection(isLoading, balances)) ==>
              && (o.payment.depositAmount > 0 ==> !balances.value.isLockupSufficient)
              && (o.kind == IncreaseRate ==> o.payment.depositAmount == 0)
              && (o.kind == IncreaseLockup ==> o.payment.depositAmount > 0)
  {
  }

  /** The converse does not hold: with both allowances short and no deposit
      needed, the combined action is offered with a zero deposit. */
  lemma ZeroDepositWhileLockupShort()
    ensures var s := Snapshot(1, 1, 0, 3, 0, 5, false, false, false);
            && !s.isLockupSufficient
            && OffersOf(ActionSection(false, Some(s))) == [Offer(DepositAndIncrease, PaymentAction(5, 3, 0))]
  {
  }

  // ---------------------------------------------------------------------------
  // Storage usage bar

  function MinReal(a: real, b: real): real {
    if a <= b then a else b
  }

  /** The bar's percentage: zero without a positive maximum, otherwise the ratio
      scaled to 100 and capped at 100. */
  function AvailablePercentage(current: real, max: real): (r: real)
    ensures r <= 100.0
    ensures current >= 0.0 ==> 0.0 <= r
    ensures max <= 0.0 ==> r == 0.0
    ensures max > 0.0 && current >= max ==> r == 100.0
    ensures max > 0.0 && current <= max ==> r * max == current * 100.0
  {
    if max > 0.0 then MinReal((current / max) * 100.0, 100.0) else 0.0
  }

  predicate IsLowAvailability(percentage: real) {
    percentage <= 20.0
  }

  predicate IsCriticalAvailability(percentage: real) {
    percentage <= 5.0
  }

  /** "Critical" implies "Low". */
  lemma CriticalIsLow(percentage: real)
    ensures IsCriticalAvailability(percentage) ==> IsLowAvailability(percentage)
  {
  }

  /** The bar's level, as chosen for its colour and its label. */
  datatype Availability = Critical | LowAvailable | PlentyAvailable

  function AvailabilityOf(percentage: real): Availability {
    if IsCriticalAvailability(percentage) then Critical
    else if IsLowAvailability(percentage) then LowAvailable
    else PlentyAvailable
  }

  function AvailabilityLabel(a: Availability): string {
    match a
    case Critical => "Critical"
    case LowAvailable => "Low Available"
    case PlentyAvailable => "Plenty Available"
  }

  function Rank(a: Availability): nat {
    match a
    case Critical => 0
    case LowAvailable => 1
    case PlentyAvailable => 2
  }

  /** The level reads the percentage by its thresholds: critical up to 5,
      low above 5 up to 20, plenty above 20; the label names it. */
  lemma AvailabilityThresholds(current: real, max: real)
    ensures var p := AvailablePercentage(current, max);
            && (AvailabilityOf(p) == Critical <==> p <= 5.0)
            && (AvailabilityOf(p) == LowAvailable <==> 5.0 < p <= 20.0)
            && (AvailabilityOf(p) == PlentyAvailable <==> 20.0 < p)
            && (AvailabilityLabel(AvailabilityOf(p)) == "Critical" <==> p <= 5.0)
    ensures max <= 0.0 ==> AvailabilityOf(AvailablePercentage(current, max)) == Critical
  {
  }

  /** For any fixed maximum, a larger current value never gives a lower percentage or level. */
  lemma AvailabilityMonotone(c1: real, c2: real, max: real)
    requires c1 <= c2
    ensures AvailablePercentage(c1, max) <= AvailablePercentage(c2, max)
    ensures Rank(AvailabilityOf(AvailablePercentage(c1, max))) <= Rank(AvailabilityOf(AvailablePercentage(c2, max)))
  {
    if max > 0.0 {
      assert c1 / max <= c2 / max;
    }
  }

  // ---------------------------------------------------------------------------
  // Payment status badge

  const Cross: string := "❌"
  const Check: string := "✅"

  datatype Tone = Red | Green | Blue

  /** The status badge: not rendered for an empty status; red when the status
      carries the cross mark, else green when it carries the check mark, else blue. */
  function StatusBadge(status: string): Option<Tone> {
    if status == "" then None
    else if Includes(status, Cross) then Some(Red)
    else if Includes(status, Check) then Some(Green)
    else Some(Blue)
  }

  /** The badge colour in terms of where the marks occur in the status text. */
  lemma StatusBadgeMeaning(status: string)
    ensures StatusBadge(status).None? <==> status == ""
    ensures StatusBadge(status) == Some(Red) <==> exists i :: OccursAt(status, Cross, i)
    ensures StatusBadge(status) == Some(Green) <==>
              (!exists i :: OccursAt(status, Cross, i)) && (exists i :: OccursAt(status, Check, i))
    ensures StatusBadge(status) == Some(Blue) <==>
              status != "" && (!exists i :: OccursAt(status, Cross, i)) && (!exists i :: OccursAt(status, Check, i))
  {
    IncludesIff(status, Cross);
    IncludesIff(status, Check);
  }
}
