/** The late-checkout table: the first rule that matches decides, and the fee it applies
    (hotelcontrols/guest/decision.py, hotelcontrols/guest/fee.py). Days are integers, times are
    minutes of the day, and amounts are whole minor units. */
module LateCheckout {
  import opened Basics

  datatype Money = Money(amount: int, currency: string)

  datatype Rounding = StartedHour | CompletedHour

  /** The hotel's six values; None is one it has not decided. */
  datatype Policy = Policy(
    freeUntil: Option<int>,
    chargeFrom: Option<int>,
    approvalAfter: Option<int>,
    maximum: Option<int>,
    feePerHour: Option<Money>,
    rounding: Option<Rounding>)

  /** What the provider says of the reservation: None is not established. */
  datatype Evidence = Evidence(found: bool, status: Option<string>, departure: Option<int>)

  datatype Decision = APPROVED | APPROVED_WITH_FEE | DENIED | STAFF_REVIEW | UNAVAILABLE

  datatype RuleId =
    | Gaps | Cancelled | CheckedOut | StayEnded | Overstay
      | NotToday | NotCheckedIn | Free | AfterMaximum | NeedsApproval | Fee

  datatype Gap = NoReservation | StatusGap | DepartureGap | Undecided(name: string)

  datatype Ruling = Ruling(decision: Decision, rule: RuleId, fee: Option<Money>, gaps: seq<Gap>)

  const STATUSES := {"confirmed", "checked_in", "checked_out", "cancelled", "waitlist", "no_show"}

  // ------------------------------------------------------------------ the fee
  /** Whole hours from `chargeFrom` to `requested`, rounded as the hotel states. Division rounds
      down, as Python's does. */
  function ChargedHours(chargeFrom: int, requested: int, rounding: Rounding): (hours: nat)
  {
    var minutes := requested - chargeFrom;
    if minutes <= 0 then 0
    else match rounding
      case StartedHour => -(-minutes / 60)
      case CompletedHour => minutes / 60
  }

  /** A rate so many times over, or nothing for no hours. */
  function FeeOf(rate: Money, hours: int): Option<Money>
  {
    if hours <= 0 then None else Some(Money(hours * rate.amount, rate.currency))
  }

  function Plus(a: Money, b: Money): Money
    requires a.currency == b.currency
  {
    Money(a.amount + b.amount, a.currency)
  }

  /** `fee_for`: the rate added to itself once for each charged hour. */
  method FeeFor(rate: Money, hours: int) returns (fee: Option<Money>)
    ensures fee == FeeOf(rate, hours)
  {
    if hours <= 0 {
      return None;
    }
    var sum := rate;
    for n := 1 to hours
      invariant sum == Money(n * rate.amount, rate.currency)
    {
      sum := Plus(sum, rate);
    }
    fee := Some(sum);
  }

  /** Started hours are the exact ceiling of the elapsed time, completed hours its exact floor. */
  lemma HoursAreExact(chargeFrom: int, requested: int)
    requires requested > chargeFrom
    ensures var m, h := requested - chargeFrom,
              ChargedHours(chargeFrom, requested, StartedHour); 60 * (h - 1) < m <= 60 * h
    ensures var m, h := requested - chargeFrom,
              ChargedHours(chargeFrom, requested, CompletedHour); 60 * h <= m < 60 * (h + 1)
  {
  }

  lemma HoursNeverFall(chargeFrom: int, a: int, b: int, rounding: Rounding)
    requires a <= b
    ensures ChargedHours(chargeFrom, a, rounding) <= ChargedHours(chargeFrom, b, rounding)
  {
    if a > chargeFrom {
      HoursAreExact(chargeFrom, a);
      HoursAreExact(chargeFrom, b);
    }
  }

  // ------------------------------------------------------------------ the table
  function EvidenceGaps(e: Evidence): seq<Gap>
  {
    if !e.found then [NoReservation]
    else
      (if e.status.None? || e.status.value !in STATUSES then [StatusGap] else [])
      + if e.departure.None? then [DepartureGap] else []
  }

  function PolicyGaps(p: Policy): seq<Gap>
  {
    (if p.freeUntil.None? then [Undecided("free_until")] else [])
    + (if p.chargeFrom.None? then [Undecided("charge_from")] else [])
    + (if p.approvalAfter.None? then [Undecided("approval_required_after")] else [])
    + (if p.maximum.None? then [Undecided("maximum_time")] else [])
    + (if p.feePerHour.None? then [Undecided("fee_per_hour")] else [])
    + (if p.rounding.None? then [Undecided("hour_rounding")] else [])
  }

  predicate Complete(e: Evidence, p: Policy)
  {
    && e.found && e.status.Some? && e.status.value in STATUSES && e.departure.Some?
    && p.freeUntil.Some? && p.chargeFrom.Some? && p.approvalAfter.Some?
       && p.maximum.Some? && p.feePerHour.Some? && p.rounding.Some?
  }

  function HoursAt(p: Policy, requested: int): nat
    requires p.chargeFrom.Some? && p.rounding.Some?
  {
    ChargedHours(p.chargeFrom.value, requested, p.rounding.value)
  }

  /** The rules about time, once everything is established. */
  function DecideTime(requested: int, p: Policy): Ruling
    requires p.freeUntil.Some? && p.chargeFrom.Some? && p.approvalAfter.Some? && p.maximum.Some?
    requires p.feePerHour.Some? && p.rounding.Some?
  {
    if requested <= p.freeUntil.value then Ruling(APPROVED, Free, None, [])
    else if requested > p.maximum.value then Ruling(DENIED, AfterMaximum, None, [])
    else
      var fee := FeeOf(p.feePerHour.value, HoursAt(p, requested));
      if requested > p.approvalAfter.value then Ruling(STAFF_REVIEW, NeedsApproval, None, [])
      else if fee.None? then Ruling(APPROVED, Fee, None, [])
      else Ruling(APPROVED_WITH_FEE, Fee, fee, [])
  }

  /** The rules about the stay; None where the time decides. */
  function DecideStay(status: string, departure: int, today: int): Option<Ruling>
  {
    if status == "cancelled" then Some(Ruling(DENIED, Cancelled, None, []))
    else if status == "checked_out" then Some(Ruling(DENIED, CheckedOut, None, []))
    else if departure < today then
      if status != "checked_in" then Some(Ruling(DENIED, StayEnded, None, []))
        else Some(Ruling(STAFF_REVIEW, Overstay, None, []))
    else if departure > today then Some(Ruling(STAFF_REVIEW, NotToday, None, []))
    else if status != "checked_in" then Some(Ruling(STAFF_REVIEW, NotCheckedIn, None, []))
    else None
  }

  lemma GapsAreEverything(e: Evidence, p: Policy)
    ensures EvidenceGaps(e) + PolicyGaps(p) == [] <==> Complete(e, p)
  {
  }

  /** `decide`: the first rule in the table that matches, and nothing else. */
  function Decide(requested: int, p: Policy, e: Evidence, today: int): Ruling
  {
    var gaps := EvidenceGaps(e) + PolicyGaps(p);
    GapsAreEverything(e, p);
    if gaps != [] then Ruling(STAFF_REVIEW, Gaps, None, gaps)
    else
      var stay := DecideStay(e.status.value, e.departure.value, today);
      if stay.Some? then stay.value else DecideTime(requested, p)
  }

  // ------------------------------------------------------------------ the table read rule by rule
  /** When a rule's own condition holds, whatever stands before it in the table. */
  predicate Applies(rule: RuleId, requested: int, p: Policy, e: Evidence, today: int)
  {
    var status := if e.status.Some? then e.status.value else "";
    match rule
    case Gaps => !Complete(e, p)
    case Cancelled => status == "cancelled"
    case CheckedOut => status == "checked_out"
    case StayEnded => e.departure.Some? && e.departure.value < today && status != "checked_in"
    case Overstay => e.departure.Some? && e.departure.value < today && status == "checked_in"
    case NotToday => e.departure.Some? && e.departure.value > today
    case NotCheckedIn => status != "checked_in"
    case Free => p.freeUntil.Some? && requested <= p.freeUntil.value
    case AfterMaximum => p.maximum.Some? && requested > p.maximum.value
    case NeedsApproval => p.approvalAfter.Some? && requested > p.approvalAfter.value
    case Fee => true
  }

  function Place(rule: RuleId): nat
  {
    match rule
    case Gaps => 1 case Cancelled => 2 case CheckedOut => 3 case StayEnded => 4 case Overstay => 5 case NotToday => 6
    case NotCheckedIn => 7 case Free => 8 case AfterMaximum => 9 case NeedsApproval => 10 case Fee => 11
  }

  /** What each rule decides; the last charges a fee only when there is an hour to charge. */
  function Says(rule: RuleId, hours: nat): Decision
  {
    match rule
    case Gaps => STAFF_REVIEW
    case Cancelled => DENIED
    case CheckedOut => DENIED
    case StayEnded => DENIED
    case Overstay => STAFF_REVIEW
    case NotToday => STAFF_REVIEW
    case NotCheckedIn => STAFF_REVIEW
    case Free => APPROVED
    case AfterMaximum => DENIED
    case NeedsApproval => STAFF_REVIEW
    case Fee => if hours == 0 then APPROVED else APPROVED_WITH_FEE
  }

  /** The rule that decides is the first of the eleven whose condition holds, and it decides what the
      table says of it. */
  lemma FirstMatchDecides(requested: int, p: Policy, e: Evidence, today: int, rule: RuleId)
    ensures Decide(requested, p, e, today).rule == rule
            <==> Applies(rule, requested, p, e, today)
                 && forall earlier :: Place(earlier) < Place(rule) ==> !Applies(earlier, requested, p, e, today)
    ensures var r := Decide(requested, p, e, today);
            r.decision == Says(r.rule, if Complete(e, p) then HoursAt(p, requested) else 0)
  {
    GapsAreEverything(e, p);
    var r := Decide(requested, p, e, today);
    DecidedRuleIsFirst(requested, p, e, today);
    if rule != r.rule {
      assert Place(rule) < Place(r.rule) || Place(r.rule) < Place(rule);
    }
  }

  lemma DecidedRuleIsFirst(requested: int, p: Policy, e: Evidence, today: int)
    ensures var rule := Decide(requested, p, e, today).rule;
            Applies(rule, requested, p, e, today)
            && forall earlier :: Place(earlier) < Place(rule) ==> !Applies(earlier, requested, p, e, today)
  {
    GapsAreEverything(e, p);
  }

  /** Every gap is for a person, and nothing else is decided by one. */
  lemma GapsNeverDecide(requested: int, p: Policy, e: Evidence, today: int)
    ensures !Complete(e, p) <==> Decide(requested, p, e, today).rule == Gaps
    ensures !Complete(e, p) ==> Decide(requested, p, e, today).decision == STAFF_REVIEW
    ensures Decide(requested, p, e, today).gaps == EvidenceGaps(e) + PolicyGaps(p)
  {
    GapsAreEverything(e, p);
  }

  /** The statuses the table knows what to do with. */
  predicate KnownStatus(status: string)
  {
    || status == "confirmed" || status == "checked_in" || status == "checked_out"
    || status == "cancelled" || status == "waitlist" || status == "no_show"
  }

  /** Every gap is listed under its own name, and nothing else is. */
  lemma EveryGapIsListed(requested: int, p: Policy, e: Evidence, today: int)
    ensures var gaps := Decide(requested, p, e, today).gaps;
            && (NoReservation in gaps <==> !e.found)
            && (StatusGap in gaps <==> e.found && (e.status.None? || !KnownStatus(e.status.value)))
            && (DepartureGap in gaps <==> e.found && e.departure.None?)
            && forall name :: Undecided(name) in gaps <==> PolicyLacks(p, name)
  {
    hide Decide, PolicyGaps, PolicyLacks;
    GapsNeverDecide(requested, p, e, today);
    PolicyGapsAre(p);
  }

  lemma PolicyGapsAre(p: Policy)
    ensures forall g :: g in PolicyGaps(p) <==> g.Undecided? && PolicyLacks(p, g.name)
  {
  }

  predicate PolicyLacks(p: Policy, name: string)
  {
    || (name == "free_until" && p.freeUntil.None?)
    || (name == "charge_from" && p.chargeFrom.None?)
    || (name == "approval_required_after" && p.approvalAfter.None?)
    || (name == "maximum_time" && p.maximum.None?)
    || (name == "fee_per_hour" && p.feePerHour.None?)
    || (name == "hour_rounding" && p.rounding.None?)
  }

  // ------------------------------------------------------------------ what a guest is granted
  /** A late checkout is granted exactly to a guest who is checked in and leaves today, within the
      free time, or within the time no person has to approve; and with everything established. */
  lemma GrantedIff(requested: int, p: Policy, e: Evidence, today: int)
    ensures Decide(requested, p, e, today).decision in {APPROVED, APPROVED_WITH_FEE}
            <==> Complete(e, p) && e.status.value == "checked_in" && e.departure.value == today
                 && (requested <= p.freeUntil.value
                    || (requested <= p.maximum.value && requested <= p.approvalAfter.value))
  {
    GapsAreEverything(e, p);
  }

  /** A late checkout is denied exactly to a guest whose stay is cancelled, over, or past its last day,
      and past both the free time and the hotel's latest. */
  lemma DeniedIff(requested: int, p: Policy, e: Evidence, today: int)
    ensures Decide(requested, p, e, today).decision == DENIED
            <==> Complete(e, p)
                 && (|| e.status.value == "cancelled" || e.status.value == "checked_out"
                     || (e.status.value != "checked_in" && e.departure.value < today)
                     || (e.status.value == "checked_in" && e.departure.value == today
                         && requested > p.freeUntil.value && requested > p.maximum.value))
  {
    GapsAreEverything(e, p);
  }

  /** A fee is applied exactly when the decision names one: the charged hours times the hotel's rate,
      in the rate's currency, for at least one hour. The table never answers UNAVAILABLE. */
  lemma FeeIsHoursTimesRate(requested: int, p: Policy, e: Evidence, today: int)
    ensures var r := Decide(requested, p, e, today);
            && r.decision != UNAVAILABLE
            && (r.fee.Some? <==> r.decision == APPROVED_WITH_FEE)
            && (r.fee.Some? ==> Complete(e, p) && HoursAt(p, requested) >= 1
                                && r.fee.value.amount == HoursAt(p, requested) * p.feePerHour.value.amount
                                && r.fee.value.currency == p.feePerHour.value.currency)
  {
    GapsAreEverything(e, p);
  }

  function Severity(d: Decision): nat
  {
    match d
    case APPROVED => 0
    case APPROVED_WITH_FEE => 1
    case STAFF_REVIEW => 2
    case DENIED => 3
    case UNAVAILABLE => 4
  }

  /** Asking for a later time never gets a kinder answer, under any policy, ordered or not. */
  lemma LaterIsNeverKinder(a: int, b: int, p: Policy, e: Evidence, today: int)
    requires a <= b
    ensures Severity(Decide(a, p, e, today).decision) <= Severity(Decide(b, p, e, today).decision)
  {
    GapsAreEverything(e, p);
    if Complete(e, p) {
      HoursNeverFall(p.chargeFrom.value, a, b, p.rounding.value);
    }
  }

  /** A later time never costs less, exactly when the rate is not negative. */
  lemma FeeNeverFallsIff(rate: Money, hours: nat)
    requires hours >= 1
    ensures FeeOf(rate, hours).value.amount <= FeeOf(rate, hours + 1).value.amount <==> rate.amount >= 0
    ensures FeeOf(rate, hours).value.currency == rate.currency
  {
    assert (hours + 1) * rate.amount == hours * rate.amount + rate.amount;
  }

  lemma LaterNeverCostsLess(a: int, b: int, p: Policy, e: Evidence, today: int)
    requires a <= b && p.feePerHour.Some? && p.feePerHour.value.amount >= 0
    requires Decide(a, p, e, today).fee.Some? && Decide(b, p, e, today).fee.Some?
    ensures Decide(a, p, e, today).fee.value.amount <= Decide(b, p, e, today).fee.value.amount
    ensures Decide(a, p, e, today).fee.value.currency == Decide(b, p, e, today).fee.value.currency
  {
    FeeIsHoursTimesRate(a, p, e, today);
    FeeIsHoursTimesRate(b, p, e, today);
    HoursNeverFall(p.chargeFrom.value, a, b, p.rounding.value);
    var rate := p.feePerHour.value.amount;
    TimesGrows(HoursAt(p, a), HoursAt(p, b), rate);
  }

  lemma TimesGrows(a: nat, b: nat, rate: int)
    requires a <= b && rate >= 0
    ensures a * rate <= b * rate
  {
    assert b * rate == a * rate + (b - a) * rate;
  }
}
