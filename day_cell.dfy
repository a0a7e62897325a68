/**
 * The status a calendar day shows: which icon appears in the corner and
 * whether the paid amount is shown as a badge under the cost.
 */
module DayCell {
  import opened Wrappers
  import opened Records

  /** The figures a day cell works from. */
  datatype View = View(quantity: real, price: real, paid: real)

  datatype Icon = Check | Pie | Circle | Coins

  datatype Status = FullyPaid | PartiallyPaid | Unpaid | PaymentOnly | Empty

  /** A day without a record reads as quantity 0, price 0 and nothing paid. */
  function ViewOf(record: Option<Record>): (v: View)
    ensures v.quantity == (if record.Some? then record.value.quantity else 0.0)
    ensures v.price == (if record.Some? then record.value.pricePerUnit else 0.0)
    ensures v.paid == (if record.Some? then Paid(record.value) else 0.0)
    ensures record.Some? ==> CostOf(v) == Cost(record.value)
    ensures record.None? ==> StatusOf(v) == Empty && Icons(v) == {}
  {
    match record
    case None => View(0.0, 0.0, 0.0)
    case Some(r) => View(r.quantity, r.pricePerUnit, Paid(r))
  }

  function CostOf(v: View): real {
    v.quantity * v.price
  }

  predicate HasMilk(v: View) {
    v.quantity > 0.0
  }

  predicate HasPayment(v: View) {
    v.paid > 0.0
  }

  predicate IsFullyPaid(v: View) {
    HasMilk(v) && Covers(v.paid, CostOf(v))
  }

  predicate IsPartiallyPaid(v: View) {
    HasMilk(v) && !IsFullyPaid(v) && v.paid > 0.0
  }

  /** The corner icons, each under the condition the cell renders it. */
  function Icons(v: View): (icons: set<Icon>)
    ensures HasMilk(v) ==> |icons| == 1 && icons <= {Check, Pie, Circle}
    ensures Coins in icons <==> !HasMilk(v) && HasPayment(v)
    ensures !HasMilk(v) && !HasPayment(v) ==> icons == {}
  {
    (if HasMilk(v) && IsFullyPaid(v) then {Check} else {})
    + (if HasMilk(v) && IsPartiallyPaid(v) then {Pie} else {})
    + (if HasMilk(v) && !IsFullyPaid(v) && !IsPartiallyPaid(v) then {Circle} else {})
    + (if !HasMilk(v) && HasPayment(v) then {Coins} else {})
  }

  /** The icon that stands for each status; an empty day has none. */
  function IconOf(s: Status): set<Icon> {
    match s
    case FullyPaid => {Check}
    case PartiallyPaid => {Pie}
    case Unpaid => {Circle}
    case PaymentOnly => {Coins}
    case Empty => {}
  }

  /**
   * The five states of a day, each characterised by quantity and payment
   * alone; the corner icons are exactly the state's icon.
   */
  function StatusOf(v: View): (s: Status)
    ensures s == FullyPaid <==> v.quantity > 0.0 && v.paid >= CostOf(v) - Tolerance
    ensures s == PartiallyPaid <==> v.quantity > 0.0 && 0.0 < v.paid < CostOf(v) - Tolerance
    ensures s == Unpaid <==> v.quantity > 0.0 && v.paid <= 0.0 && v.paid < CostOf(v) - Tolerance
    ensures s == PaymentOnly <==> v.quantity <= 0.0 && v.paid > 0.0
    ensures s == Empty <==> v.quantity <= 0.0 && v.paid <= 0.0
    ensures Icons(v) == IconOf(s)
  {
    if IsFullyPaid(v) then FullyPaid
    else if IsPartiallyPaid(v) then PartiallyPaid
    else if HasMilk(v) then Unpaid
    else if HasPayment(v) then PaymentOnly
    else Empty
  }

  /**
   * The paid badge under a day with milk: shown exactly for a partial payment
   * and for a positive payment that exceeds the cost by more than the tolerance.
   */
  function ShowsPaidBadge(v: View): (b: bool)
    ensures b ==> v.quantity > 0.0 && v.paid > 0.0
    ensures b <==> IsPartiallyPaid(v) || (IsFullyPaid(v) && v.paid > 0.0 && v.paid > CostOf(v) + Tolerance)
  {
    HasMilk(v) && v.paid > 0.0 && Abs(v.paid - CostOf(v)) > Tolerance
  }

  /**
   * The status of a day holding record `r`, read off the record itself: its
   * quantity decides whether there is milk, and its cost and payment decide
   * how much of it is paid.
   */
  lemma RecordStatus(r: Record)
    ensures var s := StatusOf(ViewOf(Some(r)));
      && (s == FullyPaid <==> r.quantity > 0.0 && Covers(Paid(r), Cost(r)))
      && (s == PartiallyPaid <==> r.quantity > 0.0 && !Covers(Paid(r), Cost(r)) && Paid(r) > 0.0)
      && (s == Unpaid <==> r.quantity > 0.0 && !Covers(Paid(r), Cost(r)) && Paid(r) <= 0.0)
      && (s == PaymentOnly <==> r.quantity <= 0.0 && Paid(r) > 0.0)
      && (s == Empty <==> r.quantity <= 0.0 && Paid(r) <= 0.0)
  {
    var v := ViewOf(Some(r));
    assert v.quantity == r.quantity && v.paid == Paid(r) && CostOf(v) == Cost(r);
  }
}
