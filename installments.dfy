/** The installment ledger's rules: the `Installment` record and its status
    choices, the `(payment_plan, installment_number)` uniqueness rule, the
    checks a new row must pass, and the ledger's ordering. The table itself
    lives with the payment tables (payments.dfy), which it references and
    which reference it. */
module Installments {
  import opened Common

  datatype InstallmentStatus = Pending | Paid | Overdue | Waived {
    /** The value stored in the `status` column. */
    function Code(): string {
      match this
      case Pending => "PENDING"
      case Paid => "PAID"
      case Overdue => "OVERDUE"
      case Waived => "WAIVED"
    }
  }

  const DefaultInstallmentStatus: InstallmentStatus := Pending
  const StatusMaxLength: nat := 20

  /** The four codes are distinct and fit the `status` column. */
  lemma InstallmentStatusCodes(s: InstallmentStatus, t: InstallmentStatus)
    ensures |s.Code()| <= StatusMaxLength
    ensures s.Code() == t.Code() ==> s == t
  {
  }

  datatype Installment = Installment(
    id: Id,
    paymentPlan: Id,
    installmentNumber: nat,
    amount: int,               // cents
    dueDate: int,
    status: InstallmentStatus)

  /** Some row already uses `number` within `plan`. */
  predicate NumberTaken(rows: seq<Installment>, plan: Id, number: int) {
    exists i :: 0 <= i < |rows| && rows[i].paymentPlan == plan && rows[i].installmentNumber == number
  }

  /** `unique_together = ("payment_plan", "installment_number")`. */
  predicate UniquePerPlan(rows: seq<Installment>) {
    forall i, j :: 0 <= i < j < |rows| ==>
      !(rows[i].paymentPlan == rows[j].paymentPlan && rows[i].installmentNumber == rows[j].installmentNumber)
  }

  /** Why the database refuses a new installment row. */
  datatype InstallmentError =
    | NumberOutOfRange          // PositiveIntegerField: integer with CHECK (>= 0)
    | AmountOverflow            // numeric(10,2)
    | DuplicateNumber           // unique_together
    | UnknownPlan               // foreign key to PaymentPlan

  /** The checks on a new row, given the rows already stored and whether its
      plan exists: no error exactly when the row can be stored, and otherwise
      an error that names a check it fails. */
  function CheckNew(rows: seq<Installment>, planExists: bool, plan: Id, number: int, amount: int)
    : (r: Option<InstallmentError>)
    ensures r.None? <==> FitsPositiveInt(number) && FitsMoney(amount) && !NumberTaken(rows, plan, number) && planExists
    ensures r == Some(NumberOutOfRange) ==> !FitsPositiveInt(number)
    ensures r == Some(AmountOverflow) ==> !FitsMoney(amount)
    ensures r == Some(DuplicateNumber) ==> NumberTaken(rows, plan, number)
    ensures r == Some(UnknownPlan) ==> !planExists
  {
    if !FitsPositiveInt(number) then Some(NumberOutOfRange)
    else if !FitsMoney(amount) then Some(AmountOverflow)
    else if NumberTaken(rows, plan, number) then Some(DuplicateNumber)
    else if !planExists then Some(UnknownPlan)
    else None
  }

  /** A number above the `integer` range is refused before anything else is looked at. */
  lemma NumberBound(rows: seq<Installment>, planExists: bool, plan: Id, amount: int)
    ensures CheckNew(rows, planExists, plan, IntMax + 1, amount) == Some(NumberOutOfRange)
    ensures CheckNew(rows, planExists, plan, -1, amount) == Some(NumberOutOfRange)
  {
  }

  /** A row that passes the checks keeps the ledger free of duplicates. */
  lemma AcceptedKeepsUnique(rows: seq<Installment>, row: Installment)
    requires UniquePerPlan(rows)
    requires !NumberTaken(rows, row.paymentPlan, row.installmentNumber)
    ensures UniquePerPlan(rows + [row])
  {
  }

  /** Writing a sequence of rows one at a time, each one stored only when its
      number is free in its plan (plan existence aside). */
  function Replay(rows: seq<Installment>, adds: seq<Installment>): (r: seq<Installment>)
    decreases |adds|
  {
    if adds == [] then rows
    else if CheckNew(rows, true, adds[0].paymentPlan, adds[0].installmentNumber, adds[0].amount).None?
    then Replay(rows + [adds[0]], adds[1..])
    else Replay(rows, adds[1..])
  }

  /** After any sequence of accepted writes, installment numbers within a
      plan are pairwise distinct, and nothing already stored is lost. */
  lemma {:induction false} ReplayKeepsUnique(rows: seq<Installment>, adds: seq<Installment>)
    requires UniquePerPlan(rows)
    ensures UniquePerPlan(Replay(rows, adds))
    ensures |Replay(rows, adds)| >= |rows| && Replay(rows, adds)[..|rows|] == rows
    decreases |adds|
  {
    if adds != [] {
      var a := adds[0];
      if CheckNew(rows, true, a.paymentPlan, a.installmentNumber, a.amount).None? {
        AcceptedKeepsUnique(rows, a);
        ReplayKeepsUnique(rows + [a], adds[1..]);
        assert (rows + [a])[..|rows|] == rows;
      } else {
        ReplayKeepsUnique(rows, adds[1..]);
      }
    }
  }

  /** The same number is free in a second plan after it is taken in a first. */
  lemma SameNumberOtherPlan(rows: seq<Installment>, row: Installment, plan: Id)
    requires plan != row.paymentPlan
    requires !NumberTaken(rows, plan, row.installmentNumber)
    ensures !NumberTaken(rows + [row], plan, row.installmentNumber)
  {
  }

  /** `Meta.ordering = ["installment_number"]`: one plan's installments, by
      ascending number. */
  function Schedule(rows: seq<Installment>, plan: Id): (r: seq<Installment>)
    ensures forall x :: x in r <==> x in rows && x.paymentPlan == plan
    ensures multiset(r) == multiset(Filter(rows, (x: Installment) => x.paymentPlan == plan))
    ensures forall i, j :: 0 <= i < j < |r| ==> r[i].installmentNumber <= r[j].installmentNumber
  {
    var mine := Filter(rows, (x: Installment) => x.paymentPlan == plan);
    var r := SortBy(mine, (x: Installment) => x.installmentNumber);
    assert forall x :: x in r <==> x in multiset(r);
    assert forall x :: x in mine <==> x in multiset(mine);
    r
  }
}
