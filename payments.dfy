/** Payment plans, installments and payment transactions as three tables of
    one store, with the inserts the database accepts and the on_delete
    behaviour of their foreign keys:
      - deleting an installment keeps its transactions and clears their
        `installment` reference (SET_NULL);
      - deleting a plan deletes its installments (CASCADE), which clears the
        transactions' references to them;
      - deleting an enrollment deletes its plans (and so their installments)
        and its transactions (CASCADE);
      - deleting a student profile deletes its transactions (CASCADE). */
module Payments {
  import opened Common
  import Installments

  // ---------------------------------------------------------------------------
  // Choices

  datatype PaymentMethod = Cash | Card | BankTransfer | Upi | Cheque | Online {
    function Code(): string {
      match this
      case Cash => "CASH"
      case Card => "CARD"
      case BankTransfer => "BANK_TRANSFER"
      case Upi => "UPI"
      case Cheque => "CHEQUE"
      case Online => "ONLINE"
    }
  }

  datatype PaymentStatus = Success | Pending | Failed | Refunded {
    function Code(): string {
      match this
      case Success => "SUCCESS"
      case Pending => "PENDING"
      case Failed => "FAILED"
      case Refunded => "REFUNDED"
    }
  }

  const DefaultPaymentStatus: PaymentStatus := Success
  const MethodMaxLength: nat := 50
  const StatusMaxLength: nat := 20
  const PlanNameMaxLength: nat := 100

  /** The stored codes are distinct and fit their columns. */
  lemma PaymentChoiceCodes(m: PaymentMethod, m': PaymentMethod, s: PaymentStatus, s': PaymentStatus)
    ensures |m.Code()| <= MethodMaxLength && |s.Code()| <= StatusMaxLength
    ensures m.Code() == m'.Code() ==> m == m'
    ensures s.Code() == s'.Code() ==> s == s'
  {
  }

  // ---------------------------------------------------------------------------
  // Records

  datatype PaymentPlan = PaymentPlan(
    id: Id,
    enrollment: Id,
    planName: string,
    totalAmount: int,          // cents
    numberOfInstallments: nat,
    createdBy: Id,
    createdAt: int)

  datatype PaymentTransaction = PaymentTransaction(
    id: Id,
    enrollment: Id,
    installment: Option<Id>,
    student: Id,
    amount: int,               // cents
    paymentMethod: PaymentMethod,
    paymentDate: int,
    paymentStatus: PaymentStatus,
    notes: Option<string>,
    createdAt: int)

  datatype PlanError = PlanNameTooLong | TotalOverflow | InstallmentCountOutOfRange

  datatype TransactionError = AmountOverflow | UnknownInstallment

  predicate PlanExists(plans: seq<PaymentPlan>, id: Id) {
    exists i :: 0 <= i < |plans| && plans[i].id == id
  }

  predicate InstallmentExists(rows: seq<Installments.Installment>, id: Id) {
    exists i :: 0 <= i < |rows| && rows[i].id == id
  }

  lemma PlanExistsAppend(plans: seq<PaymentPlan>, p: PaymentPlan, id: Id)
    requires PlanExists(plans, id)
    ensures PlanExists(plans + [p], id)
  {
    var k :| 0 <= k < |plans| && plans[k].id == id;
    assert (plans + [p])[k] == plans[k];
  }

  lemma InstallmentExistsAppend(rows: seq<Installments.Installment>, x: Installments.Installment, id: Id)
    requires InstallmentExists(rows, id)
    ensures InstallmentExists(rows + [x], id)
  {
    var k :| 0 <= k < |rows| && rows[k].id == id;
    assert (rows + [x])[k] == rows[k];
  }

  /** The column checks on a new plan: no error exactly when they all hold. */
  function CheckPlan(planName: string, totalAmount: int, numberOfInstallments: int): (r: Option<PlanError>)
    ensures r.None? <==> |planName| <= PlanNameMaxLength && FitsMoney(totalAmount) && FitsPositiveInt(numberOfInstallments)
    ensures r == Some(PlanNameTooLong) ==> |planName| > PlanNameMaxLength
    ensures r == Some(TotalOverflow) ==> !FitsMoney(totalAmount)
    ensures r == Some(InstallmentCountOutOfRange) ==> !FitsPositiveInt(numberOfInstallments)
  {
    if |planName| > PlanNameMaxLength then Some(PlanNameTooLong)
    else if !FitsMoney(totalAmount) then Some(TotalOverflow)
    else if !FitsPositiveInt(numberOfInstallments) then Some(InstallmentCountOutOfRange)
    else None
  }

  /** An installment count above the `integer` range is refused. */
  lemma InstallmentCountBound(planName: string, totalAmount: int)
    requires |planName| <= PlanNameMaxLength && FitsMoney(totalAmount)
    ensures CheckPlan(planName, totalAmount, IntMax + 1) == Some(InstallmentCountOutOfRange)
  {
  }

  // ---------------------------------------------------------------------------
  // SET_NULL on PaymentTransaction.installment

  function ClearInstallment(t: PaymentTransaction, gone: set<Id>): PaymentTransaction {
    if t.installment.Some? && t.installment.value in gone then t.(installment := None) else t
  }

  /** The transactions after the installments `gone` are deleted: all of them
      survive, none refers to a deleted installment, references to surviving
      installments are kept, and nothing but the reference changes. */
  function ClearInstallments(txs: seq<PaymentTransaction>, gone: set<Id>): (r: seq<PaymentTransaction>)
    ensures |r| == |txs|
    ensures forall i :: 0 <= i < |r| ==> r[i].id == txs[i].id
    ensures forall i :: 0 <= i < |r| && r[i].installment.Some? ==> r[i].installment.value !in gone
    ensures forall i :: 0 <= i < |r| && txs[i].installment.Some? && txs[i].installment.value in gone ==>
      r[i].installment.None?
    ensures forall i :: 0 <= i < |r| ==> r[i].(installment := txs[i].installment) == txs[i]
    ensures forall i :: 0 <= i < |r| && txs[i].installment.Some? && txs[i].installment.value !in gone ==>
      r[i] == txs[i]
  {
    Map(txs, (t: PaymentTransaction) => ClearInstallment(t, gone))
  }

  /** The transactions after an enrollment is deleted: its own go, every
      other one stays with its references to deleted installments cleared. */
  function AfterEnrollmentDeleted(txs: seq<PaymentTransaction>, enrollment: Id, gone: set<Id>)
    : (r: seq<PaymentTransaction>)
    ensures |r| == |txs| - Count(txs, (t: PaymentTransaction) => t.enrollment == enrollment)
    ensures forall i :: 0 <= i < |r| ==> r[i].enrollment != enrollment
    ensures forall i :: 0 <= i < |r| && r[i].installment.Some? ==> r[i].installment.value !in gone
    ensures forall t :: t in txs && t.enrollment != enrollment ==> ClearInstallment(t, gone) in r
    ensures forall i :: 0 <= i < |r| ==>
      exists t :: t in txs && t.enrollment != enrollment && r[i] == ClearInstallment(t, gone)
    ensures SubseqOf(r, ClearInstallments(txs, gone))
  {
    var ofEnrollment := (t: PaymentTransaction) => t.enrollment == enrollment;
    var others := (t: PaymentTransaction) => t.enrollment != enrollment;
    var cleared := ClearInstallments(txs, gone);
    CountMapped(txs, (t: PaymentTransaction) => ClearInstallment(t, gone), ofEnrollment);
    CountComplement(cleared, ofEnrollment, others);
    var r := Filter(cleared, others);
    forall t | t in txs && t.enrollment != enrollment ensures ClearInstallment(t, gone) in r {
      var k :| 0 <= k < |txs| && txs[k] == t;
      assert cleared[k] == ClearInstallment(t, gone);
    }
    forall i | 0 <= i < |r| && r[i].installment.Some? ensures r[i].installment.value !in gone {
      assert r[i] in cleared;
    }
    forall i | 0 <= i < |r|
      ensures exists t :: t in txs && t.enrollment != enrollment && r[i] == ClearInstallment(t, gone)
    {
      var k :| 0 <= k < |cleared| && cleared[k] == r[i];
      assert txs[k] in txs && r[i] == ClearInstallment(txs[k], gone);
    }
    FilterIsSubseq(cleared, others);
    r
  }

  /** The transactions after a student profile is deleted. */
  function AfterStudentDeleted(txs: seq<PaymentTransaction>, student: Id): (r: seq<PaymentTransaction>)
    ensures |r| == |txs| - Count(txs, (t: PaymentTransaction) => t.student == student)
    ensures forall t :: t in r <==> t in txs && t.student != student
    ensures SubseqOf(r, txs)
  {
    var others := (t: PaymentTransaction) => t.student != student;
    CountComplement(txs, (t: PaymentTransaction) => t.student == student, others);
    FilterIsSubseq(txs, others);
    Filter(txs, others)
  }

  /** The ids of the rows a predicate selects. */
  function IdsWhere<T(!new)>(rows: seq<T>, id: T -> Id, p: T -> bool): (r: set<Id>)
    ensures forall x :: x in rows && p(x) ==> id(x) in r
    ensures forall k :: k in r ==> exists i :: 0 <= i < |rows| && p(rows[i]) && id(rows[i]) == k
  {
    set i | 0 <= i < |rows| && p(rows[i]) :: id(rows[i])
  }

  /** A filter of a ledger without duplicate numbers has none either. */
  lemma {:induction false} FilterKeepsUnique(rows: seq<Installments.Installment>, p: Installments.Installment -> bool)
    requires Installments.UniquePerPlan(rows)
    ensures Installments.UniquePerPlan(Filter(rows, p))
  {
    if rows != [] {
      FilterKeepsUnique(rows[1..], p);
      if p(rows[0]) {
        var tail := Filter(rows[1..], p);
        assert Filter(rows, p) == [rows[0]] + tail;
        forall j | 0 <= j < |tail|
          ensures !(rows[0].paymentPlan == tail[j].paymentPlan && rows[0].installmentNumber == tail[j].installmentNumber)
        {
          assert tail[j] in rows[1..];
        }
      }
    }
  }

  /** Installments whose plans are not deleted still find their plans. */
  lemma SurvivingPlansCover(plans: seq<PaymentPlan>, doomed: PaymentPlan -> bool,
                            rows: seq<Installments.Installment>)
    requires forall i :: 0 <= i < |rows| ==> PlanExists(plans, rows[i].paymentPlan)
    requires forall i :: 0 <= i < |rows| ==>
      rows[i].paymentPlan !in IdsWhere(plans, (p: PaymentPlan) => p.id, doomed)
    ensures forall i :: 0 <= i < |rows| ==>
      PlanExists(Filter(plans, (p: PaymentPlan) => !doomed(p)), rows[i].paymentPlan)
  {
    var kept := Filter(plans, (p: PaymentPlan) => !doomed(p));
    forall i | 0 <= i < |rows| ensures PlanExists(kept, rows[i].paymentPlan) {
      var k :| 0 <= k < |plans| && plans[k].id == rows[i].paymentPlan;
      assert plans[k] in kept;
    }
  }

  /** Once the installments `doomed` selects (keys `gone`) are removed and
      their references cleared, every remaining reference names a surviving
      installment. */
  lemma ClearedReferencesValid(txs: seq<PaymentTransaction>, rows: seq<Installments.Installment>,
                               doomed: Installments.Installment -> bool, gone: set<Id>)
    requires forall i :: 0 <= i < |txs| && txs[i].installment.Some? ==>
      InstallmentExists(rows, txs[i].installment.value)
    requires gone == IdsWhere(rows, (x: Installments.Installment) => x.id, doomed)
    ensures var cleared := ClearInstallments(txs, gone);
      forall i :: 0 <= i < |cleared| && cleared[i].installment.Some? ==>
        InstallmentExists(Filter(rows, (x: Installments.Installment) => !doomed(x)), cleared[i].installment.value)
  {
    var cleared := ClearInstallments(txs, gone);
    var kept := Filter(rows, (x: Installments.Installment) => !doomed(x));
    forall i | 0 <= i < |cleared| && cleared[i].installment.Some?
      ensures InstallmentExists(kept, cleared[i].installment.value)
    {
      var ref := cleared[i].installment.value;
      assert txs[i].installment == Some(ref);
      var k :| 0 <= k < |rows| && rows[k].id == ref;
      assert !doomed(rows[k]);
      assert rows[k] in kept;
    }
  }

  // ---------------------------------------------------------------------------
  // The store

  class PaymentStore {
    var plans: seq<PaymentPlan>
    var installments: seq<Installments.Installment>
    var transactions: seq<PaymentTransaction>
    var nextPlanId: Id
    var nextInstallmentId: Id
    var nextTransactionId: Id

    /** Keys are issued in increasing order and never reused. */
    ghost predicate KeysValid()
      reads this
    {
      && StrictlyAscending(plans, (p: PaymentPlan) => p.id)
      && StrictlyAscending(installments, (x: Installments.Installment) => x.id)
      && StrictlyAscending(transactions, (t: PaymentTransaction) => t.id)
      && (forall i :: 0 <= i < |plans| ==> plans[i].id < nextPlanId)
      && (forall i :: 0 <= i < |installments| ==> installments[i].id < nextInstallmentId)
      && (forall i :: 0 <= i < |transactions| ==> transactions[i].id < nextTransactionId)
    }

    /** Every installment belongs to a stored plan, and every transaction's
        installment reference, when set, names a stored installment. */
    ghost predicate ReferencesValid()
      reads this
    {
      && (forall i :: 0 <= i < |installments| ==> PlanExists(plans, installments[i].paymentPlan))
      && (forall i :: 0 <= i < |transactions| && transactions[i].installment.Some? ==>
            InstallmentExists(installments, transactions[i].installment.value))
    }

    ghost predicate Valid()
      reads this
    {
      KeysValid() && ReferencesValid() && Installments.UniquePerPlan(installments)
    }

    constructor()
      ensures Valid()
      ensures plans == [] && installments == [] && transactions == []
      ensures nextPlanId == 1 && nextInstallmentId == 1 && nextTransactionId == 1
    {
      plans, installments, transactions := [], [], [];
      nextPlanId, nextInstallmentId, nextTransactionId := 1, 1, 1;
    }

    /** `PaymentPlan.objects.create(...)`. */
    method AddPlan(enrollment: Id, planName: string, totalAmount: int, numberOfInstallments: int,
                   createdBy: Id, now: int)
      returns (r: Result<PaymentPlan, PlanError>)
      requires Valid()
      modifies this
      ensures Valid()
      ensures installments == old(installments) && transactions == old(transactions)
      ensures nextInstallmentId == old(nextInstallmentId) && nextTransactionId == old(nextTransactionId)
      ensures r.Err? <==> CheckPlan(planName, totalAmount, numberOfInstallments).Some?
      ensures r.Err? ==> r.error == CheckPlan(planName, totalAmount, numberOfInstallments).value
      ensures r.Err? ==> plans == old(plans) && nextPlanId == old(nextPlanId)
      ensures r.Ok? ==> r.value == PaymentPlan(old(nextPlanId), enrollment, planName, totalAmount,
                                               numberOfInstallments, createdBy, now)
      ensures r.Ok? ==> plans == old(plans) + [r.value] && nextPlanId == old(nextPlanId) + 1
    {
      var error := CheckPlan(planName, totalAmount, numberOfInstallments);
      if error.Some? {
        return Err(error.value);
      }
      var plan := PaymentPlan(nextPlanId, enrollment, planName, totalAmount,
                              numberOfInstallments, createdBy, now);
      forall i | 0 <= i < |installments| ensures PlanExists(plans + [plan], installments[i].paymentPlan) {
        PlanExistsAppend(plans, plan, installments[i].paymentPlan);
      }
      plans := plans + [plan];
      nextPlanId := nextPlanId + 1;
      r := Ok(plan);
    }

    /** `Installment.objects.create(...)`: refused when the number is out of
        the `integer` range,
        the amount overflows, the number is already used in that plan, or the
        plan does not exist; the status defaults to PENDING. */
    method AddInstallment(plan: Id, number: int, amount: int, dueDate: int,
                          status: Option<Installments.InstallmentStatus>)
      returns (r: Result<Installments.Installment, Installments.InstallmentError>)
      requires Valid()
      modifies this
      ensures Valid()
      ensures plans == old(plans) && transactions == old(transactions)
      ensures nextPlanId == old(nextPlanId) && nextTransactionId == old(nextTransactionId)
      ensures var check := Installments.CheckNew(old(installments), PlanExists(old(plans), plan), plan, number, amount);
        && (r.Err? <==> check.Some?)
        && (r.Err? ==> r.error == check.value && installments == old(installments)
                       && nextInstallmentId == old(nextInstallmentId))
      ensures r.Ok? ==>
        && number >= 0
        && r.value == Installments.Installment(old(nextInstallmentId), plan, number, amount, dueDate,
                        if status.Some? then status.value else Installments.DefaultInstallmentStatus)
        && installments == old(installments) + [r.value]
        && nextInstallmentId == old(nextInstallmentId) + 1
    {
      var planExists := exists i :: 0 <= i < |plans| && plans[i].id == plan;
      var error := Installments.CheckNew(installments, planExists, plan, number, amount);
      if error.Some? {
        return Err(error.value);
      }
      var row := Installments.Installment(nextInstallmentId, plan, number, amount, dueDate,
                   if status.Some? then status.value else Installments.DefaultInstallmentStatus);
      Installments.AcceptedKeepsUnique(installments, row);
      forall i | 0 <= i < |transactions| && transactions[i].installment.Some?
        ensures InstallmentExists(installments + [row], transactions[i].installment.value)
      {
        InstallmentExistsAppend(installments, row, transactions[i].installment.value);
      }
      installments := installments + [row];
      nextInstallmentId := nextInstallmentId + 1;
      r := Ok(row);
    }

    /** `PaymentTransaction.objects.create(...)`: refused when the amount
        overflows or the referenced installment does not exist; the status
        defaults to SUCCESS and the payment date to `today`. */
    method AddTransaction(enrollment: Id, installment: Option<Id>, student: Id, amount: int,
                          paymentMethod: PaymentMethod, paymentDate: Option<int>,
                          paymentStatus: Option<PaymentStatus>, notes: Option<string>,
                          today: int, now: int)
      returns (r: Result<PaymentTransaction, TransactionError>)
      requires Valid()
      modifies this
      ensures Valid()
      ensures plans == old(plans) && installments == old(installments)
      ensures nextPlanId == old(nextPlanId) && nextInstallmentId == old(nextInstallmentId)
      ensures r.Err? <==> !FitsMoney(amount) ||
                          (installment.Some? && !InstallmentExists(installments, installment.value))
      ensures r.Err? ==> transactions == old(transactions) && nextTransactionId == old(nextTransactionId)
      ensures r == Err(AmountOverflow) ==> !FitsMoney(amount)
      ensures r.Ok? ==> r.value == PaymentTransaction(old(nextTransactionId), enrollment, installment, student,
                          amount, paymentMethod,
                          if paymentDate.Some? then paymentDate.value else today,
                          if paymentStatus.Some? then paymentStatus.value else DefaultPaymentStatus,
                          notes, now)
      ensures r.Ok? ==> transactions == old(transactions) + [r.value]
                        && nextTransactionId == old(nextTransactionId) + 1
    {
      var known := installment.None? ||
                   exists i :: 0 <= i < |installments| && installments[i].id == installment.value;
      if !FitsMoney(amount) {
        r := Err(AmountOverflow);
      } else if !known {
        r := Err(UnknownInstallment);
      } else {
        var t := PaymentTransaction(nextTransactionId, enrollment, installment, student, amount, paymentMethod,
                                    if paymentDate.Some? then paymentDate.value else today,
                                    if paymentStatus.Some? then paymentStatus.value else DefaultPaymentStatus,
                                    notes, now);
        AppendKeepsStrict(transactions, t, (t: PaymentTransaction) => t.id);
        ghost var grown := transactions + [t];
        forall i | 0 <= i < |grown| && grown[i].installment.Some?
          ensures InstallmentExists(installments, grown[i].installment.value)
        {
          if i < |transactions| {
            assert grown[i] == transactions[i];
          }
        }
        transactions := transactions + [t];
        nextTransactionId := nextTransactionId + 1;
        r := Ok(t);
      }
    }

    /** Deleting one installment: it leaves the ledger, and the transactions
        that referred to it stay, with the reference cleared. */
    method DeleteInstallment(id: Id)
      requires Valid()
      modifies this
      ensures Valid()
      ensures plans == old(plans)
      ensures installments == Filter(old(installments), (x: Installments.Installment) => x.id != id)
      ensures transactions == ClearInstallments(old(transactions), {id})
      ensures nextPlanId == old(nextPlanId) && nextInstallmentId == old(nextInstallmentId)
      ensures nextTransactionId == old(nextTransactionId)
    {
      var doomed := (x: Installments.Installment) => x.id == id;
      var gone := IdsWhere(installments, (x: Installments.Installment) => x.id, doomed);
      ghost var txs0 := transactions;
      RemoveInstallments(doomed, gone);
      FilterExt(old(installments), (x: Installments.Installment) => !doomed(x),
                (x: Installments.Installment) => x.id != id);
      forall i | 0 <= i < |txs0| ensures ClearInstallment(txs0[i], gone) == ClearInstallment(txs0[i], {id}) {
        if txs0[i].installment == Some(id) {
          var k :| 0 <= k < |old(installments)| && old(installments)[k].id == id;
        }
      }
    }

    /** Deleting the plans `doomed` selects, with their installments (CASCADE),
        which clears the transactions' references to those installments.
        Returns the keys of the deleted installments. */
    method DeletePlans(doomed: PaymentPlan -> bool) returns (gone: set<Id>)
      requires Valid()
      modifies this
      ensures Valid()
      ensures plans == Filter(old(plans), (p: PaymentPlan) => !doomed(p))
      ensures var doomedIds := IdsWhere(old(plans), (p: PaymentPlan) => p.id, doomed);
        && installments == Filter(old(installments), (x: Installments.Installment) => x.paymentPlan !in doomedIds)
        && gone == IdsWhere(old(installments), (x: Installments.Installment) => x.id,
                            (x: Installments.Installment) => x.paymentPlan in doomedIds)
      ensures transactions == ClearInstallments(old(transactions), gone)
      ensures nextPlanId == old(nextPlanId) && nextInstallmentId == old(nextInstallmentId)
      ensures nextTransactionId == old(nextTransactionId)
    {
      var doomedIds := IdsWhere(plans, (p: PaymentPlan) => p.id, doomed);
      var inDoomed := (x: Installments.Installment) => x.paymentPlan in doomedIds;
      gone := IdsWhere(installments, (x: Installments.Installment) => x.id, inDoomed);
      RemoveInstallments(inDoomed, gone);
      FilterExt(old(installments), (x: Installments.Installment) => !inDoomed(x),
                (x: Installments.Installment) => x.paymentPlan !in doomedIds);
      RemovePlans(doomed);
    }

    /** Removes the plans `doomed` selects, once no installment belongs to them. */
    method RemovePlans(doomed: PaymentPlan -> bool)
      requires Valid()
      requires forall i :: 0 <= i < |installments| ==>
        installments[i].paymentPlan !in IdsWhere(plans, (p: PaymentPlan) => p.id, doomed)
      modifies this
      ensures Valid()
      ensures plans == Filter(old(plans), (p: PaymentPlan) => !doomed(p))
      ensures installments == old(installments) && transactions == old(transactions)
      ensures nextPlanId == old(nextPlanId) && nextInstallmentId == old(nextInstallmentId)
      ensures nextTransactionId == old(nextTransactionId)
    {
      var survives := (p: PaymentPlan) => !doomed(p);
      FilterKeepsStrict(plans, survives, (p: PaymentPlan) => p.id);
      SurvivingPlansCover(plans, doomed, installments);
      plans := Filter(plans, survives);
      forall i | 0 <= i < |plans| ensures plans[i].id < nextPlanId {
        assert plans[i] in old(plans);
      }
    }

    /** Removes the installments `doomed` selects, whose keys are `gone`, and
        clears the transaction references to them. */
    method RemoveInstallments(doomed: Installments.Installment -> bool, gone: set<Id>)
      requires Valid()
      requires gone == IdsWhere(installments, (x: Installments.Installment) => x.id, doomed)
      modifies this
      ensures Valid()
      ensures plans == old(plans)
      ensures installments == Filter(old(installments), (x: Installments.Installment) => !doomed(x))
      ensures transactions == ClearInstallments(old(transactions), gone)
      ensures nextPlanId == old(nextPlanId) && nextInstallmentId == old(nextInstallmentId)
      ensures nextTransactionId == old(nextTransactionId)
    {
      var keep := (x: Installments.Installment) => !doomed(x);
      FilterKeepsStrict(installments, keep, (x: Installments.Installment) => x.id);
      FilterKeepsUnique(installments, keep);
      installments := Filter(installments, keep);
      transactions := ClearInstallments(transactions, gone);
      forall i | 0 <= i < |installments| ensures PlanExists(plans, installments[i].paymentPlan) {
        assert installments[i] in old(installments);
      }
      ClearedReferencesValid(old(transactions), old(installments), doomed, gone);
    }

    /** Removes the transactions `keep` rejects. */
    method RemoveTransactions(keep: PaymentTransaction -> bool)
      requires Valid()
      modifies this
      ensures Valid()
      ensures plans == old(plans) && installments == old(installments)
      ensures transactions == Filter(old(transactions), keep)
      ensures nextPlanId == old(nextPlanId) && nextInstallmentId == old(nextInstallmentId)
      ensures nextTransactionId == old(nextTransactionId)
    {
      FilterKeepsStrict(transactions, keep, (t: PaymentTransaction) => t.id);
      transactions := Filter(transactions, keep);
      forall i | 0 <= i < |transactions| && transactions[i].installment.Some?
        ensures InstallmentExists(installments, transactions[i].installment.value)
      {
        assert transactions[i] in old(transactions);
      }
      forall i | 0 <= i < |transactions| ensures transactions[i].id < nextTransactionId {
        assert transactions[i] in old(transactions);
      }
    }

    /** Deleting an enrollment: its plans go with their installments
        (CASCADE), its transactions go (CASCADE), and the other transactions
        lose their references to the deleted installments (SET_NULL). Returns
        the keys of the deleted transactions, whose notifications then clear
        `related_payment`, and of the deleted installments. */
    method DeleteEnrollment(enrollment: Id) returns (removed: set<Id>, gone: set<Id>)
      requires Valid()
      modifies this
      ensures Valid()
      ensures plans == Filter(old(plans), (p: PaymentPlan) => p.enrollment != enrollment)
      ensures var doomedIds := IdsWhere(old(plans), (p: PaymentPlan) => p.id,
                                        (p: PaymentPlan) => p.enrollment == enrollment);
        && installments == Filter(old(installments), (x: Installments.Installment) => x.paymentPlan !in doomedIds)
        && gone == IdsWhere(old(installments), (x: Installments.Installment) => x.id,
                            (x: Installments.Installment) => x.paymentPlan in doomedIds)
      ensures transactions == AfterEnrollmentDeleted(old(transactions), enrollment, gone)
      ensures removed == IdsWhere(old(transactions), (t: PaymentTransaction) => t.id,
                                  (t: PaymentTransaction) => t.enrollment == enrollment)
      ensures nextPlanId == old(nextPlanId) && nextInstallmentId == old(nextInstallmentId)
      ensures nextTransactionId == old(nextTransactionId)
    {
      removed := IdsWhere(transactions, (t: PaymentTransaction) => t.id,
                          (t: PaymentTransaction) => t.enrollment == enrollment);
      var doomed := (p: PaymentPlan) => p.enrollment == enrollment;
      gone := DeletePlans(doomed);
      RemoveTransactions((t: PaymentTransaction) => t.enrollment != enrollment);
      FilterExt(old(plans), (p: PaymentPlan) => !doomed(p), (p: PaymentPlan) => p.enrollment != enrollment);
    }

    /** Deleting a student profile: its transactions go. Returns their keys. */
    method DeleteStudent(student: Id) returns (removed: set<Id>)
      requires Valid()
      modifies this
      ensures Valid()
      ensures plans == old(plans) && installments == old(installments)
      ensures transactions == AfterStudentDeleted(old(transactions), student)
      ensures removed == IdsWhere(old(transactions), (t: PaymentTransaction) => t.id,
                                  (t: PaymentTransaction) => t.student == student)
      ensures nextPlanId == old(nextPlanId) && nextInstallmentId == old(nextInstallmentId)
      ensures nextTransactionId == old(nextTransactionId)
    {
      removed := IdsWhere(transactions, (t: PaymentTransaction) => t.id,
                          (t: PaymentTransaction) => t.student == student);
      RemoveTransactions((t: PaymentTransaction) => t.student != student);
    }
  }
}
