/** Student profiles and batch enrollments: the two `save()` overrides that
    derive a field before the row is written. */
module Students {
  import opened Common

  // ---------------------------------------------------------------------------
  // Enrollment status choices.

  datatype EnrollmentStatus = Active | Completed | Dropped | Suspended {
    /** The value stored in the `status` column. */
    function Code(): string {
      match this
      case Active => "ACTIVE"
      case Completed => "COMPLETED"
      case Dropped => "DROPPED"
      case Suspended => "SUSPENDED"
    }
  }

  const DefaultEnrollmentStatus: EnrollmentStatus := Active
  const StatusMaxLength: nat := 20

  /** Reads a stored `status` value back; anything outside the choices is None. */
  function ParseEnrollmentStatus(code: string): Option<EnrollmentStatus> {
    if code == "ACTIVE" then Some(Active)
    else if code == "COMPLETED" then Some(Completed)
    else if code == "DROPPED" then Some(Dropped)
    else if code == "SUSPENDED" then Some(Suspended)
    else None
  }

  /** Every status is stored as a code that fits the column and reads back
      as itself, and only the four codes read back at all. */
  lemma EnrollmentStatusCodes(s: EnrollmentStatus, code: string)
    ensures |s.Code()| <= StatusMaxLength
    ensures ParseEnrollmentStatus(s.Code()) == Some(s)
    ensures ParseEnrollmentStatus(code) == Some(s) ==> code == s.Code()
  {
  }

  // ---------------------------------------------------------------------------
  // StudentProfile.student_id

  const StudentIdPrefix: string := "STD-"
  const StudentIdMaxLength: nat := 12
  /** `uuid.uuid4().hex[:6]`: the number of hex digits kept. */
  const StudentIdDigits: nat := 6

  predicate IsLowerHexDigit(c: char) {
    '0' <= c <= '9' || 'a' <= c <= 'f'
  }

  predicate IsUpperHexDigit(c: char) {
    '0' <= c <= '9' || 'A' <= c <= 'F'
  }

  /** The shape of `uuid.UUID.hex`: 32 lower-case hex digits. */
  predicate IsUuidHex(h: string) {
    |h| == 32 && forall i :: 0 <= i < |h| ==> IsLowerHexDigit(h[i])
  }

  /** "STD-" followed by six upper-case hex digits. */
  predicate IsStudentId(id: string) {
    && |id| == |StudentIdPrefix| + StudentIdDigits
    && id[..|StudentIdPrefix|] == StudentIdPrefix
    && forall i :: |StudentIdPrefix| <= i < |id| ==> IsUpperHexDigit(id[i])
  }

  /** `f"STD-{uuid.uuid4().hex[:6].upper()}"`, the uuid's hex text given as input. */
  function NewStudentId(uuidHex: string): (r: string)
    requires IsUuidHex(uuidHex)
    ensures IsStudentId(r)
    ensures |r| <= StudentIdMaxLength
  {
    StudentIdPrefix + Upper(uuidHex[..StudentIdDigits])
  }

  /** The hex digits a student id was generated from, in the uuid's own
      lower case; None for text that is not a student id. */
  function StudentIdHex(id: string): (r: Option<string>)
    ensures r.Some? <==> IsStudentId(id)
    ensures r.Some? ==> |r.value| == StudentIdDigits &&
                        forall i :: 0 <= i < |r.value| ==> IsLowerHexDigit(r.value[i])
  {
    if IsStudentId(id) then
      var hex := Lower(id[|StudentIdPrefix|..]);
      assert forall i :: 0 <= i < |hex| ==> hex[i] == LowerChar(id[|StudentIdPrefix| + i]);
      Some(hex)
    else None
  }

  /** A generated id gives back the first six digits of the uuid it came from. */
  lemma NewStudentIdRoundTrip(uuidHex: string)
    requires IsUuidHex(uuidHex)
    ensures StudentIdHex(NewStudentId(uuidHex)) == Some(uuidHex[..StudentIdDigits])
  {
    var id := NewStudentId(uuidHex);
    var digits := uuidHex[..StudentIdDigits];
    assert id[|StudentIdPrefix|..] == Upper(digits);
    forall i | 0 <= i < StudentIdDigits
      ensures Lower(Upper(digits))[i] == digits[i]
    {
      assert IsLowerHexDigit(uuidHex[i]);
      assert Upper(digits)[i] == UpperChar(digits[i]);
    }
    assert Lower(Upper(digits)) == digits;
  }

  /** Distinct six-digit uuid prefixes give distinct student ids. */
  lemma NewStudentIdInjective(h1: string, h2: string)
    requires IsUuidHex(h1) && IsUuidHex(h2)
    requires h1[..StudentIdDigits] != h2[..StudentIdDigits]
    ensures NewStudentId(h1) != NewStudentId(h2)
  {
    NewStudentIdRoundTrip(h1);
    NewStudentIdRoundTrip(h2);
  }

  /** A student's profile. Only the fields `save()` reads or writes are kept. */
  class StudentProfile {
    var user: Id
    /** Empty until the first save, as a CharField without a default is. */
    var studentId: string

    constructor(user: Id)
      ensures this.user == user && studentId == ""
    {
      this.user := user;
      studentId := "";
    }

    /** `StudentProfile.save`: assign an id when none is set, never change one. */
    method Save(uuidHex: string)
      requires IsUuidHex(uuidHex)
      modifies this
      ensures user == old(user)
      ensures old(studentId) == "" ==> studentId == NewStudentId(uuidHex)
      ensures old(studentId) != "" ==> studentId == old(studentId)
      ensures studentId != ""
    {
      if studentId == "" {
        studentId := NewStudentId(uuidHex);
      }
    }
  }

  // ---------------------------------------------------------------------------
  // StudentBatchEnrollment.final_fee

  const DefaultDiscount: int := 0
  const CourseMaxLength: nat := 100

  /** The payable fee, in cents: the discount is not checked against the total. */
  function FinalFee(totalFee: int, discountAmount: int): (r: int)
    ensures r + discountAmount == totalFee
  {
    totalFee - discountAmount
  }

  /** With the default discount the payable fee is the total. */
  lemma DefaultDiscountKeepsTotal(totalFee: int)
    ensures FinalFee(totalFee, DefaultDiscount) == totalFee
  {
  }

  /** A discount above the total is accepted and gives a negative fee. */
  lemma OverDiscountGoesNegative(totalFee: int, discountAmount: int)
    requires discountAmount > totalFee
    ensures FinalFee(totalFee, discountAmount) < 0
  {
  }

  /** 500.00 with 50.00 off leaves 450.00. */
  lemma FinalFeeExample()
    ensures FinalFee(50000, 5000) == 45000
  {
  }

  /** One enrollment of a student in a batch, with its fee terms. */
  class Enrollment {
    var student: Id
    var batch: Id
    var course: string
    var status: EnrollmentStatus
    var totalFee: int
    var discountAmount: int
    /** None until the first save: the column has no default. */
    var finalFee: Option<int>

    /** A new, unsaved enrollment; omitted fields take the model defaults. */
    constructor(student: Id, batch: Id, course: string, totalFee: int,
                discountAmount: Option<int>, status: Option<EnrollmentStatus>)
      ensures this.student == student && this.batch == batch && this.course == course
      ensures this.totalFee == totalFee
      ensures this.discountAmount == (if discountAmount.Some? then discountAmount.value else DefaultDiscount)
      ensures this.status == (if status.Some? then status.value else DefaultEnrollmentStatus)
      ensures finalFee == None
    {
      this.student := student;
      this.batch := batch;
      this.course := course;
      this.totalFee := totalFee;
      this.discountAmount := if discountAmount.Some? then discountAmount.value else DefaultDiscount;
      this.status := if status.Some? then status.value else DefaultEnrollmentStatus;
      finalFee := None;
    }

    /** `StudentBatchEnrollment.save`: re-derive `final_fee` from the current
        total and discount on every save, then write the row. The write
        succeeds when all three amounts fit their numeric(10,2) columns and
        the course fits its varchar(100) column; the derived fee is assigned
        on the object either way. */
    method Save() returns (stored: bool)
      modifies this
      ensures finalFee == Some(FinalFee(totalFee, discountAmount))
      ensures totalFee == old(totalFee) && discountAmount == old(discountAmount)
      ensures student == old(student) && batch == old(batch) && course == old(course) && status == old(status)
      ensures stored <==> FitsMoney(totalFee) && FitsMoney(discountAmount) && FitsMoney(totalFee - discountAmount)
                          && |course| <= CourseMaxLength
    {
      finalFee := Some(totalFee - discountAmount);
      stored := FitsMoney(totalFee) && FitsMoney(discountAmount) && FitsMoney(finalFee.value)
                && |course| <= CourseMaxLength;
    }
  }
}
