/** Course cohorts: the `Batch` record, the row checks the database applies
    when a batch is stored, and the status/name filter of the batch list
    endpoint. Dates are day numbers. */
module Batches {
  import opened Common

  datatype Batch = Batch(
    id: Id,
    batchName: string,
    description: Option<string>,
    startDate: int,
    endDate: int,
    price: int,                // cents
    maxStudents: Option<int>,
    createdBy: Id,
    createdAt: int)

  const NameMaxLength: nat := 100

  /** Why the database refuses to store a batch row. */
  datatype BatchError =
    | InvalidDateRange          // CHECK constraint `valid_date_range`
    | NameTooLong               // varchar(100)
    | PriceOverflow             // numeric(10,2)
    | MaxStudentsOutOfRange     // PositiveIntegerField: integer with CHECK (>= 0)

  /** The `valid_date_range` check constraint. */
  predicate ValidDateRange(b: Batch) {
    b.endDate > b.startDate
  }

  /** Every column constraint of the `Batch` table holds. */
  predicate Storable(b: Batch) {
    && ValidDateRange(b)
    && |b.batchName| <= NameMaxLength
    && FitsMoney(b.price)
    && (b.maxStudents.Some? ==> FitsPositiveInt(b.maxStudents.value))
  }

  /** The outcome of writing `b`: no error exactly when every column
      constraint holds, and otherwise an error that names a constraint `b`
      breaks. */
  function CheckRow(b: Batch): (r: Option<BatchError>)
    ensures r.None? <==> Storable(b)
    ensures r == Some(InvalidDateRange) ==> b.endDate <= b.startDate
    ensures r == Some(NameTooLong) ==> |b.batchName| > NameMaxLength
    ensures r == Some(PriceOverflow) ==> !FitsMoney(b.price)
    ensures r == Some(MaxStudentsOutOfRange) ==> b.maxStudents.Some? && !FitsPositiveInt(b.maxStudents.value)
  {
    if !ValidDateRange(b) then Some(InvalidDateRange)
    else if |b.batchName| > NameMaxLength then Some(NameTooLong)
    else if !FitsMoney(b.price) then Some(PriceOverflow)
    else if b.maxStudents.Some? && !FitsPositiveInt(b.maxStudents.value) then Some(MaxStudentsOutOfRange)
    else None
  }

  /** A batch that starts and ends on the same day is refused by the date check. */
  lemma SameDayRejected(b: Batch)
    requires b.endDate == b.startDate
    ensures CheckRow(b) == Some(InvalidDateRange)
  {
  }

  // ---------------------------------------------------------------------------
  // BatchListView.get

  /** `start_date <= today <= end_date`. */
  predicate IsActive(b: Batch, today: int) {
    b.startDate <= today <= b.endDate
  }

  /** `start_date > today`. */
  predicate IsUpcoming(b: Batch, today: int) {
    b.startDate > today
  }

  /** The date condition selected by the `status` query parameter; any value
      other than "active" or "upcoming", or none, selects every batch. */
  predicate StatusMatches(b: Batch, status: Option<string>, today: int) {
    if status == Some("active") then IsActive(b, today)
    else if status == Some("upcoming") then IsUpcoming(b, today)
    else true
  }

  /** `if name:` — an absent or empty `name` parameter filters nothing. */
  predicate NameGiven(name: Option<string>) {
    name.Some? && name.value != ""
  }

  predicate NameMatches(b: Batch, name: Option<string>) {
    NameGiven(name) ==> IContains(b.batchName, name.value)
  }

  /** Whether one batch belongs in the listing. */
  predicate Listed(b: Batch, status: Option<string>, name: Option<string>, today: int) {
    StatusMatches(b, status, today) && NameMatches(b, name)
  }

  /** The list endpoint: narrow all batches by status, then by name. The
      result is exactly the batches `Listed` selects, in the table's order. */
  function ListBatches(all: seq<Batch>, status: Option<string>, name: Option<string>, today: int): (r: seq<Batch>)
    ensures r == Filter(all, (b: Batch) => Listed(b, status, name, today))
  {
    var byStatus :=
      if status == Some("active") then Filter(all, (b: Batch) => IsActive(b, today))
      else if status == Some("upcoming") then Filter(all, (b: Batch) => IsUpcoming(b, today))
      else all;
    var result :=
      if NameGiven(name) then Filter(byStatus, (b: Batch) => IContains(b.batchName, name.value))
      else byStatus;
    ListBatchesIsOneFilter(all, status, name, today, byStatus, result);
    result
  }

  lemma ListBatchesIsOneFilter(all: seq<Batch>, status: Option<string>, name: Option<string>, today: int,
                               byStatus: seq<Batch>, result: seq<Batch>)
    requires byStatus == if status == Some("active") then Filter(all, (b: Batch) => IsActive(b, today))
                         else if status == Some("upcoming") then Filter(all, (b: Batch) => IsUpcoming(b, today))
                         else all
    requires result == if NameGiven(name) then Filter(byStatus, (b: Batch) => IContains(b.batchName, name.value))
                       else byStatus
    ensures result == Filter(all, (b: Batch) => Listed(b, status, name, today))
  {
    var st := (b: Batch) => StatusMatches(b, status, today);
    var listed := (b: Batch) => Listed(b, status, name, today);
    if status == Some("active") {
      FilterExt(all, (b: Batch) => IsActive(b, today), st);
    } else if status == Some("upcoming") {
      FilterExt(all, (b: Batch) => IsUpcoming(b, today), st);
    } else {
      FilterAll(all, st);
    }
    assert byStatus == Filter(all, st);
    if NameGiven(name) {
      FilterFuse(all, st, (b: Batch) => IContains(b.batchName, name.value), listed);
    } else {
      FilterExt(all, st, listed);
    }
  }

  /** A batch is listed exactly when it is in the table and passes both
      conditions; the listing keeps the table's order and never grows. */
  lemma ListBatchesExact(all: seq<Batch>, status: Option<string>, name: Option<string>, today: int)
    ensures forall b :: b in ListBatches(all, status, name, today) <==>
      b in all && StatusMatches(b, status, today) && NameMatches(b, name)
    ensures SubseqOf(ListBatches(all, status, name, today), all)
    ensures |ListBatches(all, status, name, today)| <= |all|
  {
    FilterIsSubseq(all, (b: Batch) => Listed(b, status, name, today));
  }

  /** With status "active" and no name, the listing is the ordered selection
      of batches running on `today`. */
  lemma ActiveListing(all: seq<Batch>, today: int)
    ensures ListBatches(all, Some("active"), None, today) == Filter(all, (b: Batch) => IsActive(b, today))
  {
  }

  /** With status "upcoming" and no name, the listing is the ordered
      selection of batches starting after `today`. */
  lemma UpcomingListing(all: seq<Batch>, today: int)
    ensures ListBatches(all, Some("upcoming"), None, today) == Filter(all, (b: Batch) => IsUpcoming(b, today))
  {
  }

  /** Any other status value, with no usable name, lists the whole table. */
  lemma UnfilteredListing(all: seq<Batch>, status: Option<string>, name: Option<string>, today: int)
    requires status != Some("active") && status != Some("upcoming")
    requires !NameGiven(name)
    ensures ListBatches(all, status, name, today) == all
  {
  }

  /** The name filter ignores the case of the search text: searching for
      the upper-cased name lists the same batches. */
  lemma ListingIgnoresNameCase(all: seq<Batch>, status: Option<string>, name: string, today: int)
    ensures ListBatches(all, status, Some(Upper(name)), today) == ListBatches(all, status, Some(name), today)
  {
    forall b: Batch ensures Listed(b, status, Some(Upper(name)), today) == Listed(b, status, Some(name), today) {
      IContainsCaseBlind(b.batchName, name);
    }
    FilterExt(all, (b: Batch) => Listed(b, status, Some(Upper(name)), today),
              (b: Batch) => Listed(b, status, Some(name), today));
  }

  /** A `max_students` above the `integer` range is refused. */
  lemma MaxStudentsBound(b: Batch)
    requires ValidDateRange(b) && |b.batchName| <= NameMaxLength && FitsMoney(b.price)
    requires b.maxStudents == Some(IntMax + 1)
    ensures CheckRow(b) == Some(MaxStudentsOutOfRange)
  {
  }

  /** No batch is both active and upcoming on the same day. */
  lemma ActiveUpcomingDisjoint(all: seq<Batch>, name: Option<string>, today: int)
    ensures forall b :: !(b in ListBatches(all, Some("active"), name, today) &&
                          b in ListBatches(all, Some("upcoming"), name, today))
  {
  }

  /** A batch the database accepted is, on any day, in exactly one phase:
      upcoming, active, or finished. On its first day it is listed as active
      and the day before as upcoming. */
  lemma StoredBatchPhases(b: Batch, today: int)
    requires CheckRow(b).None?
    ensures IsUpcoming(b, today) || IsActive(b, today) || b.endDate < today
    ensures !(IsUpcoming(b, today) && IsActive(b, today))
    ensures !(b.endDate < today && (IsActive(b, today) || IsUpcoming(b, today)))
    ensures IsActive(b, b.startDate) && IsActive(b, b.startDate + 1)
    ensures IsUpcoming(b, b.startDate - 1)
  {
  }
}
