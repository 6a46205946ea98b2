/** The records of the warehouse revision system (sklad/models.py) as values:
    the expected stock ledger uploaded from 1C, the auditors' counts, the
    derived result and unaccounted rows, revisions and assignments, and the
    small rules attached to them (the status rule of a result row, revision
    numbering, the validators on a count). Quantities are Decimal(12, 2) in
    the source and are integer cents here. */
module Models {

  type ProductId = int
  type UserId = int
  type WarehouseId = int
  /** Primary key of a revision: its position in the revision table. */
  type RevisionId = nat
  /** A quantity with two decimal places, in hundredths. */
  type Cents = int

  datatype Option<T> = None | Some(value: T)

  datatype Date = Date(year: int, month: int, day: int)

  /** Calendar order of dates. */
  predicate DateLe(a: Date, b: Date)
  {
    a.year < b.year
    || (a.year == b.year && a.month < b.month)
    || (a.year == b.year && a.month == b.month && a.day <= b.day)
  }

  // ---------------------------------------------------------------- users

  /** A user account; `role` is the free-text role column ('admin' or 'revizor'). */
  datatype User = User(id: UserId, role: string)

  predicate IsAdmin(u: User)
  {
    u.role == "admin"
  }

  predicate IsRevizor(u: User)
  {
    u.role == "revizor"
  }

  /** No account is both an administrator and an auditor; an account whose
      role is one of the two declared choices is exactly one of them. */
  lemma RolesExclusive(u: User)
    ensures !(IsAdmin(u) && IsRevizor(u))
    ensures u.role in {"admin", "revizor"} ==> (IsAdmin(u) <==> !IsRevizor(u))
  {
  }

  // ---------------------------------------------------------------- records

  datatype RevisionStatus = Pending | InProgress | Completed
  datatype AssignmentStatus = Assigned | Working | Finished
  datatype ResultStatus = Correct | Shortage | Excess

  /** A revision of one warehouse; `number` 0 stands for "not numbered yet". */
  datatype Revision = Revision(warehouse: WarehouseId, number: nat, status: RevisionStatus, createdBy: UserId)

  /** An auditor assigned to a revision. */
  datatype Assignment = Assignment(revision: RevisionId, revizor: UserId, status: AssignmentStatus)

  /** One expected-stock line of the 1C ledger (model Inventory). */
  datatype LedgerLine = LedgerLine(
    warehouse: WarehouseId,
    product: ProductId,
    series: string,
    expiry: Option<Date>,
    quantity: Cents)

  /** One count entered by an auditor (model RevisionItem); its expiry is NOT NULL. */
  datatype CountRecord = CountRecord(
    id: nat,
    revision: RevisionId,
    auditor: UserId,
    product: ProductId,
    series: string,
    expiry: Date,
    quantity: Cents)

  /** One derived result row (model RevisionResult). */
  datatype ResultRow = ResultRow(
    revision: RevisionId,
    product: ProductId,
    series: string,
    expiry: Option<Date>,
    expected: Cents,
    actual: Cents,
    difference: Cents,
    status: ResultStatus,
    auditors: set<UserId>)

  /** One counted record with no ledger line (model UnaccountedItem). */
  datatype UnaccountedRow = UnaccountedRow(
    revision: RevisionId,
    product: ProductId,
    series: string,
    expiry: Date,
    quantity: Cents,
    auditor: UserId)

  /** The batch key (product, series, expiry date) shared by ledger lines,
      counts and derived rows. A count's expiry is never NULL. */
  datatype BatchKey = BatchKey(product: ProductId, series: string, expiry: Option<Date>)

  /** The key on which counts merge: (revision, auditor, product, series, expiry). */
  datatype CountKeyFull = CountKeyFull(revision: RevisionId, auditor: UserId, product: ProductId, series: string, expiry: Date)

  // Named projections, used as grouping keys and weights.
  function LineProduct(l: LedgerLine): ProductId { l.product }
  function LineWarehouse(l: LedgerLine): WarehouseId { l.warehouse }
  function LineQuantity(l: LedgerLine): Cents { l.quantity }
  function LineKey(l: LedgerLine): BatchKey { BatchKey(l.product, l.series, l.expiry) }
  function CountProduct(c: CountRecord): ProductId { c.product }
  function CountRevision(c: CountRecord): RevisionId { c.revision }
  function CountQuantity(c: CountRecord): Cents { c.quantity }
  function CountAuditor(c: CountRecord): UserId { c.auditor }
  function CountKey(c: CountRecord): BatchKey { BatchKey(c.product, c.series, Some(c.expiry)) }
  function CountFullKey(c: CountRecord): CountKeyFull { CountKeyFull(c.revision, c.auditor, c.product, c.series, c.expiry) }
  function ResultProduct(r: ResultRow): ProductId { r.product }
  function ResultRevision(r: ResultRow): RevisionId { r.revision }
  function ResultDifference(r: ResultRow): Cents { r.difference }
  function ResultExpected(r: ResultRow): Cents { r.expected }
  function ResultActual(r: ResultRow): Cents { r.actual }
  function ResultKey(r: ResultRow): BatchKey { BatchKey(r.product, r.series, r.expiry) }
  function UnaccountedProduct(u: UnaccountedRow): ProductId { u.product }
  function UnaccountedRevision(u: UnaccountedRow): RevisionId { u.revision }
  function UnaccountedQuantity(u: UnaccountedRow): Cents { u.quantity }
  function UnaccountedKey(u: UnaccountedRow): BatchKey { BatchKey(u.product, u.series, Some(u.expiry)) }

  /** The unaccounted row that copies a count record field by field. */
  function ToUnaccounted(rev: RevisionId, c: CountRecord): UnaccountedRow
  {
    UnaccountedRow(rev, c.product, c.series, c.expiry, c.quantity, c.auditor)
  }

  // ---------------------------------------------------------------- status rule

  /** The sign rule for a difference: correct, shortage or excess. */
  function StatusOf(difference: Cents): (s: ResultStatus)
    ensures s == Correct <==> difference == 0
    ensures s == Shortage <==> difference < 0
    ensures s == Excess <==> difference > 0
  {
    if difference == 0 then Correct
    else if difference < 0 then Shortage
    else Excess
  }

  /** RevisionResult.calculate: a row's difference becomes actual minus
      expected and its status follows the sign of that difference; no other
      field changes. */
  function Calculate(row: ResultRow): (r: ResultRow)
    ensures r.difference == row.actual - row.expected
    ensures r.status == Correct <==> row.actual == row.expected
    ensures r.status == Shortage <==> row.actual < row.expected
    ensures r.status == Excess <==> row.actual > row.expected
    ensures r.(difference := row.difference, status := row.status) == row
  {
    var d := row.actual - row.expected;
    row.(difference := d, status := StatusOf(d))
  }

  /** A row whose difference and status agree with its quantities, as
      Calculate leaves it. */
  predicate Consistent(row: ResultRow)
  {
    row.difference == row.actual - row.expected && row.status == StatusOf(row.difference)
  }

  lemma CalculateConsistent(row: ResultRow)
    ensures Consistent(Calculate(row))
    ensures Consistent(row) ==> Calculate(row) == row
  {
  }

  // ---------------------------------------------------------------- validators

  /** The validators on a count's expiry date: 2025-01-01 up to 2050-12-31. */
  predicate ExpiryInValidatorRange(d: Date)
  {
    DateLe(Date(2025, 1, 1), d) && DateLe(d, Date(2050, 12, 31))
  }

  /** A date as produced by parsing "%Y-%m-%d". */
  predicate WellFormedDate(d: Date)
  {
    1 <= d.month <= 12 && 1 <= d.day <= 31
  }

  /** The year check done when a count is added agrees with the validator range. */
  lemma YearCheckMatchesValidators(d: Date)
    requires WellFormedDate(d)
    ensures (2025 <= d.year <= 2050) <==> ExpiryInValidatorRange(d)
  {
  }

  // ---------------------------------------------------------------- revision numbering

  /** The number Revision.save gives to a new revision of warehouse `w`: one
      more than the largest number in that warehouse, or 1 when it has none. */
  function NextRevisionNumber(revisions: seq<Revision>, w: WarehouseId): (n: nat)
    ensures n >= 1
    ensures forall r :: r in revisions && r.warehouse == w ==> r.number < n
    ensures n == 1 || exists r :: r in revisions && r.warehouse == w && r.number == n - 1
  {
    if revisions == [] then 1
    else
      var init := revisions[..|revisions| - 1];
      var last := revisions[|revisions| - 1];
      var m := NextRevisionNumber(init, w);
      assert forall r :: r in revisions ==> r in init || r == last;
      if last.warehouse == w && last.number + 1 > m then last.number + 1 else m
  }

  /** Revision numbers are unique within a warehouse. */
  predicate NumbersUnique(revisions: seq<Revision>)
  {
    forall i, j :: 0 <= i < j < |revisions| && revisions[i].warehouse == revisions[j].warehouse
      ==> revisions[i].number != revisions[j].number
  }

  /** Appending a revision numbered by Revision.save keeps numbers unique. */
  lemma NextNumberKeepsUnique(revisions: seq<Revision>, r: Revision)
    requires NumbersUnique(revisions)
    requires r.number == NextRevisionNumber(revisions, r.warehouse)
    ensures NumbersUnique(revisions + [r])
  {
    var s := revisions + [r];
    forall i, j | 0 <= i < j < |s| && s[i].warehouse == s[j].warehouse
      ensures s[i].number != s[j].number
    {
      if j == |revisions| {
        assert s[i] in revisions;
      } else {
        assert s[i] == revisions[i] && s[j] == revisions[j];
      }
    }
  }

  // ---------------------------------------------------------------- unique keys

  /** Two batch keys that a unique constraint over a nullable expiry_date
      column refuses side by side: equal, with a date. In SQL a NULL is
      distinct from every value, NULL included, so rows without an expiry
      date never clash. */
  predicate Clash(a: BatchKey, b: BatchKey)
  {
    a == b && a.expiry.Some?
  }

  /** unique_together (warehouse, product, series, expiry_date) on the
      ledger, where expiry_date is nullable. */
  predicate LedgerKeysUnique(ledger: seq<LedgerLine>)
  {
    forall i, j :: 0 <= i < j < |ledger| && ledger[i].warehouse == ledger[j].warehouse
      ==> !Clash(LineKey(ledger[i]), LineKey(ledger[j]))
  }

  /** unique_together (revision, revizor, product, series, expiry_date) on counts. */
  predicate CountKeysUnique(counts: seq<CountRecord>)
  {
    forall i, j :: 0 <= i < j < |counts| ==> CountFullKey(counts[i]) != CountFullKey(counts[j])
  }

  /** unique_together (revision, revizor) on assignments. */
  predicate AssignmentsUnique(assignments: seq<Assignment>)
  {
    forall i, j :: 0 <= i < j < |assignments|
      ==> (assignments[i].revision, assignments[i].revizor) != (assignments[j].revision, assignments[j].revizor)
  }

  /** unique_together (revision, product, series, expiry_date) on result
      rows, where expiry_date is nullable. */
  predicate ResultKeysUnique(results: seq<ResultRow>)
  {
    forall i, j :: 0 <= i < j < |results| && results[i].revision == results[j].revision
      ==> !Clash(ResultKey(results[i]), ResultKey(results[j]))
  }
}
