/** The tables of the revision system and the operations of sklad/views.py and
    sklad/admin.py that change them: creating a revision with its auditors,
    starting and completing it (from the admin pages, from the admin list
    actions, or when the last auditor finishes), entering, correcting and
    deleting counts, and recomputing the results of a revision with either
    reconciliation engine.

    Every table is a sequence in primary-key order; a revision's key is its
    position. The acting user, and whatever a request carries, are
    parameters. */
module Store {
  import opened Seqs
  import opened Models
  import ProductEngine
  import BatchEngine
  import LineSplitter

  /** How a request ends. */
  datatype Outcome =
    | Done
    | Forbidden        // an administrator on an auditor page, or the reverse
    | NotFound         // get_object_or_404 found nothing
    | NoAuditors       // a revision created with no auditor selected
    | NotAssigned      // the auditor is not assigned to the revision
    | BadDate          // the expiry date does not parse
    | YearOutOfRange   // the expiry year is outside 2025..2050
    | BadQuantity      // the quantity does not parse
    | NonPositive      // the quantity is zero or negative
    | NotInProgress    // the revision is no longer in progress
    | AlreadyFinished  // the auditor has already finished
    | IntegrityError   // the database refused the write

  /** The expiry field of an add request: empty, unparseable, or a date as
      "%Y-%m-%d" parses it. */
  datatype ExpiryInput = Blank | Unparseable | Parsed(date: Date)

  // ---------------------------------------------------------------- count merging

  /** The position of the first count record with key `k`, or -1. */
  function FindCount(counts: seq<CountRecord>, k: CountKeyFull): (i: int)
    ensures -1 <= i < |counts|
    ensures i >= 0 ==> CountFullKey(counts[i]) == k && forall j :: 0 <= j < i ==> CountFullKey(counts[j]) != k
    ensures i < 0 ==> forall j :: 0 <= j < |counts| ==> CountFullKey(counts[j]) != k
  {
    if counts == [] then -1
    else
      var i := FindCount(counts[..|counts| - 1], k);
      if i >= 0 then i
      else if CountFullKey(counts[|counts| - 1]) == k then |counts| - 1
      else -1
  }

  /** The count table after an add: the record with the same key grows by
      the new quantity, or the new record is appended. */
  function MergeCount(counts: seq<CountRecord>, c: CountRecord): seq<CountRecord>
  {
    var i := FindCount(counts, CountFullKey(c));
    if i < 0 then counts + [c]
    else counts[i := counts[i].(quantity := counts[i].quantity + c.quantity)]
  }

  /** The total counted under a full key. */
  function KeyTotal(counts: seq<CountRecord>, k: CountKeyFull): Cents
  {
    SumBy(FilterKey(counts, CountFullKey, k), CountQuantity)
  }

  /** An add keeps one record per key: it merges into the record with the
      same key instead of creating a second one, so the table grows only for
      a new key. */
  lemma MergeKeepsKeysUnique(counts: seq<CountRecord>, c: CountRecord)
    requires CountKeysUnique(counts)
    ensures CountKeysUnique(MergeCount(counts, c))
    ensures |MergeCount(counts, c)| == |counts| + (if FindCount(counts, CountFullKey(c)) < 0 then 1 else 0)
  {
    var m := MergeCount(counts, c);
    forall i, j | 0 <= i < j < |m| ensures CountFullKey(m[i]) != CountFullKey(m[j]) {
      if j == |counts| {
        assert m[i] == counts[i];
      }
    }
  }

  /** An add of quantity q raises by q the total under its own key, under
      its product (what the product-level engine compares) and under its
      batch key (what the batch-level engine compares), and no other
      total. */
  lemma MergeRaisesTotals(counts: seq<CountRecord>, c: CountRecord)
    ensures forall k ::
              KeyTotal(MergeCount(counts, c), k)
              == KeyTotal(counts, k) + (if k == CountFullKey(c) then c.quantity else 0)
    ensures forall p ::
              ProductEngine.ActualTotal(MergeCount(counts, c), p)
              == ProductEngine.ActualTotal(counts, p) + (if p == c.product then c.quantity else 0)
    ensures forall k ::
              BatchEngine.BatchActual(MergeCount(counts, c), k)
              == BatchEngine.BatchActual(counts, k) + (if k == CountKey(c) then c.quantity else 0)
  {
    forall k ensures KeyTotal(MergeCount(counts, c), k) == KeyTotal(counts, k) + (if k == CountFullKey(c) then c.quantity else 0) {
      MergeSum(counts, c, CountFullKey, k);
    }
    forall p ensures ProductEngine.ActualTotal(MergeCount(counts, c), p)
                     == ProductEngine.ActualTotal(counts, p) + (if p == c.product then c.quantity else 0) {
      MergeSum(counts, c, CountProduct, p);
    }
    forall k ensures BatchEngine.BatchActual(MergeCount(counts, c), k)
                     == BatchEngine.BatchActual(counts, k) + (if k == CountKey(c) then c.quantity else 0) {
      MergeSum(counts, c, CountKey, k);
    }
  }

  /** The merge raises the group sum of `k`, for any key that the record's
      full key determines, by the added quantity when `k` is its key. */
  lemma MergeSum<K>(counts: seq<CountRecord>, c: CountRecord, key: CountRecord -> K, k: K)
    requires var i := FindCount(counts, CountFullKey(c));
      i >= 0 ==> key(counts[i]) == key(c) && key(counts[i].(quantity := counts[i].quantity + c.quantity)) == key(c)
    ensures SumBy(FilterKey(MergeCount(counts, c), key, k), CountQuantity)
         == SumBy(FilterKey(counts, key, k), CountQuantity) + (if key(c) == k then c.quantity else 0)
  {
    var i := FindCount(counts, CountFullKey(c));
    if i < 0 {
      SumKeyAppend(counts, c, key, k, CountQuantity);
    } else {
      SumKeyUpdate(counts, i, counts[i].(quantity := counts[i].quantity + c.quantity), key, k, CountQuantity);
    }
  }

  // ---------------------------------------------------------------- recomputation

  /** The ledger lines of warehouse `w`. */
  function WarehouseLines(ledger: seq<LedgerLine>, w: WarehouseId): seq<LedgerLine>
  {
    FilterKey(ledger, LineWarehouse, w)
  }

  /** The result rows a product-level recomputation writes meet their unique
      constraint whenever the ledger meets its own: the lines of one
      warehouse are in one warehouse and keep the ledger's constraint. */
  lemma RecomputedKeysUnique(ledger: seq<LedgerLine>, w: WarehouseId, rev: RevisionId, counts: seq<CountRecord>)
    requires LedgerKeysUnique(ledger)
    ensures ResultKeysUnique(ProductEngine.ProductResults(rev, WarehouseLines(ledger, w), RevisionCounts(counts, rev)))
  {
    var lines := WarehouseLines(ledger, w);
    var ok := (a: LedgerLine, b: LedgerLine) => a.warehouse == b.warehouse ==> !Clash(LineKey(a), LineKey(b));
    assert Pairwise(ledger, ok);
    FilterKeyPairwise(ledger, LineWarehouse, w, ok);
    FilterKeyMembers(ledger, LineWarehouse, w);
    forall i, j | 0 <= i < j < |lines| ensures lines[i].warehouse == lines[j].warehouse {
      assert lines[i] in lines && lines[j] in lines;
    }
    ProductEngine.ProductResultKeysUnique(rev, lines, RevisionCounts(counts, rev));
  }

  /** The count records of revision `rev`. */
  function RevisionCounts(counts: seq<CountRecord>, rev: RevisionId): seq<CountRecord>
  {
    FilterKey(counts, CountRevision, rev)
  }

  /** A table after a run for revision `rev`: the revision's old rows are
      deleted and the run's rows appended. */
  function Rerun<T(==), K(==)>(table: seq<T>, revisionOf: T -> K, rev: K, rows: seq<T>): seq<T>
  {
    Without(table, revisionOf, rev) + rows
  }

  /** What a run leaves: the other revisions' rows as they were, and the
      run's rows as the revision's rows. Running again with the same rows
      therefore changes nothing. */
  lemma RerunShape<T, K>(table: seq<T>, revisionOf: T -> K, rev: K, rows: seq<T>)
    requires forall x :: x in rows ==> revisionOf(x) == rev
    ensures Without(Rerun(table, revisionOf, rev, rows), revisionOf, rev) == Without(table, revisionOf, rev)
    ensures FilterKey(Rerun(table, revisionOf, rev, rows), revisionOf, rev) == rows
    ensures forall q :: q != rev ==> FilterKey(Rerun(table, revisionOf, rev, rows), revisionOf, q) == FilterKey(table, revisionOf, q)
    ensures Rerun(Rerun(table, revisionOf, rev, rows), revisionOf, rev, rows) == Rerun(table, revisionOf, rev, rows)
  {
    RerunKeepsOthers(table, revisionOf, rev, rows);
    RerunOwnRows(table, revisionOf, rev, rows);
    forall q | q != rev
      ensures FilterKey(Rerun(table, revisionOf, rev, rows), revisionOf, q) == FilterKey(table, revisionOf, q)
    {
      RerunOtherRows(table, revisionOf, rev, rows, q);
    }
  }

  lemma RerunKeepsOthers<T, K>(table: seq<T>, revisionOf: T -> K, rev: K, rows: seq<T>)
    requires forall x :: x in rows ==> revisionOf(x) == rev
    ensures Without(Rerun(table, revisionOf, rev, rows), revisionOf, rev) == Without(table, revisionOf, rev)
  {
    var kept := Without(table, revisionOf, rev);
    WithoutConcat(kept, rows, revisionOf, rev);
    WithoutTwice(table, revisionOf, rev);
    WithoutUniform(rows, revisionOf, rev);
    assert kept + [] == kept;
  }

  lemma RerunOwnRows<T, K>(table: seq<T>, revisionOf: T -> K, rev: K, rows: seq<T>)
    requires forall x :: x in rows ==> revisionOf(x) == rev
    ensures FilterKey(Rerun(table, revisionOf, rev, rows), revisionOf, rev) == rows
  {
    var kept := Without(table, revisionOf, rev);
    FilterKeyConcat(kept, rows, revisionOf, rev);
    FilterWithout(table, revisionOf, rev, rev);
    FilterKeyUniform(rows, revisionOf, rev, rev);
  }

  lemma RerunOtherRows<T, K>(table: seq<T>, revisionOf: T -> K, rev: K, rows: seq<T>, q: K)
    requires forall x :: x in rows ==> revisionOf(x) == rev
    requires q != rev
    ensures FilterKey(Rerun(table, revisionOf, rev, rows), revisionOf, q) == FilterKey(table, revisionOf, q)
  {
    var kept := Without(table, revisionOf, rev);
    FilterKeyConcat(kept, rows, revisionOf, q);
    FilterKeyUniform(rows, revisionOf, rev, q);
    FilterWithout(table, revisionOf, rev, q);
    assert FilterKey(kept, revisionOf, q) + [] == FilterKey(kept, revisionOf, q);
  }

  /** Completing a revision twice over the same ledger and counts leaves
      the output tables as one completion did: the product-level engine's
      rows all belong to the revision they were computed for. */
  lemma ProductRunIdempotent(results: seq<ResultRow>, unaccounted: seq<UnaccountedRow>,
                             rev: RevisionId, lines: seq<LedgerLine>, mine: seq<CountRecord>)
    ensures var rows := ProductEngine.ProductResults(rev, lines, mine);
      Rerun(Rerun(results, ResultRevision, rev, rows), ResultRevision, rev, rows) == Rerun(results, ResultRevision, rev, rows)
    ensures var rows := ProductEngine.ProductUnaccounted(rev, lines, mine);
      Rerun(Rerun(unaccounted, UnaccountedRevision, rev, rows), UnaccountedRevision, rev, rows)
      == Rerun(unaccounted, UnaccountedRevision, rev, rows)
  {
    ProductEngine.ResultsConsistent(rev, lines, mine);
    ProductEngine.UnaccountedOnlyUnledgered(rev, lines, mine);
    RerunKeepsOthers(results, ResultRevision, rev, ProductEngine.ProductResults(rev, lines, mine));
    RerunKeepsOthers(unaccounted, UnaccountedRevision, rev, ProductEngine.ProductUnaccounted(rev, lines, mine));
  }

  /** The rows of revision `rev` are the batch-level engine's rows for the
      ledger of its warehouse and its counts. */
  predicate BatchCurrent(revisions: seq<Revision>, ledger: seq<LedgerLine>, counts: seq<CountRecord>,
                         results: seq<ResultRow>, unaccounted: seq<UnaccountedRow>, rev: RevisionId)
    requires rev < |revisions|
  {
    var lines, mine := WarehouseLines(ledger, revisions[rev].warehouse), RevisionCounts(counts, rev);
    && FilterKey(results, ResultRevision, rev) == BatchEngine.BatchResults(rev, lines, mine)
    && FilterKey(unaccounted, UnaccountedRevision, rev) == BatchEngine.BatchUnaccounted(rev, lines, mine)
  }

  /** The rows of revision `rev` are the same in two versions of the
      output tables. */
  predicate SameRows(results: seq<ResultRow>, unaccounted: seq<UnaccountedRow>,
                     results': seq<ResultRow>, unaccounted': seq<UnaccountedRow>, rev: RevisionId)
  {
    && FilterKey(results, ResultRevision, rev) == FilterKey(results', ResultRevision, rev)
    && FilterKey(unaccounted, UnaccountedRevision, rev) == FilterKey(unaccounted', UnaccountedRevision, rev)
  }

  /** One batch-level run for `rev` makes `rev` current and keeps every
      other revision's rows. */
  lemma BatchRunEffect(revisions: seq<Revision>, ledger: seq<LedgerLine>, counts: seq<CountRecord>,
                       results: seq<ResultRow>, unaccounted: seq<UnaccountedRow>, rev: RevisionId)
    requires rev < |revisions|
    ensures var lines, mine := WarehouseLines(ledger, revisions[rev].warehouse), RevisionCounts(counts, rev);
      var results' := Rerun(results, ResultRevision, rev, BatchEngine.BatchResults(rev, lines, mine));
      var unaccounted' := Rerun(unaccounted, UnaccountedRevision, rev, BatchEngine.BatchUnaccounted(rev, lines, mine));
      && BatchCurrent(revisions, ledger, counts, results', unaccounted', rev)
      && forall q :: q != rev ==> SameRows(results', unaccounted', results, unaccounted, q)
  {
    var lines, mine := WarehouseLines(ledger, revisions[rev].warehouse), RevisionCounts(counts, rev);
    BatchResultsBelong(rev, lines, mine);
    RerunShape(results, ResultRevision, rev, BatchEngine.BatchResults(rev, lines, mine));
    RerunShape(unaccounted, UnaccountedRevision, rev, BatchEngine.BatchUnaccounted(rev, lines, mine));
  }

  lemma BatchResultsBelong(rev: RevisionId, lines: seq<LedgerLine>, mine: seq<CountRecord>)
    ensures forall r :: r in BatchEngine.BatchResults(rev, lines, mine) ==> ResultRevision(r) == rev
    ensures forall u :: u in BatchEngine.BatchUnaccounted(rev, lines, mine) ==> UnaccountedRevision(u) == rev
  {
    BatchEngine.BatchRowsExact(rev, lines, mine);
    BatchEngine.BatchUnaccountedProps(rev, lines, mine);
  }

  // ---------------------------------------------------------------- status changes

  /** The bulk update of the admin list actions: the selected revisions in
      status `from` move to status `to`, nothing else changes. */
  function BulkStatus(revisions: seq<Revision>, selected: set<RevisionId>, from: RevisionStatus, to: RevisionStatus): (r: seq<Revision>)
    ensures |r| == |revisions|
    ensures forall i :: 0 <= i < |r| ==>
      r[i] == if i in selected && revisions[i].status == from then revisions[i].(status := to) else revisions[i]
  {
    seq(|revisions|, i requires 0 <= i < |revisions| =>
      if i in selected && revisions[i].status == from then revisions[i].(status := to) else revisions[i])
  }

  /** The revisions the bulk update changes. */
  function Changed(revisions: seq<Revision>, selected: set<RevisionId>, from: RevisionStatus): set<RevisionId>
  {
    set i | 0 <= i < |revisions| && i in selected && revisions[i].status == from
  }

  /** All assignments of revision `rev` set to working (admin_revision_start). */
  function SetWorking(assignments: seq<Assignment>, rev: RevisionId): (r: seq<Assignment>)
    ensures |r| == |assignments|
    ensures forall i :: 0 <= i < |r| ==>
      r[i] == if assignments[i].revision == rev then assignments[i].(status := Working) else assignments[i]
  {
    seq(|assignments|, i requires 0 <= i < |assignments| =>
      if assignments[i].revision == rev then assignments[i].(status := Working) else assignments[i])
  }

  /** No assignment of revision `rev` is left unfinished. */
  predicate AllFinished(assignments: seq<Assignment>, rev: RevisionId)
  {
    forall i :: 0 <= i < |assignments| && assignments[i].revision == rev ==> assignments[i].status == Finished
  }

  predicate IsAssigned(assignments: seq<Assignment>, rev: RevisionId, auditor: UserId)
  {
    exists i :: 0 <= i < |assignments| && assignments[i].revision == rev && assignments[i].revizor == auditor
  }

  /** The assignments written for a new revision, one per selected auditor. */
  function AssignAll(rev: RevisionId, auditors: seq<UserId>): (r: seq<Assignment>)
    ensures |r| == |auditors|
    ensures forall i :: 0 <= i < |r| ==> r[i] == Assignment(rev, auditors[i], Assigned)
  {
    seq(|auditors|, i requires 0 <= i < |auditors| => Assignment(rev, auditors[i], Assigned))
  }

  /** Writing the assignments of a new revision, for distinct auditors,
      keeps one assignment per auditor and revision. */
  lemma AppendAssignments(before: seq<Assignment>, id: RevisionId, auditors: seq<UserId>)
    requires AssignmentsUnique(before)
    requires forall a :: a in before ==> a.revision < id
    requires Distinct(auditors)
    ensures AssignmentsUnique(before + AssignAll(id, auditors))
    ensures forall a :: a in before + AssignAll(id, auditors) ==> a.revision <= id
  {
    var s := before + AssignAll(id, auditors);
    forall i, j | 0 <= i < j < |s|
      ensures (s[i].revision, s[i].revizor) != (s[j].revision, s[j].revizor)
    {
      if j >= |before| && i < |before| {
        assert s[i] in before;
      }
    }
  }

  /** Moving one revision forward keeps every warehouse and number. */
  lemma StatusChange(revisions: seq<Revision>, rev: RevisionId, to: RevisionStatus)
    requires rev < |revisions| && Rank(revisions[rev].status) <= Rank(to)
    ensures NumbersUnique(revisions) ==> NumbersUnique(revisions[rev := revisions[rev].(status := to)])
    ensures StatusesAdvance(revisions, revisions[rev := revisions[rev].(status := to)])
  {
  }

  /** Setting assignments to working keeps their keys. */
  lemma SetWorkingKeepsKeys(assignments: seq<Assignment>, rev: RevisionId)
    requires AssignmentsUnique(assignments)
    ensures AssignmentsUnique(SetWorking(assignments, rev))
    ensures forall a :: a in SetWorking(assignments, rev) ==> exists b :: b in assignments && a.revision == b.revision
  {
    var s := SetWorking(assignments, rev);
    forall a | a in s ensures exists b :: b in assignments && a.revision == b.revision {
      var i :| 0 <= i < |s| && s[i] == a;
      assert assignments[i] in assignments;
    }
  }

  /** The position of the count record with primary key `id` entered by
      `auditor`, or -1. */
  function FindRecord(counts: seq<CountRecord>, id: nat, auditor: UserId): (i: int)
    ensures -1 <= i < |counts|
    ensures i >= 0 ==> counts[i].id == id && counts[i].auditor == auditor
    ensures i < 0 ==> forall j :: 0 <= j < |counts| ==> !(counts[j].id == id && counts[j].auditor == auditor)
  {
    if counts == [] then -1
    else if counts[|counts| - 1].id == id && counts[|counts| - 1].auditor == auditor then |counts| - 1
    else FindRecord(counts[..|counts| - 1], id, auditor)
  }

  /** The conditions under which revizor_add_item writes. */
  predicate AddAccepted(user: User, revisions: seq<Revision>, products: set<ProductId>, assignments: seq<Assignment>,
                        rev: RevisionId, product: ProductId, expiry: ExpiryInput, quantity: Option<Cents>)
  {
    && CountingOpen(user, revisions, products, assignments, rev, product)
    && expiry.Parsed? && 2025 <= expiry.date.year <= 2050
    && quantity.Some? && quantity.value > 0
  }

  /** The checks of an add that come before its fields are read: an auditor
      assigned to a revision in progress, and a product that exists. */
  predicate CountingOpen(user: User, revisions: seq<Revision>, products: set<ProductId>, assignments: seq<Assignment>,
                         rev: RevisionId, product: ProductId)
  {
    && !IsAdmin(user)
    && rev < |revisions| && revisions[rev].status == InProgress
    && product in products
    && IsAssigned(assignments, rev, user.id)
  }

  /** An expiry field that passes the date checks: blank, or a date whose
      year is in 2025..2050. */
  predicate ExpiryPasses(expiry: ExpiryInput)
  {
    expiry.Blank? || (expiry.Parsed? && 2025 <= expiry.date.year <= 2050)
  }

  /** The loop of admin_revision_create over the selected auditors: the
      assignments written before an auditor selected a second time stops
      it. */
  method WriteAssignments(id: RevisionId, selected: seq<UserId>) returns (added: seq<Assignment>, clash: bool)
    ensures |added| <= |selected|
    ensures Distinct(selected[..|added|]) && added == AssignAll(id, selected[..|added|])
    ensures clash <==> |added| < |selected|
    ensures clash ==> selected[|added|] in selected[..|added|]
  {
    added, clash := [], false;
    var k := 0;
    while k < |selected|
      invariant 0 <= k <= |selected| && k == |added|
      invariant Distinct(selected[..k])
      invariant added == AssignAll(id, selected[..k])
    {
      if selected[k] in selected[..k] {
        return added, true;
      }
      DistinctConcat(selected[..k], [selected[k]]);
      assert selected[..k + 1] == selected[..k] + [selected[k]];
      added := added + [Assignment(id, selected[k], Assigned)];
      k := k + 1;
    }
  }

  /** Under unique keys a record's key total is its own quantity. */
  lemma UniqueKeyTotal(counts: seq<CountRecord>, i: nat)
    requires CountKeysUnique(counts) && i < |counts|
    ensures FilterKey(counts, CountFullKey, CountFullKey(counts[i])) == [counts[i]]
    ensures KeyTotal(counts, CountFullKey(counts[i])) == counts[i].quantity
  {
    UniqueKeyGroup(counts, i);
    SumByConcat([], [counts[i]], CountQuantity);
    assert [] + [counts[i]] == [counts[i]];
  }

  /** Under unique keys a record is alone in its key's group. */
  lemma UniqueKeyGroup(counts: seq<CountRecord>, i: nat)
    requires CountKeysUnique(counts) && i < |counts|
    ensures FilterKey(counts, CountFullKey, CountFullKey(counts[i])) == [counts[i]]
  {
    var c := counts[i];
    var k := CountFullKey(c);
    var a, b := counts[..i], counts[i + 1..];
    forall x | x in a ensures CountFullKey(x) != k {
      var j :| 0 <= j < |a| && a[j] == x;
      assert x == counts[j];
    }
    forall x | x in b ensures CountFullKey(x) != k {
      var j :| 0 <= j < |b| && b[j] == x;
      assert x == counts[i + 1 + j];
    }
    SplitAt(counts, i);
    FilterKeySingle(a, c, b, CountFullKey, k);
  }

  /** revizor_update_item sets the record's key total to the new quantity
      and moves the product and batch totals by the change. */
  lemma UpdateSetsTotals(counts: seq<CountRecord>, i: nat, q: Cents)
    requires CountKeysUnique(counts) && i < |counts|
    ensures var u := counts[i := counts[i].(quantity := q)];
      && CountKeysUnique(u)
      && KeyTotal(u, CountFullKey(counts[i])) == q
      && (forall p :: ProductEngine.ActualTotal(u, p)
                      == ProductEngine.ActualTotal(counts, p) + (if p == counts[i].product then q - counts[i].quantity else 0))
      && (forall k :: BatchEngine.BatchActual(u, k)
                      == BatchEngine.BatchActual(counts, k) + (if k == CountKey(counts[i]) then q - counts[i].quantity else 0))
  {
    var x := counts[i].(quantity := q);
    var u := counts[i := x];
    assert forall j :: 0 <= j < |u| ==> CountFullKey(u[j]) == CountFullKey(counts[j]);
    UniqueKeyTotal(u, i);
    forall p ensures ProductEngine.ActualTotal(u, p)
                     == ProductEngine.ActualTotal(counts, p) + (if p == counts[i].product then q - counts[i].quantity else 0) {
      SumKeyUpdate(counts, i, x, CountProduct, p, CountQuantity);
    }
    forall k ensures BatchEngine.BatchActual(u, k)
                     == BatchEngine.BatchActual(counts, k) + (if k == CountKey(counts[i]) then q - counts[i].quantity else 0) {
      SumKeyUpdate(counts, i, x, CountKey, k, CountQuantity);
    }
  }

  /** The count table without record `i`. */
  function RemoveAt(counts: seq<CountRecord>, i: nat): (r: seq<CountRecord>)
    requires i < |counts|
    ensures |r| == |counts| - 1
    ensures forall j :: 0 <= j < |r| ==> r[j] == if j < i then counts[j] else counts[j + 1]
  {
    counts[..i] + counts[i + 1..]
  }

  /** revizor_delete_item removes the record's key altogether and lowers
      the product and batch totals by its quantity. */
  lemma DeleteDropsTotals(counts: seq<CountRecord>, i: nat)
    requires CountKeysUnique(counts) && i < |counts|
    ensures var d := RemoveAt(counts, i);
      && CountKeysUnique(d)
      && FilterKey(d, CountFullKey, CountFullKey(counts[i])) == []
      && (forall p :: ProductEngine.ActualTotal(d, p)
                      == ProductEngine.ActualTotal(counts, p) - (if p == counts[i].product then counts[i].quantity else 0))
      && (forall k :: BatchEngine.BatchActual(d, k)
                      == BatchEngine.BatchActual(counts, k) - (if k == CountKey(counts[i]) then counts[i].quantity else 0))
  {
    var a, b, c := counts[..i], counts[i + 1..], counts[i];
    var d := RemoveAt(counts, i);
    assert counts == a + [c] + b;
    assert d == a + b;
    FilterKeyAbsent(a, CountFullKey, CountFullKey(c));
    FilterKeyAbsent(b, CountFullKey, CountFullKey(c));
    FilterKeyConcat(a, b, CountFullKey, CountFullKey(c));
    forall p ensures ProductEngine.ActualTotal(d, p)
                     == ProductEngine.ActualTotal(counts, p) - (if p == c.product then c.quantity else 0) {
      RemoveSum(a, c, b, CountProduct, p);
    }
    forall k ensures BatchEngine.BatchActual(d, k)
                     == BatchEngine.BatchActual(counts, k) - (if k == CountKey(c) then c.quantity else 0) {
      RemoveSum(a, c, b, CountKey, k);
    }
  }

  lemma RemoveSum<K>(a: seq<CountRecord>, c: CountRecord, b: seq<CountRecord>, key: CountRecord -> K, k: K)
    ensures SumBy(FilterKey(a + b, key, k), CountQuantity)
         == SumBy(FilterKey(a + [c] + b, key, k), CountQuantity) - (if key(c) == k then c.quantity else 0)
  {
    FilterKeyConcat(a, b, key, k);
    SumByConcat(FilterKey(a, key, k), FilterKey(b, key, k), CountQuantity);
    SplitSum(a, c, b, key, k, CountQuantity);
  }

  /** What Valid asks of the count table. */
  predicate CountsValid(counts: seq<CountRecord>, n: nat, nextId: nat)
  {
    && CountKeysUnique(counts)
    && (forall c :: c in counts ==>
          c.revision < n && c.quantity > 0 && ExpiryInValidatorRange(c.expiry) && c.id < nextId)
    && (forall i, j :: 0 <= i < j < |counts| ==> counts[i].id != counts[j].id)
  }

  lemma MergeKeepsValid(counts: seq<CountRecord>, c: CountRecord, n: nat, nextId: nat)
    requires CountsValid(counts, n, nextId)
    requires c.id == nextId && c.revision < n && c.quantity > 0 && ExpiryInValidatorRange(c.expiry)
    ensures FindCount(counts, CountFullKey(c)) < 0 ==> CountsValid(MergeCount(counts, c), n, nextId + 1)
    ensures FindCount(counts, CountFullKey(c)) >= 0 ==> CountsValid(MergeCount(counts, c), n, nextId)
  {
    MergeKeepsKeysUnique(counts, c);
    var i := FindCount(counts, CountFullKey(c));
    if i >= 0 {
      UpdateKeepsValid(counts, i, counts[i].quantity + c.quantity, n, nextId);
    }
  }

  lemma UpdateKeepsValid(counts: seq<CountRecord>, i: nat, q: Cents, n: nat, nextId: nat)
    requires CountsValid(counts, n, nextId) && i < |counts| && q > 0
    ensures CountsValid(counts[i := counts[i].(quantity := q)], n, nextId)
  {
    var u := counts[i := counts[i].(quantity := q)];
    assert forall j :: 0 <= j < |u| ==> CountFullKey(u[j]) == CountFullKey(counts[j]) && u[j].id == counts[j].id;
    forall c | c in u ensures c.revision < n && c.quantity > 0 && ExpiryInValidatorRange(c.expiry) && c.id < nextId {
      var j :| 0 <= j < |u| && u[j] == c;
      assert counts[j] in counts;
    }
  }

  lemma DeleteKeepsValid(counts: seq<CountRecord>, i: nat, n: nat, nextId: nat)
    requires CountsValid(counts, n, nextId) && i < |counts|
    ensures CountsValid(RemoveAt(counts, i), n, nextId)
  {
    var d := RemoveAt(counts, i);
    forall c | c in d ensures c in counts {
      var j :| 0 <= j < |d| && d[j] == c;
      if j < i { assert counts[j] in counts; } else { assert counts[j + 1] in counts; }
    }
  }

  /** The order of the statuses: pending, in progress, completed. */
  function Rank(s: RevisionStatus): nat
  {
    match s
    case Pending => 0
    case InProgress => 1
    case Completed => 2
  }

  /** No revision went back to an earlier status, and none disappeared. */
  predicate StatusesAdvance(before: seq<Revision>, after: seq<Revision>)
  {
    && |before| <= |after|
    && forall i :: 0 <= i < |before| ==>
         && after[i].warehouse == before[i].warehouse && after[i].number == before[i].number
         && Rank(before[i].status) <= Rank(after[i].status)
  }

  /** The admin list actions only move revisions forward, keep numbers
      unique, and report exactly the revisions they changed: applying the
      same action a second time changes nothing and reports none. */
  lemma BulkStatusFacts(revisions: seq<Revision>, selected: set<RevisionId>, from: RevisionStatus, to: RevisionStatus)
    requires Rank(from) < Rank(to)
    ensures StatusesAdvance(revisions, BulkStatus(revisions, selected, from, to))
    ensures NumbersUnique(revisions) ==> NumbersUnique(BulkStatus(revisions, selected, from, to))
    ensures forall i :: i in Changed(revisions, selected, from) <==>
              0 <= i < |revisions| && BulkStatus(revisions, selected, from, to)[i] != revisions[i]
    ensures Changed(BulkStatus(revisions, selected, from, to), selected, from) == {}
    ensures BulkStatus(BulkStatus(revisions, selected, from, to), selected, from, to) == BulkStatus(revisions, selected, from, to)
  {
    var r := BulkStatus(revisions, selected, from, to);
    assert forall i :: 0 <= i < |r| ==> r[i].status != from || i !in selected;
  }

  /** Finishing an assignment keeps its key and its revision. */
  lemma FinishKeepsKeys(assignments: seq<Assignment>, a: nat, n: nat)
    requires a < |assignments| && AssignmentsUnique(assignments)
    requires forall x :: x in assignments ==> x.revision < n
    ensures var f := assignments[a := assignments[a].(status := Finished)];
      AssignmentsUnique(f) && forall x :: x in f ==> x.revision < n
  {
    var f := assignments[a := assignments[a].(status := Finished)];
    assert forall j :: 0 <= j < |f| ==> f[j].revision == assignments[j].revision && f[j].revizor == assignments[j].revizor;
    forall x | x in f ensures x.revision < n {
      var j :| 0 <= j < |f| && f[j] == x;
      assert assignments[j] in assignments;
    }
  }

  /** The completion check of revizor_complete after one auditor finishes. */
  lemma FinishOne(assignments: seq<Assignment>, a: nat)
    requires a < |assignments|
    ensures var f := assignments[a := assignments[a].(status := Finished)];
      AllFinished(f, assignments[a].revision) <==>
        forall j :: 0 <= j < |assignments| && j != a && assignments[j].revision == assignments[a].revision
          ==> assignments[j].status == Finished
  {
    var f := assignments[a := assignments[a].(status := Finished)];
    assert forall j :: 0 <= j < |f| ==> f[j] == if j == a then assignments[a].(status := Finished) else assignments[j];
  }

  // ---------------------------------------------------------------- the tables

  class Database {
    var revisions: seq<Revision>
    var assignments: seq<Assignment>
    var products: set<ProductId>
    var ledger: seq<LedgerLine>
    var counts: seq<CountRecord>
    var results: seq<ResultRow>
    var unaccounted: seq<UnaccountedRow>
    /** The next primary key of a count record. */
    var nextCountId: nat

    /** The schema's constraints: unique revision numbers per warehouse, one
        assignment per auditor and revision, one count record per key with a
        positive quantity and an expiry inside the validator range, and
        foreign keys that point at existing revisions. Ledger keys are not
        required to be unique: the constraint on them lets lines without an
        expiry date repeat. */
    ghost predicate Valid()
      reads this
    {
      && NumbersUnique(revisions)
      && AssignmentsUnique(assignments)
      && (forall a :: a in assignments ==> a.revision < |revisions|)
      && CountsValid(counts, |revisions|, nextCountId)
    }

    constructor (products: set<ProductId>, ledger: seq<LedgerLine>)
      ensures Valid()
      ensures this.products == products && this.ledger == ledger
      ensures revisions == [] && assignments == [] && counts == [] && results == [] && unaccounted == []
    {
      this.revisions := [];
      this.assignments := [];
      this.products := products;
      this.ledger := ledger;
      this.counts := [];
      this.results := [];
      this.unaccounted := [];
      this.nextCountId := 0;
    }

    // -------------------------------------------------------------- revisions

    /** admin_revision_create: a new pending revision of warehouse `w`,
        numbered by Revision.save, and one assignment per selected auditor.
        The assignments are written one by one with no transaction, so an
        auditor selected twice stops the loop with an integrity error after
        the revision and the earlier assignments are written. */
    method CreateRevision(user: User, w: WarehouseId, selected: seq<UserId>) returns (outcome: Outcome, id: RevisionId)
      requires Valid()
      modifies this
      ensures Valid()
      ensures products == old(products) && ledger == old(ledger) && counts == old(counts)
      ensures results == old(results) && unaccounted == old(unaccounted) && nextCountId == old(nextCountId)
      ensures !IsAdmin(user) ==> outcome == Forbidden
      ensures IsAdmin(user) && selected == [] ==> outcome == NoAuditors
      ensures IsAdmin(user) && selected != [] && !Distinct(selected) ==> outcome == IntegrityError
      ensures outcome in {Forbidden, NoAuditors} <==> !IsAdmin(user) || selected == []
      ensures outcome in {Forbidden, NoAuditors} ==> revisions == old(revisions) && assignments == old(assignments)
      ensures outcome !in {Forbidden, NoAuditors} ==>
        && id == |old(revisions)|
        && revisions == old(revisions) + [Revision(w, NextRevisionNumber(old(revisions), w), Pending, user.id)]
      ensures outcome == Done <==> IsAdmin(user) && selected != [] && Distinct(selected)
      ensures outcome == Done ==> assignments == old(assignments) + AssignAll(id, selected)
      ensures outcome == IntegrityError ==>
        exists k :: && 0 < k < |selected| && selected[k] in selected[..k] && Distinct(selected[..k])
                    && assignments == old(assignments) + AssignAll(id, selected[..k])
    {
      id := 0;
      if !IsAdmin(user) {
        return Forbidden, id;
      }
      if selected == [] {
        return NoAuditors, id;
      }
      id := |revisions|;
      var r := Revision(w, NextRevisionNumber(revisions, w), Pending, user.id);
      NextNumberKeepsUnique(revisions, r);
      revisions := revisions + [r];
      var added, clash := WriteAssignments(id, selected);
      ghost var k := |added|;
      AppendAssignments(assignments, id, selected[..k]);
      assignments := assignments + added;
      if clash {
        assert !Distinct(selected) by {
          var j :| 0 <= j < k && selected[..k][j] == selected[k];
          assert selected[j] == selected[k];
        }
        return IntegrityError, id;
      }
      assert selected[..k] == selected;
      outcome := Done;
    }

    /** admin_revision_start: the creator starts a pending revision, and all
        its auditors go to work; any other status is left as it is. */
    method AdminStart(user: User, rev: RevisionId) returns (outcome: Outcome)
      requires Valid()
      modifies this
      ensures Valid()
      ensures products == old(products) && ledger == old(ledger) && counts == old(counts)
      ensures results == old(results) && unaccounted == old(unaccounted) && nextCountId == old(nextCountId)
      ensures !IsAdmin(user) ==> outcome == Forbidden
      ensures IsAdmin(user) && (rev >= |old(revisions)| || old(revisions)[rev].createdBy != user.id) ==> outcome == NotFound
      ensures outcome == Done <==> IsAdmin(user) && rev < |old(revisions)| && old(revisions)[rev].createdBy == user.id
      ensures outcome != Done ==> revisions == old(revisions) && assignments == old(assignments)
      ensures outcome == Done && old(revisions)[rev].status == Pending ==>
        && revisions == old(revisions)[rev := old(revisions)[rev].(status := InProgress)]
        && assignments == SetWorking(old(assignments), rev)
      ensures outcome == Done && old(revisions)[rev].status != Pending ==>
        revisions == old(revisions) && assignments == old(assignments)
    {
      if !IsAdmin(user) {
        return Forbidden;
      }
      if rev >= |revisions| || revisions[rev].createdBy != user.id {
        return NotFound;
      }
      outcome := Done;
      if revisions[rev].status == Pending {
        StatusChange(revisions, rev, InProgress);
        revisions := revisions[rev := revisions[rev].(status := InProgress)];
        SetWorkingKeepsKeys(assignments, rev);
        assignments := SetWorking(assignments, rev);
      }
    }

    /** Only the results and unaccounted tables change. */
    twostate predicate OnlyOutputs()
      reads this
    {
      && revisions == old(revisions) && assignments == old(assignments) && products == old(products)
      && ledger == old(ledger) && counts == old(counts) && nextCountId == old(nextCountId)
    }

    /** Only the count table, and its key counter, change. */
    twostate predicate OnlyCounts()
      reads this
    {
      && revisions == old(revisions) && assignments == old(assignments) && products == old(products)
      && ledger == old(ledger) && results == old(results) && unaccounted == old(unaccounted)
    }

    // -------------------------------------------------------------- recomputation

    /** calculate_revision_results of sklad/views.py for revision `rev`: its
        old result and unaccounted rows are deleted and the product-level
        engine's rows for the warehouse's ledger and the revision's counts
        take their place. */
    method RecalculateProduct(rev: RevisionId)
      requires Valid() && rev < |revisions|
      modifies this
      ensures Valid() && OnlyOutputs()
      ensures results == Rerun(old(results), ResultRevision, rev,
        ProductEngine.ProductResults(rev, WarehouseLines(ledger, revisions[rev].warehouse), RevisionCounts(counts, rev)))
      ensures unaccounted == Rerun(old(unaccounted), UnaccountedRevision, rev,
        ProductEngine.ProductUnaccounted(rev, WarehouseLines(ledger, revisions[rev].warehouse), RevisionCounts(counts, rev)))
    {
      results := Without(results, ResultRevision, rev);
      unaccounted := Without(unaccounted, UnaccountedRevision, rev);
      var rs, us := ProductEngine.ComputeProductResults(rev, WarehouseLines(ledger, revisions[rev].warehouse), RevisionCounts(counts, rev));
      results := results + rs;
      unaccounted := unaccounted + us;
    }

    /** RevisionAdmin.calculate_revision_results of sklad/admin.py: the same
        replacement with the batch-level engine's rows. */
    method RecalculateBatch(rev: RevisionId)
      requires Valid() && rev < |revisions|
      modifies this
      ensures Valid() && OnlyOutputs()
      ensures results == Rerun(old(results), ResultRevision, rev,
        BatchEngine.BatchResults(rev, WarehouseLines(ledger, revisions[rev].warehouse), RevisionCounts(counts, rev)))
      ensures unaccounted == Rerun(old(unaccounted), UnaccountedRevision, rev,
        BatchEngine.BatchUnaccounted(rev, WarehouseLines(ledger, revisions[rev].warehouse), RevisionCounts(counts, rev)))
    {
      results := Without(results, ResultRevision, rev);
      unaccounted := Without(unaccounted, UnaccountedRevision, rev);
      var rs, us := BatchEngine.ComputeBatchResults(rev, WarehouseLines(ledger, revisions[rev].warehouse), RevisionCounts(counts, rev));
      results := results + rs;
      unaccounted := unaccounted + us;
    }

    /** The calculate_results admin action: the batch-level engine for each
        selected revision; it reports how many there were. Afterwards each
        selected revision holds exactly the engine's rows, and every other
        revision keeps its rows. */
    method CalculateResultsAction(selected: seq<RevisionId>) returns (reported: nat)
      requires Valid()
      requires Distinct(selected) && forall k :: 0 <= k < |selected| ==> selected[k] < |revisions|
      modifies this
      ensures Valid() && OnlyOutputs()
      ensures reported == |selected|
      ensures forall rev :: rev in selected ==> BatchCurrent(revisions, ledger, counts, results, unaccounted, rev)
      ensures forall rev :: rev !in selected ==> SameRows(results, unaccounted, old(results), old(unaccounted), rev)
    {
      var k := 0;
      while k < |selected|
        invariant 0 <= k <= |selected|
        invariant Valid() && OnlyOutputs()
        invariant forall rev :: rev in selected[..k] ==> BatchCurrent(revisions, ledger, counts, results, unaccounted, rev)
        invariant forall rev :: rev !in selected[..k] ==> SameRows(results, unaccounted, old(results), old(unaccounted), rev)
      {
        var rev := selected[k];
        ghost var results0, unaccounted0 := results, unaccounted;
        BatchRunEffect(revisions, ledger, counts, results, unaccounted, rev);
        RecalculateBatch(rev);
        TakeSnoc(selected, k);
        forall q | q in selected[..k + 1]
          ensures BatchCurrent(revisions, ledger, counts, results, unaccounted, q)
        {
          if q != rev {
            assert BatchCurrent(revisions, ledger, counts, results0, unaccounted0, q);
            assert SameRows(results, unaccounted, results0, unaccounted0, q);
          }
        }
        forall q | q !in selected[..k + 1]
          ensures SameRows(results, unaccounted, old(results), old(unaccounted), q)
        {
          assert SameRows(results0, unaccounted0, old(results), old(unaccounted), q);
          assert SameRows(results, unaccounted, results0, unaccounted0, q);
        }
        k := k + 1;
      }
      assert selected[..k] == selected;
      reported := |selected|;
    }

    // -------------------------------------------------------------- completion

    /** Completion proper: the revision's status is set to completed and
        its results are computed with the product-level engine. */
    method CompleteAndRecompute(rev: RevisionId)
      requires Valid() && rev < |revisions|
      modifies this
      ensures Valid() && StatusesAdvance(old(revisions), revisions)
      ensures assignments == old(assignments) && products == old(products) && ledger == old(ledger)
      ensures counts == old(counts) && nextCountId == old(nextCountId)
      ensures revisions == old(revisions)[rev := old(revisions)[rev].(status := Completed)]
      ensures results == Rerun(old(results), ResultRevision, rev,
        ProductEngine.ProductResults(rev, WarehouseLines(ledger, revisions[rev].warehouse), RevisionCounts(counts, rev)))
      ensures unaccounted == Rerun(old(unaccounted), UnaccountedRevision, rev,
        ProductEngine.ProductUnaccounted(rev, WarehouseLines(ledger, revisions[rev].warehouse), RevisionCounts(counts, rev)))
    {
      StatusChange(revisions, rev, Completed);
      revisions := revisions[rev := revisions[rev].(status := Completed)];
      RecalculateProduct(rev);
    }

    /** admin_revision_complete: the creator completes a revision in
        progress and its results are computed with the product-level
        engine; any other status is left as it is. */
    method AdminComplete(user: User, rev: RevisionId) returns (outcome: Outcome)
      requires Valid()
      modifies this
      ensures Valid() && StatusesAdvance(old(revisions), revisions)
      ensures assignments == old(assignments) && products == old(products) && ledger == old(ledger)
      ensures counts == old(counts) && nextCountId == old(nextCountId)
      ensures !IsAdmin(user) ==> outcome == Forbidden
      ensures IsAdmin(user) && (rev >= |old(revisions)| || old(revisions)[rev].createdBy != user.id) ==> outcome == NotFound
      ensures outcome == Done <==> IsAdmin(user) && rev < |old(revisions)| && old(revisions)[rev].createdBy == user.id
      ensures outcome == Done && old(revisions)[rev].status == InProgress ==>
        && revisions == old(revisions)[rev := old(revisions)[rev].(status := Completed)]
        && results == Rerun(old(results), ResultRevision, rev,
             ProductEngine.ProductResults(rev, WarehouseLines(ledger, revisions[rev].warehouse), RevisionCounts(counts, rev)))
        && unaccounted == Rerun(old(unaccounted), UnaccountedRevision, rev,
             ProductEngine.ProductUnaccounted(rev, WarehouseLines(ledger, revisions[rev].warehouse), RevisionCounts(counts, rev)))
      ensures !(outcome == Done && old(revisions)[rev].status == InProgress) ==>
        revisions == old(revisions) && results == old(results) && unaccounted == old(unaccounted)
    {
      if !IsAdmin(user) {
        return Forbidden;
      }
      if rev >= |revisions| || revisions[rev].createdBy != user.id {
        return NotFound;
      }
      outcome := Done;
      if revisions[rev].status == InProgress {
        CompleteAndRecompute(rev);
      }
    }

    /** revizor_complete: an auditor finishes their assignment; when no
        assignment of the revision is left unfinished, the revision is
        completed, whatever its status was, and its results are computed
        with the product-level engine. */
    method RevizorComplete(user: User, a: nat) returns (outcome: Outcome)
      requires Valid()
      modifies this
      ensures Valid() && StatusesAdvance(old(revisions), revisions)
      ensures products == old(products) && ledger == old(ledger) && counts == old(counts) && nextCountId == old(nextCountId)
      ensures IsAdmin(user) ==> outcome == Forbidden
      ensures !IsAdmin(user) && (a >= |old(assignments)| || old(assignments)[a].revizor != user.id) ==> outcome == NotFound
      ensures !IsAdmin(user) && a < |old(assignments)| && old(assignments)[a].revizor == user.id
              && old(assignments)[a].status == Finished
              ==> outcome == AlreadyFinished
      ensures outcome == Done <==>
        && !IsAdmin(user) && a < |old(assignments)| && old(assignments)[a].revizor == user.id
        && old(assignments)[a].status != Finished
      ensures outcome != Done ==>
        && revisions == old(revisions) && assignments == old(assignments)
        && results == old(results) && unaccounted == old(unaccounted)
      ensures outcome == Done ==> assignments == old(assignments)[a := old(assignments)[a].(status := Finished)]
      ensures outcome == Done && AllFinished(assignments, assignments[a].revision) ==>
        var rev := assignments[a].revision;
        && revisions == old(revisions)[rev := old(revisions)[rev].(status := Completed)]
        && results == Rerun(old(results), ResultRevision, rev,
             ProductEngine.ProductResults(rev, WarehouseLines(ledger, revisions[rev].warehouse), RevisionCounts(counts, rev)))
        && unaccounted == Rerun(old(unaccounted), UnaccountedRevision, rev,
             ProductEngine.ProductUnaccounted(rev, WarehouseLines(ledger, revisions[rev].warehouse), RevisionCounts(counts, rev)))
      ensures outcome == Done && !AllFinished(assignments, assignments[a].revision) ==>
        revisions == old(revisions) && results == old(results) && unaccounted == old(unaccounted)
    {
      if IsAdmin(user) {
        return Forbidden;
      }
      if a >= |assignments| || assignments[a].revizor != user.id {
        return NotFound;
      }
      if assignments[a].status == Finished {
        return AlreadyFinished;
      }
      outcome := Done;
      var rev := assignments[a].revision;
      FinishKeepsKeys(assignments, a, |revisions|);
      assignments := assignments[a := assignments[a].(status := Finished)];
      if AllFinished(assignments, rev) {
        CompleteAndRecompute(rev);
      }
    }

    // -------------------------------------------------------------- admin list actions

    /** The start_revision admin action: every selected pending revision is
        set in progress by one bulk update, which reports how many rows it
        changed. The assignments are not touched. */
    method StartRevisionsAction(selected: set<RevisionId>) returns (updated: nat)
      requires Valid()
      modifies this
      ensures Valid() && StatusesAdvance(old(revisions), revisions)
      ensures revisions == BulkStatus(old(revisions), selected, Pending, InProgress)
      ensures updated == |Changed(old(revisions), selected, Pending)|
      ensures assignments == old(assignments) && products == old(products) && ledger == old(ledger) && counts == old(counts)
      ensures results == old(results) && unaccounted == old(unaccounted) && nextCountId == old(nextCountId)
    {
      updated := |Changed(revisions, selected, Pending)|;
      BulkStatusFacts(revisions, selected, Pending, InProgress);
      revisions := BulkStatus(revisions, selected, Pending, InProgress);
    }

    /** The complete_revision admin action: every selected revision in
        progress is completed by one bulk update. Unlike the completion
        pages, it neither touches the assignments nor computes results. */
    method CompleteRevisionsAction(selected: set<RevisionId>) returns (updated: nat)
      requires Valid()
      modifies this
      ensures Valid() && StatusesAdvance(old(revisions), revisions)
      ensures revisions == BulkStatus(old(revisions), selected, InProgress, Completed)
      ensures updated == |Changed(old(revisions), selected, InProgress)|
      ensures assignments == old(assignments) && products == old(products) && ledger == old(ledger) && counts == old(counts)
      ensures results == old(results) && unaccounted == old(unaccounted) && nextCountId == old(nextCountId)
    {
      updated := |Changed(revisions, selected, InProgress)|;
      BulkStatusFacts(revisions, selected, InProgress, Completed);
      revisions := BulkStatus(revisions, selected, InProgress, Completed);
    }

    // -------------------------------------------------------------- counting

    /** revizor_add_item: an auditor adds a counted quantity. The checks
        come in the order of the source: the role, the revision in progress,
        the product, the assignment, the expiry date and its year, then the
        quantity. A count with the same revision, auditor, product, stripped
        series and expiry grows by the quantity; otherwise a record is
        created. A blank expiry passes every check, matches no record, and
        the database refuses to store it. */
    method AddItem(user: User, rev: RevisionId, product: ProductId, series: string,
                   expiry: ExpiryInput, quantity: Option<Cents>) returns (outcome: Outcome)
      requires Valid()
      requires expiry.Parsed? ==> WellFormedDate(expiry.date)
      modifies this
      ensures Valid() && OnlyCounts()
      ensures IsAdmin(user) ==> outcome == Forbidden
      ensures outcome == Done <==> AddAccepted(user, revisions, products, assignments, rev, product, expiry, quantity)
      ensures outcome == Done ==>
        counts == MergeCount(old(counts), CountRecord(old(nextCountId), rev, user.id, product,
                                                      LineSplitter.Strip(series, LineSplitter.IsSpace), expiry.date, quantity.value))
      ensures outcome != Done ==> counts == old(counts) && nextCountId == old(nextCountId)
      ensures !IsAdmin(user) && !(rev < |revisions| && revisions[rev].status == InProgress && product in products)
              ==> outcome == NotFound
      ensures !IsAdmin(user) && rev < |revisions| && revisions[rev].status == InProgress && product in products
              && !IsAssigned(assignments, rev, user.id)
              ==> outcome == NotAssigned
      ensures CountingOpen(user, revisions, products, assignments, rev, product) && expiry.Unparseable?
              ==> outcome == BadDate
      ensures CountingOpen(user, revisions, products, assignments, rev, product)
              && expiry.Parsed? && !(2025 <= expiry.date.year <= 2050)
              ==> outcome == YearOutOfRange
      ensures CountingOpen(user, revisions, products, assignments, rev, product) && ExpiryPasses(expiry)
              && quantity.None?
              ==> outcome == BadQuantity
      ensures CountingOpen(user, revisions, products, assignments, rev, product) && ExpiryPasses(expiry)
              && quantity.Some? && quantity.value <= 0
              ==> outcome == NonPositive
      ensures CountingOpen(user, revisions, products, assignments, rev, product)
              && expiry.Blank? && quantity.Some? && quantity.value > 0
              ==> outcome == IntegrityError
    {
      if IsAdmin(user) {
        return Forbidden;
      }
      if rev >= |revisions| || revisions[rev].status != InProgress {
        return NotFound;
      }
      if product !in products {
        return NotFound;
      }
      if !IsAssigned(assignments, rev, user.id) {
        return NotAssigned;
      }
      if expiry.Unparseable? {
        return BadDate;
      }
      if expiry.Parsed? && (expiry.date.year < 2025 || expiry.date.year > 2050) {
        return YearOutOfRange;
      }
      if quantity.None? {
        return BadQuantity;
      }
      if quantity.value <= 0 {
        return NonPositive;
      }
      if expiry.Blank? {
        return IntegrityError;
      }
      YearCheckMatchesValidators(expiry.date);
      WriteCount(CountRecord(nextCountId, rev, user.id, product, LineSplitter.Strip(series, LineSplitter.IsSpace),
                             expiry.date, quantity.value));
      outcome := Done;
    }

    /** The write at the end of revizor_add_item: the record with the same
        key grows, or the new record is stored under the next key. */
    method WriteCount(c: CountRecord)
      requires Valid()
      requires c.id == nextCountId && c.revision < |revisions| && c.quantity > 0 && ExpiryInValidatorRange(c.expiry)
      modifies this
      ensures Valid() && OnlyCounts()
      ensures counts == MergeCount(old(counts), c)
    {
      MergeKeepsValid(counts, c, |revisions|, nextCountId);
      var i := FindCount(counts, CountFullKey(c));
      if i < 0 {
        counts := counts + [c];
        nextCountId := nextCountId + 1;
      } else {
        counts := counts[i := counts[i].(quantity := counts[i].quantity + c.quantity)];
      }
    }

    /** revizor_update_item: an auditor replaces the quantity of one of
        their records while its revision is in progress. */
    method UpdateItem(user: User, id: nat, quantity: Option<Cents>) returns (outcome: Outcome)
      requires Valid()
      modifies this
      ensures Valid() && OnlyCounts() && nextCountId == old(nextCountId)
      ensures IsAdmin(user) ==> outcome == Forbidden
      ensures !IsAdmin(user) && FindRecord(old(counts), id, user.id) < 0 ==> outcome == NotFound
      ensures var i := FindRecord(old(counts), id, user.id);
        !IsAdmin(user) && i >= 0 && revisions[old(counts)[i].revision].status != InProgress
        ==> outcome == NotInProgress
      ensures var i := FindRecord(old(counts), id, user.id);
        !IsAdmin(user) && i >= 0 && revisions[old(counts)[i].revision].status == InProgress && quantity.None?
        ==> outcome == BadQuantity
      ensures var i := FindRecord(old(counts), id, user.id);
        && !IsAdmin(user) && i >= 0 && revisions[old(counts)[i].revision].status == InProgress
        && quantity.Some? && quantity.value <= 0
        ==> outcome == NonPositive
      ensures outcome == Done <==>
        var i := FindRecord(old(counts), id, user.id);
        && !IsAdmin(user) && i >= 0 && revisions[old(counts)[i].revision].status == InProgress
        && quantity.Some? && quantity.value > 0
      ensures outcome == Done ==>
        var i := FindRecord(old(counts), id, user.id);
        counts == old(counts)[i := old(counts)[i].(quantity := quantity.value)]
      ensures outcome != Done ==> counts == old(counts)
    {
      if IsAdmin(user) {
        return Forbidden;
      }
      var i := FindRecord(counts, id, user.id);
      if i < 0 {
        return NotFound;
      }
      assert counts[i] in counts;
      if revisions[counts[i].revision].status != InProgress {
        return NotInProgress;
      }
      if quantity.None? {
        return BadQuantity;
      }
      if quantity.value <= 0 {
        return NonPositive;
      }
      UpdateSetsTotals(counts, i, quantity.value);
      UpdateKeepsValid(counts, i, quantity.value, |revisions|, nextCountId);
      counts := counts[i := counts[i].(quantity := quantity.value)];
      outcome := Done;
    }

    /** revizor_delete_item: an auditor deletes one of their records while
        its revision is in progress. */
    method DeleteItem(user: User, id: nat) returns (outcome: Outcome)
      requires Valid()
      modifies this
      ensures Valid() && OnlyCounts() && nextCountId == old(nextCountId)
      ensures IsAdmin(user) ==> outcome == Forbidden
      ensures !IsAdmin(user) && FindRecord(old(counts), id, user.id) < 0 ==> outcome == NotFound
      ensures var i := FindRecord(old(counts), id, user.id);
        !IsAdmin(user) && i >= 0 && revisions[old(counts)[i].revision].status != InProgress
        ==> outcome == NotInProgress
      ensures outcome == Done <==>
        var i := FindRecord(old(counts), id, user.id);
        !IsAdmin(user) && i >= 0 && revisions[old(counts)[i].revision].status == InProgress
      ensures outcome == Done ==> counts == RemoveAt(old(counts), FindRecord(old(counts), id, user.id))
      ensures outcome != Done ==> counts == old(counts)
    {
      if IsAdmin(user) {
        return Forbidden;
      }
      var i := FindRecord(counts, id, user.id);
      if i < 0 {
        return NotFound;
      }
      assert counts[i] in counts;
      if revisions[counts[i].revision].status != InProgress {
        return NotInProgress;
      }
      DeleteKeepsValid(counts, i, |revisions|, nextCountId);
      counts := RemoveAt(counts, i);
      outcome := Done;
    }
  }
}
