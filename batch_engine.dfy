/** The batch-level reconciliation engine, RevisionAdmin.calculate_revision_results
    in sklad/admin.py. Unlike the product-level engine it matches counts to
    ledger lines on the exact batch key (product, series, expiry date): each
    ledger line gets the sum of the counts with its key, and a count whose key
    has no ledger line becomes unaccounted. Rows are written through
    get_or_create, so a key already written in this run is updated in place
    (result rows) or left as it is (unaccounted rows).

    The database lookups the source makes inside its loops (the aggregate
    over matching counts, the auditors of matching counts, get_or_create's
    lookup, the existence test on the ledger) are the functions below. */
module BatchEngine {
  import opened Seqs
  import opened Models
  import ProductEngine

  // ---------------------------------------------------------------- queries

  /** The count records whose batch key is `k`. A count's expiry is never
      NULL, so a ledger key without expiry matches none of them. */
  function MatchingCounts(counts: seq<CountRecord>, k: BatchKey): seq<CountRecord>
  {
    FilterKey(counts, CountKey, k)
  }

  /** Sum('quantity') over the matching counts, or 0 when there are none. */
  function BatchActual(counts: seq<CountRecord>, k: BatchKey): Cents
  {
    SumBy(MatchingCounts(counts, k), CountQuantity)
  }

  /** The distinct auditors of the matching counts. */
  function BatchAuditors(counts: seq<CountRecord>, k: BatchKey): set<UserId>
  {
    KeySet(MatchingCounts(counts, k), CountAuditor)
  }

  /** The batch keys present in the ledger. */
  function LedgerKeys(ledger: seq<LedgerLine>): set<BatchKey>
  {
    KeySet(ledger, LineKey)
  }

  /** get_or_create's lookup: the position of the first row with key `k`, or -1. */
  function FindResult(rows: seq<ResultRow>, k: BatchKey): (i: int)
    ensures -1 <= i < |rows|
    ensures 0 <= i ==> ResultKey(rows[i]) == k && forall j :: 0 <= j < i ==> ResultKey(rows[j]) != k
    ensures i == -1 ==> forall j :: 0 <= j < |rows| ==> ResultKey(rows[j]) != k
  {
    if rows == [] then -1
    else if ResultKey(rows[0]) == k then 0
    else
      var i := FindResult(rows[1..], k);
      if i < 0 then -1 else i + 1
  }

  // ---------------------------------------------------------------- specification

  /** The row of ledger line `l`: created with the line's quantity as expected
      and the matching total as actual, passed through
      RevisionResult.calculate, then given the matching auditors. */
  function BatchRow(rev: RevisionId, counts: seq<CountRecord>, l: LedgerLine): ResultRow
  {
    var created := ResultRow(rev, l.product, l.series, l.expiry, l.quantity, BatchActual(counts, LineKey(l)), 0, Correct, {});
    Calculate(created).(auditors := BatchAuditors(counts, LineKey(l)))
  }

  /** get_or_create on result rows: replace the row with the same key, or append. */
  function UpsertResult(rows: seq<ResultRow>, r: ResultRow): seq<ResultRow>
  {
    var i := FindResult(rows, ResultKey(r));
    if i < 0 then rows + [r] else rows[i := r]
  }

  /** The result rows after the ledger lines `ledger`, in ledger order. */
  function BatchResults(rev: RevisionId, ledger: seq<LedgerLine>, counts: seq<CountRecord>): seq<ResultRow>
  {
    if ledger == [] then []
    else UpsertResult(BatchResults(rev, ledger[..|ledger| - 1], counts), BatchRow(rev, counts, ledger[|ledger| - 1]))
  }

  /** get_or_create on unaccounted rows: a row whose key is already present is not written. */
  function InsertIfAbsent(rows: seq<UnaccountedRow>, u: UnaccountedRow): seq<UnaccountedRow>
  {
    if UnaccountedKey(u) in KeySet(rows, UnaccountedKey) then rows else rows + [u]
  }

  /** The unaccounted rows after the count records `counts`. */
  function BatchUnaccounted(rev: RevisionId, ledger: seq<LedgerLine>, counts: seq<CountRecord>): seq<UnaccountedRow>
  {
    if counts == [] then []
    else
      var rows, c := BatchUnaccounted(rev, ledger, counts[..|counts| - 1]), counts[|counts| - 1];
      if CountKey(c) in LedgerKeys(ledger) then rows else InsertIfAbsent(rows, ToUnaccounted(rev, c))
  }

  // ---------------------------------------------------------------- the engine

  /** One run of the batch engine on revision `rev`, after its earlier rows
      have been deleted. */
  method ComputeBatchResults(rev: RevisionId, ledger: seq<LedgerLine>, counts: seq<CountRecord>)
    returns (results: seq<ResultRow>, unaccounted: seq<UnaccountedRow>)
    ensures results == BatchResults(rev, ledger, counts)
    ensures unaccounted == BatchUnaccounted(rev, ledger, counts)
  {
    results := ResultPass(rev, ledger, counts);
    unaccounted := UnaccountedPass(rev, ledger, counts);
  }

  /** The loop over ledger lines: total the matching counts, get or create the
      row of the line's key, set its quantities, calculate, set its auditors. */
  method ResultPass(rev: RevisionId, ledger: seq<LedgerLine>, counts: seq<CountRecord>)
    returns (results: seq<ResultRow>)
    ensures results == BatchResults(rev, ledger, counts)
  {
    results := [];
    for i := 0 to |ledger|
      invariant results == BatchResults(rev, ledger[..i], counts)
      invariant forall x :: x in results ==> x.revision == rev
    {
      var l := ledger[i];
      var key := LineKey(l);
      var actual := BatchActual(counts, key);
      var j := FindResult(results, key);
      var row: ResultRow;
      if j < 0 {
        row := ResultRow(rev, l.product, l.series, l.expiry, l.quantity, actual, 0, Correct, {});
      } else {
        row := results[j].(expected := l.quantity, actual := actual);
      }
      row := Calculate(row);
      row := row.(auditors := BatchAuditors(counts, key));
      assert ledger[..i + 1][..i] == ledger[..i];
      assert row == BatchRow(rev, counts, l);
      if j < 0 {
        results := results + [row];
      } else {
        results := results[j := row];
      }
    }
    assert ledger[..|ledger|] == ledger;
  }

  /** The loop over count records: a record whose key has no ledger line is
      written as unaccounted unless its key already is. */
  method UnaccountedPass(rev: RevisionId, ledger: seq<LedgerLine>, counts: seq<CountRecord>)
    returns (unaccounted: seq<UnaccountedRow>)
    ensures unaccounted == BatchUnaccounted(rev, ledger, counts)
  {
    unaccounted := [];
    for i := 0 to |counts|
      invariant unaccounted == BatchUnaccounted(rev, ledger, counts[..i])
    {
      var item := counts[i];
      assert counts[..i + 1][..i] == counts[..i];
      var existsInInventory := CountKey(item) in LedgerKeys(ledger);
      if !existsInInventory {
        var u := ToUnaccounted(rev, item);
        if UnaccountedKey(u) !in KeySet(unaccounted, UnaccountedKey) {
          unaccounted := unaccounted + [u];
        }
      }
    }
    assert counts[..|counts|] == counts;
  }

  // ---------------------------------------------------------------- properties

  /** No two rows share a batch key. */
  ghost predicate ResultKeysDistinct(rows: seq<ResultRow>)
  {
    forall i, j :: 0 <= i < j < |rows| ==> ResultKey(rows[i]) != ResultKey(rows[j])
  }

  /** get_or_create keeps keys distinct; it writes `r`, and keeps every other
      row whose key differs from `r`'s. */
  lemma UpsertResultProps(rows: seq<ResultRow>, r: ResultRow)
    requires ResultKeysDistinct(rows)
    ensures ResultKeysDistinct(UpsertResult(rows, r))
    ensures r in UpsertResult(rows, r)
    ensures forall x :: x in UpsertResult(rows, r) ==> x == r || x in rows
    ensures forall x :: x in rows && ResultKey(x) != ResultKey(r) ==> x in UpsertResult(rows, r)
  {
    var i := FindResult(rows, ResultKey(r));
    var s := UpsertResult(rows, r);
    if i >= 0 {
      assert s[i] == r;
      forall x | x in rows && ResultKey(x) != ResultKey(r) ensures x in s {
        var j :| 0 <= j < |rows| && rows[j] == x;
        assert s[j] == x;
      }
      forall x | x in s ensures x == r || x in rows {
        var j :| 0 <= j < |s| && s[j] == x;
        if j != i {
          assert rows[j] == x;
        }
      }
    }
  }

  /** What the batch engine writes as result rows: one row per distinct batch
      key of the ledger, each the row of a ledger line with that key; so each
      row's actual quantity is the total of the counts with exactly its key,
      its auditors are exactly their auditors, and its difference and status
      are those RevisionResult.calculate gives. */
  lemma {:induction false} BatchResultsProps(rev: RevisionId, ledger: seq<LedgerLine>, counts: seq<CountRecord>)
    ensures ResultKeysDistinct(BatchResults(rev, ledger, counts))
    ensures forall x :: x in BatchResults(rev, ledger, counts) ==> exists l :: l in ledger && x == BatchRow(rev, counts, l)
    ensures forall l :: l in ledger ==> exists x :: x in BatchResults(rev, ledger, counts) && ResultKey(x) == LineKey(l)
  {
    if ledger != [] {
      var init, last := ledger[..|ledger| - 1], ledger[|ledger| - 1];
      var rows := BatchResults(rev, init, counts);
      Last(ledger);
      BatchResultsProps(rev, init, counts);
      UpsertResultProps(rows, BatchRow(rev, counts, last));
      forall l | l in ledger
        ensures exists x :: x in BatchResults(rev, ledger, counts) && ResultKey(x) == LineKey(l)
      {
        if l != last && LineKey(l) != LineKey(last) {
          var x :| x in rows && ResultKey(x) == LineKey(l);
          assert x in BatchResults(rev, ledger, counts);
        } else {
          assert ResultKey(BatchRow(rev, counts, last)) == LineKey(l);
        }
      }
    }
  }

  /** Every result row of a run: it belongs to the revision, its actual
      quantity is the total of the counts with exactly its key (0 when there
      are none), its auditors are exactly the auditors of those counts, and it
      is consistent. Result keys are unique within the run. */
  lemma BatchRowsExact(rev: RevisionId, ledger: seq<LedgerLine>, counts: seq<CountRecord>)
    ensures ResultKeysUnique(BatchResults(rev, ledger, counts))
    ensures forall x :: x in BatchResults(rev, ledger, counts) ==>
      && x.revision == rev
      && ResultKey(x) in LedgerKeys(ledger)
      && x.actual == BatchActual(counts, ResultKey(x))
      && x.auditors == BatchAuditors(counts, ResultKey(x))
      && Consistent(x)
  {
    BatchResultsProps(rev, ledger, counts);
    KeySetMembers(ledger, LineKey);
    forall x | x in BatchResults(rev, ledger, counts) ensures Consistent(x) {
      var l :| l in ledger && x == BatchRow(rev, counts, l);
      CalculateConsistent(ResultRow(rev, l.product, l.series, l.expiry, l.quantity, BatchActual(counts, LineKey(l)), 0, Correct, {}));
    }
  }

  /** When no two ledger lines share a batch key, the run writes exactly the
      rows of the ledger lines, one per line, in ledger order. */
  lemma {:induction false} DistinctLinesOneRowEach(rev: RevisionId, ledger: seq<LedgerLine>, counts: seq<CountRecord>)
    requires forall i, j :: 0 <= i < j < |ledger| ==> LineKey(ledger[i]) != LineKey(ledger[j])
    ensures |BatchResults(rev, ledger, counts)| == |ledger|
    ensures forall i :: 0 <= i < |ledger| ==> BatchResults(rev, ledger, counts)[i] == BatchRow(rev, counts, ledger[i])
  {
    if ledger != [] {
      var init, last := ledger[..|ledger| - 1], ledger[|ledger| - 1];
      DistinctLinesOneRowEach(rev, init, counts);
      var rows := BatchResults(rev, init, counts);
      forall j | 0 <= j < |rows| ensures ResultKey(rows[j]) != LineKey(last) {
        assert ResultKey(rows[j]) == LineKey(ledger[j]);
      }
      assert FindResult(rows, LineKey(last)) == -1;
    }
  }

  /** A ledger line without an expiry date matches no count, since a count's
      expiry is never NULL: its actual quantity is 0 and it has no auditors. */
  lemma NoExpiryMatchesNothing(counts: seq<CountRecord>, l: LedgerLine)
    requires l.expiry.None?
    ensures BatchActual(counts, LineKey(l)) == 0 && BatchAuditors(counts, LineKey(l)) == {}
  {
    FilterKeyAbsent(counts, CountKey, LineKey(l));
  }

  /** No two unaccounted rows share a batch key. */
  ghost predicate UnaccountedKeysDistinct(rows: seq<UnaccountedRow>)
  {
    forall i, j :: 0 <= i < j < |rows| ==> UnaccountedKey(rows[i]) != UnaccountedKey(rows[j])
  }

  /** The first count record with key `k` stays first when records are added after it. */
  lemma FirstMatchStays(counts: seq<CountRecord>, k: BatchKey)
    requires counts != [] && MatchingCounts(counts[..|counts| - 1], k) != []
    ensures MatchingCounts(counts, k) != []
    ensures MatchingCounts(counts, k)[0] == MatchingCounts(counts[..|counts| - 1], k)[0]
  {
  }

  /** What the batch engine writes as unaccounted rows: at most one per batch
      key, only for keys absent from the ledger, one for every such key that
      was counted, and that row is the copy of the FIRST count record with
      the key: later records with the same key are neither summed nor kept. */
  lemma {:induction false} BatchUnaccountedProps(rev: RevisionId, ledger: seq<LedgerLine>, counts: seq<CountRecord>)
    ensures UnaccountedKeysDistinct(BatchUnaccounted(rev, ledger, counts))
    ensures forall u :: u in BatchUnaccounted(rev, ledger, counts) ==> RowFromFirstMatch(rev, ledger, counts, u)
    ensures forall c :: c in counts && CountKey(c) !in LedgerKeys(ledger) ==>
      CountKey(c) in KeySet(BatchUnaccounted(rev, ledger, counts), UnaccountedKey)
  {
    if counts != [] {
      BatchUnaccountedProps(rev, ledger, counts[..|counts| - 1]);
      UnaccountedStep(rev, ledger, counts);
    }
  }

  /** An unaccounted row of revision `rev` whose key is absent from the
      ledger and which copies the first count record with its key. */
  ghost predicate RowFromFirstMatch(rev: RevisionId, ledger: seq<LedgerLine>, counts: seq<CountRecord>, u: UnaccountedRow)
  {
    && u.revision == rev
    && UnaccountedKey(u) !in LedgerKeys(ledger)
    && MatchingCounts(counts, UnaccountedKey(u)) != []
    && u == ToUnaccounted(rev, MatchingCounts(counts, UnaccountedKey(u))[0])
  }

  /** The three facts of BatchUnaccountedProps, for one prefix of the counts. */
  ghost predicate UnaccountedFacts(rev: RevisionId, ledger: seq<LedgerLine>, counts: seq<CountRecord>)
  {
    var rows := BatchUnaccounted(rev, ledger, counts);
    && UnaccountedKeysDistinct(rows)
    && (forall u :: u in rows ==> RowFromFirstMatch(rev, ledger, counts, u))
    && (forall c :: c in counts && CountKey(c) !in LedgerKeys(ledger) ==> CountKey(c) in KeySet(rows, UnaccountedKey))
  }

  lemma UnaccountedStep(rev: RevisionId, ledger: seq<LedgerLine>, counts: seq<CountRecord>)
    requires counts != [] && UnaccountedFacts(rev, ledger, counts[..|counts| - 1])
    ensures UnaccountedFacts(rev, ledger, counts)
  {
    var init, c := counts[..|counts| - 1], counts[|counts| - 1];
    var before := BatchUnaccounted(rev, ledger, init);
    var k := CountKey(c);
    OldRowsStay(rev, ledger, counts);
    Last(counts);
    if k !in LedgerKeys(ledger) && k !in KeySet(before, UnaccountedKey) {
      NewUnaccountedRow(rev, ledger, counts);
    }
  }

  /** A row written for an earlier count still copies the first match once
      more counts are added. */
  lemma OldRowsStay(rev: RevisionId, ledger: seq<LedgerLine>, counts: seq<CountRecord>)
    requires counts != [] && UnaccountedFacts(rev, ledger, counts[..|counts| - 1])
    ensures forall u :: u in BatchUnaccounted(rev, ledger, counts[..|counts| - 1]) ==> RowFromFirstMatch(rev, ledger, counts, u)
  {
    var init := counts[..|counts| - 1];
    forall u | u in BatchUnaccounted(rev, ledger, init) ensures RowFromFirstMatch(rev, ledger, counts, u) {
      assert RowFromFirstMatch(rev, ledger, init, u);
      FirstMatchStays(counts, UnaccountedKey(u));
    }
  }

  /** A count whose key is in neither the ledger nor the rows so far is the
      first with its key, and its copy is appended. */
  lemma NewUnaccountedRow(rev: RevisionId, ledger: seq<LedgerLine>, counts: seq<CountRecord>)
    requires counts != [] && UnaccountedFacts(rev, ledger, counts[..|counts| - 1])
    requires var c := counts[|counts| - 1];
      CountKey(c) !in LedgerKeys(ledger) && CountKey(c) !in KeySet(BatchUnaccounted(rev, ledger, counts[..|counts| - 1]), UnaccountedKey)
    ensures var c := counts[|counts| - 1];
      && BatchUnaccounted(rev, ledger, counts) == BatchUnaccounted(rev, ledger, counts[..|counts| - 1]) + [ToUnaccounted(rev, c)]
      && RowFromFirstMatch(rev, ledger, counts, ToUnaccounted(rev, c))
      && UnaccountedKeysDistinct(BatchUnaccounted(rev, ledger, counts))
      && KeySet(BatchUnaccounted(rev, ledger, counts), UnaccountedKey)
         == KeySet(BatchUnaccounted(rev, ledger, counts[..|counts| - 1]), UnaccountedKey) + {CountKey(c)}
  {
    var init, c := counts[..|counts| - 1], counts[|counts| - 1];
    var before := BatchUnaccounted(rev, ledger, init);
    var k := CountKey(c);
    var u := ToUnaccounted(rev, c);
    KeySetMembers(before, UnaccountedKey);
    FilterKeyAbsent(init, CountKey, k);
    assert MatchingCounts(init, k) == [];
    FilterKeyConcat(init, [c], CountKey, k);
    assert init + [c] == counts;
    assert MatchingCounts(counts, k) == [c];
    KeySetSnoc(before, u, UnaccountedKey);
  }

  /** Two ledger lines of one product and series that both lack an expiry
      date (the uniqueness constraint on the ledger does not stop this, as
      NULLs compare distinct) share one result row: get_or_create finds the
      first line's row and the second line overwrites its expected quantity. */
  lemma NoExpiryLinesShareARow(rev: RevisionId)
    ensures var ledger := [LedgerLine(1, 7, "A", None, 500), LedgerLine(1, 7, "A", None, 700)];
      && LedgerKeysUnique(ledger)
      && |BatchResults(rev, ledger, [])| == 1
      && BatchResults(rev, ledger, [])[0].expected == 700
  {
    var ledger := [LedgerLine(1, 7, "A", None, 500), LedgerLine(1, 7, "A", None, 700)];
    var l1 := ledger[..1];
    assert l1 == [ledger[0]];
    assert l1[..0] == [];
    var r0 := BatchRow(rev, [], ledger[0]);
    assert UpsertResult([], r0) == [r0];
    assert BatchResults(rev, l1[..0], []) == [];
    assert l1[|l1| - 1] == ledger[0];
    var first := BatchResults(rev, l1, []);
    assert first == UpsertResult([], r0);
    assert FindResult(first, LineKey(ledger[1])) == 0;
  }

  /** Two auditors count the same unledgered batch, 3.00 and 4.00: the batch
      engine keeps one unaccounted row with the first record's 3.00, while the
      product engine writes a row for each record, 7.00 in all. */
  lemma EnginesDifferOnUnaccounted(rev: RevisionId)
    ensures var d := Date(2026, 5, 1);
      var counts := [CountRecord(0, rev, 1, 7, "S", d, 300), CountRecord(1, rev, 2, 7, "S", d, 400)];
      && BatchUnaccounted(rev, [], counts) == [ToUnaccounted(rev, counts[0])]
      && ProductEngine.ProductUnaccounted(rev, [], counts) == [ToUnaccounted(rev, counts[0]), ToUnaccounted(rev, counts[1])]
  {
    var d := Date(2026, 5, 1);
    var counts := [CountRecord(0, rev, 1, 7, "S", d, 300), CountRecord(1, rev, 2, 7, "S", d, 400)];
    var c0 := [counts[0]];
    assert counts[..1] == c0;
    assert c0[..0] == [];
    assert BatchUnaccounted(rev, [], c0) == [ToUnaccounted(rev, counts[0])];
    KeySetSnoc([], ToUnaccounted(rev, counts[0]), UnaccountedKey);
    assert KeyOrder(c0, CountProduct) == [7];
    assert KeyOrder(counts, CountProduct) == [7];
    assert FilterKey(c0, CountProduct, 7) == c0;
    assert ProductEngine.CountsOf(counts, 7) == counts;
    assert [7][..0] == [];
    assert ProductEngine.UnaccountedRows(rev, counts) == [ToUnaccounted(rev, counts[0]), ToUnaccounted(rev, counts[1])];
    assert ProductEngine.UnaccountedFor(rev, [], counts, 7) == ProductEngine.UnaccountedRows(rev, counts);
    assert ProductEngine.EmitUnaccounted(rev, [], counts, [7][..0]) == [];
    assert ProductEngine.EmitUnaccounted(rev, [], counts, [7]) == [] + ProductEngine.UnaccountedRows(rev, counts);
    assert CountKey(counts[1]) in KeySet([ToUnaccounted(rev, counts[0])], UnaccountedKey);
    assert BatchUnaccounted(rev, [], counts) == [ToUnaccounted(rev, counts[0])];
  }
}
