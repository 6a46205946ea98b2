/** The product-level reconciliation engine, calculate_revision_results in
    sklad/views.py. Auditors count products, not batches, so the engine
    compares per-product totals: all ledger lines of a product against all
    counts of that product, whatever series and expiry the auditor entered.
    Every ledger line yields one result row, the first line of a product
    carrying the whole product difference; counts of products that have no
    ledger line at all become unaccounted rows, one per count record.

    The ledger is the warehouse's ledger lines in query order and the counts
    are the revision's count records in query order. */
module ProductEngine {
  import opened Seqs
  import opened Models

  // ---------------------------------------------------------------- specification

  /** The ledger lines of product `p`, in ledger order. */
  function LinesOf(ledger: seq<LedgerLine>, p: ProductId): seq<LedgerLine>
  {
    FilterKey(ledger, LineProduct, p)
  }

  /** The count records of product `p`, over every auditor, series and expiry. */
  function CountsOf(counts: seq<CountRecord>, p: ProductId): seq<CountRecord>
  {
    FilterKey(counts, CountProduct, p)
  }

  predicate HasLines(ledger: seq<LedgerLine>, p: ProductId)
  {
    LinesOf(ledger, p) != []
  }

  function ExpectedTotal(ledger: seq<LedgerLine>, p: ProductId): Cents
  {
    SumBy(LinesOf(ledger, p), LineQuantity)
  }

  function ActualTotal(counts: seq<CountRecord>, p: ProductId): Cents
  {
    SumBy(CountsOf(counts, p), CountQuantity)
  }

  function AuditorsOf(counts: seq<CountRecord>, p: ProductId): set<UserId>
  {
    KeySet(CountsOf(counts, p), CountAuditor)
  }

  /** The product-level difference: everything counted minus everything expected. */
  function ProductDifference(ledger: seq<LedgerLine>, counts: seq<CountRecord>, p: ProductId): Cents
  {
    ActualTotal(counts, p) - ExpectedTotal(ledger, p)
  }

  /** The result rows of one product: one per ledger line, in order; the
      first line absorbs the whole difference, later lines are correct. */
  function ProductRows(rev: RevisionId, p: ProductId, lines: seq<LedgerLine>, difference: Cents, auditors: set<UserId>): (rows: seq<ResultRow>)
    ensures |rows| == |lines|
    ensures forall r :: r in rows ==> r.product == p
  {
    seq(|lines|, j requires 0 <= j < |lines| =>
      if j == 0 then
        ResultRow(rev, p, lines[j].series, lines[j].expiry, lines[j].quantity,
                  lines[j].quantity + difference, difference, StatusOf(difference), auditors)
      else
        ResultRow(rev, p, lines[j].series, lines[j].expiry, lines[j].quantity,
                  lines[j].quantity, 0, Correct, auditors))
  }

  function RowsFor(rev: RevisionId, ledger: seq<LedgerLine>, counts: seq<CountRecord>, p: ProductId): seq<ResultRow>
  {
    ProductRows(rev, p, LinesOf(ledger, p), ProductDifference(ledger, counts, p), AuditorsOf(counts, p))
  }

  /** The rows of the products of `order`, product after product. */
  function EmitResults(rev: RevisionId, ledger: seq<LedgerLine>, counts: seq<CountRecord>, order: seq<ProductId>): seq<ResultRow>
  {
    if order == [] then []
    else EmitResults(rev, ledger, counts, order[..|order| - 1]) + RowsFor(rev, ledger, counts, order[|order| - 1])
  }

  /** All result rows of one run: products in the order they first appear in
      the ledger (the insertion order of the grouping dict). */
  function ProductResults(rev: RevisionId, ledger: seq<LedgerLine>, counts: seq<CountRecord>): seq<ResultRow>
  {
    EmitResults(rev, ledger, counts, KeyOrder(ledger, LineProduct))
  }

  function UnaccountedRows(rev: RevisionId, items: seq<CountRecord>): (rows: seq<UnaccountedRow>)
    ensures |rows| == |items|
  {
    seq(|items|, j requires 0 <= j < |items| => ToUnaccounted(rev, items[j]))
  }

  /** The unaccounted rows of one product: none when it has a ledger line,
      otherwise a copy of each of its count records. */
  function UnaccountedFor(rev: RevisionId, ledger: seq<LedgerLine>, counts: seq<CountRecord>, p: ProductId): seq<UnaccountedRow>
  {
    if HasLines(ledger, p) then [] else UnaccountedRows(rev, CountsOf(counts, p))
  }

  function EmitUnaccounted(rev: RevisionId, ledger: seq<LedgerLine>, counts: seq<CountRecord>, order: seq<ProductId>): seq<UnaccountedRow>
  {
    if order == [] then []
    else EmitUnaccounted(rev, ledger, counts, order[..|order| - 1]) + UnaccountedFor(rev, ledger, counts, order[|order| - 1])
  }

  /** All unaccounted rows of one run: counted products in the order they
      were first counted. */
  function ProductUnaccounted(rev: RevisionId, ledger: seq<LedgerLine>, counts: seq<CountRecord>): seq<UnaccountedRow>
  {
    EmitUnaccounted(rev, ledger, counts, KeyOrder(counts, CountProduct))
  }

  // ---------------------------------------------------------------- the engine

  /** The accumulator of the first pass: a product's expected total and its lines. */
  datatype ProductGroup = ProductGroup(total: Cents, lines: seq<LedgerLine>)

  /** The keys of map `m` are the products listed in `order`. */
  ghost predicate KeysAre<V>(m: map<ProductId, V>, order: seq<ProductId>)
  {
    forall p :: p in m <==> p in order
  }

  /** Each product's group holds its expected total and its lines among `s`. */
  ghost predicate GroupsAgree(s: seq<LedgerLine>, groups: map<ProductId, ProductGroup>)
  {
    forall p :: p in groups ==> groups[p] == ProductGroup(ExpectedTotal(s, p), LinesOf(s, p))
  }

  /** Each product's total is its counted total among `s`. */
  ghost predicate TotalsAgree(s: seq<CountRecord>, totals: map<ProductId, Cents>)
  {
    forall p :: p in totals ==> totals[p] == ActualTotal(s, p)
  }

  /** Each product's auditor set is the set of its auditors among `s`. */
  ghost predicate NamesAgree(s: seq<CountRecord>, names: map<ProductId, set<UserId>>)
  {
    forall p :: p in names ==> names[p] == AuditorsOf(s, p)
  }

  /** The state of pass 1 after the ledger lines `s`: the products in first
      occurrence order, and for each its total and its lines. */
  ghost predicate Grouped(s: seq<LedgerLine>, order: seq<ProductId>, groups: map<ProductId, ProductGroup>)
  {
    order == KeyOrder(s, LineProduct) && KeysAre(groups, order) && GroupsAgree(s, groups)
  }

  /** The state of pass 2 after the count records `s`. */
  ghost predicate Totalled(s: seq<CountRecord>, order: seq<ProductId>, totals: map<ProductId, Cents>, names: map<ProductId, set<UserId>>)
  {
    order == KeyOrder(s, CountProduct) && KeysAre(totals, order) && KeysAre(names, order)
    && TotalsAgree(s, totals) && NamesAgree(s, names)
  }

  /** A product not yet listed has no lines and no counts so far. */
  lemma NotYetSeen(ledger: seq<LedgerLine>, counts: seq<CountRecord>, p: ProductId)
    requires p !in KeyOrder(ledger, LineProduct) && p !in KeyOrder(counts, CountProduct)
    ensures ExpectedTotal(ledger, p) == 0 && LinesOf(ledger, p) == []
    ensures ActualTotal(counts, p) == 0 && AuditorsOf(counts, p) == {}
  {
    KeyOrderMembers(ledger, LineProduct);
    FilterKeyAbsent(ledger, LineProduct, p);
    KeyOrderMembers(counts, CountProduct);
    FilterKeyAbsent(counts, CountProduct, p);
  }

  lemma GroupsAgreeStep(ledger: seq<LedgerLine>, i: nat, groups: map<ProductId, ProductGroup>, g: ProductGroup)
    requires i < |ledger| && GroupsAgree(ledger[..i], groups)
    requires g == ProductGroup(ExpectedTotal(ledger[..i], ledger[i].product), LinesOf(ledger[..i], ledger[i].product))
    ensures GroupsAgree(ledger[..i + 1], groups[ledger[i].product := ProductGroup(g.total + ledger[i].quantity, g.lines + [ledger[i]])])
  {
    var groups' := groups[ledger[i].product := ProductGroup(g.total + ledger[i].quantity, g.lines + [ledger[i]])];
    forall q | q in groups'
      ensures groups'[q] == ProductGroup(ExpectedTotal(ledger[..i + 1], q), LinesOf(ledger[..i + 1], q))
    {
      GroupSnoc(ledger, i, LineProduct, q, LineQuantity, LineWarehouse);
    }
  }

  lemma TotalsAgreeStep(counts: seq<CountRecord>, i: nat, totals: map<ProductId, Cents>, t: Cents)
    requires i < |counts| && TotalsAgree(counts[..i], totals)
    requires t == ActualTotal(counts[..i], counts[i].product)
    ensures TotalsAgree(counts[..i + 1], totals[counts[i].product := t + counts[i].quantity])
  {
    var totals' := totals[counts[i].product := t + counts[i].quantity];
    forall q | q in totals'
      ensures totals'[q] == ActualTotal(counts[..i + 1], q)
    {
      GroupSnoc(counts, i, CountProduct, q, CountQuantity, CountAuditor);
    }
  }

  lemma NamesAgreeStep(counts: seq<CountRecord>, i: nat, names: map<ProductId, set<UserId>>, n: set<UserId>)
    requires i < |counts| && NamesAgree(counts[..i], names)
    requires n == AuditorsOf(counts[..i], counts[i].product)
    ensures NamesAgree(counts[..i + 1], names[counts[i].product := n + {counts[i].auditor}])
  {
    var names' := names[counts[i].product := n + {counts[i].auditor}];
    forall q | q in names'
      ensures names'[q] == AuditorsOf(counts[..i + 1], q)
    {
      GroupSnoc(counts, i, CountProduct, q, CountQuantity, CountAuditor);
    }
  }

  /** The dict pass 1 has built after the ledger lines `s`. */
  ghost function GroupMap(s: seq<LedgerLine>): map<ProductId, ProductGroup>
  {
    if s == [] then map[]
    else
      var m, line := GroupMap(s[..|s| - 1]), s[|s| - 1];
      var g := if line.product in m then m[line.product] else ProductGroup(0, []);
      m[line.product := ProductGroup(g.total + line.quantity, g.lines + [line])]
  }

  /** The dicts pass 2 has built after the count records `s`. */
  ghost function TotalsMap(s: seq<CountRecord>): map<ProductId, Cents>
  {
    if s == [] then map[]
    else
      var m, item := TotalsMap(s[..|s| - 1]), s[|s| - 1];
      m[item.product := (if item.product in m then m[item.product] else 0) + item.quantity]
  }

  ghost function NamesMap(s: seq<CountRecord>): map<ProductId, set<UserId>>
  {
    if s == [] then map[]
    else
      var m, item := NamesMap(s[..|s| - 1]), s[|s| - 1];
      m[item.product := (if item.product in m then m[item.product] else {}) + {item.auditor}]
  }

  /** What pass 1 builds is the grouping of the ledger by product. */
  lemma {:induction false} GroupMapGroups(s: seq<LedgerLine>)
    ensures Grouped(s, KeyOrder(s, LineProduct), GroupMap(s))
  {
    if s != [] {
      var i := |s| - 1;
      var p := s[i].product;
      assert s[..i + 1] == s;
      GroupMapGroups(s[..i]);
      var m := GroupMap(s[..i]);
      KeyOrderSnoc(s, i, LineProduct);
      if p !in m {
        NotYetSeen(s[..i], [], p);
      }
      GroupsAgreeStep(s, i, m, if p in m then m[p] else ProductGroup(0, []));
    }
  }

  /** What pass 2 builds are the per-product totals and auditor sets. */
  lemma {:induction false} CountMapsTotal(s: seq<CountRecord>)
    ensures Totalled(s, KeyOrder(s, CountProduct), TotalsMap(s), NamesMap(s))
  {
    if s != [] {
      var i := |s| - 1;
      var p := s[i].product;
      assert s[..i + 1] == s;
      CountMapsTotal(s[..i]);
      var t, n := TotalsMap(s[..i]), NamesMap(s[..i]);
      KeyOrderSnoc(s, i, CountProduct);
      if p !in t {
        NotYetSeen([], s[..i], p);
      }
      TotalsAgreeStep(s, i, t, if p in t then t[p] else 0);
      NamesAgreeStep(s, i, n, if p in n then n[p] else {});
    }
  }

  /** Pass 1 has a dict entry for exactly the products listed so far. */
  lemma GroupMapKey(s: seq<LedgerLine>, p: ProductId)
    ensures p in GroupMap(s) <==> p in KeyOrder(s, LineProduct)
  {
    GroupMapGroups(s);
  }

  /** Pass 2 has a dict entry for exactly the products counted so far. */
  lemma TotalsMapKey(s: seq<CountRecord>, p: ProductId)
    ensures p in TotalsMap(s) <==> p in KeyOrder(s, CountProduct)
    ensures p in NamesMap(s) <==> p in KeyOrder(s, CountProduct)
  {
    CountMapsTotal(s);
  }

  /** One reconciliation run of revision `rev`: the four passes of the source. */
  method ComputeProductResults(rev: RevisionId, ledger: seq<LedgerLine>, counts: seq<CountRecord>)
    returns (results: seq<ResultRow>, unaccounted: seq<UnaccountedRow>)
    ensures results == ProductResults(rev, ledger, counts)
    ensures unaccounted == ProductUnaccounted(rev, ledger, counts)
  {
    var productOrder, inventoryByProduct := GroupLedgerByProduct(ledger);
    var countedOrder, revizorByProduct, revizorNamesByProduct := TotalCountsByProduct(counts);
    results := EmitResultRows(rev, ledger, counts, productOrder, inventoryByProduct, revizorByProduct, revizorNamesByProduct);
    unaccounted := EmitUnaccountedRows(rev, ledger, counts, countedOrder, inventoryByProduct);
  }

  /** Pass 1: group the ledger lines by product, keeping each product's lines
      in ledger order and totalling their quantities. */
  method GroupLedgerByProduct(ledger: seq<LedgerLine>)
    returns (productOrder: seq<ProductId>, inventoryByProduct: map<ProductId, ProductGroup>)
    ensures Grouped(ledger, productOrder, inventoryByProduct)
  {
    productOrder, inventoryByProduct := [], map[];
    for i := 0 to |ledger|
      invariant productOrder == KeyOrder(ledger[..i], LineProduct)
      invariant inventoryByProduct == GroupMap(ledger[..i])
    {
      var line := ledger[i];
      var p := line.product;
      assert ledger[..i + 1][..i] == ledger[..i];
      KeyOrderSnoc(ledger, i, LineProduct);
      GroupMapKey(ledger[..i], p);
      var g: ProductGroup;
      if p in inventoryByProduct {
        g := inventoryByProduct[p];
      } else {
        g := ProductGroup(0, []);
        productOrder := productOrder + [p];
      }
      inventoryByProduct := inventoryByProduct[p := ProductGroup(g.total + line.quantity, g.lines + [line])];
    }
    assert ledger[..|ledger|] == ledger;
    GroupMapGroups(ledger);
  }

  /** Pass 2: total the counts by product, across auditors, series and
      expiry dates, and collect the auditors of each product. */
  method TotalCountsByProduct(counts: seq<CountRecord>)
    returns (countedOrder: seq<ProductId>, revizorByProduct: map<ProductId, Cents>, revizorNamesByProduct: map<ProductId, set<UserId>>)
    ensures Totalled(counts, countedOrder, revizorByProduct, revizorNamesByProduct)
  {
    countedOrder, revizorByProduct, revizorNamesByProduct := [], map[], map[];
    for i := 0 to |counts|
      invariant countedOrder == KeyOrder(counts[..i], CountProduct)
      invariant revizorByProduct == TotalsMap(counts[..i])
      invariant revizorNamesByProduct == NamesMap(counts[..i])
    {
      var item := counts[i];
      var p := item.product;
      assert counts[..i + 1][..i] == counts[..i];
      KeyOrderSnoc(counts, i, CountProduct);
      TotalsMapKey(counts[..i], p);
      var total: Cents, names: set<UserId>;
      if p in revizorByProduct {
        total, names := revizorByProduct[p], revizorNamesByProduct[p];
      } else {
        total, names := 0, {};
        countedOrder := countedOrder + [p];
      }
      revizorByProduct := revizorByProduct[p := total + item.quantity];
      revizorNamesByProduct := revizorNamesByProduct[p := names + {item.auditor}];
    }
    assert counts[..|counts|] == counts;
    CountMapsTotal(counts);
  }

  /** Pass 3: for each ledger product, in ledger order, the rows of its
      ledger lines. */
  method EmitResultRows(rev: RevisionId, ledger: seq<LedgerLine>, counts: seq<CountRecord>,
                        productOrder: seq<ProductId>, inventoryByProduct: map<ProductId, ProductGroup>,
                        revizorByProduct: map<ProductId, Cents>, revizorNamesByProduct: map<ProductId, set<UserId>>)
    returns (results: seq<ResultRow>)
    requires Grouped(ledger, productOrder, inventoryByProduct)
    requires exists order :: Totalled(counts, order, revizorByProduct, revizorNamesByProduct)
    ensures results == EmitResults(rev, ledger, counts, productOrder)
  {
    results := [];
    for k := 0 to |productOrder|
      invariant results == EmitResults(rev, ledger, counts, productOrder[..k])
    {
      var p := productOrder[k];
      assert productOrder[..k + 1][..k] == productOrder[..k];
      var rows := EmitProduct(rev, ledger, counts, p, inventoryByProduct[p], revizorByProduct, revizorNamesByProduct);
      results := results + rows;
    }
    assert productOrder[..|productOrder|] == productOrder;
  }

  /** The body of pass 3 for product `p`: its difference and status, then one
      row per ledger line. */
  method EmitProduct(rev: RevisionId, ledger: seq<LedgerLine>, counts: seq<CountRecord>, p: ProductId,
                     group: ProductGroup, revizorByProduct: map<ProductId, Cents>, revizorNamesByProduct: map<ProductId, set<UserId>>)
    returns (rows: seq<ResultRow>)
    requires group == ProductGroup(ExpectedTotal(ledger, p), LinesOf(ledger, p))
    requires exists order :: Totalled(counts, order, revizorByProduct, revizorNamesByProduct)
    ensures rows == RowsFor(rev, ledger, counts, p)
  {
    ghost var countedOrder :| Totalled(counts, countedOrder, revizorByProduct, revizorNamesByProduct);
    var expectedTotal := group.total;
    var actualTotal: Cents := 0;
    var auditors: set<UserId> := {};
    if p in revizorByProduct {
      actualTotal := revizorByProduct[p];
      auditors := revizorNamesByProduct[p];
    } else {
      NotYetSeen([], counts, p);
    }
    var difference := actualTotal - expectedTotal;
    var status: ResultStatus;
    if difference == 0 {
      status := Correct;
    } else if difference < 0 {
      status := Shortage;
    } else {
      status := Excess;
    }
    rows := EmitProductRows(rev, p, group.lines, difference, status, auditors);
  }

  /** The inner loop of pass 3: one row per ledger line of product `p`, the
      first line taking the whole difference and the others correct. */
  method EmitProductRows(rev: RevisionId, p: ProductId, items: seq<LedgerLine>, difference: Cents,
                         status: ResultStatus, auditors: set<UserId>)
    returns (rows: seq<ResultRow>)
    requires status == StatusOf(difference)
    ensures rows == ProductRows(rev, p, items, difference, auditors)
  {
    ghost var spec := ProductRows(rev, p, items, difference, auditors);
    rows := [];
    for j := 0 to |items|
      invariant rows == spec[..j]
    {
      var itemDifference: Cents;
      var itemStatus: ResultStatus;
      if j == 0 {
        itemDifference, itemStatus := difference, status;
      } else {
        itemDifference, itemStatus := 0, Correct;
      }
      var row := ResultRow(rev, p, items[j].series, items[j].expiry, items[j].quantity,
                           if j == 0 then items[j].quantity + itemDifference else items[j].quantity,
                           itemDifference, itemStatus, auditors);
      assert spec[..j + 1] == spec[..j] + [row];
      rows := rows + [row];
    }
  }

  /** Pass 4: for each counted product that has no ledger line, one
      unaccounted row per count record of that product. */
  method EmitUnaccountedRows(rev: RevisionId, ledger: seq<LedgerLine>, counts: seq<CountRecord>,
                             countedOrder: seq<ProductId>, inventoryByProduct: map<ProductId, ProductGroup>)
    returns (unaccounted: seq<UnaccountedRow>)
    requires Grouped(ledger, KeyOrder(ledger, LineProduct), inventoryByProduct)
    ensures unaccounted == EmitUnaccounted(rev, ledger, counts, countedOrder)
  {
    unaccounted := [];
    for k := 0 to |countedOrder|
      invariant unaccounted == EmitUnaccounted(rev, ledger, counts, countedOrder[..k])
    {
      var p := countedOrder[k];
      assert countedOrder[..k + 1][..k] == countedOrder[..k];
      FilterKeyNonEmpty(ledger, LineProduct, p);
      if p !in inventoryByProduct {
        var rows := CopyCounts(rev, CountsOf(counts, p));
        unaccounted := unaccounted + rows;
      } else {
        assert unaccounted + [] == unaccounted;
      }
    }
    assert countedOrder[..|countedOrder|] == countedOrder;
  }

  /** The inner loop of pass 4: a copy of each count record, in order. */
  method CopyCounts(rev: RevisionId, items: seq<CountRecord>) returns (rows: seq<UnaccountedRow>)
    ensures rows == UnaccountedRows(rev, items)
  {
    rows := [];
    for j := 0 to |items|
      invariant rows == UnaccountedRows(rev, items[..j])
    {
      assert UnaccountedRows(rev, items[..j + 1]) == UnaccountedRows(rev, items[..j]) + [ToUnaccounted(rev, items[j])];
      rows := rows + [ToUnaccounted(rev, items[j])];
    }
    assert items[..|items|] == items;
  }

  // ---------------------------------------------------------------- properties

  /** Weight 1 per ledger line, to count lines by summing. */
  function LineOne(l: LedgerLine): int { 1 }

  /** The rows of a duplicate-free product order, restricted to product `p`:
      those of `p` alone when it is listed, none otherwise. */
  lemma {:induction false} EmittedRowsOf(rev: RevisionId, ledger: seq<LedgerLine>, counts: seq<CountRecord>,
                                        order: seq<ProductId>, p: ProductId)
    requires Distinct(order)
    ensures FilterKey(EmitResults(rev, ledger, counts, order), ResultProduct, p)
         == if p in order then RowsFor(rev, ledger, counts, p) else []
  {
    if order != [] {
      var init, q := order[..|order| - 1], order[|order| - 1];
      DistinctInit(order);
      Last(order);
      EmittedRowsOf(rev, ledger, counts, init, p);
      FilterKeyConcat(EmitResults(rev, ledger, counts, init), RowsFor(rev, ledger, counts, q), ResultProduct, p);
      FilterKeyUniform(RowsFor(rev, ledger, counts, q), ResultProduct, q, p);
    }
  }

  /** The result rows of product `p` are exactly its own rows, one per ledger
      line of `p`: a product has result rows iff it has ledger lines. */
  lemma ResultsOfProduct(rev: RevisionId, ledger: seq<LedgerLine>, counts: seq<CountRecord>, p: ProductId)
    ensures FilterKey(ProductResults(rev, ledger, counts), ResultProduct, p) == RowsFor(rev, ledger, counts, p)
    ensures FilterKey(ProductResults(rev, ledger, counts), ResultProduct, p) != [] <==> HasLines(ledger, p)
  {
    KeyOrderMembers(ledger, LineProduct);
    EmittedRowsOf(rev, ledger, counts, KeyOrder(ledger, LineProduct), p);
    FilterKeyNonEmpty(ledger, LineProduct, p);
  }

  /** Partial sums over the first `k` rows of a product: only row 0 carries
      the difference, and each row keeps its line's expected quantity. */
  lemma {:induction false} RowSums(rev: RevisionId, p: ProductId, lines: seq<LedgerLine>, d: Cents, a: set<UserId>, k: nat)
    requires k <= |lines|
    ensures SumBy(ProductRows(rev, p, lines, d, a)[..k], ResultDifference) == (if k == 0 then 0 else d)
    ensures SumBy(ProductRows(rev, p, lines, d, a)[..k], ResultExpected) == SumBy(lines[..k], LineQuantity)
    ensures SumBy(ProductRows(rev, p, lines, d, a)[..k], ResultActual) == SumBy(lines[..k], LineQuantity) + (if k == 0 then 0 else d)
  {
    if k > 0 {
      var rows := ProductRows(rev, p, lines, d, a);
      RowSums(rev, p, lines, d, a, k - 1);
      assert rows[..k][..k - 1] == rows[..k - 1];
      assert lines[..k][..k - 1] == lines[..k - 1];
    }
  }

  /** The rows of a product with ledger lines: one per line, in ledger order,
      keeping the line's series, expiry and expected quantity and carrying all
      auditors of the product; the first row takes the whole product
      difference with its status and the later rows are correct, so the rows'
      differences add up to the product difference exactly once, their
      expected quantities to the ledger total and their actual quantities to
      the counted total. */
  lemma ProductRowsShape(rev: RevisionId, ledger: seq<LedgerLine>, counts: seq<CountRecord>, p: ProductId)
    requires HasLines(ledger, p)
    ensures var rows, lines := RowsFor(rev, ledger, counts, p), LinesOf(ledger, p);
      && |rows| == |lines|
      && (forall j :: 0 <= j < |rows| ==>
            rows[j].revision == rev && rows[j].product == p && rows[j].series == lines[j].series
            && rows[j].expiry == lines[j].expiry && rows[j].expected == lines[j].quantity
            && rows[j].auditors == AuditorsOf(counts, p))
      && rows[0].difference == ActualTotal(counts, p) - ExpectedTotal(ledger, p)
      && rows[0].actual == rows[0].expected + rows[0].difference
      && rows[0].status == StatusOf(rows[0].difference)
      && (forall j :: 0 < j < |rows| ==> rows[j].difference == 0 && rows[j].status == Correct && rows[j].actual == rows[j].expected)
      && SumBy(rows, ResultDifference) == ActualTotal(counts, p) - ExpectedTotal(ledger, p)
      && SumBy(rows, ResultExpected) == ExpectedTotal(ledger, p)
      && SumBy(rows, ResultActual) == ActualTotal(counts, p)
  {
    var rows, lines := RowsFor(rev, ledger, counts, p), LinesOf(ledger, p);
    RowSums(rev, p, lines, ProductDifference(ledger, counts, p), AuditorsOf(counts, p), |lines|);
    assert rows[..|rows|] == rows;
    assert lines[..|lines|] == lines;
  }

  /** Every row of a product is consistent: its difference is actual minus
      expected and its status follows the difference. */
  lemma ProductRowsConsistent(rev: RevisionId, p: ProductId, lines: seq<LedgerLine>, d: Cents, a: set<UserId>)
    ensures forall r :: r in ProductRows(rev, p, lines, d, a) ==> Consistent(r) && r.revision == rev
  {
    var rows := ProductRows(rev, p, lines, d, a);
    forall r | r in rows ensures Consistent(r) && r.revision == rev {
      var j :| 0 <= j < |rows| && rows[j] == r;
    }
  }

  lemma {:induction false} EmittedConsistent(rev: RevisionId, ledger: seq<LedgerLine>, counts: seq<CountRecord>, order: seq<ProductId>)
    ensures forall r :: r in EmitResults(rev, ledger, counts, order) ==> Consistent(r) && r.revision == rev
  {
    if order != [] {
      var q := order[|order| - 1];
      EmittedConsistent(rev, ledger, counts, order[..|order| - 1]);
      ProductRowsConsistent(rev, q, LinesOf(ledger, q), ProductDifference(ledger, counts, q), AuditorsOf(counts, q));
    }
  }

  /** Every result row of a run belongs to the revision and is consistent, so
      RevisionResult.calculate would leave it unchanged. */
  lemma ResultsConsistent(rev: RevisionId, ledger: seq<LedgerLine>, counts: seq<CountRecord>)
    ensures forall r :: r in ProductResults(rev, ledger, counts) ==> Consistent(r) && Calculate(r) == r && r.revision == rev
  {
    EmittedConsistent(rev, ledger, counts, KeyOrder(ledger, LineProduct));
    forall r | r in ProductResults(rev, ledger, counts) ensures Calculate(r) == r {
      CalculateConsistent(r);
    }
  }

  lemma {:induction false} EmittedLength(rev: RevisionId, ledger: seq<LedgerLine>, counts: seq<CountRecord>, order: seq<ProductId>)
    ensures |EmitResults(rev, ledger, counts, order)| == SumOfGroups(ledger, LineProduct, LineOne, order)
  {
    if order != [] {
      var q := order[|order| - 1];
      EmittedLength(rev, ledger, counts, order[..|order| - 1]);
      SumByConst(LinesOf(ledger, q), LineOne);
    }
  }

  /** A run writes exactly one result row per ledger line, and every ledger
      line has a row with its product, series, expiry and expected quantity. */
  lemma OneRowPerLine(rev: RevisionId, ledger: seq<LedgerLine>, counts: seq<CountRecord>)
    ensures |ProductResults(rev, ledger, counts)| == |ledger|
    ensures forall l :: l in ledger ==>
      exists r :: r in ProductResults(rev, ledger, counts) && ResultKey(r) == LineKey(l) && r.expected == l.quantity
  {
    var order := KeyOrder(ledger, LineProduct);
    KeyOrderMembers(ledger, LineProduct);
    EmittedLength(rev, ledger, counts, order);
    SumPartition(ledger, LineProduct, LineOne, order);
    SumByConst(ledger, LineOne);
    forall l | l in ledger
      ensures exists r :: r in ProductResults(rev, ledger, counts) && ResultKey(r) == LineKey(l) && r.expected == l.quantity
    {
      var p := l.product;
      var lines := LinesOf(ledger, p);
      FilterKeyMembers(ledger, LineProduct, p);
      var j :| 0 <= j < |lines| && lines[j] == l;
      ProductRowsShape(rev, ledger, counts, p);
      var r := RowsFor(rev, ledger, counts, p)[j];
      ResultsOfProduct(rev, ledger, counts, p);
      FilterKeyMembers(ProductResults(rev, ledger, counts), ResultProduct, p);
      assert r in RowsFor(rev, ledger, counts, p);
    }
  }

  /** Two ledger lines the ledger's unique constraint lets stand side by side. */
  ghost function LinesApart(): (LedgerLine, LedgerLine) -> bool
  {
    (a: LedgerLine, b: LedgerLine) => !Clash(LineKey(a), LineKey(b))
  }

  /** The result rows of a run over the ledger lines of one warehouse meet
      the unique constraint on result rows: within a product every row
      carries the key of its own ledger line, and rows of different products
      differ in the product. Lines without an expiry date may repeat a key,
      and so do their rows, which the constraint, over a nullable column,
      allows. */
  lemma ProductResultKeysUnique(rev: RevisionId, lines: seq<LedgerLine>, counts: seq<CountRecord>)
    requires LedgerKeysUnique(lines)
    requires forall i, j :: 0 <= i < j < |lines| ==> lines[i].warehouse == lines[j].warehouse
    ensures ResultKeysUnique(ProductResults(rev, lines, counts))
  {
    assert Pairwise(lines, LinesApart());
    KeyOrderMembers(lines, LineProduct);
    EmittedApart(rev, lines, counts, KeyOrder(lines, LineProduct));
  }

  /** The rows of the products of `order`, no two of which clash, each of a
      product of `order`. */
  lemma {:induction false} EmittedApart(rev: RevisionId, ledger: seq<LedgerLine>, counts: seq<CountRecord>, order: seq<ProductId>)
    requires Distinct(order) && Pairwise(ledger, LinesApart())
    ensures forall i, j :: 0 <= i < j < |EmitResults(rev, ledger, counts, order)| ==>
      !Clash(ResultKey(EmitResults(rev, ledger, counts, order)[i]), ResultKey(EmitResults(rev, ledger, counts, order)[j]))
    ensures forall r :: r in EmitResults(rev, ledger, counts, order) ==> r.product in order
  {
    if order != [] {
      var init, q := order[..|order| - 1], order[|order| - 1];
      DistinctInit(order);
      EmittedApart(rev, ledger, counts, init);
      var a := EmitResults(rev, ledger, counts, init);
      var b := RowsFor(rev, ledger, counts, q);
      RowsApart(rev, ledger, counts, q);
      var s := a + b;
      assert EmitResults(rev, ledger, counts, order) == s;
      forall i, j | 0 <= i < j < |s| ensures !Clash(ResultKey(s[i]), ResultKey(s[j])) {
        if j < |a| {
          assert s[i] == a[i] && s[j] == a[j];
        } else if i >= |a| {
          assert s[i] == b[i - |a|] && s[j] == b[j - |a|];
        } else {
          assert s[i] == a[i] && a[i] in a;
          assert s[j] == b[j - |a|] && b[j - |a|] in b;
        }
      }
      Last(order);
    }
  }

  /** The rows of one product carry its lines' keys, so they clash no more
      than the lines do. */
  lemma RowsApart(rev: RevisionId, ledger: seq<LedgerLine>, counts: seq<CountRecord>, p: ProductId)
    requires Pairwise(ledger, LinesApart())
    ensures forall i, j :: 0 <= i < j < |RowsFor(rev, ledger, counts, p)| ==>
      !Clash(ResultKey(RowsFor(rev, ledger, counts, p)[i]), ResultKey(RowsFor(rev, ledger, counts, p)[j]))
  {
    var lines := LinesOf(ledger, p);
    var b := RowsFor(rev, ledger, counts, p);
    FilterKeyPairwise(ledger, LineProduct, p, LinesApart());
    FilterKeyMembers(ledger, LineProduct, p);
    forall j | 0 <= j < |b| ensures ResultKey(b[j]) == LineKey(lines[j]) {
      assert lines[j] in lines;
    }
    forall i, j | 0 <= i < j < |b| ensures !Clash(ResultKey(b[i]), ResultKey(b[j])) {
      assert LinesApart()(lines[i], lines[j]);
    }
  }

  /** The copies of a product's count records: each belongs to the revision
      and the product, and their quantities add up to the records'. */
  lemma {:induction false} CopiesOf(rev: RevisionId, items: seq<CountRecord>)
    ensures forall u :: u in UnaccountedRows(rev, items) ==> exists c :: c in items && u == ToUnaccounted(rev, c)
    ensures SumBy(UnaccountedRows(rev, items), UnaccountedQuantity) == SumBy(items, CountQuantity)
  {
    if items != [] {
      var init := items[..|items| - 1];
      Last(items);
      CopiesOf(rev, init);
      assert UnaccountedRows(rev, items) == UnaccountedRows(rev, init) + [ToUnaccounted(rev, items[|items| - 1])];
    }
  }

  /** The unaccounted rows of product `q` all carry product `q`. */
  lemma UnaccountedForProduct(rev: RevisionId, ledger: seq<LedgerLine>, counts: seq<CountRecord>, q: ProductId)
    ensures forall u :: u in UnaccountedFor(rev, ledger, counts, q) ==> u.product == q && u.revision == rev
  {
    CopiesOf(rev, CountsOf(counts, q));
    FilterKeyMembers(counts, CountProduct, q);
  }

  lemma {:induction false} EmittedUnaccountedOf(rev: RevisionId, ledger: seq<LedgerLine>, counts: seq<CountRecord>,
                                               order: seq<ProductId>, p: ProductId)
    requires Distinct(order)
    ensures FilterKey(EmitUnaccounted(rev, ledger, counts, order), UnaccountedProduct, p)
         == if p in order then UnaccountedFor(rev, ledger, counts, p) else []
  {
    if order != [] {
      var init, q := order[..|order| - 1], order[|order| - 1];
      DistinctInit(order);
      Last(order);
      EmittedUnaccountedOf(rev, ledger, counts, init, p);
      UnaccountedForProduct(rev, ledger, counts, q);
      FilterKeyConcat(EmitUnaccounted(rev, ledger, counts, init), UnaccountedFor(rev, ledger, counts, q), UnaccountedProduct, p);
      FilterKeyUniform(UnaccountedFor(rev, ledger, counts, q), UnaccountedProduct, q, p);
    }
  }

  /** The unaccounted rows of product `p`: none when it has a ledger line,
      otherwise one copy of each of its count records, in count order. */
  lemma UnaccountedOfProduct(rev: RevisionId, ledger: seq<LedgerLine>, counts: seq<CountRecord>, p: ProductId)
    ensures FilterKey(ProductUnaccounted(rev, ledger, counts), UnaccountedProduct, p)
         == if HasLines(ledger, p) then [] else UnaccountedRows(rev, CountsOf(counts, p))
  {
    KeyOrderMembers(counts, CountProduct);
    EmittedUnaccountedOf(rev, ledger, counts, KeyOrder(counts, CountProduct), p);
    FilterKeyNonEmpty(counts, CountProduct, p);
  }

  /** Every count record feeds exactly one side: the result rows of its
      product, which then all name its auditor, when the product has a ledger
      line; otherwise its own unaccounted copy, and the product has no result
      rows. */
  lemma CountFeedsOneSide(rev: RevisionId, ledger: seq<LedgerLine>, counts: seq<CountRecord>, c: CountRecord)
    requires c in counts
    ensures HasLines(ledger, c.product) ==>
      && FilterKey(ProductUnaccounted(rev, ledger, counts), UnaccountedProduct, c.product) == []
      && FilterKey(ProductResults(rev, ledger, counts), ResultProduct, c.product) != []
      && forall r :: r in FilterKey(ProductResults(rev, ledger, counts), ResultProduct, c.product) ==> c.auditor in r.auditors
    ensures !HasLines(ledger, c.product) ==>
      && ToUnaccounted(rev, c) in ProductUnaccounted(rev, ledger, counts)
      && FilterKey(ProductResults(rev, ledger, counts), ResultProduct, c.product) == []
  {
    var p := c.product;
    ResultsOfProduct(rev, ledger, counts, p);
    UnaccountedOfProduct(rev, ledger, counts, p);
    FilterKeyMembers(counts, CountProduct, p);
    if HasLines(ledger, p) {
      KeySetMembers(CountsOf(counts, p), CountAuditor);
      ProductRowsShape(rev, ledger, counts, p);
      var rows := RowsFor(rev, ledger, counts, p);
      forall r | r in rows ensures c.auditor in r.auditors {
        var j :| 0 <= j < |rows| && rows[j] == r;
      }
    } else {
      var items := CountsOf(counts, p);
      var j :| 0 <= j < |items| && items[j] == c;
      FilterKeyMembers(ProductUnaccounted(rev, ledger, counts), UnaccountedProduct, p);
      assert UnaccountedRows(rev, items)[j] == ToUnaccounted(rev, c);
    }
  }

  /** Unaccounted rows belong to the revision, are copies of count records
      and only ever name products without ledger lines. */
  lemma UnaccountedOnlyUnledgered(rev: RevisionId, ledger: seq<LedgerLine>, counts: seq<CountRecord>)
    ensures forall u :: u in ProductUnaccounted(rev, ledger, counts) ==>
      && !HasLines(ledger, u.product)
      && u.revision == rev
      && exists c :: c in counts && u == ToUnaccounted(rev, c)
  {
    forall u | u in ProductUnaccounted(rev, ledger, counts)
      ensures !HasLines(ledger, u.product) && u.revision == rev && exists c :: c in counts && u == ToUnaccounted(rev, c)
    {
      var p := u.product;
      FilterKeyMembers(ProductUnaccounted(rev, ledger, counts), UnaccountedProduct, p);
      UnaccountedOfProduct(rev, ledger, counts, p);
      CopiesOf(rev, CountsOf(counts, p));
      FilterKeyMembers(counts, CountProduct, p);
    }
  }

  /** The products of `o` that have no ledger line, in order. */
  function Unledgered(ledger: seq<LedgerLine>, o: seq<ProductId>): seq<ProductId>
  {
    if o == [] then []
    else if HasLines(ledger, o[|o| - 1]) then Unledgered(ledger, o[..|o| - 1])
    else Unledgered(ledger, o[..|o| - 1]) + [o[|o| - 1]]
  }

  lemma {:induction false} UnledgeredMembers(ledger: seq<LedgerLine>, o: seq<ProductId>)
    requires Distinct(o)
    ensures Distinct(Unledgered(ledger, o))
    ensures forall q :: q in Unledgered(ledger, o) <==> q in o && !HasLines(ledger, q)
  {
    if o != [] {
      var init := o[..|o| - 1];
      DistinctInit(o);
      Last(o);
      UnledgeredMembers(ledger, init);
      if !HasLines(ledger, o[|o| - 1]) {
        DistinctConcat(Unledgered(ledger, init), [o[|o| - 1]]);
      }
    }
  }

  lemma {:induction false} EmittedDifferences(rev: RevisionId, ledger: seq<LedgerLine>, counts: seq<CountRecord>, order: seq<ProductId>)
    requires forall q :: q in order ==> HasLines(ledger, q)
    ensures SumBy(EmitResults(rev, ledger, counts, order), ResultDifference)
         == SumOfGroups(counts, CountProduct, CountQuantity, order) - SumOfGroups(ledger, LineProduct, LineQuantity, order)
  {
    if order != [] {
      var init, q := order[..|order| - 1], order[|order| - 1];
      Last(order);
      EmittedDifferences(rev, ledger, counts, init);
      SumByConcat(EmitResults(rev, ledger, counts, init), RowsFor(rev, ledger, counts, q), ResultDifference);
      RowSums(rev, q, LinesOf(ledger, q), ProductDifference(ledger, counts, q), AuditorsOf(counts, q), |LinesOf(ledger, q)|);
      assert RowsFor(rev, ledger, counts, q)[..|LinesOf(ledger, q)|] == RowsFor(rev, ledger, counts, q);
      assert HasLines(ledger, q);
      assert SumBy(RowsFor(rev, ledger, counts, q), ResultDifference) == ActualTotal(counts, q) - ExpectedTotal(ledger, q);
      assert SumOfGroups(counts, CountProduct, CountQuantity, order) == SumOfGroups(counts, CountProduct, CountQuantity, init) + ActualTotal(counts, q);
      assert SumOfGroups(ledger, LineProduct, LineQuantity, order) == SumOfGroups(ledger, LineProduct, LineQuantity, init) + ExpectedTotal(ledger, q);
    }
  }

  lemma {:induction false} EmittedUnaccountedSum(rev: RevisionId, ledger: seq<LedgerLine>, counts: seq<CountRecord>, order: seq<ProductId>)
    ensures SumBy(EmitUnaccounted(rev, ledger, counts, order), UnaccountedQuantity)
         == SumOfGroups(counts, CountProduct, CountQuantity, Unledgered(ledger, order))
  {
    if order != [] {
      var init, q := order[..|order| - 1], order[|order| - 1];
      EmittedUnaccountedSum(rev, ledger, counts, init);
      SumByConcat(EmitUnaccounted(rev, ledger, counts, init), UnaccountedFor(rev, ledger, counts, q), UnaccountedQuantity);
      if !HasLines(ledger, q) {
        CopiesOf(rev, CountsOf(counts, q));
        var u := Unledgered(ledger, init);
        assert (u + [q])[..|u + [q]| - 1] == u;
      }
    }
  }

  /** The reconciliation balances: the differences written to result rows
      plus the quantities written to unaccounted rows equal everything
      counted minus everything expected. No count is lost or used twice. */
  lemma ReconciliationGap(rev: RevisionId, ledger: seq<LedgerLine>, counts: seq<CountRecord>)
    ensures SumBy(ProductResults(rev, ledger, counts), ResultDifference)
          + SumBy(ProductUnaccounted(rev, ledger, counts), UnaccountedQuantity)
         == SumBy(counts, CountQuantity) - SumBy(ledger, LineQuantity)
  {
    var lo, co := KeyOrder(ledger, LineProduct), KeyOrder(counts, CountProduct);
    KeyOrderMembers(ledger, LineProduct);
    KeyOrderMembers(counts, CountProduct);
    var u := Unledgered(ledger, co);
    UnledgeredMembers(ledger, co);
    forall q | q in lo ensures HasLines(ledger, q) {
      FilterKeyNonEmpty(ledger, LineProduct, q);
    }
    EmittedDifferences(rev, ledger, counts, lo);
    EmittedUnaccountedSum(rev, ledger, counts, co);
    DistinctConcat(lo, u);
    forall x | x in counts ensures CountProduct(x) in lo + u {
      FilterKeyNonEmpty(ledger, LineProduct, x.product);
    }
    SumPartition(counts, CountProduct, CountQuantity, lo + u);
    SumOfGroupsConcat(counts, CountProduct, CountQuantity, lo, u);
    SumPartition(ledger, LineProduct, LineQuantity, lo);
  }
}
