/** The remaining-quantity planner of `create_custody_receipt_from_pr`
    (custody/custody/api/custody_receipt/__init__.py): tally what earlier
    submitted Custody Receipts already issued against each Purchase Receipt
    line, then plan one new line per Purchase Receipt line that still has
    quantity left, or refuse when none has. */
module CustodyReceiptApi {
  import opened Wrappers
  import opened CustodyReceiptDoctype

  /** One submitted Custody Receipt Item returned by the query against the
      Purchase Receipt: its `purchase_receipt_item` link and its `qty`, either
      of which may be missing. */
  datatype SubmittedRow = SubmittedRow(purchaseReceiptItem: Option<string>, qty: Option<real>)

  /** One line of the Purchase Receipt. */
  datatype PurchaseReceiptLine = PurchaseReceiptLine(
    name: string,
    info: ItemInfo,
    acceptedQty: Option<real>,
    qty: Option<real>,
    rate: Option<real>)

  datatype PurchaseReceipt = PurchaseReceipt(name: string, items: seq<PurchaseReceiptLine>)

  /** Either the new draft Custody Receipt, ready to insert, or the blocking
      "no remaining quantities" error, in which case nothing is inserted. */
  datatype CreateResult = Created(receipt: CustodyReceipt) | NoRemainingQuantity

  /** Python truthiness of an optional number: neither None nor zero. */
  predicate IsTruthy(x: Option<real>)
  {
    x.Some? && x.value != 0.0
  }

  /** `x or 0` on an optional number. */
  function OrZero(x: Option<real>): (r: real)
    ensures IsTruthy(x) ==> r == x.value
    ensures !IsTruthy(x) ==> r == 0.0
  {
    if x.Some? then x.value else 0.0
  }

  /** The source line a submitted row counts against, or None when its link is
      missing or empty (`if not key: continue`). */
  function RowKey(row: SubmittedRow): (k: Option<string>)
    ensures k.Some? <==> IsSet(row.purchaseReceiptItem)
    ensures k.Some? ==> k == row.purchaseReceiptItem && k.value != ""
  {
    if IsSet(row.purchaseReceiptItem) then row.purchaseReceiptItem else None
  }

  // ---------------------------------------------------------------------
  // Tally step
  // ---------------------------------------------------------------------

  /** Reference definition of the tally: the sum of `qty or 0` over the rows
      linked to `key`. */
  function Receipted(rows: seq<SubmittedRow>, key: string): real
  {
    if rows == [] then 0.0
    else
      var last := rows[|rows| - 1];
      Receipted(rows[..|rows| - 1], key) + (if RowKey(last) == Some(key) then OrZero(last.qty) else 0.0)
  }

  /** Some row is linked to `key`. */
  predicate KeyOccurs(rows: seq<SubmittedRow>, key: string)
  {
    exists i :: 0 <= i < |rows| && RowKey(rows[i]) == Some(key)
  }

  /** `tally.get(key, 0)`. */
  function Already(tally: map<string, real>, key: string): real
  {
    if key in tally then tally[key] else 0.0
  }

  /** The loop that fills `receipted_by_pr_item`: the map has an entry exactly
      for each non-empty link among the rows, and looking any line up in it
      with a default of 0 gives the reference sum. */
  method TallyReceipted(rows: seq<SubmittedRow>) returns (tally: map<string, real>)
    ensures forall key :: key in tally <==> KeyOccurs(rows, key)
    ensures forall key :: Already(tally, key) == Receipted(rows, key)
  {
    tally := map[];
    var i := 0;
    while i < |rows|
      invariant 0 <= i <= |rows|
      invariant forall key :: key in tally <==> KeyOccurs(rows[..i], key)
      invariant forall key :: Already(tally, key) == Receipted(rows[..i], key)
    {
      assert rows[..i + 1][..i] == rows[..i];
      var key := rows[i].purchaseReceiptItem;
      if key.Some? && key.value != "" {
        tally := tally[key.value := Already(tally, key.value) + OrZero(rows[i].qty)];
      }
      i := i + 1;
    }
    assert rows[..i] == rows;
  }

  /** A row with a missing or empty link, wherever it stands among the rows,
      adds nothing to any line's tally. */
  lemma UnlinkedRowAddsNothing(before: seq<SubmittedRow>, row: SubmittedRow, after: seq<SubmittedRow>, key: string)
    requires !IsSet(row.purchaseReceiptItem)
    ensures Receipted(before + [row] + after, key) == Receipted(before + after, key)
  {
    ReceiptedConcat(before + [row], after, key);
    ReceiptedConcat(before, after, key);
  }

  /** A line no row is linked to has a tally of 0; in particular the empty
      name never has a tally. */
  lemma {:induction false} ReceiptedUnlinked(rows: seq<SubmittedRow>, key: string)
    requires !KeyOccurs(rows, key)
    ensures Receipted(rows, key) == 0.0
  {
    if rows != [] {
      var init := rows[..|rows| - 1];
      assert !KeyOccurs(init, key) by {
        forall i | 0 <= i < |init| ensures RowKey(init[i]) != Some(key) {
          assert init[i] == rows[i];
        }
      }
      ReceiptedUnlinked(init, key);
    }
  }

  /** The tally of two batches of rows is the sum of their tallies. */
  lemma {:induction false} ReceiptedConcat(a: seq<SubmittedRow>, b: seq<SubmittedRow>, key: string)
    ensures Receipted(a + b, key) == Receipted(a, key) + Receipted(b, key)
  {
    if b != [] {
      var init := b[..|b| - 1];
      assert (a + b)[..|a + b| - 1] == a + init;
      ReceiptedConcat(a, init, key);
    } else {
      assert a + b == a;
    }
  }

  // ---------------------------------------------------------------------
  // Planning step
  // ---------------------------------------------------------------------

  /** `accepted_qty or qty or 0`: an accepted quantity of 0 falls through to
      the line's plain quantity. */
  function AcceptedQty(line: PurchaseReceiptLine): (q: real)
    ensures IsTruthy(line.acceptedQty) ==> q == line.acceptedQty.value
    ensures !IsTruthy(line.acceptedQty) && IsTruthy(line.qty) ==> q == line.qty.value
    ensures !IsTruthy(line.acceptedQty) && !IsTruthy(line.qty) ==> q == 0.0
  {
    if IsTruthy(line.acceptedQty) then line.acceptedQty.value
    else if IsTruthy(line.qty) then line.qty.value
    else 0.0
  }

  /** `max(0, accepted - already)` for one line: never negative, and when
      positive it is exactly what separates the tally from the accepted
      quantity. */
  function Remaining(line: PurchaseReceiptLine, rows: seq<SubmittedRow>): (r: real)
    ensures r >= 0.0
    ensures r >= AcceptedQty(line) - Receipted(rows, line.name)
    ensures r > 0.0 ==> Receipted(rows, line.name) + r == AcceptedQty(line)
  {
    var d := AcceptedQty(line) - Receipted(rows, line.name);
    if d > 0.0 then d else 0.0
  }

  /** The Custody Receipt Item appended for `line` with quantity `qty`. */
  function PlannedItem(line: PurchaseReceiptLine, prName: string, qty: real): ReceiptItem
  {
    ReceiptItem(line.info, qty, prName, line.name, OrZero(line.rate), OrZero(line.rate) * qty)
  }

  /** Reference definition of the lines the planner appends, for the lines in
      order, given the submitted rows. */
  function Plan(lines: seq<PurchaseReceiptLine>, rows: seq<SubmittedRow>, prName: string): seq<ReceiptItem>
  {
    if lines == [] then []
    else
      var last := lines[|lines| - 1];
      var init := Plan(lines[..|lines| - 1], rows, prName);
      if Remaining(last, rows) <= 0.0 then init
      else init + [PlannedItem(last, prName, Remaining(last, rows))]
  }

  /** Positions of the lines that still have quantity left, in order. */
  function Sources(lines: seq<PurchaseReceiptLine>, rows: seq<SubmittedRow>): seq<nat>
  {
    if lines == [] then []
    else
      var init := Sources(lines[..|lines| - 1], rows);
      if Remaining(lines[|lines| - 1], rows) <= 0.0 then init
      else init + [|lines| - 1]
  }

  /** One planned line per line with quantity left. */
  lemma {:induction false} PlanLength(lines: seq<PurchaseReceiptLine>, rows: seq<SubmittedRow>, prName: string)
    ensures |Plan(lines, rows, prName)| == |Sources(lines, rows)|
  {
    if lines != [] {
      PlanLength(lines[..|lines| - 1], rows, prName);
    }
  }

  /** Planned line `j` is the line built from line `Sources[j]`, which has
      quantity left. */
  lemma {:induction false} PlanFromSources(lines: seq<PurchaseReceiptLine>, rows: seq<SubmittedRow>, prName: string, j: nat)
    requires j < |Sources(lines, rows)|
    ensures |Plan(lines, rows, prName)| == |Sources(lines, rows)|
    ensures var i := Sources(lines, rows)[j];
      && i < |lines|
      && Remaining(lines[i], rows) > 0.0
      && Plan(lines, rows, prName)[j] == PlannedItem(lines[i], prName, Remaining(lines[i], rows))
  {
    PlanLength(lines, rows, prName);
    var init := lines[..|lines| - 1];
    PlanLength(init, rows, prName);
    var s0 := Sources(init, rows);
    if j < |s0| {
      PlanFromSources(init, rows, prName, j);
      assert lines[s0[j]] == init[s0[j]];
    }
  }

  /** Sources are positions of lines, in strictly increasing order: the plan
      keeps the lines' order and uses each line at most once. */
  lemma {:induction false} SourcesIncrease(lines: seq<PurchaseReceiptLine>, rows: seq<SubmittedRow>)
    ensures forall j :: 0 <= j < |Sources(lines, rows)| ==> Sources(lines, rows)[j] < |lines|
    ensures forall j, j' :: 0 <= j < j' < |Sources(lines, rows)| ==> Sources(lines, rows)[j] < Sources(lines, rows)[j']
  {
    if lines != [] {
      SourcesIncrease(lines[..|lines| - 1], rows);
    }
  }

  /** No line with quantity left is skipped. */
  lemma {:induction false} SourcesComplete(lines: seq<PurchaseReceiptLine>, rows: seq<SubmittedRow>, i: nat)
    requires i < |lines| && Remaining(lines[i], rows) > 0.0
    ensures i in Sources(lines, rows)
  {
    var init := lines[..|lines| - 1];
    if i < |init| {
      assert init[i] == lines[i];
      SourcesComplete(init, rows, i);
    }
  }

  /** What every planned line carries: a positive quantity that brings its
      source line's tally exactly up to the accepted quantity, the source
      line's rate (0 when missing) with `amount == rate * qty`, links to the
      Purchase Receipt and to its own source line, and the source line's
      descriptive fields unchanged. */
  lemma PlannedLineFacts(lines: seq<PurchaseReceiptLine>, rows: seq<SubmittedRow>, prName: string, j: nat)
    requires j < |Plan(lines, rows, prName)|
    ensures |Sources(lines, rows)| == |Plan(lines, rows, prName)|
    ensures var p, i := Plan(lines, rows, prName)[j], Sources(lines, rows)[j];
      && i < |lines|
      && p.qty > 0.0
      && Receipted(rows, lines[i].name) + p.qty == AcceptedQty(lines[i])
      && p.rate == OrZero(lines[i].rate)
      && p.amount == p.rate * p.qty
      && p.purchaseReceipt == prName
      && p.purchaseReceiptItem == lines[i].name
      && p.info == lines[i].info
  {
    PlanLength(lines, rows, prName);
    PlanFromSources(lines, rows, prName, j);
  }

  /** Nothing is planned exactly when no line has quantity left. */
  lemma {:induction false} PlanEmptyIff(lines: seq<PurchaseReceiptLine>, rows: seq<SubmittedRow>, prName: string)
    ensures Plan(lines, rows, prName) == [] <==> forall i :: 0 <= i < |lines| ==> Remaining(lines[i], rows) <= 0.0
  {
    if lines != [] {
      var init := lines[..|lines| - 1];
      PlanEmptyIff(init, rows, prName);
      assert forall i :: 0 <= i < |init| ==> lines[i] == init[i];
    }
  }

  /** The whole of `create_custody_receipt_from_pr` once the query result is an
      input: the error exactly when no line has quantity left, otherwise a
      new draft linked to the Purchase Receipt whose items are the plan. */
  function CreateFromPurchaseReceipt(pr: PurchaseReceipt, rows: seq<SubmittedRow>): (r: CreateResult)
    ensures r.NoRemainingQuantity? <==> forall i :: 0 <= i < |pr.items| ==> Remaining(pr.items[i], rows) <= 0.0
    ensures r.Created? ==>
      && r.receipt.docstatus == Draft
      && r.receipt.purchaseReceipt == Some(pr.name)
      && r.receipt.items == Some(Plan(pr.items, rows, pr.name))
      && |Plan(pr.items, rows, pr.name)| > 0
  {
    PlanEmptyIff(pr.items, rows, pr.name);
    var items := Plan(pr.items, rows, pr.name);
    if items == [] then NoRemainingQuantity
    else Created(CustodyReceipt(Draft, None, None, Some(pr.name), Some(items)))
  }

  /** The two loops of `create_custody_receipt_from_pr`: build the tally, then
      walk the Purchase Receipt lines appending one item per line with
      quantity left and counting them; the error is decided from the counter. */
  method CreateCustodyReceiptFromPr(pr: PurchaseReceipt, existingRows: seq<SubmittedRow>) returns (result: CreateResult)
    ensures result == CreateFromPurchaseReceipt(pr, existingRows)
  {
    var receiptedByPrItem := TallyReceipted(existingRows);
    var items: seq<ReceiptItem> := [];
    var totalAppended := 0;
    for i := 0 to |pr.items|
      invariant items == Plan(pr.items[..i], existingRows, pr.name)
      invariant totalAppended == |items|
    {
      assert pr.items[..i + 1][..i] == pr.items[..i];
      var item := pr.items[i];
      var acceptedQty := AcceptedQty(item);
      var already := Already(receiptedByPrItem, item.name);
      var remaining := if acceptedQty - already > 0.0 then acceptedQty - already else 0.0;
      assert pr.items[..i + 1][i] == item && remaining == Remaining(item, existingRows);
      assert Plan(pr.items[..i + 1], existingRows, pr.name) ==
        if remaining <= 0.0 then items
        else items + [PlannedItem(item, pr.name, remaining)];
      if remaining <= 0.0 {
        continue;
      }
      var rate := OrZero(item.rate);
      assert PlannedItem(item, pr.name, remaining) == ReceiptItem(item.info, remaining, pr.name, item.name, rate, rate * remaining);
      items := items + [ReceiptItem(item.info, remaining, pr.name, item.name, rate, rate * remaining)];
      totalAppended := totalAppended + 1;
    }
    assert pr.items[..|pr.items|] == pr.items;
    if totalAppended == 0 {
      return NoRemainingQuantity;
    }
    result := Created(CustodyReceipt(Draft, None, None, Some(pr.name), Some(items)));
  }

  // ---------------------------------------------------------------------
  // Over-issue: what the tally becomes once the new receipt is submitted
  // ---------------------------------------------------------------------

  /** The rows the planned items become once the new receipt is submitted. */
  function AsSubmittedRows(items: seq<ReceiptItem>): (rows: seq<SubmittedRow>)
    ensures |rows| == |items|
    ensures forall j :: 0 <= j < |items| ==>
      rows[j] == SubmittedRow(Some(items[j].purchaseReceiptItem), Some(items[j].qty))
  {
    seq(|items|, j requires 0 <= j < |items| => SubmittedRow(Some(items[j].purchaseReceiptItem), Some(items[j].qty)))
  }

  /** Sum of the remaining quantities of the lines named `key`. */
  function RemainingNamed(lines: seq<PurchaseReceiptLine>, rows: seq<SubmittedRow>, key: string): real
  {
    if lines == [] then 0.0
    else
      var last := lines[|lines| - 1];
      RemainingNamed(lines[..|lines| - 1], rows, key) + (if last.name == key then Remaining(last, rows) else 0.0)
  }

  /** The plan issues, against a non-empty line name, the remaining quantity
      of the lines with that name. */
  lemma {:induction false} PlanIssues(lines: seq<PurchaseReceiptLine>, rows: seq<SubmittedRow>, prName: string, key: string)
    requires key != ""
    ensures Receipted(AsSubmittedRows(Plan(lines, rows, prName)), key) == RemainingNamed(lines, rows, key)
  {
    if lines != [] {
      var init := lines[..|lines| - 1];
      var last := lines[|lines| - 1];
      PlanIssues(init, rows, prName, key);
      var before := Plan(init, rows, prName);
      if Remaining(last, rows) > 0.0 {
        var item := PlannedItem(last, prName, Remaining(last, rows));
        assert AsSubmittedRows(before + [item]) == AsSubmittedRows(before) + AsSubmittedRows([item]);
        ReceiptedConcat(AsSubmittedRows(before), AsSubmittedRows([item]), key);
        assert AsSubmittedRows([item])[..0] == [];
      }
    }
  }

  /** Among lines with distinct names, the lines named like line `i` are line
      `i` alone. */
  lemma {:induction false} RemainingNamedDistinct(lines: seq<PurchaseReceiptLine>, rows: seq<SubmittedRow>, i: nat)
    requires i < |lines|
    requires forall a, b :: 0 <= a < b < |lines| ==> lines[a].name != lines[b].name
    ensures RemainingNamed(lines, rows, lines[i].name) == Remaining(lines[i], rows)
  {
    var init := lines[..|lines| - 1];
    if i < |lines| - 1 {
      assert init[i] == lines[i];
      RemainingNamedDistinct(init, rows, i);
    } else {
      RemainingNamedAbsent(init, rows, lines[i].name);
    }
  }

  /** Lines none of which is named `key` have nothing remaining under it. */
  lemma {:induction false} RemainingNamedAbsent(lines: seq<PurchaseReceiptLine>, rows: seq<SubmittedRow>, key: string)
    requires forall a :: 0 <= a < |lines| ==> lines[a].name != key
    ensures RemainingNamed(lines, rows, key) == 0.0
  {
    if lines != [] {
      RemainingNamedAbsent(lines[..|lines| - 1], rows, key);
    }
  }

  /** Receipting never over-issues. With the line names distinct and non-empty,
      as the framework keeps them, submitting the planned receipt brings each
      line's total issued to the larger of its accepted quantity and what was
      already issued: a line within its accepted quantity ends exactly at it,
      a line already over it receives nothing, and links that name no line of
      the Purchase Receipt are left as they were. */
  lemma IssuedNeverExceedsAccepted(lines: seq<PurchaseReceiptLine>, rows: seq<SubmittedRow>, prName: string)
    requires forall a :: 0 <= a < |lines| ==> lines[a].name != ""
    requires forall a, b :: 0 <= a < b < |lines| ==> lines[a].name != lines[b].name
    ensures forall i :: 0 <= i < |lines| ==>
      var after := Receipted(rows + AsSubmittedRows(Plan(lines, rows, prName)), lines[i].name);
      && (Receipted(rows, lines[i].name) <= AcceptedQty(lines[i]) ==> after == AcceptedQty(lines[i]))
      && (Receipted(rows, lines[i].name) > AcceptedQty(lines[i]) ==> after == Receipted(rows, lines[i].name))
    ensures forall key :: (forall a :: 0 <= a < |lines| ==> lines[a].name != key) ==>
      Receipted(rows + AsSubmittedRows(Plan(lines, rows, prName)), key) == Receipted(rows, key)
  {
    var added := AsSubmittedRows(Plan(lines, rows, prName));
    forall i | 0 <= i < |lines|
      ensures Receipted(rows + added, lines[i].name) == Receipted(rows, lines[i].name) + Remaining(lines[i], rows)
    {
      ReceiptedConcat(rows, added, lines[i].name);
      PlanIssues(lines, rows, prName, lines[i].name);
      RemainingNamedDistinct(lines, rows, i);
    }
    forall key | forall a :: 0 <= a < |lines| ==> lines[a].name != key
      ensures Receipted(rows + added, key) == Receipted(rows, key)
    {
      ReceiptedConcat(rows, added, key);
      if key == "" {
        assert !KeyOccurs(added, key);
        ReceiptedUnlinked(added, key);
      } else {
        PlanIssues(lines, rows, prName, key);
        RemainingNamedAbsent(lines, rows, key);
      }
    }
  }

  // ---------------------------------------------------------------------
  // The created receipt and the validation hook
  // ---------------------------------------------------------------------

  /** The created receipt is a draft, so the validation run by its insert
      passes; the function never sets its employee, so submitting it
      unchanged is refused for the missing employee. */
  lemma CreatedReceiptInsertsButCannotBeSubmittedAsIs(pr: PurchaseReceipt, rows: seq<SubmittedRow>)
    requires CreateFromPurchaseReceipt(pr, rows).Created?
    ensures Validate(CreateFromPurchaseReceipt(pr, rows).receipt) == Pass
    ensures Validate(CreateFromPurchaseReceipt(pr, rows).receipt.(docstatus := Submitted)) == Fail(EmployeeMissing)
  {
  }
}
