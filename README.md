# Custody Receipt: remaining-quantity planner and submission validator

This project models, in Dafny, the two pieces of logic at the heart of the
Custody Receipt customisation of an ERP system:

- **Creating a Custody Receipt from a Purchase Receipt**
  (`create_custody_receipt_from_pr`). The function first tallies, per
  Purchase Receipt line, the quantity already issued on submitted Custody
  Receipt Items. Rows with a missing or empty line link are skipped, and a
  missing `qty` counts as 0. It then walks the Purchase Receipt lines in order.
  For each line it takes the accepted quantity (`accepted_qty`, falling back to
  `qty`, then 0) and computes `remaining = max(0, accepted - already)`. It
  appends one Custody Receipt Item with `qty = remaining` and
  `amount = rate * remaining` when that is positive. When nothing was appended
  it raises "No remaining quantities available" and inserts nothing.
- **The submission validator** (`CustodyReceipt.validate` and
  `validate_mandatory_fields`). Drafts always pass. Any other document needs
  an employee, a posting date and at least one item. These are checked in that
  order, and the first missing one decides the error.

Files:

- `wrappers.dfy`: `Option`.
- `custody_receipt_doctype.dfy` (module `CustodyReceiptDoctype`): the Custody
  Receipt document and its items, and the validator as a pure function.
- `custody_receipt_api.dfy` (module `CustodyReceiptApi`): the planner. The
  tally loop is the method `TallyReceipted`, which fills a `map` as the source
  fills its dictionary. The append loop is the method
  `CreateCustodyReceiptFromPr`, which keeps the `total_appended` counter and
  the growing items list and decides the error from the counter. Both methods
  are proved against reference functions: `Receipted` is the sum over
  submitted rows, `Plan` is the planned lines and `Sources` their source
  positions. The properties are proved as lemmas about those functions.

Quantities, rates and amounts are exact `real`s. Python truthiness is written
out: a number field is "set" when it is present and non-zero, and a text field
when it is present and not `""`. So an `accepted_qty` of 0 falls through to
`qty`, as in the source.

Two points where the code's behaviour is narrower than it may first appear:

- The function's docstring (`__init__.py:12`) says it prevents creating
  Custody Receipt Items beyond the remaining quantities. The code only
  subtracts items on *submitted* Custody Receipts (`docstatus` 1,
  `__init__.py:29-34`). `IssuedNeverExceedsAccepted` proves the guarantee the
  code gives: submitting a freshly planned receipt brings each line exactly up
  to its accepted quantity, and never past it when it was not past it before.
  Draft receipts do not reserve quantity. Two drafts planned from the same
  tally can each carry the full remaining quantity.
- The accepted quantity is `accepted_qty or qty or 0` (`__init__.py:46`): an
  `accepted_qty` of 0 or a missing one falls back to the line's `qty`.

## Model

| member | source | states |
|---|---|---|
| `CustodyReceiptApi.OrZero` | custody/custody/api/custody_receipt/__init__.py:40 | `x or 0` on a number: the value when it is present and non-zero, otherwise 0 |
| `CustodyReceiptApi.RowKey` | custody/custody/api/custody_receipt/__init__.py:37-39 | a row counts against a line exactly when its `purchase_receipt_item` link is present and non-empty, and then against that link |
| `CustodyReceiptApi.TallyReceipted` | custody/custody/api/custody_receipt/__init__.py:35-40 | the dictionary built by the tally loop has a key exactly for each non-empty link among the submitted rows, and `get(key, 0)` on it equals the sum of `qty or 0` over the rows linked to that key, for every key |
| `CustodyReceiptApi.UnlinkedRowAddsNothing` | custody/custody/api/custody_receipt/__init__.py:36-39 | a submitted row with a missing or empty link, wherever it stands among the rows, changes no line's tally |
| `CustodyReceiptApi.ReceiptedUnlinked` | custody/custody/api/custody_receipt/__init__.py:36-47 | a line no submitted row links to has an already-issued quantity of 0 (the `get(..., 0)` default) |
| `CustodyReceiptApi.ReceiptedConcat` | custody/custody/api/custody_receipt/__init__.py:29-40 | the tally over two batches of submitted rows is the sum of their tallies |
| `CustodyReceiptApi.AcceptedQty` | custody/custody/api/custody_receipt/__init__.py:46 | accepted quantity is `accepted_qty` when non-zero, else `qty` when non-zero, else 0 |
| `CustodyReceiptApi.Remaining` | custody/custody/api/custody_receipt/__init__.py:47-48 | remaining is never negative, is at least accepted minus already issued, and when positive adds to the already-issued quantity to give exactly the accepted quantity |
| `CustodyReceiptApi.PlanLength` | custody/custody/api/custody_receipt/__init__.py:44-64 | there is one planned line per source line with quantity left |
| `CustodyReceiptApi.PlanFromSources` | custody/custody/api/custody_receipt/__init__.py:44-64 | planned line j is the line built from source line `Sources[j]`, which has positive remaining quantity, with `qty` equal to that remaining quantity |
| `CustodyReceiptApi.SourcesIncrease` | custody/custody/api/custody_receipt/__init__.py:44 | source positions are valid and strictly increasing: the order of the lines is kept and each line yields at most one planned line |
| `CustodyReceiptApi.SourcesComplete` | custody/custody/api/custody_receipt/__init__.py:48-50 | every source line with positive remaining quantity yields a planned line; only lines with nothing left are dropped |
| `CustodyReceiptApi.PlannedLineFacts` | custody/custody/api/custody_receipt/__init__.py:46-63 | every planned line has `qty > 0`; its source line's already-issued quantity plus `qty` is that line's accepted quantity; `rate` is the source rate or 0 and `amount == rate * qty`; it links to the Purchase Receipt and to its own source line; its descriptive fields are the source line's |
| `CustodyReceiptApi.PlanEmptyIff` | custody/custody/api/custody_receipt/__init__.py:43-66 | nothing is planned if and only if no source line has positive remaining quantity |
| `CustodyReceiptApi.CreateFromPurchaseReceipt` | custody/custody/api/custody_receipt/__init__.py:28-69 | the "no remaining quantities" error occurs if and only if no line has positive remaining quantity; otherwise the result is a draft linked to the Purchase Receipt whose items are the (non-empty) plan |
| `CustodyReceiptApi.CreateCustodyReceiptFromPr` | custody/custody/api/custody_receipt/__init__.py:28-67 | the tally loop and the append loop with their counter compute exactly `CreateFromPurchaseReceipt` |
| `CustodyReceiptApi.PlanIssues` | custody/custody/api/custody_receipt/__init__.py:52-63 | once submitted, the planned lines add to a non-empty line name's tally exactly the remaining quantity of the lines with that name |
| `CustodyReceiptApi.IssuedNeverExceedsAccepted` | custody/custody/api/custody_receipt/__init__.py:29-64 | with distinct, non-empty line names, submitting the planned lines brings each line's total issued to its accepted quantity when it was at most that before, and leaves it unchanged when it was already over; links naming no line are unchanged |
| `CustodyReceiptApi.CreatedReceiptInsertsButCannotBeSubmittedAsIs` | custody/custody/api/custody_receipt/__init__.py:66-69 | the created receipt is a draft, so the validation run by its insert passes; it has no employee, so submitting it unchanged fails with the employee error |
| `CustodyReceiptDoctype.ValidateMandatoryFields` | custody/custody/doctype/custody_receipt/custody_receipt.py:12-25 | a draft always passes; a document passes if and only if it is a draft or has employee, posting date and items; on failure the error names a missing field and every field checked before it is present |
| `CustodyReceiptDoctype.Validate` | custody/custody/doctype/custody_receipt/custody_receipt.py:9-25 | the validate hook never refuses a draft; it accepts a document if and only if it is a draft or has employee, posting date and items; a refusal names a missing field and every field checked before it is present |
| `CustodyReceiptDoctype.DraftAlwaysPasses` | custody/custody/doctype/custody_receipt/custody_receipt.py:14-15 | a draft passes whatever its fields hold |
| `CustodyReceiptDoctype.MissingEmployeeDecides` | custody/custody/doctype/custody_receipt/custody_receipt.py:17-18 | a non-draft document without an employee fails with the employee error, whatever else it holds |
| `CustodyReceiptDoctype.MissingPostingDateDecides` | custody/custody/doctype/custody_receipt/custody_receipt.py:20-21 | a non-draft document with an employee but no posting date fails with the posting-date error |
| `CustodyReceiptDoctype.MissingItemsDecides` | custody/custody/doctype/custody_receipt/custody_receipt.py:24-25 | a non-draft document with employee and posting date but a missing or empty items table fails with the items error |
| `CustodyReceiptDoctype.CompleteDocumentPasses` | custody/custody/doctype/custody_receipt/custody_receipt.py:17-25 | a document with employee, posting date and at least one item passes |

## Left out

- Framework calls are not modelled: `frappe.get_doc`, `frappe.new_doc`, `frappe.get_all`, `insert`, `msgprint` and `get_link_to_form`. The Purchase Receipt and the query's rows are inputs. The insert is represented by returning `Created`, and the thrown error by `NoRemainingQuantity`.
- The `cr` document object is a value that the method builds and returns, not an object updated in place. It is created inside the function, so no caller can alias it.
- Header fields of the new receipt are left out, except the `purchase_receipt` link. These are `company_name` (assigned unconditionally from the Purchase Receipt's company), `purchase_receipt_name` (assigned unconditionally from its name), and `supplier`, `supplier_name` and `purchase_date` (copied only when the Purchase Receipt has them, per `hasattr`). All are plain assignments that nothing in the model reads.
- CustodyReceiptApi.CreatedReceiptInsertsButCannotBeSubmittedAsIs: the field defaults that `frappe.new_doc` fills in are modelled as unset. The function never assigns `employee` or `posting_date`, so the model's created receipt has neither. The framework may give these fields defaults, such as a user default for the employee link or today for a date field. The lemma's refusal on submission holds only when no employee default applies.
- The descriptive item fields (item_code, item_name, description, uom, warehouse) are one opaque `ItemInfo` value, copied unchanged.
- `float(...)` conversion and IEEE rounding are not modelled. Quantities are exact reals, so `rate * remaining` has no rounding.
- CustodyReceiptApi.IssuedNeverExceedsAccepted: assumes Purchase Receipt line names are distinct and non-empty, as the framework keeps row names; the code itself does not check this.
- The statement that validation changes no field holds by construction: the validator is a function from a document to a verdict.
- The document's status is `Draft | Submitted | Cancelled`. Only "is it a draft" matters to the validator.
- The client-side form scripts (custody_receipt_client.js, asset_client.js, purchase_receipt_client.js) are not modelled. They are UI wiring with asynchronous callbacks and timers.
- Asset distribution (one row per asset, assets sorted by name) and the employee and asset endpoints are not modelled. No code for them is part of this model.
