/** The Custody Receipt document and its submission-time validation hook
    (custody/custody/doctype/custody_receipt/custody_receipt.py). */
module CustodyReceiptDoctype {
  import opened Wrappers

  /** The framework's document status: 0 draft, 1 submitted, 2 cancelled. */
  datatype DocStatus = Draft | Submitted | Cancelled

  /** Descriptive fields copied unchanged from a Purchase Receipt line onto a
      Custody Receipt Item: item_code, item_name, description, uom, warehouse. */
  datatype ItemInfo = ItemInfo(
    itemCode: string,
    itemName: string,
    description: string,
    uom: string,
    warehouse: string)

  /** One Custody Receipt Item row: what was issued, against which Purchase
      Receipt and which of its lines, at what rate and for what amount. */
  datatype ReceiptItem = ReceiptItem(
    info: ItemInfo,
    qty: real,
    purchaseReceipt: string,
    purchaseReceiptItem: string,
    rate: real,
    amount: real)

  /** The fields of a Custody Receipt that the core reads or writes. A field
      the framework may leave unset is an Option; the items child table may
      be missing as well as empty. */
  datatype CustodyReceipt = CustodyReceipt(
    docstatus: DocStatus,
    employee: Option<string>,
    postingDate: Option<string>,
    purchaseReceipt: Option<string>,
    items: Option<seq<ReceiptItem>>)

  /** The three reasons submission can be refused, in the order they are checked. */
  datatype ValidationError = EmployeeMissing | PostingDateMissing | NoItems

  /** Outcome of validation: the document passes, or a blocking error is raised. */
  datatype Verdict = Pass | Fail(error: ValidationError)

  /** Python truthiness of an optional text field: neither None nor "". */
  predicate IsSet(field: Option<string>)
  {
    field.Some? && field.value != ""
  }

  /** `self.get('items')` is truthy and has at least one row. */
  predicate HasItems(doc: CustodyReceipt)
  {
    doc.items.Some? && |doc.items.value| > 0
  }

  /** The field that error `e` complains about is filled in on `doc`. */
  predicate Provides(doc: CustodyReceipt, e: ValidationError)
  {
    match e
    case EmployeeMissing => IsSet(doc.employee)
    case PostingDateMissing => IsSet(doc.postingDate)
    case NoItems => HasItems(doc)
  }

  /** Position of each check in the order the hook performs them. */
  function CheckOrder(e: ValidationError): nat
  {
    match e
    case EmployeeMissing => 0
    case PostingDateMissing => 1
    case NoItems => 2
  }

  /** A document that every check accepts. */
  predicate Complete(doc: CustodyReceipt)
  {
    forall e :: Provides(doc, e)
  }

  /** `CustodyReceipt.validate_mandatory_fields`: drafts are never checked; any
      other document needs an employee, a posting date and at least one item,
      and the first of these that is missing decides the error. */
  function ValidateMandatoryFields(doc: CustodyReceipt): (r: Verdict)
    ensures doc.docstatus == Draft ==> r == Pass
    ensures r == Pass <==> doc.docstatus == Draft || Complete(doc)
    ensures r.Fail? ==> !Provides(doc, r.error)
    ensures r.Fail? ==> forall e :: CheckOrder(e) < CheckOrder(r.error) ==> Provides(doc, e)
  {
    if doc.docstatus == Draft then Pass
    else if !IsSet(doc.employee) then
      assert !Provides(doc, EmployeeMissing);
      Fail(EmployeeMissing)
    else if !IsSet(doc.postingDate) then
      assert !Provides(doc, PostingDateMissing);
      Fail(PostingDateMissing)
    else if !HasItems(doc) then
      assert !Provides(doc, NoItems);
      Fail(NoItems)
    else Pass
  }

  /** `CustodyReceipt.validate`, the hook the framework runs on every save and
      submit: a draft is never refused, a document is accepted exactly when it
      is a draft or complete, and a refusal names the first missing field. */
  function Validate(doc: CustodyReceipt): (r: Verdict)
    ensures doc.docstatus == Draft ==> r == Pass
    ensures r == Pass <==> doc.docstatus == Draft || Complete(doc)
    ensures r.Fail? ==> !Provides(doc, r.error) && forall e :: CheckOrder(e) < CheckOrder(r.error) ==> Provides(doc, e)
  {
    ValidateMandatoryFields(doc)
  }

  /** A draft passes whatever its fields hold. */
  lemma DraftAlwaysPasses(doc: CustodyReceipt)
    requires doc.docstatus == Draft
    ensures Validate(doc) == Pass
  {
  }

  /** Without an employee a non-draft document is refused for the employee,
      whatever else it holds. */
  lemma MissingEmployeeDecides(doc: CustodyReceipt)
    requires doc.docstatus != Draft && !IsSet(doc.employee)
    ensures Validate(doc) == Fail(EmployeeMissing)
  {
  }

  /** With an employee but no posting date a non-draft document is refused
      for the posting date. */
  lemma MissingPostingDateDecides(doc: CustodyReceipt)
    requires doc.docstatus != Draft && IsSet(doc.employee) && !IsSet(doc.postingDate)
    ensures Validate(doc) == Fail(PostingDateMissing)
  {
  }

  /** With an employee and a posting date but a missing or empty items table a
      non-draft document is refused for its items. */
  lemma MissingItemsDecides(doc: CustodyReceipt)
    requires doc.docstatus != Draft && IsSet(doc.employee) && IsSet(doc.postingDate)
    requires doc.items.None? || doc.items.value == []
    ensures Validate(doc) == Fail(NoItems)
  {
  }

  /** A non-draft document with an employee, a posting date and at least one
      item passes. */
  lemma CompleteDocumentPasses(doc: CustodyReceipt)
    requires IsSet(doc.employee) && IsSet(doc.postingDate) && HasItems(doc)
    ensures Validate(doc) == Pass
  {
  }
}
