/** The billing page: the running totals of the bill editor, its item list edits,
    the bill list filter, the actions each bill offers and the requests the page
    hands to the billing store. */
module Billing {

  import opened Collections
  import opened Text
  import opened Records
  import opened Store

  /** A numeric field as `parseFloat` reads it; `None` is a blank field, `null` or
      `NaN`. */
  type Number = Option<real>

  /** `parseFloat(x) || 0`: a field that holds no number counts as zero. */
  function OrZero(x: Number): real
  {
    if x.Some? then x.value else 0.0
  }

  /** `x || ''` on a text column the database may leave empty. */
  function OrEmpty(x: Option<string>): string
  {
    if x.Some? then x.value else ""
  }

  datatype BillItem = BillItem(
    itemType: string,
    itemName: string,
    description: string,
    quantity: Number,
    unitPrice: Number,
    amount: Number)

  /** The item a new bill starts with and `addBillItem` appends. */
  const DefaultItem := BillItem("Room Charges", "", "", Some(1.0), Some(0.0), Some(0.0))

  /** The header fields of the bill being edited. */
  datatype BillData = BillData(
    patientId: string,
    admissionDate: string,
    dischargeDate: string,
    dueDate: string,
    taxPercentage: Number,
    discountPercentage: Number,
    notes: string,
    createdBy: string,
    status: string)

  const BlankBill := BillData("", "", "", "", Some(0.0), Some(0.0), "", "", "Draft")

  /** A stored bill as the list shows it; a column left empty is `None`. */
  datatype Bill = Bill(
    id: string,
    patientId: string,
    billNumber: Option<string>,
    admissionDate: Option<string>,
    dischargeDate: Option<string>,
    dueDate: Option<string>,
    taxPercentage: Number,
    discountPercentage: Number,
    notes: Option<string>,
    createdBy: Option<string>,
    status: string,
    paymentStatus: string,
    balanceAmount: real)

  datatype Totals = Totals(subtotal: real, taxAmount: real, discountAmount: real, total: real)

  /** `parseFloat(item.amount || 0)`: a missing amount counts as zero. */
  function AmountOf(item: BillItem): real
  {
    OrZero(item.amount)
  }

  function Subtotal(items: seq<BillItem>): real
  {
    SumReal(items, AmountOf)
  }

  /** `calculateTotals`: tax and discount are both percentages of the subtotal. */
  function CalculateTotals(items: seq<BillItem>, data: BillData): Totals
  {
    var subtotal := Subtotal(items);
    var taxAmount := subtotal * OrZero(data.taxPercentage) / 100.0;
    var discountAmount := subtotal * OrZero(data.discountPercentage) / 100.0;
    Totals(subtotal, taxAmount, discountAmount, subtotal + taxAmount - discountAmount)
  }

  /** The total is the subtotal scaled by the net rate, and its parts add up. */
  lemma TotalIsNetRate(items: seq<BillItem>, data: BillData)
    ensures var t := CalculateTotals(items, data);
      t.subtotal == Subtotal(items) &&
      t.total == t.subtotal * (100.0 + OrZero(data.taxPercentage) - OrZero(data.discountPercentage)) / 100.0 &&
      t.total - t.subtotal == t.taxAmount - t.discountAmount
  {
  }

  /** With both percentages blank (or zero) the total is the subtotal. */
  lemma BlankRatesKeepSubtotal(items: seq<BillItem>, data: BillData)
    requires OrZero(data.taxPercentage) == 0.0 && OrZero(data.discountPercentage) == 0.0
    ensures CalculateTotals(items, data).total == Subtotal(items)
    ensures CalculateTotals(items, data).taxAmount == 0.0
    ensures CalculateTotals(items, data).discountAmount == 0.0
  {
  }

  /** No item with a negative amount, no negative tax and a discount of at most one
      hundred percent never give a negative total. */
  lemma TotalNonNegative(items: seq<BillItem>, data: BillData)
    requires forall i :: 0 <= i < |items| ==> AmountOf(items[i]) >= 0.0
    requires OrZero(data.taxPercentage) >= 0.0
    requires 0.0 <= OrZero(data.discountPercentage) <= 100.0
    ensures CalculateTotals(items, data).total >= 0.0
  {
    SubtotalNonNegative(items);
    TotalIsNetRate(items, data);
    var rate := 100.0 + OrZero(data.taxPercentage) - OrZero(data.discountPercentage);
    assert Subtotal(items) * rate >= 0.0;
  }

  lemma {:induction false} SubtotalNonNegative(items: seq<BillItem>)
    requires forall i :: 0 <= i < |items| ==> AmountOf(items[i]) >= 0.0
    ensures Subtotal(items) >= 0.0
  {
    if items != [] {
      SubtotalNonNegative(items[1..]);
    }
  }

  /** Two rooms at 100 and one test at 50, with 10% tax and 5% discount, come to
      262.5. */
  lemma TotalsExample()
    ensures var items := [
        BillItem("Room Charges", "General ward", "", Some(2.0), Some(100.0), Some(200.0)),
        BillItem("Lab Tests", "Blood panel", "", Some(1.0), Some(50.0), Some(50.0))];
      CalculateTotals(items, BlankBill.(taxPercentage := Some(10.0), discountPercentage := Some(5.0)))
        == Totals(250.0, 25.0, 12.5, 262.5)
  {
    var items := [
        BillItem("Room Charges", "General ward", "", Some(2.0), Some(100.0), Some(200.0)),
        BillItem("Lab Tests", "Blood panel", "", Some(1.0), Some(50.0), Some(50.0))];
    assert items[1..][1..] == [];
    assert Subtotal(items) == 250.0;
  }

  /** One field edit of `updateBillItem`; the value is what the input holds. */
  datatype ItemEdit =
    | SetItemType(itemType: string)
    | SetItemName(itemName: string)
    | SetDescription(description: string)
    | SetQuantity(quantity: Number)
    | SetUnitPrice(unitPrice: Number)

  predicate RepricesItem(edit: ItemEdit)
  {
    edit.SetQuantity? || edit.SetUnitPrice?
  }

  /** `qty * price`, each read with `parseFloat(x) || 0`. */
  function LinePrice(quantity: Number, unitPrice: Number): real
  {
    OrZero(quantity) * OrZero(unitPrice)
  }

  /** `updated[index][field] = value`, then the amount is recomputed when the
      quantity or the unit price was edited. */
  function EditItem(item: BillItem, edit: ItemEdit): (r: BillItem)
    ensures RepricesItem(edit) ==> r.amount == Some(LinePrice(r.quantity, r.unitPrice))
    ensures !RepricesItem(edit) ==> r.amount == item.amount
    ensures r.quantity == (if edit.SetQuantity? then edit.quantity else item.quantity)
    ensures r.unitPrice == (if edit.SetUnitPrice? then edit.unitPrice else item.unitPrice)
    ensures r.itemType == (if edit.SetItemType? then edit.itemType else item.itemType)
    ensures r.itemName == (if edit.SetItemName? then edit.itemName else item.itemName)
    ensures r.description == (if edit.SetDescription? then edit.description else item.description)
  {
    match edit
    case SetItemType(t) => item.(itemType := t)
    case SetItemName(n) => item.(itemName := n)
    case SetDescription(d) => item.(description := d)
    case SetQuantity(q) => item.(quantity := q, amount := Some(LinePrice(q, item.unitPrice)))
    case SetUnitPrice(p) => item.(unitPrice := p, amount := Some(LinePrice(item.quantity, p)))
  }

  /** A quantity typed as text that is not a number prices the item at zero. */
  lemma NonNumericQuantityPricesZero(item: BillItem)
    ensures AmountOf(EditItem(item, SetQuantity(None))) == 0.0
  {
  }

  /** Editing one item moves the subtotal by the change in that item's amount. */
  lemma SubtotalAfterEdit(items: seq<BillItem>, k: int, edit: ItemEdit)
    requires 0 <= k < |items|
    ensures Subtotal(items[k := EditItem(items[k], edit)])
         == Subtotal(items) - AmountOf(items[k]) + AmountOf(EditItem(items[k], edit))
  {
    SumRealUpdate(items, k, EditItem(items[k], edit), AmountOf);
  }

  /** A text edit never changes the subtotal. */
  lemma TextEditKeepsSubtotal(items: seq<BillItem>, k: int, edit: ItemEdit)
    requires 0 <= k < |items| && !RepricesItem(edit)
    ensures Subtotal(items[k := EditItem(items[k], edit)]) == Subtotal(items)
  {
    SubtotalAfterEdit(items, k, edit);
  }

  /** Appending the default item leaves the subtotal as it was. */
  lemma AddItemKeepsSubtotal(items: seq<BillItem>)
    ensures Subtotal(items + [DefaultItem]) == Subtotal(items)
  {
    SumRealAppend(items, [DefaultItem], AmountOf);
  }

  /** Removing an item takes exactly its amount off the subtotal. */
  lemma RemoveItemSubtotal(items: seq<BillItem>, k: int)
    requires 0 <= k < |items|
    ensures Subtotal(items[..k] + items[k + 1..]) == Subtotal(items) - AmountOf(items[k])
  {
    SumRealRemove(items, k, AmountOf);
  }

  /** The form a bill opens with for editing: an empty column opens blank, an empty
      percentage as zero. */
  function PrefillBill(b: Bill): (d: BillData)
    ensures d.patientId == b.patientId && d.status == b.status
    ensures d.admissionDate == OrEmpty(b.admissionDate) && d.dischargeDate == OrEmpty(b.dischargeDate)
    ensures d.dueDate == OrEmpty(b.dueDate)
    ensures d.notes == OrEmpty(b.notes) && d.createdBy == OrEmpty(b.createdBy)
    ensures d.taxPercentage.Some? && d.discountPercentage.Some?
    ensures OrZero(d.taxPercentage) == OrZero(b.taxPercentage)
    ensures OrZero(d.discountPercentage) == OrZero(b.discountPercentage)
  {
    BillData(b.patientId, OrEmpty(b.admissionDate), OrEmpty(b.dischargeDate), OrEmpty(b.dueDate),
      Some(OrZero(b.taxPercentage)), Some(OrZero(b.discountPercentage)),
      OrEmpty(b.notes), OrEmpty(b.createdBy), b.status)
  }

  /** The items an edited bill opens with: the stored ones, or the default item when
      it has none. */
  function OpenedItems(stored: seq<BillItem>): (r: seq<BillItem>)
    ensures |r| > 0
    ensures stored != [] ==> r == stored
  {
    if |stored| > 0 then stored else [DefaultItem]
  }

  /** The bill list with the search term and the payment status filter applied: the
      term is looked for in the patient's name and in the bill number. */
  predicate BillMatchesSearch(patients: seq<Patient>, b: Bill, term: string)
  {
    var p := Find(patients, PatientIdIs(b.patientId));
    (p.Some? && MatchesTerm(p.value.info.name, term)) ||
    (b.billNumber.Some? && MatchesTerm(b.billNumber.value, term))
  }

  function KeepBill(patients: seq<Patient>, term: string, status: string): Bill -> bool
  {
    (b: Bill) => BillMatchesSearch(patients, b, term) && (status == "All" || b.paymentStatus == status)
  }

  function FilteredBills(bills: seq<Bill>, patients: seq<Patient>, term: string, status: string): seq<Bill>
  {
    Filter(bills, KeepBill(patients, term, status))
  }

  /** The filtered list keeps the bills' order, and a bill is in it exactly when the
      term occurs in its patient's name or its number and the status filter is `All`
      or its payment status. */
  lemma FilteredBillsExact(bills: seq<Bill>, patients: seq<Patient>, term: string, status: string)
    ensures IsSubsequence(FilteredBills(bills, patients, term, status), bills)
    ensures forall i :: 0 <= i < |bills| ==>
      (bills[i] in FilteredBills(bills, patients, term, status) <==>
        BillMatchesSearch(patients, bills[i], term) && (status == "All" || bills[i].paymentStatus == status))
  {
    FilterExact(bills, KeepBill(patients, term, status));
  }

  /** With no search term and no status filter every bill is shown that has a known
      patient or a bill number. */
  lemma BlankSearchShowsAll(bills: seq<Bill>, patients: seq<Patient>)
    requires forall i :: 0 <= i < |bills| ==>
      HasPatient(patients, bills[i].patientId) || bills[i].billNumber.Some?
    ensures FilteredBills(bills, patients, "", "All") == bills
  {
    forall i | 0 <= i < |bills| ensures KeepBill(patients, "", "All")(bills[i]) {
      var b := bills[i];
      var p := Find(patients, PatientIdIs(b.patientId));
      if p.Some? {
        EmptyTermMatches(p.value.info.name);
      } else {
        EmptyTermMatches(b.billNumber.value);
      }
    }
    FilterAll(bills, KeepBill(patients, "", "All"));
  }

  datatype BillAction = View | Print | AddPayment | Edit | Finalize | Delete

  /** The buttons a bill's row shows. */
  function OfferedBillActions(b: Bill): (r: set<BillAction>)
    ensures View in r && Print in r
    ensures AddPayment in r <==> b.balanceAmount > 0.0
    ensures Edit in r <==> b.status == "Draft"
    ensures Finalize in r <==> b.status == "Draft"
    ensures Delete in r <==> b.status == "Draft"
  {
    {View, Print} +
    (if b.balanceAmount > 0.0 then {AddPayment} else {}) +
    (if b.status == "Draft" then {Edit, Finalize} else {}) +
    (if b.status == "Draft" then {Delete} else {})
  }

  /** Once a bill leaves the draft status it can only be viewed, printed and paid. */
  lemma FinalizedBillIsFrozen(b: Bill)
    requires b.status != "Draft"
    ensures OfferedBillActions(b) <= {View, Print, AddPayment}
  {
  }

  datatype PaymentData = PaymentData(
    amount: Number,
    paymentMethod: string,
    transactionId: string,
    referenceNumber: string,
    notes: string,
    receivedBy: string)

  /** The payment form a bill opens: cash, and `bill.balanceAmount || ''` as the
      amount, so a zero balance leaves the amount blank. */
  function PaymentFormFor(b: Bill): (p: PaymentData)
    ensures b.balanceAmount != 0.0 ==> p.amount == Some(b.balanceAmount)
    ensures b.balanceAmount == 0.0 ==> p.amount.None?
    ensures p.paymentMethod == "Cash"
    ensures p.transactionId == "" && p.referenceNumber == "" && p.notes == "" && p.receivedBy == ""
  {
    PaymentData(if b.balanceAmount != 0.0 then Some(b.balanceAmount) else None, "Cash", "", "", "", "")
  }

  /** Whenever a payment can be added, the form proposes paying off the whole
      balance. */
  lemma PaymentDefaultsToBalance(b: Bill)
    requires AddPayment in OfferedBillActions(b)
    ensures PaymentFormFor(b).amount == Some(b.balanceAmount) && b.balanceAmount > 0.0
  {
  }

  /** The calls the page makes into the billing store. */
  datatype BillCall =
    | CreateBill(data: BillData, items: seq<BillItem>)
    | UpdateBill(billId: string, data: BillData, items: seq<BillItem>)

  datatype PaymentRequest = PaymentRequest(billId: string, patientId: string, payment: PaymentData)

  /** The bill editor and payment form state of the billing page. */
  class BillEditor {
    var billData: BillData
    var billItems: seq<BillItem>
    var editingBill: Option<Bill>
    var isModalOpen: bool
    var selectedBill: Option<Bill>
    var paymentData: PaymentData
    var isPaymentModalOpen: bool

    /** The editor is never left without an item. */
    predicate Valid()
      reads this
    {
      |billItems| > 0
    }

    constructor ()
      ensures Valid()
      ensures billData == BlankBill && billItems == [DefaultItem]
      ensures editingBill.None? && !isModalOpen && selectedBill.None? && !isPaymentModalOpen
      ensures paymentData == PaymentData(None, "Cash", "", "", "", "")
    {
      billData := BlankBill;
      billItems := [DefaultItem];
      editingBill := None;
      isModalOpen := false;
      selectedBill := None;
      paymentData := PaymentData(None, "Cash", "", "", "", "");
      isPaymentModalOpen := false;
    }

    /** `handleOpenModal`: a stored bill opens prefilled with its items (`fetched` is
        the answer of `fetchBillItems`, left unread for a new bill; a failed fetch
        leaves the items as they were); no bill opens a blank draft. */
    method OpenModal(bill: Option<Bill>, fetched: Reply<seq<BillItem>>)
      requires Valid()
      modifies this
      ensures Valid()
      ensures isModalOpen && editingBill == bill
      ensures bill.Some? ==> billData == PrefillBill(bill.value)
      ensures bill.Some? && fetched.Ok? ==> billItems == OpenedItems(fetched.value)
      ensures bill.Some? && fetched.Err? ==> billItems == old(billItems)
      ensures bill.None? ==> billData == BlankBill && billItems == [DefaultItem]
      ensures selectedBill == old(selectedBill) && paymentData == old(paymentData)
      ensures isPaymentModalOpen == old(isPaymentModalOpen)
    {
      editingBill := bill;
      if bill.Some? {
        billData := PrefillBill(bill.value);
        if fetched.Ok? {
          billItems := OpenedItems(fetched.value);
        }
      } else {
        billData := BlankBill;
        billItems := [DefaultItem];
      }
      isModalOpen := true;
    }

    /** `addBillItem`. */
    method AddBillItem()
      requires Valid()
      modifies this
      ensures Valid()
      ensures billItems == old(billItems) + [DefaultItem]
      ensures billData == old(billData) && editingBill == old(editingBill) && isModalOpen == old(isModalOpen)
      ensures selectedBill == old(selectedBill) && paymentData == old(paymentData)
      ensures isPaymentModalOpen == old(isPaymentModalOpen)
    {
      billItems := billItems + [DefaultItem];
    }

    /** `removeBillItem`: the remove button exists only while more than one item is
        listed, one per item. */
    method RemoveBillItem(index: int)
      requires Valid()
      requires 0 <= index < |billItems| && |billItems| > 1
      modifies this
      ensures Valid()
      ensures billItems == old(billItems)[..index] + old(billItems)[index + 1..]
      ensures billData == old(billData) && editingBill == old(editingBill) && isModalOpen == old(isModalOpen)
      ensures selectedBill == old(selectedBill) && paymentData == old(paymentData)
      ensures isPaymentModalOpen == old(isPaymentModalOpen)
    {
      billItems := billItems[..index] + billItems[index + 1..];
    }

    /** `updateBillItem`: only the item at `index` changes. */
    method UpdateBillItem(index: int, edit: ItemEdit)
      requires Valid()
      requires 0 <= index < |billItems|
      modifies this
      ensures Valid()
      ensures billItems == old(billItems)[index := EditItem(old(billItems)[index], edit)]
      ensures billData == old(billData) && editingBill == old(editingBill) && isModalOpen == old(isModalOpen)
      ensures selectedBill == old(selectedBill) && paymentData == old(paymentData)
      ensures isPaymentModalOpen == old(isPaymentModalOpen)
    {
      billItems := billItems[index := EditItem(billItems[index], edit)];
    }

    /** `handleOpenPaymentModal`. */
    method OpenPaymentModal(bill: Bill)
      requires Valid()
      modifies this
      ensures Valid()
      ensures selectedBill == Some(bill) && paymentData == PaymentFormFor(bill) && isPaymentModalOpen
      ensures billData == old(billData) && billItems == old(billItems)
      ensures editingBill == old(editingBill) && isModalOpen == old(isModalOpen)
    {
      selectedBill := Some(bill);
      paymentData := PaymentFormFor(bill);
      isPaymentModalOpen := true;
    }

    /** `handleSubmit`: an edited bill is updated, a new one created; the editor closes
        only when the store accepts. */
    method Submit(outcome: Remote) returns (call: BillCall)
      requires Valid()
      modifies this
      ensures Valid()
      ensures editingBill.Some? ==> call == UpdateBill(editingBill.value.id, billData, billItems)
      ensures editingBill.None? ==> call == CreateBill(billData, billItems)
      ensures isModalOpen == (old(isModalOpen) && outcome.Reject?)
      ensures billData == old(billData) && billItems == old(billItems) && editingBill == old(editingBill)
      ensures selectedBill == old(selectedBill) && paymentData == old(paymentData)
      ensures isPaymentModalOpen == old(isPaymentModalOpen)
    {
      if editingBill.Some? {
        call := UpdateBill(editingBill.value.id, billData, billItems);
      } else {
        call := CreateBill(billData, billItems);
      }
      if outcome.Accept? {
        isModalOpen := false;
      }
    }

    /** `handleSubmitPayment`: the payment is recorded against the selected bill and
        its patient; the form closes only when the store accepts. */
    method SubmitPayment(outcome: Remote) returns (request: PaymentRequest)
      requires Valid() && selectedBill.Some?
      modifies this
      ensures Valid()
      ensures selectedBill == old(selectedBill)
      ensures request == PaymentRequest(selectedBill.value.id, selectedBill.value.patientId, paymentData)
      ensures isPaymentModalOpen == (old(isPaymentModalOpen) && outcome.Reject?)
      ensures billData == old(billData) && billItems == old(billItems) && editingBill == old(editingBill)
      ensures isModalOpen == old(isModalOpen)
      ensures paymentData == old(paymentData)
    {
      request := PaymentRequest(selectedBill.value.id, selectedBill.value.patientId, paymentData);
      if outcome.Accept? {
        isPaymentModalOpen := false;
      }
    }
  }
}
