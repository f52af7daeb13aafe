/** Two dashboard widgets: the upcoming-bills list with its "pay" action and the view of
    unpaid bills, and the add-expense card (typed or spoken expense text, and the
    statement upload that is analysed and then confirmed in a category dialog).
    Each delayed callback is a separate completion method; a counter records how many
    such callbacks are still due, and a completion can only run when one is. */
module DashboardWidgets {
  import opened Wrappers
  import opened Text

  // ---------------------------------------------------------------------------
  // Upcoming bills

  datatype BillStatus = Due | Upcoming | Paid

  /** A bill; the icon is markup and is not kept. */
  datatype Bill = Bill(id: int, name: string, amount: string, due: string, status: BillStatus)

  const InitialBills: seq<Bill> := [
    Bill(1, "Electricity", "₹1,240", "Tomorrow", Due),
    Bill(2, "Internet", "₹599", "in 3 days", Upcoming),
    Bill(3, "Water", "₹340", "in 5 days", Upcoming),
    Bill(4, "Mobile", "₹450", "in 1 week", Paid)
  ]

  /** `bills.map(b => b.id === id ? { ...b, status: "paid" } : b)`. */
  function MarkPaid(bills: seq<Bill>, id: int): (r: seq<Bill>)
    ensures |r| == |bills|
    ensures forall i :: 0 <= i < |bills| ==>
      r[i] == if bills[i].id == id then bills[i].(status := Paid) else bills[i]
  {
    if bills == [] then []
    else [if bills[0].id == id then bills[0].(status := Paid) else bills[0]]
         + MarkPaid(bills[1..], id)
  }

  /** Paying the same bill twice is paying it once. */
  lemma MarkPaidIdempotent(bills: seq<Bill>, id: int)
    ensures MarkPaid(MarkPaid(bills, id), id) == MarkPaid(bills, id)
  {
  }

  /** The bills still shown: `bills.filter(b => b.status !== 'paid')`. */
  function Unpaid(bills: seq<Bill>): (r: seq<Bill>)
    ensures |r| <= |bills|
    ensures forall b :: b in r <==> b in bills && b.status != Paid
  {
    if bills == [] then []
    else if bills[0].status == Paid then Unpaid(bills[1..])
    else [bills[0]] + Unpaid(bills[1..])
  }

  /** The unpaid view keeps the list's order: it works on each part separately. */
  lemma {:induction false} UnpaidAppend(a: seq<Bill>, b: seq<Bill>)
    ensures Unpaid(a + b) == Unpaid(a) + Unpaid(b)
    decreases |a|
  {
    if a == [] {
      assert a + b == b;
    } else {
      assert (a + b)[1..] == a[1..] + b;
      UnpaidAppend(a[1..], b);
    }
  }

  /** "All bills paid!" is shown exactly when every bill is paid. */
  lemma {:induction false} AllPaidIff(bills: seq<Bill>)
    ensures Unpaid(bills) == [] <==> forall i :: 0 <= i < |bills| ==> bills[i].status == Paid
  {
    if bills != [] {
      AllPaidIff(bills[1..]);
      if bills[0].status == Paid {
        assert forall i :: 1 <= i < |bills| ==> bills[i] == bills[1..][i - 1];
      }
    }
  }

  /** After paying a bill its id is no longer in the unpaid view, and the view lost
      nothing else. */
  lemma PaidBillLeavesView(bills: seq<Bill>, id: int)
    ensures forall b :: b in Unpaid(MarkPaid(bills, id)) ==> b.id != id
    ensures forall b :: b in Unpaid(bills) && b.id != id ==> b in Unpaid(MarkPaid(bills, id))
  {
    var r := MarkPaid(bills, id);
    forall b | b in Unpaid(bills) && b.id != id ensures b in r {
      var i :| 0 <= i < |bills| && bills[i] == b;
      assert r[i] == b;
    }
  }

  /** The state after payments whose callbacks each start from the list as it is then:
      every bill named is paid. */
  function SettleAll(bills: seq<Bill>, ids: seq<int>): seq<Bill>
    decreases |ids|
  {
    if ids == [] then bills else SettleAll(MarkPaid(bills, ids[0]), ids[1..])
  }

  /** Settling any run of payments marks paid exactly the bills they name and keeps every
      other bill as it was. */
  lemma {:induction false} SettleAllPaysEach(bills: seq<Bill>, ids: seq<int>)
    ensures |SettleAll(bills, ids)| == |bills|
    ensures forall i :: 0 <= i < |bills| ==>
      SettleAll(bills, ids)[i] == if bills[i].id in ids then bills[i].(status := Paid) else bills[i]
    decreases |ids|
  {
    if ids != [] {
      var m := MarkPaid(bills, ids[0]);
      SettleAllPaysEach(m, ids[1..]);
      assert forall k :: k in ids <==> k == ids[0] || k in ids[1..];
    }
  }

  /** The state after payments that were all started before the first callback ran, as
      the page computes it: each callback maps the list it captured at its click, so the
      last one to land overwrites all the others. */
  function SettleAllAsWritten(bills: seq<Bill>, ids: seq<int>): (r: seq<Bill>)
    ensures ids == [] ==> r == bills
    ensures |r| == |bills|
    ensures ids != [] ==> forall i :: 0 <= i < |bills| && bills[i].id == ids[|ids| - 1] ==>
      r[i] == bills[i].(status := Paid)
    ensures forall i :: 0 <= i < |bills| && bills[i].id in ids && bills[i].id != ids[|ids| - 1] ==>
      r[i] == bills[i]
    ensures forall i :: 0 <= i < |bills| && bills[i].id !in ids ==> r[i] == bills[i]
  {
    if ids == [] then bills else MarkPaid(bills, ids[|ids| - 1])
  }

  /** Paying the electricity bill and then the internet bill within the gateway delay:
      as written the electricity bill is shown as due again, while the intended result
      has both paid. */
  lemma LostPayment()
    ensures SettleAllAsWritten(InitialBills, [1, 2])[0].status == Due
    ensures SettleAll(InitialBills, [1, 2])[0].status == Paid
    ensures SettleAll(InitialBills, [1, 2])[1].status == Paid
  {
    SettleAllPaysEach(InitialBills, [1, 2]);
  }

  /** A payment whose gateway delay has not yet passed: the bill and the list as they
      were at the click. */
  datatype PendingPayment = PendingPayment(snapshot: seq<Bill>, id: int)

  class UpcomingBills {
    var bills: seq<Bill>
    /** The payment callbacks still due, in the order they will run. */
    var pending: seq<PendingPayment>

    constructor ()
      ensures bills == InitialBills && pending == []
    {
      bills := InitialBills;
      pending := [];
    }

    /** The "pay" button: the callback is scheduled with the list of this moment. */
    method StartPayment(id: int)
      modifies this
      ensures bills == old(bills) && pending == old(pending) + [PendingPayment(old(bills), id)]
    {
      pending := pending + [PendingPayment(bills, id)];
    }

    /** The payment callback as the page has it: the list it captured, with that bill
        paid, replaces the current one. */
    method PaymentLandsAsWritten()
      requires pending != []
      modifies this
      ensures bills == MarkPaid(old(pending)[0].snapshot, old(pending)[0].id)
      ensures pending == old(pending)[1..]
    {
      bills := MarkPaid(pending[0].snapshot, pending[0].id);
      pending := pending[1..];
    }

    /** The payment callback as an update of the current list. */
    method PaymentLands()
      requires pending != []
      modifies this
      ensures bills == MarkPaid(old(bills), old(pending)[0].id)
      ensures pending == old(pending)[1..]
    {
      bills := MarkPaid(bills, pending[0].id);
      pending := pending[1..];
    }

    /** Whether the "All bills paid!" line shows. */
    function AllBillsPaid(): (r: bool)
      reads this
      ensures r <==> forall i :: 0 <= i < |bills| ==> bills[i].status == Paid
    {
      AllPaidIff(bills);
      |Unpaid(bills)| == 0
    }
  }

  /** Two payments started before either lands, as the page runs them: only the second
      bill ends up paid. */
  method TwoQuickPaymentsAsWritten() returns (shown: seq<Bill>)
    ensures shown == SettleAllAsWritten(InitialBills, [1, 2])
    ensures shown[0].status == Due && shown[1].status == Paid
  {
    var w := new UpcomingBills();
    w.StartPayment(1);
    w.StartPayment(2);
    w.PaymentLandsAsWritten();
    w.PaymentLandsAsWritten();
    shown := w.bills;
    LostPayment();
    assert MarkPaid(InitialBills, 2)[1].status == Paid;
  }

  /** The same two payments as updates of the current list: both bills end up paid. */
  method TwoQuickPayments() returns (shown: seq<Bill>)
    ensures shown == SettleAll(InitialBills, [1, 2])
    ensures shown[0].status == Paid && shown[1].status == Paid
  {
    var w := new UpcomingBills();
    w.StartPayment(1);
    w.StartPayment(2);
    w.PaymentLands();
    w.PaymentLands();
    shown := w.bills;
    assert [1, 2][1..] == [2] && [2][1..] == [];
    LostPayment();
  }

  // ---------------------------------------------------------------------------
  // The add-expense card

  /** The mock parser logs the expense, and clears the field later, when the lower-cased
      text contains "add". */
  predicate ClearsAfterLogging(text: string) {
    Contains(ToLower(text), "add")
  }

  /** The word "add" in any mix of upper and lower case, anywhere in the text, schedules
      the clearing. */
  lemma AddAnywhereClears(a: string, w: string, b: string)
    requires ToLower(w) == "add"
    ensures ClearsAfterLogging(a + w + b)
  {
    ToLowerAppend(a + w, b);
    ToLowerAppend(a, w);
    ContainsInside(ToLower(a), "add", ToLower(b));
  }

  class BankStatementUpload {
    var isAnalyzing: bool
    var showCategoryModal: bool
    var uploadedFile: Option<string>
    var manualExpense: string
    /** Analysis callbacks still due. */
    var analysisDue: nat
    /** Field-clearing callbacks still due. */
    var clearingsDue: nat

    /** The file input is disabled while analysing, so at most one analysis is ever due,
        and the spinner shows exactly while it is. */
    ghost predicate Valid()
      reads this
    {
      analysisDue <= 1 && (isAnalyzing <==> analysisDue == 1)
    }

    constructor ()
      ensures Valid()
      ensures !isAnalyzing && !showCategoryModal && uploadedFile == None
      ensures manualExpense == "" && analysisDue == 0 && clearingsDue == 0
    {
      isAnalyzing, showCategoryModal, uploadedFile := false, false, None;
      manualExpense, analysisDue, clearingsDue := "", 0, 0;
    }

    /** A change on the file input. Without a file, or while the input is disabled,
        nothing happens; otherwise the name is recorded and the analysis starts. */
    method ChooseFile(file: Option<string>)
      requires Valid()
      modifies this
      ensures Valid()
      ensures old(isAnalyzing) || file.None? ==>
        && isAnalyzing == old(isAnalyzing) && uploadedFile == old(uploadedFile)
        && analysisDue == old(analysisDue)
      ensures !old(isAnalyzing) && file.Some? ==>
        isAnalyzing && uploadedFile == file && analysisDue == 1
      ensures showCategoryModal == old(showCategoryModal)
      ensures manualExpense == old(manualExpense) && clearingsDue == old(clearingsDue)
    {
      if isAnalyzing || file.None? {
        return;
      }
      uploadedFile := file;
      isAnalyzing := true;
      analysisDue := analysisDue + 1;
    }

    /** The end of the simulated analysis: the spinner stops and the category dialog
        opens. */
    method AnalysisDone()
      requires Valid() && analysisDue > 0
      modifies this
      ensures Valid()
      ensures !isAnalyzing && showCategoryModal && analysisDue == 0
      ensures uploadedFile == old(uploadedFile)
      ensures manualExpense == old(manualExpense) && clearingsDue == old(clearingsDue)
    {
      isAnalyzing := false;
      showCategoryModal := true;
      analysisDue := analysisDue - 1;
    }

    /** The dialog's confirm button. */
    method ConfirmCategory()
      requires Valid()
      modifies this
      ensures Valid()
      ensures !showCategoryModal
      ensures isAnalyzing == old(isAnalyzing) && uploadedFile == old(uploadedFile)
      ensures analysisDue == old(analysisDue)
      ensures manualExpense == old(manualExpense) && clearingsDue == old(clearingsDue)
    {
      showCategoryModal := false;
    }

    /** The dialog's own open/close control. */
    method SetCategoryModal(open: bool)
      requires Valid()
      modifies this
      ensures Valid()
      ensures showCategoryModal == open
      ensures isAnalyzing == old(isAnalyzing) && uploadedFile == old(uploadedFile)
      ensures analysisDue == old(analysisDue)
      ensures manualExpense == old(manualExpense) && clearingsDue == old(clearingsDue)
    {
      showCategoryModal := open;
    }

    /** Typing in the expense field. */
    method TypeExpense(text: string)
      requires Valid()
      modifies this
      ensures Valid()
      ensures manualExpense == text && clearingsDue == old(clearingsDue)
      ensures isAnalyzing == old(isAnalyzing) && showCategoryModal == old(showCategoryModal)
      ensures uploadedFile == old(uploadedFile) && analysisDue == old(analysisDue)
    {
      manualExpense := text;
    }

    /** Recognised speech, or the "+" button with the typed text: the field shows the
        text, and a clearing is scheduled only when the text asks to "add". */
    method VoiceExpense(text: string)
      requires Valid()
      modifies this
      ensures Valid()
      ensures manualExpense == text
      ensures clearingsDue == old(clearingsDue) + (if ClearsAfterLogging(text) then 1 else 0)
      ensures isAnalyzing == old(isAnalyzing) && showCategoryModal == old(showCategoryModal)
      ensures uploadedFile == old(uploadedFile) && analysisDue == old(analysisDue)
    {
      manualExpense := text;
      if ClearsAfterLogging(text) {
        clearingsDue := clearingsDue + 1;
      }
    }

    /** The delayed clearing: the field is emptied whatever it holds by then. */
    method ClearingDone()
      requires Valid() && clearingsDue > 0
      modifies this
      ensures Valid()
      ensures manualExpense == "" && clearingsDue == old(clearingsDue) - 1
      ensures isAnalyzing == old(isAnalyzing) && showCategoryModal == old(showCategoryModal)
      ensures uploadedFile == old(uploadedFile) && analysisDue == old(analysisDue)
    {
      manualExpense := "";
      clearingsDue := clearingsDue - 1;
    }
  }

  /** An upload seen from start to end: choosing a file starts the analysis, its
      completion opens the dialog with the file's name, and confirming closes it. */
  method UploadFlow(name: string) returns (analyzingAfterChoice: bool, modalAfterAnalysis: bool,
                                             file: Option<string>, modalAfterConfirm: bool)
    ensures analyzingAfterChoice && modalAfterAnalysis && !modalAfterConfirm
    ensures file == Some(name)
  {
    var w := new BankStatementUpload();
    w.ChooseFile(Some(name));
    analyzingAfterChoice := w.isAnalyzing;
    w.AnalysisDone();
    modalAfterAnalysis := w.showCategoryModal;
    file := w.uploadedFile;
    w.ConfirmCategory();
    modalAfterConfirm := w.showCategoryModal;
  }
}
