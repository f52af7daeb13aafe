/** The loan eligibility page: the two sliders, the monthly instalment (EMI) computed from
    them at a fixed 10.5% a year, and the document uploads, each of which is marked
    pending on click and verified when its simulated analysis ends. The delayed analyses
    all have the same delay, so they end in the order the clicks came; the page keeps
    them as a queue, and a completion can only run when one is due. */
module LoanEligibility {
  import opened Wrappers

  // ---------------------------------------------------------------------------
  // The sliders

  /** A value the amount slider can report: 50,000 to 50,00,000 in steps of 10,000. */
  predicate AmountOnSlider(a: int) {
    50000 <= a <= 5000000 && (a - 50000) % 10000 == 0
  }

  /** A value the tenure slider can report: 6 to 60 months in steps of 6. */
  predicate TenureOnSlider(n: int) {
    6 <= n <= 60 && n % 6 == 0
  }

  /** The sliders start inside their ranges. */
  lemma InitialValuesOnSliders()
    ensures AmountOnSlider(500000) && TenureOnSlider(24)
  {
  }

  // ---------------------------------------------------------------------------
  // The instalment, over exact reals

  /** 10.5% a year, as a monthly fraction. */
  const MonthlyRate: real := 10.5 / 12.0 / 100.0

  function Pow(x: real, n: nat): real {
    if n == 0 then 1.0 else x * Pow(x, n - 1)
  }

  /** Every power of a number above 1 with a positive exponent is above 1. */
  lemma {:induction false} PowAboveOne(x: real, n: nat)
    requires x > 1.0
    ensures Pow(x, n) >= 1.0
    ensures n >= 1 ==> Pow(x, n) > 1.0
  {
    if n > 0 {
      PowAboveOne(x, n - 1);
      assert x * Pow(x, n - 1) > Pow(x, n - 1);
    }
  }

  /** `P·r·(1+r)^n / ((1+r)^n − 1)`; the denominator is positive for every tenure of one
      month or more. */
  function Emi(principal: real, months: nat): (e: real)
    requires months >= 1
    ensures principal > 0.0 ==> e > 0.0
  {
    var x := Pow(1.0 + MonthlyRate, months);
    PowAboveOne(1.0 + MonthlyRate, months);
    var num := principal * MonthlyRate * x;
    assert principal > 0.0 ==> num > 0.0;
    assert principal > 0.0 ==> num / (x - 1.0) > 0.0;
    num / (x - 1.0)
  }

  /** The instalment is linear in the amount borrowed. */
  lemma EmiLinear(p: real, q: real, k: real, months: nat)
    requires months >= 1
    ensures Emi(p + q, months) == Emi(p, months) + Emi(q, months)
    ensures Emi(k * p, months) == k * Emi(p, months)
  {
    var x := Pow(1.0 + MonthlyRate, months);
    PowAboveOne(1.0 + MonthlyRate, months);
    var f := MonthlyRate * x / (x - 1.0);
    assert Emi(p + q, months) == (p + q) * f;
    assert Emi(p, months) == p * f && Emi(q, months) == q * f;
    assert Emi(k * p, months) == (k * p) * f;
  }

  /** `1 + x + … + x^(n−1)`. */
  function Geometric(x: real, n: nat): real {
    if n == 0 then 0.0 else Geometric(x, n - 1) + Pow(x, n - 1)
  }

  lemma {:induction false} PowMinusOne(x: real, n: nat)
    ensures Pow(x, n) - 1.0 == (x - 1.0) * Geometric(x, n)
  {
    if n > 0 {
      PowMinusOne(x, n - 1);
    }
  }

  lemma {:induction false} GeometricBound(x: real, n: nat)
    requires x > 1.0 && n >= 1
    ensures Geometric(x, n) <= n as real * Pow(x, n - 1)
  {
    if n > 1 {
      GeometricBound(x, n - 1);
      PowAboveOne(x, n - 2);
      assert Pow(x, n - 2) <= Pow(x, n - 1);
    }
  }

  /** Over the whole tenure more is repaid than was borrowed. */
  lemma RepaymentExceedsPrincipal(principal: real, months: nat)
    requires principal > 0.0 && months >= 1
    ensures months as real * Emi(principal, months) > principal
  {
    var r := MonthlyRate;
    var x := Pow(1.0 + r, months);
    PowAboveOne(1.0 + r, months);
    PowMinusOne(1.0 + r, months);
    GeometricBound(1.0 + r, months);
    var g := Geometric(1.0 + r, months);
    var y := Pow(1.0 + r, months - 1);
    assert x == (1.0 + r) * y;
    assert x - 1.0 == r * g;
    assert g < months as real * x by {
      assert g <= months as real * y;
      PowAboveOne(1.0 + r, months - 1);
      assert y < x;
    }
    var e := principal * r * x / (x - 1.0);
    assert e * (x - 1.0) == principal * r * x;
    assert months as real * e * (x - 1.0) == principal * (months as real * r * x);
    assert months as real * r * x > x - 1.0;
    assert months as real * e * (x - 1.0) > principal * (x - 1.0);
  }

  /** `Math.round` of an exact value: the nearest integer, halves rounded up. */
  function Round(v: real): (k: int)
    ensures v - 0.5 < k as real <= v + 0.5
  {
    (v + 0.5).Floor
  }

  /** The instalment the page shows, at the amount and tenure of the sliders. */
  function CalculateEmi(amount: int, tenure: int): (k: int)
    requires AmountOnSlider(amount) && TenureOnSlider(tenure)
    ensures k >= 1
    ensures Emi(amount as real, tenure) - 0.5 < k as real <= Emi(amount as real, tenure) + 0.5
  {
    EmiAtLeastRate(amount as real, tenure);
    Round(Emi(amount as real, tenure))
  }

  /** Each month pays at least the interest on the whole amount. */
  lemma EmiAtLeastRate(principal: real, months: nat)
    requires principal > 0.0 && months >= 1
    ensures Emi(principal, months) > principal * MonthlyRate
  {
    var x := Pow(1.0 + MonthlyRate, months);
    PowAboveOne(1.0 + MonthlyRate, months);
    var e := principal * MonthlyRate * x / (x - 1.0);
    assert e * (x - 1.0) == principal * MonthlyRate * x;
    assert principal * MonthlyRate * x > principal * MonthlyRate * (x - 1.0);
  }

  lemma {:induction false} PowAdd(x: real, a: nat, b: nat)
    ensures Pow(x, a + b) == Pow(x, a) * Pow(x, b)
  {
    if a > 0 {
      PowAdd(x, a - 1, b);
      assert Pow(x, a + b) == x * Pow(x, a - 1 + b);
    }
  }

  /** The figure the page opens with: 5,00,000 over 24 months shows an EMI of 23,188
      (the exact value is 23,188.02). */
  lemma InitialEmi()
    ensures CalculateEmi(500000, 24) == 23188
  {
    var x := 1.0 + MonthlyRate;
    assert x == 807.0 / 800.0;
    var x2 := x * x;
    assert Pow(x, 2) == x2 by { assert Pow(x, 1) == x; }
    PowAdd(x, 2, 2);
    var x4 := x2 * x2;
    PowAdd(x, 4, 2);
    var x6 := x4 * x2;
    PowAdd(x, 6, 6);
    var x12 := x6 * x6;
    PowAdd(x, 12, 12);
    var x24 := x12 * x12;
    assert Pow(x, 24) == x24;
    var e := Emi(500000.0, 24);
    assert e == 500000.0 * MonthlyRate * x24 / (x24 - 1.0);
    assert 23187.5 <= e < 23188.5 by {
      assert x24 - 1.0 > 0.0;
      assert 500000.0 * MonthlyRate * x24 >= 23187.5 * (x24 - 1.0);
      assert 500000.0 * MonthlyRate * x24 < 23188.5 * (x24 - 1.0);
    }
    assert Round(e) == 23188;
  }

  // ---------------------------------------------------------------------------
  // Document statuses

  datatype DocStatus = Pending | Verified

  /** The four documents the page asks for. */
  const Documents: seq<string> := ["Bank Statement (Last 6 months)", "Salary Slips (Last 3 months)",
                                   "ID Proof (Aadhar/PAN)", "Address Proof"]

  function StatusOf(docs: map<string, DocStatus>, d: string): Option<DocStatus> {
    if d in docs then Some(docs[d]) else None
  }

  /** How far a document has come: not uploaded, analysing, verified. */
  function Rank(s: Option<DocStatus>): nat {
    match s
    case None => 0
    case Some(Pending) => 1
    case Some(Verified) => 2
  }

  /** A click on a document card: only a document with no status yet starts an upload,
      which marks it pending. */
  function Click(docs: map<string, DocStatus>, doc: string): (r: map<string, DocStatus>)
    ensures forall d :: d != doc ==> StatusOf(r, d) == StatusOf(docs, d)
    ensures StatusOf(docs, doc) == None ==> StatusOf(r, doc) == Some(Pending)
    ensures StatusOf(docs, doc) != None ==> r == docs
  {
    if doc in docs then docs else docs[doc := Pending]
  }

  /** The end of a document's analysis marks it verified. */
  function Finish(docs: map<string, DocStatus>, doc: string): (r: map<string, DocStatus>)
    ensures forall d :: d != doc ==> StatusOf(r, d) == StatusOf(docs, d)
    ensures StatusOf(r, doc) == Some(Verified)
  {
    docs[doc := Verified]
  }

  /** A click never moves any document back, and a verified document stays verified. */
  lemma ClickMovesForward(docs: map<string, DocStatus>, doc: string, d: string)
    ensures Rank(StatusOf(docs, d)) <= Rank(StatusOf(Click(docs, doc), d))
    ensures StatusOf(docs, d) == Some(Verified) ==> StatusOf(Click(docs, doc), d) == Some(Verified)
    ensures Rank(StatusOf(Click(docs, doc), d)) <= Rank(StatusOf(docs, d)) + 1
  {
  }

  /** A completion moves a pending document to verified and no other. */
  lemma FinishMovesForward(docs: map<string, DocStatus>, doc: string, d: string)
    requires StatusOf(docs, doc) == Some(Pending)
    ensures Rank(StatusOf(docs, d)) <= Rank(StatusOf(Finish(docs, doc), d))
    ensures Rank(StatusOf(Finish(docs, doc), d)) <= Rank(StatusOf(docs, d)) + 1
  {
  }

  // ---------------------------------------------------------------------------
  // The page's state

  predicate Distinct(s: seq<string>) {
    forall i, j :: 0 <= i < j < |s| ==> s[i] != s[j]
  }

  class LoanPage {
    var loanAmount: int
    var tenure: int
    /** The `isAnalyzing` flag: every upload sets and clears this one value, and the page
        never reads it (each card's spinner comes from that document's own status). */
    var isAnalyzing: bool
    var uploadedDocs: map<string, DocStatus>
    /** The documents whose analysis is still due, in the order it will end. */
    var pendingUploads: seq<string>

    /** The sliders stay in range; the pending documents are exactly the queued ones,
        each queued once; the flag can only be set while some analysis is due. */
    ghost predicate Valid()
      reads this
    {
      && AmountOnSlider(loanAmount) && TenureOnSlider(tenure)
      && Distinct(pendingUploads)
      && (forall d :: d in pendingUploads <==> StatusOf(uploadedDocs, d) == Some(Pending))
      && (isAnalyzing ==> pendingUploads != [])
    }

    constructor ()
      ensures Valid()
      ensures loanAmount == 500000 && tenure == 24 && !isAnalyzing
      ensures uploadedDocs == map[] && pendingUploads == []
    {
      loanAmount, tenure, isAnalyzing := 500000, 24, false;
      uploadedDocs, pendingUploads := map[], [];
    }

    /** The instalment shown under the sliders. */
    function ShownEmi(): (k: int)
      reads this
      requires Valid()
      ensures k >= 1
      ensures Emi(loanAmount as real, tenure) - 0.5 < k as real <= Emi(loanAmount as real, tenure) + 0.5
    {
      CalculateEmi(loanAmount, tenure)
    }

    method SetLoanAmount(v: int)
      requires Valid() && AmountOnSlider(v)
      modifies this
      ensures Valid()
      ensures loanAmount == v && tenure == old(tenure) && isAnalyzing == old(isAnalyzing)
      ensures uploadedDocs == old(uploadedDocs) && pendingUploads == old(pendingUploads)
    {
      loanAmount := v;
    }

    method SetTenure(v: int)
      requires Valid() && TenureOnSlider(v)
      modifies this
      ensures Valid()
      ensures tenure == v && loanAmount == old(loanAmount) && isAnalyzing == old(isAnalyzing)
      ensures uploadedDocs == old(uploadedDocs) && pendingUploads == old(pendingUploads)
    {
      tenure := v;
    }

    /** A click on a document card. A document that already has a status ignores it;
        otherwise the document turns pending, the shared flag is set and its analysis is
        queued. */
    method ClickDocument(doc: string)
      requires Valid()
      modifies this
      ensures Valid()
      ensures uploadedDocs == Click(old(uploadedDocs), doc)
      ensures doc in old(uploadedDocs) ==>
        isAnalyzing == old(isAnalyzing) && pendingUploads == old(pendingUploads)
      ensures doc !in old(uploadedDocs) ==>
        isAnalyzing && pendingUploads == old(pendingUploads) + [doc]
      ensures loanAmount == old(loanAmount) && tenure == old(tenure)
    {
      if doc in uploadedDocs {
        return;
      }
      assert doc !in pendingUploads;
      uploadedDocs := uploadedDocs[doc := Pending];
      isAnalyzing := true;
      pendingUploads := pendingUploads + [doc];
    }

    /** The oldest pending analysis ends: the shared flag is cleared, even when other
        documents are still pending, and that document is verified. */
    method UploadFinished() returns (doc: string)
      requires Valid() && pendingUploads != []
      modifies this
      ensures Valid()
      ensures doc == old(pendingUploads)[0] && pendingUploads == old(pendingUploads)[1..]
      ensures uploadedDocs == Finish(old(uploadedDocs), doc)
      ensures !isAnalyzing
      ensures loanAmount == old(loanAmount) && tenure == old(tenure)
    {
      doc := pendingUploads[0];
      var rest := pendingUploads[1..];
      assert pendingUploads == [doc] + rest;
      assert doc !in rest by {
        forall i | 0 <= i < |rest| ensures rest[i] != doc {
          assert rest[i] == pendingUploads[i + 1];
        }
      }
      assert Distinct(rest) by {
        forall i, j | 0 <= i < j < |rest| ensures rest[i] != rest[j] {
          assert rest[i] == pendingUploads[i + 1] && rest[j] == pendingUploads[j + 1];
        }
      }
      ghost var before := uploadedDocs;
      isAnalyzing := false;
      uploadedDocs := Finish(uploadedDocs, doc);
      pendingUploads := rest;
      forall d ensures d in rest <==> StatusOf(uploadedDocs, d) == Some(Pending) {
        if d != doc {
          assert d in rest <==> d in old(pendingUploads);
          assert StatusOf(uploadedDocs, d) == StatusOf(before, d);
        }
      }
    }
  }

  /** Two uploads started one after the other: when the first ends the shared flag is
      false, although the second document is still pending (and its card still spins). */
  method TwoUploads() returns (analyzing: bool, first: Option<DocStatus>, second: Option<DocStatus>)
    ensures !analyzing && first == Some(Verified) && second == Some(Pending)
  {
    var page := new LoanPage();
    var a := Documents[0];
    var b := Documents[1];
    assert a != b by { assert |a| != |b|; }
    page.ClickDocument(a);
    page.ClickDocument(b);
    assert page.pendingUploads == [a, b];
    var done := page.UploadFinished();
    assert done == a;
    analyzing := page.isAnalyzing;
    first := StatusOf(page.uploadedDocs, a);
    second := StatusOf(page.uploadedDocs, b);
  }
}
