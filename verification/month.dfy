/** `calcMonth`: the monthly report — sums over the days of one month,
    the savings-plan figures with their fallbacks, and account totals. */
module Month {
  import opened Wrappers
  import opened Document

  const RigidFallback: real := 5000.0
  const FlexibleFallback: real := 1000.0
  const PaidStatus := "paid"
  const PendingStatus := "pending"

  /** `monthKey`: the first seven characters of the date ("YYYY-MM"). */
  function MonthKey(date: string): (r: string)
    ensures |r| == if |date| < 7 then |date| else 7
    ensures r <= date
  {
    if |date| < 7 then date else date[..7]
  }

  /** For a seven-character month, a date belongs to it exactly when the
      month is a prefix of the date. */
  lemma MonthKeyIsPrefixTest(date: string, ym: string)
    requires |ym| == 7
    ensures MonthKey(date) == ym <==> ym <= date
  {
    if ym <= date {
      assert date[..7] == ym;
    }
  }

  /** The `filter(d => monthKey(d.date) === ym)` of the ledger. */
  function InMonth(ds: seq<Day>, ym: string): (r: seq<Day>)
    ensures forall d :: d in r <==> d in ds && MonthKey(d.date) == ym
    ensures |r| <= |ds|
  {
    if ds == [] then []
    else
      var last := ds[|ds| - 1];
      assert ds == ds[..|ds| - 1] + [last];
      InMonth(ds[..|ds| - 1], ym) + (if MonthKey(last.date) == ym then [last] else [])
  }

  /** The month's filter keeps every record of the month as many times as
      the ledger holds it, and no other record. */
  lemma {:induction false} InMonthCounts(ds: seq<Day>, ym: string, d: Day)
    ensures multiset(InMonth(ds, ym))[d] == if MonthKey(d.date) == ym then multiset(ds)[d] else 0
  {
    if ds != [] {
      var init, last := ds[..|ds| - 1], ds[|ds| - 1];
      assert ds == init + [last];
      InMonthCounts(init, ym, d);
    }
  }

  /** `arr.reduce((a, x) => a + f(x), 0)`, left to right. */
  function SumOf<T>(xs: seq<T>, f: T -> real): real
  {
    if xs == [] then 0.0 else SumOf(xs[..|xs| - 1], f) + f(xs[|xs| - 1])
  }

  lemma SumOfAppend<T>(xs: seq<T>, x: T, f: T -> real)
    ensures SumOf(xs + [x], f) == SumOf(xs, f) + f(x)
  {
    assert (xs + [x])[..|xs|] == xs;
  }

  function IncomeCash(d: Day): real { ParseNum(d.incomeCash) }
  function IncomeVouchers(d: Day): real { ParseNum(d.incomeVouchers) }
  function SpendCash(d: Day): real { ParseNum(d.travel) + ParseNum(d.shoppingCash) + ParseNum(d.other) }
  function SpendVouchers(d: Day): real { ParseNum(d.shoppingVouchers) }
  function FlexUsed(d: Day): real { ParseNum(d.flexFundUsed) }
  function Principal(i: Investment): real { ParseNum(i.principal) }
  function AnnualYield(i: Investment): real { ParseNum(i.principal) * ParseNum(i.annualRate) }
  function Balance(d: Debt): real { ParseNum(d.balance) }
  function Amount(x: Receivable): real { ParseNum(x.amount) }

  /** `(x.status || "pending") !== "paid"` */
  predicate Outstanding(x: Receivable)
  {
    (if x.status == "" then PendingStatus else x.status) != PaidStatus
  }

  function OutstandingOnly(rs: seq<Receivable>): (r: seq<Receivable>)
    ensures forall x :: x in r <==> x in rs && Outstanding(x)
  {
    if rs == [] then []
    else
      var last := rs[|rs| - 1];
      assert rs == rs[..|rs| - 1] + [last];
      OutstandingOnly(rs[..|rs| - 1]) + (if Outstanding(last) then [last] else [])
  }

  /** Every outstanding receivable is kept as many times as it occurs, and
      no paid one. */
  lemma {:induction false} OutstandingCounts(rs: seq<Receivable>, x: Receivable)
    ensures multiset(OutstandingOnly(rs))[x] == if Outstanding(x) then multiset(rs)[x] else 0
  {
    if rs != [] {
      var init, last := rs[..|rs| - 1], rs[|rs| - 1];
      assert rs == init + [last];
      OutstandingCounts(init, x);
    }
  }

  /** `parseNum(v) || fallback` */
  function OrFallback(v: real, fallback: real): real
  {
    if v != 0.0 then v else fallback
  }

  /** The object `calcMonth` returns. */
  datatype Summary = Summary(
    ym: string,
    incomeCash: real,
    incomeVouchers: real,
    spendCash: real,
    spendVouchers: real,
    flexUsed: real,
    rigid: real,
    flexPlan: real,
    flexRemaining: real,
    ahorroReal: real,
    cashNet: real,
    vouchersNet: real,
    invTotal: real,
    rendAnual: real,
    debtTotal: real,
    rcvTotal: real)

  /** Any of the four array-valued fields `calcMonth` reduces holds a
      non-array, so `filter`/`reduce` throws. */
  predicate HasNonArray(doc: Doc)
  {
    || doc.ledger.days.NotAList?
    || doc.accounts.investments.NotAList?
    || doc.accounts.debts.NotAList?
    || doc.accounts.receivables.NotAList?
  }

  /** The report for the month's records `days` and the document's plan
      and accounts (the arithmetic of `calcMonth`). */
  function Report(ym: string, days: seq<Day>, plan: Plan, inv: seq<Investment>, debts: seq<Debt>, rcv: seq<Receivable>): Summary
  {
    var incomeCash := SumOf(days, IncomeCash);
    var incomeVouchers := SumOf(days, IncomeVouchers);
    var spendCash := SumOf(days, SpendCash);
    var spendVouchers := SumOf(days, SpendVouchers);
    var flexUsed := SumOf(days, FlexUsed);
    var rigid := OrFallback(ParseNum(plan.monthlyRigid), RigidFallback);
    var flexPlan := OrFallback(ParseNum(plan.monthlyFlexible), FlexibleFallback);
    var flexRemaining := Clamp0(flexPlan - flexUsed);
    Summary(
      ym, incomeCash, incomeVouchers, spendCash, spendVouchers, flexUsed,
      rigid, flexPlan, flexRemaining, rigid + flexRemaining,
      incomeCash - spendCash - (rigid + flexPlan), incomeVouchers - spendVouchers,
      SumOf(inv, Principal), SumOf(inv, AnnualYield),
      SumOf(debts, Balance),
      SumOf(OutstandingOnly(rcv), Amount))
  }

  function CalcMonth(doc: Doc, ym: string): (r: Result<Summary, Error>)
    ensures r.Failure? <==> HasNonArray(doc)
    ensures r.Failure? ==> r.error == NotIterable
    ensures r.Success? ==>
              var s, pr, pf := r.value, ParseNum(doc.plan.monthlyRigid), ParseNum(doc.plan.monthlyFlexible);
              && s.ym == ym
              && s.rigid != 0.0 && s.flexPlan != 0.0
              && (pr != 0.0 ==> s.rigid == pr) && (pr == 0.0 ==> s.rigid == RigidFallback)
              && (pf != 0.0 ==> s.flexPlan == pf) && (pf == 0.0 ==> s.flexPlan == FlexibleFallback)
              && s.flexRemaining >= 0.0 && s.flexRemaining >= s.flexPlan - s.flexUsed
              && (s.flexRemaining == 0.0 || s.flexRemaining == s.flexPlan - s.flexUsed)
              && s.ahorroReal >= s.rigid
              && s.ahorroReal == s.rigid + s.flexRemaining
              && s.cashNet == s.incomeCash - s.spendCash - (s.rigid + s.flexPlan)
              && s.vouchersNet == s.incomeVouchers - s.spendVouchers
  {
    if HasNonArray(doc) then Failure(NotIterable)
    else
      Success(Report(ym, InMonth(Elements(doc.ledger.days), ym), doc.plan,
                     Elements(doc.accounts.investments), Elements(doc.accounts.debts),
                     Elements(doc.accounts.receivables)))
  }

  /** The document with one more day record appended to its ledger. */
  function WithDay(doc: Doc, d: Day): Doc
  {
    doc.(ledger := doc.ledger.(days := Items(Elements(doc.ledger.days) + [d])))
  }

  /** A record dated in another month changes nothing in the report. */
  lemma OtherMonthDayIgnored(doc: Doc, d: Day, ym: string)
    requires !doc.ledger.days.NotAList?
    requires MonthKey(d.date) != ym
    ensures CalcMonth(WithDay(doc, d), ym) == CalcMonth(doc, ym)
  {
    var ds := Elements(doc.ledger.days);
    assert (ds + [d])[..|ds|] == ds;
    assert InMonth(ds + [d], ym) == InMonth(ds, ym);
  }

  /** A record dated in the month adds its amounts to the month's totals. */
  lemma InMonthDayAdds(doc: Doc, d: Day, ym: string)
    requires !HasNonArray(doc)
    requires MonthKey(d.date) == ym
    ensures
      var before, after := CalcMonth(doc, ym).value, CalcMonth(WithDay(doc, d), ym).value;
      && after.incomeCash == before.incomeCash + ParseNum(d.incomeCash)
      && after.incomeVouchers == before.incomeVouchers + ParseNum(d.incomeVouchers)
      && after.spendCash == before.spendCash + ParseNum(d.travel) + ParseNum(d.shoppingCash) + ParseNum(d.other)
      && after.spendVouchers == before.spendVouchers + ParseNum(d.shoppingVouchers)
      && after.flexUsed == before.flexUsed + ParseNum(d.flexFundUsed)
      && after.invTotal == before.invTotal && after.rendAnual == before.rendAnual
      && after.debtTotal == before.debtTotal && after.rcvTotal == before.rcvTotal
  {
    var ds := Elements(doc.ledger.days);
    assert (ds + [d])[..|ds|] == ds;
    var days := InMonth(ds, ym);
    assert InMonth(ds + [d], ym) == days + [d];
    SumOfAppend(days, d, IncomeCash);
    SumOfAppend(days, d, IncomeVouchers);
    SumOfAppend(days, d, SpendCash);
    SumOfAppend(days, d, SpendVouchers);
    SumOfAppend(days, d, FlexUsed);
  }

  /** Only the month's own records matter: dropping every other record
      leaves the report as it was. */
  lemma {:induction false} InMonthIdempotent(ds: seq<Day>, ym: string)
    ensures InMonth(InMonth(ds, ym), ym) == InMonth(ds, ym)
  {
    if ds != [] {
      var init, last := ds[..|ds| - 1], ds[|ds| - 1];
      InMonthIdempotent(init, ym);
      var tail := if MonthKey(last.date) == ym then [last] else [];
      InMonthAppend(InMonth(init, ym), tail, ym);
    }
  }

  lemma {:induction false} InMonthAppend(a: seq<Day>, b: seq<Day>, ym: string)
    ensures InMonth(a + b, ym) == InMonth(a, ym) + InMonth(b, ym)
    decreases |b|
  {
    if b == [] {
      assert a + b == a;
    } else {
      var init, last := b[..|b| - 1], b[|b| - 1];
      assert (a + b)[..|a + b| - 1] == a + init;
      assert (a + b)[|a + b| - 1] == last;
      InMonthAppend(a, init, ym);
    }
  }

  lemma OnlyMonthDaysCount(doc: Doc, ym: string)
    requires !doc.ledger.days.NotAList?
    ensures CalcMonth(doc.(ledger := doc.ledger.(days := Items(InMonth(Elements(doc.ledger.days), ym)))), ym)
            == CalcMonth(doc, ym)
  {
    var ds := Elements(doc.ledger.days);
    InMonthIdempotent(ds, ym);
    var doc' := doc.(ledger := doc.ledger.(days := Items(InMonth(ds, ym))));
    assert Elements(doc'.ledger.days) == InMonth(ds, ym);
  }

  /** The month's filter is empty when no record is dated in the month. */
  lemma {:induction false} NoMonthDays(ds: seq<Day>, ym: string)
    requires forall d :: d in ds ==> MonthKey(d.date) != ym
    ensures InMonth(ds, ym) == []
  {
    if ds != [] {
      var init := ds[..|ds| - 1];
      assert forall d :: d in init ==> d in ds;
      assert ds[|ds| - 1] in ds;
      NoMonthDays(init, ym);
    }
  }

  /** Base case of the report: with no record in the month and no accounts,
      every total is 0, the whole flexible plan remains (a negative plan
      leaves 0), and the cash
      balance is minus the planned savings. */
  lemma EmptyMonthReport(doc: Doc, ym: string)
    requires !HasNonArray(doc)
    requires forall d :: d in Elements(doc.ledger.days) ==> MonthKey(d.date) != ym
    requires Elements(doc.accounts.investments) == [] && Elements(doc.accounts.debts) == []
    requires Elements(doc.accounts.receivables) == []
    ensures
      var s := CalcMonth(doc, ym).value;
      && s.incomeCash == 0.0 && s.incomeVouchers == 0.0
      && s.spendCash == 0.0 && s.spendVouchers == 0.0 && s.flexUsed == 0.0
      && s.invTotal == 0.0 && s.rendAnual == 0.0 && s.debtTotal == 0.0 && s.rcvTotal == 0.0
      && s.flexRemaining == Clamp0(s.flexPlan) && (s.flexPlan > 0.0 ==> s.flexRemaining == s.flexPlan)
      && s.cashNet == -(s.rigid + s.flexPlan) && s.vouchersNet == 0.0
  {
    NoMonthDays(Elements(doc.ledger.days), ym);
  }

  /** The document with one more investment. */
  function WithInvestment(doc: Doc, x: Investment): Doc
  {
    doc.(accounts := doc.accounts.(investments := Items(Elements(doc.accounts.investments) + [x])))
  }

  /** The report `CalcMonth` gives for a document without non-arrays. */
  lemma CalcMonthReport(doc: Doc, ym: string)
    requires !HasNonArray(doc)
    ensures CalcMonth(doc, ym).Success?
    ensures CalcMonth(doc, ym).value
            == Report(ym, InMonth(Elements(doc.ledger.days), ym), doc.plan, Elements(doc.accounts.investments),
                      Elements(doc.accounts.debts), Elements(doc.accounts.receivables))
  {
  }

  lemma ReportInvestment(ym: string, days: seq<Day>, plan: Plan, inv: seq<Investment>, debts: seq<Debt>,
                         rcv: seq<Receivable>, x: Investment)
    ensures
      var before := Report(ym, days, plan, inv, debts, rcv);
      Report(ym, days, plan, inv + [x], debts, rcv)
        == before.(invTotal := before.invTotal + ParseNum(x.principal),
                   rendAnual := before.rendAnual + ParseNum(x.principal) * ParseNum(x.annualRate))
  {
    SumOfAppend(inv, x, Principal);
    SumOfAppend(inv, x, AnnualYield);
  }

  /** An appended investment adds its principal to `invTotal` and principal
      times annual rate to `rendAnual`, and changes nothing else. */
  lemma InvestmentCounting(doc: Doc, x: Investment, ym: string)
    requires !HasNonArray(doc)
    ensures
      var before, after := CalcMonth(doc, ym).value, CalcMonth(WithInvestment(doc, x), ym).value;
      after == before.(invTotal := before.invTotal + ParseNum(x.principal),
                       rendAnual := before.rendAnual + ParseNum(x.principal) * ParseNum(x.annualRate))
  {
    var doc' := WithInvestment(doc, x);
    CalcMonthReport(doc, ym);
    CalcMonthReport(doc', ym);
    ReportInvestment(ym, InMonth(Elements(doc.ledger.days), ym), doc.plan, Elements(doc.accounts.investments),
                     Elements(doc.accounts.debts), Elements(doc.accounts.receivables), x);
  }

  /** The document with one more debt. */
  function WithDebt(doc: Doc, x: Debt): Doc
  {
    doc.(accounts := doc.accounts.(debts := Items(Elements(doc.accounts.debts) + [x])))
  }

  lemma ReportDebt(ym: string, days: seq<Day>, plan: Plan, inv: seq<Investment>, debts: seq<Debt>,
                   rcv: seq<Receivable>, x: Debt)
    ensures
      var before := Report(ym, days, plan, inv, debts, rcv);
      Report(ym, days, plan, inv, debts + [x], rcv) == before.(debtTotal := before.debtTotal + ParseNum(x.balance))
  {
    SumOfAppend(debts, x, Balance);
  }

  /** An appended debt adds its balance to `debtTotal` and changes nothing
      else. */
  lemma DebtCounting(doc: Doc, x: Debt, ym: string)
    requires !HasNonArray(doc)
    ensures
      var before, after := CalcMonth(doc, ym).value, CalcMonth(WithDebt(doc, x), ym).value;
      after == before.(debtTotal := before.debtTotal + ParseNum(x.balance))
  {
    var doc' := WithDebt(doc, x);
    CalcMonthReport(doc, ym);
    CalcMonthReport(doc', ym);
    ReportDebt(ym, InMonth(Elements(doc.ledger.days), ym), doc.plan, Elements(doc.accounts.investments),
               Elements(doc.accounts.debts), Elements(doc.accounts.receivables), x);
  }

  /** The document with one more receivable. */
  function WithReceivable(doc: Doc, x: Receivable): Doc
  {
    doc.(accounts := doc.accounts.(receivables := Items(Elements(doc.accounts.receivables) + [x])))
  }

  lemma OutstandingAppend(rs: seq<Receivable>, x: Receivable)
    ensures OutstandingOnly(rs + [x]) == OutstandingOnly(rs) + (if Outstanding(x) then [x] else [])
  {
    assert (rs + [x])[..|rs|] == rs;
    assert (rs + [x])[|rs|] == x;
  }

  lemma ReportReceivable(ym: string, days: seq<Day>, plan: Plan, inv: seq<Investment>, debts: seq<Debt>,
                         rcv: seq<Receivable>, x: Receivable)
    ensures
      var before := Report(ym, days, plan, inv, debts, rcv);
      Report(ym, days, plan, inv, debts, rcv + [x])
        == if Outstanding(x) then before.(rcvTotal := before.rcvTotal + ParseNum(x.amount)) else before
  {
    OutstandingAppend(rcv, x);
    if Outstanding(x) {
      SumOfAppend(OutstandingOnly(rcv), x, Amount);
    } else {
      assert OutstandingOnly(rcv + [x]) == OutstandingOnly(rcv);
    }
  }

  /** A paid receivable is left out of the receivables total; any other
      one (a missing status reads as pending) is added to it, and nothing
      else changes. */
  lemma ReceivableCounting(doc: Doc, x: Receivable, ym: string)
    requires !HasNonArray(doc)
    ensures
      var before, after := CalcMonth(doc, ym).value, CalcMonth(WithReceivable(doc, x), ym).value;
      && (x.status == PaidStatus ==> after == before)
      && (x.status != PaidStatus ==> after == before.(rcvTotal := before.rcvTotal + ParseNum(x.amount)))
  {
    var doc' := WithReceivable(doc, x);
    CalcMonthReport(doc, ym);
    CalcMonthReport(doc', ym);
    assert Outstanding(x) <==> x.status != PaidStatus;
    ReportReceivable(ym, InMonth(Elements(doc.ledger.days), ym), doc.plan, Elements(doc.accounts.investments),
                     Elements(doc.accounts.debts), Elements(doc.accounts.receivables), x);
  }

  /** Two March records with cash income 100 and 200 and no spending give
      a cash income of 300 for "2024-03". */
  lemma MarchIncomeExample(doc: Doc, d1: Day, d2: Day)
    requires !HasNonArray(doc)
    requires doc.ledger.days == Items([d1, d2])
    requires d1.date == "2024-03-01" && d2.date == "2024-03-15"
    requires d1.incomeCash == Numeric(100.0) && d2.incomeCash == Numeric(200.0)
    ensures CalcMonth(doc, "2024-03").value.incomeCash == 300.0
  {
    assert MonthKey(d1.date) == "2024-03";
    assert MonthKey(d2.date) == "2024-03";
    assert [d1, d2][..1] == [d1];
    assert InMonth([d1, d2], "2024-03") == [d1, d2];
    SumOfAppend([], d1, IncomeCash);
    SumOfAppend([d1], d2, IncomeCash);
    assert [d1] + [d2] == [d1, d2];
  }

  /** A flexible plan of 1000 fully used in the month leaves nothing of it. */
  lemma FlexExhaustedExample(doc: Doc, d: Day)
    requires !HasNonArray(doc)
    requires doc.plan.monthlyFlexible == Numeric(1000.0)
    requires doc.ledger.days == Items([d])
    requires d.date == "2024-03-10" && d.flexFundUsed == Numeric(1000.0)
    ensures CalcMonth(doc, "2024-03").value.flexUsed == 1000.0
    ensures CalcMonth(doc, "2024-03").value.flexRemaining == 0.0
  {
    assert MonthKey(d.date) == "2024-03";
    assert InMonth([d], "2024-03") == [d];
    SumOfAppend([], d, FlexUsed);
    assert [] + [d] == [d];
  }
}
