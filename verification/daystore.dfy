/** Editing the ledger on one device: `getOrCreateDay`, which backs the
    capture form, and the filter the delete-day button applies. */
module DayStore {
  import opened Wrappers
  import opened Document
  import Month

  /** The record `getOrCreateDay` creates for a date nobody has captured yet. */
  function BlankDay(date: string, now: int): (d: Day)
  {
    Day(date, At(now),
        Numeric(0.0), Numeric(0.0),
        Numeric(0.0), Numeric(0.0), Numeric(0.0), Numeric(0.0),
        Numeric(0.0), [], "")
  }

  /** Every amount of the record reads as zero, with no debt payments and
      no notes. */
  predicate IsBlank(d: Day)
  {
    && ParseNum(d.incomeCash) == 0.0 && ParseNum(d.incomeVouchers) == 0.0
    && ParseNum(d.travel) == 0.0 && ParseNum(d.shoppingCash) == 0.0
    && ParseNum(d.shoppingVouchers) == 0.0 && ParseNum(d.other) == 0.0
    && ParseNum(d.flexFundUsed) == 0.0
    && d.debtPayments == [] && d.notes == ""
  }

  /** Every amount of the record is the number 0 itself, as the capture
      form's new record writes them, with no debt payments and no notes. */
  predicate IsZeroed(d: Day)
  {
    && d.incomeCash == Numeric(0.0) && d.incomeVouchers == Numeric(0.0)
    && d.travel == Numeric(0.0) && d.shoppingCash == Numeric(0.0)
    && d.shoppingVouchers == Numeric(0.0) && d.other == Numeric(0.0)
    && d.flexFundUsed == Numeric(0.0)
    && d.debtPayments == [] && d.notes == ""
  }

  /** `days.find(d => d.date === date)`, as an index. */
  function FindByDate(ds: seq<Day>, date: string): (r: Option<nat>)
    ensures r.None? <==> date !in Dates(ds)
    ensures r.Some? ==> r.value < |ds| && ds[r.value].date == date
    ensures r.Some? ==> forall j :: 0 <= j < r.value ==> ds[j].date != date
  {
    if ds == [] then None
    else if ds[0].date == date then Some(0)
    else match FindByDate(ds[1..], date)
      case None => None
      case Some(i) => Some(i + 1)
  }

  /** `getOrCreateDay(data, date)` with `nowIso()` as `now`: the document
      after the call (the source mutates it in place) and the record. */
  function GetOrCreateDay(doc: Doc, date: string, now: int): (r: Result<(Doc, Day), Error>)
    ensures r.Failure? <==> doc.ledger.days.NotAList?
    ensures r.Failure? ==> r.error == NotIterable
    ensures r.Success? ==>
              var (doc', day) := r.value;
              var ds := Elements(doc.ledger.days);
              && doc'.ledger.days.Items?
              && doc' == doc.(ledger := doc.ledger.(days := doc'.ledger.days))
              && day.date == date
              && ds <= doc'.ledger.days.elems
              && (date in Dates(ds) ==>
                    && doc'.ledger.days.elems == ds
                    && exists i :: 0 <= i < |ds| && ds[i] == day && forall j :: 0 <= j < i ==> ds[j].date != date)
              && (date !in Dates(ds) ==>
                    && doc'.ledger.days.elems == ds + [day]
                    && IsZeroed(day) && IsBlank(day) && day.updatedAt == At(now))
  {
    if doc.ledger.days.NotAList? then Failure(NotIterable)
    else
      var ds := Elements(doc.ledger.days);
      match FindByDate(ds, date)
      case Some(i) => Success((doc.(ledger := doc.ledger.(days := Items(ds))), ds[i]))
      case None =>
        var day := BlankDay(date, now);
        Success((doc.(ledger := doc.ledger.(days := Items(ds + [day]))), day))
  }

  /** A second call for the same date finds the record the first returned
      and changes nothing, whatever the clock says. */
  lemma GetOrCreateIdempotent(doc: Doc, date: string, now: int, later: int)
    requires GetOrCreateDay(doc, date, now).Success?
    ensures GetOrCreateDay(GetOrCreateDay(doc, date, now).value.0, date, later)
            == GetOrCreateDay(doc, date, now)
  {
    var (doc', day) := GetOrCreateDay(doc, date, now).value;
    var ds := Elements(doc.ledger.days);
    var ds' := doc'.ledger.days.elems;
    assert day in ds';
    assert date in Dates(ds');
    var i := FindByDate(ds', date).value;
    match FindByDate(ds, date)
    case Some(j) =>
      assert i == j;
    case None =>
      assert ds' == ds + [day];
  }

  /** Creating a record never introduces a second record for a date. */
  lemma GetOrCreateKeepsDatesUnique(doc: Doc, date: string, now: int)
    requires GetOrCreateDay(doc, date, now).Success?
    requires UniqueDates(Elements(doc.ledger.days))
    ensures UniqueDates(GetOrCreateDay(doc, date, now).value.0.ledger.days.elems)
  {
    var ds := Elements(doc.ledger.days);
    var ds' := GetOrCreateDay(doc, date, now).value.0.ledger.days.elems;
    if date !in Dates(ds) {
      forall i, j | 0 <= i < j < |ds'|
        ensures ds'[i].date != ds'[j].date
      {
        if j == |ds| {
          assert ds'[i] in ds;
        }
      }
    }
  }

  /** A record whose amounts all read as zero leaves a report unchanged. */
  lemma BlankDayLeavesReport(ym: string, days: seq<Day>, day: Day, plan: Plan,
                             inv: seq<Investment>, debts: seq<Debt>, rcv: seq<Receivable>)
    requires IsBlank(day)
    ensures Month.Report(ym, days + [day], plan, inv, debts, rcv) == Month.Report(ym, days, plan, inv, debts, rcv)
  {
    Month.SumOfAppend(days, day, Month.IncomeCash);
    Month.SumOfAppend(days, day, Month.IncomeVouchers);
    Month.SumOfAppend(days, day, Month.SpendCash);
    Month.SumOfAppend(days, day, Month.SpendVouchers);
    Month.SumOfAppend(days, day, Month.FlexUsed);
  }

  /** A freshly created record adds nothing to any month's report. */
  lemma GetOrCreateLeavesReport(doc: Doc, date: string, now: int, ym: string)
    requires !Month.HasNonArray(doc)
    ensures GetOrCreateDay(doc, date, now).Success?
    ensures Month.CalcMonth(GetOrCreateDay(doc, date, now).value.0, ym) == Month.CalcMonth(doc, ym)
  {
    var ds := Elements(doc.ledger.days);
    var doc' := GetOrCreateDay(doc, date, now).value.0;
    Month.CalcMonthReport(doc, ym);
    Month.CalcMonthReport(doc', ym);
    if date !in Dates(ds) {
      var day := BlankDay(date, now);
      assert doc'.ledger.days.elems == ds + [day];
      assert doc'.plan == doc.plan && doc'.accounts == doc.accounts;
      assert (ds + [day])[..|ds|] == ds;
      var before := Month.InMonth(ds, ym);
      if Month.MonthKey(date) == ym {
        assert Month.InMonth(ds + [day], ym) == before + [day];
        BlankDayLeavesReport(ym, before, day, doc.plan, Elements(doc.accounts.investments),
                             Elements(doc.accounts.debts), Elements(doc.accounts.receivables));
      } else {
        assert Month.InMonth(ds + [day], ym) == before;
      }
    } else {
      assert Elements(doc'.ledger.days) == ds;
    }
  }

  /** `days.filter(d => d.date !== date)`: the delete-day button. */
  function DeleteDay(ds: seq<Day>, date: string): (r: seq<Day>)
    ensures date !in Dates(r)
    ensures forall d :: d in r <==> d in ds && d.date != date
    ensures date !in Dates(ds) ==> r == ds
  {
    if ds == [] then []
    else (if ds[0].date == date then [] else [ds[0]]) + DeleteDay(ds[1..], date)
  }

  /** Every record with another date is kept as many times as it occurs. */
  lemma {:induction false} DeleteDayCounts(ds: seq<Day>, date: string, d: Day)
    ensures multiset(DeleteDay(ds, date))[d] == if d.date != date then multiset(ds)[d] else 0
  {
    if ds != [] {
      assert ds == [ds[0]] + ds[1..];
      DeleteDayCounts(ds[1..], date, d);
    }
  }

  /** The filter keeps the order of the records: deleting from two
      ledgers joined end to end is deleting from each and joining. */
  lemma {:induction false} DeleteDayAppend(a: seq<Day>, b: seq<Day>, date: string)
    ensures DeleteDay(a + b, date) == DeleteDay(a, date) + DeleteDay(b, date)
    decreases |a|
  {
    if a == [] {
      assert a + b == b;
    } else {
      assert a + b == [a[0]] + (a[1..] + b);
      DeleteDayAppend(a[1..], b, date);
    }
  }
}
