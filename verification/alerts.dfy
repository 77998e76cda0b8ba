/** `softAlerts`: the two warning chips of the dashboard. */
module Alerts {
  import opened Wrappers
  import opened Document
  import Lex
  import Month

  /** A warning chip; every chip the dashboard shows has level "warn". */
  datatype Alert =
    | FlexFundUsed               // "Fondo flexible usado"
    | DaysWithoutUpdate(n: int)  // "<n> días sin actualizar"

  const StaleAfterDays := 3

  /** `days.map(d => d.date).sort().slice(-1)[0]`: the greatest date. */
  function LastDate(ds: seq<Day>): (r: string)
    requires ds != []
    ensures r in Dates(ds)
    ensures forall d :: d in ds ==> !Lex.Less(r, d.date)
  {
    if |ds| == 1 then
      Lex.LessIrreflexive(ds[0].date);
      ds[0].date
    else
      var init, last := ds[..|ds| - 1], ds[|ds| - 1];
      var m := LastDate(init);
      assert ds == init + [last];
      if Lex.Less(m, last.date) then
        assert forall d :: d in init ==> !Lex.Less(last.date, d.date) by {
          forall d | d in init
            ensures !Lex.Less(last.date, d.date)
          {
            if Lex.Less(last.date, d.date) {
              Lex.LessTransitive(m, last.date, d.date);
            }
          }
        }
        Lex.LessIrreflexive(last.date);
        last.date
      else
        m
  }

  /** `Math.floor((now - midnight) / 86400000)`: whole days elapsed. */
  function DaysSince(now: int, midnight: int): (r: int)
    ensures r * MsPerDay <= now - midnight < (r + 1) * MsPerDay
  {
    (now - midnight) / MsPerDay
  }

  /** `softAlerts(data, m)` with `Date.now()` as `now` and, as `midnight`,
      the time `new Date(date + "T00:00:00")` gives in the device's time
      zone (None when that Date is invalid). */
  function SoftAlerts(doc: Doc, m: Month.Summary, now: int, midnight: string -> Option<int>): (r: seq<Alert>)
    ensures |r| <= 2
    ensures forall i, j :: 0 <= i < j < |r| ==> r[i] != r[j]
    ensures FlexFundUsed in r <==> m.flexUsed > 0.0
    ensures m.flexUsed > 0.0 ==> r[0] == FlexFundUsed
    ensures forall i :: 0 <= i < |r| && r[i].DaysWithoutUpdate? ==>
              var ds := Elements(doc.ledger.days);
              && ds != []
              && r[i].n >= StaleAfterDays
              && exists d :: d in ds && (forall e :: e in ds ==> !Lex.Less(d.date, e.date))
                             && midnight(d.date).Some? && r[i].n == DaysSince(now, midnight(d.date).value)
    ensures (exists i :: 0 <= i < |r| && r[i].DaysWithoutUpdate?) <==>
              var ds := Elements(doc.ledger.days);
              exists d :: d in ds && (forall e :: e in ds ==> !Lex.Less(d.date, e.date))
                          && midnight(d.date).Some? && DaysSince(now, midnight(d.date).value) >= StaleAfterDays
  {
    var flex := if m.flexUsed > 0.0 then [FlexFundUsed] else [];
    var ds := Elements(doc.ledger.days);
    if ds == [] then flex
    else
      var last := LastDate(ds);
      GreatestDateIsUnique(ds, last);
      match midnight(last)
      case None => flex
      case Some(t) =>
        var diff := DaysSince(now, t);
        assert exists d :: d in ds && d.date == last && (forall e :: e in ds ==> !Lex.Less(d.date, e.date)) by {
          var w :| w in ds && w.date == last;
        }
        if diff >= StaleAfterDays then
          var r := flex + [DaysWithoutUpdate(diff)];
          assert r[|flex|].DaysWithoutUpdate?;
          r
        else flex
  }

  /** Every record carrying a greatest date carries the same date. */
  lemma GreatestDateIsUnique(ds: seq<Day>, last: string)
    requires last in Dates(ds)
    requires forall d :: d in ds ==> !Lex.Less(last, d.date)
    ensures forall d :: d in ds && (forall e :: e in ds ==> !Lex.Less(d.date, e.date)) ==> d.date == last
  {
    forall d | d in ds && (forall e :: e in ds ==> !Lex.Less(d.date, e.date))
      ensures d.date == last
    {
      var e :| e in ds && e.date == last;
      Lex.LessTotal(d.date, last);
    }
  }

  /** A flexible fund fully spent in the month raises the flexible-fund
      warning, first among the chips. */
  lemma FlexExhaustedAlert(doc: Doc, d: Day, now: int, midnight: string -> Option<int>)
    requires !Month.HasNonArray(doc)
    requires doc.plan.monthlyFlexible == Numeric(1000.0)
    requires doc.ledger.days == Items([d])
    requires d.date == "2024-03-10" && d.flexFundUsed == Numeric(1000.0)
    ensures var r := SoftAlerts(doc, Month.CalcMonth(doc, "2024-03").value, now, midnight);
            |r| > 0 && r[0] == FlexFundUsed
  {
    Month.FlexExhaustedExample(doc, d);
  }
}
