/** The finance document the dashboard stores locally and in the cloud drive:
    metadata, savings plan, accounts, a ledger of day records and opaque
    sections, together with the value coercions the core applies to it. */
module Document {
  import opened Wrappers
  import Lex

  /** A JSON value the core carries through without looking inside. */
  datatype Json =
    | JNull
    | JBool(b: bool)
    | JNum(n: real)
    | JStr(s: string)
    | JArr(elems: seq<Json>)
    | JObj(fields: seq<(string, Json)>)

  /** A stored amount as `parseNum` sees it: absent (`null`/`undefined`),
      a value that parses to a finite number, or anything else. */
  datatype Raw = Blank | Numeric(v: real) | NonNumeric

  /** An `updated_at` field as `Date.parse` sees it: falsy (missing or ""),
      a timestamp that parses to milliseconds since the epoch, or text
      that does not parse (NaN). */
  datatype Stamp = NoStamp | At(ms: int) | BadStamp

  /** An array-valued field read with `x || []`: falsy, an array, or a
      truthy value that is not an array (iteration throws a TypeError). */
  datatype ListField<T> = Missing | Items(elems: seq<T>) | NotAList

  /** One calendar day of transactions; `date` is the natural key. */
  datatype Day = Day(
    date: string,
    updatedAt: Stamp,
    incomeCash: Raw,
    incomeVouchers: Raw,
    travel: Raw,
    shoppingCash: Raw,
    shoppingVouchers: Raw,
    other: Raw,
    flexFundUsed: Raw,
    debtPayments: seq<Json>,
    notes: string)

  datatype Investment = Investment(principal: Raw, annualRate: Raw)
  datatype Debt = Debt(balance: Raw)
  /** `status` "" stands for a missing status. */
  datatype Receivable = Receivable(amount: Raw, status: string)

  /** `currency` or `timezone` "" stands for a falsy value; `rest` holds
      version, created_at, device_id and any unknown keys. */
  datatype Meta = Meta(currency: string, timezone: string, updatedAt: Stamp, rest: seq<(string, Json)>)

  /** `plan.savings_plan.monthly_rigid` / `monthly_flexible`; everything else
      in `plan` is opaque. */
  datatype Plan = Plan(monthlyRigid: Raw, monthlyFlexible: Raw, rest: seq<(string, Json)>)

  datatype Accounts = Accounts(
    investments: ListField<Investment>,
    debts: ListField<Debt>,
    receivables: ListField<Receivable>,
    rest: seq<(string, Json)>)

  datatype Ledger = Ledger(days: ListField<Day>, rest: seq<(string, Json)>)

  /** The whole document; `rest` holds settings, goals, alerts and unknown keys. */
  datatype Doc = Doc(meta: Meta, plan: Plan, accounts: Accounts, ledger: Ledger, rest: seq<(string, Json)>)

  /** Exceptions the modelled code can raise. */
  datatype Error =
    | NotIterable       // TypeError: an array-valued field holds a non-array
    | InvalidTimeValue  // RangeError: toISOString on an invalid Date

  /** `window.APP_CONFIG`: "" stands for a missing entry. */
  datatype Config = Config(currency: string, timezone: string)

  const FallbackCurrency := "MXN"
  const FallbackTimezone := "America/Mexico_City"
  const MsPerDay := 86_400_000

  /** `window.APP_CONFIG?.CURRENCY || "MXN"` */
  function DefaultCurrency(cfg: Config): (r: string)
    ensures r != ""
    ensures cfg.currency != "" ==> r == cfg.currency
    ensures cfg.currency == "" ==> r == FallbackCurrency
  {
    if cfg.currency != "" then cfg.currency else FallbackCurrency
  }

  /** `window.APP_CONFIG?.TIMEZONE || "America/Mexico_City"` */
  function DefaultTimezone(cfg: Config): (r: string)
    ensures r != ""
    ensures cfg.timezone != "" ==> r == cfg.timezone
    ensures cfg.timezone == "" ==> r == FallbackTimezone
  {
    if cfg.timezone != "" then cfg.timezone else FallbackTimezone
  }

  /** `parseNum`: absent and non-numeric values read as 0; negative values
      pass through unclamped. */
  function ParseNum(raw: Raw): (r: real)
    ensures r != 0.0 ==> raw.Numeric? && raw.v == r
    ensures raw.Numeric? ==> r == raw.v
  {
    match raw
    case Numeric(v) => v
    case _ => 0.0
  }

  /** `clamp0`: the larger of 0 and `n`. */
  function Clamp0(n: real): (r: real)
    ensures r >= 0.0 && r >= n
    ensures r == 0.0 || r == n
  {
    if n < 0.0 then 0.0 else n
  }

  /** `Date.parse(s || "1970-01-01T00:00:00Z")`: None is NaN. */
  function ParseStamp(s: Stamp): (r: Option<int>)
    ensures r.None? <==> s.BadStamp?
    ensures s.NoStamp? ==> r == Some(0)
    ensures s.At? ==> r == Some(s.ms)
  {
    match s
    case NoStamp => Some(0)
    case At(ms) => Some(ms)
    case BadStamp => None
  }

  /** `Math.max(a, b)` */
  function Max(a: int, b: int): (r: int)
    ensures r >= a && r >= b
    ensures r == a || r == b
  {
    if a >= b then a else b
  }

  /** `x || []` once a non-array has been ruled out (or, for `.length`,
      read as having no elements). */
  function Elements<T>(f: ListField<T>): seq<T>
  {
    match f
    case Items(xs) => xs
    case _ => []
  }

  /** The dates that occur in a sequence of day records. */
  function Dates(ds: seq<Day>): set<string>
  {
    set d | d in ds :: d.date
  }

  /** No two records share a date. */
  predicate UniqueDates(ds: seq<Day>)
  {
    forall i, j :: 0 <= i < j < |ds| ==> ds[i].date != ds[j].date
  }

  /** Ascending by date with no repeated date. */
  predicate StrictlySorted(ds: seq<Day>)
  {
    forall i, j :: 0 <= i < j < |ds| ==> Lex.Less(ds[i].date, ds[j].date)
  }

  /** The record a `Map` filled by `map.set(d.date, d)` over `ds` holds for
      `k`: the last record with that date. */
  function Lookup(ds: seq<Day>, k: string): (r: Option<Day>)
    ensures r.Some? ==> r.value in ds && r.value.date == k
    ensures r.Some? <==> k in Dates(ds)
    ensures r.Some? ==> exists i :: 0 <= i < |ds| && ds[i] == r.value && forall j :: i < j < |ds| ==> ds[j].date != k
  {
    if ds == [] then None
    else match Lookup(ds[1..], k)
      case Some(d) =>
        assert exists i :: 0 <= i < |ds| && ds[i] == d && forall j :: i < j < |ds| ==> ds[j].date != k by {
          var i' :| 0 <= i' < |ds[1..]| && ds[1..][i'] == d && forall j :: i' < j < |ds[1..]| ==> ds[1..][j].date != k;
          assert forall j :: i' + 1 < j < |ds| ==> ds[j] == ds[1..][j - 1];
        }
        Some(d)
      case None =>
        if ds[0].date == k then
          assert forall j :: 0 < j < |ds| ==> ds[j].date != k by {
            forall j | 0 < j < |ds| ensures ds[j].date != k {
              assert ds[j] in ds[1..];
            }
          }
          Some(ds[0])
        else None
  }

  /** A one-record ledger holds that record for its date and nothing else. */
  lemma LookupSingleton(d: Day, k: string)
    ensures Lookup([d], k) == if k == d.date then Some(d) else None
  {
    assert [d][1..] == [];
  }

  lemma StrictlySortedIsUnique(ds: seq<Day>)
    requires StrictlySorted(ds)
    ensures UniqueDates(ds)
  {
    forall i, j | 0 <= i < j < |ds|
      ensures ds[i].date != ds[j].date
    {
      if ds[i].date == ds[j].date {
        Lex.LessIrreflexive(ds[i].date);
      }
    }
  }

  /** With unique dates, the lookup finds the one record carrying the date. */
  lemma {:induction false} LookupUnique(ds: seq<Day>, d: Day)
    requires UniqueDates(ds)
    requires d in ds
    ensures Lookup(ds, d.date) == Some(d)
  {
    if ds[0] != d {
      LookupUnique(ds[1..], d);
    }
  }

  /** A sorted ledger is determined by what it holds for each date. */
  lemma {:induction false} SortedByLookup(a: seq<Day>, b: seq<Day>)
    requires StrictlySorted(a) && StrictlySorted(b)
    requires forall k :: Lookup(a, k) == Lookup(b, k)
    ensures a == b
    decreases |a|
  {
    StrictlySortedIsUnique(a);
    StrictlySortedIsUnique(b);
    if a == [] && b != [] {
      FirstDateFound(b);
      assert false;
    } else if a != [] && b == [] {
      FirstDateFound(a);
      assert false;
    } else if a != [] {
      LookupUnique(a, a[0]);
      LookupUnique(b, b[0]);
      var x, y := a[0], b[0];
      assert Lookup(b, x.date).Some? && Lookup(a, y.date).Some?;
      if x.date != y.date {
        var j :| 0 <= j < |b| && b[j] == Lookup(b, x.date).value;
        var i :| 0 <= i < |a| && a[i] == Lookup(a, y.date).value;
        assert Lex.Less(y.date, x.date) && Lex.Less(x.date, y.date);
        Lex.LessAsymmetric(y.date, x.date);
        assert false;
      }
      assert x == y;
      forall k
        ensures Lookup(a[1..], k) == Lookup(b[1..], k)
      {
        if k == x.date {
          FirstDateNotInTail(a);
          FirstDateNotInTail(b);
        } else {
          assert Lookup(a, k) == Lookup(a[1..], k);
          assert Lookup(b, k) == Lookup(b[1..], k);
        }
      }
      SortedByLookup(a[1..], b[1..]);
      assert a == [x] + a[1..] && b == [y] + b[1..];
    }
  }

  lemma FirstDateFound(a: seq<Day>)
    ensures a != [] ==> Lookup(a, a[0].date).Some?
  {
    if a != [] {
      assert a[0] in a;
    }
  }

  lemma FirstDateNotInTail(a: seq<Day>)
    requires StrictlySorted(a) && a != []
    ensures a[0].date !in Dates(a[1..])
  {
    if a[0].date in Dates(a[1..]) {
      var e :| e in a[1..] && e.date == a[0].date;
      var j :| 1 <= j < |a| && a[j] == e;
      Lex.LessIrreflexive(a[0].date);
    }
  }
}
