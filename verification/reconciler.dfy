/** `mergeByDate`: reconcile the local and the remote copy of the document.
    The remote copy is the base; day records are merged per date, the newer
    `updated_at` winning and ties going to the local record. */
module Reconciler {
  import opened Wrappers
  import opened Document
  import Lex
  import DayStore

  /** `lu >= ru` on the parsed timestamps; false when either side is NaN. */
  predicate LocalWins(l: Day, r: Day)
  {
    match (ParseStamp(l.updatedAt), ParseStamp(r.updatedAt))
    case (Some(lu), Some(ru)) => lu >= ru
    case _ => false
  }

  /** The record kept for one date, given the local candidate and the one
      the map already holds. */
  function Resolve(l: Option<Day>, r: Option<Day>): (w: Option<Day>)
    ensures w.Some? <==> l.Some? || r.Some?
    ensures w == l || w == r
    ensures l.Some? && r.Some? ==> (w == l <==> LocalWins(l.value, r.value) || l == r)
  {
    match l
    case None => r
    case Some(ld) =>
      match r
      case None => l
      case Some(rd) => if LocalWins(ld, rd) then l else r
  }

  /** Reference semantics of the local loop, for one date `k`: every local
      record dated `k`, in order, is resolved against what the map holds. */
  function Replay(ls: seq<Day>, k: string, acc: Option<Day>): Option<Day>
  {
    if ls == [] then acc
    else Replay(ls[1..], k, if ls[0].date == k then Resolve(Some(ls[0]), acc) else acc)
  }

  /** The JavaScript `Map` from date to record: keys in insertion order. */
  datatype DayMap = DayMap(keys: seq<string>, entries: map<string, Day>)

  ghost predicate Valid(m: DayMap)
  {
    && (forall i, j :: 0 <= i < j < |m.keys| ==> m.keys[i] != m.keys[j])
    && (forall k :: k in m.entries <==> k in m.keys)
    && (forall k :: k in m.entries ==> m.entries[k].date == k)
  }

  const EmptyMap := DayMap([], map[])

  /** `map.get(k)` */
  function Get(m: DayMap, k: string): Option<Day>
  {
    if k in m.entries then Some(m.entries[k]) else None
  }

  /** `map.set(d.date, d)`: a new key goes last, an existing key keeps its place. */
  function Put(m: DayMap, d: Day): (r: DayMap)
    requires Valid(m)
    ensures Valid(r)
    ensures forall k :: Get(r, k) == if k == d.date then Some(d) else Get(m, k)
    ensures d.date !in m.entries ==> r.keys == m.keys + [d.date]
    ensures d.date in m.entries ==> r.keys == m.keys
  {
    if d.date in m.entries then DayMap(m.keys, m.entries[d.date := d])
    else DayMap(m.keys + [d.date], m.entries[d.date := d])
  }

  /** The remote loop: every remote record is stored under its date, a
      later duplicate replacing an earlier one. */
  function Seed(m: DayMap, rs: seq<Day>): (r: DayMap)
    requires Valid(m)
    ensures Valid(r)
    ensures forall k :: Get(r, k) == if k in Dates(rs) then Lookup(rs, k) else Get(m, k)
    decreases |rs|
  {
    if rs == [] then m
    else
      var r := Seed(Put(m, rs[0]), rs[1..]);
      assert forall k :: k in Dates(rs) <==> k == rs[0].date || k in Dates(rs[1..]) by {
        assert rs == [rs[0]] + rs[1..];
      }
      r
  }

  /** One step of the local loop: a new date is inserted; an existing one
      keeps whichever record `Resolve` picks. */
  function Absorb(m: DayMap, d: Day): (r: DayMap)
    requires Valid(m)
    ensures Valid(r)
    ensures forall k :: Get(r, k) == if k == d.date then Resolve(Some(d), Get(m, k)) else Get(m, k)
  {
    match Get(m, d.date)
    case None => Put(m, d)
    case Some(rd) => Put(m, if LocalWins(d, rd) then d else rd)
  }

  /** The local loop over all local records. */
  function Overlay(m: DayMap, ls: seq<Day>): (r: DayMap)
    requires Valid(m)
    ensures Valid(r)
    ensures forall k :: Get(r, k) == Replay(ls, k, Get(m, k))
    decreases |ls|
  {
    if ls == [] then m else Overlay(Absorb(m, ls[0]), ls[1..])
  }

  /** `Array.from(map.values())`: every stored record once, in the order
      its date was first inserted. */
  function Values(m: DayMap): (r: seq<Day>)
    requires Valid(m)
    ensures |r| == |m.keys|
    ensures forall i :: 0 <= i < |r| ==> r[i].date == m.keys[i]
    ensures UniqueDates(r)
    ensures forall d :: d in r <==> d.date in m.entries && m.entries[d.date] == d
  {
    var vs := seq(|m.keys|, i requires 0 <= i < |m.keys| => m.entries[m.keys[i]]);
    KeyedValues(m, vs);
    vs
  }

  /** A sequence listing the map's entry for each key, key by key, holds
      every stored record once and nothing else. */
  lemma KeyedValues(m: DayMap, vs: seq<Day>)
    requires Valid(m)
    requires |vs| == |m.keys| && forall i :: 0 <= i < |vs| ==> vs[i] == m.entries[m.keys[i]]
    ensures UniqueDates(vs)
    ensures forall d :: d in vs <==> d.date in m.entries && m.entries[d.date] == d
  {
    forall d: Day | d.date in m.entries && m.entries[d.date] == d
      ensures d in vs
    {
      var i :| 0 <= i < |m.keys| && m.keys[i] == d.date;
      assert vs[i] == d;
    }
  }

  lemma StrictlySortedCons(d: Day, s: seq<Day>)
    requires StrictlySorted(s)
    requires forall e :: e in s ==> Lex.Less(d.date, e.date)
    ensures StrictlySorted([d] + s)
  {
    var r := [d] + s;
    forall i, j | 0 <= i < j < |r|
      ensures Lex.Less(r[i].date, r[j].date)
    {
      if i == 0 {
        assert r[j] == s[j - 1];
      } else {
        assert r[i] == s[i - 1] && r[j] == s[j - 1];
      }
    }
  }

  lemma DatesOfPermutation(a: seq<Day>, b: seq<Day>)
    requires multiset(a) == multiset(b)
    ensures Dates(a) == Dates(b)
  {
    forall k | k in Dates(a)
      ensures k in Dates(b)
    {
      var d :| d in a && d.date == k;
      assert d in multiset(b);
    }
    forall k | k in Dates(b)
      ensures k in Dates(a)
    {
      var d :| d in b && d.date == k;
      assert d in multiset(a);
    }
  }

  /** A record dated before the head of a sorted sequence may go in front. */
  lemma PrependSmallest(d: Day, s: seq<Day>)
    requires StrictlySorted(s) && s != []
    requires Lex.Less(d.date, s[0].date)
    ensures StrictlySorted([d] + s)
  {
    forall e | e in s
      ensures Lex.Less(d.date, e.date)
    {
      if e != s[0] {
        var j :| 0 <= j < |s| && s[j] == e;
        Lex.LessTransitive(d.date, s[0].date, e.date);
      }
    }
    StrictlySortedCons(d, s);
  }

  /** The head of a sorted sequence stays in front of the sorted rest once
      `d` (dated after the head) has been inserted into the rest. */
  lemma KeepHead(d: Day, s: seq<Day>, t: seq<Day>)
    requires StrictlySorted(s) && s != []
    requires Lex.Less(s[0].date, d.date)
    requires StrictlySorted(t)
    requires multiset(t) == multiset(s[1..]) + multiset{d}
    ensures StrictlySorted([s[0]] + t)
  {
    forall e | e in t
      ensures Lex.Less(s[0].date, e.date)
    {
      assert e in multiset(t);
      if e != d {
        assert e in s[1..];
        var j :| 1 <= j < |s| && s[j] == e;
      }
    }
    StrictlySortedCons(s[0], t);
  }

  /** Insertion of one record into a date-sorted sequence. */
  function Insert(d: Day, s: seq<Day>): (r: seq<Day>)
    requires StrictlySorted(s)
    requires d.date !in Dates(s)
    ensures StrictlySorted(r)
    ensures multiset(r) == multiset(s) + multiset{d}
  {
    if s == [] then [d]
    else if Lex.Less(d.date, s[0].date) then
      PrependSmallest(d, s);
      [d] + s
    else
      Lex.LessTotal(d.date, s[0].date);
      var t := Insert(d, s[1..]);
      KeepHead(d, s, t);
      assert s == [s[0]] + s[1..];
      [s[0]] + t
  }

  /** The `sort` by date of records with pairwise distinct dates (the
      order is then total, so stability plays no part). */
  function SortByDate(s: seq<Day>): (r: seq<Day>)
    requires UniqueDates(s)
    ensures StrictlySorted(r)
    ensures multiset(r) == multiset(s)
  {
    if s == [] then []
    else
      var t := SortByDate(s[1..]);
      DatesOfPermutation(t, s[1..]);
      assert s[0].date !in Dates(s[1..]);
      assert s == [s[0]] + s[1..];
      Insert(s[0], t)
  }

  /** A date-sorted permutation of the map's values holds, for every date,
      exactly the map's entry. */
  lemma PermutedValuesLookup(m: DayMap, r: seq<Day>, k: string)
    requires Valid(m)
    requires StrictlySorted(r)
    requires multiset(r) == multiset(Values(m))
    ensures Lookup(r, k) == Get(m, k)
  {
    StrictlySortedIsUnique(r);
    if k in m.entries {
      var d := m.entries[k];
      assert d in multiset(Values(m));
      assert d in r;
      LookupUnique(r, d);
    } else {
      assert forall d :: d in r ==> d in multiset(Values(m));
    }
  }

  /** The sorted `ledger.days` produced from the map: one record per key,
      in ascending date order. */
  function SortedDays(m: DayMap): (r: seq<Day>)
    requires Valid(m)
    ensures StrictlySorted(r)
    ensures forall k :: Lookup(r, k) == Get(m, k)
  {
    var r := SortByDate(Values(m));
    assert forall k :: Lookup(r, k) == Get(m, k) by {
      forall k
        ensures Lookup(r, k) == Get(m, k)
      {
        PermutedValuesLookup(m, r, k);
      }
    }
    r
  }

  /** Every section other than `ledger.days`, `meta.updated_at`,
      `meta.currency` and `meta.timezone` is the remote one. */
  predicate RemoteIsBase(out: Doc, remote: Doc)
  {
    && out.plan == remote.plan
    && out.accounts == remote.accounts
    && out.rest == remote.rest
    && out.ledger.rest == remote.ledger.rest
    && out.meta.rest == remote.meta.rest
  }

  /** Neither ledger holds a non-array and neither `meta.updated_at` is
      unparsable: the inputs on which the merge returns a document. */
  predicate Mergeable(local: Doc, remote: Doc)
  {
    && !local.ledger.days.NotAList? && !remote.ledger.days.NotAList?
    && !local.meta.updatedAt.BadStamp? && !remote.meta.updatedAt.BadStamp?
  }

  /** `mergeByDate(local, remote)` with `Date.now()` as `now` and
      `window.APP_CONFIG` as `cfg`. */
  function MergeByDate(local: Doc, remote: Doc, now: int, cfg: Config): (r: Result<Doc, Error>)
    ensures r.Success? <==> Mergeable(local, remote)
    ensures remote.ledger.days.NotAList? || local.ledger.days.NotAList? ==> r == Failure(NotIterable)
    ensures !remote.ledger.days.NotAList? && !local.ledger.days.NotAList? && !Mergeable(local, remote)
            ==> r == Failure(InvalidTimeValue)
    ensures r.Success? ==> RemoteIsBase(r.value, remote)
    ensures r.Success? ==> r.value.ledger.days.Items? && StrictlySorted(r.value.ledger.days.elems)
    ensures r.Success? ==>
              forall k :: Lookup(r.value.ledger.days.elems, k)
                          == Replay(Elements(local.ledger.days), k, Lookup(Elements(remote.ledger.days), k))
    ensures r.Success? ==>
              var lu, ru, u := ParseStamp(local.meta.updatedAt).value, ParseStamp(remote.meta.updatedAt).value,
                               r.value.meta.updatedAt;
              && u.At? && u.ms >= lu && u.ms >= ru && u.ms >= now
              && (u.ms == lu || u.ms == ru || u.ms == now)
    ensures r.Success? ==>
              && (remote.meta.currency != "" ==> r.value.meta.currency == remote.meta.currency)
              && (remote.meta.currency == "" ==> r.value.meta.currency == DefaultCurrency(cfg))
              && (remote.meta.timezone != "" ==> r.value.meta.timezone == remote.meta.timezone)
              && (remote.meta.timezone == "" ==> r.value.meta.timezone == DefaultTimezone(cfg))
  {
    if remote.ledger.days.NotAList? || local.ledger.days.NotAList? then Failure(NotIterable)
    else
      var m := Overlay(Seed(EmptyMap, Elements(remote.ledger.days)), Elements(local.ledger.days));
      var days := SortedDays(m);
      match (ParseStamp(local.meta.updatedAt), ParseStamp(remote.meta.updatedAt))
      case (Some(lu), Some(ru)) =>
        var meta := remote.meta.(
          updatedAt := At(Max(Max(lu, ru), now)),
          currency := if remote.meta.currency != "" then remote.meta.currency else DefaultCurrency(cfg),
          timezone := if remote.meta.timezone != "" then remote.meta.timezone else DefaultTimezone(cfg));
        Success(remote.(ledger := remote.ledger.(days := Items(days)), meta := meta))
      case _ => Failure(InvalidTimeValue)
  }

  /** Local records with another date leave what the map holds for `k`
      untouched. */
  lemma {:induction false} ReplayAbsent(ls: seq<Day>, k: string, acc: Option<Day>)
    requires k !in Dates(ls)
    ensures Replay(ls, k, acc) == acc
    decreases |ls|
  {
    if ls != [] {
      assert ls[0] in ls;
      assert Dates(ls[1..]) <= Dates(ls) by {
        forall j | j in Dates(ls[1..]) ensures j in Dates(ls) {
          var e :| e in ls[1..] && e.date == j;
          assert e in ls;
        }
      }
      ReplayAbsent(ls[1..], k, acc);
    }
  }

  /** The map holds a record for `k` after the local loop exactly when it
      held one before or some local record is dated `k`. */
  lemma {:induction false} ReplayPresence(ls: seq<Day>, k: string, acc: Option<Day>)
    ensures Replay(ls, k, acc).Some? <==> k in Dates(ls) || acc.Some?
    decreases |ls|
  {
    if ls != [] {
      var acc' := if ls[0].date == k then Resolve(Some(ls[0]), acc) else acc;
      ReplayPresence(ls[1..], k, acc');
      assert ls == [ls[0]] + ls[1..];
      assert k in Dates(ls) <==> ls[0].date == k || k in Dates(ls[1..]);
    }
  }

  /** With one local record per date, the local loop resolves that record
      against the remote one. */
  lemma {:induction false} ReplayUnique(ls: seq<Day>, k: string, acc: Option<Day>)
    requires UniqueDates(ls)
    ensures Replay(ls, k, acc) == Resolve(Lookup(ls, k), acc)
    decreases |ls|
  {
    if ls != [] {
      if ls[0].date == k {
        assert k !in Dates(ls[1..]);
        ReplayAbsent(ls[1..], k, Resolve(Some(ls[0]), acc));
      } else {
        ReplayUnique(ls[1..], k, acc);
      }
    }
  }

  /** The merged ledger holds one record for every date of either input
      and no other date. */
  lemma MergedDatesAreUnion(local: Doc, remote: Doc, now: int, cfg: Config)
    requires Mergeable(local, remote)
    ensures Dates(MergeByDate(local, remote, now, cfg).value.ledger.days.elems)
            == Dates(Elements(local.ledger.days)) + Dates(Elements(remote.ledger.days))
  {
    var out := MergeByDate(local, remote, now, cfg).value.ledger.days.elems;
    var ls, rs := Elements(local.ledger.days), Elements(remote.ledger.days);
    forall k
      ensures k in Dates(out) <==> k in Dates(ls) || k in Dates(rs)
    {
      ReplayPresence(ls, k, Lookup(rs, k));
    }
  }

  /** Per-date winner: when the local ledger has one record per date, the
      merged record for `k` is the local one if only the local side has
      `k`, the remote one if only the remote side has it, and otherwise
      the local one exactly when its `updated_at` is not earlier than the
      remote one's (a tie keeps the local record; NaN on either side keeps
      the remote record). */
  lemma MergeWinnerPerDate(local: Doc, remote: Doc, now: int, cfg: Config, k: string)
    requires Mergeable(local, remote)
    requires UniqueDates(Elements(local.ledger.days))
    ensures Lookup(MergeByDate(local, remote, now, cfg).value.ledger.days.elems, k)
            == Resolve(Lookup(Elements(local.ledger.days), k), Lookup(Elements(remote.ledger.days), k))
  {
    ReplayUnique(Elements(local.ledger.days), k, Lookup(Elements(remote.ledger.days), k));
  }

  /** The conflict rule on two concrete records that share a date. */
  lemma MergeConflict(local: Doc, remote: Doc, now: int, cfg: Config, l: Day, r: Day)
    requires Mergeable(local, remote)
    requires UniqueDates(Elements(local.ledger.days)) && UniqueDates(Elements(remote.ledger.days))
    requires l in Elements(local.ledger.days) && r in Elements(remote.ledger.days) && l.date == r.date
    ensures var out := MergeByDate(local, remote, now, cfg).value.ledger.days.elems;
            && (LocalWins(l, r) ==> l in out)
            && (!LocalWins(l, r) ==> r in out)
            && (forall d :: d in out && d.date == l.date ==> d == if LocalWins(l, r) then l else r)
  {
    var out := MergeByDate(local, remote, now, cfg).value.ledger.days.elems;
    LookupUnique(Elements(local.ledger.days), l);
    LookupUnique(Elements(remote.ledger.days), r);
    MergeWinnerPerDate(local, remote, now, cfg, l.date);
    StrictlySortedIsUnique(out);
    forall d | d in out && d.date == l.date
      ensures d == if LocalWins(l, r) then l else r
    {
      LookupUnique(out, d);
    }
  }

  /** Merging a sorted document with itself gives the document back, only
      its `updated_at` moved forward to `now` if `now` is later. */
  lemma MergeWithItself(d: Doc, now: int, cfg: Config)
    requires d.ledger.days.Items? && StrictlySorted(d.ledger.days.elems)
    requires !d.meta.updatedAt.BadStamp?
    requires d.meta.currency != "" && d.meta.timezone != ""
    ensures MergeByDate(d, d, now, cfg)
            == Success(d.(meta := d.meta.(updatedAt := At(Max(ParseStamp(d.meta.updatedAt).value, now)))))
  {
    var ds := d.ledger.days.elems;
    var out := MergeByDate(d, d, now, cfg).value;
    StrictlySortedIsUnique(ds);
    forall k
      ensures Lookup(out.ledger.days.elems, k) == Lookup(ds, k)
    {
      ReplayUnique(ds, k, Lookup(ds, k));
    }
    SortedByLookup(out.ledger.days.elems, ds);
    assert out.ledger == d.ledger;
  }

  /** No tombstones: a date deleted on this device before a sync comes
      back with whatever record the remote copy still holds for it. */
  lemma DeletedDayComesBack(local: Doc, remote: Doc, now: int, cfg: Config, kept: seq<Day>, date: string)
    requires local.ledger.days == Items(DayStore.DeleteDay(kept, date))
    requires Mergeable(local, remote)
    ensures Lookup(MergeByDate(local, remote, now, cfg).value.ledger.days.elems, date)
            == Lookup(Elements(remote.ledger.days), date)
  {
    ReplayAbsent(DayStore.DeleteDay(kept, date), date, Lookup(Elements(remote.ledger.days), date));
  }

  /** A day only the local copy has comes through the merge unchanged, and
      it is the merged ledger's only record for its date. */
  lemma LocalOnlyDayKept(local: Doc, remote: Doc, now: int, cfg: Config, l: Day)
    requires Mergeable(local, remote)
    requires UniqueDates(Elements(local.ledger.days))
    requires l in Elements(local.ledger.days) && l.date !in Dates(Elements(remote.ledger.days))
    ensures var out := MergeByDate(local, remote, now, cfg).value.ledger.days.elems;
            && l in out
            && forall d :: d in out && d.date == l.date ==> d == l
  {
    var out := MergeByDate(local, remote, now, cfg).value.ledger.days.elems;
    LookupUnique(Elements(local.ledger.days), l);
    MergeWinnerPerDate(local, remote, now, cfg, l.date);
    assert Lookup(out, l.date) == Some(l);
    StrictlySortedIsUnique(out);
    forall d | d in out && d.date == l.date
      ensures d == l
    {
      LookupUnique(out, d);
    }
  }

  /** A ledger holding one day, merged into an empty remote ledger, comes
      back as it was. */
  lemma SingleLocalDayKept(local: Doc, remote: Doc, now: int, cfg: Config, l: Day)
    requires local.ledger.days == Items([l]) && remote.ledger.days == Items([])
    requires Mergeable(local, remote)
    ensures MergeByDate(local, remote, now, cfg).value.ledger.days.elems == [l]
  {
    var out := MergeByDate(local, remote, now, cfg).value.ledger.days.elems;
    forall k
      ensures Lookup(out, k) == Lookup([l], k)
    {
      assert Lookup([], k) == None;
      LookupSingleton(l, k);
    }
    Lex.LessIrreflexive(l.date);
    SortedByLookup(out, [l]);
  }

  /** One record on each side for the same date: the merged ledger is the
      winner alone. */
  lemma SingleConflict(local: Doc, remote: Doc, now: int, cfg: Config, l: Day, r: Day)
    requires local.ledger.days == Items([l]) && remote.ledger.days == Items([r]) && l.date == r.date
    requires Mergeable(local, remote)
    ensures MergeByDate(local, remote, now, cfg).value.ledger.days.elems == [if LocalWins(l, r) then l else r]
  {
    var out := MergeByDate(local, remote, now, cfg).value.ledger.days.elems;
    var w := if LocalWins(l, r) then l else r;
    forall k
      ensures Lookup(out, k) == Lookup([w], k)
    {
      LookupSingleton(l, k);
      LookupSingleton(r, k);
      LookupSingleton(w, k);
    }
    Lex.LessIrreflexive(w.date);
    SortedByLookup(out, [w]);
  }

  /** Both copies hold 2024-03-05 with cash income 50 locally and 80
      remotely; the remote record, stamped 12:00Z against the local 10:00Z,
      wins. */
  lemma NewerRemoteWins(local: Doc, remote: Doc, now: int, cfg: Config, l: Day, r: Day)
    requires local.ledger.days == Items([l]) && remote.ledger.days == Items([r])
    requires l.date == "2024-03-05" && r.date == "2024-03-05"
    requires l.updatedAt == At(1709632800000) && r.updatedAt == At(1709640000000)
    requires l.incomeCash == Numeric(50.0) && r.incomeCash == Numeric(80.0)
    requires Mergeable(local, remote)
    ensures MergeByDate(local, remote, now, cfg).value.ledger.days.elems == [r]
    ensures ParseNum(MergeByDate(local, remote, now, cfg).value.ledger.days.elems[0].incomeCash) == 80.0
  {
    assert !LocalWins(l, r);
    SingleConflict(local, remote, now, cfg, l, r);
  }
}
