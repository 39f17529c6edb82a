/**
  rca_agent/webapp/db.py: the append-only ledger of agent runs behind the Cost tab, its imports
  and its statistics.
 */
module CostLedger {
  import opened Basics
  import opened Grouping
  import opened Sorting

  /** One run; an absent text stands for NULL or an empty one, times are UTC seconds. */
  datatype Entry = Entry(
    ticket: string,
    kind: string,
    trigger: string,
    status: string,
    model: string,
    input: Option<int>,
    output: Option<int>,
    cacheRead: Option<int>,
    cacheWrite: Option<int>,
    cost: Option<real>,
    started: Option<int>,
    finished: Option<int>,
    sourceRef: Option<string>)

  // --- recording and importing ---------------------------------------------------------------------

  /** UNIQUE holds for every source reference; NULLs are all distinct. */
  predicate Refers(runs: seq<Entry>, r: Option<string>) {
    r.Some? && exists i :: 0 <= i < |runs| && runs[i].sourceRef == r
  }

  /** INSERT OR IGNORE */
  function Recorded(runs: seq<Entry>, e: Entry): seq<Entry> {
    if Refers(runs, e.sourceRef) then runs else runs + [e]
  }

  function Imported(runs: seq<Entry>, es: seq<Entry>): seq<Entry> {
    if es == [] then runs else Recorded(Imported(runs, es[..|es| - 1]), es[|es| - 1])
  }

  lemma {:induction false} ImportAppends(runs: seq<Entry>, es: seq<Entry>)
    ensures runs <= Imported(runs, es)
    decreases es
  {
    if es != [] { ImportAppends(runs, es[..|es| - 1]); }
  }

  lemma RefersStays(runs: seq<Entry>, more: seq<Entry>, r: Option<string>)
    requires runs <= more && Refers(runs, r)
    ensures Refers(more, r)
  {
    var i :| 0 <= i < |runs| && runs[i].sourceRef == r;
    assert more[i] == runs[i];
  }

  lemma {:induction false} ImportedAreReferred(runs: seq<Entry>, es: seq<Entry>, i: nat)
    requires i < |es| && es[i].sourceRef.Some?
    ensures Refers(Imported(runs, es), es[i].sourceRef)
    decreases es
  {
    var init, last := es[..|es| - 1], es[|es| - 1];
    var before, after := Imported(runs, init), Imported(runs, es);
    if i < |init| {
      ImportedAreReferred(runs, init, i);
      RefersStays(before, after, es[i].sourceRef);
    } else if !Refers(before, last.sourceRef) {
      assert after[|before|] == last;
    }
  }

  lemma {:induction false} AllKnownAddsNothing(runs: seq<Entry>, es: seq<Entry>)
    requires forall e :: e in es ==> Refers(runs, e.sourceRef)
    ensures Imported(runs, es) == runs
    decreases es
  {
    if es != [] {
      AllKnownAddsNothing(runs, es[..|es| - 1]);
      assert es[|es| - 1] in es;
    }
  }

  lemma {:induction false} UnreferencedGrows(runs: seq<Entry>, es: seq<Entry>, i: nat)
    requires i < |es| && es[i].sourceRef.None?
    ensures |Imported(runs, es)| > |runs|
    decreases es
  {
    ImportAppends(runs, es[..|es| - 1]);
    if i < |es| - 1 { UnreferencedGrows(runs, es[..|es| - 1], i); }
  }

  /** An import can be repeated without a trace iff each of its rows has a source reference. */
  lemma ImportTwiceIff(runs: seq<Entry>, es: seq<Entry>)
    ensures Imported(Imported(runs, es), es) == Imported(runs, es)
       <==> forall e :: e in es ==> e.sourceRef.Some?
  {
    var once := Imported(runs, es);
    if e :| e in es && e.sourceRef.None? {
      var i :| 0 <= i < |es| && es[i] == e;
      UnreferencedGrows(once, es, i);
    } else {
      forall e | e in es
        ensures Refers(once, e.sourceRef)
      {
        var i :| 0 <= i < |es| && es[i] == e;
        ImportedAreReferred(runs, es, i);
      }
      AllKnownAddsNothing(once, es);
    }
  }

  // --- the statistics --------------------------------------------------------------------------------

  datatype Tally = Tally(runs: int, cost: real, input: int, output: int, cacheRead: int, cacheWrite: int, noCost: int)

  function Or0(n: Option<int>): int {
    if n.Some? then n.value else 0
  }

  function TallyOf(e: Entry): Tally {
    Tally(1, if e.cost.Some? then e.cost.value else 0.0, Or0(e.input), Or0(e.output), Or0(e.cacheRead),
          Or0(e.cacheWrite), if e.cost.None? then 1 else 0)
  }

  function Add(a: Tally, b: Tally): Tally {
    Tally(a.runs + b.runs, a.cost + b.cost, a.input + b.input, a.output + b.output, a.cacheRead + b.cacheRead,
          a.cacheWrite + b.cacheWrite, a.noCost + b.noCost)
  }

  const TALLIES: Monoid<Tally> := Monoid(Tally(0, 0.0, 0, 0, 0, 0, 0), Add)

  /** `agg(items)`, before rounding. */
  function Agg(items: seq<Entry>): Tally {
    Total(items, TallyOf, TALLIES)
  }

  function SumInt(items: seq<Entry>, f: Entry -> int): int {
    if items == [] then 0 else SumInt(items[..|items| - 1], f) + f(items[|items| - 1])
  }

  function SumReal(items: seq<Entry>, f: Entry -> real): real {
    if items == [] then 0.0 else SumReal(items[..|items| - 1], f) + f(items[|items| - 1])
  }

  /** A tally column by column: what is missing counts as nothing, and a missing cost is counted. */
  lemma {:induction false} AggIs(items: seq<Entry>)
    ensures var t := Agg(items);
      && t.runs == |items|
      && t.cost == SumReal(items, (e: Entry) => if e.cost.Some? then e.cost.value else 0.0)
      && t.input == SumInt(items, (e: Entry) => if e.input.Some? then e.input.value else 0)
      && t.output == SumInt(items, (e: Entry) => if e.output.Some? then e.output.value else 0)
      && t.cacheRead == SumInt(items, (e: Entry) => if e.cacheRead.Some? then e.cacheRead.value else 0)
      && t.cacheWrite == SumInt(items, (e: Entry) => if e.cacheWrite.Some? then e.cacheWrite.value else 0)
      && t.noCost == SumInt(items, (e: Entry) => if e.cost == None then 1 else 0)
    decreases items
  {
    if items != [] { AggIs(items[..|items| - 1]); }
  }

  function Average(cost: real, n: nat): real {
    if n == 0 then 0.0 else cost / n as real
  }

  /** The IST day a run counts for; nothing when it has no time at all. */
  function DayOf(e: Entry): Option<int> {
    if e.started.Some? then Some(IstDay(e.started.value))
    else if e.finished.Some? then Some(IstDay(e.finished.value))
    else None
  }

  /** A run without a day comes before every day there is. */
  predicate InRange(e: Entry, fromDay: Option<int>, toDay: Option<int>) {
    DayInRange(DayOf(e), fromDay, toDay)
  }

  predicate DayInRange(d: Option<int>, fromDay: Option<int>, toDay: Option<int>) {
    && (fromDay.Some? ==> d.Some? && d.value >= fromDay.value)
    && (toDay.Some? ==> d.None? || d.value <= toDay.value)
  }

  /** ORDER BY started_at DESC; NULLs last. */
  predicate StartedLater(a: Entry, b: Entry) {
    a.started.Some? && (b.started.None? || a.started.value > b.started.value)
  }

  function Selected(runs: seq<Entry>, fromDay: Option<int>, toDay: Option<int>): seq<Entry> {
    Where(StableSort(runs, StartedLater), e => InRange(e, fromDay, toDay))
  }

  /** The runs of a range of IST days: by their start, or by their end when that is all there is; newest first. */
  lemma SelectedAre(runs: seq<Entry>, fromDay: Option<int>, toDay: Option<int>, e: Entry)
    ensures var sel := Selected(runs, fromDay, toDay);
      var at := if e.started.Some? then e.started else e.finished;
      && (e in sel <==> (
            && e in runs
            && (fromDay.Some? ==> at.Some? && fromDay.value * 86400 <= at.value + 19800)
            && (toDay.Some? && at.Some? ==> at.value + 19800 < (toDay.value + 1) * 86400)))
      && forall i, j :: 0 <= i < j < |sel| && sel[j].started.Some? ==>
           sel[i].started.Some? && sel[i].started.value >= sel[j].started.value
  {
    var sorted := StableSort(runs, StartedLater);
    SortOrders(runs, StartedLater, x => false);
    SortedMembers(runs, StartedLater);
    WhereFinds(sorted, x => InRange(x, fromDay, toDay), e);
    StaysOrdered(sorted, x => InRange(x, fromDay, toDay));
  }

  lemma {:induction false} StaysOrdered(items: seq<Entry>, p: Entry -> bool)
    requires Ordered(items, StartedLater)
    ensures Ordered(Where(items, p), StartedLater)
    decreases items
  {
    if items != [] {
      forall i, j | 0 <= i < j < |items| - 1
        ensures !StartedLater(items[1..][j], items[1..][i])
      {
        assert !StartedLater(items[j + 1], items[i + 1]);
      }
      StaysOrdered(items[1..], p);
      var rest := Where(items[1..], p);
      forall j | 0 <= j < |rest|
        ensures !StartedLater(rest[j], items[0])
      {
        WhereFinds(items[1..], p, rest[j]);
        var k :| 0 <= k < |items| - 1 && items[1..][k] == rest[j];
        assert !StartedLater(items[k + 1], items[0]);
      }
    }
  }

  function OrUnknown(s: string): string {
    if s == "" then "unknown" else s
  }

  function KindOf(e: Entry): string { OrUnknown(e.kind) }
  function TriggerOf(e: Entry): string { OrUnknown(e.trigger) }
  function ModelOf(e: Entry): string { OrUnknown(e.model) }

  /** "unknown" sorts behind every date. */
  predicate DayBefore(a: Option<int>, b: Option<int>) {
    a.Some? && (b.None? || a.value < b.value)
  }

  predicate IsTicketRun(e: Entry) {
    e.kind == "rca" || e.kind == "fix"
  }

  predicate Failed(e: Entry) {
    e.status == "failed"
  }

  function TicketsIn(items: seq<Entry>): set<string> {
    set e | e in items && e.ticket != "" :: e.ticket
  }

  /** The rows of a breakdown, added up. */
  function SumOf<K>(keys: seq<K>, d: map<K, Tally>): Tally
    requires forall k :: k in keys ==> k in d
  {
    if keys == [] then TALLIES.zero else Add(SumOf(keys[..|keys| - 1], d), d[keys[|keys| - 1]])
  }

  /** This breakdown of `items` by `key` accounts for every run, token and missing cost. */
  ghost predicate Accounts<K(!new)>(d: Dict<K, Tally>, items: seq<Entry>, key: Entry -> K) {
    && d.Valid()
    && (forall k :: k in d.vals <==> exists e :: e in items && key(e) == k)
    && (forall k :: k in d.vals ==> d.vals[k] == Agg(Group(items, key, k)))
    && SumOf(d.keys, d.vals) == Agg(items)
  }

  datatype Stats = Stats(
    total: Tally,
    tickets: Tally,
    distinctTickets: nat,
    avgPerTicket: real,
    failed: Tally,
    byKind: Dict<string, Tally>,
    byTrigger: Dict<string, Tally>,
    byModel: Dict<string, Tally>,
    byDay: Dict<Option<int>, Tally>,
    recent: seq<Entry>)

  /** Each breakdown has a row for every value there is, and 'unknown' for those without one. */
  ghost predicate LabelledRows(s: Stats, sel: seq<Entry>) {
    && (forall k :: k in s.byKind.vals <==> exists e :: e in sel && k == if e.kind == "" then "unknown" else e.kind)
    && (forall k ::
          k in s.byTrigger.vals <==> exists e :: e in sel && k == if e.trigger == "" then "unknown" else e.trigger)
    && (forall k :: k in s.byModel.vals <==> exists e :: e in sel && k == if e.model == "" then "unknown" else e.model)
  }

  /** The cost per ticket is that of the investigations and fixes, over the tickets they were for. */
  ghost predicate PerTicket(s: Stats, sel: seq<Entry>) {
    && s.distinctTickets == |set e | e in sel && (e.kind == "rca" || e.kind == "fix") && e.ticket != "" :: e.ticket|
    && s.avgPerTicket * s.distinctTickets as real == if s.distinctTickets == 0 then 0.0 else s.tickets.cost
  }

  lemma RowLabels(s: Stats, sel: seq<Entry>)
    requires Accounts(s.byKind, sel, KindOf) && Accounts(s.byTrigger, sel, TriggerOf) && Accounts(s.byModel, sel, ModelOf)
    ensures LabelledRows(s, sel)
  {
    hide Agg, SumOf;
    forall e
      ensures KindOf(e) == (if e.kind == "" then "unknown" else e.kind)
      ensures TriggerOf(e) == (if e.trigger == "" then "unknown" else e.trigger)
      ensures ModelOf(e) == if e.model == "" then "unknown" else e.model
    {
    }
  }

  /** The rows stand in the order of their names; days in order, and 'unknown' behind them. */
  ghost predicate RowsInOrder(s: Stats) {
    && Ordered(s.byKind.keys, TextBefore) && Ordered(s.byTrigger.keys, TextBefore) && Ordered(s.byModel.keys, TextBefore)
    && forall i, j :: 0 <= i < j < |s.byDay.keys| && s.byDay.keys[j].Some? ==>
         s.byDay.keys[i].Some? && s.byDay.keys[i].value < s.byDay.keys[j].value
  }

  lemma RowOrder(s: Stats, sel: seq<Entry>)
    requires s.byKind.keys == StableSort(Firsts(Keys(sel, KindOf)), TextBefore)
    requires s.byTrigger.keys == StableSort(Firsts(Keys(sel, TriggerOf)), TextBefore)
    requires s.byModel.keys == StableSort(Firsts(Keys(sel, ModelOf)), TextBefore)
    requires s.byDay.keys == StableSort(Firsts(Keys(sel, DayOf)), DayBefore)
    ensures RowsInOrder(s)
  {
    TextIsOrder();
    SortOrders(Firsts(Keys(sel, KindOf)), TextBefore, x => false);
    SortOrders(Firsts(Keys(sel, TriggerOf)), TextBefore, x => false);
    SortOrders(Firsts(Keys(sel, ModelOf)), TextBefore, x => false);
    SortOrders(Firsts(Keys(sel, DayOf)), DayBefore, x => false);
    SortedIsDistinct(Firsts(Keys(sel, DayOf)), DayBefore);
    var days := s.byDay.keys;
    forall i, j | 0 <= i < j < |days| && days[j].Some?
      ensures days[i].Some? && days[i].value < days[j].value
    {
      assert !DayBefore(days[j], days[i]) && days[i] != days[j];
    }
  }

  lemma TalliesAreLawful()
    ensures TALLIES.Lawful()
  {
  }

  lemma {:induction false} SumIsTotalOfGroups<K(!new)>(keys: seq<K>, d: map<K, Tally>, items: seq<Entry>, key: Entry -> K)
    requires forall k :: k in keys ==> k in d && d[k] == Agg(Group(items, key, k))
    ensures SumOf(keys, d) == TotalOfGroups(items, key, keys, TallyOf, TALLIES)
    decreases keys
  {
    if keys != [] {
      assert keys[|keys| - 1] in keys;
      SumIsTotalOfGroups(keys[..|keys| - 1], d, items, key);
    }
  }

  lemma BreakdownSums<K(!new)>(d: Dict<K, Tally>, items: seq<Entry>, key: Entry -> K)
    requires d.Valid() && forall e :: e in items ==> key(e) in d.keys
    requires forall k :: k in d.vals ==> d.vals[k] == Agg(Group(items, key, k))
    ensures SumOf(d.keys, d.vals) == Agg(items)
  {
    TalliesAreLawful();
    SumIsTotalOfGroups(d.keys, d.vals, items, key);
    GroupsConserve(items, key, d.keys, TallyOf, TALLIES);
  }

  lemma BreakdownAccounts<K(!new)>(d: Dict<K, Tally>, items: seq<Entry>, key: Entry -> K)
    requires d.Valid() && forall k :: k in d.keys <==> k in Keys(items, key)
    requires forall k :: k in d.vals ==> d.vals[k] == Agg(Group(items, key, k))
    ensures Accounts(d, items, key)
  {
    forall k
      ensures k in d.vals <==> exists e :: e in items && key(e) == k
    {
      ListedIffBorne(items, key, k);
    }
    BreakdownSums(d, items, key);
  }

  lemma PutNext<K(!new), V>(d: Dict<K, V>, ks: seq<K>, i: nat, v: V)
    requires d.Valid() && NoDuplicates(ks) && i < |ks| && d.keys == ks[..i]
    ensures d.Put(ks[i], v).Valid() && d.Put(ks[i], v).keys == ks[..i + 1] && d.Put(ks[i], v).vals == d.vals[ks[i] := v]
  {
    assert ks[i] !in ks[..i];
    d.PutKeepsValid(ks[i], v);
  }

  /** `group(key)`: a tally per key, in the order of the keys. */
  method Breakdown<K(==,!new)>(sel: seq<Entry>, key: Entry -> K, before: (K, K) -> bool) returns (out: Dict<K, Tally>)
    ensures Accounts(out, sel, key)
    ensures out.keys == StableSort(Firsts(Keys(sel, key)), before)
  {
    hide Agg, Accounts, StableSort;
    var groups := GroupBy(sel, key);
    var ks := StableSort(groups.keys, before);
    SortedMembers(groups.keys, before);
    SortedIsDistinct(groups.keys, before);
    out := EmptyDict();
    for i := 0 to |ks|
      invariant out.Valid() && out.keys == ks[..i]
      invariant forall k :: k in out.vals ==> out.vals[k] == Agg(Group(sel, key, k))
    {
      assert ks[i] in groups.keys;
      PutNext(out, ks, i, Agg(groups.vals[ks[i]]));
      out := out.Put(ks[i], Agg(groups.vals[ks[i]]));
    }
    BreakdownAccounts(out, sel, key);
  }

  class Ledger {
    var runs: seq<Entry>

    constructor ()
      ensures runs == []
    {
      runs := [];
    }

    /** `hasFinished`: the caller passes a finishing time, even NULL; otherwise it is now. */
    method RecordRun(row: Entry, hasFinished: bool, now: int) returns (added: bool)
      modifies this
      ensures var e := if hasFinished then row else row.(finished := Some(now));
              runs == Recorded(old(runs), e) && (added <==> runs != old(runs))
    {
      var e := if hasFinished then row else row.(finished := Some(now));
      added := !Refers(runs, e.sourceRef);
      if added { runs := runs + [e]; }
    }

    /** The backfill: answers how many rows were new. */
    method ImportAll(rows: seq<Entry>, now: int) returns (added: nat)
      modifies this
      ensures runs == Imported(old(runs), rows) && |runs| == |old(runs)| + added
    {
      added := 0;
      for i := 0 to |rows|
        invariant runs == Imported(old(runs), rows[..i]) && |runs| == |old(runs)| + added
      {
        assert rows[..i + 1][..i] == rows[..i];
        var ok := RecordRun(rows[i], true, now);
        if ok { added := added + 1; }
      }
      assert rows[..|rows|] == rows;
    }

    /** Whatever the rows and the dates, every breakdown adds up to the total. */
    method GetCostStats(fromDay: Option<int>, toDay: Option<int>, recent: nat) returns (s: Stats)
      ensures var sel := Selected(runs, fromDay, toDay);
        && s.total == Agg(sel)
        && Accounts(s.byKind, sel, KindOf) && Accounts(s.byTrigger, sel, TriggerOf)
        && Accounts(s.byModel, sel, ModelOf) && Accounts(s.byDay, sel, DayOf)
        && s.tickets == Agg(Where(sel, IsTicketRun)) && s.failed == Agg(Where(sel, Failed))
        && s.distinctTickets == |TicketsIn(Where(sel, IsTicketRun))|
        && s.avgPerTicket == Average(s.tickets.cost, s.distinctTickets)
        && s.recent == sel[..if recent < |sel| then recent else |sel|]
      ensures LabelledRows(s, Selected(runs, fromDay, toDay)) && PerTicket(s, Selected(runs, fromDay, toDay))
      ensures RowsInOrder(s)
    {
      hide Accounts, Agg, TicketsIn, LabelledRows, PerTicket, Average, RowsInOrder, StableSort;
      var rows := StableSort(runs, StartedLater);
      var sel: seq<Entry> := [];
      for i := 0 to |rows|
        invariant sel == Where(rows[..i], e => InRange(e, fromDay, toDay))
      {
        WhereStep(rows, i, e => InRange(e, fromDay, toDay));
        if !InRange(rows[i], fromDay, toDay) { continue; }
        sel := sel + [rows[i]];
      }
      assert rows[..|rows|] == rows;

      var tickets := Where(sel, IsTicketRun);
      var keys := TicketsIn(tickets);
      var byKind := Breakdown(sel, KindOf, TextBefore);
      var byTrigger := Breakdown(sel, TriggerOf, TextBefore);
      var byModel := Breakdown(sel, ModelOf, TextBefore);
      var byDay := Breakdown(sel, DayOf, DayBefore);
      s := Stats(Agg(sel), Agg(tickets), |keys|, Average(Agg(tickets).cost, |keys|), Agg(Where(sel, Failed)),
                 byKind, byTrigger, byModel, byDay, sel[..if recent < |sel| then recent else |sel|]);
      RowLabels(s, sel);
      RowOrder(s, sel);
      CostPerTicket(s, sel);
    }
  }

  lemma AverageIs(cost: real, n: nat)
    ensures Average(cost, n) * n as real == if n == 0 then 0.0 else cost
  {
  }

  /** The runs a ticket is charged for are its investigations and its fixes. */
  lemma TicketRuns(items: seq<Entry>)
    ensures forall e :: e in Where(items, IsTicketRun) <==> e in items && (e.kind == "rca" || e.kind == "fix")
    ensures forall e :: e in Where(items, Failed) <==> e in items && e.status == "failed"
    ensures TicketsIn(Where(items, IsTicketRun))
         == set e | e in items && (e.kind == "rca" || e.kind == "fix") && e.ticket != "" :: e.ticket
  {
    forall e
      ensures e in Where(items, IsTicketRun) <==> e in items && (e.kind == "rca" || e.kind == "fix")
      ensures e in Where(items, Failed) <==> e in items && e.status == "failed"
    {
      WhereFinds(items, IsTicketRun, e);
      WhereFinds(items, Failed, e);
    }
  }

  lemma CostPerTicket(s: Stats, sel: seq<Entry>)
    requires s.distinctTickets == |TicketsIn(Where(sel, IsTicketRun))|
    requires s.avgPerTicket == Average(s.tickets.cost, s.distinctTickets)
    ensures PerTicket(s, sel)
  {
    TicketRuns(sel);
    AverageIs(s.tickets.cost, s.distinctTickets);
  }

  // --- parts and wholes ------------------------------------------------------------------------------

  /** The tally of those with property `p` among the first `n`. */
  function AggWhere(items: seq<Entry>, n: nat, p: Entry -> bool): Tally
    requires n <= |items|
  {
    if n == 0 then TALLIES.zero
    else
      var before := AggWhere(items, n - 1, p);
      if p(items[n - 1]) then Add(before, TallyOf(items[n - 1])) else before
  }

  lemma {:induction false} AggOfWhere(items: seq<Entry>, n: nat, p: Entry -> bool)
    requires n <= |items|
    ensures Agg(Where(items[..n], p)) == AggWhere(items, n, p)
    decreases n
  {
    if n > 0 {
      AggOfWhere(items, n - 1, p);
      WhereStep(items, n - 1, p);
      assert Where(items[..n - 1], p) + [] == Where(items[..n - 1], p);
    }
  }

  /** What has `p` has one of `q` and `r`, never both. */
  predicate Parts(p: Entry -> bool, q: Entry -> bool, r: Entry -> bool, e: Entry) {
    (p(e) <==> q(e) || r(e)) && !(q(e) && r(e))
  }

  lemma {:induction false} SplitsUpTo(items: seq<Entry>, p: Entry -> bool, q: Entry -> bool, r: Entry -> bool)
    requires forall e :: e in items ==> Parts(p, q, r, e)
    ensures AggWhere(items, |items|, p) == Add(AggWhere(items, |items|, q), AggWhere(items, |items|, r))
  {
    for n := 0 to |items|
      invariant AggWhere(items, n, p) == Add(AggWhere(items, n, q), AggWhere(items, n, r))
    {
      assert items[n] in items;
    }
  }

  /** When `q` and `r` split `p`, their tallies add up to its tally. */
  lemma {:induction false} Splits(items: seq<Entry>, p: Entry -> bool, q: Entry -> bool, r: Entry -> bool)
    requires forall e :: e in items ==> Parts(p, q, r, e)
    ensures Agg(Where(items, p)) == Add(Agg(Where(items, q)), Agg(Where(items, r)))
  {
    var n := |items|;
    SplitsUpTo(items, p, q, r);
    AggOfWhere(items, n, p);
    AggOfWhere(items, n, q);
    AggOfWhere(items, n, r);
    assert items[..n] == items;
  }

  /** Ticket spend and the rest are kept apart and make up the whole. */
  lemma TicketsAreApart(items: seq<Entry>)
    ensures Agg(items) == Add(Agg(Where(items, IsTicketRun)), Agg(Where(items, e => !IsTicketRun(e))))
  {
    Splits(items, e => true, IsTicketRun, e => !IsTicketRun(e));
    WhereAll(items);
  }

  lemma {:induction false} WhereAll(items: seq<Entry>)
    ensures Where(items, e => true) == items
    decreases items
  {
    if items != [] { WhereAll(items[1..]); }
  }

  /** Adjoining date ranges add up: nothing is counted twice and nothing falls between them. */
  lemma AdjoiningRangesAddUp(runs: seq<Entry>, fromDay: Option<int>, mid: int, toDay: Option<int>)
    requires (fromDay.Some? ==> fromDay.value <= mid) && (toDay.Some? ==> mid <= toDay.value)
    ensures Agg(Selected(runs, fromDay, toDay))
         == Add(Agg(Selected(runs, fromDay, Some(mid))), Agg(Selected(runs, Some(mid + 1), toDay)))
  {
    var rows := StableSort(runs, StartedLater);
    var p: Entry -> bool := e => InRange(e, fromDay, toDay);
    var q: Entry -> bool := e => InRange(e, fromDay, Some(mid));
    var r: Entry -> bool := e => InRange(e, Some(mid + 1), toDay);
    forall e | e in rows
      ensures Parts(p, q, r, e)
    {
    }
    Splits(rows, p, q, r);
  }
}
