/**
  The sequential tick is one of the runs the caps are proved for: what `Poller.Tick` makes of
  the table is what a serialised run of the whole system makes of it, claim by claim.
 */
module TickRefinement {
  import opened Basics
  import opened ReviewStore
  import opened AutorunRules
  import opened AutorunTick
  import opened C = PollerCaps
  import L = Lifecycle

  function RowsOf(w: World): map<Key, Row> {
    map k | k in w.tickets :: w.tickets[k].row
  }

  /** The clock stands still during a sequential tick. */
  function Always(c: int): nat -> int {
    n => c
  }

  lemma SyncStep(w: World, i: Issue, caps: Caps) returns (a: Action)
    ensures Enabled(w, a) && !a.TickBegin?
    ensures var w' := Step(w, a, caps);
      && w'.ticks == w.ticks && w'.clock == w.clock && i.key in w'.tickets
      && RowsOf(w') == RowsOf(w)[i.key := Synced(i, Lookup(RowsOf(w), i.key))]
  {
    a := if i.key in w.tickets then On(i.key, L.Sync(i.fields)) else Arrive(i.key, i.fields);
  }

  lemma ClaimedRows(w: World, id: TickId, k: Key, tid: L.ThreadId)
    requires Enabled(w, Claim(id, k, tid)) && AutoClaimable(w.tickets[k].row)
    ensures var w' := ClaimStep(w, id, k, tid);
      && RowsOf(w') == RowsOf(w)[k := ClaimedAuto(RowsOf(w)[k], w.clock)] && w'.clock == w.clock
      && (w.ticks[id].launched + 1 < w.ticks[id].slots ==>
            id in w'.ticks && w'.ticks[id] == w.ticks[id].(launched := w.ticks[id].launched + 1))
  {
  }

  /** Sync and claim one hit inside a tick that still has a slot for it. */
  lemma LaunchOne(w0: World, w: World, i: Issue, s: Settings, caps: Caps) returns (w': World)
    requires ReachesSerially(w0, w, caps) && 0 in w.ticks && w.ticks[0].Claiming?
    requires Eligible(i, s, Lookup(RowsOf(w), i.key))
    ensures ReachesSerially(w0, w', caps)
    ensures RowsOf(w') == LaunchedRow(RowsOf(w), i, w.clock) && w'.clock == w.clock
    ensures w.ticks[0].launched + 1 < w.ticks[0].slots ==>
      0 in w'.ticks && w'.ticks[0] == w.ticks[0].(launched := w.ticks[0].launched + 1)
  {
    hide ReachesSerially, ClaimStep, Eligible, Synced, ClaimedAuto;
    EligibleIsClaimable(i, s, Lookup(RowsOf(w), i.key));
    var sync := SyncStep(w, i, caps);
    Then(w0, w, sync, caps);
    var w1 := Step(w, sync, caps);
    assert w1.tickets[i.key].row == RowsOf(w1)[i.key];
    var tid := BoundOf(w1.tickets[i.key].rcas.Keys);
    ClaimedRows(w1, 0, i.key, tid);
    Then(w0, w1, Claim(0, i.key, tid), caps);
    w' := ClaimStep(w1, 0, i.key, tid);
  }

  lemma {:induction false} LaunchAll(w0: World, w: World, go: seq<Issue>, s: Settings, caps: Caps) returns (w': World)
    requires ReachesSerially(w0, w, caps) && 0 in w.ticks && w.ticks[0].Claiming?
    requires w.ticks[0].launched == 0 && |go| <= w.ticks[0].slots
    requires forall i :: 0 <= i < |go| ==> Eligible(go[i], s, Lookup(RowsOf(w), go[i].key))
    requires forall i, j :: 0 <= i < j < |go| ==> go[i].key != go[j].key
    ensures ReachesSerially(w0, w', caps)
    ensures RowsOf(w') == Launched(RowsOf(w), go, Always(w.clock)) && w'.clock == w.clock
    ensures |go| < w.ticks[0].slots ==> 0 in w'.ticks && w'.ticks[0] == w.ticks[0].(launched := |go|)
    decreases go
  {
    hide ReachesSerially, Eligible;
    w' := w;
    if go != [] {
      var n := |go| - 1;
      var w1 := LaunchAll(w0, w, go[..n], s, caps);
      LaunchedFrame(RowsOf(w), go[..n], Always(w.clock), go[n].key);
      w' := LaunchOne(w0, w1, go[n], s, caps);
    }
  }

  /** The two counts and the slots they leave, before the first claim. */
  lemma TickOpens(w: World, s: Settings, caps: Caps) returns (w': World)
    requires w.ticks == map[] && s.dailyCap >= 0 && caps == Caps(s.maxParallel, s.dailyCap)
    requires SlotsLeft(s, RowsOf(w), w.clock) > 0
    ensures ReachesSerially(w, w', caps)
    ensures w' == w.(ticks := map[0 := Claiming(w.clock, SlotsLeft(s, RowsOf(w), w.clock), 0)])
  {
    StaysThere(w, caps);
    CountsAgree(w, IstDayStart(w.clock));
    hide ReachesSerially, RunningAuto, ClaimedSince, CountRunningAuto, CountClaimedSince;
    var t0: map<TickId, Tick> := map[];
    var t1 := t0[0 := Begun(w.clock)];
    var t2 := t1[0 := CountedRunning(w.clock, |RunningAuto(w)|)];
    Begins(w, w, t0, 0, caps);
    CountsRunning(w, w, t1, 0, caps);
    CountsToday(w, w, t2, 0, caps);
    w' := w.(ticks := t2[0 := Claiming(w.clock, SlotsLeft(s, RowsOf(w), w.clock), 0)]);
  }

  /** Claim by claim, a sequential tick is a serialised run of the system. */
  lemma TickIsASerialisedRun(w: World, s: Settings, hits: seq<Issue>)
    requires w.ticks == map[] && s.dailyCap >= 0
    ensures exists w' :: (
      && ReachesSerially(w, w', Caps(s.maxParallel, s.dailyCap))
      && RowsOf(w') == Launched(RowsOf(w), TickLaunches(s, hits, RowsOf(w), w.clock), Always(w.clock)))
  {
    hide ReachesSerially, Candidates;
    var caps := Caps(s.maxParallel, s.dailyCap);
    var go := TickLaunches(s, hits, RowsOf(w), w.clock);
    if go == [] {
      StaysThere(w, caps);
    } else {
      var w1 := TickOpens(w, s, caps);
      assert RowsOf(w1) == RowsOf(w);
      CandidatesFacts(ByCreated(hits), s, RowsOf(w));
      var w2 := LaunchAll(w, w1, go, s, caps);
    }
  }

  lemma CountsAgree(w: World, start: int)
    ensures CountRunningAuto(RowsOf(w)) == |RunningAuto(w)|
    ensures CountClaimedSince(RowsOf(w), start) == |ClaimedSince(w, start)|
  {
    var rows := RowsOf(w);
    assert (set k | k in rows && rows[k].status.Running? && rows[k].trigger == Some(Auto)) == RunningAuto(w);
    assert (set k | k in rows && rows[k].autoRunAt.Some? && rows[k].autoRunAt.value >= start)
        == ClaimedSince(w, start);
  }

  /** So the caps hold of what the tick leaves in the table. */
  lemma TickStaysWithinCaps(rows: map<Key, Row>, s: Settings, hits: seq<Issue>, now: int, day: int)
    requires s.dailyCap >= 0
    requires forall d :: CountClaimedOn(rows, d) <= s.dailyCap
    ensures var rows' := Launched(rows, TickLaunches(s, hits, rows, now), Always(now));
      CountRunningAuto(rows') <= Max(CountRunningAuto(rows), s.maxParallel)
      && CountClaimedOn(rows', day) <= s.dailyCap
  {
    var caps := Caps(s.maxParallel, s.dailyCap);
    var w := World(map k | k in rows :: L.Ticket(rows[k], map[], map[], {}, {}, {}, {}), now, map[]);
    assert RowsOf(w) == rows;
    TickIsASerialisedRun(w, s, hits);
    var w' :| ReachesSerially(w, w', caps)
      && RowsOf(w') == Launched(rows, TickLaunches(s, hits, rows, now), Always(now));
    var acts :| Feasible(w, acts, caps) && Serialised(w, acts, caps) && Exec(w, acts, caps) == w';
    forall d
      ensures |ClaimedOn(w, d)| <= caps.dailyCap
    {
      DayAgrees(w, d);
      assert CountClaimedOn(rows, d) <= s.dailyCap;
    }
    CapsHold(w, acts, caps, day);
    DayAgrees(w', day);
    CountsAgree(w, 0);
    CountsAgree(w', 0);
  }

  function CountClaimedOn(rows: map<Key, Row>, day: int): nat {
    |set k | k in rows && rows[k].autoRunAt.Some? && IstDay(rows[k].autoRunAt.value) == day|
  }

  lemma DayAgrees(w: World, day: int)
    ensures CountClaimedOn(RowsOf(w), day) == |ClaimedOn(w, day)|
  {
    var rows := RowsOf(w);
    assert (set k | k in rows && rows[k].autoRunAt.Some? && IstDay(rows[k].autoRunAt.value) == day)
        == ClaimedOn(w, day);
  }
}
