/**
  The Auto-RCA caps over whole runs (autorun.Poller.tick against db.claim_auto_run): every
  ticket at once, other writers interleaved.
 */
module PollerCaps {
  import opened Basics
  import opened ReviewStore
  import opened Lifecycle

  /** `ist_day_start_utc`: midnight IST of the day `now` falls in, back in UTC. */
  function IstDayStart(now: int): int {
    now + IST_OFFSET - (now + IST_OFFSET) % DAY - IST_OFFSET
  }

  /** The cap's string comparison on `auto_run_at` is a comparison of days that begin at 18:30 UTC. */
  lemma SinceMidnightIst(t: int, now: int)
    ensures t >= IstDayStart(now) <==> IstDay(t) >= IstDay(now)
    ensures IstDay(t) == (t + 5 * 3600 + 30 * 60) / 86400
    ensures now - 86400 < IstDayStart(now) <= now && (IstDayStart(now) - 18 * 3600 - 30 * 60) % 86400 == 0
  {
    var n, s := now + IST_OFFSET, t + IST_OFFSET;
    assert n == n / DAY * DAY + n % DAY && s == s / DAY * DAY + s % DAY;
  }

  type TickId = nat

  datatype Caps = Caps(maxParallel: int, dailyCap: nat)

  /** How far one `tick` has come between its store calls. */
  datatype Tick =
    | Begun(now: int)
    | CountedRunning(now: int, running: nat)
    | Claiming(now: int, slots: int, launched: nat)

  /** Every ticket, the clock in whole seconds UTC, and the ticks under way. */
  datatype World = World(tickets: map<Key, Ticket>, clock: int, ticks: map<TickId, Tick>)

  datatype Action =
    | Arrive(k: Key, fields: JiraFields)
    | On(k: Key, e: Event)
    | Advance(seconds: nat)
    | TickBegin(id: TickId)
    | CountRunning(id: TickId)
    | CountToday(id: TickId)
    | Claim(id: TickId, k: Key, tid: ThreadId)
    | TickEnd(id: TickId)
    | RestartAll

  function RunningAuto(w: World): set<Key> {
    set k | k in w.tickets && w.tickets[k].row.status.Running? && w.tickets[k].row.trigger == Some(Auto)
  }

  /** `count_auto_runs_today` counts these. */
  function ClaimedSince(w: World, start: int): set<Key> {
    set k | k in w.tickets && w.tickets[k].row.autoRunAt.Some?
            && w.tickets[k].row.autoRunAt.value >= start
  }

  function ClaimedOn(w: World, day: int): set<Key> {
    set k | k in w.tickets && w.tickets[k].row.autoRunAt.Some?
            && IstDay(w.tickets[k].row.autoRunAt.value) == day
  }

  function Min(a: int, b: int): int { if a < b then a else b }

  function Max(a: int, b: int): int { if a < b then b else a }

  predicate Enabled(w: World, a: Action) {
    match a
    case Arrive(k, _) => k !in w.tickets
    case On(k, e) => k in w.tickets && !e.AutoClaim? && Lifecycle.Enabled(w.tickets[k], e)
    case TickBegin(id) => id !in w.ticks
    case CountRunning(id) => id in w.ticks && w.ticks[id].Begun?
    case CountToday(id) => id in w.ticks && w.ticks[id].CountedRunning?
    case Claim(id, k, tid) => id in w.ticks && w.ticks[id].Claiming? && k in w.tickets
                              && tid !in w.tickets[k].rcas
    case TickEnd(id) => id in w.ticks
    case _ => true
  }

  /** A claim, successful or lost; the tick stops by itself once its slots are used up. */
  function ClaimStep(w: World, id: TickId, k: Key, tid: ThreadId): World
    requires Enabled(w, Claim(id, k, tid))
  {
    if !AutoClaimable(w.tickets[k].row) then w else
    var t := w.ticks[id];
    w.(tickets := w.tickets[k := AutoClaimStep(w.tickets[k], tid, w.clock)],
       ticks := if t.launched + 1 >= t.slots then w.ticks - {id}
                else w.ticks[id := t.(launched := t.launched + 1)])
  }

  function CountTodayStep(w: World, id: TickId, caps: Caps): World
    requires Enabled(w, CountToday(id))
  {
    var t := w.ticks[id];
    var slots := Min(caps.maxParallel - t.running,
                     caps.dailyCap - |ClaimedSince(w, IstDayStart(t.now))|);
    w.(ticks := if slots <= 0 then w.ticks - {id} else w.ticks[id := Claiming(t.now, slots, 0)])
  }

  function Step(w: World, a: Action, caps: Caps): World
    requires Enabled(w, a)
  {
    match a
    case Arrive(k, f) => w.(tickets := w.tickets[k := Fresh(f)])
    case On(k, e) => w.(tickets := w.tickets[k := Lifecycle.Step(w.tickets[k], e)])
    case Advance(s) => w.(clock := w.clock + s)
    case TickBegin(id) => w.(ticks := w.ticks[id := Begun(w.clock)])
    case CountRunning(id) =>
      w.(ticks := w.ticks[id := CountedRunning(w.ticks[id].now, |RunningAuto(w)|)])
    case CountToday(id) => CountTodayStep(w, id, caps)
    case Claim(id, k, tid) => ClaimStep(w, id, k, tid)
    case TickEnd(id) => w.(ticks := w.ticks - {id})
    case RestartAll =>
      w.(tickets := map k | k in w.tickets :: RestartStep(w.tickets[k], k), ticks := map[])
  }

  predicate Feasible(w: World, acts: seq<Action>, caps: Caps)
    decreases acts
  {
    acts == [] || (Enabled(w, acts[0]) && Feasible(Step(w, acts[0], caps), acts[1..], caps))
  }

  function Exec(w: World, acts: seq<Action>, caps: Caps): World
    requires Feasible(w, acts, caps)
    decreases acts
  {
    if acts == [] then w else Exec(Step(w, acts[0], caps), acts[1..], caps)
  }

  /** A new tick begins only when no other is under way. */
  predicate Serialised(w: World, acts: seq<Action>, caps: Caps)
    requires Feasible(w, acts, caps)
    decreases acts
  {
    acts == [] || ((acts[0].TickBegin? ==> w.ticks == map[])
                   && Serialised(Step(w, acts[0], caps), acts[1..], caps))
  }

  // --- the invariant --------------------------------------------------------------------

  function SlotsFor(w: World, running: nat, now: int, caps: Caps): int {
    Min(caps.maxParallel - running, caps.dailyCap - |ClaimedSince(w, IstDayStart(now))|)
  }

  /** A tick that will not claim any more, whatever happens: stamps are never taken back. */
  predicate Spent(w: World, t: Tick, caps: Caps) {
    match t
    case Begun(now) => caps.maxParallel <= 0 || |ClaimedSince(w, IstDayStart(now))| >= caps.dailyCap
    case CountedRunning(now, running) => SlotsFor(w, running, now, caps) <= 0
    case Claiming(_, _, _) => false
  }

  ghost predicate TickSound(w: World, t: Tick, caps: Caps) {
    && (t.CountedRunning? ==> |RunningAuto(w)| <= t.running)
    && (t.Claiming? ==>
          && t.launched < t.slots
          && |RunningAuto(w)| + t.slots - t.launched <= caps.maxParallel
          && |ClaimedSince(w, IstDayStart(t.now))| + t.slots - t.launched <= caps.dailyCap)
  }

  /** At most one tick can still claim, and it knows what the others do not change. */
  ghost predicate CapInv(w: World, caps: Caps) {
    && (forall i, j :: i in w.ticks && j in w.ticks && !Spent(w, w.ticks[i], caps) && !Spent(w, w.ticks[j], caps)
          ==> i == j)
    && (forall i :: i in w.ticks ==> w.ticks[i].now <= w.clock)
    && (forall i :: i in w.ticks && !Spent(w, w.ticks[i], caps) ==> TickSound(w, w.ticks[i], caps))
    && (forall d :: |ClaimedOn(w, d)| <= caps.dailyCap)
  }

  lemma OneMoreCard<T>(s: set<T>, t: set<T>, x: T)
    requires s <= t + {x}
    ensures |s| <= |t| + 1
  {
    SubsetCard(s - {x}, t);
  }

  predicate RunsAuto(r: Row) {
    r.status.Running? && r.trigger == Some(Auto)
  }

  /** The stamp stands and the row runs automatically only if it did before. */
  predicate QuietRow(r: Row, r': Row) {
    r'.autoRunAt == r.autoRunAt && (RunsAuto(r') ==> RunsAuto(r))
  }

  /** Nothing but the poller's claim stamps a ticket or makes it run automatically. */
  lemma OnlyClaimsStamp(t: Ticket, e: Event)
    requires Lifecycle.Enabled(t, e) && !e.AutoClaim?
    ensures QuietRow(t.row, Lifecycle.Step(t, e).row)
  {
    hide JobStep, RcaStep;
    if !e.ClickRca? { StepKeepsStamp(t, e); }
  }

  ghost predicate Quiet(m: map<Key, Ticket>, m': map<Key, Ticket>) {
    && (forall k :: k in m ==> k in m' && QuietRow(m[k].row, m'[k].row))
    && (forall k :: k in m' && k !in m ==> m'[k].row.autoRunAt == None && !RunsAuto(m'[k].row))
  }

  lemma QuietSets(w: World, w': World)
    requires Quiet(w.tickets, w'.tickets)
    ensures RunningAuto(w') <= RunningAuto(w)
    ensures forall s :: ClaimedSince(w', s) == ClaimedSince(w, s)
    ensures forall d :: ClaimedOn(w', d) == ClaimedOn(w, d)
  {
  }

  lemma NonClaimIsQuiet(w: World, a: Action, caps: Caps)
    requires Enabled(w, a) && !a.Claim?
    ensures Quiet(w.tickets, Step(w, a, caps).tickets)
  {
    hide Lifecycle.Step;
    if a.On? {
      OnlyClaimsStamp(w.tickets[a.k], a.e);
    } else if a.RestartAll? {
      forall k | k in w.tickets
        ensures QuietRow(w.tickets[k].row, RestartStep(w.tickets[k], k).row)
      {
      }
    }
  }

  predicate AllSpent(w: World, caps: Caps) {
    forall i :: i in w.ticks ==> Spent(w, w.ticks[i], caps)
  }

  /** Where a tick stands after somebody's step: what is spent stays spent, what is sound stays sound. */
  lemma TickAfter(w: World, a: Action, caps: Caps, i: TickId)
    requires CapInv(w, caps) && Enabled(w, a) && !a.Claim? && i in Step(w, a, caps).ticks
    ensures var w' := Step(w, a, caps);
      && w'.ticks[i].now <= w'.clock
      && (!Spent(w', w'.ticks[i], caps) ==>
            && TickSound(w', w'.ticks[i], caps)
            && ((i in w.ticks && !Spent(w, w.ticks[i], caps)) || (a.TickBegin? && a.id == i)))
  {
    hide Quiet, RunningAuto, ClaimedOn, ClaimedSince, Lifecycle.Step, RestartStep;
    var w' := Step(w, a, caps);
    NonClaimIsQuiet(w, a, caps);
    QuietSets(w, w');
    SubsetCard(RunningAuto(w'), RunningAuto(w));
    assert ClaimedSince(w', IstDayStart(w'.ticks[i].now)) == ClaimedSince(w, IstDayStart(w'.ticks[i].now));
  }

  lemma NonClaimKeeps(w: World, a: Action, caps: Caps)
    requires CapInv(w, caps) && Enabled(w, a) && !a.Claim? && (a.TickBegin? ==> AllSpent(w, caps))
    ensures CapInv(Step(w, a, caps), caps)
    ensures |RunningAuto(Step(w, a, caps))| <= |RunningAuto(w)|
  {
    hide Quiet, Step, Spent, TickSound, RunningAuto, ClaimedOn, ClaimedSince;
    var w' := Step(w, a, caps);
    NonClaimIsQuiet(w, a, caps);
    QuietSets(w, w');
    SubsetCard(RunningAuto(w'), RunningAuto(w));
    forall i | i in w'.ticks
      ensures w'.ticks[i].now <= w'.clock
      ensures !Spent(w', w'.ticks[i], caps) ==> TickSound(w', w'.ticks[i], caps)
      ensures !Spent(w', w'.ticks[i], caps) ==>
        (i in w.ticks && !Spent(w, w.ticks[i], caps)) || (a.TickBegin? && a.id == i)
    {
      TickAfter(w, a, caps, i);
    }
  }

  lemma ClaimKeepsDays(w: World, id: TickId, k: Key, tid: ThreadId, caps: Caps, d: int)
    requires CapInv(w, caps) && Enabled(w, Claim(id, k, tid)) && AutoClaimable(w.tickets[k].row)
    ensures |ClaimedOn(ClaimStep(w, id, k, tid), d)| <= caps.dailyCap
  {
    var w' := ClaimStep(w, id, k, tid);
    var t := w.ticks[id];
    var start := IstDayStart(t.now);
    assert !Spent(w, t, caps) && TickSound(w, t, caps);
    OneMoreCard(ClaimedSince(w', start), ClaimedSince(w, start), k);
    SinceMidnightIst(w.clock, t.now);
    if d < IstDay(t.now) {
      assert ClaimedOn(w', d) <= ClaimedOn(w, d);
      SubsetCard(ClaimedOn(w', d), ClaimedOn(w, d));
    } else {
      forall x | x in ClaimedOn(w', d)
        ensures x in ClaimedSince(w', start)
      {
        SinceMidnightIst(w'.tickets[x].row.autoRunAt.value, t.now);
      }
      SubsetCard(ClaimedOn(w', d), ClaimedSince(w', start));
    }
  }

  lemma SpentStays(w: World, w': World, t: Tick, caps: Caps)
    requires Spent(w, t, caps) && ClaimedSince(w, IstDayStart(t.now)) <= ClaimedSince(w', IstDayStart(t.now))
    ensures Spent(w', t, caps)
  {
    SubsetCard(ClaimedSince(w, IstDayStart(t.now)), ClaimedSince(w', IstDayStart(t.now)));
  }

  lemma ClaimKeepsTicks(w: World, id: TickId, k: Key, tid: ThreadId, caps: Caps, i: TickId)
    requires CapInv(w, caps) && Enabled(w, Claim(id, k, tid)) && AutoClaimable(w.tickets[k].row)
    requires i in ClaimStep(w, id, k, tid).ticks
    ensures var w' := ClaimStep(w, id, k, tid); if i == id then TickSound(w', w'.ticks[i], caps) else Spent(w', w'.ticks[i], caps)
  {
    var w' := ClaimStep(w, id, k, tid);
    var t := w.ticks[id];
    assert !Spent(w, t, caps) && TickSound(w, t, caps);
    if i == id {
      OneMoreCard(RunningAuto(w'), RunningAuto(w), k);
      OneMoreCard(ClaimedSince(w', IstDayStart(t.now)), ClaimedSince(w, IstDayStart(t.now)), k);
    } else {
      SpentStays(w, w', w.ticks[i], caps);
    }
  }

  lemma ClaimKeeps(w: World, id: TickId, k: Key, tid: ThreadId, caps: Caps)
    requires CapInv(w, caps) && Enabled(w, Claim(id, k, tid))
    ensures CapInv(ClaimStep(w, id, k, tid), caps)
    ensures |RunningAuto(ClaimStep(w, id, k, tid))| <= Max(|RunningAuto(w)|, caps.maxParallel)
  {
    var w' := ClaimStep(w, id, k, tid);
    if AutoClaimable(w.tickets[k].row) {
      assert !Spent(w, w.ticks[id], caps) && TickSound(w, w.ticks[id], caps);
      OneMoreCard(RunningAuto(w'), RunningAuto(w), k);
      forall i | i in w'.ticks
        ensures if i == id then TickSound(w', w'.ticks[i], caps) else Spent(w', w'.ticks[i], caps)
      {
        ClaimKeepsTicks(w, id, k, tid, caps, i);
      }
      forall d
        ensures |ClaimedOn(w', d)| <= caps.dailyCap
      {
        ClaimKeepsDays(w, id, k, tid, caps, d);
      }
    }
  }

  lemma {:induction false} SerialisedRunKeeps(w: World, acts: seq<Action>, caps: Caps)
    requires CapInv(w, caps) && Feasible(w, acts, caps) && Serialised(w, acts, caps)
    ensures CapInv(Exec(w, acts, caps), caps)
    ensures |RunningAuto(Exec(w, acts, caps))| <= Max(|RunningAuto(w)|, caps.maxParallel)
    decreases acts
  {
    if acts != [] {
      match acts[0] {
        case Claim(id, k, tid) => ClaimKeeps(w, id, k, tid, caps);
        case _ => NonClaimKeeps(w, acts[0], caps);
      }
      SerialisedRunKeeps(Step(w, acts[0], caps), acts[1..], caps);
    }
  }

  /**
    The caps as the panel promises them, for every run with serialised ticks: no IST day ever
    holds more than `dailyCap` automatic claims, even when a tick straddles midnight, and the
    automatic runs in flight never exceed `maxParallel` or what was running before.
   */
  lemma {:induction false} CapsHold(w: World, acts: seq<Action>, caps: Caps, day: int)
    requires w.ticks == map[] && (forall d :: |ClaimedOn(w, d)| <= caps.dailyCap)
    requires Feasible(w, acts, caps) && Serialised(w, acts, caps)
    ensures |ClaimedOn(Exec(w, acts, caps), day)| <= caps.dailyCap
    ensures |RunningAuto(Exec(w, acts, caps))| <= Max(|RunningAuto(w)|, caps.maxParallel)
  {
    SerialisedRunKeeps(w, acts, caps);
  }

  /** Some run leads from here to there. */
  ghost predicate Reaches(w: World, w': World, caps: Caps) {
    exists acts :: Feasible(w, acts, caps) && Exec(w, acts, caps) == w'
  }

  /** And one with serialised ticks. */
  ghost predicate ReachesSerially(w: World, w': World, caps: Caps) {
    exists acts :: Feasible(w, acts, caps) && Serialised(w, acts, caps) && Exec(w, acts, caps) == w'
  }

  lemma {:induction false} OneMoreAction(w: World, acts: seq<Action>, a: Action, caps: Caps)
    requires Feasible(w, acts, caps) && Enabled(Exec(w, acts, caps), a)
    ensures Feasible(w, acts + [a], caps) && Exec(w, acts + [a], caps) == Step(Exec(w, acts, caps), a, caps)
    ensures Serialised(w, acts, caps) && (a.TickBegin? ==> Exec(w, acts, caps).ticks == map[]) ==>
      Serialised(w, acts + [a], caps)
    decreases acts
  {
    if acts == [] {
      assert [a][1..] == [];
    } else {
      OneMoreAction(Step(w, acts[0], caps), acts[1..], a, caps);
      assert (acts + [a])[1..] == acts[1..] + [a];
    }
  }

  lemma StaysThere(w: World, caps: Caps)
    ensures Reaches(w, w, caps) && ReachesSerially(w, w, caps)
  {
    assert Feasible(w, [], caps) && Serialised(w, [], caps) && Exec(w, [], caps) == w;
  }

  lemma Then(w: World, w1: World, a: Action, caps: Caps)
    requires Enabled(w1, a)
    ensures Reaches(w, w1, caps) ==> Reaches(w, Step(w1, a, caps), caps)
    ensures ReachesSerially(w, w1, caps) && (a.TickBegin? ==> w1.ticks == map[]) ==>
      ReachesSerially(w, Step(w1, a, caps), caps)
  {
    if Reaches(w, w1, caps) {
      var acts :| Feasible(w, acts, caps) && Exec(w, acts, caps) == w1;
      OneMoreAction(w, acts, a, caps);
    }
    if ReachesSerially(w, w1, caps) && (a.TickBegin? ==> w1.ticks == map[]) {
      var acts :| Feasible(w, acts, caps) && Serialised(w, acts, caps) && Exec(w, acts, caps) == w1;
      OneMoreAction(w, acts, a, caps);
    }
  }

  // --- the calls of a tick up to its claims ------------------------------------------------

  lemma Begins(w0: World, w: World, ticks: map<TickId, Tick>, id: TickId, caps: Caps)
    requires id !in ticks
    ensures var w1, w2 := w.(ticks := ticks), w.(ticks := ticks[id := Begun(w.clock)]);
      && (Reaches(w0, w1, caps) ==> Reaches(w0, w2, caps))
      && (ticks == map[] && ReachesSerially(w0, w1, caps) ==> ReachesSerially(w0, w2, caps))
  {
    hide Reaches, ReachesSerially;
    Then(w0, w.(ticks := ticks), TickBegin(id), caps);
  }

  lemma CountsRunning(w0: World, w: World, ticks: map<TickId, Tick>, id: TickId, caps: Caps)
    requires id in ticks && ticks[id].Begun?
    ensures var w1 := w.(ticks := ticks);
      var w2 := w.(ticks := ticks[id := CountedRunning(ticks[id].now, |RunningAuto(w)|)]);
      && (Reaches(w0, w1, caps) ==> Reaches(w0, w2, caps))
      && (ReachesSerially(w0, w1, caps) ==> ReachesSerially(w0, w2, caps))
  {
    hide Reaches, ReachesSerially;
    assert RunningAuto(w.(ticks := ticks)) == RunningAuto(w);
    Then(w0, w.(ticks := ticks), CountRunning(id), caps);
  }

  lemma CountsToday(w0: World, w: World, ticks: map<TickId, Tick>, id: TickId, caps: Caps)
    requires id in ticks && ticks[id].CountedRunning?
    requires SlotsFor(w, ticks[id].running, ticks[id].now, caps) > 0
    ensures var w1, t := w.(ticks := ticks), ticks[id];
      var w2 := w.(ticks := ticks[id := Claiming(t.now, SlotsFor(w, t.running, t.now, caps), 0)]);
      && (Reaches(w0, w1, caps) ==> Reaches(w0, w2, caps))
      && (ReachesSerially(w0, w1, caps) ==> ReachesSerially(w0, w2, caps))
  {
    hide Reaches, ReachesSerially;
    assert ClaimedSince(w.(ticks := ticks), IstDayStart(ticks[id].now)) == ClaimedSince(w, IstDayStart(ticks[id].now));
    Then(w0, w.(ticks := ticks), CountToday(id), caps);
  }

  // --- launches on new tickets -----------------------------------------------------------------

  /** No ticket is stamped in the future. */
  predicate StampsPast(w: World) {
    forall k :: k in w.tickets && w.tickets[k].row.autoRunAt.Some? ==> w.tickets[k].row.autoRunAt.value <= w.clock
  }

  lemma TodayIs(w: World)
    requires StampsPast(w)
    ensures ClaimedOn(w, IstDay(w.clock)) == ClaimedSince(w, IstDayStart(w.clock))
  {
    forall k | k in w.tickets && w.tickets[k].row.autoRunAt.Some?
      ensures IstDay(w.tickets[k].row.autoRunAt.value) <= IstDay(w.clock)
      ensures w.tickets[k].row.autoRunAt.value >= IstDayStart(w.clock)
         <==> IstDay(w.tickets[k].row.autoRunAt.value) >= IstDay(w.clock)
    {
      SinceMidnightIst(w.tickets[k].row.autoRunAt.value, w.clock);
    }
  }

  lemma {:induction false} StampsStayPast(w: World, acts: seq<Action>, caps: Caps)
    requires StampsPast(w) && Feasible(w, acts, caps)
    ensures StampsPast(Exec(w, acts, caps))
    decreases acts
  {
    if acts != [] {
      if !acts[0].Claim? { NonClaimIsQuiet(w, acts[0], caps); }
      StampsStayPast(Step(w, acts[0], caps), acts[1..], caps);
    }
  }

  const FIELDS := JiraFields(0, None, None, false, false)

  /** Some key no ticket has. */
  lemma FreshKey(keys: set<Key>) returns (k: Key)
    ensures k !in keys
  {
    var lengths: set<nat> := set x | x in keys :: |x|;
    var n := BoundOf(lengths);
    k := "AUT-" + seq(n, i => '1');
    assert k in keys ==> |k| in lengths;
  }

  function SlotsUsed(ticks: map<TickId, Tick>, id: TickId, n: nat): map<TickId, Tick>
    requires id in ticks && ticks[id].Claiming?
  {
    var t := ticks[id];
    if t.launched + n >= t.slots then ticks - {id} else ticks[id := t.(launched := t.launched + n)]
  }

  /** `n` more automatic runs than before, all claimed at this moment. */
  ghost predicate LaunchedMore(w: World, w': World, n: nat) {
    && w'.clock == w.clock && (StampsPast(w) ==> StampsPast(w'))
    && |RunningAuto(w')| == |RunningAuto(w)| + n
    && |ClaimedSince(w', IstDayStart(w.clock))| == |ClaimedSince(w, IstDayStart(w.clock))| + n
  }

  lemma ArrivalCounts(w: World, k: Key, caps: Caps)
    requires k !in w.tickets
    ensures var w1 := Step(w, Arrive(k, FIELDS), caps);
      && RunningAuto(w1) == RunningAuto(w) && (StampsPast(w) ==> StampsPast(w1))
      && forall s :: ClaimedSince(w1, s) == ClaimedSince(w, s)
  {
  }

  lemma OneMoreClaimed(w: World, w': World, k: Key)
    requires k in w.tickets && w'.tickets.Keys == w.tickets.Keys && w'.clock == w.clock
    requires forall x :: x in w.tickets && x != k ==> w'.tickets[x].row == w.tickets[x].row
    requires !w.tickets[k].row.status.Running? && w.tickets[k].row.autoRunAt.None?
    requires RunsAuto(w'.tickets[k].row) && w'.tickets[k].row.autoRunAt == Some(w.clock)
    ensures LaunchedMore(w, w', 1)
  {
    var start := IstDayStart(w.clock);
    SinceMidnightIst(w.clock, w.clock);
    hide IstDayStart;
    assert k !in RunningAuto(w) && k !in ClaimedSince(w, start);
    assert RunningAuto(w') == RunningAuto(w) + {k};
    assert ClaimedSince(w', start) == ClaimedSince(w, start) + {k};
  }

  lemma ClaimCounts(w: World, id: TickId, k: Key)
    requires k in w.tickets && AutoClaimable(w.tickets[k].row) && id in w.ticks && w.ticks[id].Claiming?
    requires w.tickets[k].rcas == map[]
    ensures LaunchedMore(w, ClaimStep(w, id, k, 0), 1)
    ensures ClaimStep(w, id, k, 0).ticks == SlotsUsed(w.ticks, id, 1)
  {
    hide LaunchedMore;
    OneMoreClaimed(w, ClaimStep(w, id, k, 0), k);
  }

  /** A new ticket comes in and the tick claims it. */
  lemma LaunchNew(w0: World, w: World, id: TickId, caps: Caps) returns (w': World)
    requires id in w.ticks && w.ticks[id].Claiming?
    ensures Reaches(w0, w, caps) ==> Reaches(w0, w', caps)
    ensures ReachesSerially(w0, w, caps) ==> ReachesSerially(w0, w', caps)
    ensures LaunchedMore(w, w', 1) && w'.ticks == SlotsUsed(w.ticks, id, 1)
  {
    hide Reaches, ReachesSerially, ClaimStep, RunningAuto, ClaimedSince, StampsPast;
    var k := FreshKey(w.tickets.Keys);
    ArrivalCounts(w, k, caps);
    Then(w0, w, Arrive(k, FIELDS), caps);
    var w1 := Step(w, Arrive(k, FIELDS), caps);
    ClaimCounts(w1, id, k);
    Then(w0, w1, Claim(id, k, 0), caps);
    w' := ClaimStep(w1, id, k, 0);
  }

  lemma LaunchesAdd(w: World, w1: World, w2: World, n: nat)
    requires LaunchedMore(w, w1, n) && LaunchedMore(w1, w2, 1)
    ensures LaunchedMore(w, w2, n + 1)
  {
  }

  lemma SlotsAdd(ticks: map<TickId, Tick>, id: TickId, n: nat)
    requires id in ticks && ticks[id].Claiming? && ticks[id].launched + n < ticks[id].slots
    ensures id in SlotsUsed(ticks, id, n) && SlotsUsed(ticks, id, n)[id].Claiming?
    ensures SlotsUsed(SlotsUsed(ticks, id, n), id, 1) == SlotsUsed(ticks, id, n + 1)
  {
    var t := ticks[id];
    assert ticks[id := t.(launched := t.launched + n)] - {id} == ticks - {id};
  }

  /** And so it does `n` times; its last slot ends it. */
  lemma {:induction false} LaunchMany(w0: World, w: World, id: TickId, n: nat, caps: Caps) returns (w': World)
    requires id in w.ticks && w.ticks[id].Claiming? && n <= w.ticks[id].slots - w.ticks[id].launched
    requires w.ticks[id].launched < w.ticks[id].slots
    ensures Reaches(w0, w, caps) ==> Reaches(w0, w', caps)
    ensures ReachesSerially(w0, w, caps) ==> ReachesSerially(w0, w', caps)
    ensures LaunchedMore(w, w', n) && w'.ticks == SlotsUsed(w.ticks, id, n)
    decreases n
  {
    if n == 0 {
      w' := w;
    } else {
      hide Reaches, ReachesSerially, LaunchedMore, SlotsUsed;
      var w1 := LaunchMany(w0, w, id, n - 1, caps);
      SlotsAdd(w.ticks, id, n - 1);
      w' := LaunchNew(w0, w1, id, caps);
      LaunchesAdd(w, w1, w', n - 1);
    }
  }

  // --- exactly when a tick may start beside others -------------------------------------------------

  /** Its own next calls lead it to a claim. */
  predicate Armed(w: World, t: Tick, caps: Caps) {
    match t
    case Begun(now) => SlotsFor(w, |RunningAuto(w)|, now, caps) > 0
    case CountedRunning(now, running) => SlotsFor(w, running, now, caps) > 0
    case Claiming(_, _, _) => true
  }

  /** No run from here, in which no further tick starts beside another, breaks a cap. */
  ghost predicate CapsKeptFrom(w: World, before: nat, caps: Caps) {
    forall acts :: Feasible(w, acts, caps) && Serialised(w, acts, caps) ==>
      var w' := Exec(w, acts, caps);
      |RunningAuto(w')| <= Max(before, caps.maxParallel) && forall d :: |ClaimedOn(w', d)| <= caps.dailyCap
  }

  /** An armed tick gets to its claims. */
  lemma GetsToClaim(w0: World, w: World, ticks: map<TickId, Tick>, i: TickId, caps: Caps) returns (c: Tick)
    requires i in ticks && Armed(w, ticks[i], caps) && (ticks[i].Claiming? ==> ticks[i].launched < ticks[i].slots)
    requires ReachesSerially(w0, w.(ticks := ticks), caps)
    ensures c.Claiming? && c.launched < c.slots && ReachesSerially(w0, w.(ticks := ticks[i := c]), caps)
  {
    hide ReachesSerially, RunningAuto, ClaimedSince;
    var t := ticks[i];
    match t
    case Claiming(_, _, _) =>
      c := t;
      assert ticks[i := c] == ticks;
    case CountedRunning(now, running) =>
      CountsToday(w0, w, ticks, i, caps);
      c := Claiming(now, SlotsFor(w, running, now, caps), 0);
    case Begun(now) =>
      var ticks1 := ticks[i := CountedRunning(now, |RunningAuto(w)|)];
      CountsRunning(w0, w, ticks, i, caps);
      CountsToday(w0, w, ticks1, i, caps);
      c := Claiming(now, SlotsFor(w, |RunningAuto(w)|, now, caps), 0);
      assert ticks1[i := c] == ticks[i := c];
  }

  lemma LaterDayHasFewer(w: World, now: int)
    requires now <= w.clock
    ensures |ClaimedSince(w, IstDayStart(w.clock))| <= |ClaimedSince(w, IstDayStart(now))|
  {
    SinceMidnightIst(IstDayStart(w.clock), now);
    SinceMidnightIst(w.clock, now);
    SinceMidnightIst(w.clock, w.clock);
    assert IstDayStart(now) <= IstDayStart(w.clock);
    SubsetCard(ClaimedSince(w, IstDayStart(w.clock)), ClaimedSince(w, IstDayStart(now)));
  }

  /** Beside an armed tick there is room for one that starts now. */
  lemma RoomForAnother(w: World, i: TickId, caps: Caps)
    requires CapInv(w, caps) && i in w.ticks && Armed(w, w.ticks[i], caps)
    ensures SlotsFor(w, |RunningAuto(w)|, w.clock, caps) > 0
    ensures w.ticks[i].Claiming? ==> w.ticks[i].launched < w.ticks[i].slots
  {
    hide RunningAuto, ClaimedSince, ClaimedOn;
    LaterDayHasFewer(w, w.ticks[i].now);
    assert !Spent(w, w.ticks[i], caps) && TickSound(w, w.ticks[i], caps);
  }

  lemma TicksOnly(w: World, ticks: map<TickId, Tick>)
    ensures RunningAuto(w.(ticks := ticks)) == RunningAuto(w)
    ensures forall s :: ClaimedSince(w.(ticks := ticks), s) == ClaimedSince(w, s)
    ensures StampsPast(w.(ticks := ticks)) <==> StampsPast(w)
  {
  }

  /** Both get to their claims before either makes one. */
  lemma BothGetSlots(w: World, i: TickId, id: TickId, caps: Caps) returns (w': World)
    requires CapInv(w, caps) && i in w.ticks && Armed(w, w.ticks[i], caps) && id !in w.ticks
    ensures ReachesSerially(Step(w, TickBegin(id), caps), w', caps)
    ensures i in w'.ticks && w'.ticks[i].Claiming? && w' == w.(ticks := w'.ticks)
    ensures id in w'.ticks && w'.ticks[id] == Claiming(w.clock, SlotsFor(w, |RunningAuto(w)|, w.clock, caps), 0)
  {
    RoomForAnother(w, i, caps);
    hide ReachesSerially, RunningAuto, ClaimedSince, CapInv;
    var w1 := Step(w, TickBegin(id), caps);
    var t1 := w.ticks[id := Begun(w.clock)];
    StaysThere(w1, caps);
    assert w1 == w.(ticks := t1);
    var c := GetsToClaim(w1, w, t1, i, caps);
    var t2 := t1[i := c];
    var t3 := t2[id := CountedRunning(w.clock, |RunningAuto(w)|)];
    CountsRunning(w1, w, t2, id, caps);
    CountsToday(w1, w, t3, id, caps);
    w' := w.(ticks := t3[id := Claiming(w.clock, SlotsFor(w, |RunningAuto(w)|, w.clock, caps), 0)]);
  }

  /** The new tick uses up its slots on new tickets, then the old one claims one more. */
  lemma BesideArmedIsFatal(w: World, i: TickId, id: TickId, caps: Caps) returns (w': World)
    requires CapInv(w, caps) && StampsPast(w) && i in w.ticks && Armed(w, w.ticks[i], caps) && id !in w.ticks
    ensures ReachesSerially(Step(w, TickBegin(id), caps), w', caps) && w'.clock == w.clock
    ensures |RunningAuto(w')| > Max(|RunningAuto(w)|, caps.maxParallel)
         || |ClaimedOn(w', IstDay(w.clock))| > caps.dailyCap
  {
    RoomForAnother(w, i, caps);
    hide ReachesSerially, RunningAuto, ClaimedSince, ClaimedOn, CapInv, Armed, StampsPast, Step;
    var w0 := Step(w, TickBegin(id), caps);
    var w1 := BothGetSlots(w, i, id, caps);
    TicksOnly(w, w1.ticks);
    var n := SlotsFor(w, |RunningAuto(w)|, w.clock, caps);
    var w2 := LaunchMany(w0, w1, id, n, caps);
    var w3 := LaunchNew(w0, w2, i, caps);
    TodayIs(w3);
    w' := w3;
  }

  /**
    Exactly when a tick may start, if every tick under way is spent or armed: all later runs keep
    both caps iff none is armed.
   */
  lemma {:induction false} BeginIsSafeIff(w: World, id: TickId, caps: Caps)
    requires CapInv(w, caps) && StampsPast(w) && id !in w.ticks
    requires forall i :: i in w.ticks ==> Spent(w, w.ticks[i], caps) || Armed(w, w.ticks[i], caps)
    ensures CapsKeptFrom(Step(w, TickBegin(id), caps), |RunningAuto(w)|, caps) <==> AllSpent(w, caps)
  {
    var w0 := Step(w, TickBegin(id), caps);
    hide Step, RunningAuto, ClaimedOn, Spent, Armed, StampsPast;
    if AllSpent(w, caps) {
      NonClaimKeeps(w, TickBegin(id), caps);
      forall acts | Feasible(w0, acts, caps) && Serialised(w0, acts, caps)
        ensures |RunningAuto(Exec(w0, acts, caps))| <= Max(|RunningAuto(w)|, caps.maxParallel)
        ensures CapInv(Exec(w0, acts, caps), caps)
      {
        SerialisedRunKeeps(w0, acts, caps);
      }
    } else {
      var i :| i in w.ticks && !Spent(w, w.ticks[i], caps);
      var w' := BesideArmedIsFatal(w, i, id, caps);
      var acts :| Feasible(w0, acts, caps) && Serialised(w0, acts, caps) && Exec(w0, acts, caps) == w';
    }
  }

  // --- from nothing -------------------------------------------------------------------------------

  const EMPTY: World := World(map[], 0, map[])

  /** Two ticks that have both counted before either claims. */
  lemma BothCount(k: nat, caps: Caps) returns (w: World)
    requires 0 < k == Min(caps.maxParallel, caps.dailyCap)
    ensures Reaches(EMPTY, w, caps) && w == EMPTY.(ticks := map[0 := Claiming(0, k, 0), 1 := Claiming(0, k, 0)])
  {
    NobodyRuns();
    StaysThere(EMPTY, caps);
    hide Reaches, RunningAuto, ClaimedSince;
    var begun, counted, go := Begun(0), CountedRunning(0, 0), Claiming(0, k, 0);
    var t0: map<TickId, Tick> := map[];
    var t2 := t0[0 := begun][1 := begun];
    var t4 := t2[0 := counted][1 := counted];
    Begins(EMPTY, EMPTY, t0, 0, caps);
    Begins(EMPTY, EMPTY, t0[0 := begun], 1, caps);
    CountsRunning(EMPTY, EMPTY, t2, 0, caps);
    CountsRunning(EMPTY, EMPTY, t2[0 := counted], 1, caps);
    CountsToday(EMPTY, EMPTY, t4, 0, caps);
    CountsToday(EMPTY, EMPTY, t4[0 := go], 1, caps);
    w := EMPTY.(ticks := t4[0 := go][1 := go]);
  }

  lemma NobodyRuns()
    ensures |RunningAuto(EMPTY)| == |ClaimedSince(EMPTY, IstDayStart(0))| == 0 && StampsPast(EMPTY)
  {
  }

  predicate TwiceTheSmallerCap(w: World, caps: Caps) {
    var k := Min(caps.maxParallel, caps.dailyCap);
    |RunningAuto(w)| == 2 * k && |ClaimedOn(w, 0)| == 2 * k
  }

  /**
    Ticks that overlap, as "Poll now" beside the poller loop can, break the smaller cap whatever
    the caps are: both count before either claims, and together they launch twice as much.
   */
  lemma OverlappingTicksBreakTheCaps(caps: Caps)
    requires caps.maxParallel >= 1 && caps.dailyCap >= 1
    ensures exists w :: Reaches(EMPTY, w, caps) && TwiceTheSmallerCap(w, caps)
  {
    hide Reaches, RunningAuto, ClaimedSince, ClaimedOn, StampsPast;
    var k := Min(caps.maxParallel, caps.dailyCap);
    NobodyRuns();
    var w0 := BothCount(k, caps);
    TicksOnly(EMPTY, w0.ticks);
    var w1 := LaunchMany(EMPTY, w0, 0, k, caps);
    var w2 := LaunchMany(EMPTY, w1, 1, k, caps);
    TodayIs(w2);
    assert TwiceTheSmallerCap(w2, caps);
  }
}
