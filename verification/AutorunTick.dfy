/**
  rca_agent/webapp/autorun.py, `Poller.tick`: one poll, from the settings it reads to the
  investigations it launches.
 */
module AutorunTick {
  import opened Basics
  import opened Sorting
  import opened ReviewStore
  import opened AutorunRules
  import opened ReviewApp
  import C = PollerCaps
  import L = Lifecycle

  type Threads = map<Key, map<L.ThreadId, L.RcaPhase>>

  // --- creation order --------------------------------------------------------------------

  /** `sorted(...)`'s key: undated issues go last. */
  predicate Before(a: Issue, b: Issue) {
    a.created.Some? && (b.created.None? || a.created.value < b.created.value)
  }

  /** Python's stable sort by creation time. */
  function ByCreated(s: seq<Issue>): seq<Issue> {
    StableSort(s, Before)
  }

  predicate CreatedAt(i: Issue, c: Option<int>) {
    i.created == c
  }

  /** Creation order keeps every hit, once, and equal times in Jira's order. */
  lemma ByCreatedSorts(s: seq<Issue>, c: Option<int>)
    ensures Ordered(ByCreated(s), Before) && multiset(ByCreated(s)) == multiset(s)
    ensures Where(ByCreated(s), i => CreatedAt(i, c)) == Where(s, i => CreatedAt(i, c))
  {
    SortKeepsAll(s, Before);
    SortOrders(s, Before, i => CreatedAt(i, c));
  }

  // --- what a tick is meant to launch -------------------------------------------------------

  function Lookup(rows: map<Key, Row>, k: Key): Option<Row> {
    if k in rows then Some(rows[k]) else None
  }

  predicate SeenIn(k: Key, s: seq<Issue>) {
    exists i :: 0 <= i < |s| && s[i].key == k
  }

  /** The eligible issues in the order given, each key judged on its first hit only. */
  function Candidates(hits: seq<Issue>, s: Settings, rows: map<Key, Row>): seq<Issue> {
    if hits == [] then []
    else
      var init, last := hits[..|hits| - 1], hits[|hits| - 1];
      Candidates(init, s, rows)
      + if last.key != "" && !SeenIn(last.key, init) && Eligible(last, s, Lookup(rows, last.key))
        then [last] else []
  }

  /** The rows once these issues have been synced and claimed one after the other. */
  function Launched(rows: map<Key, Row>, issues: seq<Issue>, stamp: nat -> int): map<Key, Row> {
    if issues == [] then rows
    else
      var n := |issues| - 1;
      var before := Launched(rows, issues[..n], stamp);
      var i := issues[n];
      LaunchedRow(before, i, stamp(n))
  }

  function LaunchedRow(rows: map<Key, Row>, i: Issue, now: int): map<Key, Row> {
    rows[i.key := ClaimedAuto(Synced(i, Lookup(rows, i.key)), now)]
  }

  /** The threads once an investigation has been started for each of them, `tid` first. */
  function Investigations(rcas: Threads, issues: seq<Issue>, tid: L.ThreadId): Threads {
    if issues == [] then rcas
    else
      var n := |issues| - 1;
      Spawned(Investigations(rcas, issues[..n], tid), issues[n].key, tid + n)
  }

  /** The launched tickets, and only they, have one investigation more. */
  lemma {:induction false} OneInvestigationEach(rcas: Threads, issues: seq<Issue>, tid: L.ThreadId, k: Key)
    requires forall i, j :: 0 <= i < j < |issues| ==> issues[i].key != issues[j].key
    ensures !SeenIn(k, issues) ==> ThreadsAt(Investigations(rcas, issues, tid), k) == ThreadsAt(rcas, k)
    ensures forall n :: 0 <= n < |issues| && issues[n].key == k ==>
      ThreadsAt(Investigations(rcas, issues, tid), k) == ThreadsAt(rcas, k)[tid + n := L.Investigating]
    decreases issues
  {
    if issues != [] {
      var m := |issues| - 1;
      OneInvestigationEach(rcas, issues[..m], tid, k);
      if !SeenIn(k, issues) || issues[m].key == k {
        NotSeenBefore(issues, k);
      }
    }
  }

  lemma NotSeenBefore(issues: seq<Issue>, k: Key)
    requires issues != [] && forall i, j :: 0 <= i < j < |issues| ==> issues[i].key != issues[j].key
    requires !SeenIn(k, issues) || issues[|issues| - 1].key == k
    ensures !SeenIn(k, issues[..|issues| - 1])
  {
  }

  lemma {:induction false} CandidatesFacts(hits: seq<Issue>, s: Settings, rows: map<Key, Row>)
    ensures forall c :: c in Candidates(hits, s, rows) ==> c in hits && Eligible(c, s, Lookup(rows, c.key))
    ensures forall i, j :: 0 <= i < j < |Candidates(hits, s, rows)| ==>
              Candidates(hits, s, rows)[i].key != Candidates(hits, s, rows)[j].key
    decreases hits
  {
    if hits != [] {
      var init, last := hits[..|hits| - 1], hits[|hits| - 1];
      CandidatesFacts(init, s, rows);
      assert hits == init + [last];
      forall c | c in Candidates(init, s, rows)
        ensures SeenIn(c.key, init)
      {
        var k :| 0 <= k < |init| && init[k] == c;
      }
    }
  }

  lemma {:induction false} CandidatesPrefix(hits: seq<Issue>, k: nat, s: Settings, rows: map<Key, Row>)
    requires k <= |hits|
    ensures Candidates(hits[..k], s, rows) <= Candidates(hits, s, rows)
    decreases |hits| - k
  {
    if k < |hits| {
      CandidatesPrefix(hits, k + 1, s, rows);
      assert hits[..k + 1][..k] == hits[..k];
    } else {
      assert hits[..k] == hits;
    }
  }

  lemma {:induction false} LaunchedFrame(rows: map<Key, Row>, issues: seq<Issue>, stamp: nat -> int, k: Key)
    requires !SeenIn(k, issues)
    ensures Lookup(Launched(rows, issues, stamp), k) == Lookup(rows, k)
    decreases issues
  {
    if issues != [] {
      var n := |issues| - 1;
      assert issues[n].key != k;
      assert forall i :: 0 <= i < n ==> issues[..n][i] == issues[i];
      LaunchedFrame(rows, issues[..n], stamp, k);
    }
  }

  function CountRunningAuto(rows: map<Key, Row>): nat {
    |set k | k in rows && rows[k].status.Running? && rows[k].trigger == Some(Auto)|
  }

  function CountClaimedSince(rows: map<Key, Row>, start: int): nat {
    |set k | k in rows && rows[k].autoRunAt.Some? && rows[k].autoRunAt.value >= start|
  }

  function SlotsLeft(s: Settings, rows: map<Key, Row>, now: int): int {
    C.Min(s.maxParallel - CountRunningAuto(rows),
          s.dailyCap - CountClaimedSince(rows, C.IstDayStart(now)))
  }

  /** The hits one tick launches: the first candidates in creation order, as many as it has slots. */
  function TickLaunches(s: Settings, hits: seq<Issue>, rows: map<Key, Row>, now: int): seq<Issue> {
    var c := Candidates(ByCreated(hits), s, rows);
    var slots := SlotsLeft(s, rows, now);
    if !s.enabled || s.enabledAt.None? || slots <= 0 then []
    else c[..C.Min(slots, |c|)]
  }

  /** Every launch obeys every rule of the panel, and no ticket is launched twice. */
  lemma LaunchesObeyTheRules(s: Settings, hits: seq<Issue>, rows: map<Key, Row>, now: int, i: nat)
    requires i < |TickLaunches(s, hits, rows, now)|
    ensures var go := TickLaunches(s, hits, rows, now);
      && go[i] in hits && StartsWith(go[i].key, "AUT-") && !go[i].done && !go[i].qa
      && go[i].itype.Some? && go[i].itype.value in s.allowedTypes
      && go[i].created.Some? && go[i].created.value >= s.enabledAt.value
      && (go[i].key in rows ==> AutoClaimable(rows[go[i].key]))
      && |go| <= SlotsLeft(s, rows, now)
      && forall j :: 0 <= j < i ==> go[j].key != go[i].key && !Before(go[i], go[j])
  {
    var sorted := ByCreated(hits);
    var go := TickLaunches(s, hits, rows, now);
    ByCreatedSorts(hits, None);
    CandidatesFacts(sorted, s, rows);
    CandidatesOrdered(sorted, s, rows);
    assert go[i] in Candidates(sorted, s, rows);
    assert go[i] in multiset(sorted) && go[i] in multiset(hits);
  }

  lemma {:induction false} CandidatesOrdered(hits: seq<Issue>, s: Settings, rows: map<Key, Row>)
    requires Ordered(hits, Before)
    ensures Ordered(Candidates(hits, s, rows), Before)
    decreases hits
  {
    if hits != [] {
      var n := |hits| - 1;
      CandidatesOrdered(hits[..n], s, rows);
      CandidatesFacts(hits[..n], s, rows);
      forall c | c in Candidates(hits[..n], s, rows)
        ensures !Before(hits[n], c)
      {
        var k :| 0 <= k < n && hits[..n][k] == c;
      }
    }
  }

  datatype PollState = NotStarted | Disabled | Misconfigured | Unwatermarked | CapReached | SlotsBusy | Polled

  /** What the panel shows after a poll that was `before` and got this far. */
  function Outcome(s: Settings, hasJira: bool, found: bool, rows: map<Key, Row>, now: int, before: PollState): PollState {
    if !s.enabled then Disabled
    else if !hasJira then Misconfigured
    else if s.enabledAt.None? then Unwatermarked
    else if SlotsLeft(s, rows, now) <= 0 then
      if s.dailyCap - CountClaimedSince(rows, C.IstDayStart(now)) <= 0 then CapReached else SlotsBusy
    else if found then Polled else before
  }

  predicate Searches(s: Settings, hasJira: bool, rows: map<Key, Row>, now: int) {
    s.enabled && hasJira && s.enabledAt.Some? && SlotsLeft(s, rows, now) > 0
  }

  /** The answer to one hit, the row and the thread it leaves behind. */
  predicate Offered(launched: bool, issue: Issue, s: Settings, now: int, tid: L.ThreadId,
                    rows: map<Key, Row>, rcas: Threads, rows': map<Key, Row>, rcas': Threads) {
    && (launched <==> Eligible(issue, s, Lookup(rows, issue.key)))
    && rows' == (if launched then LaunchedRow(rows, issue, now) else rows)
    && rcas' == (if launched then Spawned(rcas, issue.key, tid) else rcas)
  }

  class Poller {
    const app: App
    var state: PollState
    var lastLaunched: nat

    constructor (app: App)
      ensures this.app == app && state == NotStarted
    {
      this.app := app;
      state, lastLaunched := NotStarted, 0;
    }

    /**
      One poll with nobody else writing.  `hits` is Jira's answer, `None` when the search
      raises; `stamp(n)` is the database clock at the tick's n-th claim, `tid` the id of its
      first thread.  Answers `None` when it raises.
     */
    method Tick(s: Settings, hasJira: bool, now: int, hits: Option<seq<Issue>>, stamp: nat -> int,
                tid: L.ThreadId)
      returns (launched: Option<nat>)
      modifies this, app`rcas, app.store
      ensures launched.None? <==> Searches(s, hasJira, old(app.store.rows), now) && hits.None?
      ensures var rows := old(app.store.rows);
        var go := if hasJira && hits.Some? then TickLaunches(s, hits.value, rows, now) else [];
        && (launched.Some? ==> launched.value == |go|)
        && app.store.rows == Launched(rows, go, stamp)
        && app.rcas == Investigations(old(app.rcas), go, tid)
      ensures state == Outcome(s, hasJira, hits.Some?, old(app.store.rows), now, old(state))
    {
      if !s.enabled {
        state := Disabled;
        return Some(0);
      }
      if !hasJira {
        state := Misconfigured;
        return Some(0);
      }
      if s.enabledAt.None? {
        state := Unwatermarked;
        return Some(0);
      }
      var running := CountRunningAuto(app.store.rows);
      var today := CountClaimedSince(app.store.rows, C.IstDayStart(now));
      var slots := C.Min(s.maxParallel - running, s.dailyCap - today);
      if slots <= 0 {
        state := if s.dailyCap - today <= 0 then CapReached else SlotsBusy;
        lastLaunched := 0;
        return Some(0);
      }
      if hits.None? { return None; }

      var count := LaunchFrom(ByCreated(hits.value), s, slots, stamp, tid);
      state, lastLaunched := Polled, count;
      return Some(count);
    }

    /** The loop over the hits: skip repeats, skip the ineligible, stop when the slots are used. */
    method LaunchFrom(issues: seq<Issue>, s: Settings, slots: int, stamp: nat -> int, tid: L.ThreadId)
      returns (count: nat)
      requires slots > 0
      modifies app`rcas, app.store
      ensures var c := Candidates(issues, s, old(app.store.rows));
              var go := c[..C.Min(slots, |c|)];
              && count == |go| && app.store.rows == Launched(old(app.store.rows), go, stamp)
              && app.rcas == Investigations(old(app.rcas), go, tid)
    {
      ghost var rows, rcas := app.store.rows, app.rcas;
      ghost var done: seq<Issue> := [];
      var seen: set<Key> := {};
      count := 0;
      var i := 0;
      while i < |issues| && count < slots
        invariant 0 <= i <= |issues| && count == |done| <= slots
        invariant Progress(issues[..i], s, seen, done, stamp, tid, rows, rcas, app.store.rows, app.rcas)
      {
        var issue := issues[i];
        if issue.key != "" && issue.key !in seen {
          ghost var seen', rows', rcas' := seen, app.store.rows, app.rcas;
          seen := seen + {issue.key};
          var launched := Offer(issue, s, stamp(count), tid + count);
          NextOffered(issues, i, s, seen', done, stamp, tid, rows, rcas, rows', rcas', launched, app.store.rows, app.rcas);
          if launched {
            count := count + 1;
            done := done + [issue];
          }
        } else {
          NextSkipped(issues, i, s, seen, done, stamp, tid, rows, rcas, app.store.rows, app.rcas);
        }
        i := i + 1;
      }
      CandidatesCut(issues, i, s, rows, slots);
    }

    /** One hit nobody has looked at yet in this tick: judge, sync, claim, spawn. */
    method Offer(issue: Issue, s: Settings, now: int, tid: L.ThreadId) returns (launched: bool)
      modifies app`rcas, app.store
      ensures Offered(launched, issue, s, now, tid, old(app.store.rows), old(app.rcas), app.store.rows, app.rcas)
    {
      var existing := app.store.GetTicket(issue.key);
      var why := WhyNot(issue, s, existing);
      if why.Some? { return false; }
      app.store.UpsertTicket(issue.key, issue.fields);
      EligibleIsClaimable(issue, s, existing);
      launched := app.AutoRun(issue.key, tid, now);
    }
  }

  /** The keys seen so far, all but the empty one. */
  ghost predicate SeenKeys(seen: set<Key>, s: seq<Issue>) {
    forall k :: k in seen <==> k != "" && SeenIn(k, s)
  }

  /** The store and the threads after these launches. */
  ghost predicate Tables(rows': map<Key, Row>, rcas': Threads, rows: map<Key, Row>, rcas: Threads, done: seq<Issue>,
                         stamp: nat -> int, tid: L.ThreadId) {
    rows' == Launched(rows, done, stamp) && rcas' == Investigations(rcas, done, tid)
  }

  /** The loop has dealt with these hits: which it launched, whom it saw, what it left. */
  ghost predicate Progress(hits: seq<Issue>, s: Settings, seen: set<Key>, done: seq<Issue>, stamp: nat -> int,
                           tid: L.ThreadId, rows: map<Key, Row>, rcas: Threads, rows': map<Key, Row>, rcas': Threads) {
    && done == Candidates(hits, s, rows) && SeenKeys(seen, hits)
    && Tables(rows', rcas', rows, rcas, done, stamp, tid)
  }

  lemma NextSkipped(hits: seq<Issue>, i: nat, s: Settings, seen: set<Key>, done: seq<Issue>, stamp: nat -> int,
                    tid: L.ThreadId, rows: map<Key, Row>, rcas: Threads, rows': map<Key, Row>, rcas': Threads)
    requires i < |hits| && (hits[i].key == "" || hits[i].key in seen)
    requires Progress(hits[..i], s, seen, done, stamp, tid, rows, rcas, rows', rcas')
    ensures Progress(hits[..i + 1], s, seen, done, stamp, tid, rows, rcas, rows', rcas')
  {
    CandidatesStep(hits, i, s, rows);
    SeenStep(hits, i);
  }

  lemma NextOffered(hits: seq<Issue>, i: nat, s: Settings, seen: set<Key>, done: seq<Issue>, stamp: nat -> int,
                    tid: L.ThreadId, rows: map<Key, Row>, rcas: Threads, rows': map<Key, Row>, rcas': Threads,
                    launched: bool, rows'': map<Key, Row>, rcas'': Threads)
    requires i < |hits| && hits[i].key != "" && hits[i].key !in seen
    requires Progress(hits[..i], s, seen, done, stamp, tid, rows, rcas, rows', rcas')
    requires Offered(launched, hits[i], s, stamp(|done|), tid + |done|, rows', rcas', rows'', rcas'')
    ensures Progress(hits[..i + 1], s, seen + {hits[i].key}, if launched then done + [hits[i]] else done, stamp, tid,
                     rows, rcas, rows'', rcas'')
  {
    CandidatesStep(hits, i, s, rows);
    SeenStep(hits, i);
    NotLaunchedYet(hits[..i], s, rows, hits[i].key);
    LaunchedFrame(rows, done, stamp, hits[i].key);
    if launched { LaunchedStep(rows, rcas, done, hits[i], stamp, tid); }
  }

  /** Stopping at the end or with all slots used has launched exactly the first `slots` candidates. */
  lemma CandidatesCut(hits: seq<Issue>, i: nat, s: Settings, rows: map<Key, Row>, slots: int)
    requires i <= |hits| && |Candidates(hits[..i], s, rows)| <= slots
    requires i == |hits| || |Candidates(hits[..i], s, rows)| == slots
    ensures var c := Candidates(hits, s, rows); Candidates(hits[..i], s, rows) == c[..C.Min(slots, |c|)]
  {
    CandidatesPrefix(hits, i, s, rows);
    if i == |hits| { assert hits[..i] == hits; }
  }

  lemma CandidatesStep(hits: seq<Issue>, i: nat, s: Settings, rows: map<Key, Row>)
    requires i < |hits|
    ensures Candidates(hits[..i + 1], s, rows) == Candidates(hits[..i], s, rows)
      + if hits[i].key != "" && !SeenIn(hits[i].key, hits[..i])
           && Eligible(hits[i], s, Lookup(rows, hits[i].key)) then [hits[i]] else []
  {
    assert hits[..i + 1][..i] == hits[..i];
  }

  lemma LaunchedStep(rows: map<Key, Row>, rcas: Threads, done: seq<Issue>, issue: Issue, stamp: nat -> int,
                     tid: L.ThreadId)
    ensures Launched(rows, done + [issue], stamp)
         == LaunchedRow(Launched(rows, done, stamp), issue, stamp(|done|))
    ensures Investigations(rcas, done + [issue], tid)
         == Spawned(Investigations(rcas, done, tid), issue.key, tid + |done|)
  {
    assert (done + [issue])[..|done|] == done;
  }

  lemma SeenStep(s: seq<Issue>, i: nat)
    requires i < |s|
    ensures forall k :: SeenIn(k, s[..i + 1]) <==> SeenIn(k, s[..i]) || k == s[i].key
  {
    assert s[..i + 1] == s[..i] + [s[i]];
    forall k
      ensures SeenIn(k, s[..i + 1]) <==> SeenIn(k, s[..i]) || k == s[i].key
    {
      if k == s[i].key { assert s[..i + 1][i].key == k; }
      if SeenIn(k, s[..i]) {
        var j :| 0 <= j < i && s[..i][j].key == k;
        assert s[..i + 1][j].key == k;
      }
      if SeenIn(k, s[..i + 1]) {
        var j :| 0 <= j < i + 1 && s[..i + 1][j].key == k;
        if j < i { assert s[..i][j].key == k; }
      }
    }
  }

  lemma NotLaunchedYet(hits: seq<Issue>, s: Settings, rows: map<Key, Row>, k: Key)
    requires !SeenIn(k, hits)
    ensures !SeenIn(k, Candidates(hits, s, rows))
  {
    CandidatesFacts(hits, s, rows);
    var c := Candidates(hits, s, rows);
    forall i | 0 <= i < |c|
      ensures c[i].key != k
    {
      assert c[i] in hits;
    }
  }
}
