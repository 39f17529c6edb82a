/** rca_agent/webapp/autorun.py: every issue that meets the rules is launched, unless the slots run out on older ones. */
module AutorunLaunches {
  import opened Basics
  import opened Sorting
  import opened ReviewStore
  import opened AutorunRules
  import opened AutorunTick
  import C = PollerCaps
  import L = Lifecycle

  /** The rules of `is_eligible`, all of them needed and enough together. */
  lemma EligibleIff(i: Issue, s: Settings, existing: Option<Row>)
    ensures WhyNot(i, s, existing) == None <==>
      && |i.key| >= 4 && i.key[..4] == "AUT-"
      && (exists t :: i.itype == Some(t) && t in s.allowedTypes)
      && !i.done && !i.qa
      && (exists on, c :: s.enabledAt == Some(on) && i.created == Some(c) && c >= on)
      && (forall r :: existing == Some(r) ==> r.status == Pending && r.verdict == None && r.autoRunAt == None)
  {
    if WhyNot(i, s, existing) == None {
      assert i.itype == Some(i.itype.value) && s.enabledAt == Some(s.enabledAt.value)
             && i.created == Some(i.created.value);
    }
  }

  /** `h` is the first hit of its key, in creation order. */
  ghost predicate FirstOfKey(h: Issue, hits: seq<Issue>, n: nat) {
    n < |hits| && hits[n] == h && forall j :: 0 <= j < n ==> hits[j].key != h.key
  }

  lemma {:induction false} IsCandidate(hits: seq<Issue>, s: Settings, rows: map<Key, Row>, n: nat)
    requires n < |hits| && FirstOfKey(hits[n], hits, n) && hits[n].key != "" && Eligible(hits[n], s, Lookup(rows, hits[n].key))
    ensures hits[n] in Candidates(hits, s, rows)
    decreases hits
  {
    var m := |hits| - 1;
    if n < m {
      IsCandidate(hits[..m], s, rows, n);
    }
  }

  lemma {:induction false} LeftOver(cs: seq<Issue>, k: nat, h: Issue)
    requires Ordered(cs, Before) && h in cs && k <= |cs|
    ensures h in cs[..k] || forall l :: l in cs[..k] ==> !Before(h, l)
  {
    var x :| 0 <= x < |cs| && cs[x] == h;
    if x < k {
      assert cs[..k][x] == h;
    } else {
      forall l | l in cs[..k]
        ensures !Before(h, l)
      {
        var y :| 0 <= y < k && cs[..k][y] == l;
        assert cs[y] == l;
      }
    }
  }

  /** Running automatically right now, and started automatically since the last midnight IST. */
  ghost function BusyKeys(rows: map<Key, Row>): set<Key> {
    set k | k in rows && rows[k].status == Running && rows[k].trigger == Some(Auto)
  }

  ghost function TodaysKeys(rows: map<Key, Row>, now: int): set<Key> {
    set k | k in rows && rows[k].autoRunAt.Some? && (rows[k].autoRunAt.value + 19800) / 86400 >= (now + 19800) / 86400
  }

  lemma SlotsAre(s: Settings, rows: map<Key, Row>, now: int)
    ensures SlotsLeft(s, rows, now) <= s.maxParallel - |BusyKeys(rows)|
    ensures SlotsLeft(s, rows, now) <= s.dailyCap - |TodaysKeys(rows, now)|
    ensures SlotsLeft(s, rows, now) == s.maxParallel - |BusyKeys(rows)|
         || SlotsLeft(s, rows, now) == s.dailyCap - |TodaysKeys(rows, now)|
  {
    assert BusyKeys(rows) == set k | k in rows && rows[k].status.Running? && rows[k].trigger == Some(Auto);
    TodaysAre(rows, now);
  }

  /**
    A hit that is the first of its key and meets every rule is launched, unless one of the two
    caps is used up, and then by launches none of which was created later.
   */
  lemma EligibleIsLaunched(s: Settings, hits: seq<Issue>, rows: map<Key, Row>, now: int, h: Issue, n: nat)
    requires s.enabled && FirstOfKey(h, ByCreated(hits), n)
    requires |h.key| >= 4 && h.key[..4] == "AUT-" && !h.done && !h.qa
    requires h.itype.Some? && h.itype.value in s.allowedTypes
    requires s.enabledAt.Some? && h.created.Some? && h.created.value >= s.enabledAt.value
    requires h.key in rows ==>
      rows[h.key].status == Pending && rows[h.key].verdict == None && rows[h.key].autoRunAt == None
    ensures var go := TickLaunches(s, hits, rows, now);
      || h in go
      || (&& (|BusyKeys(rows)| + |go| >= s.maxParallel || |TodaysKeys(rows, now)| + |go| >= s.dailyCap)
          && forall l :: l in go ==> l.created.Some? && l.created.value <= h.created.value)
  {
    var sorted, slots := ByCreated(hits), SlotsLeft(s, rows, now);
    var cs := Candidates(sorted, s, rows);
    SlotsAre(s, rows, now);
    EligibleIff(h, s, Lookup(rows, h.key));
    IsCandidate(sorted, s, rows, n);
    ByCreatedSorts(hits, None);
    CandidatesOrdered(sorted, s, rows);
    CandidatesFacts(sorted, s, rows);
    if slots > 0 {
      var k := C.Min(slots, |cs|);
      LeftOver(cs, k, h);
      if k == |cs| { assert cs[..k] == cs; }
      forall l | l in cs[..k]
        ensures l.created.Some?
      {
        assert l in cs;
      }
    }
  }

  lemma {:induction false} CandidateIsFirst(hits: seq<Issue>, s: Settings, rows: map<Key, Row>, l: Issue)
    requires l in Candidates(hits, s, rows)
    ensures exists m: nat :: FirstOfKey(l, hits, m)
    decreases hits
  {
    var init, last := hits[..|hits| - 1], hits[|hits| - 1];
    if l in Candidates(init, s, rows) {
      CandidateIsFirst(init, s, rows, l);
      var m: nat :| FirstOfKey(l, init, m);
      assert FirstOfKey(l, hits, m);
    } else {
      assert l == last && !SeenIn(l.key, init);
      forall j | 0 <= j < |init|
        ensures hits[j].key != l.key
      {
        assert init[j].key != l.key;
      }
      assert FirstOfKey(l, hits, |init|);
    }
  }

  /** A repeat of a key is never launched on its own account. */
  lemma OnlyFirstHitsLaunch(s: Settings, hits: seq<Issue>, rows: map<Key, Row>, now: int, l: Issue)
    requires l in TickLaunches(s, hits, rows, now)
    ensures exists m: nat :: FirstOfKey(l, ByCreated(hits), m)
  {
    assert l in Candidates(ByCreated(hits), s, rows);
    CandidateIsFirst(ByCreated(hits), s, rows, l);
  }

  /** What the panel says after a poll: off, no Jira, no watermark, the day's cap, no free slot, or polled. */
  lemma StateAfter(s: Settings, hasJira: bool, found: bool, rows: map<Key, Row>, now: int, before: PollState)
    ensures var o := Outcome(s, hasJira, found, rows, now, before);
      var ready, capped := s.enabled && hasJira && s.enabledAt.Some?, |TodaysKeys(rows, now)| >= s.dailyCap;
      var busy := |BusyKeys(rows)| >= s.maxParallel;
      && (!s.enabled ==> o == Disabled) && (s.enabled && !hasJira ==> o == Misconfigured)
      && (s.enabled && hasJira && s.enabledAt == None ==> o == Unwatermarked)
      && (ready && capped ==> o == CapReached) && (ready && !capped && busy ==> o == SlotsBusy)
      && (ready && !capped && !busy ==> o == if found then Polled else before)
      && (Searches(s, hasJira, rows, now) <==> ready && !capped && !busy)
  {
    SlotsAre(s, rows, now);
    TodaysAre(rows, now);
  }

  lemma TodaysAre(rows: map<Key, Row>, now: int)
    ensures CountClaimedSince(rows, C.IstDayStart(now)) == |TodaysKeys(rows, now)|
  {
    var start := C.IstDayStart(now);
    C.SinceMidnightIst(now, now);
    forall k | k in rows && rows[k].autoRunAt.Some?
      ensures rows[k].autoRunAt.value >= start <==> (rows[k].autoRunAt.value + 19800) / 86400 >= (now + 19800) / 86400
    {
      C.SinceMidnightIst(rows[k].autoRunAt.value, now);
    }
    assert TodaysKeys(rows, now) == set k | k in rows && rows[k].autoRunAt.Some? && rows[k].autoRunAt.value >= start;
  }

  // --- what a launch leaves behind -----------------------------------------------------------

  lemma LaunchedOnce(rows: map<Key, Row>, issues: seq<Issue>, stamp: nat -> int, n: nat)
    requires n < |issues| && forall i, j :: 0 <= i < j < |issues| ==> issues[i].key != issues[j].key
    ensures issues[n].key in Launched(rows, issues, stamp)
    ensures Launched(rows, issues, stamp)[issues[n].key]
         == ClaimedAuto(Synced(issues[n], Lookup(rows, issues[n].key)), stamp(n))
    decreases issues
  {
    var m := |issues| - 1;
    if n < m {
      LaunchedOnce(rows, issues[..m], stamp, n);
    } else {
      assert !SeenIn(issues[n].key, issues[..m]);
      LaunchedFrame(rows, issues[..m], stamp, issues[n].key);
    }
  }

  /** Each launched ticket is running, marked automatic, stamped with its claim and on the Triage list if it was to be. */
  lemma LaunchedRowIs(s: Settings, hits: seq<Issue>, rows: map<Key, Row>, now: int, stamp: nat -> int, n: nat)
    requires n < |TickLaunches(s, hits, rows, now)|
    ensures var go := TickLaunches(s, hits, rows, now);
      var rows' := Launched(rows, go, stamp);
      && go[n].key in rows' && rows'[go[n].key].status == Running && rows'[go[n].key].trigger == Some(Auto)
      && rows'[go[n].key].autoRunAt == Some(stamp(n)) && rows'[go[n].key].verdict == None
      && rows'[go[n].key].error == None
      && (go[n].fields.issueType.Some? ==> rows'[go[n].key].issueType == go[n].fields.issueType)
      && (go[n].fields.jiraStatus.Some? ==>
            rows'[go[n].key].jiraStatus == go[n].fields.jiraStatus && rows'[go[n].key].jiraDone == go[n].fields.jiraDone)
      && forall k :: k in rows && !SeenIn(k, go) ==> k in rows' && rows'[k] == rows[k]
  {
    var go := TickLaunches(s, hits, rows, now);
    CandidatesFacts(ByCreated(hits), s, rows);
    LaunchedOnce(rows, go, stamp, n);
    assert go[n] in Candidates(ByCreated(hits), s, rows);
    EligibleIsClaimable(go[n], s, Lookup(rows, go[n].key));
    forall k | k in rows && !SeenIn(k, go) {
      LaunchedFrame(rows, go, stamp, k);
    }
  }
}
