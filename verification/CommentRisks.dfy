/**
  What can go wrong with automatic Jira comments: exactly which steps open a run that breaks
  the promise, and that every new ticket can get to each of them.
 */
module CommentRisks {
  import opened Basics
  import opened ReviewStore
  import opened Lifecycle
  import opened ThreadRuns
  import opened AutoComment

  /** Every disciplined run from here keeps the promise. */
  ghost predicate SafeAhead(t: Ticket) {
    forall es :: Feasible(t, es) && DisciplinedRun(t, es) ==> Promised(Exec(t, es))
  }

  lemma {:induction false} ThreadCallsAreDisciplined(t: Ticket, es: seq<Event>)
    requires Feasible(t, es) && ThreadSteps(es)
    ensures DisciplinedRun(t, es)
    decreases es
  {
    if es != [] { ThreadCallsAreDisciplined(Step(t, es[0]), es[1..]); }
  }

  // --- runs of thread calls that break the promise -------------------------------------------

  /** A run of thread calls to a broken promise. */
  ghost predicate Breaks(ts: seq<Ticket>, es: seq<Event>) {
    Path(ts, es) && ThreadSteps(es) && !Promised(ts[|es|])
  }

  lemma ThenBreaks(ts: seq<Ticket>, es: seq<Event>, us: seq<Ticket>, fs: seq<Event>)
    returns (ws: seq<Ticket>, ds: seq<Event>)
    requires Path(ts, es) && ThreadSteps(es) && Breaks(us, fs) && ts[|es|] == us[0]
    ensures Breaks(ws, ds) && ws[0] == ts[0]
  {
    PathsJoin(ts, es, us, fs);
    ws, ds := ts + us[1..], es + fs;
  }

  /** An automatic comment of this investigation is not one a human has accepted already. */
  ghost predicate Unadopted(t: Ticket, p: RcaPhase) {
    t.adopted <= t.used && (p.Posted? ==> p.id !in t.adopted)
  }

  lemma RecordBreaks(t: Ticket, r: ThreadId, c: CommentId) returns (ts: seq<Ticket>, es: seq<Event>)
    requires r in t.rcas && t.rcas[r] == Posted(c) && c !in t.adopted
    requires t.row.status.Accepted? || t.row.status.Rejected?
    ensures Breaks(ts, es) && ts[0] == t
  {
    var id := BoundOf(t.used);
    ts, es := [t, RcaStep(t, r, true, id, "")], [RcaGo(r, true, id, "")];
  }

  /** A decided ticket gets a comment nobody accepted. */
  lemma DecidedBreaks(t: Ticket, r: ThreadId) returns (ts: seq<Ticket>, es: seq<Event>)
    requires r in t.rcas && MayPost(t, t.rcas[r]) && !t.rcas[r].Investigating? && Unadopted(t, t.rcas[r])
    requires t.row.status.Accepted? || t.row.status.Rejected?
    ensures Breaks(ts, es) && ts[0] == t
  {
    var us, fs, c := DriveToPosted(t, r);
    ts, es := RecordBreaks(us[|fs|], r, c);
    ts, es := ThenBreaks(us, fs, ts, es);
  }

  lemma MarkBreaks(t: Ticket, r: ThreadId, c: CommentId, j: ThreadId) returns (ts: seq<Ticket>, es: seq<Event>)
    requires r in t.rcas && t.rcas[r] == Posted(c) && c !in t.adopted
    requires j in t.jobs && t.jobs[j].phase.Marking?
    ensures Breaks(ts, es) && ts[0] == t
  {
    var id := BoundOf(t.used);
    var t1 := JobStep(t, j, true, id);
    ts, es := RecordBreaks(t1, r, c);
    ts, es := ThenBreaks([t, t1], [JobGo(j, true, id)], ts, es);
  }

  /** A posting job that can decide overtakes an investigation between its post and its record. */
  lemma Overtakes(t: Ticket, r: ThreadId, j: ThreadId) returns (ts: seq<Ticket>, es: seq<Event>)
    requires r in t.rcas && MayPost(t, t.rcas[r]) && Unadopted(t, t.rcas[r])
    requires j in t.jobs && CanDecide(t.jobs[j]) && t.row.autoComment.None?
    ensures Breaks(ts, es) && ts[0] == t
  {
    var us, fs := DriveToMarking(t, j);
    var vs, gs, c := DriveToPosted(us[|fs|], r);
    ts, es := MarkBreaks(vs[|gs|], r, c, j);
    ts, es := ThenBreaks(vs, gs, ts, es);
    ts, es := ThenBreaks(us, fs, ts, es);
  }

  /** A fresh accept job with a verdict before it takes one call to be able to decide. */
  lemma AcceptOvertakes(t: Ticket, r: ThreadId, j: ThreadId) returns (ts: seq<Ticket>, es: seq<Event>)
    requires r in t.rcas && MayPost(t, t.rcas[r]) && Unadopted(t, t.rcas[r])
    requires j in t.jobs && Undecided(t.jobs[j]) && t.row.autoComment.None?
    requires t.jobs[j].kind.AcceptJob? && t.row.verdict.Some?
    ensures Breaks(ts, es) && ts[0] == t
  {
    if CanDecide(t.jobs[j]) {
      ts, es := Overtakes(t, r, j);
    } else {
      var id := BoundOf(t.used);
      var t1 := JobStep(t, j, true, id);
      ts, es := Overtakes(t1, r, j);
      ts, es := ThenBreaks([t, t1], [JobGo(j, true, id)], ts, es);
    }
  }

  /** Whoever is about to post, and whoever has still to decide. */
  lemma UndecidedBreaks(t: Ticket, r: ThreadId, j: ThreadId) returns (ts: seq<Ticket>, es: seq<Event>)
    requires r in t.rcas && MayPost(t, t.rcas[r]) && Unadopted(t, t.rcas[r])
    requires j in t.jobs && Undecided(t.jobs[j]) && t.row.autoComment.None?
    requires t.jobs[j].kind.AcceptJob? ==> t.row.verdict.Some? || t.rcas[r].Investigating?
    ensures Breaks(ts, es) && ts[0] == t
  {
    if t.jobs[j].kind.RejectJob? {
      ts, es := Overtakes(t, r, j);
    } else if t.row.verdict.Some? {
      ts, es := AcceptOvertakes(t, r, j);
    } else {
      var id := BoundOf(t.used);
      var t1 := PostOne(t, r, id);
      ts, es := AcceptOvertakes(t1, r, j);
      ts, es := ThenBreaks([t, t1], [RcaGo(r, true, id, "")], ts, es);
    }
  }

  /** Two investigations that may both post do. */
  lemma BothPost(t: Ticket, r: ThreadId, m: ThreadId) returns (ts: seq<Ticket>, es: seq<Event>)
    requires r != m && r in t.rcas && m in t.rcas && t.row.trigger == Some(Auto)
    requires Unchecked(t.rcas[r]) && Unchecked(t.rcas[m])
    ensures Path(ts, es) && ThreadSteps(es) && ts[0] == t
    ensures exists c, d :: c != d && {c, d} <= ts[|es|].autoPosted && {c, d} <= ts[|es|].onJira
  {
    var us, fs, c := DriveToPosted(t, r);
    var vs, gs, d := DriveToPosted(us[|fs|], m);
    PathsJoin(us, fs, vs, gs);
    ts, es := us + vs[1..], fs + gs;
    assert c != d && {c, d} <= ts[|es|].autoPosted && {c, d} <= ts[|es|].onJira;
  }

  // --- every undisciplined step opens such a run ------------------------------------------------

  lemma ClaimIsFatal(t: Ticket, r: ThreadId, now: int) returns (ts: seq<Ticket>, es: seq<Event>)
    requires CommentInv(t) && AutoClaimable(t.row) && r !in t.rcas && (UncheckedLive(t) || UndecidedLive(t))
    ensures Breaks(ts, es) && ts[0] == AutoClaimStep(t, r, now)
  {
    var t0 := AutoClaimStep(t, r, now);
    if UncheckedLive(t) {
      var m :| m in t.rcas && Unchecked(t.rcas[m]);
      ts, es := BothPost(t0, r, m);
    } else {
      var j :| j in t.jobs && Undecided(t.jobs[j]);
      ts, es := UndecidedBreaks(t0, r, j);
    }
  }

  lemma DecisionIsFatal(t: Ticket, t': Ticket) returns (ts: seq<Ticket>, es: seq<Event>)
    requires CommentInv(t) && PosterLive(t) && t.row.verdict.Some? && t'.rcas == t.rcas && t'.row.trigger == t.row.trigger
    requires t'.adopted == t.adopted && t'.used == t.used && (t'.row.status.Accepted? || t'.row.status.Rejected?)
    ensures Breaks(ts, es) && ts[0] == t'
  {
    var r :| r in t.rcas && MayPost(t, t.rcas[r]);
    assert PosterSees(t, t.rcas[r]);
    ts, es := DecidedBreaks(t', r);
  }

  lemma JobStartIsFatal(t: Ticket, j: ThreadId, kind: JobKind) returns (ts: seq<Ticket>, es: seq<Event>)
    requires CommentInv(t) && PosterLive(t) && Posts(kind) && (kind.AcceptJob? ==> t.row.verdict.Some?)
    requires j !in t.jobs && t.row.jobStatus != Some(JobRunning)
    ensures Breaks(ts, es) && ts[0] == StartJobStep(t, j, kind).ticket
  {
    var r :| r in t.rcas && MayPost(t, t.rcas[r]);
    assert PosterSees(t, t.rcas[r]);
    ts, es := UndecidedBreaks(StartJobStep(t, j, kind).ticket, r, j);
  }

  lemma NothingAdopted(t: Ticket)
    requires CommentInv(t) && PosterLive(t)
    ensures t.row.autoComment.None?
  {
    var r :| r in t.rcas && MayPost(t, t.rcas[r]);
    assert PosterSees(t, t.rcas[r]);
  }

  /** A step that is not disciplined opens a run of thread calls that breaks the promise. */
  lemma UndisciplinedIsFatal(t: Ticket, e: Event) returns (ts: seq<Ticket>, es: seq<Event>)
    requires CommentInv(t) && Enabled(t, e) && !Disciplined(t, e)
    ensures Breaks(ts, es) && ts[0] == Step(t, e)
  {
    if PosterLive(t) { NothingAdopted(t); }
    hide CommentInv, PosterLive, UncheckedLive, UndecidedLive, Orphanable;
    match e
    case Restart(key) =>
      CrashKeepsIff(t, key);
      ts, es := [RestartStep(t, key)], [];
    case AutoClaim(tid, now) => ts, es := ClaimIsFatal(t, tid, now);
    case Accept => ts, es := DecisionIsFatal(t, Step(t, e));
    case RejectLocal(deleted) => ts, es := DecisionIsFatal(t, Step(t, e));
    case AcceptAndPost(tid) => ts, es := JobStartIsFatal(t, tid, AcceptJob);
    case Reject(tid, hasText) => ts, es := JobStartIsFatal(t, tid, RejectJob);
    case _ =>
      ts, es := [], [];
      assert false;
  }

  /**
    The promise, exactly: after a step from a ticket that keeps it, every disciplined run keeps it
    iff the step itself is disciplined.  /rca, /reset and an unclear decision always are.
   */
  lemma {:induction false} SafeAheadIff(t: Ticket, e: Event)
    requires CommentInv(t) && Enabled(t, e)
    ensures SafeAhead(Step(t, e)) <==> Disciplined(t, e)
  {
    hide CommentInv, Promised, Disciplined, Step, Enabled;
    var t' := Step(t, e);
    if Disciplined(t, e) {
      DisciplinedStepKeeps(t, e);
      forall es | Feasible(t', es) && DisciplinedRun(t', es)
        ensures Promised(Exec(t', es))
      {
        DisciplinedRunKeeps(t', es);
        InvIsPromise(Exec(t', es));
      }
    } else {
      var ts, es := UndisciplinedIsFatal(t, e);
      PathIsRun(ts, es);
      ThreadCallsAreDisciplined(t', es);
      assert !Promised(Exec(t', es));
    }
  }

  /**
    /reset breaks nothing itself; what it does is to make a ticket claimable again that was never
    claimed.  The claim that follows is safe iff the ticket had been claimed before, or no thread
    is live that has yet to read the trigger or to decide.
   */
  lemma ClaimAfterResetIff(t: Ticket, deleted: bool, r: ThreadId, now: int)
    requires CommentInv(t) && ResetStep(t, deleted).reply.Ok? && r !in t.rcas
    ensures SafeAhead(AutoClaimStep(ResetStep(t, deleted).ticket, r, now))
       <==> t.row.autoRunAt.Some? || (!UncheckedLive(t) && !UndecidedLive(t))
  {
    var t1 := ResetStep(t, deleted).ticket;
    ResetKeeps(t, deleted);
    hide CommentInv, SafeAhead;
    SafeAheadIff(t1, AutoClaim(r, now));
    assert AutoClaimable(t1.row) <==> t.row.autoRunAt.None?;
  }

  // --- every new ticket can get there ------------------------------------------------------------

  lemma FirstStep(t: Ticket, e: Event, es: seq<Event>)
    requires Enabled(t, e) && Feasible(Step(t, e), es)
    ensures Feasible(t, [e] + es) && Exec(t, [e] + es) == Exec(Step(t, e), es)
    ensures DisciplinedRun(t, [e] + es) <==> Disciplined(t, e) && DisciplinedRun(Step(t, e), es)
  {
    assert ([e] + es)[1..] == es;
  }

  /** A disciplined run, and then a crash that orphans a comment. */
  lemma NewTicketCanBeOrphaned(f: JiraFields, now: int, key: Key)
    ensures exists es ::
      && Feasible(Fresh(f), es) && DisciplinedRun(Fresh(f), es) && Orphanable(Exec(Fresh(f), es))
      && !Accounted(RestartStep(Exec(Fresh(f), es), key))
  {
    var claim := AutoClaim(0, now);
    var t1 := AutoClaimStep(Fresh(f), 0, now);
    var ts, es, c := DriveToPosted(t1, 0);
    PathIsRun(ts, es);
    ThreadCallsAreDisciplined(t1, es);
    FirstStep(Fresh(f), claim, es);
    var t := ts[|es|];
    assert t.rcas[0] == Posted(c) && Orphanable(t);
    assert c in RestartStep(t, key).autoPosted && !Accounted(RestartStep(t, key));
    assert Exec(Fresh(f), [claim] + es) == t;
  }

  /** Two automatic comments on one ticket. */
  ghost predicate PostedTwice(t: Ticket) {
    exists c, d :: c != d && {c, d} <= t.autoPosted && {c, d} <= t.onJira
  }

  /** /rca, /reset under the running investigation, and the poller: both investigations post. */
  lemma NewTicketCanPostTwice(f: JiraFields, now: int)
    ensures exists es :: var run := [ClickRca(0)] + ([Reset(false)] + ([AutoClaim(1, now)] + es));
      ThreadSteps(es) && Feasible(Fresh(f), run) && PostedTwice(Exec(Fresh(f), run))
  {
    var t1 := ClickRcaStep(Fresh(f), 0).ticket;
    var t2 := ResetStep(t1, false).ticket;
    var t3 := AutoClaimStep(t2, 1, now);
    var ts, es := BothPost(t3, 1, 0);
    PathIsRun(ts, es);
    hide DisciplinedRun, Disciplined;
    FirstStep(t2, AutoClaim(1, now), es);
    FirstStep(t1, Reset(false), [AutoClaim(1, now)] + es);
    FirstStep(Fresh(f), ClickRca(0), [Reset(false)] + ([AutoClaim(1, now)] + es));
  }

  /** A rejected ticket still carrying an automatic comment. */
  predicate Stranded(t: Ticket) {
    t.row.status.Rejected? && t.row.autoComment.Some?
  }

  /** Such a comment, on Jira, that no human accepted. */
  predicate StrandedOnJira(t: Ticket) {
    Stranded(t) && t.row.autoComment.value in t.autoPosted * t.onJira && t.row.autoComment.value !in t.adopted
  }

  lemma PostsOnRejected(t: Ticket, r: ThreadId) returns (ts: seq<Ticket>, es: seq<Event>)
    requires r in t.rcas && t.rcas[r].Saved? && MayPost(t, t.rcas[r]) && t.row.status.Rejected? && t.adopted <= t.used
    ensures Path(ts, es) && ThreadSteps(es) && ts[0] == t && StrandedOnJira(ts[|es|])
  {
    var us, ds, c := DriveToPosted(t, r);
    var t1 := us[|ds|];
    var id := BoundOf(t1.used);
    var t2 := RcaStep(t1, r, true, id, "");
    var go := [RcaGo(r, true, id, "")];
    PathsJoin(us, ds, [t1, t2], go);
    ts, es := us + [t1, t2][1..], ds + go;
  }

  /** A local reject between the verdict and the automatic post: the comment comes all the same. */
  lemma NewTicketCanPostAfterReject(f: JiraFields, now: int, v: Verdict)
    ensures exists es :: var run := [AutoClaim(0, now)] + ([RcaGo(0, true, 0, v)] + ([RejectLocal(false)] + es));
      ThreadSteps(es) && Feasible(Fresh(f), run) && StrandedOnJira(Exec(Fresh(f), run))
  {
    var t1 := AutoClaimStep(Fresh(f), 0, now);
    var t2 := RcaStep(t1, 0, true, 0, v);
    var t3 := RejectLocalStep(t2, false).ticket;
    var ts, es := PostsOnRejected(t3, 0);
    PathIsRun(ts, es);
    hide DisciplinedRun, Disciplined, StrandedOnJira;
    FirstStep(t2, RejectLocal(false), es);
    FirstStep(t1, RcaGo(0, true, 0, v), [RejectLocal(false)] + es);
    FirstStep(Fresh(f), AutoClaim(0, now), [RcaGo(0, true, 0, v)] + ([RejectLocal(false)] + es));
  }

  // --- the poller's claim under a live reject ----------------------------------------------------

  lemma ThreadStepKeepsFree(t: Ticket, e: Event)
    requires Enabled(t, e) && (e.RcaGo? || e.JobGo?) && !UndecidedReject(t) && !t.row.status.Rejected?
    ensures !UndecidedReject(Step(t, e)) && !Step(t, e).row.status.Rejected?
  {
    hide RcaStep;
    if e.JobGo? {
      var t' := JobStep(t, e.tid, e.ok, e.id);
      assert !Rejecting(t.jobs[e.tid]);
      assert forall a :: a in t'.jobs && a != e.tid ==> a in t.jobs && t'.jobs[a] == t.jobs[a];
    } else {
      RcaNeverRejects(t, e.tid, e.ok, e.id, e.text);
    }
  }

  lemma RcaNeverRejects(t: Ticket, tid: ThreadId, ok: bool, id: CommentId, text: string)
    requires tid in t.rcas
    ensures var t' := RcaStep(t, tid, ok, id, text);
      t'.jobs == t.jobs && (t'.row.status.Rejected? ==> t.row.status.Rejected?)
  {
  }

  lemma {:induction false} NeverRejected(t: Ticket, es: seq<Event>)
    requires Feasible(t, es) && ThreadSteps(es) && !UndecidedReject(t) && !t.row.status.Rejected?
    ensures !Exec(t, es).row.status.Rejected?
    decreases es
  {
    if es != [] {
      ThreadStepKeepsFree(t, es[0]);
      NeverRejected(Step(t, es[0]), es[1..]);
    }
  }

  /** The investigation posts, and is overtaken by the reject before it records. */
  lemma PostThenOvertaken(t: Ticket, r: ThreadId, j: ThreadId) returns (ts: seq<Ticket>, es: seq<Event>)
    requires r in t.rcas && MayPost(t, t.rcas[r])
    requires j in t.jobs && t.jobs[j].kind.RejectJob? && t.jobs[j].phase.Marking?
    ensures Path(ts, es) && ThreadSteps(es) && ts[0] == t && Stranded(ts[|es|])
  {
    var us, ds, c := DriveToPosted(t, r);
    var t1 := us[|ds|];
    var id := BoundOf(t1.used);
    var t2 := JobStep(t1, j, true, id);
    var t3 := RcaStep(t2, r, true, id, "");
    var go := [JobGo(j, true, id), RcaGo(r, true, id, "")];
    PathsJoin(us, ds, [t1, t2, t3], go);
    ts, es := us + [t1, t2, t3][1..], ds + go;
  }

  /**
    Exactly when the poller's claim is safe for a later reject: iff no reject that has still
    to decide is live.  The claim's WHERE clause does not ask.
   */
  lemma ClaimSafeIffNoLiveReject(t: Ticket, r: ThreadId, now: int)
    requires CommentInv(t) && AutoClaimable(t.row) && r !in t.rcas
    ensures (forall es :: ThreadSteps(es) && Feasible(Step(t, AutoClaim(r, now)), es)
                          ==> !Stranded(Exec(Step(t, AutoClaim(r, now)), es)))
       <==> !UndecidedReject(t)
  {
    var t0 := Step(t, AutoClaim(r, now));
    if UndecidedReject(t) {
      var j :| j in t.jobs && Rejecting(t.jobs[j]);
      var ts, es := DriveToMarking(t0, j);
      var us, fs := PostThenOvertaken(ts[|es|], r, j);
      PathsJoin(ts, es, us, fs);
      PathIsRun(ts + us[1..], es + fs);
      assert Stranded(Exec(t0, es + fs));
    } else {
      assert !UndecidedReject(t0);
      forall es | ThreadSteps(es) && Feasible(t0, es)
        ensures !Stranded(Exec(t0, es))
      {
        NeverRejected(t0, es);
      }
    }
  }

  /** A reject on a ticket nobody has looked at, and the poller's claim beside it. */
  lemma NewTicketCanBeStranded(f: JiraFields, now: int)
    ensures exists es :: var run := [Reject(0, true)] + ([AutoClaim(0, now)] + es);
      ThreadSteps(es) && Feasible(Fresh(f), run) && Stranded(Exec(Fresh(f), run))
  {
    var t1 := RejectStep(Fresh(f), 0, true).ticket;
    NewIsSound(f);
    RejectKeeps(Fresh(f), 0, true);
    hide CommentInv, DisciplinedRun, Disciplined;
    ClaimSafeIffNoLiveReject(t1, 0, now);
    assert 0 in t1.jobs && Rejecting(t1.jobs[0]);
    var t2 := Step(t1, AutoClaim(0, now));
    var es :| ThreadSteps(es) && Feasible(t2, es) && Stranded(Exec(t2, es));
    FirstStep(t1, AutoClaim(0, now), es);
    FirstStep(Fresh(f), Reject(0, true), [AutoClaim(0, now)] + es);
  }
}
