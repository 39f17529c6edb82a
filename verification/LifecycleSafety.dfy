/**
  What every run of one ticket keeps, whatever the interleaving: nothing wedges, a stored
  verdict survives, the automatic claim happens once.
 */
module LifecycleSafety {
  import opened Basics
  import opened ReviewStore
  import opened Lifecycle

  // --- no wedged rows ----------------------------------------------------------------

  /** A row says 'running' only while some live thread will still move it on. */
  ghost predicate NotWedged(t: Ticket) {
    && (t.row.status.Running? ==> exists tid :: tid in t.rcas && t.rcas[tid].Investigating?)
    && (t.row.jobStatus == Some(JobRunning) ==> exists tid :: tid in t.jobs)
  }

  lemma RunningHasThread(t: Ticket, e: Event)
    requires Enabled(t, e) && (t.row.status.Running? ==> exists tid :: tid in t.rcas && t.rcas[tid].Investigating?)
    requires Step(t, e).row.status.Running?
    ensures exists tid :: tid in Step(t, e).rcas && Step(t, e).rcas[tid].Investigating?
  {
    var t' := Step(t, e);
    if t.row.status.Running? {
      var tid :| tid in t.rcas && t.rcas[tid].Investigating?;
      if !e.RcaGo? || e.tid != tid { assert tid in t'.rcas && t'.rcas[tid].Investigating?; }
    } else {
      assert e.ClickRca? || e.AutoClaim?;
      assert e.tid in t'.rcas && t'.rcas[e.tid].Investigating?;
    }
  }

  lemma RunningJobHasThread(t: Ticket, e: Event)
    requires Enabled(t, e) && (t.row.jobStatus == Some(JobRunning) ==> exists tid :: tid in t.jobs)
    requires Step(t, e).row.jobStatus == Some(JobRunning)
    ensures exists tid :: tid in Step(t, e).jobs
  {
    var t' := Step(t, e);
    if t.row.jobStatus == Some(JobRunning) {
      var tid :| tid in t.jobs;
      assert tid in t'.jobs;
    } else {
      assert e.tid in t'.jobs;
    }
  }

  lemma StepKeepsNotWedged(t: Ticket, e: Event)
    requires Enabled(t, e) && NotWedged(t)
    ensures NotWedged(Step(t, e))
  {
    if Step(t, e).row.status.Running? { RunningHasThread(t, e); }
    if Step(t, e).row.jobStatus == Some(JobRunning) { RunningJobHasThread(t, e); }
  }

  lemma {:induction false} NeverWedged(t: Ticket, es: seq<Event>)
    requires NotWedged(t) && Feasible(t, es)
    ensures NotWedged(Exec(t, es))
    decreases es
  {
    if es != [] {
      StepKeepsNotWedged(t, es[0]);
      NeverWedged(Step(t, es[0]), es[1..]);
    }
  }

  // --- threads end, whatever happens between their calls ------------------------------------

  /** How many of its own calls an investigation in this phase can still make. */
  function RcaRank(p: RcaPhase): nat {
    match p
    case Investigating => 5
    case Saved => 4
    case CheckedAuto => 3
    case Posting => 2
    case _ => 1
  }

  function JobRank(p: JobPhase): nat {
    match p
    case Started => 6
    case Deleting(_) => 5
    case Clearing => 4
    case PostingJob => 3
    case Marking(_) => 2
    case _ => 1
  }

  function RcaLeft(t: Ticket, tid: ThreadId): nat {
    if tid in t.rcas then RcaRank(t.rcas[tid]) else 0
  }

  function JobLeft(t: Ticket, tid: ThreadId): nat {
    if tid in t.jobs then JobRank(t.jobs[tid].phase) else 0
  }

  /** The investigations a run starts. */
  predicate Claims(e: Event) {
    e.ClickRca? || e.AutoClaim?
  }

  /** The jobs a run starts. */
  predicate Starts(e: Event) {
    e.AcceptAndPost? || e.Reject? || e.SuggestFix?
  }

  /** A thread id is handed out once: a run beside a live thread starts no second one of its name. */
  predicate RcaNamedOnce(es: seq<Event>, tid: ThreadId) {
    forall i :: 0 <= i < |es| && Claims(es[i]) ==> es[i].tid != tid
  }

  predicate JobNamedOnce(es: seq<Event>, tid: ThreadId) {
    forall i :: 0 <= i < |es| && Starts(es[i]) ==> es[i].tid != tid
  }

  /** How many calls of a run are this investigation's own. */
  function RcaCalls(es: seq<Event>, tid: ThreadId): nat {
    if es == [] then 0 else (if es[0].RcaGo? && es[0].tid == tid then 1 else 0) + RcaCalls(es[1..], tid)
  }

  function JobCalls(es: seq<Event>, tid: ThreadId): nat {
    if es == [] then 0 else (if es[0].JobGo? && es[0].tid == tid then 1 else 0) + JobCalls(es[1..], tid)
  }

  lemma RcaStepRank(t: Ticket, e: Event, tid: ThreadId)
    requires Enabled(t, e) && (Claims(e) ==> e.tid != tid)
    ensures RcaLeft(Step(t, e), tid) + (if e.RcaGo? && e.tid == tid then 1 else 0) <= RcaLeft(t, tid)
  {
  }

  lemma JobStepRank(t: Ticket, e: Event, tid: ThreadId)
    requires Enabled(t, e) && (Starts(e) ==> e.tid != tid)
    ensures JobLeft(Step(t, e), tid) + (if e.JobGo? && e.tid == tid then 1 else 0) <= JobLeft(t, tid)
  {
  }

  /**
    An investigation makes at most five calls of its own, whatever happens between them; once
    they are made it is gone.
   */
  lemma {:induction false} RcaThreadEnds(t: Ticket, es: seq<Event>, tid: ThreadId)
    requires Feasible(t, es) && RcaNamedOnce(es, tid)
    ensures RcaCalls(es, tid) + RcaLeft(Exec(t, es), tid) <= RcaLeft(t, tid) <= 5
    ensures RcaCalls(es, tid) == RcaLeft(t, tid) ==> tid !in Exec(t, es).rcas
    decreases es
  {
    if es != [] {
      RcaStepRank(t, es[0], tid);
      RcaThreadEnds(Step(t, es[0]), es[1..], tid);
    }
  }

  /** An action job makes at most six calls of its own; once they are made it is gone. */
  lemma {:induction false} JobThreadEnds(t: Ticket, es: seq<Event>, tid: ThreadId)
    requires Feasible(t, es) && JobNamedOnce(es, tid)
    ensures JobCalls(es, tid) + JobLeft(Exec(t, es), tid) <= JobLeft(t, tid) <= 6
    ensures JobCalls(es, tid) == JobLeft(t, tid) ==> tid !in Exec(t, es).jobs
    decreases es
  {
    if es != [] {
      JobStepRank(t, es[0], tid);
      JobThreadEnds(Step(t, es[0]), es[1..], tid);
    }
  }

  lemma {:induction false} StaysIdle(t: Ticket, es: seq<Event>)
    requires Feasible(t, es) && (forall e :: e in es ==> !Claims(e)) && !t.row.status.Running?
    ensures !Exec(t, es).row.status.Running?
    decreases es
  {
    if es != [] {
      assert es[0] in es && forall e :: e in es[1..] ==> e in es;
      StaysIdle(Step(t, es[0]), es[1..]);
    }
  }

  /** Its first call takes the row out of 'running', and only a new claim puts it back. */
  lemma {:induction false} RcaLeavesRunning(t: Ticket, es: seq<Event>, tid: ThreadId)
    requires Feasible(t, es) && (forall e :: e in es ==> !Claims(e)) && RcaCalls(es, tid) > 0
    requires tid in t.rcas && t.rcas[tid].Investigating?
    ensures !Exec(t, es).row.status.Running?
    decreases es
  {
    var t' := Step(t, es[0]);
    assert es[0] in es && forall e :: e in es[1..] ==> e in es;
    if (es[0].RcaGo? && es[0].tid == tid) || es[0].Restart? {
      StaysIdle(t', es[1..]);
    } else {
      RcaLeavesRunning(t', es[1..], tid);
    }
  }

  lemma {:induction false} StaysFree(t: Ticket, es: seq<Event>)
    requires Feasible(t, es) && (forall e :: e in es ==> !Starts(e)) && t.row.jobStatus != Some(JobRunning)
    ensures Exec(t, es).row.jobStatus != Some(JobRunning)
    decreases es
  {
    if es != [] {
      assert es[0] in es && forall e :: e in es[1..] ==> e in es;
      StaysFree(Step(t, es[0]), es[1..]);
    }
  }

  /** A job that has ended has left 'running', and only a new job puts it back. */
  lemma {:induction false} JobLeavesRunning(t: Ticket, es: seq<Event>, tid: ThreadId)
    requires Feasible(t, es) && (forall e :: e in es ==> !Starts(e))
    requires tid in t.jobs && tid !in Exec(t, es).jobs
    ensures Exec(t, es).row.jobStatus != Some(JobRunning)
    decreases es
  {
    var t' := Step(t, es[0]);
    assert es[0] in es && forall e :: e in es[1..] ==> e in es;
    if tid in t'.jobs {
      JobLeavesRunning(t', es[1..], tid);
    } else {
      StaysFree(t', es[1..]);
    }
  }

  // --- a stored verdict survives -------------------------------------------------------

  /** The verdict the last successful investigation of a run stores. */
  function LastSaved(t: Ticket, es: seq<Event>): Option<Verdict>
    requires Feasible(t, es)
    decreases es
  {
    if es == [] then None
    else
      var later := LastSaved(Step(t, es[0]), es[1..]);
      if later.Some? then later
      else if es[0].RcaGo? && es[0].ok && t.rcas[es[0].tid].Investigating? then Some(es[0].text)
      else None
  }

  /** Without /reset the stored verdict is what the last successful investigation saved, or what it was. */
  lemma {:induction false} VerdictSurvives(t: Ticket, es: seq<Event>)
    requires Feasible(t, es) && ResetFree(es)
    ensures Exec(t, es).row.verdict == if LastSaved(t, es).Some? then LastSaved(t, es) else t.row.verdict
    ensures t.row.verdict.Some? ==> Exec(t, es).row.verdict.Some?
    decreases es
  {
    if es != [] {
      VerdictStep(t, es[0]);
      VerdictSurvives(Step(t, es[0]), es[1..]);
    }
  }

  lemma VerdictStep(t: Ticket, e: Event)
    requires Enabled(t, e) && !e.Reset?
    ensures Step(t, e).row.verdict ==
      if e.RcaGo? && e.ok && t.rcas[e.tid].Investigating? then Some(e.text) else t.row.verdict
  {
  }

  /** In every run, resets included, a row that reads 'rca_ready' has a verdict to show. */
  lemma {:induction false} ReadyHasVerdict(t: Ticket, es: seq<Event>)
    requires Feasible(t, es)
    requires t.row.status.RcaReady? ==> t.row.verdict.Some?
    ensures Exec(t, es).row.status.RcaReady? ==> Exec(t, es).row.verdict.Some?
    decreases es
  {
    if es != [] {
      ReadyHasVerdict(Step(t, es[0]), es[1..]);
    }
  }

  // --- what keeps a human's decision -------------------------------------------------------

  predicate InvestigatingLive(t: Ticket) {
    exists a :: a in t.rcas && t.rcas[a].Investigating?
  }

  /** Neither /rca nor /reset: nobody asks for the ticket to be opened again. */
  predicate NobodyReopens(es: seq<Event>) {
    forall e :: e in es ==> !e.Reset? && !e.ClickRca?
  }

  lemma DecidedStep(t: Ticket, e: Event)
    requires Decided(t.row.status) && !InvestigatingLive(t) && Enabled(t, e) && !e.Reset? && !e.ClickRca?
    ensures Decided(Step(t, e).row.status) && !InvestigatingLive(Step(t, e))
  {
  }

  lemma {:induction false} DecisionStays(t: Ticket, es: seq<Event>)
    requires Decided(t.row.status) && !InvestigatingLive(t) && Feasible(t, es) && NobodyReopens(es)
    ensures Decided(Exec(t, es).row.status)
    decreases es
  {
    if es != [] {
      assert es[0] in es && forall e :: e in es[1..] ==> e in es;
      DecidedStep(t, es[0]);
      DecisionStays(Step(t, es[0]), es[1..]);
    }
  }

  /**
    A decision stands against everything but /rca and /reset iff no investigation is running
    when it is made: one that is saves its verdict and opens the ticket again.
   */
  lemma DecisionStaysIff(t: Ticket)
    requires Decided(t.row.status)
    ensures (forall es :: Feasible(t, es) && NobodyReopens(es) ==> Decided(Exec(t, es).row.status))
       <==> !InvestigatingLive(t)
  {
    if InvestigatingLive(t) {
      var a :| a in t.rcas && t.rcas[a].Investigating?;
      var id := BoundOf(t.used);
      var go := RcaGo(a, true, id, "");
      PathIsRun([t, RcaStep(t, a, true, id, "")], [go]);
      assert Feasible(t, [go]) && NobodyReopens([go]) && Exec(t, [go]).row.status == RcaReady;
    } else {
      forall es | Feasible(t, es) && NobodyReopens(es)
        ensures Decided(Exec(t, es).row.status)
      {
        DecisionStays(t, es);
      }
    }
  }

  /** Accept asks for a verdict only, so every new ticket can be accepted while a second run is on. */
  lemma NewTicketCanLoseItsDecision(f: JiraFields, v: Verdict)
    ensures exists es :: (
      && Feasible(Fresh(f), es)
      && Exec(Fresh(f), es).row.status.Accepted? && InvestigatingLive(Exec(Fresh(f), es)))
  {
    var go := RcaGo(0, true, 0, v);
    var t1 := ClickRcaStep(Fresh(f), 0).ticket;
    var t2 := RcaStep(t1, 0, true, 0, v);
    var t3, t4 := AcceptedInBetween(t2, 1);
    var ts, es := [Fresh(f), t1, t2], [ClickRca(0), go];
    PathsJoin(ts, es, [t2, t3, t4], [ClickRca(1), Accept]);
    PathIsRun(ts + [t2, t3, t4][1..], es + [ClickRca(1), Accept]);
  }

  lemma AcceptedInBetween(t: Ticket, tid: ThreadId) returns (t1: Ticket, t2: Ticket)
    requires t.row.status.RcaReady? && t.row.verdict.Some? && tid !in t.rcas && t.row.jobStatus.None?
    ensures Path([t, t1, t2], [ClickRca(tid), Accept])
    ensures t2.row.status.Accepted? && InvestigatingLive(t2)
  {
    t1 := ClickRcaStep(t, tid).ticket;
    t2 := AcceptStep(t1).ticket;
    assert tid in t2.rcas && t2.rcas[tid].Investigating?;
  }

  // --- one automatic claim, ever ---------------------------------------------------------

  /** How many automatic claims succeed along a run. */
  function AutoClaims(t: Ticket, es: seq<Event>): nat
    requires Feasible(t, es)
    decreases es
  {
    if es == [] then 0
    else (if es[0].AutoClaim? && AutoClaimable(t.row) then 1 else 0)
         + AutoClaims(Step(t, es[0]), es[1..])
  }

  lemma StampStep(t: Ticket, e: Event)
    requires Enabled(t, e)
    ensures Step(t, e).row.autoRunAt ==
      if e.AutoClaim? && AutoClaimable(t.row) then Some(e.now) else t.row.autoRunAt
  {
    hide JobStep, RcaStep;
    if !e.ClickRca? && !e.AutoClaim? { StepKeepsStamp(t, e); }
  }

  /** Resets, failures and restarts included: the stamp is written at most once. */
  lemma {:induction false} AutoRunOnce(t: Ticket, es: seq<Event>)
    requires Feasible(t, es)
    ensures t.row.autoRunAt.Some? ==> Exec(t, es).row.autoRunAt == t.row.autoRunAt
    ensures AutoClaims(t, es) <= if t.row.autoRunAt.Some? then 0 else 1
    ensures Exec(t, es).row.autoRunAt.Some? <==> t.row.autoRunAt.Some? || AutoClaims(t, es) == 1
    decreases es
  {
    if es != [] {
      StampStep(t, es[0]);
      AutoRunOnce(Step(t, es[0]), es[1..]);
    }
  }
}
