/** rca_agent/webapp/app.py, the action jobs: how each of them ends, whatever happens between its calls. */
module JobOutcomes {
  import opened Basics
  import opened ReviewStore
  import opened Lifecycle
  import opened LifecycleSafety

  /** Step `i` of a run is a call of this job. */
  predicate Own(es: seq<Event>, tid: ThreadId, i: int) {
    0 <= i < |es| && es[i].JobGo? && es[i].tid == tid
  }

  /** The calls that can raise: reading the ticket (or the fix agent's run), and the two to Jira. */
  predicate CanRaise(p: JobPhase) {
    p.Started? || p.Deleting? || p.PostingJob?
  }

  /** A call of this job that raised: Jira or the agent failed, or there was no verdict to post or to fix by. */
  predicate Raises(t: Ticket, e: Event, tid: ThreadId) {
    e.JobGo? && e.tid == tid && tid in t.jobs && CanRaise(t.jobs[tid].phase)
    && (!e.ok || (t.jobs[tid].phase.Started? && t.jobs[tid].kind != RejectJob && t.row.verdict == None))
  }

  ghost predicate NoneRaises(ts: seq<Ticket>, es: seq<Event>, tid: ThreadId) {
    |ts| > |es| && forall i :: 0 <= i < |es| ==> !Raises(ts[i], es[i], tid)
  }

  /** A run beside a live job, up to and with the job's last call. */
  ghost predicate UntilItEnds(ts: seq<Ticket>, es: seq<Event>, tid: ThreadId) {
    && Path(ts, es) && JobNamedOnce(es, tid) && (forall i :: 0 <= i < |es| ==> !es[i].Restart?)
    && tid in ts[0].jobs && Own(es, tid, |es| - 1) && tid !in ts[|es|].jobs
  }

  /** This call decides nothing. */
  predicate LeavesDecision(r: Row, r': Row) {
    r'.status == r.status && r'.comment == r.comment
  }

  /** Only call `j` of the job may have decided anything. */
  ghost predicate OnlyDecides(ts: seq<Ticket>, es: seq<Event>, tid: ThreadId, j: int) {
    |ts| > |es| && forall k :: Own(es, tid, k) && k != j ==> LeavesDecision(ts[k].row, ts[k + 1].row)
  }

  /** Call `j` records the decision with Jira's comment `c`. */
  ghost predicate Decides(ts: seq<Ticket>, es: seq<Event>, tid: ThreadId, j: int, kind: JobKind, c: CommentId) {
    && |ts| > |es| && Own(es, tid, j)
    && ts[j + 1].row.status == (if kind == RejectJob then Status.Rejected else Status.Accepted)
    && ts[j + 1].row.comment == Some(c)
  }

  /** Jira handed out `c` in answer to call `i`. */
  ghost predicate HandsOut(ts: seq<Ticket>, es: seq<Event>, tid: ThreadId, i: int, c: CommentId) {
    && |ts| > |es| && Own(es, tid, i) && tid in ts[i].jobs && ts[i].jobs[tid].phase.PostingJob? && es[i].ok
    && es[i].id == c && c !in ts[i].used && c in ts[i + 1].onJira && ts[i + 1].used == ts[i].used + {c}
  }

  // --- one call at a time ----------------------------------------------------------------------------

  lemma OthersLeaveJob(t: Ticket, e: Event, tid: ThreadId)
    requires Enabled(t, e) && tid in t.jobs && !e.Restart? && (Starts(e) ==> e.tid != tid)
    requires !(e.JobGo? && e.tid == tid)
    ensures tid in Step(t, e).jobs && Step(t, e).jobs[tid] == t.jobs[tid]
  {
    hide RcaStep;
    if e.RcaGo? { RcaLeavesJobs(t, e.tid, e.ok, e.id, e.text); }
  }

  lemma RcaLeavesJobs(t: Ticket, tid: ThreadId, ok: bool, id: CommentId, text: string)
    requires tid in t.rcas
    ensures RcaStep(t, tid, ok, id, text).jobs == t.jobs
  {
  }

  lemma RestOf(ts: seq<Ticket>, es: seq<Event>, tid: ThreadId)
    requires UntilItEnds(ts, es, tid) && |es| > 1 && tid in ts[1].jobs
    ensures UntilItEnds(ts[1..], es[1..], tid)
    ensures NoneRaises(ts, es, tid) <==> !Raises(ts[0], es[0], tid) && NoneRaises(ts[1..], es[1..], tid)
  {
    var us, fs := ts[1..], es[1..];
    assert Own(fs, tid, |fs| - 1);
    assert forall i :: 0 <= i < |fs| ==> fs[i] == es[i + 1] && us[i] == ts[i + 1];
    if NoneRaises(us, fs, tid) && !Raises(ts[0], es[0], tid) {
      forall i | 0 <= i < |es|
        ensures !Raises(ts[i], es[i], tid)
      {
        if i > 0 { assert !Raises(us[i - 1], fs[i - 1], tid); }
      }
    }
    if NoneRaises(ts, es, tid) {
      forall i | 0 <= i < |fs|
        ensures !Raises(us[i], fs[i], tid)
      {
        assert !Raises(ts[i + 1], es[i + 1], tid);
      }
    }
  }

  /** The next call of the job itself. */
  lemma OwnCall(t: Ticket, e: Event, tid: ThreadId)
    requires Enabled(t, e) && e.JobGo? && e.tid == tid
    ensures var p, t' := t.jobs[tid].phase, Step(t, e);
      && (tid !in t'.jobs <==> p.Finishing? || p.Failing?)
      && (p.Finishing? ==> t'.row.jobStatus == Some(JobDone))
      && (p.Failing? ==> t'.row.jobStatus == Some(JobFailed))
      && (tid in t'.jobs ==> t'.jobs[tid].kind == t.jobs[tid].kind && (t'.jobs[tid].phase.Failing? <==> Raises(t, e, tid)))
  {
  }

  lemma CallDecides(t: Ticket, e: Event, tid: ThreadId)
    requires Enabled(t, e) && e.JobGo? && e.tid == tid
    ensures var p, kind, t' := t.jobs[tid].phase, t.jobs[tid].kind, Step(t, e);
      && (!p.Marking? ==> LeavesDecision(t.row, t'.row))
      && (p.Marking? ==> tid in t'.jobs && t'.jobs[tid].phase.Finishing? && t'.row.comment == Some(p.cid)
                         && t'.row.status == (if kind == RejectJob then Status.Rejected else Status.Accepted))
      && (p.PostingJob? && e.ok ==> tid in t'.jobs && t'.jobs[tid].phase == Marking(e.id) && e.id in t'.onJira)
      && (p.PostingJob? && e.ok ==> t'.used == t.used + {e.id})
      && e.id !in t.used
      && (tid in t'.jobs && t'.jobs[tid].phase.Marking? ==> p.PostingJob? && e.ok)
      && (tid in t'.jobs && t'.jobs[tid].phase.Finishing? ==> p.Marking? || kind.FixJob?)
      && (kind.FixJob? && p.Started? && tid in t'.jobs ==> t'.jobs[tid].phase.Finishing? || t'.jobs[tid].phase.Failing?)
  {
  }

  /** A job ends as done exactly when none of its calls raises. */
  lemma {:induction false} EndsAs(ts: seq<Ticket>, es: seq<Event>, tid: ThreadId)
    requires UntilItEnds(ts, es, tid)
    ensures ts[|es|].row.jobStatus ==
      Some(if !ts[0].jobs[tid].phase.Failing? && NoneRaises(ts, es, tid) then JobDone else JobFailed)
    decreases es
  {
    hide Step, Enabled;
    if Own(es, tid, 0) {
      OwnCall(ts[0], es[0], tid);
    } else {
      OthersLeaveJob(ts[0], es[0], tid);
    }
    if tid in ts[1].jobs {
      RestOf(ts, es, tid);
      EndsAs(ts[1..], es[1..], tid);
    } else {
      OverByThen(ts, es, tid);
    }
  }

  /** No call of a job comes after its end. */
  lemma OverByThen(ts: seq<Ticket>, es: seq<Event>, tid: ThreadId)
    requires UntilItEnds(ts, es, tid) && tid !in ts[1].jobs && Own(es, tid, 0)
    ensures |es| == 1
  {
    StaysOver(ts[1..], es[1..], tid);
    forall i | 0 < i < |es|
      ensures !Own(es, tid, i)
    {
      assert !Own(es[1..], tid, i - 1);
    }
  }

  lemma {:induction false} StaysOver(ts: seq<Ticket>, es: seq<Event>, tid: ThreadId)
    requires Path(ts, es) && JobNamedOnce(es, tid) && tid !in ts[0].jobs
    ensures forall i :: 0 <= i < |es| ==> !Own(es, tid, i)
    decreases es
  {
    if es != [] {
      var us, fs := ts[1..], es[1..];
      NotBack(ts[0], es[0], tid);
      StaysOver(us, fs, tid);
      forall i | 0 <= i < |es|
        ensures !Own(es, tid, i)
      {
        if i > 0 { assert !Own(fs, tid, i - 1); }
      }
    }
  }

  lemma NotBack(t: Ticket, e: Event, tid: ThreadId)
    requires Enabled(t, e) && tid !in t.jobs && (Starts(e) ==> e.tid != tid)
    ensures tid !in Step(t, e).jobs && !(e.JobGo? && e.tid == tid)
  {
    hide RcaStep;
    if e.RcaGo? { RcaLeavesJobs(t, e.tid, e.ok, e.id, e.text); }
  }

  // --- the decision --------------------------------------------------------------------------------

  /** Where the decision of a job falls in a run: call `j`, with the comment `c` that call `i` brought. */
  ghost predicate DecidedBy(ts: seq<Ticket>, es: seq<Event>, tid: ThreadId, i: int, j: int, c: CommentId)
    requires |ts| > 0 && tid in ts[0].jobs
  {
    && Decides(ts, es, tid, j, ts[0].jobs[tid].kind, c) && OnlyDecides(ts, es, tid, j)
    && if ts[0].jobs[tid].phase.Marking? then ts[0].jobs[tid].phase.cid == c else i < j && HandsOut(ts, es, tid, i, c)
  }

  ghost predicate DecidesNothing(ts: seq<Ticket>, es: seq<Event>, tid: ThreadId) {
    OnlyDecides(ts, es, tid, -1)
  }

  predicate StillToDecide(j: Job) {
    Posts(j.kind) && !j.phase.Finishing? && !j.phase.Failing?
  }

  predicate Sensible(j: Job) {
    j.kind.FixJob? ==> j.phase.Started? || j.phase.Finishing? || j.phase.Failing?
  }

  lemma {:induction false} ShiftNothing(ts: seq<Ticket>, es: seq<Event>, tid: ThreadId)
    requires |ts| == |es| + 1 && es != [] && DecidesNothing(ts[1..], es[1..], tid)
    requires Own(es, tid, 0) ==> LeavesDecision(ts[0].row, ts[1].row)
    ensures DecidesNothing(ts, es, tid)
  {
    forall k | Own(es, tid, k) && k != -1
      ensures LeavesDecision(ts[k].row, ts[k + 1].row)
    {
      if k > 0 { assert Own(es[1..], tid, k - 1); }
    }
  }

  lemma {:induction false} ShiftDecision(ts: seq<Ticket>, es: seq<Event>, tid: ThreadId, j: int, kind: JobKind,
                                         c: CommentId)
    requires |ts| == |es| + 1 && es != [] && OnlyDecides(ts[1..], es[1..], tid, j)
    requires Decides(ts[1..], es[1..], tid, j, kind, c)
    requires Own(es, tid, 0) ==> LeavesDecision(ts[0].row, ts[1].row)
    ensures OnlyDecides(ts, es, tid, j + 1) && Decides(ts, es, tid, j + 1, kind, c)
  {
    forall k | Own(es, tid, k) && k != j + 1
      ensures LeavesDecision(ts[k].row, ts[k + 1].row)
    {
      if k > 0 { assert Own(es[1..], tid, k - 1); }
    }
  }

  lemma {:induction false} DecidesHere(ts: seq<Ticket>, es: seq<Event>, tid: ThreadId, kind: JobKind, c: CommentId)
    requires |ts| == |es| + 1 && es != [] && DecidesNothing(ts[1..], es[1..], tid) && Own(es, tid, 0)
    requires ts[1].row.comment == Some(c)
    requires ts[1].row.status == if kind == RejectJob then Status.Rejected else Status.Accepted
    ensures OnlyDecides(ts, es, tid, 0) && Decides(ts, es, tid, 0, kind, c)
  {
    forall k | Own(es, tid, k) && k != 0
      ensures LeavesDecision(ts[k].row, ts[k + 1].row)
    {
      assert Own(es[1..], tid, k - 1);
    }
  }

  /** Once its comment is on Jira, or once it has failed, only the store is left to call. */
  lemma {:induction false} NothingLeftToRaise(ts: seq<Ticket>, es: seq<Event>, tid: ThreadId)
    requires UntilItEnds(ts, es, tid)
    requires ts[0].jobs[tid].phase.Marking? || ts[0].jobs[tid].phase.Finishing? || ts[0].jobs[tid].phase.Failing?
    ensures NoneRaises(ts, es, tid)
    decreases es
  {
    hide Step, Enabled;
    if Own(es, tid, 0) {
      OwnCall(ts[0], es[0], tid);
      CallDecides(ts[0], es[0], tid);
    } else {
      OthersLeaveJob(ts[0], es[0], tid);
    }
    if tid in ts[1].jobs {
      RestOf(ts, es, tid);
      NothingLeftToRaise(ts[1..], es[1..], tid);
    } else {
      OverByThen(ts, es, tid);
    }
  }

  /** The decision falls in one call of the job, after Jira took the comment; a job that fails decides nothing. */
  lemma {:induction false} DecisionFalls(ts: seq<Ticket>, es: seq<Event>, tid: ThreadId)
    returns (i: int, j: int, c: CommentId)
    requires UntilItEnds(ts, es, tid) && Sensible(ts[0].jobs[tid])
    ensures if StillToDecide(ts[0].jobs[tid]) && NoneRaises(ts, es, tid)
            then DecidedBy(ts, es, tid, i, j, c) else DecidesNothing(ts, es, tid)
    decreases es
  {
    hide Step, Enabled;
    i, j, c := -1, -1, 0;
    var job := ts[0].jobs[tid];
    if Own(es, tid, 0) {
      OwnCall(ts[0], es[0], tid);
      CallDecides(ts[0], es[0], tid);
    } else {
      OthersLeaveJob(ts[0], es[0], tid);
    }
    if tid in ts[1].jobs {
      RestOf(ts, es, tid);
      i, j, c := DecisionFalls(ts[1..], es[1..], tid);
      if StillToDecide(ts[1].jobs[tid]) && NoneRaises(ts[1..], es[1..], tid) {
        ShiftDecision(ts, es, tid, j, job.kind, c);
        if Own(es, tid, 0) && job.phase.PostingJob? {
          i, j := 0, j + 1;
        } else {
          assert HandsOut(ts[1..], es[1..], tid, i, c) ==> HandsOut(ts, es, tid, i + 1, c);
          i, j := i + 1, j + 1;
        }
      } else if Own(es, tid, 0) && job.phase.Marking? {
        c, j := job.phase.cid, 0;
        NothingLeftToRaise(ts, es, tid);
        DecidesHere(ts, es, tid, job.kind, c);
      } else {
        ShiftNothing(ts, es, tid);
      }
    } else {
      OverByThen(ts, es, tid);
    }
  }

  // --- the outcomes --------------------------------------------------------------------------------

  /**
    A job from its start to its end, whatever happens in between.  It reads 'done' exactly when
    none of its calls raised.  A posting job then decided once, after Jira took its comment;
    one that failed, like a fix job, decided nothing.
   */
  lemma {:induction false} JobOutcome(ts: seq<Ticket>, es: seq<Event>, tid: ThreadId)
    requires UntilItEnds(ts, es, tid) && ts[0].jobs[tid].phase.Started?
    ensures ts[|es|].row.jobStatus == Some(if NoneRaises(ts, es, tid) then JobDone else JobFailed)
    ensures NoneRaises(ts, es, tid) && ts[0].jobs[tid].kind != FixJob ==>
      exists i, j, c :: (
        && i < j && HandsOut(ts, es, tid, i, c) && Decides(ts, es, tid, j, ts[0].jobs[tid].kind, c)
        && OnlyDecides(ts, es, tid, j))
    ensures !NoneRaises(ts, es, tid) || ts[0].jobs[tid].kind == FixJob ==>
      forall k :: Own(es, tid, k) ==> LeavesDecision(ts[k].row, ts[k + 1].row)
  {
    hide Step, Enabled;
    EndsAs(ts, es, tid);
    var i, j, c := DecisionFalls(ts, es, tid);
  }

  lemma {:induction false} KeptToTheEnd(ts: seq<Ticket>, es: seq<Event>, tid: ThreadId, j: int, k: nat)
    requires Path(ts, es) && (forall i :: 0 <= i < |es| ==> Own(es, tid, i)) && OnlyDecides(ts, es, tid, j)
    requires j < k <= |es|
    ensures LeavesDecision(ts[k].row, ts[|es|].row)
    decreases |es| - k
  {
    hide Step, Enabled;
    if k < |es| {
      KeptToTheEnd(ts, es, tid, j, k + 1);
      assert Own(es, tid, k);
    }
  }

  lemma {:induction false} StaysOnJira(ts: seq<Ticket>, es: seq<Event>, tid: ThreadId, k: nat, c: CommentId)
    requires Path(ts, es) && (forall i :: 0 <= i < |es| ==> Own(es, tid, i)) && k <= |es| && tid in ts[k].jobs
    requires c in ts[k].onJira && !ts[k].jobs[tid].phase.Started? && !ts[k].jobs[tid].phase.Deleting?
    ensures c in ts[|es|].onJira
    decreases |es| - k
  {
    hide Step, Enabled;
    if k < |es| {
      assert Own(es, tid, k);
      PastDeleting(ts[k], es[k], tid);
      if k + 1 < |es| {
        assert Own(es, tid, k + 1);
        LiveBefore(ts[k + 1], es[k + 1], tid);
        StaysOnJira(ts, es, tid, k + 1, c);
      }
    }
  }

  lemma LiveBefore(t: Ticket, e: Event, tid: ThreadId)
    requires Enabled(t, e) && e.JobGo? && e.tid == tid
    ensures tid in t.jobs
  {
  }

  lemma PastDeleting(t: Ticket, e: Event, tid: ThreadId)
    requires Enabled(t, e) && e.JobGo? && e.tid == tid
    requires !t.jobs[tid].phase.Started? && !t.jobs[tid].phase.Deleting?
    ensures t.onJira <= Step(t, e).onJira
    ensures tid in Step(t, e).jobs ==>
      !Step(t, e).jobs[tid].phase.Started? && !Step(t, e).jobs[tid].phase.Deleting?
  {
  }

  lemma KeepsVerdict(t: Ticket, e: Event, tid: ThreadId)
    requires Enabled(t, e) && e.JobGo? && e.tid == tid
    ensures tid in t.jobs && Step(t, e).row.verdict == t.row.verdict
    ensures tid in Step(t, e).jobs ==> Step(t, e).jobs[tid].kind == t.jobs[tid].kind
  {
  }

  lemma {:induction false} VerdictAllAlong(ts: seq<Ticket>, es: seq<Event>, tid: ThreadId, k: nat)
    requires Path(ts, es) && (forall i :: 0 <= i < |es| ==> Own(es, tid, i)) && k < |es|
    ensures tid in ts[0].jobs && tid in ts[k].jobs
    ensures ts[k].row.verdict == ts[0].row.verdict && ts[k].jobs[tid].kind == ts[0].jobs[tid].kind
    decreases k
  {
    hide Step, Enabled;
    assert Own(es, tid, k) && Own(es, tid, 0);
    KeepsVerdict(ts[k], es[k], tid);
    if k > 0 {
      VerdictAllAlong(ts, es, tid, k - 1);
      assert Own(es, tid, k - 1);
      KeepsVerdict(ts[k - 1], es[k - 1], tid);
    }
  }

  /** All calls of a job, and nothing in between. */
  ghost predicate LeftAlone(ts: seq<Ticket>, es: seq<Event>, tid: ThreadId) {
    && Path(ts, es) && es != [] && (forall i :: 0 <= i < |es| ==> Own(es, tid, i))
    && tid in ts[0].jobs && ts[0].jobs[tid].phase.Started? && tid !in ts[|es|].jobs
  }

  lemma AloneEnds(ts: seq<Ticket>, es: seq<Event>, tid: ThreadId)
    requires LeftAlone(ts, es, tid)
    ensures UntilItEnds(ts, es, tid)
  {
    assert Own(es, tid, |es| - 1);
    forall i | 0 <= i < |es|
      ensures !es[i].Restart? && !Starts(es[i])
    {
      assert Own(es, tid, i);
    }
  }

  lemma AllWell(ts: seq<Ticket>, es: seq<Event>, tid: ThreadId)
    requires LeftAlone(ts, es, tid) && (forall e :: e in es ==> e.JobGo? && e.ok)
    requires ts[0].jobs[tid].kind == RejectJob || ts[0].row.verdict != None
    ensures NoneRaises(ts, es, tid)
  {
    forall i | 0 <= i < |es|
      ensures !Raises(ts[i], es[i], tid)
    {
      VerdictAllAlong(ts, es, tid, i);
      assert es[i] in es;
    }
  }

  /** A posting job left alone, all of whose calls succeed: done, decided by its kind, and Jira's id recorded. */
  lemma {:induction false} PostingJobSucceeds(ts: seq<Ticket>, es: seq<Event>, tid: ThreadId)
    requires LeftAlone(ts, es, tid) && (forall e :: e in es ==> e.JobGo? && e.ok)
    requires ts[0].jobs[tid].kind == RejectJob || (ts[0].jobs[tid].kind == AcceptJob && ts[0].row.verdict != None)
    ensures var r := ts[|es|].row;
      && r.jobStatus == Some(JobDone)
      && r.status == (if ts[0].jobs[tid].kind == RejectJob then Status.Rejected else Status.Accepted)
      && exists i :: 0 <= i < |es| && r.comment == Some(es[i].id) && es[i].id in ts[|es|].onJira && es[i].id !in ts[i].used
  {
    hide Step, Enabled;
    AloneEnds(ts, es, tid);
    AllWell(ts, es, tid);
    JobOutcome(ts, es, tid);
    var i, j, c :| i < j && HandsOut(ts, es, tid, i, c) && Decides(ts, es, tid, j, ts[0].jobs[tid].kind, c)
                   && OnlyDecides(ts, es, tid, j);
    KeptToTheEnd(ts, es, tid, j, j + 1);
    VerdictAllAlong(ts, es, tid, i + 1);
    CallDecides(ts[i], es[i], tid);
    StaysOnJira(ts, es, tid, i + 1, c);
  }

  /** A fix job left alone, its calls all well: done, and no decision taken. */
  lemma {:induction false} FixJobSucceeds(ts: seq<Ticket>, es: seq<Event>, tid: ThreadId)
    requires LeftAlone(ts, es, tid) && (forall e :: e in es ==> e.JobGo? && e.ok)
    requires ts[0].jobs[tid].kind == FixJob && ts[0].row.verdict != None
    ensures ts[|es|].row.jobStatus == Some(JobDone) && LeavesDecision(ts[0].row, ts[|es|].row)
  {
    hide Step, Enabled;
    AloneEnds(ts, es, tid);
    AllWell(ts, es, tid);
    JobOutcome(ts, es, tid);
    KeptToTheEnd(ts, es, tid, -1, 0);
  }

  /** Any job left alone, one of whose calls raises: failed, and no decision taken. */
  lemma {:induction false} JobFails(ts: seq<Ticket>, es: seq<Event>, tid: ThreadId, i: nat)
    requires LeftAlone(ts, es, tid) && i < |es| && Raises(ts[i], es[i], tid)
    ensures ts[|es|].row.jobStatus == Some(JobFailed) && LeavesDecision(ts[0].row, ts[|es|].row)
  {
    hide Step, Enabled;
    AloneEnds(ts, es, tid);
    JobOutcome(ts, es, tid);
    KeptToTheEnd(ts, es, tid, -1, 0);
  }
}
