/**
  The job slot (`start_job`, `_refuse_if_posting`): one posting job at a time, and no
  decision recorded over a human's.
 */
module JobSlot {
  import opened Basics
  import opened ReviewStore
  import opened Lifecycle
  import opened ThreadRuns

  /** At most one posting job is live, and it will not decide what is already decided. */
  ghost predicate OneDecider(t: Ticket) {
    && (forall a, b :: a in t.jobs && b in t.jobs && Posts(t.jobs[a].kind) && Posts(t.jobs[b].kind) ==> a == b)
    && (forall a :: a in t.jobs && t.jobs[a].phase.Marking? ==> !Decided(t.row.status))
  }

  /** The invariant behind it: the row names the one live job. */
  ghost predicate SlotSound(t: Ticket) {
    && (forall a, b :: a in t.jobs && b in t.jobs ==> a == b)
    && (forall a :: a in t.jobs ==>
          t.row.jobStatus == Some(JobRunning) && t.row.jobKind == Some(t.jobs[a].kind))
    && (forall a :: a in t.jobs && Undecided(t.jobs[a]) ==> !Decided(t.row.status))
    && (forall a :: a in t.jobs && t.jobs[a].kind.FixJob? ==> FixPhase(t.jobs[a].phase))
  }

  /**
    The slot lives in the row: /reset clears it whatever threads are live, unless it is refused.
    What is promised survives every step but such a reset, and after it can be broken.
   */
  predicate ResetGoesThrough(t: Ticket, e: Event) {
    e.Reset? && ResetStep(t, e.deleted).reply.Ok?
  }

  lemma JobStepKeepsSlot(t: Ticket, tid: ThreadId, ok: bool, id: CommentId)
    requires SlotSound(t) && tid in t.jobs
    ensures SlotSound(JobStep(t, tid, ok, id))
  {
    var t' := JobStep(t, tid, ok, id);
    assert forall a :: a in t'.jobs ==> a == tid;
  }

  lemma StartJobKeepsSlot(t: Ticket, tid: ThreadId, kind: JobKind)
    requires SlotSound(t) && (Posts(kind) ==> !Decided(t.row.status))
    ensures SlotSound(StartJobStep(t, tid, kind).ticket)
  {
    var t' := StartJobStep(t, tid, kind).ticket;
    if t' != t {
      assert forall a :: a in t'.jobs ==> a == tid;
    }
  }

  lemma ResetAndSlot(t: Ticket, deleted: bool)
    requires SlotSound(t)
    ensures SlotSound(ResetStep(t, deleted).ticket)
       <==> !(ResetStep(t, deleted).reply.Ok? && t.jobs != map[])
  {
    if ResetStep(t, deleted).reply.Ok? && t.jobs != map[] {
      var tid :| tid in t.jobs;
      assert tid in ResetStep(t, deleted).ticket.jobs;
    }
  }

  lemma OtherStepKeepsSlot(t: Ticket, e: Event)
    requires SlotSound(t) && Enabled(t, e)
    requires !e.JobGo? && !e.Reset? && !e.AcceptAndPost? && !e.Reject? && !e.SuggestFix?
    ensures SlotSound(Step(t, e))
  {
    var t' := Step(t, e);
    assert t'.jobs == t.jobs || t'.jobs == map[];
    if t'.jobs != map[] {
      assert t'.row.jobStatus == t.row.jobStatus && t'.row.jobKind == t.row.jobKind;
    }
  }

  /** A step from a sound slot leaves it sound iff it frees no live job's slot. */
  lemma SlotStep(t: Ticket, e: Event)
    requires Enabled(t, e) && SlotSound(t)
    ensures SlotSound(Step(t, e)) <==> !(ResetGoesThrough(t, e) && t.jobs != map[])
  {
    match e
    case JobGo(tid, ok, id) => JobStepKeepsSlot(t, tid, ok, id);
    case Reset(deleted) => ResetAndSlot(t, deleted);
    case AcceptAndPost(tid) => if Step(t, e).jobs != t.jobs { StartJobKeepsSlot(t, tid, AcceptJob); }
    case Reject(tid, _) => if Step(t, e).jobs != t.jobs { StartJobKeepsSlot(t, tid, RejectJob); }
    case SuggestFix(tid) => if Step(t, e).jobs != t.jobs { StartJobKeepsSlot(t, tid, FixJob); }
    case _ => OtherStepKeepsSlot(t, e);
  }

  /** No reset goes through while a job thread of any kind is live; a refused one does not matter. */
  ghost predicate NoResetUnderJobs(t: Ticket, es: seq<Event>)
    requires Feasible(t, es)
    decreases es
  {
    es == [] || ((ResetGoesThrough(t, es[0]) ==> t.jobs == map[]) && NoResetUnderJobs(Step(t, es[0]), es[1..]))
  }

  lemma {:induction false} SlotAlwaysSound(t: Ticket, es: seq<Event>)
    requires Feasible(t, es) && SlotSound(t) && NoResetUnderJobs(t, es)
    ensures SlotSound(Exec(t, es))
    decreases es
  {
    if es != [] {
      SlotStep(t, es[0]);
      SlotAlwaysSound(Step(t, es[0]), es[1..]);
    }
  }

  /** Read off for a run: a posting job is alone, and the status it overwrites is never a decision. */
  lemma {:induction false} OnePostingJob(t: Ticket, es: seq<Event>, a: ThreadId, b: ThreadId)
    requires Feasible(t, es) && SlotSound(t) && NoResetUnderJobs(t, es)
    requires a in Exec(t, es).jobs && Posts(Exec(t, es).jobs[a].kind)
    ensures OneDecider(Exec(t, es)) && (b in Exec(t, es).jobs ==> a == b)
    ensures Exec(t, es).jobs[a].phase.Marking? ==> !Decided(Exec(t, es).row.status)
  {
    SlotAlwaysSound(t, es);
  }

  // --- and only then ------------------------------------------------------------------------

  /** No run from here breaks the promise, as long as no further reset goes through under a job. */
  ghost predicate SafeAhead(t: Ticket) {
    forall es :: Feasible(t, es) && NoResetUnderJobs(t, es) ==> OneDecider(Exec(t, es))
  }

  lemma {:induction false} ResetFreeIsAllowed(t: Ticket, es: seq<Event>)
    requires Feasible(t, es) && ResetFree(es)
    ensures NoResetUnderJobs(t, es)
    decreases es
  {
    if es != [] { ResetFreeIsAllowed(Step(t, es[0]), es[1..]); }
  }

  /** One posting job has decided the ticket; another is live and about to decide it again. */
  predicate Overwritten(t: Ticket, a: ThreadId, b: ThreadId) {
    && a != b && a in t.jobs && b in t.jobs && Posts(t.jobs[a].kind) && Posts(t.jobs[b].kind)
    && t.jobs[b].phase.Marking? && Decided(t.row.status)
  }

  /** Two posting jobs that can both decide: one does, with the other on the brink. */
  lemma BothDecide(t: Ticket, a: ThreadId, b: ThreadId) returns (ts: seq<Ticket>, es: seq<Event>)
    requires a != b && a in t.jobs && b in t.jobs && CanDecide(t.jobs[a]) && CanDecide(t.jobs[b])
    requires t.row.autoComment.None?
    ensures Path(ts, es) && ResetFree(es) && ts[0] == t && Overwritten(ts[|es|], a, b)
  {
    var us, ds := DriveToMarking(t, a);
    var vs, fs := DriveToMarking(us[|ds|], b);
    var last := vs[|fs|];
    var id := BoundOf(last.used);
    var mark := JobGo(a, true, id);
    PathsJoin(us, ds, vs, fs);
    var ws := [last, JobStep(last, a, true, id)];
    assert Path(ws, [mark]);
    PathsJoin(us + vs[1..], ds + fs, ws, [mark]);
    ts, es := us + vs[1..] + ws[1..], ds + fs + [mark];
  }

  /** A job that cannot decide any more ends, and its end frees the slot for whoever holds it. */
  lemma EndsUndecided(t: Ticket, j: ThreadId) returns (ts: seq<Ticket>, es: seq<Event>)
    requires j in t.jobs && !CanDecide(t.jobs[j]) && (t.jobs[j].kind.FixJob? ==> FixPhase(t.jobs[j].phase))
    ensures Path(ts, es) && ResetFree(es) && ts[0] == t
    ensures ts[|es|].jobs == t.jobs - {j} && ts[|es|].row.jobStatus != Some(JobRunning)
    ensures ts[|es|].row == t.row.(jobStatus := ts[|es|].row.jobStatus)
  {
    var id := BoundOf(t.used);
    var go := JobGo(j, false, id);
    var t1 := JobStep(t, j, false, id);
    if t.jobs[j].phase.Started? {
      ts, es := [t, t1, JobStep(t1, j, false, id)], [go, go];
    } else {
      ts, es := [t, t1], [go];
    }
  }

  lemma RejectStarts(t: Ticket) returns (b: ThreadId, t': Ticket)
    requires !Decided(t.row.status) && t.row.jobStatus != Some(JobRunning)
    ensures Path([t, t'], [Reject(b, true)]) && b !in t.jobs
    ensures t'.jobs == t.jobs[b := Job(RejectJob, Started)] && t'.row == StartedJob(t.row, RejectJob)
  {
    b := BoundOf(t.jobs.Keys);
    t' := RejectStep(t, b, true).ticket;
  }

  /** A free slot under a live job: rejects and job steps alone lead to an overwritten decision. */
  lemma FreeSlotIsFatal(t: Ticket, j: ThreadId) returns (ts: seq<Ticket>, es: seq<Event>, a: ThreadId, b: ThreadId)
    requires j in t.jobs && (t.jobs[j].kind.FixJob? ==> FixPhase(t.jobs[j].phase))
    requires !Decided(t.row.status) && t.row.jobStatus != Some(JobRunning) && t.row.autoComment.None?
    ensures Path(ts, es) && ResetFree(es) && ts[0] == t && Overwritten(ts[|es|], a, b)
  {
    var t1: Ticket;
    a, t1 := RejectStarts(t);
    if CanDecide(t1.jobs[j]) {
      b := j;
      var us, ds := BothDecide(t1, a, b);
      PathsJoin([t, t1], [Reject(a, true)], us, ds);
      ts, es := [t, t1] + us[1..], [Reject(a, true)] + ds;
    } else {
      var us, ds := EndsUndecided(t1, j);
      var t3: Ticket;
      b, t3 := RejectStarts(us[|ds|]);
      var vs, fs := BothDecide(t3, a, b);
      PathsJoin([t, t1], [Reject(a, true)], us, ds);
      PathsJoin([us[|ds|], t3], [Reject(b, true)], vs, fs);
      var xs, gs := [t, t1] + us[1..], [Reject(a, true)] + ds;
      var ys, hs := [us[|ds|], t3] + vs[1..], [Reject(b, true)] + fs;
      PathsJoin(xs, gs, ys, hs);
      ts, es := xs + ys[1..], gs + hs;
    }
  }

  /** Every reset that goes through under a live job opens a run that overwrites a decision. */
  lemma ResetUnderJobIsFatal(t: Ticket, deleted: bool)
    returns (ts: seq<Ticket>, es: seq<Event>, a: ThreadId, b: ThreadId)
    requires SlotSound(t) && ResetStep(t, deleted).reply.Ok? && t.jobs != map[]
    ensures Path(ts, es) && ResetFree(es) && ts[0] == ResetStep(t, deleted).ticket && Overwritten(ts[|es|], a, b)
  {
    var j :| j in t.jobs;
    ts, es, a, b := FreeSlotIsFatal(ResetStep(t, deleted).ticket, j);
  }

  /**
    The promise itself, exactly: after a step from a sound slot no run breaks it iff the step
    is not a reset that goes through while a job thread is live.
   */
  lemma SafeAheadIff(t: Ticket, e: Event)
    requires Enabled(t, e) && SlotSound(t)
    ensures SafeAhead(Step(t, e)) <==> !(ResetGoesThrough(t, e) && t.jobs != map[])
  {
    var t' := Step(t, e);
    if ResetGoesThrough(t, e) && t.jobs != map[] {
      var ts, es, a, b := ResetUnderJobIsFatal(t, e.deleted);
      PathIsRun(ts, es);
      ResetFreeIsAllowed(t', es);
      assert !OneDecider(Exec(t', es));
    } else {
      SlotStep(t, e);
      forall es | Feasible(t', es) && NoResetUnderJobs(t', es)
        ensures OneDecider(Exec(t', es))
      {
        SlotAlwaysSound(t', es);
      }
    }
  }

  // --- shielding the posting jobs is not enough ------------------------------------------------

  predicate NoPostingJob(t: Ticket) {
    forall a :: a in t.jobs ==> !Posts(t.jobs[a].kind)
  }

  /**
    `_refuse_if_posting` shields at most the posting jobs.  From a new ticket: investigate, ask
    for a fix, reset under the fix job, and two posting jobs are live, one of them about to
    overwrite the other's decision.
   */
  lemma ResetUnderFixJobBreaksTheSlot(f: JiraFields, v: Verdict)
    ensures exists ts: seq<Ticket>, es: seq<Event>, a: ThreadId, b: ThreadId ::
      && Path(ts, es) && ts[0] == Fresh(f) && Overwritten(ts[|es|], a, b)
      && forall i :: 0 <= i < |es| && es[i].Reset? ==> NoPostingJob(ts[i])
  {
    var us, ds := UpToTheFix(f, v);
    var t := us[4];
    var fs, gs, a, b := ResetUnderJobIsFatal(t, false);
    var xs := [t, ResetStep(t, false).ticket];
    assert Path(xs, [Reset(false)]);
    PathsJoin(xs, [Reset(false)], fs, gs);
    PathsJoin(us, ds, xs + fs[1..], [Reset(false)] + gs);
    var ts, es := us + (xs + fs[1..])[1..], ds + ([Reset(false)] + gs);
    forall i | 0 <= i < |es| && es[i].Reset?
      ensures NoPostingJob(ts[i])
    {
      assert i == 4 && ts[4] == t;
    }
    assert Overwritten(ts[|es|], a, b);
  }

  /** A clicked investigation that saves its verdict and ends. */
  lemma SavedByHand(f: JiraFields, v: Verdict) returns (t2: Ticket, t3: Ticket)
    ensures var t0, go := Fresh(f), RcaGo(0, true, 0, v);
      Path([t0, ClickRcaStep(t0, 0).ticket, t2, t3], [ClickRca(0), go, go])
    ensures t2.jobs == map[] && t3.jobs == map[]
    ensures t3.row.verdict.Some? && t3.row.jobStatus == None && t3.row.autoComment == None && t3.row.status == RcaReady
  {
    var t1 := ClickRcaStep(Fresh(f), 0).ticket;
    t2 := RcaStep(t1, 0, true, 0, v);
    t3 := RcaStep(t2, 0, true, 0, v);
  }

  lemma UpToTheFix(f: JiraFields, v: Verdict) returns (ts: seq<Ticket>, es: seq<Event>)
    ensures Path(ts, es) && |es| == 4 && ts[0] == Fresh(f) && ResetFree(es)
    ensures SlotSound(ts[4]) && NoPostingJob(ts[4]) && ts[4].jobs != map[] && ts[4].row.autoComment.None?
  {
    var go := RcaGo(0, true, 0, v);
    var t2, t3 := SavedByHand(f, v);
    var t4 := SuggestFixStep(t3, 0).ticket;
    ts := [Fresh(f), ClickRcaStep(Fresh(f), 0).ticket, t2, t3, t4];
    es := [ClickRca(0), go, go, SuggestFix(0)];
    assert t4.jobs == map[0 := Job(FixJob, Started)] && 0 in t4.jobs;
  }
}
