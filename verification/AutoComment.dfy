/**
  Automatic Jira comments (`_maybe_auto_post`, `_withdraw_auto_post`): what every disciplined
  run keeps, /rca and /reset at any moment included.
 */
module AutoComment {
  import opened Basics
  import opened ReviewStore
  import opened Lifecycle
  import opened ThreadRuns

  // --- discipline ------------------------------------------------------------------------

  predicate PosterLive(t: Ticket) {
    exists a :: a in t.rcas && MayPost(t, t.rcas[a])
  }

  predicate UncheckedLive(t: Ticket) {
    exists a :: a in t.rcas && Unchecked(t.rcas[a])
  }

  predicate UndecidedLive(t: Ticket) {
    exists a :: a in t.jobs && Undecided(t.jobs[a])
  }

  /** A reject that has still to decide is live. */
  predicate UndecidedReject(t: Ticket) {
    exists a :: a in t.jobs && Rejecting(t.jobs[a])
  }

  predicate Rejecting(j: Job) {
    j.kind.RejectJob? && Undecided(j)
  }

  /** An automatic comment is on Jira and only the memory of a live thread knows its id. */
  predicate Orphanable(t: Ticket) {
    exists a :: a in t.rcas && t.rcas[a].Posted? && t.rcas[a].id in t.onJira
                && t.row.autoComment != Some(t.rcas[a].id) && t.rcas[a].id !in t.adopted
  }

  /**
    The process does not die between an automatic post and its record; the poller does not claim
    a ticket beside a thread that would then get in its way; and no accept and no reject goes
    through while a live investigation may still post.
   */
  predicate Disciplined(t: Ticket, e: Event) {
    match e
    case Restart(_) => !Orphanable(t)
    case AutoClaim(_, _) => AutoClaimable(t.row) ==> !UncheckedLive(t) && !UndecidedLive(t)
    case Accept => AcceptStep(t).reply.Ok? ==> !PosterLive(t)
    case RejectLocal(deleted) => RejectLocalStep(t, deleted).reply.Ok? ==> !PosterLive(t)
    case AcceptAndPost(tid) => AcceptAndPostStep(t, tid).reply.Ok? ==> !PosterLive(t)
    case Reject(tid, hasText) => RejectStep(t, tid, hasText).reply.Ok? ==> !PosterLive(t)
    case _ => true
  }

  ghost predicate DisciplinedRun(t: Ticket, es: seq<Event>)
    requires Feasible(t, es)
    decreases es
  {
    es == [] || (Disciplined(t, es[0]) && DisciplinedRun(Step(t, es[0]), es[1..]))
  }

  // --- the promise -----------------------------------------------------------------------

  /** Every automatic comment still visible is recorded, about to be recorded, or accepted. */
  ghost predicate Accounted(t: Ticket) {
    forall c :: c in t.autoPosted && c in t.onJira ==>
      || t.row.autoComment == Some(c)
      || c in t.adopted
      || exists a :: a in t.rcas && t.rcas[a] == Posted(c)
  }

  ghost predicate AtMostOne(s: set<CommentId>) {
    forall c, d :: c in s && d in s ==> c == d
  }

  /**
    One automatic comment at most, never lost; a rejected ticket records none and shows none a
    human did not accept; what an accepted ticket records a human has accepted.
   */
  ghost predicate Promised(t: Ticket) {
    && AtMostOne(t.autoPosted) && Accounted(t)
    && (t.row.status.Rejected? ==> t.row.autoComment.None? && t.autoPosted * t.onJira <= t.adopted)
    && (t.row.status.Accepted? && t.row.autoComment.Some? ==> t.row.autoComment.value in t.adopted)
  }

  // --- the invariant ---------------------------------------------------------------------

  /** At most one investigation may post, and then nothing else decides. */
  ghost predicate OnePoster(t: Ticket) {
    && (forall a, b :: a in t.rcas && b in t.rcas && MayPost(t, t.rcas[a]) && MayPost(t, t.rcas[b]) ==> a == b)
    && (forall a, b :: a in t.rcas && MayPost(t, t.rcas[a]) && b in t.jobs ==> !Undecided(t.jobs[b]))
  }

  /** What an investigation that may post knows of the row and of the automatic posts so far. */
  ghost predicate PosterSees(t: Ticket, p: RcaPhase) {
    && !t.row.status.Accepted? && !t.row.status.Rejected? && t.row.autoComment.None? && t.row.autoRunAt.Some?
    && (p.Investigating? ==> t.row.verdict.None?)
    && (if p.Posted? then t.autoPosted == {p.id} && p.id !in t.adopted else t.autoPosted == {})
  }

  /** What a live posting job that has still to decide knows. */
  ghost predicate JobSees(t: Ticket, j: Job) {
    && (j.kind.AcceptJob? && Undecided(j) ==> t.row.autoComment.None?)
    && match j.phase
       case Deleting(c) => j.kind.RejectJob? && c in t.autoPosted
       case Clearing => j.kind.RejectJob? && t.autoPosted != {}
                        && (t.row.autoComment.Some? ==> t.row.autoComment.value !in t.onJira)
       case PostingJob => t.row.autoComment.None?
       case Marking(_) => t.row.autoComment.None?
       case _ => true
  }

  ghost predicate History(t: Ticket) {
    && Accounted(t) && AtMostOne(t.autoPosted) && t.adopted <= t.autoPosted <= t.used
    && (t.row.autoComment.Some? ==> t.row.autoComment.value in t.autoPosted)
    && (t.row.autoRunAt.None? ==> t.autoPosted == {})
    && (t.row.trigger == Some(Auto) ==> t.row.autoRunAt.Some?)
    && (t.row.status.Rejected? ==> t.row.autoComment.None?)
    && (t.row.status.Accepted? && t.row.autoComment.Some? ==> t.row.autoComment.value in t.adopted)
  }

  ghost predicate CommentInv(t: Ticket) {
    && OnePoster(t) && History(t)
    && (forall a :: a in t.rcas && MayPost(t, t.rcas[a]) ==> PosterSees(t, t.rcas[a]))
    && (forall a :: a in t.jobs && Posts(t.jobs[a].kind) ==> JobSees(t, t.jobs[a]))
    && (forall a :: a in t.jobs && t.jobs[a].kind.FixJob? ==> FixPhase(t.jobs[a].phase))
  }

  lemma InvIsPromise(t: Ticket)
    requires CommentInv(t)
    ensures Promised(t)
  {
    if t.row.status.Rejected? {
      forall c | c in t.autoPosted && c in t.onJira
        ensures c in t.adopted
      {
        if a :| a in t.rcas && t.rcas[a] == Posted(c) { assert PosterSees(t, t.rcas[a]); }
      }
    }
  }

  // --- the calls of an investigation ---------------------------------------------------------

  /** The threads of an investigation that moves on, or ends. */
  function Moved(rcas: map<ThreadId, RcaPhase>, tid: ThreadId, p: Option<RcaPhase>): map<ThreadId, RcaPhase> {
    if p.None? then rcas - {tid} else rcas[tid := p.value]
  }

  lemma OtherThreadsRemember(t: Ticket, t': Ticket, tid: ThreadId)
    requires Accounted(t) && tid in t.rcas && !t.rcas[tid].Posted?
    requires forall a :: a in t.rcas && a != tid ==> a in t'.rcas && t'.rcas[a] == t.rcas[a]
    requires t'.autoPosted == t.autoPosted && t'.onJira == t.onJira && t'.adopted == t.adopted
    requires t'.row.autoComment == t.row.autoComment
    ensures Accounted(t')
  {
    forall c | c in t'.autoPosted && c in t'.onJira
      ensures t'.row.autoComment == Some(c) || c in t'.adopted || exists a :: a in t'.rcas && t'.rcas[a] == Posted(c)
    {
      if a :| a in t.rcas && t.rcas[a] == Posted(c) { assert t'.rcas[a] == Posted(c); }
    }
  }

  lemma MovedSees(t: Ticket, tid: ThreadId, row: Row, p: Option<RcaPhase>, a: ThreadId)
    requires CommentInv(t) && tid in t.rcas && !t.rcas[tid].Posted? && (p.Some? ==> !p.value.Posted?)
    requires row.autoComment == t.row.autoComment && row.autoRunAt == t.row.autoRunAt && row.trigger == t.row.trigger
    requires (row.status == t.row.status && row.verdict == t.row.verdict)
          || (t.rcas[tid].Investigating? && !row.status.Accepted? && !row.status.Rejected?)
    requires p.Some? ==> (MayPost(t, p.value) ==> MayPost(t, t.rcas[tid])) && !p.value.Investigating?
    requires a in Moved(t.rcas, tid, p) && MayPost(t, Moved(t.rcas, tid, p)[a])
    ensures PosterSees(t.(row := row, rcas := Moved(t.rcas, tid, p)), Moved(t.rcas, tid, p)[a])
  {
    hide Accounted, JobSees;
    assert PosterSees(t, t.rcas[a]);
    if t.rcas[tid].Investigating? && t.rcas[a].Investigating? { assert MayPost(t, t.rcas[tid]) && a == tid; }
  }

  /** One investigation moves, over a row that the others take as before. */
  lemma RcaMoves(t: Ticket, tid: ThreadId, row: Row, p: Option<RcaPhase>)
    requires CommentInv(t) && tid in t.rcas && !t.rcas[tid].Posted? && (p.Some? ==> !p.value.Posted?)
    requires row.autoComment == t.row.autoComment && row.autoRunAt == t.row.autoRunAt && row.trigger == t.row.trigger
    requires (row.status == t.row.status && row.verdict == t.row.verdict)
          || (t.rcas[tid].Investigating? && !row.status.Accepted? && !row.status.Rejected?)
    requires p.Some? ==> (MayPost(t, p.value) ==> MayPost(t, t.rcas[tid])) && !p.value.Investigating?
    ensures CommentInv(t.(row := row, rcas := Moved(t.rcas, tid, p)))
  {
    var t' := t.(row := row, rcas := Moved(t.rcas, tid, p));
    forall a | a in t'.rcas && MayPost(t', t'.rcas[a])
      ensures PosterSees(t', t'.rcas[a])
    {
      MovedSees(t, tid, row, p, a);
    }
    OtherThreadsRemember(t, t', tid);
    hide PosterSees, Accounted;
  }

  lemma PostKeeps(t: Ticket, tid: ThreadId, id: CommentId)
    requires CommentInv(t) && tid in t.rcas && id !in t.used && t.rcas[tid].Posting?
    ensures CommentInv(t.(onJira := t.onJira + {id}, used := t.used + {id}, autoPosted := t.autoPosted + {id},
                          rcas := t.rcas[tid := Posted(id)]))
  {
    var t' := t.(onJira := t.onJira + {id}, used := t.used + {id}, autoPosted := t.autoPosted + {id},
                 rcas := t.rcas[tid := Posted(id)]);
    assert PosterSees(t, t.rcas[tid]) && t'.autoPosted == {id};
    assert t'.rcas[tid] == Posted(id);
    assert Accounted(t');
  }

  lemma RecordKeeps(t: Ticket, tid: ThreadId)
    requires CommentInv(t) && tid in t.rcas && t.rcas[tid].Posted?
    ensures CommentInv(t.(row := WithAutoComment(t.row, t.rcas[tid].id), rcas := t.rcas - {tid}))
  {
    assert PosterSees(t, t.rcas[tid]);
  }

  lemma RcaKeeps(t: Ticket, tid: ThreadId, ok: bool, id: CommentId, text: string)
    requires CommentInv(t) && tid in t.rcas && id !in t.used
    ensures CommentInv(RcaStep(t, tid, ok, id, text))
  {
    hide CommentInv;
    if t.rcas[tid].Posted? {
      RecordKeeps(t, tid);
    } else if t.rcas[tid].Posting? && ok {
      PostKeeps(t, tid, id);
    } else {
      var t' := RcaStep(t, tid, ok, id, text);
      var p := if tid in t'.rcas then Some(t'.rcas[tid]) else None;
      assert t' == t.(row := t'.row, rcas := Moved(t.rcas, tid, p));
      RcaMoves(t, tid, t'.row, p);
    }
  }

  // --- the calls of a job ------------------------------------------------------------------

  lemma NoPoster(t: Ticket, tid: ThreadId)
    requires OnePoster(t) && tid in t.jobs && Undecided(t.jobs[tid])
    ensures !PosterLive(t)
  {
  }

  /** A job moves on, or ends, and with no investigation that may post the row may lose its comment. */
  lemma JobMoves(t: Ticket, tid: ThreadId, row: Row, phase: Option<JobPhase>, onJira: set<CommentId>,
                 used: set<CommentId>)
    requires CommentInv(t) && tid in t.jobs && !PosterLive(t)
    requires row.autoComment == t.row.autoComment || row.autoComment.None?
    requires row.autoRunAt == t.row.autoRunAt && row.trigger == t.row.trigger
    requires row.status == t.row.status || row.autoComment.None?
    requires t.used <= used && (forall c :: c in onJira && c in t.used ==> c in t.onJira)
    requires row.autoComment != t.row.autoComment ==> t.row.autoComment.value !in onJira
    requires phase.Some? ==> var j := t.jobs[tid].(phase := phase.value);
      && JobSees(t.(row := row, onJira := onJira, used := used), j) && (j.kind.FixJob? ==> FixPhase(j.phase))
    ensures var jobs := if phase.None? then t.jobs - {tid} else t.jobs[tid := t.jobs[tid].(phase := phase.value)];
      CommentInv(t.(row := row, jobs := jobs, onJira := onJira, used := used))
  {
    var jobs := if phase.None? then t.jobs - {tid} else t.jobs[tid := t.jobs[tid].(phase := phase.value)];
    var t' := t.(row := row, jobs := jobs, onJira := onJira, used := used);
    assert forall a :: a in t'.rcas ==> !MayPost(t', t'.rcas[a]);
    forall a | a in jobs && Posts(jobs[a].kind)
      ensures JobSees(t', jobs[a])
    {
      if a != tid { assert JobSees(t, t.jobs[a]); }
    }
    assert forall c :: c in t'.autoPosted && c in t'.onJira ==> c in t.onJira;
    assert Accounted(t');
  }

  lemma UndecidedKeeps(t: Ticket, tid: ThreadId, ok: bool, id: CommentId)
    requires CommentInv(t) && tid in t.jobs && id !in t.used && Undecided(t.jobs[tid])
    ensures CommentInv(JobStep(t, tid, ok, id))
  {
    var t' := JobStep(t, tid, ok, id);
    NoPoster(t, tid);
    assert JobSees(t, t.jobs[tid]);
    hide CommentInv;
    assert t' == t.(row := t'.row, jobs := t.jobs[tid := t'.jobs[tid]], onJira := t'.onJira, used := t'.used);
    JobMoves(t, tid, t'.row, Some(t'.jobs[tid].phase), t'.onJira, t'.used);
  }

  /** A job that is ending, or one that never posts. */
  lemma EndingJobKeeps(t: Ticket, tid: ThreadId, ok: bool, id: CommentId)
    requires CommentInv(t) && tid in t.jobs && !Undecided(t.jobs[tid])
    ensures CommentInv(JobStep(t, tid, ok, id))
  {
    var t' := JobStep(t, tid, ok, id);
    assert t' == t.(row := t.row.(jobStatus := t'.row.jobStatus), jobs := t'.jobs);
    JobsOnlyKeep(t, t'.row, t'.jobs);
  }

  /** A row that differs in nothing an automatic comment depends on. */
  predicate SameForComments(r: Row, r': Row) {
    && r'.status == r.status && r'.verdict == r.verdict && r'.trigger == r.trigger
    && r'.autoRunAt == r.autoRunAt && r'.autoComment == r.autoComment
  }

  /** Nothing that knows of comments looks at the fix jobs or at the job slot. */
  lemma JobsOnlyKeep(t: Ticket, row: Row, jobs: map<ThreadId, Job>)
    requires CommentInv(t) && SameForComments(t.row, row)
    requires forall a :: a in jobs && Posts(jobs[a].kind) ==> a in t.jobs && jobs[a] == t.jobs[a]
    requires forall a :: a in jobs && !Posts(jobs[a].kind) ==> FixPhase(jobs[a].phase)
    ensures CommentInv(t.(row := row, jobs := jobs))
  {
    var t' := t.(row := row, jobs := jobs);
    forall a | a in t'.rcas && MayPost(t', t'.rcas[a])
      ensures PosterSees(t', t'.rcas[a])
    {
      assert PosterSees(t, t.rcas[a]);
    }
    forall a | a in jobs && Posts(jobs[a].kind)
      ensures JobSees(t', jobs[a])
    {
      assert JobSees(t, t.jobs[a]);
    }
  }

  lemma JobKeeps(t: Ticket, tid: ThreadId, ok: bool, id: CommentId)
    requires CommentInv(t) && tid in t.jobs && id !in t.used
    ensures CommentInv(JobStep(t, tid, ok, id))
  {
    hide CommentInv, JobStep;
    if Undecided(t.jobs[tid]) { UndecidedKeeps(t, tid, ok, id); } else { EndingJobKeeps(t, tid, ok, id); }
  }

  lemma JobStartKeeps(t: Ticket, tid: ThreadId, kind: JobKind)
    requires CommentInv(t) && (Posts(kind) && t.row.jobStatus != Some(JobRunning) ==> !PosterLive(t))
    requires tid !in t.jobs && (kind.AcceptJob? ==> t.row.autoComment.None?)
    ensures CommentInv(StartJobStep(t, tid, kind).ticket)
  {
    if t.row.jobStatus != Some(JobRunning) {
      if kind.FixJob? {
        JobsOnlyKeep(t, StartedJob(t.row, kind), t.jobs[tid := Job(kind, Started)]);
      } else {
        PostingStartKeeps(t, tid, kind);
      }
    }
  }

  lemma PostingStartKeeps(t: Ticket, tid: ThreadId, kind: JobKind)
    requires CommentInv(t) && Posts(kind) && !PosterLive(t)
    requires tid !in t.jobs && (kind.AcceptJob? ==> t.row.autoComment.None?)
    ensures CommentInv(t.(row := StartedJob(t.row, kind), jobs := t.jobs[tid := Job(kind, Started)]))
  {
    var t' := t.(row := StartedJob(t.row, kind), jobs := t.jobs[tid := Job(kind, Started)]);
    assert forall a :: a in t'.rcas ==> !MayPost(t', t'.rcas[a]);
    forall a | a in t'.jobs && Posts(t'.jobs[a].kind)
      ensures JobSees(t', t'.jobs[a])
    {
      if a != tid { assert JobSees(t, t.jobs[a]); }
    }
  }

  // --- claims ----------------------------------------------------------------------------------

  /** /rca takes the trigger, and with it the right to post, from whoever has not read it yet. */
  lemma ClickKeeps(t: Ticket, tid: ThreadId)
    requires CommentInv(t) && tid !in t.rcas
    ensures CommentInv(ClickRcaStep(t, tid).ticket)
  {
    var t' := ClickRcaStep(t, tid).ticket;
    if t' != t {
      forall a | a in t'.rcas && MayPost(t', t'.rcas[a])
        ensures a in t.rcas && t'.rcas[a] == t.rcas[a] && PosterSees(t, t.rcas[a]) && !t.rcas[a].Investigating?
      {
      }
      forall a | a in t'.jobs && Posts(t'.jobs[a].kind)
        ensures JobSees(t', t'.jobs[a])
      {
        assert JobSees(t, t.jobs[a]);
      }
      NewThreadRemembers(t, t', tid);
    }
  }

  lemma NewThreadRemembers(t: Ticket, t': Ticket, tid: ThreadId)
    requires Accounted(t) && tid !in t.rcas && t'.rcas == t.rcas[tid := Investigating]
    requires t'.autoPosted == t.autoPosted && t'.onJira == t.onJira && t'.adopted == t.adopted
    requires t'.row.autoComment == t.row.autoComment
    ensures Accounted(t')
  {
    forall c | c in t'.autoPosted && c in t'.onJira
      ensures t'.row.autoComment == Some(c) || c in t'.adopted || exists a :: a in t'.rcas && t'.rcas[a] == Posted(c)
    {
      if a :| a in t.rcas && t.rcas[a] == Posted(c) { assert t'.rcas[a] == Posted(c); }
    }
  }

  lemma ClaimKeeps(t: Ticket, tid: ThreadId, now: int)
    requires CommentInv(t) && AutoClaimable(t.row) && tid !in t.rcas && !UncheckedLive(t) && !UndecidedLive(t)
    ensures CommentInv(AutoClaimStep(t, tid, now))
  {
    var t' := AutoClaimStep(t, tid, now);
    assert forall a :: a in t.rcas && MayPost(t, t.rcas[a]) ==> PosterSees(t, t.rcas[a]);
    assert forall a :: a in t'.rcas && MayPost(t', t'.rcas[a]) ==> a == tid;
    assert PosterSees(t', t'.rcas[tid]);
    forall a | a in t'.jobs && Posts(t'.jobs[a].kind)
      ensures JobSees(t', t'.jobs[a])
    {
      assert JobSees(t, t.jobs[a]);
    }
  }

  // --- decisions and resets ----------------------------------------------------------------------

  lemma ResetKeeps(t: Ticket, deleted: bool)
    requires CommentInv(t)
    ensures CommentInv(ResetStep(t, deleted).ticket)
  {
    var t' := ResetStep(t, deleted).ticket;
    if t' != t {
      forall a | a in t'.rcas && MayPost(t', t'.rcas[a])
        ensures PosterSees(t', t'.rcas[a])
      {
        assert PosterSees(t, t.rcas[a]);
      }
      forall a | a in t'.jobs && Posts(t'.jobs[a].kind)
        ensures JobSees(t', t'.jobs[a])
      {
        assert JobSees(t, t.jobs[a]);
      }
      assert Accounted(t');
    }
  }

  /** With nobody about to post, a decision keeps what it finds. */
  lemma DecisionKeeps(t: Ticket, row: Row, onJira: set<CommentId>, adopted: set<CommentId>)
    requires CommentInv(t) && !PosterLive(t) && row.trigger == t.row.trigger && row.autoRunAt == t.row.autoRunAt
    requires onJira <= t.onJira && t.adopted <= adopted <= t.autoPosted
    requires row.autoComment == t.row.autoComment || row.autoComment.None?
    requires row.autoComment != t.row.autoComment ==> t.row.autoComment.value !in onJira
    requires row.status.Rejected? ==> row.autoComment.None?
    requires row.status.Accepted? && row.autoComment.Some? ==> row.autoComment.value in adopted
    ensures CommentInv(t.(row := row, onJira := onJira, adopted := adopted))
  {
    var t' := t.(row := row, onJira := onJira, adopted := adopted);
    assert forall a :: a in t'.rcas ==> !MayPost(t', t'.rcas[a]);
    forall a | a in t'.jobs && Posts(t'.jobs[a].kind)
      ensures JobSees(t', t'.jobs[a])
    {
      assert JobSees(t, t.jobs[a]);
    }
    assert Accounted(t');
  }

  lemma AdoptingKeeps(t: Ticket)
    requires CommentInv(t) && !PosterLive(t)
    ensures CommentInv(Adopted(t))
  {
    var t' := Adopted(t);
    DecisionKeeps(t, t'.row, t.onJira, t'.adopted);
  }

  lemma LocalRejectKeeps(t: Ticket, deleted: bool)
    requires CommentInv(t) && !PosterLive(t)
    ensures CommentInv(RejectLocalStep(t, deleted).ticket)
  {
    var t' := RejectLocalStep(t, deleted).ticket;
    if t' != t { DecisionKeeps(t, t'.row, t'.onJira, t.adopted); }
  }

  /** An unclear ticket is as open for comments as an undecided one. */
  lemma UnclearKeeps(t: Ticket, feedback: bool)
    requires CommentInv(t)
    ensures CommentInv(UnclearStep(t, feedback).ticket)
  {
    var t' := UnclearStep(t, feedback).ticket;
    if t' != t {
      forall a | a in t'.rcas && MayPost(t', t'.rcas[a])
        ensures PosterSees(t', t'.rcas[a])
      {
        assert PosterSees(t, t.rcas[a]);
      }
      forall a | a in t'.jobs && Posts(t'.jobs[a].kind)
        ensures JobSees(t', t'.jobs[a])
      {
        assert JobSees(t, t.jobs[a]);
      }
    }
  }

  lemma SyncKeeps(t: Ticket, fields: JiraFields)
    requires CommentInv(t)
    ensures CommentInv(t.(row := Refreshed(t.row, fields)))
  {
    JobsOnlyKeep(t, Refreshed(t.row, fields), t.jobs);
  }

  lemma DeletionKeeps(t: Ticket, id: CommentId)
    requires CommentInv(t)
    ensures CommentInv(t.(onJira := t.onJira - {id}))
  {
    var t' := t.(onJira := t.onJira - {id});
    forall a | a in t'.jobs && Posts(t'.jobs[a].kind)
      ensures JobSees(t', t'.jobs[a])
    {
      assert JobSees(t, t.jobs[a]);
    }
    forall a | a in t'.rcas && MayPost(t', t'.rcas[a])
      ensures PosterSees(t', t'.rcas[a])
    {
      assert PosterSees(t, t.rcas[a]);
    }
  }

  /** A crash is harmless exactly when it orphans no comment. */
  lemma CrashKeepsIff(t: Ticket, key: Key)
    requires CommentInv(t)
    ensures CommentInv(RestartStep(t, key)) <==> !Orphanable(t)
    ensures Orphanable(t) ==> !Accounted(RestartStep(t, key))
  {
    var t' := RestartStep(t, key);
    if Orphanable(t) {
      var a :| a in t.rcas && t.rcas[a].Posted? && t.rcas[a].id in t.onJira
               && t.row.autoComment != Some(t.rcas[a].id) && t.rcas[a].id !in t.adopted;
      assert PosterSees(t, t.rcas[a]);
      assert t.rcas[a].id in t'.autoPosted && !Accounted(t');
    } else {
      assert Accounted(t');
    }
  }

  // --- every disciplined run keeps it --------------------------------------------------------------

  lemma DisciplinedStepKeeps(t: Ticket, e: Event)
    requires CommentInv(t) && Enabled(t, e) && Disciplined(t, e)
    ensures CommentInv(Step(t, e))
  {
    hide CommentInv, RcaStep, JobStep, StartJobStep, Adopted, ClickRcaStep, ResetStep, PosterLive;
    match e
    case RcaGo(tid, ok, id, text) => RcaKeeps(t, tid, ok, id, text);
    case JobGo(tid, ok, id) => JobKeeps(t, tid, ok, id);
    case ClickRca(tid) => ClickKeeps(t, tid);
    case AutoClaim(tid, now) => if AutoClaimable(t.row) { ClaimKeeps(t, tid, now); }
    case Accept => if AcceptStep(t).reply.Ok? { AdoptingKeeps(t); }
    case AcceptAndPost(tid) => AcceptAndPostKeeps(t, tid);
    case Reject(tid, hasText) => RejectKeeps(t, tid, hasText);
    case RejectLocal(deleted) => if RejectLocalStep(t, deleted).reply.Ok? { LocalRejectKeeps(t, deleted); }
    case SuggestFix(tid) => if t.row.verdict.Some? { JobStartKeeps(t, tid, FixJob); }
    case Unclear(feedback) => UnclearKeeps(t, feedback);
    case Reset(deleted) => ResetKeeps(t, deleted);
    case Restart(key) => CrashKeepsIff(t, key);
    case Sync(fields) => SyncKeeps(t, fields);
    case DeletedByHand(id) => DeletionKeeps(t, id);
  }

  lemma AcceptAndPostKeeps(t: Ticket, tid: ThreadId)
    requires CommentInv(t) && tid !in t.jobs && (AcceptAndPostStep(t, tid).reply.Ok? ==> !PosterLive(t))
    ensures CommentInv(AcceptAndPostStep(t, tid).ticket)
  {
    hide CommentInv, Adopted, PosterLive;
    if Reviewable(t.row) {
      if t.row.autoComment.None? {
        JobStartKeeps(t, tid, AcceptJob);
      } else if !PostingBusy(t.row) {
        AdoptingKeeps(t);
      }
    }
  }

  lemma RejectKeeps(t: Ticket, tid: ThreadId, hasText: bool)
    requires CommentInv(t) && tid !in t.jobs && (RejectStep(t, tid, hasText).reply.Ok? ==> !PosterLive(t))
    ensures CommentInv(RejectStep(t, tid, hasText).ticket)
  {
    hide CommentInv, PosterLive;
    if hasText && !Decided(t.row.status) { JobStartKeeps(t, tid, RejectJob); }
  }

  lemma {:induction false} DisciplinedRunKeeps(t: Ticket, es: seq<Event>)
    requires CommentInv(t) && Feasible(t, es) && DisciplinedRun(t, es)
    ensures CommentInv(Exec(t, es))
    decreases es
  {
    if es != [] {
      DisciplinedStepKeeps(t, es[0]);
      DisciplinedRunKeeps(Step(t, es[0]), es[1..]);
    }
  }

  /**
    From a new ticket, any disciplined run: one automatic comment at most; one still on Jira
    is recorded in the row, in the hands of the thread about to record it, or was accepted;
    a rejected ticket shows no automatic comment a human did not accept.
   */
  lemma {:induction false} AutoCommentsAccounted(f: JiraFields, es: seq<Event>)
    requires Feasible(Fresh(f), es) && DisciplinedRun(Fresh(f), es)
    ensures var t := Exec(Fresh(f), es);
      && |t.autoPosted| <= 1 && Promised(t)
      && (forall c :: c in t.autoPosted && c in t.onJira && t.rcas == map[] ==>
            t.row.autoComment == Some(c) || c in t.adopted)
      && (t.row.status.Rejected? ==>
            t.row.autoComment.None? && t.autoPosted * t.onJira <= t.adopted)
  {
    NewIsSound(f);
    DisciplinedRunKeeps(Fresh(f), es);
    var t := Exec(Fresh(f), es);
    InvIsPromise(t);
    hide CommentInv;
    if c :| c in t.autoPosted {
      assert t.autoPosted == {c};
    }
  }

  lemma NewIsSound(f: JiraFields)
    ensures CommentInv(Fresh(f))
  {
  }
}
