/**
  One ticket's life across rca_agent/webapp/app.py: its row, the threads working on it and
  the comments they put on Jira.
 */
module Lifecycle {
  import opened Basics
  import opened ReviewStore

  type ThreadId = nat

  /** Where an investigation thread stands (`_run_rca_background`, `_maybe_auto_post`). */
  datatype RcaPhase =
    | Investigating            // the agent runs; nothing stored yet
    | Saved                    // verdict stored, about to read the row's trigger
    | CheckedAuto              // trigger was 'auto', about to read the auto_post setting
    | Posting                  // about to post the verdict to Jira
    | Posted(id: CommentId)    // on Jira, about to record the comment id
    | PostFailed               // Jira refused, about to record the error

  /** Where an action-job thread stands (fix, accept+post, reject). */
  datatype JobPhase =
    | Started
    | Deleting(cid: CommentId) // reject: about to delete the automatic comment
    | Clearing                 // reject: deleted, about to forget its id
    | PostingJob               // about to post to Jira
    | Marking(cid: CommentId)  // posted, about to record the decision
    | Finishing                // about to call finish_job
    | Failing                  // an exception was caught, about to call fail_job

  datatype Job = Job(kind: JobKind, phase: JobPhase)

  datatype Ticket = Ticket(
    row: Row,
    rcas: map<ThreadId, RcaPhase>,     // live investigation threads
    jobs: map<ThreadId, Job>,          // live action-job threads
    onJira: set<CommentId>,            // this service's comments now visible on Jira
    used: set<CommentId>,              // every id Jira ever handed out for this ticket
    autoPosted: set<CommentId>,        // history: ids posted automatically
    adopted: set<CommentId>)           // history: automatic comments a human accepted

  datatype Reply = Ok | AlreadyRunning | BadRequest | Conflict | BadGateway

  datatype Outcome = Outcome(ticket: Ticket, reply: Reply)

  /**
    A request handler is one atomic step.  A background thread takes one step per store or
    Jira call, so other steps fall between any two of its calls.
   */
  datatype Event =
    | ClickRca(tid: ThreadId)
    | AutoClaim(tid: ThreadId, now: int)
    | Reset(deleted: bool)
    | Accept
    | RejectLocal(deleted: bool)
    | Unclear(feedback: bool)
    | AcceptAndPost(tid: ThreadId)
    | Reject(tid: ThreadId, hasText: bool)
    | SuggestFix(tid: ThreadId)
    | RcaGo(tid: ThreadId, ok: bool, id: CommentId, text: string)
    | JobGo(tid: ThreadId, ok: bool, id: CommentId)
    | Sync(fields: JiraFields)
    | DeletedByHand(id: CommentId)
    | Restart(key: Key)

  /** `_refuse_if_posting` */
  predicate PostingBusy(r: Row) {
    r.jobStatus == Some(JobRunning) && (r.jobKind == Some(AcceptJob) || r.jobKind == Some(RejectJob))
  }

  predicate Posts(kind: JobKind) {
    kind.AcceptJob? || kind.RejectJob?
  }

  // --- request handlers ----------------------------------------------------------

  function ClickRcaStep(t: Ticket, tid: ThreadId): Outcome {
    if t.row.status.Running? then Outcome(t, AlreadyRunning)
    else Outcome(t.(row := ClaimedManual(t.row), rcas := t.rcas[tid := Investigating]), Ok)
  }

  /** The poller's claim and spawn; nothing happens when the claim is lost. */
  function AutoClaimStep(t: Ticket, tid: ThreadId, now: int): Ticket {
    if AutoClaimable(t.row)
    then t.(row := ClaimedAuto(t.row, now), rcas := t.rcas[tid := Investigating])
    else t
  }

  /** `_withdraw_auto_post` once Jira has agreed to delete. */
  function Withdrawn(t: Ticket): Ticket {
    if t.row.autoComment.None? then t
    else t.(onJira := t.onJira - {t.row.autoComment.value}, row := WithoutAutoComment(t.row))
  }

  function ResetStep(t: Ticket, deleted: bool): Outcome {
    if t.row.autoComment.Some? && !t.row.status.Accepted? then
      if PostingBusy(t.row) then Outcome(t, Conflict)
      else if !deleted then Outcome(t, BadGateway)
      else Outcome(Withdrawn(t).(row := ResetRow(Withdrawn(t).row)), Ok)
    else Outcome(t.(row := ResetRow(t.row)), Ok)
  }

  /** The guards shared by accept, reject_local, unclear and accept_and_post. */
  predicate Reviewable(r: Row) {
    r.verdict.Some? && !Decided(r.status)
  }

  /** Accepting a ticket whose RCA is on Jira already adopts that comment. */
  function Adopted(t: Ticket): Ticket {
    t.(row := DecidedRow(t.row, Status.Accepted, t.row.autoComment),
       adopted := t.adopted + if t.row.autoComment.Some? then {t.row.autoComment.value} else {})
  }

  function AcceptStep(t: Ticket): Outcome {
    if !Reviewable(t.row) then Outcome(t, BadRequest)
    else if PostingBusy(t.row) then Outcome(t, Conflict)
    else Outcome(Adopted(t), Ok)
  }

  function RejectLocalStep(t: Ticket, deleted: bool): Outcome {
    if !Reviewable(t.row) then Outcome(t, BadRequest)
    else if PostingBusy(t.row) then Outcome(t, Conflict)
    else if t.row.autoComment.Some? && !deleted then Outcome(t, BadGateway)
    else Outcome(Withdrawn(t).(row := DecidedRow(Withdrawn(t).row, Status.Rejected, None)), Ok)
  }

  function UnclearStep(t: Ticket, feedback: bool): Outcome {
    if !feedback || !Reviewable(t.row) then Outcome(t, BadRequest)
    else if PostingBusy(t.row) then Outcome(t, Conflict)
    else Outcome(t.(row := DecidedRow(t.row, Status.Unclear, None)), Ok)
  }

  /** `start_job` and the thread it is started for. */
  function StartJobStep(t: Ticket, tid: ThreadId, kind: JobKind): Outcome {
    if t.row.jobStatus == Some(JobRunning) then Outcome(t, AlreadyRunning)
    else Outcome(t.(row := StartedJob(t.row, kind), jobs := t.jobs[tid := Job(kind, Started)]), Ok)
  }

  function AcceptAndPostStep(t: Ticket, tid: ThreadId): Outcome {
    if !Reviewable(t.row) then Outcome(t, BadRequest)
    else if t.row.autoComment.Some? then
      if PostingBusy(t.row) then Outcome(t, Conflict) else Outcome(Adopted(t), Ok)
    else StartJobStep(t, tid, AcceptJob)
  }

  function RejectStep(t: Ticket, tid: ThreadId, hasText: bool): Outcome {
    if !hasText || Decided(t.row.status) then Outcome(t, BadRequest)
    else StartJobStep(t, tid, RejectJob)
  }

  function SuggestFixStep(t: Ticket, tid: ThreadId): Outcome {
    if t.row.verdict.None? then Outcome(t, BadRequest) else StartJobStep(t, tid, FixJob)
  }

  // --- one step of a background thread --------------------------------------------

  function EndRca(t: Ticket, tid: ThreadId): Ticket {
    t.(rcas := t.rcas - {tid})
  }

  /**
    `ok` is what the call in hand answers: the agent's run, the auto_post setting, Jira's
    post.  `id` is the comment id Jira hands out, `text` the verdict or the error.
   */
  function RcaStep(t: Ticket, tid: ThreadId, ok: bool, id: CommentId, text: string): Ticket
    requires tid in t.rcas
  {
    match t.rcas[tid]
    case Investigating =>
      if ok then t.(row := SavedRca(t.row, text), rcas := t.rcas[tid := Saved])
      else EndRca(t.(row := FailedRun(t.row, text)), tid)
    case Saved =>
      if t.row.trigger == Some(Auto) then t.(rcas := t.rcas[tid := CheckedAuto]) else EndRca(t, tid)
    case CheckedAuto =>
      if ok then t.(rcas := t.rcas[tid := Posting]) else EndRca(t, tid)
    case Posting =>
      if ok then t.(onJira := t.onJira + {id}, used := t.used + {id},
                    autoPosted := t.autoPosted + {id}, rcas := t.rcas[tid := Posted(id)])
      else t.(rcas := t.rcas[tid := PostFailed])
    case Posted(cid) => EndRca(t.(row := WithAutoComment(t.row, cid)), tid)
    case PostFailed => EndRca(t.(row := t.row.(autoPostError := Some(text))), tid)
  }

  function AtPhase(t: Ticket, tid: ThreadId, p: JobPhase): Ticket
    requires tid in t.jobs
  {
    t.(jobs := t.jobs[tid := t.jobs[tid].(phase := p)])
  }

  function EndJobStep(t: Ticket, tid: ThreadId, outcome: JobStatus): Ticket {
    t.(row := t.row.(jobStatus := Some(outcome)), jobs := t.jobs - {tid})
  }

  function JobStep(t: Ticket, tid: ThreadId, ok: bool, id: CommentId): Ticket
    requires tid in t.jobs
  {
    var kind := t.jobs[tid].kind;
    match t.jobs[tid].phase
    case Started =>
      if !ok || (!kind.RejectJob? && t.row.verdict.None?) then AtPhase(t, tid, Failing)
      else if kind.FixJob? then AtPhase(t, tid, Finishing)
      else if kind.RejectJob? && t.row.autoComment.Some?
      then AtPhase(t, tid, Deleting(t.row.autoComment.value))
      else AtPhase(t, tid, PostingJob)
    case Deleting(cid) =>
      if ok then AtPhase(t.(onJira := t.onJira - {cid}), tid, Clearing) else AtPhase(t, tid, Failing)
    case Clearing => AtPhase(t.(row := WithoutAutoComment(t.row)), tid, PostingJob)
    case PostingJob =>
      if ok then AtPhase(t.(onJira := t.onJira + {id}, used := t.used + {id}), tid, Marking(id))
      else AtPhase(t, tid, Failing)
    case Marking(cid) =>
      AtPhase(t.(row := DecidedRow(t.row, if kind.RejectJob? then Status.Rejected else Status.Accepted,
                                   Some(cid))), tid, Finishing)
    case Finishing => EndJobStep(t, tid, JobDone)
    case Failing => EndJobStep(t, tid, JobFailed)
  }

  /** The process dies and starts again: no thread survives, `init_db` repairs the row. */
  function RestartStep(t: Ticket, key: Key): Ticket {
    t.(row := Recovered(key, t.row), rcas := map[], jobs := map[])
  }

  // --- steps and runs --------------------------------------------------------------

  /** Thread ids and comment ids are handed out once; only a live thread can move. */
  predicate Enabled(t: Ticket, e: Event) {
    match e
    case ClickRca(tid) => tid !in t.rcas
    case AutoClaim(tid, _) => tid !in t.rcas
    case AcceptAndPost(tid) => tid !in t.jobs
    case Reject(tid, _) => tid !in t.jobs
    case SuggestFix(tid) => tid !in t.jobs
    case RcaGo(tid, _, id, _) => tid in t.rcas && id !in t.used
    case JobGo(tid, _, id) => tid in t.jobs && id !in t.used
    case _ => true
  }

  function Step(t: Ticket, e: Event): Ticket
    requires Enabled(t, e)
  {
    match e
    case ClickRca(tid) => ClickRcaStep(t, tid).ticket
    case AutoClaim(tid, now) => AutoClaimStep(t, tid, now)
    case Reset(deleted) => ResetStep(t, deleted).ticket
    case Accept => AcceptStep(t).ticket
    case RejectLocal(deleted) => RejectLocalStep(t, deleted).ticket
    case Unclear(feedback) => UnclearStep(t, feedback).ticket
    case AcceptAndPost(tid) => AcceptAndPostStep(t, tid).ticket
    case Reject(tid, hasText) => RejectStep(t, tid, hasText).ticket
    case SuggestFix(tid) => SuggestFixStep(t, tid).ticket
    case RcaGo(tid, ok, id, text) => RcaStep(t, tid, ok, id, text)
    case JobGo(tid, ok, id) => JobStep(t, tid, ok, id)
    case Sync(fields) => t.(row := Refreshed(t.row, fields))
    case DeletedByHand(id) => t.(onJira := t.onJira - {id})
    case Restart(key) => RestartStep(t, key)
  }

  predicate Feasible(t: Ticket, es: seq<Event>)
    decreases es
  {
    es == [] || (Enabled(t, es[0]) && Feasible(Step(t, es[0]), es[1..]))
  }

  /** A step that is no claim leaves the stamp and the trigger, and starts nothing running. */
  predicate StampKept(r: Row, r': Row) {
    r'.autoRunAt == r.autoRunAt && r'.trigger == r.trigger && (r'.status.Running? ==> r.status.Running?)
  }

  lemma JobKeepsStamp(t: Ticket, tid: ThreadId, ok: bool, id: CommentId)
    requires tid in t.jobs
    ensures StampKept(t.row, JobStep(t, tid, ok, id).row)
  {
  }

  lemma RcaKeepsStamp(t: Ticket, tid: ThreadId, ok: bool, id: CommentId, text: string)
    requires tid in t.rcas
    ensures StampKept(t.row, RcaStep(t, tid, ok, id, text).row)
  {
  }

  lemma StepKeepsStamp(t: Ticket, e: Event)
    requires Enabled(t, e) && !e.ClickRca? && !e.AutoClaim?
    ensures StampKept(t.row, Step(t, e).row)
  {
    hide JobStep, RcaStep;
    match e
    case RcaGo(tid, ok, id, text) => RcaKeepsStamp(t, tid, ok, id, text);
    case JobGo(tid, ok, id) => JobKeepsStamp(t, tid, ok, id);
    case _ =>
  }

  predicate ResetFree(es: seq<Event>) {
    forall i :: 0 <= i < |es| ==> !es[i].Reset?
  }

  /** Where a run of events leads. */
  function Exec(t: Ticket, es: seq<Event>): Ticket
    requires Feasible(t, es)
    decreases es
  {
    if es == [] then t else Exec(Step(t, es[0]), es[1..])
  }

  /** The same run with its states written out. */
  predicate Path(ts: seq<Ticket>, es: seq<Event>) {
    && |ts| == |es| + 1
    && forall i :: 0 <= i < |es| ==> Enabled(ts[i], es[i]) && ts[i + 1] == Step(ts[i], es[i])
  }

  lemma PathsJoin(ts: seq<Ticket>, es: seq<Event>, ts': seq<Ticket>, es': seq<Event>)
    requires Path(ts, es) && Path(ts', es') && ts[|es|] == ts'[0]
    ensures Path(ts + ts'[1..], es + es')
    ensures (ts + ts'[1..])[|es + es'|] == ts'[|es'|]
  {
    var us, ds := ts + ts'[1..], es + es';
    forall i | 0 <= i < |ds|
      ensures Enabled(us[i], ds[i]) && us[i + 1] == Step(us[i], ds[i])
    {
      if i >= |es| {
        assert us[i] == ts'[i - |es|] && us[i + 1] == ts'[i - |es| + 1] && ds[i] == es'[i - |es|];
      }
    }
  }

  lemma {:induction false} PathIsRun(ts: seq<Ticket>, es: seq<Event>)
    requires Path(ts, es)
    ensures Feasible(ts[0], es) && Exec(ts[0], es) == ts[|es|]
    decreases es
  {
    if es != [] {
      assert ts[1] == Step(ts[0], es[0]);
      PathIsRun(ts[1..], es[1..]);
    }
  }

  /** A ticket just synced for the first time. */
  function Fresh(f: JiraFields): Ticket {
    Ticket(NewRow(f), map[], map[], {}, {}, {}, {})
  }
}
