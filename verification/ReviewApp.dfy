/**
  rca_agent/webapp/app.py as it runs: handlers and background threads that go through the
  store and Jira call by call.  Each is proved to take the ticket it is given exactly where
  the one-ticket model says, and to leave every other ticket alone.
 */
module ReviewApp {
  import opened Basics
  import opened ReviewStore
  import L = Lifecycle
  import opened Lifecycle

  /** Jira, as far as this service can tell: the comments it put there. */
  class Jira {
    var comments: map<Key, set<CommentId>>
    var used: map<Key, set<CommentId>>

    constructor ()
      ensures comments == map[] && used == map[]
    {
      comments, used := map[], map[];
    }

    /** `ok` is Jira's answer; a comment that is already gone counts as deleted. */
    method DeleteComment(key: Key, id: CommentId, ok: bool)
      modifies this`comments
      ensures comments == if ok then old(comments)[key := SetAt(old(comments), key) - {id}]
                          else old(comments)
    {
      if ok {
        comments := comments[key := SetAt(comments, key) - {id}];
      }
    }

    method AddComment(key: Key, id: CommentId, ok: bool)
      modifies this
      ensures comments == if ok then old(comments)[key := SetAt(old(comments), key) + {id}]
                          else old(comments)
      ensures used == if ok then old(used)[key := SetAt(old(used), key) + {id}] else old(used)
    {
      if ok {
        comments := comments[key := SetAt(comments, key) + {id}];
        used := used[key := SetAt(used, key) + {id}];
      }
    }
  }

  function SetAt(m: map<Key, set<CommentId>>, k: Key): set<CommentId> {
    if k in m then m[k] else {}
  }

  function ThreadsAt<V>(m: map<Key, map<ThreadId, V>>, k: Key): map<ThreadId, V> {
    if k in m then m[k] else map[]
  }

  /** One more thread, about to investigate. */
  function Spawned(m: map<Key, map<ThreadId, RcaPhase>>, k: Key, tid: ThreadId): map<Key, map<ThreadId, RcaPhase>> {
    m[k := ThreadsAt(m, k)[tid := Investigating]]
  }

  class App {
    const store: Store
    const jira: Jira
    var rcas: map<Key, map<ThreadId, RcaPhase>>
    var jobs: map<Key, map<ThreadId, Job>>
    ghost var autoPosted: map<Key, set<CommentId>>
    ghost var adopted: map<Key, set<CommentId>>

    constructor (store: Store, jira: Jira)
      ensures this.store == store && this.jira == jira
      ensures rcas == map[] && jobs == map[] && autoPosted == map[] && adopted == map[]
    {
      this.store, this.jira := store, jira;
      rcas, jobs, autoPosted, adopted := map[], map[], map[], map[];
    }

    /** The one-ticket view of the shared state. */
    ghost function View(k: Key): L.Ticket
      requires k in store.rows
      reads this, store, jira
    {
      L.Ticket(store.rows[k], ThreadsAt(rcas, k), ThreadsAt(jobs, k), SetAt(jira.comments, k),
               SetAt(jira.used, k), SetAt(autoPosted, k), SetAt(adopted, k))
    }

    /** `key` is now `t`; every other ticket is as it was. */
    twostate predicate Became(key: Key, t: L.Ticket)
      reads this, store, jira
    {
      && store.rows.Keys == old(store.rows.Keys)
      && key in store.rows && View(key) == t
      && forall k :: k in store.rows && k != key ==> View(k) == old(View(k))
    }

    twostate predicate NothingChanged()
      reads this, store, jira
    {
      && store.rows == old(store.rows)
      && forall k :: k in store.rows ==> View(k) == old(View(k))
    }

    // --- handlers ---------------------------------------------------------------------

    /** Answers `None` for the 404. */
    method RunRca(key: Key, tid: ThreadId) returns (reply: Option<Reply>)
      modifies this, store
      ensures key in old(store.rows) ==>
        Became(key, ClickRcaStep(old(View(key)), tid).ticket)
        && reply == Some(ClickRcaStep(old(View(key)), tid).reply)
      ensures key !in old(store.rows) ==> reply == None && NothingChanged()
    {
      var row := store.GetTicket(key);
      if row.None? { return None; }
      var claimed := store.ClaimRunning(key);
      if !claimed { return Some(AlreadyRunning); }
      rcas := Spawned(rcas, key, tid);
      return Some(L.Ok);
    }

    /** The poller's claim and spawn. */
    method AutoRun(key: Key, tid: ThreadId, now: int) returns (claimed: bool)
      modifies this`rcas, store
      ensures claimed <==> key in old(store.rows) && AutoClaimable(old(store.rows)[key])
      ensures rcas == if claimed then Spawned(old(rcas), key, tid) else old(rcas)
      ensures key in old(store.rows) ==> Became(key, AutoClaimStep(old(View(key)), tid, now))
      ensures key !in old(store.rows) ==> NothingChanged()
    {
      claimed := store.ClaimAutoRun(key, now);
      if claimed {
        rcas := Spawned(rcas, key, tid);
      }
    }

    /** `_withdraw_auto_post`: answers false for the 502, and then nothing has changed. */
    method WithdrawAutoPost(key: Key, deleted: bool) returns (ok: bool)
      requires key in store.rows
      modifies store, jira
      ensures ok <==> old(store.rows)[key].autoComment.None? || deleted
      ensures Became(key, if ok then Withdrawn(old(View(key))) else old(View(key)))
    {
      var row := store.GetTicket(key);
      if row.value.autoComment.None? { return true; }
      jira.DeleteComment(key, row.value.autoComment.value, deleted);
      if !deleted { return false; }
      store.ClearAutoComment(key);
      return true;
    }

    /** A missing ticket is no error here: the UPDATE just hits no row. */
    method ResetRca(key: Key, deleted: bool) returns (reply: Reply)
      modifies store, jira
      ensures key in old(store.rows) ==>
        Became(key, ResetStep(old(View(key)), deleted).ticket)
        && reply == ResetStep(old(View(key)), deleted).reply
      ensures key !in old(store.rows) ==> reply == L.Ok && NothingChanged()
    {
      var row := store.GetTicket(key);
      if row.Some? && row.value.autoComment.Some? && row.value.status != Status.Accepted {
        if PostingBusy(row.value) { return Conflict; }
        var ok := WithdrawAutoPost(key, deleted);
        if !ok { return BadGateway; }
      }
      store.Reset(key);
      return L.Ok;
    }

    method AcceptRca(key: Key) returns (reply: Reply)
      modifies store, this`adopted
      ensures key in old(store.rows) ==>
        Became(key, AcceptStep(old(View(key))).ticket) && reply == AcceptStep(old(View(key))).reply
      ensures key !in old(store.rows) ==> reply == BadRequest && NothingChanged()
    {
      var row := store.GetTicket(key);
      if row.None? || row.value.verdict.None? { return BadRequest; }
      if Decided(row.value.status) { return BadRequest; }
      if PostingBusy(row.value) { return Conflict; }
      MarkAdopted(key, row.value.autoComment);
      return L.Ok;
    }

    /** `mark_accepted` with the automatic comment's id, if there is one. */
    method MarkAdopted(key: Key, auto: Option<CommentId>)
      requires key in store.rows && auto == store.rows[key].autoComment
      modifies store, this`adopted
      ensures Became(key, Adopted(old(View(key))))
    {
      store.MarkDecided(key, Status.Accepted, auto);
      adopted := adopted[key := SetAt(adopted, key) + if auto.Some? then {auto.value} else {}];
    }

    method RejectLocally(key: Key, deleted: bool) returns (reply: Reply)
      modifies store, jira
      ensures key in old(store.rows) ==>
        Became(key, RejectLocalStep(old(View(key)), deleted).ticket)
        && reply == RejectLocalStep(old(View(key)), deleted).reply
      ensures key !in old(store.rows) ==> reply == BadRequest && NothingChanged()
    {
      var row := store.GetTicket(key);
      if row.None? || row.value.verdict.None? { return BadRequest; }
      if Decided(row.value.status) { return BadRequest; }
      if PostingBusy(row.value) { return Conflict; }
      var ok := WithdrawAutoPost(key, deleted);
      if !ok { return BadGateway; }
      store.MarkDecided(key, Status.Rejected, None);
      return L.Ok;
    }

    method MarkUnclear(key: Key, feedback: bool) returns (reply: Reply)
      modifies store
      ensures key in old(store.rows) ==>
        Became(key, UnclearStep(old(View(key)), feedback).ticket)
        && reply == UnclearStep(old(View(key)), feedback).reply
      ensures key !in old(store.rows) ==> reply == BadRequest && NothingChanged()
    {
      if !feedback { return BadRequest; }
      var row := store.GetTicket(key);
      if row.None? || row.value.verdict.None? { return BadRequest; }
      if Decided(row.value.status) { return BadRequest; }
      if PostingBusy(row.value) { return Conflict; }
      store.MarkDecided(key, Status.Unclear, None);
      return L.Ok;
    }

    /** `start_job` and its thread; a missing row reads as "already running". */
    method Launch(key: Key, tid: ThreadId, kind: JobKind) returns (reply: Reply)
      modifies store, this`jobs
      ensures key in old(store.rows) ==>
        Became(key, StartJobStep(old(View(key)), tid, kind).ticket)
        && reply == StartJobStep(old(View(key)), tid, kind).reply
      ensures key !in old(store.rows) ==> reply == AlreadyRunning && NothingChanged()
    {
      var started := store.StartJob(key, kind);
      if !started { return AlreadyRunning; }
      jobs := jobs[key := ThreadsAt(jobs, key)[tid := Job(kind, Started)]];
      return L.Ok;
    }

    method AcceptAndPostRca(key: Key, tid: ThreadId) returns (reply: Reply)
      modifies store, this`jobs, this`adopted
      ensures key in old(store.rows) ==>
        Became(key, AcceptAndPostStep(old(View(key)), tid).ticket)
        && reply == AcceptAndPostStep(old(View(key)), tid).reply
      ensures key !in old(store.rows) ==> reply == BadRequest && NothingChanged()
    {
      var row := store.GetTicket(key);
      if row.None? || row.value.verdict.None? { return BadRequest; }
      if Decided(row.value.status) { return BadRequest; }
      if row.value.autoComment.Some? {
        if PostingBusy(row.value) { return Conflict; }
        MarkAdopted(key, row.value.autoComment);
        return L.Ok;
      }
      reply := Launch(key, tid, AcceptJob);
    }

    method RejectRca(key: Key, tid: ThreadId, hasText: bool) returns (reply: Reply)
      modifies store, this`jobs
      ensures key in old(store.rows) ==>
        Became(key, RejectStep(old(View(key)), tid, hasText).ticket)
        && reply == RejectStep(old(View(key)), tid, hasText).reply
      ensures key !in old(store.rows) ==>
        reply == (if hasText then AlreadyRunning else BadRequest) && NothingChanged()
    {
      if !hasText { return BadRequest; }
      var row := store.GetTicket(key);
      if row.Some? && Decided(row.value.status) { return BadRequest; }
      reply := Launch(key, tid, RejectJob);
    }

    method SuggestFixFor(key: Key, tid: ThreadId) returns (reply: Reply)
      modifies store, this`jobs
      ensures key in old(store.rows) ==>
        Became(key, SuggestFixStep(old(View(key)), tid).ticket)
        && reply == SuggestFixStep(old(View(key)), tid).reply
      ensures key !in old(store.rows) ==> reply == BadRequest && NothingChanged()
    {
      var row := store.GetTicket(key);
      if row.None? || row.value.verdict.None? { return BadRequest; }
      reply := Launch(key, tid, FixJob);
    }

    // --- background threads, one store or Jira call at a time -----------------------------

    method RcaThread(key: Key, tid: ThreadId, ok: bool, id: CommentId, text: string)
      requires key in store.rows && tid in ThreadsAt(rcas, key)
      modifies this, store, jira
      ensures Became(key, RcaStep(old(View(key)), tid, ok, id, text))
    {
      hide SavedRca, FailedRun;
      if ThreadsAt(rcas, key)[tid] != Investigating {
        MaybeAutoPost(key, tid, ok, id, text);
        return;
      }
      if ok {
        store.SaveRca(key, text);
        rcas := rcas[key := ThreadsAt(rcas, key)[tid := Saved]];
      } else {
        store.MarkFailed(key, text);
        rcas := rcas[key := ThreadsAt(rcas, key) - {tid}];
      }
    }

    /** After the verdict is stored: look at the trigger and the switch, post, record what came of it. */
    method MaybeAutoPost(key: Key, tid: ThreadId, ok: bool, id: CommentId, text: string)
      requires key in store.rows && tid in ThreadsAt(rcas, key) && !ThreadsAt(rcas, key)[tid].Investigating?
      modifies this, store, jira
      ensures Became(key, RcaStep(old(View(key)), tid, ok, id, text))
    {
      hide WithAutoComment;
      var next: Option<RcaPhase> := None;
      match ThreadsAt(rcas, key)[tid] {
        case Saved =>
          var row := store.GetTicket(key);
          if row.Some? && row.value.trigger == Some(Auto) { next := Some(CheckedAuto); }
        case CheckedAuto =>
          if ok { next := Some(Posting); }
        case Posting =>
          jira.AddComment(key, id, ok);
          if ok {
            autoPosted := autoPosted[key := SetAt(autoPosted, key) + {id}];
            next := Some(Posted(id));
          } else {
            next := Some(PostFailed);
          }
        case Posted(cid) => store.SetAutoComment(key, cid);
        case PostFailed => store.SetAutoPostError(key, text);
      }
      rcas := rcas[key := if next.Some? then ThreadsAt(rcas, key)[tid := next.value]
                          else ThreadsAt(rcas, key) - {tid}];
    }

    /** A job's first call reads the row and decides where to go on. */
    method FirstCall(key: Key, tid: ThreadId, ok: bool, id: CommentId) returns (next: JobPhase)
      requires key in store.rows && tid in ThreadsAt(jobs, key) && ThreadsAt(jobs, key)[tid].phase.Started?
      ensures JobStep(View(key), tid, ok, id) == AtPhase(View(key), tid, next)
    {
      var row := store.GetTicket(key);
      next := Failing;
      if ThreadsAt(jobs, key)[tid].kind == RejectJob {
        if ok {
          next := if row.value.autoComment.Some? then Deleting(row.value.autoComment.value) else PostingJob;
        }
      } else if ok && row.value.verdict.Some? {
        next := if ThreadsAt(jobs, key)[tid].kind == FixJob then Finishing else PostingJob;
      }
    }

    method JobThread(key: Key, tid: ThreadId, ok: bool, id: CommentId)
      requires key in store.rows && tid in ThreadsAt(jobs, key)
      modifies this, store, jira
      ensures Became(key, JobStep(old(View(key)), tid, ok, id))
    {
      hide DecidedRow, WithoutAutoComment;
      var kind := ThreadsAt(jobs, key)[tid].kind;
      var next := Failing;
      match ThreadsAt(jobs, key)[tid].phase {
        case Started =>
          next := FirstCall(key, tid, ok, id);
        case Deleting(cid) =>
          jira.DeleteComment(key, cid, ok);
          if ok { next := Clearing; }
        case Clearing =>
          store.ClearAutoComment(key);
          next := PostingJob;
        case PostingJob =>
          jira.AddComment(key, id, ok);
          if ok { next := Marking(id); }
        case Marking(cid) =>
          store.MarkDecided(key, if kind == RejectJob then Status.Rejected else Status.Accepted, Some(cid));
          next := Finishing;
        case Finishing =>
          EndThread(key, tid, JobDone);
          return;
        case Failing =>
          EndThread(key, tid, JobFailed);
          return;
      }
      jobs := jobs[key := ThreadsAt(jobs, key)[tid := Job(kind, next)]];
    }

    /** `finish_job` or `fail_job`, and the thread is gone. */
    method EndThread(key: Key, tid: ThreadId, outcome: JobStatus)
      requires key in store.rows && tid in ThreadsAt(jobs, key)
      modifies store, this`jobs
      ensures Became(key, EndJobStep(old(View(key)), tid, outcome))
    {
      store.EndJob(key, outcome);
      jobs := jobs[key := ThreadsAt(jobs, key) - {tid}];
    }

    /** The process dies and comes back: threads are gone, `init_db` repairs every row. */
    method ProcessRestart()
      modifies this, store
      ensures store.rows.Keys == old(store.rows.Keys)
      ensures forall k :: k in store.rows ==> View(k) == RestartStep(old(View(k)), k)
    {
      rcas, jobs := map[], map[];
      store.InitDb();
    }
  }
}
