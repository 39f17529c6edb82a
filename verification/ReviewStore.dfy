/**
  rca_agent/webapp/db.py: the `reviews` table and its conditional UPDATEs.

  The functions at the top say what one UPDATE makes of one row; class `Store` is the
  table itself, each method one committed transaction.
 */
module ReviewStore {
  import opened Basics

  type Key = string
  type Verdict = string
  type CommentId = nat

  datatype Status = Pending | Running | RcaReady | Failed | Accepted | Rejected | Unclear
  datatype Source = Manual | Auto
  datatype JobKind = FixJob | AcceptJob | RejectJob
  datatype JobStatus = JobRunning | JobDone | JobFailed

  datatype Row = Row(
    status: Status,
    verdict: Option<Verdict>,
    error: Option<string>,
    trigger: Option<Source>,
    autoRunAt: Option<int>,
    jobKind: Option<JobKind>,
    jobStatus: Option<JobStatus>,
    comment: Option<CommentId>,
    autoComment: Option<CommentId>,
    autoPostError: Option<string>,
    created: int,
    issueType: Option<string>,
    jiraStatus: Option<string>,
    jiraDone: bool,
    onDashboard: bool)

  /** What a sync from Jira brings in (`_sync_issue`). */
  datatype JiraFields = JiraFields(
    created: int, issueType: Option<string>, jiraStatus: Option<string>, jiraDone: bool, pin: bool)

  const INTERRUPTED := "Interrupted by a server restart"

  /** A human has already decided on this RCA. */
  predicate Decided(s: Status) {
    s.Accepted? || s.Rejected? || s.Unclear?
  }

  /** SQLite's `key LIKE 'AUT-%'`, which ignores ASCII case. */
  predicate LikeAut(key: Key) {
    |key| >= 4 && key[0] in "aA" && key[1] in "uU" && key[2] in "tT" && key[3] == '-'
  }

  // --- what each UPDATE does to the row it hits ---------------------------------

  function NewRow(t: JiraFields): Row {
    Row(Pending, None, None, None, None, None, None, None, None, None,
        t.created, t.issueType, t.jiraStatus, t.jiraDone, t.pin)
  }

  function Refreshed(r: Row, t: JiraFields): Row {
    r.(issueType := if t.issueType.Some? then t.issueType else r.issueType,
       jiraStatus := if t.jiraStatus.Some? then t.jiraStatus else r.jiraStatus,
       jiraDone := if t.jiraStatus.Some? then t.jiraDone else r.jiraDone,
       onDashboard := r.onDashboard || t.pin)
  }

  function SavedRca(r: Row, v: Verdict): Row {
    r.(verdict := Some(v), status := RcaReady, error := None)
  }

  function FailedRun(r: Row, err: string): Row {
    if r.verdict.None? then r.(status := Failed, error := Some(err))
    else r.(status := RcaReady, error := if err == "" then None else Some(err))
  }

  function ClaimedManual(r: Row): Row {
    r.(status := Running, error := None, trigger := Some(Manual))
  }

  /** The WHERE clause of the poller's claim. */
  predicate AutoClaimable(r: Row) {
    r.status.Pending? && r.verdict.None? && r.autoRunAt.None?
  }

  function ClaimedAuto(r: Row, now: int): Row {
    r.(status := Running, error := None, trigger := Some(Auto), autoRunAt := Some(now))
  }

  function StartedJob(r: Row, kind: JobKind): Row {
    r.(jobKind := Some(kind), jobStatus := Some(JobRunning))
  }

  function WithAutoComment(r: Row, id: CommentId): Row {
    r.(autoComment := Some(id), autoPostError := None)
  }

  function WithoutAutoComment(r: Row): Row {
    r.(autoComment := None, autoPostError := None)
  }

  function ResetRow(r: Row): Row {
    r.(verdict := None, status := Pending, jobKind := None, jobStatus := None,
       autoComment := None, autoPostError := None)
  }

  function PinnedIfWorkedOn(key: Key, r: Row): Row {
    r.(onDashboard := r.onDashboard || (LikeAut(key) && (!r.status.Pending? || r.verdict.Some?)))
  }

  function FailedIfRunning(r: Row): Row {
    if r.status.Running? then r.(status := Failed, error := Some(INTERRUPTED)) else r
  }

  function JobFailedIfRunning(r: Row): Row {
    if r.jobStatus == Some(JobRunning) then r.(jobStatus := Some(JobFailed)) else r
  }

  /** `init_db` on one row: pin worked-on tickets, fail what the dead process left running. */
  function Recovered(key: Key, r: Row): Row {
    JobFailedIfRunning(FailedIfRunning(PinnedIfWorkedOn(key, r)))
  }

  // --- the table ---------------------------------------------------------------

  class Store {
    var rows: map<Key, Row>

    constructor ()
      ensures rows == map[]
    {
      rows := map[];
    }

    /** Recovery at process start: three UPDATEs, one after the other. */
    method InitDb()
      modifies this
      ensures rows == map k | k in old(rows) :: Recovered(k, old(rows)[k])
    {
      PinWorkedOn();
      FailRunning();
      FailRunningJobs();
    }

    method PinWorkedOn()
      modifies this
      ensures rows == map k | k in old(rows) :: PinnedIfWorkedOn(k, old(rows)[k])
    {
      rows := map k | k in rows ::
        if LikeAut(k) && (!rows[k].status.Pending? || rows[k].verdict.Some?)
        then rows[k].(onDashboard := true) else rows[k];
    }

    method FailRunning()
      modifies this
      ensures rows == map k | k in old(rows) :: FailedIfRunning(old(rows)[k])
    {
      rows := map k | k in rows ::
        if rows[k].status.Running? then rows[k].(status := Failed, error := Some(INTERRUPTED))
        else rows[k];
    }

    method FailRunningJobs()
      modifies this
      ensures rows == map k | k in old(rows) :: JobFailedIfRunning(old(rows)[k])
    {
      rows := map k | k in rows ::
        if rows[k].jobStatus == Some(JobRunning) then rows[k].(jobStatus := Some(JobFailed))
        else rows[k];
    }

    method UpsertTicket(key: Key, t: JiraFields)
      modifies this
      ensures rows == old(rows)[key := if key in old(rows) then Refreshed(old(rows)[key], t)
                                       else NewRow(t)]
    {
      if key !in rows {
        rows := rows[key := NewRow(t)];
      } else {
        var r := rows[key];
        if t.issueType.Some? { r := r.(issueType := t.issueType); }
        if t.jiraStatus.Some? { r := r.(jiraStatus := t.jiraStatus, jiraDone := t.jiraDone); }
        if t.pin { r := r.(onDashboard := true); }
        rows := rows[key := r];
      }
    }

    method GetTicket(key: Key) returns (r: Option<Row>)
      ensures r == if key in rows then Some(rows[key]) else None
    {
      r := if key in rows then Some(rows[key]) else None;
    }

    method SaveRca(key: Key, v: Verdict)
      modifies this
      ensures rows == if key in old(rows) then old(rows)[key := SavedRca(old(rows)[key], v)]
                      else old(rows)
    {
      if key in rows {
        rows := rows[key := rows[key].(verdict := Some(v), status := RcaReady, error := None)];
      }
    }

    /** Two UPDATEs: the second runs only when the first hit no row. */
    method MarkFailed(key: Key, err: string)
      modifies this
      ensures rows == if key in old(rows) then old(rows)[key := FailedRun(old(rows)[key], err)]
                      else old(rows)
    {
      var rowcount := 0;
      if key in rows && rows[key].verdict.None? {
        rows := rows[key := rows[key].(status := Failed, error := Some(err))];
        rowcount := 1;
      }
      if rowcount == 0 {
        if key in rows && rows[key].verdict.Some? {
          rows := rows[key := rows[key].(status := RcaReady,
                                         error := if err == "" then None else Some(err))];
        }
      }
    }

    method ClaimRunning(key: Key) returns (ok: bool)
      modifies this
      ensures ok <==> key in old(rows) && !old(rows)[key].status.Running?
      ensures rows == if ok then old(rows)[key := ClaimedManual(old(rows)[key])] else old(rows)
    {
      ok := key in rows && rows[key].status != Running;
      if ok {
        rows := rows[key := rows[key].(status := Running, error := None, trigger := Some(Manual))];
      }
    }

    method ClaimAutoRun(key: Key, now: int) returns (ok: bool)
      modifies this
      ensures ok <==> key in old(rows) && AutoClaimable(old(rows)[key])
      ensures rows == if ok then old(rows)[key := ClaimedAuto(old(rows)[key], now)] else old(rows)
    {
      ok := key in rows && rows[key].status == Pending && rows[key].verdict == None
            && rows[key].autoRunAt == None;
      if ok {
        rows := rows[key := rows[key].(status := Running, error := None, trigger := Some(Auto),
                                       autoRunAt := Some(now))];
      }
    }

    method StartJob(key: Key, kind: JobKind) returns (ok: bool)
      modifies this
      ensures ok <==> key in old(rows) && old(rows)[key].jobStatus != Some(JobRunning)
      ensures rows == if ok then old(rows)[key := StartedJob(old(rows)[key], kind)] else old(rows)
    {
      ok := key in rows && (rows[key].jobStatus == None || rows[key].jobStatus != Some(JobRunning));
      if ok {
        rows := rows[key := rows[key].(jobKind := Some(kind), jobStatus := Some(JobRunning))];
      }
    }

    method EndJob(key: Key, outcome: JobStatus)
      modifies this
      ensures rows == if key in old(rows)
                      then old(rows)[key := old(rows)[key].(jobStatus := Some(outcome))]
                      else old(rows)
    {
      if key in rows {
        rows := rows[key := rows[key].(jobStatus := Some(outcome))];
      }
    }

    method SetAutoComment(key: Key, id: CommentId)
      modifies this
      ensures rows == if key in old(rows) then old(rows)[key := WithAutoComment(old(rows)[key], id)]
                      else old(rows)
    {
      if key in rows {
        rows := rows[key := rows[key].(autoComment := Some(id), autoPostError := None)];
      }
    }

    method SetAutoPostError(key: Key, err: string)
      modifies this
      ensures rows == if key in old(rows)
                      then old(rows)[key := old(rows)[key].(autoPostError := Some(err))]
                      else old(rows)
    {
      if key in rows {
        rows := rows[key := rows[key].(autoPostError := Some(err))];
      }
    }

    method ClearAutoComment(key: Key)
      modifies this
      ensures rows == if key in old(rows) then old(rows)[key := WithoutAutoComment(old(rows)[key])]
                      else old(rows)
    {
      if key in rows {
        rows := rows[key := rows[key].(autoComment := None, autoPostError := None)];
      }
    }

    /** `mark_accepted`, `mark_rejected` and `mark_unclear`; the last leaves `comment` alone. */
    method MarkDecided(key: Key, s: Status, comment: Option<CommentId>)
      requires Decided(s)
      modifies this
      ensures rows == if key in old(rows)
                      then old(rows)[key := DecidedRow(old(rows)[key], s, comment)] else old(rows)
    {
      if key in rows {
        rows := rows[key := rows[key].(status := s)];
        if s != Unclear {
          rows := rows[key := rows[key].(comment := comment)];
        }
      }
    }

    method Reset(key: Key)
      modifies this
      ensures rows == if key in old(rows) then old(rows)[key := ResetRow(old(rows)[key])]
                      else old(rows)
    {
      if key in rows {
        rows := rows[key := rows[key].(verdict := None, status := Pending, jobKind := None,
                                       jobStatus := None, autoComment := None,
                                       autoPostError := None)];
      }
    }
  }

  function DecidedRow(r: Row, s: Status, comment: Option<CommentId>): Row {
    r.(status := s, comment := if s.Unclear? then r.comment else comment)
  }
}
