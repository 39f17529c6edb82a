/** Runs in which only background threads move, and how far one job thread can be driven alone. */
module ThreadRuns {
  import opened Basics
  import opened ReviewStore
  import opened Lifecycle

  predicate ThreadSteps(es: seq<Event>) {
    forall i :: 0 <= i < |es| ==> es[i].RcaGo? || es[i].JobGo?
  }

  /** A posting job that has not yet recorded its decision. */
  predicate Undecided(j: Job) {
    Posts(j.kind) && !j.phase.Finishing? && !j.phase.Failing?
  }

  /** A fix job never deletes, posts or decides. */
  predicate FixPhase(p: JobPhase) {
    p.Started? || p.Finishing? || p.Failing?
  }

  /** It still has to decide, and no missing verdict can stop it. */
  predicate CanDecide(j: Job) {
    Undecided(j) && !(j.kind.AcceptJob? && j.phase.Started?)
  }

  /** An investigation that has yet to read the row's trigger. */
  predicate Unchecked(p: RcaPhase) {
    p.Investigating? || p.Saved?
  }

  /** It will post or record an automatic comment unless something stops it. */
  predicate MayPost(t: Ticket, p: RcaPhase) {
    p.CheckedAuto? || p.Posting? || p.Posted? || (Unchecked(p) && t.row.trigger == Some(Auto))
  }

  /** Nothing has changed but this job's phase, the comments on Jira and the error of an automatic post. */
  predicate OnlyPosted(t: Ticket, t': Ticket, j: ThreadId)
    requires j in t.jobs
  {
    && j in t'.jobs && t'.jobs == t.jobs[j := t.jobs[j].(phase := t'.jobs[j].phase)]
    && t'.rcas == t.rcas && t'.row == t.row.(autoPostError := t'.row.autoPostError)
    && t'.autoPosted == t.autoPosted && t'.adopted == t.adopted && t.used <= t'.used
  }

  function JobDistance(p: JobPhase): nat {
    match p
    case Deleting(_) => 4
    case Started => 3
    case Clearing => 3
    case PostingJob => 2
    case _ => 1
  }

  /** The next call of such a job, when it succeeds. */
  lemma DriveOne(t: Ticket, j: ThreadId, id: CommentId) returns (t': Ticket)
    requires j in t.jobs && CanDecide(t.jobs[j]) && t.row.autoComment.None? && !t.jobs[j].phase.Marking? && id !in t.used
    ensures Path([t, t'], [JobGo(j, true, id)])
    ensures OnlyPosted(t, t', j) && CanDecide(t'.jobs[j]) && t'.row.autoComment.None?
    ensures JobDistance(t'.jobs[j].phase) < JobDistance(t.jobs[j].phase)
  {
    t' := JobStep(t, j, true, id);
  }

  /** A posting job with nothing left to withdraw can always be driven to the brink of its decision. */
  lemma DriveToMarking(t: Ticket, j: ThreadId) returns (ts: seq<Ticket>, es: seq<Event>)
    requires j in t.jobs && CanDecide(t.jobs[j]) && t.row.autoComment.None?
    ensures Path(ts, es) && ThreadSteps(es) && ts[0] == t
    ensures OnlyPosted(t, ts[|es|], j) && ts[|es|].jobs[j].phase.Marking?
    decreases JobDistance(t.jobs[j].phase)
  {
    hide JobStep, Step, Enabled;
    if t.jobs[j].phase.Marking? {
      ts, es := [t], [];
      assert t.jobs == t.jobs[j := t.jobs[j]];
    } else {
      var id := BoundOf(t.used);
      var t1 := DriveOne(t, j, id);
      var us, fs := DriveToMarking(t1, j);
      var first := JobGo(j, true, id);
      PathsJoin([t, t1], [first], us, fs);
      ts, es := [t, t1] + us[1..], [first] + fs;
    }
  }

  function PostDistance(p: RcaPhase): nat {
    match p
    case Investigating => 4
    case Saved => 3
    case CheckedAuto => 2
    case Posting => 1
    case _ => 0
  }

  /** Only this investigation has moved: its comment is on Jira, and its verdict in the row if it had none yet. */
  predicate OnlyAutoPosted(t: Ticket, t': Ticket, r: ThreadId, c: CommentId)
    requires r in t.rcas
  {
    && t'.rcas == t.rcas[r := Posted(c)] && t'.jobs == t.jobs && t'.adopted == t.adopted
    && t'.autoPosted == t.autoPosted + (if t.rcas[r].Posted? then {} else {c})
    && (if t.rcas[r].Posted? then t.rcas[r] == Posted(c) && t'.onJira == t.onJira
        else c !in t.used && c in t'.used && c in t'.onJira)
    && t.used <= t'.used && t.onJira <= t'.onJira
    && t'.row == if t.rcas[r].Investigating? then SavedRca(t.row, "") else t.row
  }

  /** The next call of an investigation that may post, when it succeeds. */
  lemma PostOne(t: Ticket, r: ThreadId, id: CommentId) returns (t': Ticket)
    requires r in t.rcas && MayPost(t, t.rcas[r]) && !t.rcas[r].Posted? && id !in t.used
    ensures Path([t, t'], [RcaGo(r, true, id, "")])
    ensures r in t'.rcas && t'.rcas == t.rcas[r := t'.rcas[r]] && MayPost(t', t'.rcas[r])
    ensures PostDistance(t'.rcas[r]) < PostDistance(t.rcas[r]) && !t'.rcas[r].Investigating?
    ensures t'.jobs == t.jobs && t'.adopted == t.adopted
    ensures t'.row == if t.rcas[r].Investigating? then SavedRca(t.row, "") else t.row
    ensures if t.rcas[r].Posting?
            then t'.rcas[r] == Posted(id) && t'.autoPosted == t.autoPosted + {id} && t'.used == t.used + {id}
                 && t'.onJira == t.onJira + {id}
            else !t'.rcas[r].Posted? && t'.autoPosted == t.autoPosted && t'.used == t.used && t'.onJira == t.onJira
  {
    t' := RcaStep(t, r, true, id, "");
  }

  /** An investigation that may post can always be driven to where only the record is missing. */
  lemma DriveToPosted(t: Ticket, r: ThreadId) returns (ts: seq<Ticket>, es: seq<Event>, c: CommentId)
    requires r in t.rcas && MayPost(t, t.rcas[r])
    ensures Path(ts, es) && ThreadSteps(es) && ts[0] == t && OnlyAutoPosted(t, ts[|es|], r, c)
    decreases PostDistance(t.rcas[r])
  {
    hide RcaStep, Step, Enabled, SavedRca;
    if t.rcas[r].Posted? {
      ts, es, c := [t], [], t.rcas[r].id;
      assert t.rcas == t.rcas[r := t.rcas[r]];
    } else {
      var id := BoundOf(t.used);
      var t1 := PostOne(t, r, id);
      var us, fs, d := DriveToPosted(t1, r);
      var first := RcaGo(r, true, id, "");
      PathsJoin([t, t1], [first], us, fs);
      ts, es, c := [t, t1] + us[1..], [first] + fs, d;
    }
  }
}
