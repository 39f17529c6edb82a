/** rca_agent/webapp/app.py, the review handlers: when each of them goes through, and what it leaves behind. */
module HandlerAnswers {
  import opened Basics
  import opened ReviewStore
  import opened Lifecycle

  /** There is a verdict and nobody has decided on it yet. */
  predicate Open(r: Row) {
    r.verdict != None && r.status !in {Status.Accepted, Status.Rejected, Status.Unclear}
  }

  /** A job that posts to Jira is on. */
  predicate Posting(r: Row) {
    r.jobStatus == Some(JobRunning) && r.jobKind in {Some(AcceptJob), Some(RejectJob)}
  }

  /** Everything about the ticket but its row and this service's comments on Jira. */
  predicate SameThreads(t: Ticket, t': Ticket) {
    t'.rcas == t.rcas && t'.jobs == t.jobs && t'.used == t.used && t'.autoPosted == t.autoPosted
  }

  /** A new job has taken the slot, and nothing else has happened. */
  predicate JobStarted(t: Ticket, t': Ticket, tid: ThreadId, kind: JobKind) {
    && t'.row == t.row.(jobKind := Some(kind), jobStatus := Some(JobRunning))
    && t'.jobs == t.jobs[tid := Job(kind, Started)] && t'.rcas == t.rcas && t'.onJira == t.onJira && t'.used == t.used
    && t'.autoPosted == t.autoPosted && t'.adopted == t.adopted
  }

  /** Accepting without a post: the decision and the automatic comment, if there is one, as its record. */
  predicate AcceptedAsIs(t: Ticket, t': Ticket) {
    && t'.row == t.row.(status := Status.Accepted, comment := t.row.autoComment)
    && SameThreads(t, t') && t'.onJira == t.onJira
  }

  /** A handler that did not go through has changed nothing. */
  predicate OrNothing(t: Ticket, o: Outcome) {
    o.reply != Ok ==> o.ticket == t
  }

  lemma AcceptAnswers(t: Ticket)
    ensures var o := AcceptStep(t);
      && (o.reply == BadRequest <==> !Open(t.row)) && (o.reply == Conflict <==> Open(t.row) && Posting(t.row))
      && (o.reply == Ok <==> Open(t.row) && !Posting(t.row)) && OrNothing(t, o)
      && (o.reply == Ok ==> AcceptedAsIs(t, o.ticket))
  {
  }

  lemma RejectLocalAnswers(t: Ticket, deleted: bool)
    ensures var o, posted := RejectLocalStep(t, deleted), t.row.autoComment;
      && (o.reply == BadRequest <==> !Open(t.row)) && (o.reply == Conflict <==> Open(t.row) && Posting(t.row))
      && (o.reply == BadGateway <==> Open(t.row) && !Posting(t.row) && posted != None && !deleted)
      && (o.reply == Ok <==> Open(t.row) && !Posting(t.row) && (posted == None || deleted)) && OrNothing(t, o)
      && (o.reply == Ok ==>
            && o.ticket.row.status == Status.Rejected && o.ticket.row.comment == None && o.ticket.row.autoComment == None
            && o.ticket.row.verdict == t.row.verdict && o.ticket.row.autoRunAt == t.row.autoRunAt
            && o.ticket.onJira == t.onJira - (if posted.Some? then {posted.value} else {}) && SameThreads(t, o.ticket))
  {
  }

  lemma UnclearAnswers(t: Ticket, feedback: bool)
    ensures var o := UnclearStep(t, feedback);
      && (o.reply == BadRequest <==> !feedback || !Open(t.row))
      && (o.reply == Conflict <==> feedback && Open(t.row) && Posting(t.row))
      && (o.reply == Ok <==> feedback && Open(t.row) && !Posting(t.row)) && OrNothing(t, o)
      && (o.reply == Ok ==>
            o.ticket.row == t.row.(status := Status.Unclear) && o.ticket.onJira == t.onJira && SameThreads(t, o.ticket))
  {
  }

  /** A comment that was posted automatically comes off Jira with the reset, unless a human has accepted it. */
  lemma ResetAnswers(t: Ticket, deleted: bool)
    ensures var o, takesDown := ResetStep(t, deleted), t.row.autoComment != None && t.row.status != Status.Accepted;
      && (o.reply == Conflict <==> takesDown && Posting(t.row))
      && (o.reply == BadGateway <==> takesDown && !Posting(t.row) && !deleted)
      && (o.reply == Ok <==> !takesDown || (!Posting(t.row) && deleted)) && OrNothing(t, o)
      && (o.reply == Ok ==>
            && o.ticket.row.status == Status.Pending && o.ticket.row.verdict == None
            && o.ticket.row.jobStatus == None && o.ticket.row.jobKind == None && o.ticket.row.autoComment == None
            && o.ticket.row.autoRunAt == t.row.autoRunAt && o.ticket.row.trigger == t.row.trigger
            && o.ticket.row.comment == t.row.comment && SameThreads(t, o.ticket)
            && (o.ticket.onJira == if takesDown then t.onJira - {t.row.autoComment.value} else t.onJira))
  {
  }

  lemma AcceptAndPostAnswers(t: Ticket, tid: ThreadId)
    ensures var o, posted := AcceptAndPostStep(t, tid), t.row.autoComment != None;
      && (o.reply == BadRequest <==> !Open(t.row)) && (o.reply == Conflict <==> Open(t.row) && posted && Posting(t.row))
      && (o.reply == AlreadyRunning <==> Open(t.row) && !posted && t.row.jobStatus == Some(JobRunning))
      && (o.reply == Ok <==> Open(t.row) && if posted then !Posting(t.row) else t.row.jobStatus != Some(JobRunning))
      && OrNothing(t, o)
      && (o.reply == Ok ==>
            if posted then AcceptedAsIs(t, o.ticket) else JobStarted(t, o.ticket, tid, AcceptJob))
  {
  }

  /** Needs a text, but no verdict. */
  lemma RejectAnswers(t: Ticket, tid: ThreadId, hasText: bool)
    ensures var o := RejectStep(t, tid, hasText);
      var decided := t.row.status in {Status.Accepted, Status.Rejected, Status.Unclear};
      && (o.reply == BadRequest <==> !hasText || decided)
      && (o.reply == AlreadyRunning <==> hasText && !decided && t.row.jobStatus == Some(JobRunning))
      && (o.reply == Ok <==> hasText && !decided && t.row.jobStatus != Some(JobRunning)) && OrNothing(t, o)
      && (o.reply == Ok ==> JobStarted(t, o.ticket, tid, RejectJob))
  {
  }

  /** Needs a verdict, decided on or not. */
  lemma SuggestFixAnswers(t: Ticket, tid: ThreadId)
    ensures var o := SuggestFixStep(t, tid);
      && (o.reply == BadRequest <==> t.row.verdict == None)
      && (o.reply == AlreadyRunning <==> t.row.verdict != None && t.row.jobStatus == Some(JobRunning))
      && (o.reply == Ok <==> t.row.verdict != None && t.row.jobStatus != Some(JobRunning)) && OrNothing(t, o)
      && (o.reply == Ok ==> JobStarted(t, o.ticket, tid, FixJob))
  {
  }

  /** An investigation starts on any ticket that has none running; the poller's only on an untouched one. */
  lemma ClaimAnswers(t: Ticket, tid: ThreadId, now: int)
    ensures var o := ClickRcaStep(t, tid);
      && (o.reply == AlreadyRunning <==> t.row.status == Running) && (o.reply == Ok <==> t.row.status != Running)
      && OrNothing(t, o)
      && (o.reply == Ok ==> o.ticket == t.(row := t.row.(status := Running, error := None, trigger := Some(Manual)),
                                           rcas := t.rcas[tid := Investigating]))
    ensures AutoClaimStep(t, tid, now) ==
      if t.row.status == Pending && t.row.verdict == None && t.row.autoRunAt == None
      then t.(row := t.row.(status := Running, error := None, trigger := Some(Auto), autoRunAt := Some(now)),
              rcas := t.rcas[tid := Investigating])
      else t
  {
  }

  /** A restart ends every thread, and no row goes on saying that one is at work. */
  lemma RestartRepairs(t: Ticket, key: Key)
    ensures var t' := RestartStep(t, key);
      && t'.rcas == map[] && t'.jobs == map[] && t'.onJira == t.onJira
      && t'.row.status == (if t.row.status == Running then Failed else t.row.status)
      && (t.row.status == Running ==> t'.row.error == Some("Interrupted by a server restart"))
      && t'.row.jobStatus == (if t.row.jobStatus == Some(JobRunning) then Some(JobFailed) else t.row.jobStatus)
      && t'.row.verdict == t.row.verdict && t'.row.autoComment == t.row.autoComment && t'.row.autoRunAt == t.row.autoRunAt
      && (t'.row.onDashboard <==> t.row.onDashboard || (LikeAut(key) && (t.row.status != Pending || t.row.verdict != None)))
  {
  }
}
