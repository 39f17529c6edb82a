/** rca_agent/webapp/app.py, `_run_rca_background` and `_maybe_auto_post`: how an investigation ends. */
module InvestigationOutcomes {
  import opened Basics
  import opened ReviewStore
  import opened Lifecycle

  /** All calls of an investigation, and nothing in between. */
  ghost predicate LeftAlone(ts: seq<Ticket>, es: seq<Event>, tid: ThreadId) {
    && Path(ts, es) && es != [] && (forall i :: 0 <= i < |es| ==> es[i].RcaGo? && es[i].tid == tid)
    && tid in ts[0].rcas && ts[0].rcas[tid].Investigating? && tid !in ts[|es|].rcas
  }

  /** Its first call: the agent has run. */
  lemma FirstCall(t: Ticket, e: Event)
    requires Enabled(t, e) && e.RcaGo? && t.rcas[e.tid].Investigating?
    ensures var t' := Step(t, e);
      && (e.ok ==> e.tid in t'.rcas && t'.rcas[e.tid].Saved?
                   && t'.row == t.row.(verdict := Some(e.text), status := RcaReady, error := None))
      && (!e.ok ==> e.tid !in t'.rcas && t'.row.verdict == t.row.verdict
                    && (t.row.verdict == None ==> t'.row == t.row.(status := Failed, error := Some(e.text)))
                    && (t.row.verdict != None ==>
                          t'.row == t.row.(status := RcaReady, error := if e.text == "" then None else Some(e.text))))
      && t'.onJira == t.onJira
  {
  }

  /** Then it reads the row's trigger, and after that the switch. */
  lemma Checks(t: Ticket, e: Event)
    requires Enabled(t, e) && e.RcaGo? && (t.rcas[e.tid].Saved? || t.rcas[e.tid].CheckedAuto?)
    ensures var goesOn := if t.rcas[e.tid].Saved? then t.row.trigger == Some(Auto) else e.ok;
      && (goesOn <==> e.tid in Step(t, e).rcas)
      && (goesOn ==> Step(t, e).rcas[e.tid] == if t.rcas[e.tid].Saved? then CheckedAuto else Posting)
      && Step(t, e).row == t.row && Step(t, e).onJira == t.onJira
  {
  }

  /** Then it posts, and records what came of it. */
  lemma Posts(t: Ticket, e: Event)
    requires Enabled(t, e) && e.RcaGo? && t.rcas[e.tid].Posting?
    ensures var t' := Step(t, e);
      && e.tid in t'.rcas && t'.rcas[e.tid] == (if e.ok then Posted(e.id) else PostFailed) && t'.row == t.row
      && t'.onJira == t.onJira + (if e.ok then {e.id} else {}) && t'.used == t.used + (if e.ok then {e.id} else {})
      && t'.autoPosted == t.autoPosted + if e.ok then {e.id} else {}
  {
  }

  lemma Records(t: Ticket, e: Event)
    requires Enabled(t, e) && e.RcaGo? && (t.rcas[e.tid].Posted? || t.rcas[e.tid].PostFailed?)
    ensures var t', p := Step(t, e), t.rcas[e.tid];
      && e.tid !in t'.rcas && t'.onJira == t.onJira
      && t'.row == if p.Posted? then t.row.(autoComment := Some(p.id), autoPostError := None)
                   else t.row.(autoPostError := Some(e.text))
  {
  }

  lemma LastCall(ts: seq<Ticket>, es: seq<Event>, tid: ThreadId, k: nat)
    requires LeftAlone(ts, es, tid) && k < |es| && tid !in ts[k + 1].rcas
    ensures |es| == k + 1
  {
    forall j | 0 <= j < |es|
      ensures tid in ts[j].rcas
    {
      assert Enabled(ts[j], es[j]);
    }
  }

  /** A failed run: no verdict is lost, and nothing is posted. */
  lemma FailedRunEnds(ts: seq<Ticket>, es: seq<Event>, tid: ThreadId)
    requires LeftAlone(ts, es, tid) && !es[0].ok
    ensures var r, r' := ts[0].row, ts[|es|].row;
      && |es| == 1 && r'.verdict == r.verdict && r'.autoComment == r.autoComment && ts[|es|].onJira == ts[0].onJira
      && r'.status == (if r.verdict == None then Failed else RcaReady)
      && r'.error == if r.verdict != None && es[0].text == "" then None else Some(es[0].text)
  {
    FirstCall(ts[0], es[0]);
    LastCall(ts, es, tid, 0);
  }

  /**
    A run that succeeds stores its verdict.  It goes on to post it only for an automatic run with
    the switch on, and then the row says either which comment it is or why there is none.
   */
  lemma SuccessfulRunEnds(ts: seq<Ticket>, es: seq<Event>, tid: ThreadId)
    requires LeftAlone(ts, es, tid) && es[0].ok
    ensures var r, r' := ts[0].row, ts[|es|].row;
      && r'.verdict == Some(es[0].text) && r'.status == RcaReady && r'.error == None
      && (r.trigger != Some(Auto) <==> |es| == 2)
      && (r.trigger == Some(Auto) ==> |es| >= 3 && (!es[2].ok <==> |es| == 3) && (es[2].ok <==> |es| == 5))
      && (|es| == 5 && es[3].ok ==>
            r'.autoComment == Some(es[3].id) && r'.autoPostError == None && ts[|es|].onJira == ts[0].onJira + {es[3].id})
      && (|es| == 5 && !es[3].ok ==> r'.autoPostError == Some(es[4].text))
      && (|es| != 5 || !es[3].ok ==> r'.autoComment == r.autoComment && ts[|es|].onJira == ts[0].onJira)
  {
    hide Step, Enabled;
    FirstCall(ts[0], es[0]);
    assert |es| > 1;
    Checks(ts[1], es[1]);
    if ts[0].row.trigger != Some(Auto) {
      LastCall(ts, es, tid, 1);
    } else {
      assert |es| > 2;
      Checks(ts[2], es[2]);
      if !es[2].ok {
        LastCall(ts, es, tid, 2);
      } else {
        PostsAndRecords(ts, es, tid);
      }
    }
  }

  lemma PostsAndRecords(ts: seq<Ticket>, es: seq<Event>, tid: ThreadId)
    requires LeftAlone(ts, es, tid) && |es| > 3 && tid in ts[3].rcas && ts[3].rcas[tid].Posting?
    ensures |es| == 5
    ensures ts[5].onJira == ts[3].onJira + if es[3].ok then {es[3].id} else {}
    ensures ts[5].row == if es[3].ok then ts[3].row.(autoComment := Some(es[3].id), autoPostError := None)
                         else ts[3].row.(autoPostError := Some(es[4].text))
  {
    hide Step, Enabled;
    Posts(ts[3], es[3]);
    assert |es| > 4;
    Records(ts[4], es[4]);
    LastCall(ts, es, tid, 4);
  }
}
