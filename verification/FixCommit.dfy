/**
  From the model's edits to a commit: `fix_agent._build_files` groups and reviews them per file,
  `fix_mr.raise_mr` groups the applied ones per project and rebuilds each file.
 */
module FixCommit {
  import opened Basics
  import opened Grouping
  import opened ExactPatch

  /** A file, named by its project and its path. */
  type Target = (string, string)

  datatype FileEdit = FileEdit(target: Target, edit: Edit)

  /** `shown` is the diff put up for review: the text before and after, when they differ. */
  datatype FileFix = FileFix(target: Target, shown: Option<(string, string)>, edits: seq<Reviewed>)

  // --- _build_files ------------------------------------------------------------------------

  function TargetOf(e: FileEdit): Target {
    e.target
  }

  function Plainly(es: seq<FileEdit>): seq<Edit> {
    seq(|es|, i requires 0 <= i < |es| => es[i].edit)
  }

  /** The edits meant for one file, in the order the model gave them. */
  function EditsOf(edits: seq<FileEdit>, t: Target): seq<Edit> {
    Plainly(Group(edits, TargetOf, t))
  }

  function Unfetched(es: seq<Edit>): seq<Reviewed> {
    seq(|es|, i requires 0 <= i < |es| => Reviewed(es[i], Some(NotFetched)))
  }

  function FixOf(t: Target, es: seq<Edit>, raws: map<Target, string>): FileFix {
    if t !in raws then FileFix(t, None, Unfetched(es))
    else
      var (cur, results) := Review(raws[t], es);
      FileFix(t, if cur != raws[t] then Some((raws[t], cur)) else None, results)
  }

  /** One fix per file named, in order of first mention, each over all of that file's edits. */
  function FixesOf(edits: seq<FileEdit>, raws: map<Target, string>): seq<FileFix> {
    var keys := Firsts(Keys(edits, TargetOf));
    seq(|keys|, i requires 0 <= i < |keys| => FixOf(keys[i], EditsOf(edits, keys[i]), raws))
  }

  method BuildFiles(edits: seq<FileEdit>, raws: map<Target, string>) returns (out: seq<FileFix>)
    ensures out == FixesOf(edits, raws)
  {
    hide FixOf, FixesOf, Plainly, Keys, Group;
    var byKey := GroupBy(edits, TargetOf);
    out := [];
    for i := 0 to |byKey.keys|
      invariant |out| == i
      invariant forall j :: 0 <= j < i ==> out[j] == FixOf(byKey.keys[j], EditsOf(edits, byKey.keys[j]), raws)
    {
      var f := FixFile(byKey.keys[i], Plainly(byKey.vals[byKey.keys[i]]), raws);
      out := out + [f];
    }
    FixesAre(out, byKey.keys, edits, raws);
  }

  lemma FixesAre(out: seq<FileFix>, keys: seq<Target>, edits: seq<FileEdit>, raws: map<Target, string>)
    requires keys == Firsts(Keys(edits, TargetOf)) && |out| == |keys|
    requires forall j :: 0 <= j < |out| ==> out[j] == FixOf(keys[j], EditsOf(edits, keys[j]), raws)
    ensures out == FixesOf(edits, raws)
  {
  }

  method FixFile(t: Target, es: seq<Edit>, raws: map<Target, string>) returns (f: FileFix)
    ensures f == FixOf(t, es, raws)
  {
    if t !in raws { return FileFix(t, None, Unfetched(es)); }
    var cur, results := ReviewFile(raws[t], es);
    f := FileFix(t, if cur != raws[t] then Some((raws[t], cur)) else None, results);
  }

  function Asked(rs: seq<Reviewed>): seq<Edit> {
    seq(|rs|, i requires 0 <= i < |rs| => rs[i].edit)
  }

  /** No edit is lost, repeated or reordered: each file's fix lists exactly that file's edits. */
  lemma EditsKeptInOrder(edits: seq<FileEdit>, raws: map<Target, string>, i: nat)
    requires i < |FixesOf(edits, raws)|
    ensures Asked(FixesOf(edits, raws)[i].edits) == EditsOf(edits, FixesOf(edits, raws)[i].target)
    ensures forall j :: 0 <= j < |FixesOf(edits, raws)| && j != i ==>
              FixesOf(edits, raws)[j].target != FixesOf(edits, raws)[i].target
  {
    var f := FixesOf(edits, raws)[i];
    var es := EditsOf(edits, f.target);
    if f.target in raws {
      forall k | 0 <= k < |es|
        ensures |f.edits| == |es| && f.edits[k].edit == es[k]
      {
        ReviewKeepsEdits(raws[f.target], es, k);
      }
    }
  }

  /** A file that could not be fetched has none of its edits applied, and says why; one that could never says so. */
  lemma {:induction false} FetchedOrNot(edits: seq<FileEdit>, raws: map<Target, string>, i: nat)
    requires i < |FixesOf(edits, raws)|
    ensures var f := FixesOf(edits, raws)[i];
      && (f.target !in raws ==> f.shown == None && forall r :: r in f.edits ==> r.error == Some(NotFetched))
      && (f.target in raws ==> forall r :: r in f.edits ==> r.error != Some(NotFetched))
      && (f.shown.Some? ==> f.target in raws && f.shown.value.0 == raws[f.target] && f.shown.value.1 != raws[f.target])
  {
    var f := FixesOf(edits, raws)[i];
    if f.target in raws { ReviewedIsFetched(raws[f.target], EditsOf(edits, f.target)); }
  }

  lemma {:induction false} ReviewedIsFetched(raw: string, es: seq<Edit>)
    ensures forall r :: r in Review(raw, es).1 ==> r.error != Some(NotFetched)
    decreases es
  {
    if es != [] { ReviewedIsFetched(raw, es[..|es| - 1]); }
  }

  function CountEdits(fixes: seq<FileFix>): nat {
    if fixes == [] then 0 else CountEdits(fixes[..|fixes| - 1]) + |fixes[|fixes| - 1].edits|
  }

  lemma FixAnswersAll(edits: seq<FileEdit>, raws: map<Target, string>, i: nat)
    requires i < |FixesOf(edits, raws)|
    ensures |FixesOf(edits, raws)[i].edits| == |Group(edits, TargetOf, Firsts(Keys(edits, TargetOf))[i])|
  {
    hide Review, Firsts, Keys, Group;
    var f := FixesOf(edits, raws)[i];
    EditsKeptInOrder(edits, raws, i);
    assert |Asked(f.edits)| == |EditsOf(edits, f.target)|;
  }

  lemma TakeTwice<T>(s: seq<T>, k: nat)
    requires 0 < k <= |s|
    ensures s[..k][..k - 1] == s[..k - 1]
  {
  }

  lemma {:induction false} CountEditsIs(edits: seq<FileEdit>, raws: map<Target, string>, k: nat)
    requires k <= |FixesOf(edits, raws)|
    ensures CountEdits(FixesOf(edits, raws)[..k])
         == TotalOfGroups(edits, TargetOf, Firsts(Keys(edits, TargetOf))[..k], One, INTS)
    decreases k
  {
    hide FixOf, Keys, Group;
    var fixes, keys := FixesOf(edits, raws), Firsts(Keys(edits, TargetOf));
    if k > 0 {
      CountEditsIs(edits, raws, k - 1);
      FixAnswersAll(edits, raws, k - 1);
      TotalOfOnes(Group(edits, TargetOf, keys[k - 1]));
      TakeTwice(fixes, k);
      TakeTwice(keys, k);
    }
  }

  /** As many outcomes as edits, over all files together. */
  lemma EveryEditAnswered(edits: seq<FileEdit>, raws: map<Target, string>)
    ensures CountEdits(FixesOf(edits, raws)) == |edits|
  {
    hide FixOf;
    var fixes, keys := FixesOf(edits, raws), Firsts(Keys(edits, TargetOf));
    forall e | e in edits
      ensures TargetOf(e) in keys
    {
      KeyIsListed(edits, TargetOf, e);
    }
    GroupsCount(edits, TargetOf, keys);
    CountEditsIs(edits, raws, |fixes|);
    assert fixes[..|fixes|] == fixes && keys[..|keys|] == keys;
  }

  // --- raise_mr -----------------------------------------------------------------------------

  /** A path and the edits to re-apply to it. */
  type FileJob = (string, seq<Edit>)

  /** It has applied edits and a path: it can go into a merge request. */
  predicate Committable(f: FileFix) {
    AppliedEdits(f.edits) != [] && f.target.1 != ""
  }

  /** The files of one project that go into its merge request. */
  function JobsOf(fixes: seq<FileFix>, project: string): seq<FileJob> {
    if fixes == [] then []
    else
      var f := fixes[|fixes| - 1];
      JobsOf(fixes[..|fixes| - 1], project)
      + if Committable(f) && f.target.0 == project then [(f.target.1, AppliedEdits(f.edits))] else []
  }

  lemma JobsStep(fixes: seq<FileFix>, i: nat)
    requires i < |fixes|
    ensures forall p ::
      JobsOf(fixes[..i + 1], p) == JobsOf(fixes[..i], p) + if Committable(fixes[i]) && fixes[i].target.0 == p
        then [(fixes[i].target.1, AppliedEdits(fixes[i].edits))] else []
  {
    assert fixes[..i + 1][..i] == fixes[..i];
  }

  /** Files without a project are left out, and reported when nothing else is left. */
  method GroupByProject(fixes: seq<FileFix>) returns (byProject: Dict<string, seq<FileJob>>, noRepo: bool)
    ensures byProject.Valid()
    ensures forall p :: p in byProject.vals <==> p != "" && JobsOf(fixes, p) != []
    ensures forall p :: p in byProject.vals ==> byProject.vals[p] == JobsOf(fixes, p)
    ensures noRepo <==> JobsOf(fixes, "") != []
  {
    byProject, noRepo := EmptyDict(), false;
    for i := 0 to |fixes|
      invariant byProject.Valid()
      invariant forall p :: p in byProject.vals <==> p != "" && JobsOf(fixes[..i], p) != []
      invariant forall p :: p in byProject.vals ==> byProject.vals[p] == JobsOf(fixes[..i], p)
      invariant noRepo <==> JobsOf(fixes[..i], "") != []
    {
      JobsStep(fixes, i);
      var f := fixes[i];
      var applied := AppliedEdits(f.edits);
      if applied == [] || f.target.1 == "" { continue; }
      if f.target.0 == "" {
        noRepo := true;
        continue;
      }
      var p := f.target.0;
      var jobs := (if p in byProject.vals then byProject.vals[p] else []) + [(f.target.1, applied)];
      byProject.PutKeepsValid(p, jobs);
      byProject := byProject.Put(p, jobs);
    }
    assert fixes[..|fixes|] == fixes;
  }

  /** A path and the content to commit for it. */
  type Action = (string, string)

  /** `current` is what the target branch holds now; a path missing from it could not be fetched. */
  function ActionsOf(jobs: seq<FileJob>, current: map<string, string>): seq<Action> {
    if jobs == [] then []
    else
      var (path, es) := jobs[|jobs| - 1];
      ActionsOf(jobs[..|jobs| - 1], current)
      + if path in current && Reapply(current[path], es).0 != current[path]
        then [(path, Reapply(current[path], es).0)] else []
  }

  function SkippedOf(jobs: seq<FileJob>, current: map<string, string>): seq<string> {
    if jobs == [] then []
    else
      var (path, es) := jobs[|jobs| - 1];
      SkippedOf(jobs[..|jobs| - 1], current)
      + if path !in current || Reapply(current[path], es).0 == current[path] then [path] else []
  }

  /** These edits, re-applied to the file as it is now, make this of it. */
  predicate Rebuilds(job: FileJob, current: map<string, string>, text: string) {
    job.0 in current && Reapply(current[job.0], job.1).0 == text
  }

  /** Each file is committed or skipped: committed with what re-applying its edits makes of it, if that is a change. */
  lemma {:induction false} CommittedOrSkipped(jobs: seq<FileJob>, current: map<string, string>, path: string, text: string)
    ensures |ActionsOf(jobs, current)| + |SkippedOf(jobs, current)| == |jobs|
    ensures path in SkippedOf(jobs, current) <==>
      exists job :: job in jobs && job.0 == path && (path in current ==> Rebuilds(job, current, current[path]))
    ensures (path, text) in ActionsOf(jobs, current) <==>
      path in current && text != current[path] && exists job :: job in jobs && job.0 == path && Rebuilds(job, current, text)
    decreases jobs
  {
    hide Reapply;
    if jobs != [] {
      var init, last := jobs[..|jobs| - 1], jobs[|jobs| - 1];
      InitAndLast(jobs);
      CommittedOrSkipped(init, current, path, text);
      assert path in SkippedOf(jobs, current) <==>
        path in SkippedOf(init, current) || (last.0 == path && (path in current ==> Rebuilds(last, current, current[path])));
      assert (path, text) in ActionsOf(jobs, current) <==>
        || (path, text) in ActionsOf(init, current)
        || (last.0 == path && path in current && text != current[path] && Rebuilds(last, current, text));
    }
  }

  method RebuildFiles(jobs: seq<FileJob>, current: map<string, string>)
    returns (actions: seq<Action>, skipped: seq<string>)
    ensures actions == ActionsOf(jobs, current) && skipped == SkippedOf(jobs, current)
  {
    actions, skipped := [], [];
    for i := 0 to |jobs|
      invariant actions == ActionsOf(jobs[..i], current) && skipped == SkippedOf(jobs[..i], current)
    {
      assert jobs[..i + 1][..i] == jobs[..i];
      var (path, es) := jobs[i];
      if path !in current {
        skipped := skipped + [path];
        continue;
      }
      var new_, errs := ReapplyFile(current[path], es);
      if new_ == current[path] {
        skipped := skipped + [path];
        continue;
      }
      actions := actions + [(path, new_)];
    }
    assert jobs[..|jobs|] == jobs;
  }

  /** The contents the review showed for a project's files. */
  function ShownFor(fixes: seq<FileFix>, project: string): seq<Action> {
    if fixes == [] then []
    else
      var f := fixes[|fixes| - 1];
      ShownFor(fixes[..|fixes| - 1], project)
      + if f.target.0 == project && f.target.1 != "" && f.shown.Some?
        then [(f.target.1, f.shown.value.1)] else []
  }

  /** These fixes are the ones a review of `raws` produces. */
  ghost predicate FromReview(fixes: seq<FileFix>, raws: map<Target, string>) {
    forall f :: f in fixes ==> IsReview(f, raws)
  }

  ghost predicate IsReview(f: FileFix, raws: map<Target, string>) {
    exists es :: f == FixOf(f.target, es, raws)
  }

  lemma {:induction false} NothingApplied(rs: seq<Reviewed>)
    requires forall i :: 0 <= i < |rs| ==> !rs[i].Applied()
    ensures AppliedEdits(rs) == []
    decreases rs
  {
    if rs != [] { NothingApplied(rs[..|rs| - 1]); }
  }

  /** One file: re-applied to the reviewed text, it gives the shown content or no change at all. */
  lemma FileRebuilt(t: Target, es: seq<Edit>, raws: map<Target, string>)
    ensures var f := FixOf(t, es, raws); var applied := AppliedEdits(f.edits);
      (applied == [] ==> f.shown.None?)
      && (applied != [] ==> t in raws && f.shown == if Reapply(raws[t], applied).0 != raws[t]
                                                    then Some((raws[t], Reapply(raws[t], applied).0)) else None)
  {
    if t !in raws {
      NothingApplied(Unfetched(es));
    } else {
      ReviewedIsCommitted(raws[t], es);
    }
  }

  /**
    What the review showed is what gets committed: on a branch that has not moved since the
    review, a project's commit holds exactly the contents shown for its files, in order.
   */
  lemma {:induction false} CommitIsWhatWasShown(fixes: seq<FileFix>, raws: map<Target, string>,
        project: string, current: map<string, string>)
    requires FromReview(fixes, raws) && project != ""
    requires forall path :: (project, path) in raws ==> path in current && current[path] == raws[(project, path)]
    ensures ActionsOf(JobsOf(fixes, project), current) == ShownFor(fixes, project)
    decreases fixes
  {
    if fixes != [] {
      var init, f := fixes[..|fixes| - 1], fixes[|fixes| - 1];
      assert forall g :: g in init ==> g in fixes;
      assert f in fixes;
      CommitIsWhatWasShown(init, raws, project, current);
      var es :| f == FixOf(f.target, es, raws);
      FileRebuilt(f.target, es, raws);
      if Committable(f) && f.target.0 == project {
        var jobs := JobsOf(fixes, project);
        assert f.target == (project, f.target.1);
        assert jobs[..|jobs| - 1] == JobsOf(init, project);
      } else {
        assert ShownFor(fixes, project) == ShownFor(init, project);
        assert JobsOf(fixes, project) == JobsOf(init, project);
      }
    }
  }

  /** The same, from the model's edits to the commit. */
  lemma EditsToCommit(edits: seq<FileEdit>, raws: map<Target, string>, project: string, current: map<string, string>)
    requires project != ""
    requires forall path :: (project, path) in raws ==> path in current && current[path] == raws[(project, path)]
    ensures ActionsOf(JobsOf(FixesOf(edits, raws), project), current) == ShownFor(FixesOf(edits, raws), project)
  {
    var fixes := FixesOf(edits, raws);
    forall f | f in fixes
      ensures IsReview(f, raws)
    {
      var i :| 0 <= i < |fixes| && fixes[i] == f;
      assert f == FixOf(f.target, EditsOf(edits, f.target), raws);
    }
    CommitIsWhatWasShown(fixes, raws, project, current);
  }
}
