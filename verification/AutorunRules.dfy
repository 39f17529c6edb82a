/**
  rca_agent/webapp/autorun.py, the rules: the settings the panel may store, and which Jira
  issue the poller may start an investigation for.
 */
module AutorunRules {
  import opened Basics
  import opened PyText
  import opened ReviewStore

  const WORK_TYPES: seq<string> :=
    ["New Feature", "Task", "Bug", "Epic", "Subtask", "Enhancement", "Maintenance", "Incident", "Defect"]

  datatype Settings = Settings(
    enabled: bool,
    intervalSeconds: int,
    allowedTypes: seq<string>,
    maxParallel: int,
    dailyCap: int,
    lookbackHours: int,
    enabledAt: Option<int>,
    excludeLabels: seq<string>,
    excludeEnvKeywords: seq<string>,
    autoPost: bool)

  const DEFAULTS := Settings(
    false, 120, ["Bug", "Incident"], 2, 30, 48, None, ["qa-found"],
    ["qa", "qa1", "qa2", "qa3", "uat", "staging", "preprod"], false)

  /** A partial update from the panel; `None` leaves the field alone. */
  datatype Update = Update(
    enabled: Option<bool>,
    intervalSeconds: Option<int>,
    allowedTypes: Option<seq<string>>,
    maxParallel: Option<int>,
    dailyCap: Option<int>,
    lookbackHours: Option<int>,
    excludeLabels: Option<seq<string>>,
    excludeEnvKeywords: Option<seq<string>>,
    autoPost: Option<bool>)

  // --- text helpers ------------------------------------------------------------------

  predicate TokenChar(c: char) {
    'a' <= c <= 'z' || '0' <= c <= '9' || c == '_' || c == '-'
  }

  predicate IsToken(s: string) {
    1 <= |s| <= 40 && forall i :: 0 <= i < |s| ==> TokenChar(s[i])
  }

  // --- _clean_tokens -------------------------------------------------------------------

  function Normal(s: string): string {
    Lower(Strip(s))
  }

  function Normals(values: seq<string>): (ns: seq<string>)
    ensures |ns| == |values|
  {
    seq(|values|, i requires 0 <= i < |values| => Normal(values[i]))
  }

  predicate AllTokens(ns: seq<string>) {
    forall t :: t in ns ==> t == "" || IsToken(t)
  }

  /** First occurrences in order, the empty string dropped. */
  function Kept(ns: seq<string>): seq<string> {
    if ns == [] then []
    else
      var rest := Kept(ns[..|ns| - 1]);
      var t := ns[|ns| - 1];
      if t == "" || t in rest then rest else rest + [t]
  }

  /** Every value normalises to a valid token or to nothing. */
  predicate Acceptable(values: seq<string>) {
    AllTokens(Normals(values))
  }

  function Tokens(values: seq<string>): seq<string> {
    Kept(Normals(values))
  }

  lemma PrefixTokens(ns: seq<string>, k: nat)
    requires k <= |ns| && AllTokens(ns)
    ensures AllTokens(ns[..k])
  {
    assert forall t :: t in ns[..k] ==> t in ns;
  }

  lemma NormalsPrefix(values: seq<string>, k: nat)
    requires k <= |values|
    ensures Normals(values[..k]) == Normals(values)[..k]
  {
  }

  method CleanTokens(values: seq<string>) returns (r: Option<seq<string>>)
    ensures r.Some? <==> Acceptable(values)
    ensures r.Some? ==> r.value == Tokens(values)
  {
    var out: seq<string> := [];
    for i := 0 to |values|
      invariant out == Tokens(values[..i]) && Acceptable(values[..i])
    {
      var t := Normal(values[i]);
      NormalsPrefix(values, i);
      NormalsPrefix(values, i + 1);
      assert Normals(values[..i + 1]) == Normals(values[..i]) + [t];
      if t == "" { continue; }
      if !IsToken(t) {
        if Acceptable(values) { PrefixTokens(Normals(values), i + 1); }
        return None;
      }
      if t !in out { out := out + [t]; }
    }
    assert values[..|values|] == values;
    return Some(out);
  }

  /** What is kept is clean: no repeats, and exactly the tokens the values name. */
  lemma {:induction false} KeptIsClean(ns: seq<string>)
    ensures NoDuplicates(Kept(ns))
    ensures forall t :: t in Kept(ns) <==> t in ns && t != ""
    decreases ns
  {
    if ns != [] {
      var init := ns[..|ns| - 1];
      KeptIsClean(init);
      assert ns == init + [ns[|ns| - 1]];
    }
  }

  lemma {:induction false} KeptIsFixed(ts: seq<string>)
    requires NoDuplicates(ts) && "" !in ts
    ensures Kept(ts) == ts
    decreases ts
  {
    if ts != [] {
      var init := ts[..|ts| - 1];
      KeptIsFixed(init);
      assert ts == init + [ts[|ts| - 1]] && ts[|ts| - 1] != "";
    }
  }

  /** Cleaning twice is cleaning once: a saved list survives every later save unchanged. */
  lemma CleaningIsIdempotent(values: seq<string>)
    requires Acceptable(values)
    ensures Acceptable(Tokens(values)) && Tokens(Tokens(values)) == Tokens(values)
  {
    var ts := Tokens(values);
    KeptIsClean(Normals(values));
    forall i | 0 <= i < |ts|
      ensures Normals(ts)[i] == ts[i] && IsToken(ts[i])
    {
      assert ts[i] in ts;
    }
    assert Normals(ts) == ts;
    KeptIsFixed(ts);
  }

  // --- apply_update ----------------------------------------------------------------------

  function Strips(types: seq<string>): seq<string> {
    if types == [] then []
    else Strips(types[..|types| - 1])
         + (var t := Strip(types[|types| - 1]); if t == "" then [] else [t])
  }

  predicate InLimits(v: Option<int>, lo: int, hi: int) {
    v.None? || lo <= v.value <= hi
  }

  predicate KnownTypes(types: seq<string>) {
    types != [] && forall t :: t in types ==> t in WORK_TYPES
  }

  /** The updates the panel takes; anything else is a ValueError and stores nothing. */
  predicate Sound(u: Update) {
    && InLimits(u.intervalSeconds, 30, 3600) && InLimits(u.maxParallel, 1, 4)
    && InLimits(u.dailyCap, 0, 200) && InLimits(u.lookbackHours, 1, 168)
    && (u.allowedTypes.Some? ==> KnownTypes(Strips(u.allowedTypes.value)))
    && (u.excludeLabels.Some? ==> Acceptable(u.excludeLabels.value))
    && (u.excludeEnvKeywords.Some? ==> Acceptable(u.excludeEnvKeywords.value))
  }

  function Or<T>(o: Option<T>, d: T): T {
    if o.Some? then o.value else d
  }

  function Updated(c: Settings, u: Update, now: int): Settings
    requires Sound(u)
  {
    Settings(
      Or(u.enabled, c.enabled),
      Or(u.intervalSeconds, c.intervalSeconds),
      if u.allowedTypes.Some? then Firsts(Strips(u.allowedTypes.value)) else c.allowedTypes,
      Or(u.maxParallel, c.maxParallel),
      Or(u.dailyCap, c.dailyCap),
      Or(u.lookbackHours, c.lookbackHours),
      if u.enabled == Some(true) && !c.enabled then Some(now) else c.enabledAt,
      if u.excludeLabels.Some? then Tokens(u.excludeLabels.value) else c.excludeLabels,
      if u.excludeEnvKeywords.Some? then Tokens(u.excludeEnvKeywords.value) else c.excludeEnvKeywords,
      Or(u.autoPost, c.autoPost))
  }

  method CleanTypes(values: seq<string>) returns (r: Option<seq<string>>)
    ensures r.Some? <==> KnownTypes(Strips(values))
    ensures r.Some? ==> r.value == Firsts(Strips(values))
  {
    var types := Strips(values);
    if exists t :: t in types && t !in WORK_TYPES { return None; }
    if types == [] { return None; }
    return Some(Firsts(types));
  }

  /** The loop over LIMITS. */
  method ApplyLimits(current: Settings, u: Update) returns (r: Option<Settings>)
    ensures r.Some? <==> InLimits(u.intervalSeconds, 30, 3600) && InLimits(u.maxParallel, 1, 4)
                         && InLimits(u.dailyCap, 0, 200) && InLimits(u.lookbackHours, 1, 168)
    ensures r.Some? ==> r.value == current.(
      intervalSeconds := Or(u.intervalSeconds, current.intervalSeconds),
      maxParallel := Or(u.maxParallel, current.maxParallel),
      dailyCap := Or(u.dailyCap, current.dailyCap),
      lookbackHours := Or(u.lookbackHours, current.lookbackHours))
  {
    var new_ := current;
    if u.intervalSeconds.Some? {
      if !(30 <= u.intervalSeconds.value <= 3600) { return None; }
      new_ := new_.(intervalSeconds := u.intervalSeconds.value);
    }
    if u.maxParallel.Some? {
      if !(1 <= u.maxParallel.value <= 4) { return None; }
      new_ := new_.(maxParallel := u.maxParallel.value);
    }
    if u.dailyCap.Some? {
      if !(0 <= u.dailyCap.value <= 200) { return None; }
      new_ := new_.(dailyCap := u.dailyCap.value);
    }
    if u.lookbackHours.Some? {
      if !(1 <= u.lookbackHours.value <= 168) { return None; }
      new_ := new_.(lookbackHours := u.lookbackHours.value);
    }
    return Some(new_);
  }

  /** The two exclude lists. */
  method ApplyExcludes(current: Settings, u: Update) returns (r: Option<Settings>)
    ensures r.Some? <==> (u.excludeLabels.Some? ==> Acceptable(u.excludeLabels.value))
                         && (u.excludeEnvKeywords.Some? ==> Acceptable(u.excludeEnvKeywords.value))
    ensures r.Some? ==> r.value == current.(
      excludeLabels := if u.excludeLabels.Some? then Tokens(u.excludeLabels.value)
                       else current.excludeLabels,
      excludeEnvKeywords := if u.excludeEnvKeywords.Some? then Tokens(u.excludeEnvKeywords.value)
                            else current.excludeEnvKeywords)
  {
    var new_ := current;
    if u.excludeLabels.Some? {
      var labels := CleanTokens(u.excludeLabels.value);
      if labels.None? { return None; }
      new_ := new_.(excludeLabels := labels.value);
    }
    if u.excludeEnvKeywords.Some? {
      var keywords := CleanTokens(u.excludeEnvKeywords.value);
      if keywords.None? { return None; }
      new_ := new_.(excludeEnvKeywords := keywords.value);
    }
    return Some(new_);
  }

  method ApplyUpdate(current: Settings, u: Update, now: int) returns (r: Option<Settings>)
    ensures r.Some? <==> Sound(u)
    ensures r.Some? ==> r.value == Updated(current, u, now)
  {
    var limited := ApplyLimits(current, u);
    if limited.None? { return None; }
    var new_ := limited.value;
    if u.allowedTypes.Some? {
      var types := CleanTypes(u.allowedTypes.value);
      if types.None? { return None; }
      new_ := new_.(allowedTypes := types.value);
    }
    var excluded := ApplyExcludes(new_, u);
    if excluded.None? { return None; }
    new_ := excluded.value;
    if u.autoPost.Some? { new_ := new_.(autoPost := u.autoPost.value); }
    if u.enabled.Some? {
      if u.enabled.value && !current.enabled { new_ := new_.(enabledAt := Some(now)); }
      new_ := new_.(enabled := u.enabled.value);
    }
    return Some(new_);
  }

  ghost predicate CleanList(ts: seq<string>) {
    NoDuplicates(ts) && forall t :: t in ts ==> IsToken(t)
  }

  ghost predicate ValidSettings(s: Settings) {
    && 30 <= s.intervalSeconds <= 3600 && 1 <= s.maxParallel <= 4
    && 0 <= s.dailyCap <= 200 && 1 <= s.lookbackHours <= 168
    && KnownTypes(s.allowedTypes) && NoDuplicates(s.allowedTypes)
    && CleanList(s.excludeLabels) && CleanList(s.excludeEnvKeywords)
    && (s.enabled ==> s.enabledAt.Some?)
  }

  /** Off, without posts; when switched on, two Bugs or Incidents at a time and thirty a day, looked for every two minutes. */
  lemma DefaultsValid()
    ensures ValidSettings(DEFAULTS)
    ensures !DEFAULTS.enabled && !DEFAULTS.autoPost && DEFAULTS.enabledAt == None
    ensures DEFAULTS.intervalSeconds == 120 && DEFAULTS.maxParallel == 2 && DEFAULTS.dailyCap == 30
    ensures DEFAULTS.lookbackHours == 48 && DEFAULTS.allowedTypes == ["Bug", "Incident"]
    ensures DEFAULTS.excludeLabels == ["qa-found"]
    ensures DEFAULTS.excludeEnvKeywords == ["qa", "qa1", "qa2", "qa3", "uat", "staging", "preprod"]
  {
    assert forall t :: t in DEFAULTS.excludeEnvKeywords ==> IsToken(t);
    assert "Bug" == WORK_TYPES[2] && "Incident" == WORK_TYPES[7];
  }

  lemma UpdateKeepsValid(c: Settings, u: Update, now: int)
    requires ValidSettings(c) && Sound(u)
    ensures ValidSettings(Updated(c, u, now))
  {
    if u.excludeLabels.Some? { KeptIsClean(Normals(u.excludeLabels.value)); }
    if u.excludeEnvKeywords.Some? { KeptIsClean(Normals(u.excludeEnvKeywords.value)); }
    if u.allowedTypes.Some? {
      var types := Strips(u.allowedTypes.value);
      assert types[0] in Firsts(types);
    }
  }

  /** The settings after a history of panel edits; a refused one changes nothing. */
  function Edited(s: Settings, edits: seq<(Update, int)>): Settings
    decreases edits
  {
    if edits == [] then s
    else
      var (u, now) := edits[0];
      Edited(if Sound(u) then Updated(s, u, now) else s, edits[1..])
  }

  /** Whatever is edited, from the defaults on, the stored settings are ones tick can rely on. */
  lemma {:induction false} EditsStayValid(s: Settings, edits: seq<(Update, int)>)
    requires ValidSettings(s)
    ensures ValidSettings(Edited(s, edits))
    decreases edits
  {
    if edits != [] {
      var (u, now) := edits[0];
      if Sound(u) { UpdateKeepsValid(s, u, now); }
      EditsStayValid(if Sound(u) then Updated(s, u, now) else s, edits[1..]);
    }
  }

  /** Edit `i` switches Auto-RCA from off to on. */
  predicate SwitchesOn(s: Settings, edits: seq<(Update, int)>, i: nat)
    requires i < |edits|
  {
    Sound(edits[i].0) && edits[i].0.enabled == Some(true) && !Edited(s, edits[..i]).enabled
  }

  lemma {:induction false} EditedLast(s: Settings, edits: seq<(Update, int)>)
    requires edits != []
    ensures var n := |edits| - 1; var before := Edited(s, edits[..n]);
            Edited(s, edits) == if Sound(edits[n].0) then Updated(before, edits[n].0, edits[n].1) else before
    decreases edits
  {
    if |edits| > 1 {
      var (u, now) := edits[0];
      var s' := if Sound(u) then Updated(s, u, now) else s;
      assert edits[..|edits| - 1][1..] == edits[1..][..|edits| - 2];
      EditedLast(s', edits[1..]);
    }
  }

  /** The no-backfill watermark is the time of the latest off-to-on edge, and nothing else. */
  lemma {:induction false} WatermarkIsLatestSwitchOn(s: Settings, edits: seq<(Update, int)>, i: nat)
    requires i < |edits| && SwitchesOn(s, edits, i)
    requires forall j :: i < j < |edits| ==> !SwitchesOn(s, edits, j)
    ensures Edited(s, edits).enabledAt == Some(edits[i].1)
    decreases edits
  {
    var n := |edits| - 1;
    var init := edits[..n];
    EditedLast(s, edits);
    if i < n {
      assert init[..i] == edits[..i] && init[i] == edits[i];
      forall j | i < j < n
        ensures !SwitchesOn(s, init, j)
      {
        assert init[..j] == edits[..j] && !SwitchesOn(s, edits, j);
      }
      WatermarkIsLatestSwitchOn(s, init, i);
      assert edits[..n] == init && !SwitchesOn(s, edits, n);
    }
  }

  lemma {:induction false} WatermarkOtherwiseStays(s: Settings, edits: seq<(Update, int)>)
    requires forall j :: 0 <= j < |edits| ==> !SwitchesOn(s, edits, j)
    ensures Edited(s, edits).enabledAt == s.enabledAt
    decreases edits
  {
    if edits != [] {
      var n := |edits| - 1;
      var init := edits[..n];
      EditedLast(s, edits);
      forall j | 0 <= j < n
        ensures !SwitchesOn(s, init, j)
      {
        assert init[..j] == edits[..j] && !SwitchesOn(s, edits, j);
      }
      WatermarkOtherwiseStays(s, init);
      assert !SwitchesOn(s, edits, n);
    }
  }

  // --- the search ---------------------------------------------------------------------------

  /** `build_jql` without its text: what it searches for, or nothing when it raises. */
  function Query(allowedTypes: seq<string>, lookbackHours: int): Option<(seq<string>, int)> {
    if !KnownTypes(allowedTypes) then None
    else Some((allowedTypes, if lookbackHours < 1 then 1 else if lookbackHours > 168 then 168 else lookbackHours))
  }

  /** However the panel was used, the poller's query is never refused and never clamped. */
  lemma EditedSettingsSearch(edits: seq<(Update, int)>)
    ensures var s := Edited(DEFAULTS, edits);
      Query(s.allowedTypes, s.lookbackHours) == Some((s.allowedTypes, s.lookbackHours))
  {
    DefaultsValid();
    EditsStayValid(DEFAULTS, edits);
  }

  // --- eligibility -------------------------------------------------------------------------

  /** One search hit; `qa` is what `is_qa_env` says of it under the tick's settings. */
  datatype Issue = Issue(
    key: Key, itype: Option<string>, done: bool, created: Option<int>, qa: bool, fields: JiraFields)

  predicate StartsWith(s: string, prefix: string) {
    |prefix| <= |s| && s[..|prefix|] == prefix
  }

  predicate Eligible(i: Issue, s: Settings, existing: Option<Row>) {
    && StartsWith(i.key, "AUT-")
    && i.itype.Some? && i.itype.value in s.allowedTypes
    && !i.done
    && s.enabledAt.Some? && i.created.Some? && i.created.value >= s.enabledAt.value
    && (existing.Some? ==> existing.value.autoRunAt.None? && existing.value.verdict.None?
                           && existing.value.status.Pending?)
    && !i.qa
  }

  datatype Skip = NotAut | WrongType | Done | NoWatermark | NoCreated | TooOld | AlreadyAuto
                | AlreadyHandled | QaEnv

  /** `is_eligible` in its own order of checks; `None` is a go. */
  function WhyNot(i: Issue, s: Settings, existing: Option<Row>): (why: Option<Skip>)
    ensures why.None? <==> Eligible(i, s, existing)
  {
    if !StartsWith(i.key, "AUT-") then Some(NotAut)
    else if i.itype.None? || i.itype.value !in s.allowedTypes then Some(WrongType)
    else if i.done then Some(Done)
    else if s.enabledAt.None? then Some(NoWatermark)
    else if i.created.None? then Some(NoCreated)
    else if i.created.value < s.enabledAt.value then Some(TooOld)
    else if existing.Some? && existing.value.autoRunAt.Some? then Some(AlreadyAuto)
    else if existing.Some? && (existing.value.verdict.Some? || existing.value.status != Pending)
    then Some(AlreadyHandled)
    else if i.qa then Some(QaEnv)
    else None
  }

  /** The issue's row once it has been synced. */
  function Synced(i: Issue, existing: Option<Row>): Row {
    if existing.Some? then Refreshed(existing.value, i.fields) else NewRow(i.fields)
  }

  /** What the rules let through, the store's claim lets through too. */
  lemma EligibleIsClaimable(i: Issue, s: Settings, existing: Option<Row>)
    requires Eligible(i, s, existing)
    ensures AutoClaimable(Synced(i, existing))
  {
  }
}
