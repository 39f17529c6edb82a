/** rca_agent/webapp/autorun.py, `apply_update`: which edits of the panel are taken, and what is stored of them. */
module PanelEdits {
  import opened Basics
  import opened PyText
  import opened AutorunRules

  // --- what is refused ---------------------------------------------------------------------------

  lemma {:induction false} StripsAre(types: seq<string>, t: string)
    ensures t in Strips(types) <==> t != "" && exists v :: v in types && Strip(v) == t
    decreases types
  {
    if types != [] {
      InitAndLast(types);
      StripsAre(types[..|types| - 1], t);
    }
  }

  /** The nine work types Jira knows. */
  ghost predicate IsWorkType(t: string) {
    t in {"New Feature", "Task", "Bug", "Epic", "Subtask", "Enhancement", "Maintenance", "Incident", "Defect"}
  }

  lemma WorkTypesAre(t: string)
    ensures t in WORK_TYPES <==> IsWorkType(t)
  {
    if t in WORK_TYPES {
      var i :| 0 <= i < |WORK_TYPES| && WORK_TYPES[i] == t;
    }
    assert WORK_TYPES[0] == "New Feature" && WORK_TYPES[1] == "Task" && WORK_TYPES[2] == "Bug";
    assert WORK_TYPES[3] == "Epic" && WORK_TYPES[4] == "Subtask" && WORK_TYPES[5] == "Enhancement";
    assert WORK_TYPES[6] == "Maintenance" && WORK_TYPES[7] == "Incident" && WORK_TYPES[8] == "Defect";
  }

  /** A list of types is taken when it names one at least, and work types only; blanks do not count. */
  lemma TypesTakenIff(types: seq<string>)
    ensures KnownTypes(Strips(types)) <==>
      && (exists v :: v in types && Strip(v) != "")
      && forall v :: v in types ==> Strip(v) == "" || IsWorkType(Strip(v))
  {
    var ts := Strips(types);
    forall t
      ensures t in ts <==> t != "" && exists v :: v in types && Strip(v) == t
    {
      StripsAre(types, t);
    }
    forall t
      ensures t in WORK_TYPES <==> IsWorkType(t)
    {
      WorkTypesAre(t);
    }
    if ts != [] { assert ts[0] in ts; }
    if KnownTypes(ts) {
      forall v | v in types
        ensures Strip(v) == "" || IsWorkType(Strip(v))
      {
        if Strip(v) != "" { assert Strip(v) in ts; }
      }
    }
  }

  /** What a value of an exclude list comes down to: nothing, or a token of 1 to 40 characters. */
  predicate TakenValue(v: string) {
    var t := Lower(Strip(v));
    |t| <= 40 && forall c :: c in t ==> 'a' <= c <= 'z' || '0' <= c <= '9' || c == '_' || c == '-'
  }

  lemma TokenIff(v: string)
    ensures Normal(v) == "" || IsToken(Normal(v)) <==> TakenValue(v)
  {
    var t := Normal(v);
    if TakenValue(v) {
      assert forall i :: 0 <= i < |t| ==> t[i] in t;
    }
  }

  lemma ListTakenIff(values: seq<string>)
    ensures Acceptable(values) <==> forall v :: v in values ==> TakenValue(v)
  {
    var ns := Normals(values);
    if Acceptable(values) {
      forall v | v in values
        ensures TakenValue(v)
      {
        var i :| 0 <= i < |values| && values[i] == v;
        assert ns[i] in ns;
        TokenIff(v);
      }
    }
    if forall v :: v in values ==> TakenValue(v) {
      forall t | t in ns
        ensures t == "" || IsToken(t)
      {
        var i :| 0 <= i < |ns| && ns[i] == t;
        TokenIff(values[i]);
        assert values[i] in values;
      }
    }
  }

  /** Every field of an edit has to be good, and one bad field refuses the whole of it. */
  lemma TakenIff(u: Update)
    ensures Sound(u) <==>
      && (forall n :: u.intervalSeconds == Some(n) ==> 30 <= n <= 3600)
      && (forall n :: u.maxParallel == Some(n) ==> 1 <= n <= 4)
      && (forall n :: u.dailyCap == Some(n) ==> 0 <= n <= 200)
      && (forall n :: u.lookbackHours == Some(n) ==> 1 <= n <= 168)
      && (forall ts :: u.allowedTypes == Some(ts) ==>
            (exists v :: v in ts && Strip(v) != "") && forall v :: v in ts ==> Strip(v) == "" || IsWorkType(Strip(v)))
      && (forall vs :: u.excludeLabels == Some(vs) ==> forall v :: v in vs ==> TakenValue(v))
      && (forall vs :: u.excludeEnvKeywords == Some(vs) ==> forall v :: v in vs ==> TakenValue(v))
  {
    hide KnownTypes, Acceptable, TakenValue, IsWorkType, Strip;
    if u.allowedTypes.Some? { TypesTakenIff(u.allowedTypes.value); }
    if u.excludeLabels.Some? { ListTakenIff(u.excludeLabels.value); }
    if u.excludeEnvKeywords.Some? { ListTakenIff(u.excludeEnvKeywords.value); }
  }

  // --- what is stored ----------------------------------------------------------------------------

  /** `field` is what the edit gives, or what it was. */
  predicate Stored<T(==)>(field: T, given: Option<T>, before: T) {
    (given.Some? ==> field == given.value) && (given == None ==> field == before)
  }

  /** `list` holds once what each of these values comes down to without the space around it, blanks left out. */
  ghost predicate StrippedFrom(list: seq<string>, values: seq<string>) {
    NoDuplicates(list) && forall t :: t in list <==> t != "" && exists v :: v in values && Strip(v) == t
  }

  /** The same in lower case. */
  ghost predicate LoweredFrom(list: seq<string>, values: seq<string>) {
    NoDuplicates(list) && forall t :: t in list <==> t != "" && exists v :: v in values && Lower(Strip(v)) == t
  }

  lemma TokensAre(values: seq<string>)
    ensures LoweredFrom(Tokens(values), values)
  {
    var ns := Normals(values);
    KeptIsClean(ns);
    forall t
      ensures t in ns <==> exists v :: v in values && Normal(v) == t
    {
      if t in ns {
        var i :| 0 <= i < |ns| && ns[i] == t;
        assert values[i] in values && Normal(values[i]) == t;
      }
      if v :| v in values && Normal(v) == t {
        var i :| 0 <= i < |values| && values[i] == v;
        assert ns[i] == t;
      }
    }
  }

  lemma TypesAre(types: seq<string>)
    ensures StrippedFrom(Firsts(Strips(types)), types)
  {
    forall t
      ensures t in Strips(types) <==> t != "" && exists v :: v in types && Strip(v) == t
    {
      StripsAre(types, t);
    }
  }

  /** Tokens stay in the order in which they were first given. */
  lemma {:induction false} TokensInOrder(ns: seq<string>, i: nat, j: nat)
    requires i < j < |Kept(ns)|
    ensures exists k :: 0 <= k < |ns| && ns[k] == Kept(ns)[i] && Kept(ns)[j] !in ns[..k + 1]
    decreases ns
  {
    var init, last := ns[..|ns| - 1], ns[|ns| - 1];
    var rest := Kept(init);
    KeptIsClean(init);
    if j < |rest| {
      TokensInOrder(init, i, j);
      var k :| 0 <= k < |init| && init[k] == rest[i] && rest[j] !in init[..k + 1];
      assert ns[k] == rest[i] && ns[..k + 1] == init[..k + 1];
    } else {
      assert rest[i] in rest && rest[i] in init && last !in init;
      var k :| 0 <= k < |init| && init[k] == rest[i];
      assert ns[k] == rest[i];
      assert forall m :: 0 <= m < k + 1 ==> ns[..k + 1][m] == init[m];
    }
  }

  /** An edit that is taken stores each field it gives, cleaned where it is a list, and leaves the others alone. */
  lemma EditStores(c: Settings, u: Update, now: int)
    requires Sound(u)
    ensures var s := Updated(c, u, now);
      && Stored(s.enabled, u.enabled, c.enabled) && Stored(s.autoPost, u.autoPost, c.autoPost)
      && Stored(s.intervalSeconds, u.intervalSeconds, c.intervalSeconds)
      && Stored(s.maxParallel, u.maxParallel, c.maxParallel) && Stored(s.dailyCap, u.dailyCap, c.dailyCap)
      && Stored(s.lookbackHours, u.lookbackHours, c.lookbackHours)
      && (if u.allowedTypes.Some? then StrippedFrom(s.allowedTypes, u.allowedTypes.value)
          else s.allowedTypes == c.allowedTypes)
      && (if u.excludeLabels.Some? then LoweredFrom(s.excludeLabels, u.excludeLabels.value)
          else s.excludeLabels == c.excludeLabels)
      && (if u.excludeEnvKeywords.Some? then LoweredFrom(s.excludeEnvKeywords, u.excludeEnvKeywords.value)
          else s.excludeEnvKeywords == c.excludeEnvKeywords)
      && s.enabledAt == if u.enabled == Some(true) && !c.enabled then Some(now) else c.enabledAt
  {
    hide Strips, Tokens, Acceptable, KnownTypes;
    if u.allowedTypes.Some? { TypesAre(u.allowedTypes.value); }
    if u.excludeLabels.Some? { TokensAre(u.excludeLabels.value); }
    if u.excludeEnvKeywords.Some? { TokensAre(u.excludeEnvKeywords.value); }
  }

  /** The look-back of the poller's query is held between an hour and a week. */
  lemma LookbackIsHeld(types: seq<string>, hours: int)
    ensures Query(types, hours).Some? <==> types != [] && forall t :: t in types ==> IsWorkType(t)
    ensures Query(types, hours).Some? ==>
      var (ts, h) := Query(types, hours).value;
      ts == types && 1 <= h <= 168 && (1 <= hours <= 168 ==> h == hours)
      && (hours < 1 ==> h == 1) && (hours > 168 ==> h == 168)
  {
    forall t
      ensures t in WORK_TYPES <==> IsWorkType(t)
    {
      WorkTypesAre(t);
    }
  }
}
