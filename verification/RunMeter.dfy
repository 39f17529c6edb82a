/**
  rca_agent/usage.py: the token and cost meter of one agent run, fed by a message stream that
  repeats itself.
 */
module RunMeter {
  import opened Basics
  import opened Sorting

  // --- prices -------------------------------------------------------------------------------------

  datatype Price = Price(input: real, output: real, cacheRead: real, cacheWrite: real)

  const PRICES: Dict<string, Price> := Dict(
    ["claude-fable-5", "claude-opus-5-5", "claude-opus", "claude-sonnet-5", "claude-sonnet", "claude-haiku"],
    map["claude-fable-5" := Price(10.0, 50.0, 0.25, 12.5),
        "claude-opus-5-5" := Price(4.0, 20.0, 0.20, 5.0),
        "claude-opus" := Price(5.0, 25.0, 0.50, 6.25),
        "claude-sonnet-5" := Price(2.0, 10.0, 0.20, 2.5),
        "claude-sonnet" := Price(3.0, 15.0, 0.30, 3.75),
        "claude-haiku" := Price(1.0, 5.0, 0.10, 1.25)])

  predicate Longer(a: string, b: string) {
    |a| > |b|
  }

  /** The first of these prefixes that the model id starts with. */
  function FirstMatch(prefixes: seq<string>, model: string): Option<string> {
    if prefixes == [] then None
    else if prefixes[0] <= model then Some(prefixes[0])
    else FirstMatch(prefixes[1..], model)
  }

  function Matched(table: Dict<string, Price>, model: string): Option<string> {
    FirstMatch(StableSort(table.keys, Longer), model)
  }

  function PriceOf(table: Dict<string, Price>, model: string): Option<Price> {
    var k := Matched(table, model);
    if k.Some? && k.value in table.vals then Some(table.vals[k.value]) else None
  }

  lemma {:induction false} FirstMatchIsLongest(prefixes: seq<string>, model: string, k: string)
    requires Ordered(prefixes, Longer) && k in prefixes && k <= model
    ensures FirstMatch(prefixes, model).Some?
    ensures var m := FirstMatch(prefixes, model).value; m in prefixes && m <= model && |m| >= |k|
    decreases prefixes
  {
    if !(prefixes[0] <= model) {
      assert prefixes == [prefixes[0]] + prefixes[1..];
      assert Ordered(prefixes[1..], Longer) by {
        forall i, j | 0 <= i < j < |prefixes| - 1
          ensures !Longer(prefixes[1..][j], prefixes[1..][i])
        {
          assert !Longer(prefixes[j + 1], prefixes[i + 1]);
        }
      }
      FirstMatchIsLongest(prefixes[1..], model, k);
    } else {
      var i :| 0 <= i < |prefixes| && prefixes[i] == k;
      assert i > 0 ==> !Longer(prefixes[i], prefixes[0]);
    }
  }

  lemma {:induction false} NoMatch(prefixes: seq<string>, model: string)
    requires forall k :: k in prefixes ==> !(k <= model)
    ensures FirstMatch(prefixes, model).None?
    decreases prefixes
  {
    if prefixes != [] {
      assert prefixes[0] in prefixes && forall k :: k in prefixes[1..] ==> k in prefixes;
      NoMatch(prefixes[1..], model);
    }
  }

  /** `k` is the longest prefix of the model id in the table. */
  ghost predicate LongestMatch(table: Dict<string, Price>, model: string, k: string) {
    k in table.vals && k <= model && forall o :: o in table.vals && o <= model && o != k ==> |o| < |k|
  }

  lemma SortedPrefixes(table: Dict<string, Price>)
    requires table.Valid()
    ensures var sorted := StableSort(table.keys, Longer);
      Ordered(sorted, Longer) && forall k :: k in sorted <==> k in table.vals
  {
    SortOrders(table.keys, Longer, k => |k| == 0);
    SortedMembers(table.keys, Longer);
  }

  lemma MatchedIsLongest(table: Dict<string, Price>, model: string, o: string)
    requires table.Valid() && o in table.vals && o <= model
    ensures Matched(table, model).Some? && LongestMatch(table, model, Matched(table, model).value)
  {
    var sorted := StableSort(table.keys, Longer);
    SortedPrefixes(table);
    FirstMatchIsLongest(sorted, model, o);
    var m := FirstMatch(sorted, model).value;
    forall k | k in table.vals && k <= model && k != m
      ensures |k| < |m|
    {
      FirstMatchIsLongest(sorted, model, k);
    }
  }

  /** The price is the one longest match's, whatever order the table is written in. */
  lemma PriceIsLongestMatch(table: Dict<string, Price>, model: string)
    requires table.Valid()
    ensures PriceOf(table, model).None? <==> forall o :: o in table.vals ==> !(o <= model)
    ensures PriceOf(table, model).Some? ==>
      exists k :: LongestMatch(table, model, k) && PriceOf(table, model).value == table.vals[k]
  {
    if o :| o in table.vals && o <= model {
      MatchedIsLongest(table, model, o);
    } else {
      SortedPrefixes(table);
      NoMatch(StableSort(table.keys, Longer), model);
    }
  }

  lemma TableOrderIsIrrelevant(a: Dict<string, Price>, b: Dict<string, Price>, model: string)
    requires a.Valid() && b.Valid() && a.vals == b.vals
    ensures PriceOf(a, model) == PriceOf(b, model)
  {
    PriceIsLongestMatch(a, model);
    PriceIsLongestMatch(b, model);
    if PriceOf(a, model).Some? {
      var k :| LongestMatch(a, model, k) && PriceOf(a, model).value == a.vals[k];
      var l :| LongestMatch(b, model, l) && PriceOf(b, model).value == b.vals[l];
      assert k == l;
    }
  }

  method LookUpPrice(table: Dict<string, Price>, model: string) returns (p: Option<Price>)
    requires table.Valid()
    ensures p == PriceOf(table, model)
  {
    var prefixes := StableSort(table.keys, Longer);
    SortedMembers(table.keys, Longer);
    for i := 0 to |prefixes|
      invariant FirstMatch(prefixes, model) == FirstMatch(prefixes[i..], model)
    {
      assert prefixes[i..][1..] == prefixes[i + 1..];
      if prefixes[i] <= model {
        assert prefixes[i] in table.keys;
        return Some(table.vals[prefixes[i]]);
      }
    }
    return None;
  }

  // --- messages -------------------------------------------------------------------------------------

  datatype Usage = Usage(input: int, output: int, cacheRead: int, cacheWrite: int) {
    function Plus(u: Usage): Usage {
      Usage(input + u.input, output + u.output, cacheRead + u.cacheRead, cacheWrite + u.cacheWrite)
    }
  }

  const NOTHING := Usage(0, 0, 0, 0)

  /** `models` lists a result's models with their output tokens, in the order reported. */
  datatype Message =
    | Assistant(model: string, usage: Option<Usage>, id: string)
    | Result(usage: Option<Usage>, models: seq<(string, int)>, cost: Option<real>, turns: int, duration: int)
    | Other

  datatype CostSource = Unobserved | Sdk | Estimated

  datatype Meter = Meter(
    model: string,
    tokens: Usage,
    cost: Option<real>,
    costSource: CostSource,
    turns: int,
    duration: int,
    seen: set<string>,
    final: bool)

  const FRESH := Meter("", NOTHING, None, Unobserved, 0, 0, {}, false)

  /** `max(..., key=...)`: the first of the busiest models. */
  function Busiest(models: seq<(string, int)>): (string, int)
    requires models != []
  {
    if |models| == 1 then models[0]
    else
      var best := Busiest(models[..|models| - 1]);
      var last := models[|models| - 1];
      if last.1 > best.1 then last else best
  }

  /** It is a first sighting: no id to recognise it by, or an id not seen yet. */
  predicate New(seen: set<string>, id: string) {
    id == "" || id !in seen
  }

  function Observed(s: Meter, m: Message): Meter {
    match m
    case Other => s
    case Assistant(model, usage, id) =>
      if s.final then s
      else
        var s1 := if model == "" then s else s.(model := model);
        if usage.None? || !New(s.seen, id) then s1
        else s1.(seen := if id == "" then s.seen else s.seen + {id},
                 tokens := s.tokens.Plus(usage.value), turns := s.turns + 1)
    case Result(usage, models, cost, turns, duration) =>
      s.(tokens := if usage.Some? then usage.value else s.tokens,
         model := if models != [] then Busiest(models).0 else s.model,
         cost := if cost.Some? then cost else s.cost,
         costSource := if cost.Some? then Sdk else s.costSource,
         turns := if turns != 0 then turns else s.turns,
         duration := if duration != 0 then duration else s.duration,
         final := true)
  }

  function Run(s: Meter, msgs: seq<Message>): Meter {
    if msgs == [] then s else Observed(Run(s, msgs[..|msgs| - 1]), msgs[|msgs| - 1])
  }

  /** `finish()`: `elapsed` is the wall clock since the meter was made. */
  function Finished(s: Meter, elapsed: int): Meter {
    var d := if s.duration == 0 then elapsed else s.duration;
    var est := EstimateCost(s.model, s.tokens);
    if s.cost.None? && (s.tokens.input != 0 || s.tokens.output != 0) && est.Some?
    then s.(duration := d, cost := est, costSource := Estimated)
    else s.(duration := d)
  }

  function EstimateCost(model: string, u: Usage): Option<real> {
    var p := PriceOf(PRICES, model);
    if p.None? then None else Some(PricedAt(p.value, u))
  }

  /** Prices are for a million tokens. */
  function PricedAt(p: Price, u: Usage): real {
    (u.input as real * p.input + u.output as real * p.output
     + u.cacheRead as real * p.cacheRead + u.cacheWrite as real * p.cacheWrite) / 1000000.0
  }

  /** A million tokens of one kind cost what the model's price list says for that kind, and costs add up. */
  lemma EstimateByKind(model: string, p: Price, u: Usage, v: Usage)
    requires PriceOf(PRICES, model) == Some(p)
    ensures EstimateCost(model, Usage(1000000, 0, 0, 0)) == Some(p.input)
    ensures EstimateCost(model, Usage(0, 1000000, 0, 0)) == Some(p.output)
    ensures EstimateCost(model, Usage(0, 0, 1000000, 0)) == Some(p.cacheRead)
    ensures EstimateCost(model, Usage(0, 0, 0, 1000000)) == Some(p.cacheWrite)
    ensures EstimateCost(model, u).Some? && EstimateCost(model, v).Some?
    ensures EstimateCost(model, u.Plus(v)) == Some(EstimateCost(model, u).value + EstimateCost(model, v).value)
  {
    hide PriceOf, PricedAt;
    OneKind(p);
    CostsAddUp(p, u, v);
  }

  lemma OneKind(p: Price)
    ensures PricedAt(p, Usage(1000000, 0, 0, 0)) == p.input && PricedAt(p, Usage(0, 1000000, 0, 0)) == p.output
    ensures PricedAt(p, Usage(0, 0, 1000000, 0)) == p.cacheRead && PricedAt(p, Usage(0, 0, 0, 1000000)) == p.cacheWrite
  {
  }

  lemma CostsAddUp(p: Price, u: Usage, v: Usage)
    ensures PricedAt(p, u.Plus(v)) == PricedAt(p, u) + PricedAt(p, v)
  {
    Distributes(u.input, v.input, p.input);
    Distributes(u.output, v.output, p.output);
    Distributes(u.cacheRead, v.cacheRead, p.cacheRead);
    Distributes(u.cacheWrite, v.cacheWrite, p.cacheWrite);
  }

  lemma Distributes(m: int, n: int, price: real)
    ensures (m + n) as real * price == m as real * price + n as real * price
  {
  }

  /** The price list: the newest Opus has its own price, all older ones share one. */
  lemma OpusPrices(model: string)
    requires "claude-opus" <= model
    ensures PriceOf(PRICES, model) ==
      Some(if "claude-opus-5-5" <= model then Price(4.0, 20.0, 0.20, 5.0) else Price(5.0, 25.0, 0.50, 6.25))
  {
    hide PriceOf;
    PricesValid();
    OneFamily(model);
    LongestWins(PRICES, model, if "claude-opus-5-5" <= model then "claude-opus-5-5" else "claude-opus");
  }

  /** So does the newest Sonnet. */
  lemma SonnetPrices(model: string)
    requires "claude-sonnet" <= model
    ensures PriceOf(PRICES, model) ==
      Some(if "claude-sonnet-5" <= model then Price(2.0, 10.0, 0.20, 2.5) else Price(3.0, 15.0, 0.30, 3.75))
  {
    hide PriceOf;
    PricesValid();
    OneFamily(model);
    LongestWins(PRICES, model, if "claude-sonnet-5" <= model then "claude-sonnet-5" else "claude-sonnet");
  }

  lemma HaikuAndFablePrices(model: string)
    ensures "claude-haiku" <= model ==> PriceOf(PRICES, model) == Some(Price(1.0, 5.0, 0.10, 1.25))
    ensures "claude-fable-5" <= model ==> PriceOf(PRICES, model) == Some(Price(10.0, 50.0, 0.25, 12.5))
  {
    hide PriceOf;
    if "claude-haiku" <= model { HaikuPrice(model); }
    if "claude-fable-5" <= model { FablePrice(model); }
  }

  lemma HaikuPrice(model: string)
    requires "claude-haiku" <= model
    ensures PriceOf(PRICES, model) == Some(Price(1.0, 5.0, 0.10, 1.25))
  {
    hide PriceOf;
    PricesValid();
    OneFamily(model);
    LongestWins(PRICES, model, "claude-haiku");
  }

  lemma FablePrice(model: string)
    requires "claude-fable-5" <= model
    ensures PriceOf(PRICES, model) == Some(Price(10.0, 50.0, 0.25, 12.5))
  {
    hide PriceOf;
    PricesValid();
    OneFamily(model);
    LongestWins(PRICES, model, "claude-fable-5");
  }

  /** Model families differ in their eighth character. */
  lemma OneFamily(model: string)
    ensures "claude-opus" <= model ==> |model| > 7 && model[7] == 'o'
    ensures "claude-opus-5-5" <= model ==> "claude-opus" <= model
    ensures "claude-sonnet" <= model ==> |model| > 7 && model[7] == 's'
    ensures "claude-sonnet-5" <= model ==> "claude-sonnet" <= model
    ensures "claude-haiku" <= model ==> |model| > 7 && model[7] == 'h'
    ensures "claude-fable-5" <= model ==> |model| > 7 && model[7] == 'f'
  {
  }

  lemma LongestWins(table: Dict<string, Price>, model: string, k: string)
    requires table.Valid() && k in table.vals && k <= model
    requires forall o :: o in table.vals && o <= model && o != k ==> |o| <= |k|
    ensures PriceOf(table, model) == Some(table.vals[k])
  {
    hide PriceOf;
    PriceIsLongestMatch(table, model);
    var m :| LongestMatch(table, model, m) && PriceOf(table, model).value == table.vals[m];
  }

  class RunUsage {
    var model: string
    var inputTokens: int
    var outputTokens: int
    var cacheReadTokens: int
    var cacheWriteTokens: int
    var costUsd: Option<real>
    var costSource: CostSource
    var numTurns: int
    var durationMs: int
    var seen: set<string>
    var final: bool

    ghost function State(): Meter
      reads this
    {
      Meter(model, Usage(inputTokens, outputTokens, cacheReadTokens, cacheWriteTokens), costUsd, costSource,
            numTurns, durationMs, seen, final)
    }

    constructor ()
      ensures State() == FRESH
      ensures model == "" && inputTokens == outputTokens == cacheReadTokens == cacheWriteTokens == 0
      ensures costUsd == None && costSource == Unobserved && numTurns == durationMs == 0 && seen == {} && !final
    {
      model, costUsd, costSource := "", None, Unobserved;
      inputTokens, outputTokens, cacheReadTokens, cacheWriteTokens := 0, 0, 0, 0;
      numTurns, durationMs, seen, final := 0, 0, {}, false;
    }

    method SetTokens(usage: Usage)
      modifies this
      ensures State() == old(State()).(tokens := usage)
    {
      inputTokens := usage.input;
      outputTokens := usage.output;
      cacheReadTokens := usage.cacheRead;
      cacheWriteTokens := usage.cacheWrite;
    }

    method AddTokens(usage: Usage)
      modifies this
      ensures State() == old(State()).(tokens := old(State()).tokens.Plus(usage))
    {
      inputTokens := inputTokens + usage.input;
      outputTokens := outputTokens + usage.output;
      cacheReadTokens := cacheReadTokens + usage.cacheRead;
      cacheWriteTokens := cacheWriteTokens + usage.cacheWrite;
    }

    method Observe(m: Message)
      modifies this
      ensures State() == Observed(old(State()), m)
    {
      hide Busiest;
      match m {
        case Other =>
        case Assistant(name, usage, id) =>
          if final { return; }
          if name != "" { model := name; }
          if usage.None? { return; }
          if id != "" {
            if id in seen { return; }
            seen := seen + {id};
          }
          AddTokens(usage.value);
          numTurns := numTurns + 1;
        case Result(usage, models, cost, turns, duration) =>
          if usage.Some? { SetTokens(usage.value); }
          if models != [] { model := Busiest(models).0; }
          if cost.Some? {
            costUsd := cost;
            costSource := Sdk;
          }
          numTurns := if turns != 0 then turns else numTurns;
          durationMs := if duration != 0 then duration else durationMs;
          final := true;
      }
    }

    method Finish(elapsed: int)
      modifies this
      ensures State() == Finished(old(State()), elapsed)
    {
      hide PriceOf, EstimateCost;
      if durationMs == 0 { durationMs := elapsed; }
      if costUsd.None? && (inputTokens != 0 || outputTokens != 0) {
        var est := EstimateCost(model, Usage(inputTokens, outputTokens, cacheReadTokens, cacheWriteTokens));
        if est.Some? {
          costUsd := est;
          costSource := Estimated;
        }
      }
    }
  }

  /** A whole stream through one meter. */
  method Measure(msgs: seq<Message>, elapsed: int) returns (u: RunUsage)
    ensures fresh(u) && u.State() == Finished(Run(FRESH, msgs), elapsed)
  {
    u := new RunUsage();
    for i := 0 to |msgs|
      invariant fresh(u) && u.State() == Run(FRESH, msgs[..i])
    {
      assert msgs[..i + 1][..i] == msgs[..i];
      u.Observe(msgs[i]);
    }
    assert msgs[..|msgs|] == msgs;
    u.Finish(elapsed);
  }

  // --- what the totals mean -----------------------------------------------------------------------

  predicate Bears(m: Message) {
    m.Assistant? && m.usage.Some?
  }

  /** The first usage-bearing message of its id, or one without an id. */
  predicate FirstOfItsId(msgs: seq<Message>, i: nat)
    requires i < |msgs|
  {
    Bears(msgs[i]) && (msgs[i].id == "" || forall j :: 0 <= j < i ==> !(Bears(msgs[j]) && msgs[j].id == msgs[i].id))
  }

  function SumOfFirsts(msgs: seq<Message>, n: nat): Usage
    requires n <= |msgs|
  {
    if n == 0 then NOTHING
    else if FirstOfItsId(msgs, n - 1) then SumOfFirsts(msgs, n - 1).Plus(msgs[n - 1].usage.value)
    else SumOfFirsts(msgs, n - 1)
  }

  /** How many messages come before the first result. */
  function Streamed(msgs: seq<Message>): (n: nat)
    ensures n <= |msgs|
  {
    if msgs == [] then 0
    else
      var n := Streamed(msgs[..|msgs| - 1]);
      if n == |msgs| - 1 && !msgs[n].Result? then |msgs| else n
  }

  /** The usage of the last result that reports any. */
  function Reported(msgs: seq<Message>): Option<Usage> {
    if msgs == [] then None
    else
      var m := msgs[|msgs| - 1];
      if m.Result? && m.usage.Some? then m.usage else Reported(msgs[..|msgs| - 1])
  }

  lemma {:induction false} SumOfFirstsPrefix(msgs: seq<Message>, k: nat, n: nat)
    requires n <= k <= |msgs|
    ensures SumOfFirsts(msgs[..k], n) == SumOfFirsts(msgs, n)
    decreases n
  {
    if n > 0 {
      SumOfFirstsPrefix(msgs, k, n - 1);
      assert FirstOfItsId(msgs[..k], n - 1) == FirstOfItsId(msgs, n - 1);
    }
  }

  ghost predicate SeenAre(msgs: seq<Message>, n: nat, seen: set<string>)
    requires n <= |msgs|
  {
    forall id :: id in seen <==> id != "" && exists j :: 0 <= j < n && Bears(msgs[j]) && msgs[j].id == id
  }

  /** What the meter remembers, at any point of any stream. */
  lemma {:induction false} MeterRemembers(msgs: seq<Message>)
    ensures Run(FRESH, msgs).final <==> Streamed(msgs) < |msgs|
    ensures SeenAre(msgs, Streamed(msgs), Run(FRESH, msgs).seen)
    decreases msgs
  {
    if msgs != [] {
      var k := |msgs| - 1;
      var init := msgs[..k];
      MeterRemembers(init);
    }
  }

  /**
    The totals of any stream: the last reported usage if there is one, else the first
    usage-bearing message of each id and every one without an id, up to the first result.
   */
  lemma {:induction false} TotalsAre(msgs: seq<Message>)
    ensures Run(FRESH, msgs).tokens ==
      if Reported(msgs).Some? then Reported(msgs).value else SumOfFirsts(msgs, Streamed(msgs))
    decreases msgs
  {
    if msgs != [] {
      var k := |msgs| - 1;
      var init := msgs[..k];
      TotalsAre(init);
      MeterRemembers(init);
      SumOfFirstsPrefix(msgs, k, Streamed(init));
      if !Run(FRESH, init).final {
        NoResultNoReport(init);
      }
    }
  }

  lemma {:induction false} NoResultNoReport(msgs: seq<Message>)
    requires Streamed(msgs) == |msgs|
    ensures Reported(msgs).None?
    decreases msgs
  {
    if msgs != [] { NoResultNoReport(msgs[..|msgs| - 1]); }
  }

  // --- the other numbers ---------------------------------------------------------------------------

  /** The turns the last result that counted any reports; 0 when none did. */
  function ReportedTurns(msgs: seq<Message>): int {
    if msgs == [] then 0
    else
      var m := msgs[|msgs| - 1];
      if m.Result? && m.turns != 0 then m.turns else ReportedTurns(msgs[..|msgs| - 1])
  }

  function ReportedDuration(msgs: seq<Message>): int {
    if msgs == [] then 0
    else
      var m := msgs[|msgs| - 1];
      if m.Result? && m.duration != 0 then m.duration else ReportedDuration(msgs[..|msgs| - 1])
  }

  function FirstsBefore(msgs: seq<Message>, n: nat): nat
    requires n <= |msgs|
  {
    if n == 0 then 0 else FirstsBefore(msgs, n - 1) + if FirstOfItsId(msgs, n - 1) then 1 else 0
  }

  lemma {:induction false} FirstsBeforePrefix(msgs: seq<Message>, k: nat, n: nat)
    requires n <= k <= |msgs|
    ensures FirstsBefore(msgs[..k], n) == FirstsBefore(msgs, n)
    decreases n
  {
    if n > 0 {
      FirstsBeforePrefix(msgs, k, n - 1);
      assert FirstOfItsId(msgs[..k], n - 1) == FirstOfItsId(msgs, n - 1);
    }
  }

  /** Turns and duration are the last reported ones; before any report, a turn is a usage block counted once. */
  lemma {:induction false} TurnsAndDurationAre(msgs: seq<Message>)
    ensures Run(FRESH, msgs).turns ==
      if ReportedTurns(msgs) != 0 then ReportedTurns(msgs) else FirstsBefore(msgs, Streamed(msgs))
    ensures Run(FRESH, msgs).duration == ReportedDuration(msgs)
    decreases msgs
  {
    if msgs != [] {
      var k := |msgs| - 1;
      var init := msgs[..k];
      TurnsAndDurationAre(init);
      MeterRemembers(init);
      FirstsBeforePrefix(msgs, k, Streamed(init));
      if !Run(FRESH, init).final { NoResultNoTurns(init); }
    }
  }

  lemma {:induction false} NoResultNoTurns(msgs: seq<Message>)
    requires Streamed(msgs) == |msgs|
    ensures ReportedTurns(msgs) == 0
    decreases msgs
  {
    if msgs != [] { NoResultNoTurns(msgs[..|msgs| - 1]); }
  }

  /** The first of the models with the most output. */
  lemma {:induction false} BusiestIs(models: seq<(string, int)>) returns (i: nat)
    requires models != []
    ensures i < |models| && Busiest(models) == models[i]
    ensures forall j :: 0 <= j < |models| ==> models[j].1 <= models[i].1
    ensures forall j :: 0 <= j < i ==> models[j].1 < models[i].1
    decreases models
  {
    if |models| == 1 {
      i := 0;
    } else {
      i := BusiestIs(models[..|models| - 1]);
      if models[|models| - 1].1 > models[i].1 { i := |models| - 1; }
    }
  }

  /** A message that says which model it was: a result by its busiest, any other only before the first result. */
  predicate Names(msgs: seq<Message>, i: nat, name: string)
    requires i < |msgs|
  {
    match msgs[i]
    case Result(_, models, _, _, _) => models != [] && name == Busiest(models).0
    case Assistant(model, _, _) => model != "" && name == model && i < Streamed(msgs)
    case Other => false
  }

  /** The model of a run is the one named last, and none when nobody named one. */
  lemma {:induction false} ModelIsLastNamed(msgs: seq<Message>, i: nat, name: string)
    requires i < |msgs| && Names(msgs, i, name)
    requires forall j, other :: i < j < |msgs| ==> !Names(msgs, j, other)
    ensures Run(FRESH, msgs).model == name
    decreases msgs
  {
    var k := |msgs| - 1;
    var init := msgs[..k];
    MeterRemembers(init);
    if i < k {
      assert forall j, other :: 0 <= j < k ==> (Names(init, j, other) <==> Names(msgs, j, other));
      ModelIsLastNamed(init, i, name);
      var last := msgs[k];
      if last.Assistant? { assert !Names(msgs, k, last.model); }
      if last.Result? && last.models != [] { assert !Names(msgs, k, Busiest(last.models).0); }
    }
  }

  lemma {:induction false} NobodyNamesModel(msgs: seq<Message>)
    requires forall j, other :: 0 <= j < |msgs| ==> !Names(msgs, j, other)
    ensures Run(FRESH, msgs).model == ""
    decreases msgs
  {
    if msgs != [] {
      var k := |msgs| - 1;
      var init, last := msgs[..k], msgs[k];
      MeterRemembers(init);
      assert forall j, other :: 0 <= j < k ==> (Names(init, j, other) <==> Names(msgs, j, other));
      NobodyNamesModel(init);
      if last.Assistant? { assert !Names(msgs, k, last.model); }
      if last.Result? && last.models != [] { assert !Names(msgs, k, Busiest(last.models).0); }
    }
  }

  // --- replays -------------------------------------------------------------------------------------

  /** Two meters that differ at most in the model they name. */
  predicate SameCounts(a: Meter, b: Meter) {
    a.(model := b.model) == b
  }

  lemma {:induction false} RunAppends(s: Meter, a: seq<Message>, b: seq<Message>)
    ensures Run(s, a + b) == Run(Run(s, a), b)
    decreases b
  {
    if b == [] {
      assert a + b == a;
    } else {
      RunAppends(s, a, b[..|b| - 1]);
      assert (a + b)[..|a + b| - 1] == a + b[..|b| - 1];
    }
  }

  lemma {:induction false} SameCountsStay(s: Meter, t: Meter, msgs: seq<Message>)
    requires SameCounts(s, t)
    ensures SameCounts(Run(s, msgs), Run(t, msgs))
    decreases msgs
  {
    if msgs != [] { SameCountsStay(s, t, msgs[..|msgs| - 1]); }
  }

  /** A replayed block, anywhere in any stream, changes no count, cost or duration. */
  lemma ReplayChangesNothing(a: seq<Message>, m: Message, b: seq<Message>, j: nat)
    requires j < |a| && Bears(a[j]) && Bears(m) && m.id != "" && a[j].id == m.id
    ensures SameCounts(Run(FRESH, a + [m] + b), Run(FRESH, a + b))
  {
    var s := Run(FRESH, a);
    MeterRemembers(a);
    assert (a + [m])[..|a|] == a && Run(FRESH, a + [m]) == Observed(s, m);
    assert SameCounts(Observed(s, m), s);
    RunAppends(FRESH, a + [m], b);
    RunAppends(FRESH, a, b);
    SameCountsStay(Observed(s, m), s, b);
  }

  // --- where the cost comes from ---------------------------------------------------------------------

  predicate Priced(m: Message) {
    m.Result? && m.cost.Some?
  }

  /** The cost of the last result that names one. */
  function LastCost(msgs: seq<Message>): Option<real> {
    if msgs == [] then None
    else if Priced(msgs[|msgs| - 1]) then msgs[|msgs| - 1].cost
    else LastCost(msgs[..|msgs| - 1])
  }

  lemma {:induction false} CostIsReported(msgs: seq<Message>)
    ensures Run(FRESH, msgs).cost == LastCost(msgs)
    ensures Run(FRESH, msgs).costSource == if LastCost(msgs).Some? then Sdk else Unobserved
    decreases msgs
  {
    if msgs != [] { CostIsReported(msgs[..|msgs| - 1]); }
  }

  /** A finished run's cost is the SDK's own wherever it named one, and an estimate only otherwise. */
  lemma {:induction false} FinishedCost(msgs: seq<Message>, elapsed: int)
    ensures var s, f := Run(FRESH, msgs), Finished(Run(FRESH, msgs), elapsed);
      && f.tokens == s.tokens && f.turns == s.turns && f.model == s.model
      && (f.costSource.Sdk? <==> LastCost(msgs).Some?)
      && (f.costSource.Sdk? ==> f.cost == LastCost(msgs))
      && (f.costSource.Estimated? <==> LastCost(msgs).None? && (s.tokens.input != 0 || s.tokens.output != 0)
                                       && exists k :: k in PRICES.vals && k <= s.model)
      && (f.costSource.Estimated? ==> f.cost == EstimateCost(s.model, s.tokens))
      && (f.cost.None? <==> f.costSource.Unobserved?)
      && f.duration == if s.duration == 0 then elapsed else s.duration
  {
    CostIsReported(msgs);
    PricesValid();
    PriceIsLongestMatch(PRICES, Run(FRESH, msgs).model);
  }

  lemma PricesValid()
    ensures PRICES.Valid()
  {
  }
}
