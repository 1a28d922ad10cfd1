/** The pipeline executor (core/pipeline_manager.py): stages run as their dependencies complete, in
    whatever order the event loop finishes them, and possibly more than once. */
module Pipelines {
  import opened Hashing
  import opened Sequences

  type Name = string

  datatype Value = Value(text: string)

  type Context = map<Name, Value>

  /** "$name" in a template refers to the context; anything else is passed as it is. */
  datatype Arg = Ref(name: Name) | Literal(value: Value)

  type Args = map<string, Option<Value>>

  datatype Stage = Stage(
    func: Args -> Result<Value, string>,
    template: map<string, Arg>,
    dependsOn: seq<Name>,
    maxRetries: int,
    onError: Option<string -> Result<Value, string>>)

  /** The stages of a pipeline by name. */
  type Graph = map<Name, Stage>

  // ---------------------------------------------------------------------------------------------
  // What a stage does
  // ---------------------------------------------------------------------------------------------

  function Resolved(arg: Arg, context: Context): Option<Value> {
    match arg
    case Ref(name) => if name in context then Some(context[name]) else None
    case Literal(value) => Some(value)
  }

  function ResolvedArgs(template: map<string, Arg>, context: Context): Args {
    map key | key in template :: Resolved(template[key], context)
  }

  /** The value of a stage once its retries are used up, or None if it raises. */
  function Outcome(stage: Stage, context: Context): Option<Value> {
    match stage.func(ResolvedArgs(stage.template, context))
    case Ok(value) => Some(value)
    case Err(error) =>
      if stage.onError.None? then None
      else
        match stage.onError.value(error)
        case Ok(value) => Some(value)
        case Err(_) => None
  }

  predicate Met(stage: Stage, completed: set<Name>) {
    forall k :: 0 <= k < |stage.dependsOn| ==> stage.dependsOn[k] in completed
  }

  /** Templates refer to no stage that is not a declared dependency, and stages do not shadow inputs. */
  ghost predicate WellFormed(g: Graph, inputs: Context) {
    && inputs.Keys !! g.Keys
    && forall n, key, r :: n in g && key in g[n].template && g[n].template[key] == Ref(r) && r in g ==>
                             r in g[n].dependsOn
  }

  // ---------------------------------------------------------------------------------------------
  // The least fixpoint
  // ---------------------------------------------------------------------------------------------

  ghost predicate Ready(g: Graph, c: Context, n: Name) {
    n in g && Met(g[n], c.Keys * g.Keys) && Outcome(g[n], c).Some?
  }

  /** Every stage whose dependencies have succeeded and that itself succeeds is added. */
  ghost function Grow(g: Graph, c: Context): Context {
    map n | n in c.Keys + g.Keys && (n in c || Ready(g, c, n)) ::
      if n in c then c[n] else Outcome(g[n], c).value
  }

  ghost function Fixpoint(g: Graph, c: Context): Context
    decreases |g.Keys - c.Keys|
  {
    if Grow(g, c) == c then c
    else
      (GrowAdds(g, c); Fixpoint(g, Grow(g, c)))
  }

  lemma GrowAdds(g: Graph, c: Context)
    requires Grow(g, c) != c
    ensures |g.Keys - Grow(g, c).Keys| < |g.Keys - c.Keys|
  {
    var d := Grow(g, c);
    assert forall n :: n in c ==> n in d && d[n] == c[n];
    assert exists n :: n in d && n !in c;
    SmallerSet(g.Keys - d.Keys, g.Keys - c.Keys);
  }

  lemma SmallerSet<T>(a: set<T>, b: set<T>)
    requires a < b
    ensures |a| < |b|
  {
    assert b == a + (b - a);
    assert |b - a| > 0;
  }

  ghost predicate Within(c: Context, d: Context) {
    forall n :: n in c ==> n in d && d[n] == c[n]
  }

  /** A context a run may hold: the inputs, and stages whose value their dependencies explain. */
  ghost predicate Justified(g: Graph, inputs: Context, c: Context) {
    && Within(inputs, c) && c.Keys <= inputs.Keys + g.Keys
    && forall n :: n in c && n in g ==>
                     Met(g[n], c.Keys * g.Keys) && Outcome(g[n], c) == Some(c[n])
  }

  /** A stage whose dependencies are there does not notice what else the context gains. */
  lemma OutcomeStable(g: Graph, inputs: Context, n: Name, c: Context, d: Context)
    requires WellFormed(g, inputs) && n in g && Met(g[n], c.Keys * g.Keys) && Within(c, d)
    requires Within(inputs, c) && d.Keys <= inputs.Keys + g.Keys
    ensures Outcome(g[n], c) == Outcome(g[n], d)
  {
    var template := g[n].template;
    forall key | key in template ensures Resolved(template[key], c) == Resolved(template[key], d) {
      if template[key].Ref? && template[key].name in g {
        assert template[key].name in g[n].dependsOn;
      }
    }
    assert ResolvedArgs(template, c) == ResolvedArgs(template, d);
  }

  lemma GrowJustified(g: Graph, inputs: Context, c: Context)
    requires WellFormed(g, inputs) && Justified(g, inputs, c)
    ensures Justified(g, inputs, Grow(g, c)) && Within(c, Grow(g, c))
  {
    var d := Grow(g, c);
    forall n | n in d && n in g
      ensures Met(g[n], d.Keys * g.Keys) && Outcome(g[n], d) == Some(d[n])
    {
      OutcomeStable(g, inputs, n, c, d);
    }
  }

  lemma {:induction false} FixpointJustified(g: Graph, inputs: Context, c: Context)
    requires WellFormed(g, inputs) && Justified(g, inputs, c)
    ensures Justified(g, inputs, Fixpoint(g, c)) && Grow(g, Fixpoint(g, c)) == Fixpoint(g, c)
    ensures Within(c, Fixpoint(g, c))
    decreases |g.Keys - c.Keys|
  {
    if Grow(g, c) != c {
      GrowAdds(g, c);
      GrowJustified(g, inputs, c);
      FixpointJustified(g, inputs, Grow(g, c));
    }
  }

  /** Every stage that could be added is there. */
  ghost predicate Closed(g: Graph, c: Context) {
    forall n :: Ready(g, c, n) ==> n in c
  }

  lemma GrowWithin(g: Graph, inputs: Context, c: Context, d: Context)
    requires WellFormed(g, inputs) && Justified(g, inputs, c) && Justified(g, inputs, d)
    requires Within(c, d) && Closed(g, d)
    ensures Within(Grow(g, c), d)
  {
    forall n | n in Grow(g, c) ensures n in d && d[n] == Grow(g, c)[n] {
      if n !in c {
        OutcomeStable(g, inputs, n, c, d);
        assert Ready(g, d, n);
      }
    }
  }

  lemma {:induction false} FixpointLeast(g: Graph, inputs: Context, c: Context, d: Context)
    requires WellFormed(g, inputs) && Justified(g, inputs, c) && Justified(g, inputs, d)
    requires Within(c, d) && Closed(g, d)
    ensures Within(Fixpoint(g, c), d)
    decreases |g.Keys - c.Keys|
  {
    if Grow(g, c) != c {
      GrowAdds(g, c);
      GrowJustified(g, inputs, c);
      GrowWithin(g, inputs, c, d);
      FixpointLeast(g, inputs, Grow(g, c), d);
    }
  }

  /** The context a pipeline computes. */
  ghost function Final(g: Graph, inputs: Context): Context {
    Fixpoint(g, inputs)
  }

  /** The stages that run and raise. */
  ghost function FailedIn(g: Graph, c: Context): set<Name> {
    set n | n in g && Met(g[n], c.Keys * g.Keys) && Outcome(g[n], c).None?
  }

  /** The final context is the one and only context that explains every value it holds, holds all it
      could, and is contained in every other such context. */
  lemma FinalIsLeast(g: Graph, inputs: Context, d: Context)
    requires WellFormed(g, inputs)
    ensures var c := Final(g, inputs);
            && Justified(g, inputs, c) && Closed(g, c)
            && (Justified(g, inputs, d) && Closed(g, d) ==> Within(c, d))
  {
    FixpointJustified(g, inputs, inputs);
    var c := Final(g, inputs);
    forall n | Ready(g, c, n) ensures n in c {
      assert n in Grow(g, c);
    }
    if Justified(g, inputs, d) && Closed(g, d) {
      FixpointLeast(g, inputs, inputs, d);
    }
  }

  // ---------------------------------------------------------------------------------------------
  // Contexts inside the final one
  // ---------------------------------------------------------------------------------------------

  ghost predicate Fixed(g: Graph, inputs: Context, final: Context) {
    WellFormed(g, inputs) && Justified(g, inputs, final) && Closed(g, final)
  }

  /** What the executor keeps: the context lies inside the final one. */
  ghost predicate Sound(g: Graph, inputs: Context, final: Context, c: Context) {
    Justified(g, inputs, c) && Within(c, final)
  }

  ghost predicate MetIn(g: Graph, c: Context, n: Name) {
    n in g && Met(g[n], c.Keys * g.Keys)
  }

  /** A stage that read a context in which its dependencies were met ends as it does in the final one. */
  lemma StageAgrees(g: Graph, inputs: Context, final: Context, n: Name, read: Context)
    requires Fixed(g, inputs, final) && Sound(g, inputs, final, read) && MetIn(g, read, n)
    ensures Outcome(g[n], read) == Outcome(g[n], final) && MetIn(g, final, n)
  {
    OutcomeStable(g, inputs, n, read, final);
  }

  lemma AddJustified(g: Graph, inputs: Context, c: Context, n: Name, d: Context)
    requires WellFormed(g, inputs) && Justified(g, inputs, c) && n !in c && MetIn(g, c, n)
    requires Outcome(g[n], c).Some? && d == c[n := Outcome(g[n], c).value]
    ensures Justified(g, inputs, d) && Within(c, d)
  {
    forall m | m in d && m in g
      ensures Met(g[m], d.Keys * g.Keys) && Outcome(g[m], d) == Some(d[m])
    {
      assert Met(g[m], c.Keys * g.Keys);
      OutcomeStable(g, inputs, m, c, d);
    }
  }

  /** A stage that succeeds joins the context with the value it has in the final one. */
  lemma AddSound(g: Graph, inputs: Context, final: Context, c: Context, n: Name, value: Value)
    requires Fixed(g, inputs, final) && Sound(g, inputs, final, c) && n !in c && MetIn(g, c, n)
    requires Outcome(g[n], c) == Some(value)
    ensures Sound(g, inputs, final, c[n := value])
  {
    StageAgrees(g, inputs, final, n, c);
    assert Ready(g, final, n);
    AddJustified(g, inputs, c, n, c[n := value]);
  }

  /** When nothing is left to start, the context is the final one. */
  lemma StoppedIsFinal(g: Graph, inputs: Context, c: Context, failed: set<Name>)
    requires WellFormed(g, inputs) && Sound(g, inputs, Final(g, inputs), c)
    requires failed <= FailedIn(g, Final(g, inputs))
    requires forall n :: MetIn(g, c, n) ==> n in c || n in failed
    ensures c == Final(g, inputs) && failed == FailedIn(g, c)
  {
    var final := Final(g, inputs);
    FinalIsLeast(g, inputs, c);
    forall n | Ready(g, c, n) ensures n in c {
      StageAgrees(g, inputs, final, n, c);
    }
    assert c == final;
    forall n ensures n in FailedIn(g, c) ==> n in failed {
      assert n in c && n in g ==> Outcome(g[n], c).Some?;
      assert n in FailedIn(g, c) ==> MetIn(g, c, n);
    }
  }

  // ---------------------------------------------------------------------------------------------
  // When a pipeline completes
  // ---------------------------------------------------------------------------------------------

  /** Dependencies are stages and come earlier in some ranking. */
  ghost predicate Ranked(g: Graph, names: set<Name>, rank: map<Name, nat>) {
    forall n :: n in names ==>
      n in g && n in rank
      && forall k :: 0 <= k < |g[n].dependsOn| ==>
           var d := g[n].dependsOn[k];
           d in names && d in rank && rank[d] < rank[n]
  }

  ghost predicate Acyclic(g: Graph) {
    exists rank: map<Name, nat> :: Ranked(g, g.Keys, rank)
  }

  lemma {:induction false} RankedCompletes(g: Graph, inputs: Context, rank: map<Name, nat>, n: Name)
    requires WellFormed(g, inputs) && Ranked(g, g.Keys, rank) && n in g
    requires forall m :: m in g ==> Outcome(g[m], Final(g, inputs)).Some?
    ensures n in Final(g, inputs)
    decreases rank[n]
  {
    var c := Final(g, inputs);
    forall k | 0 <= k < |g[n].dependsOn| ensures g[n].dependsOn[k] in c.Keys * g.Keys {
      RankedCompletes(g, inputs, rank, g[n].dependsOn[k]);
    }
    FinalIsLeast(g, inputs, c);
    assert Ready(g, c, n);
  }

  /** The rounds in which stages join the fixpoint rank them. */
  lemma {:induction false} FixpointRanks(g: Graph, c: Context, rank: map<Name, nat>, bound: nat)
    returns (all: map<Name, nat>)
    requires Ranked(g, c.Keys * g.Keys, rank) && forall n :: n in rank ==> rank[n] < bound
    ensures Ranked(g, Fixpoint(g, c).Keys * g.Keys, all)
    decreases |g.Keys - c.Keys|
  {
    if Grow(g, c) == c {
      all := rank;
    } else {
      GrowAdds(g, c);
      var d := Grow(g, c);
      var more := map n | n in d.Keys * g.Keys :: if n in c then rank[n] else bound;
      all := FixpointRanks(g, d, more, bound + 1);
    }
  }

  /** A pipeline completes every stage exactly when its dependencies are stages without a cycle and no
      stage raises. */
  lemma CompletesIff(g: Graph, inputs: Context)
    requires WellFormed(g, inputs)
    ensures g.Keys <= Final(g, inputs).Keys <==>
            Acyclic(g) && forall n :: n in g ==> Outcome(g[n], Final(g, inputs)).Some?
  {
    var c := Final(g, inputs);
    FinalIsLeast(g, inputs, c);
    if g.Keys <= c.Keys {
      var rank := FixpointRanks(g, inputs, map[], 0);
      assert c.Keys * g.Keys == g.Keys;
      assert Ranked(g, g.Keys, rank);
    }
    if Acyclic(g) && forall n :: n in g ==> Outcome(g[n], c).Some? {
      var rank: map<Name, nat> :| Ranked(g, g.Keys, rank);
      forall n | n in g ensures n in c {
        RankedCompletes(g, inputs, rank, n);
      }
    }
  }

  // ---------------------------------------------------------------------------------------------
  // The code
  // ---------------------------------------------------------------------------------------------

  class PipelineStage {
    const name: Name
    const stage: Stage
    var retryCount: int

    constructor (name: Name, stage: Stage)
      ensures this.name == name && this.stage == stage && retryCount == 0
    {
      this.name, this.stage := name, stage;
      retryCount := 0;
    }
  }

  ghost predicate UniqueNames(stages: seq<PipelineStage>) {
    forall i, k :: 0 <= i < k < |stages| ==> stages[i].name != stages[k].name
  }

  ghost function GraphOf(stages: seq<PipelineStage>): Graph {
    if stages == [] then map[]
    else
      var n := |stages| - 1;
      GraphOf(stages[..n])[stages[n].name := stages[n].stage]
  }

  /** The stages have different names and are those of the graph. */
  ghost predicate Graphs(stages: seq<PipelineStage>, g: Graph) {
    && UniqueNames(stages)
    && (forall k {:trigger stages[k]} :: 0 <= k < |stages| ==>
          stages[k].name in g && g[stages[k].name] == stages[k].stage)
    && forall n {:trigger n in g} :: n in g ==> exists k :: 0 <= k < |stages| && stages[k].name == n
  }

  lemma {:induction false} GraphOfGraphs(stages: seq<PipelineStage>)
    requires UniqueNames(stages)
    ensures Graphs(stages, GraphOf(stages))
  {
    if stages != [] {
      var n := |stages| - 1;
      GraphOfGraphs(stages[..n]);
      var g := GraphOf(stages);
      forall m | m in g ensures exists k :: 0 <= k < |stages| && stages[k].name == m {
        if m == stages[n].name {
          assert stages[n].name == m;
        } else {
          var k :| 0 <= k < n && stages[..n][k].name == m;
          assert stages[k].name == m;
        }
      }
      forall k | 0 <= k < |stages| ensures stages[k].name in g && g[stages[k].name] == stages[k].stage {
        assert k < n ==> stages[..n][k] == stages[k];
      }
    }
  }

  function NamesOf(stages: seq<PipelineStage>): (names: seq<Name>)
    ensures |names| == |stages| && forall k :: 0 <= k < |stages| ==> names[k] == stages[k].name
  {
    seq(|stages|, (k: nat) requires k < |stages| => stages[k].name)
  }

  lemma GraphNames(stages: seq<PipelineStage>, g: Graph)
    requires Graphs(stages, g)
    ensures g.Keys <= Elements(NamesOf(stages))
  {
    forall n | n in g ensures n in NamesOf(stages) {
      var k :| 0 <= k < |stages| && stages[k].name == n;
      assert NamesOf(stages)[k] == n;
    }
  }

  lemma SubsetCount(some: set<Name>, more: set<Name>)
    requires some <= more
    ensures |some| <= |more|
  {
    assert more == some + (more - some);
  }

  lemma GraphSize(stages: seq<PipelineStage>, g: Graph)
    requires Graphs(stages, g)
    ensures |g.Keys| <= |stages|
  {
    GraphNames(stages, g);
    ElementsCount(NamesOf(stages));
    SubsetCount(g.Keys, Elements(NamesOf(stages)));
  }

  method ResolveArgs(template: map<string, Arg>, context: Context) returns (resolved: Args)
    ensures resolved == ResolvedArgs(template, context)
  {
    resolved := map[];
    var keys := template.Keys;
    while keys != {}
      invariant keys <= template.Keys && resolved.Keys == template.Keys - keys
      invariant forall key :: key in resolved ==> resolved[key] == Resolved(template[key], context)
      decreases |keys|
    {
      var key :| key in keys;
      keys := keys - {key};
      if template[key].Ref? {
        resolved := resolved[key := if template[key].name in context then Some(context[template[key].name])
                                    else None];
      } else {
        resolved := resolved[key := Some(template[key].value)];
      }
    }
  }

  predicate Raises(stage: Stage, context: Context) {
    stage.func(ResolvedArgs(stage.template, context)).Err?
  }

  /** Attempt k is the last: those before it raised and were retried, and it succeeded or used up the
      retries; one retry is counted for each attempt after the first. */
  ghost predicate LastAttempt(stage: Stage, snapshots: seq<Context>, k: nat, before: int, after: int,
                              result: Option<Value>)
  {
    && k < |snapshots| && after == before + k && result == Outcome(stage, snapshots[k])
    && (forall i :: 0 <= i < k ==> Raises(stage, snapshots[i]) && before + i < stage.maxRetries)
    && (Raises(stage, snapshots[k]) ==> after >= stage.maxRetries)
  }

  /** One launch of a stage: attempts, each reading the context afresh, until one succeeds or no retry
      is left. */
  method ExecuteStage(s: PipelineStage, snapshots: seq<Context>) returns (result: Option<Value>)
    requires s.retryCount >= 0 && |snapshots| > 0 && |snapshots| > s.stage.maxRetries
    modifies s
    ensures exists k: nat :: LastAttempt(s.stage, snapshots, k, old(s.retryCount), s.retryCount, result)
  {
    var attempt := 0;
    while true
      invariant 0 <= attempt < |snapshots|
      invariant s.retryCount == old(s.retryCount) + attempt
      invariant attempt == 0 || s.retryCount <= s.stage.maxRetries
      invariant forall i :: 0 <= i < attempt ==>
                  Raises(s.stage, snapshots[i]) && old(s.retryCount) + i < s.stage.maxRetries
      decreases |snapshots| - attempt
    {
      var args := ResolveArgs(s.stage.template, snapshots[attempt]);
      match s.stage.func(args) {
        case Ok(value) =>
          result := Some(value);
          assert LastAttempt(s.stage, snapshots, attempt, old(s.retryCount), s.retryCount, result);
          return;
        case Err(error) =>
          if s.retryCount < s.stage.maxRetries {
            s.retryCount := s.retryCount + 1;
            attempt := attempt + 1;
          } else {
            result := HandleError(s.stage, error);
            assert LastAttempt(s.stage, snapshots, attempt, old(s.retryCount), s.retryCount, result);
            return;
          }
      }
    }
  }

  /** The error handler's value, or none if there is no handler or it raises. */
  method HandleError(stage: Stage, error: string) returns (result: Option<Value>)
    ensures result.Some? <==> stage.onError.Some? && stage.onError.value(error).Ok?
    ensures result.Some? ==> stage.onError.value(error) == Ok(result.value)
  {
    if stage.onError.None? {
      return None;
    }
    match stage.onError.value(error) {
      case Ok(value) => return Some(value);
      case Err(_) => return None;
    }
  }

  predicate IsReady(s: PipelineStage, completed: set<Name>, failed: set<Name>) {
    s.name !in completed && s.name !in failed && Met(s.stage, completed)
  }

  /** The ready stages in the order of the pipeline. */
  function ReadyStages(stages: seq<PipelineStage>, completed: set<Name>, failed: set<Name>)
    : seq<PipelineStage>
  {
    if stages == [] then []
    else
      var n := |stages| - 1;
      ReadyStages(stages[..n], completed, failed)
      + (if IsReady(stages[n], completed, failed) then [stages[n]] else [])
  }

  method GetReadyStages(stages: seq<PipelineStage>, completed: set<Name>, failed: set<Name>)
    returns (ready: seq<PipelineStage>)
    ensures ready == ReadyStages(stages, completed, failed)
    ensures forall s :: s in ready <==> s in stages && IsReady(s, completed, failed)
  {
    ready := [];
    for k := 0 to |stages|
      invariant ready == ReadyStages(stages[..k], completed, failed)
      invariant forall s :: s in ready <==> s in stages[..k] && IsReady(s, completed, failed)
    {
      var s := stages[k];
      assert stages[..k + 1][..k] == stages[..k];
      if IsReady(s, completed, failed) {
        ready := ready + [s];
      }
    }
    assert stages[..|stages|] == stages;
  }

  // ---------------------------------------------------------------------------------------------
  // The state of a run
  // ---------------------------------------------------------------------------------------------

  /** The loop's variables: the context, the contexts there have been, the stages done, and for each
      stage in flight the moment of its last launch. */
  datatype Execution = Execution(context: Context, history: seq<Context>, completed: set<Name>,
                                 failed: set<Name>, tasks: map<Name, nat>)
  {
    function Settled(): nat { |completed| + |failed| }
  }

  /** The stage is unsettled, and its dependencies have been met ever since its launch. */
  ghost predicate InFlight(g: Graph, x: Execution, n: Name) {
    && n in x.tasks && n !in x.completed && n !in x.failed && x.tasks[n] < |x.history|
    && forall k {:trigger x.history[k]} :: x.tasks[n] <= k < |x.history| ==> MetIn(g, x.history[k], n)
  }

  ghost predicate Progress(g: Graph, inputs: Context, final: Context, x: Execution) {
    && x.completed == x.context.Keys * g.Keys
    && x.failed <= FailedIn(g, final)
    && (forall i {:trigger x.history[i]} :: 0 <= i < |x.history| ==> Sound(g, inputs, final, x.history[i]))
    && x.history != [] && x.history[|x.history| - 1] == x.context
    && forall n {:trigger InFlight(g, x, n)} :: n in x.tasks ==> InFlight(g, x, n)
  }

  /** A finished launch took its outcome from some context since it was launched. */
  ghost predicate OutcomeSince(stage: Stage, history: seq<Context>, since: nat, result: Option<Value>) {
    exists k :: since <= k < |history| && result == Outcome(stage, history[k])
  }

  /** The end of a launch made when the history had since + 1 contexts. */
  method Finish(s: PipelineStage, history: seq<Context>, since: nat) returns (result: Option<Value>)
    requires since < |history| && s.retryCount >= 0
    modifies s
    ensures OutcomeSince(s.stage, history, since, result)
    ensures s.retryCount >= old(s.retryCount)
  {
    // An earlier launch of the same stage may have used up retries meanwhile.
    var used := *;
    if s.retryCount <= used <= s.stage.maxRetries {
      s.retryCount := used;
    }
    var count := if s.stage.maxRetries > 0 then s.stage.maxRetries + 1 else 1;
    var moments := Moments(history, since, count);
    ghost var before := s.retryCount;
    result := ExecuteStage(s, moments);
    ghost var k: nat :| LastAttempt(s.stage, moments, k, before, s.retryCount, result);
    assert moments[k] in history[since..];
    ghost var i :| 0 <= i < |history[since..]| && history[since..][i] == moments[k];
    assert history[since + i] == moments[k];
  }

  /** Any contexts since the launch, one for each attempt. */
  method Moments(history: seq<Context>, since: nat, count: nat) returns (r: seq<Context>)
    requires since < |history|
    ensures |r| == count
    ensures forall k :: 0 <= k < count ==> r[k] in history[since..]
  {
    r := [];
    while |r| < count
      invariant |r| <= count
      invariant forall k :: 0 <= k < |r| ==> r[k] in history[since..]
    {
      var i := *;
      if !(since <= i < |history|) {
        i := since;
      }
      assert history[since..][i - since] == history[i];
      r := r + [history[i]];
    }
  }

  lemma FullSet<T>(a: set<T>, b: set<T>)
    requires a <= b && |a| >= |b|
    ensures a == b
  {
    if a != b {
      SmallerSet(a, b);
    }
  }

  lemma FillUp<T>(a: set<T>, b: set<T>, all: set<T>)
    requires a !! b && a <= all && b <= all && |a| + |b| >= |all|
    ensures a + b == all
  {
    assert |a + b| == |a| + |b|;
    FullSet(a + b, all);
  }

  lemma FailedDisjoint(g: Graph, inputs: Context, final: Context, c: Context)
    requires Fixed(g, inputs, final) && Sound(g, inputs, final, c)
    ensures FailedIn(g, final) !! c.Keys * g.Keys
  {
    forall n | n in c.Keys * g.Keys ensures n !in FailedIn(g, final) {
      StageAgrees(g, inputs, final, n, c);
    }
  }

  /** Once as many stages are settled as there are, all are. */
  lemma Exhausted(stages: seq<PipelineStage>, g: Graph, inputs: Context, final: Context, x: Execution)
    requires Graphs(stages, g) && Fixed(g, inputs, final)
    requires Progress(g, inputs, final, x) && x.Settled() >= |stages|
    ensures Stopped(g, x)
  {
    assert Sound(g, inputs, final, x.history[|x.history| - 1]);
    FailedDisjoint(g, inputs, final, x.context);
    GraphSize(stages, g);
    FillUp(x.completed, x.failed, g.Keys);
  }

  function Launched(x: Execution, n: Name): Execution
    requires x.history != []
  {
    x.(tasks := x.tasks[n := |x.history| - 1])
  }

  function Popped(x: Execution, n: Name): Execution {
    x.(tasks := x.tasks - {n})
  }

  function Settle(x: Execution, n: Name, result: Option<Value>): Execution {
    if result.None? then x.(failed := x.failed + {n})
    else
      var context := x.context[n := result.value];
      x.(context := context, completed := x.completed + {n}, history := x.history + [context])
  }

  lemma LaunchProgress(g: Graph, inputs: Context, final: Context, x: Execution, n: Name)
    requires Progress(g, inputs, final, x)
    requires n in g && n !in x.completed && n !in x.failed && Met(g[n], x.completed)
    ensures Progress(g, inputs, final, Launched(x, n))
  {
    var y := Launched(x, n);
    forall m | m in y.tasks ensures InFlight(g, y, m) {
      if m != n {
        assert InFlight(g, x, m);
      }
    }
  }

  /** Whatever context a finished launch took its outcome from, it ends as in the final context. */
  lemma FinishedTask(g: Graph, inputs: Context, final: Context, x: Execution, n: Name, k: nat)
    requires Fixed(g, inputs, final) && Progress(g, inputs, final, x)
    requires n in x.tasks && x.tasks[n] <= k < |x.history|
    ensures MetIn(g, x.context, n) && n !in x.completed && n !in x.failed && MetIn(g, final, n)
    ensures Outcome(g[n], x.history[k]) == Outcome(g[n], x.context) == Outcome(g[n], final)
  {
    assert InFlight(g, x, n);
    StageAgrees(g, inputs, final, n, x.history[k]);
    StageAgrees(g, inputs, final, n, x.history[|x.history| - 1]);
  }

  lemma PoppedProgress(g: Graph, inputs: Context, final: Context, x: Execution, n: Name)
    requires Progress(g, inputs, final, x)
    ensures Progress(g, inputs, final, Popped(x, n))
  {
    var y := Popped(x, n);
    forall m | m in y.tasks ensures InFlight(g, y, m) {
      assert InFlight(g, x, m);
    }
  }

  lemma MetLater(g: Graph, c: Context, d: Context, n: Name)
    requires MetIn(g, c, n) && c.Keys <= d.Keys
    ensures MetIn(g, d, n)
  {
  }

  lemma StillInFlight(g: Graph, x: Execution, n: Name, value: Value, m: Name)
    requires x.history != [] && x.history[|x.history| - 1] == x.context
    requires InFlight(g, x, m) && m != n
    ensures InFlight(g, Settle(x, n, Some(value)), m)
  {
    MetLater(g, x.history[|x.history| - 1], x.context[n := value], m);
  }

  /** Stage n joins the context. */
  lemma CompletedProgress(g: Graph, inputs: Context, final: Context, x: Execution, n: Name, value: Value)
    requires Fixed(g, inputs, final) && Progress(g, inputs, final, x)
    requires n !in x.completed && n !in x.tasks
    requires MetIn(g, x.context, n) && Outcome(g[n], x.context) == Some(value)
    ensures Progress(g, inputs, final, Settle(x, n, Some(value)))
  {
    var y := Settle(x, n, Some(value));
    AddSound(g, inputs, final, x.history[|x.history| - 1], n, value);
    forall m | m in y.tasks ensures InFlight(g, y, m) {
      assert InFlight(g, x, m);
      StillInFlight(g, x, n, value, m);
    }
  }

  lemma FailedProgress(g: Graph, inputs: Context, final: Context, x: Execution, n: Name)
    requires Progress(g, inputs, final, x) && n !in x.tasks && n in FailedIn(g, final)
    ensures Progress(g, inputs, final, Settle(x, n, None))
  {
    var y := Settle(x, n, None);
    forall m | m in y.tasks ensures InFlight(g, y, m) {
      assert InFlight(g, x, m);
    }
  }

  /** Stage n, no longer in flight, is settled with the outcome it has now and will have. */
  lemma SettledProgress(g: Graph, inputs: Context, final: Context, x: Execution, n: Name,
                        result: Option<Value>)
    requires Fixed(g, inputs, final) && Progress(g, inputs, final, x)
    requires n !in x.tasks && n !in x.completed && n !in x.failed
    requires MetIn(g, x.context, n) && MetIn(g, final, n)
    requires result == Outcome(g[n], x.context) == Outcome(g[n], final)
    ensures Progress(g, inputs, final, Settle(x, n, result))
    ensures Settle(x, n, result).Settled() == x.Settled() + 1
  {
    if result.Some? {
      CompletedProgress(g, inputs, final, x, n, result.value);
    } else {
      FailedProgress(g, inputs, final, x, n);
    }
  }

  /** Whatever context a finished launch took its outcome from, settling the stage is progress. */
  lemma CollectedProgress(g: Graph, inputs: Context, final: Context, x: Execution, n: Name,
                          result: Option<Value>, y: Execution)
    requires Fixed(g, inputs, final) && Progress(g, inputs, final, x)
    requires n in x.tasks && n in g && OutcomeSince(g[n], x.history, x.tasks[n], result)
    requires y == Settle(Popped(x, n), n, result)
    ensures Progress(g, inputs, final, y) && y.Settled() == x.Settled() + 1 && y.tasks == x.tasks - {n}
    ensures if result.None? then n in FailedIn(g, final) else y.failed == x.failed
  {
    var k :| x.tasks[n] <= k < |x.history| && result == Outcome(g[n], x.history[k]);
    FinishedTask(g, inputs, final, x, n, k);
    PoppedProgress(g, inputs, final, x, n);
    SettledProgress(g, inputs, final, Popped(x, n), n, result);
  }

  lemma TaskKnown(g: Graph, inputs: Context, final: Context, x: Execution, n: Name)
    requires Progress(g, inputs, final, x) && n in x.tasks
    ensures n in g && x.tasks[n] < |x.history|
  {
    assert InFlight(g, x, n);
    assert MetIn(g, x.history[x.tasks[n]], n);
  }

  /** The first k ready stages launched, one after the other. */
  ghost function LaunchedFirst(x: Execution, ready: seq<PipelineStage>, k: nat): (y: Execution)
    requires x.history != [] && k <= |ready|
    ensures y.context == x.context && y.history == x.history
    ensures y.completed == x.completed && y.failed == x.failed
  {
    if k == 0 then x else Launched(LaunchedFirst(x, ready, k - 1), ready[k - 1].name)
  }

  function Room(x: Execution, ready: seq<PipelineStage>, maxConcurrent: nat): (k: nat)
    requires |x.tasks| <= maxConcurrent
    ensures k <= |ready|
  {
    var free := maxConcurrent - |x.tasks|;
    if free < |ready| then free else |ready|
  }

  /** The launching loop: the first ready stages, those in flight included, as many as the limit leaves
      room for. */
  method LaunchReady(ready: seq<PipelineStage>, maxConcurrent: nat, x: Execution) returns (y: Execution)
    requires |x.tasks| <= maxConcurrent && x.history != []
    ensures y == LaunchedFirst(x, ready, Room(x, ready, maxConcurrent))
  {
    y := x;
    var free, k := maxConcurrent - |x.tasks|, 0;
    while k < free && k < |ready|
      invariant 0 <= k <= |ready| && k <= free && y == LaunchedFirst(x, ready, k)
    {
      y := Launched(y, ready[k].name);
      k := k + 1;
    }
  }

  /** After launching, the run is as sound as before, within its limit, and something is in flight. */
  lemma LaunchedState(stages: seq<PipelineStage>, g: Graph, inputs: Context, final: Context,
                      ready: seq<PipelineStage>, maxConcurrent: nat, x: Execution, y: Execution)
    requires Graphs(stages, g) && Progress(g, inputs, final, x) && |x.tasks| <= maxConcurrent
    requires forall i :: 0 <= i < |ready| ==> ready[i] in stages && IsReady(ready[i], x.completed, x.failed)
    requires maxConcurrent >= 1 && (ready != [] || x.tasks != map[])
    requires y == LaunchedFirst(x, ready, Room(x, ready, maxConcurrent))
    ensures Progress(g, inputs, final, y) && |y.tasks| <= maxConcurrent && y.tasks != map[]
    ensures y.Settled() == x.Settled() && y.failed == x.failed
  {
    LaunchedCount(ready, x, Room(x, ready, maxConcurrent));
    LaunchedProgress(stages, g, inputs, final, ready, x, Room(x, ready, maxConcurrent));
  }

  lemma LaunchStep(stages: seq<PipelineStage>, g: Graph, inputs: Context, final: Context, x: Execution,
                   s: PipelineStage)
    requires Graphs(stages, g) && Progress(g, inputs, final, x)
    requires s in stages && IsReady(s, x.completed, x.failed)
    ensures Progress(g, inputs, final, Launched(x, s.name))
  {
    InGraph(stages, g, s);
    LaunchProgress(g, inputs, final, x, s.name);
  }

  lemma {:induction false} LaunchedProgress(stages: seq<PipelineStage>, g: Graph, inputs: Context,
                                            final: Context, ready: seq<PipelineStage>, x: Execution, k: nat)
    requires Graphs(stages, g) && Progress(g, inputs, final, x) && k <= |ready|
    requires forall i :: 0 <= i < |ready| ==> ready[i] in stages && IsReady(ready[i], x.completed, x.failed)
    ensures Progress(g, inputs, final, LaunchedFirst(x, ready, k))
  {
    if k > 0 {
      LaunchedProgress(stages, g, inputs, final, ready, x, k - 1);
      LaunchedNext(stages, g, inputs, final, ready, x, k);
    }
  }

  lemma LaunchedNext(stages: seq<PipelineStage>, g: Graph, inputs: Context, final: Context,
                     ready: seq<PipelineStage>, x: Execution, k: nat)
    requires Graphs(stages, g) && 0 < k <= |ready| && x.history != []
    requires ready[k - 1] in stages && IsReady(ready[k - 1], x.completed, x.failed)
    requires Progress(g, inputs, final, LaunchedFirst(x, ready, k - 1))
    ensures Progress(g, inputs, final, LaunchedFirst(x, ready, k))
  {
    LaunchStep(stages, g, inputs, final, LaunchedFirst(x, ready, k - 1), ready[k - 1]);
  }

  lemma {:induction false} LaunchedCount(ready: seq<PipelineStage>, x: Execution, k: nat)
    requires x.history != [] && k <= |ready|
    ensures |LaunchedFirst(x, ready, k).tasks| <= |x.tasks| + k
    ensures k > 0 || x.tasks != map[] ==> LaunchedFirst(x, ready, k).tasks != map[]
  {
    if k > 0 {
      LaunchedCount(ready, x, k - 1);
      assert ready[k - 1].name in LaunchedFirst(x, ready, k).tasks;
    }
  }

  /** The collecting loop over the tasks that the wait found done. */
  method Collect(stages: seq<PipelineStage>, ghost g: Graph, ghost inputs: Context, ghost final: Context,
                 enableRetry: bool, finished: set<Name>, x: Execution)
    returns (y: Execution, raised: bool)
    requires Graphs(stages, g) && Fixed(g, inputs, final)
    requires Progress(g, inputs, final, x) && finished <= x.tasks.Keys && finished != {}
    requires forall s :: s in stages ==> s.retryCount >= 0
    requires enableRetry || x.failed == {}
    modifies stages
    ensures raised ==> !enableRetry && FailedIn(g, final) != {}
    ensures !raised ==> Progress(g, inputs, final, y) && |y.tasks| <= |x.tasks|
                        && y.Settled() > x.Settled() && (enableRetry || y.failed == {})
    ensures forall s :: s in stages ==> s.retryCount >= 0
  {
    var done := finished;
    y, raised := x, false;
    while done != {}
      invariant done <= y.tasks.Keys && done <= finished && |y.tasks| <= |x.tasks|
      invariant y.Settled() >= x.Settled() && (done != finished ==> y.Settled() > x.Settled())
      invariant Progress(g, inputs, final, y) && (enableRetry || y.failed == {})
      invariant forall s :: s in stages ==> s.retryCount >= 0
      decreases |done|
    {
      var n :| n in done;
      var failed;
      TasksLeft(y.tasks, done, n);
      y, failed := CollectOne(stages, g, inputs, final, y, n);
      done := done - {n};
      if failed && !enableRetry {
        raised := true;
        return;
      }
    }
  }

  lemma TasksLeft(tasks: map<Name, nat>, done: set<Name>, n: Name)
    requires n in done && done <= tasks.Keys
    ensures done - {n} <= (tasks - {n}).Keys && |tasks - {n}| <= |tasks|
  {
    assert (tasks - {n}).Keys == tasks.Keys - {n};
  }

  method CollectOne(stages: seq<PipelineStage>, ghost g: Graph, ghost inputs: Context, ghost final: Context,
                    x: Execution, n: Name)
    returns (y: Execution, failed: bool)
    requires Graphs(stages, g) && Fixed(g, inputs, final) && Progress(g, inputs, final, x) && n in x.tasks
    requires forall s :: s in stages ==> s.retryCount >= 0
    modifies stages
    ensures Progress(g, inputs, final, y) && y.Settled() == x.Settled() + 1 && y.tasks == x.tasks - {n}
    ensures if failed then n in FailedIn(g, final) else y.failed == x.failed
    ensures forall s :: s in stages ==> s.retryCount >= 0
  {
    TaskKnown(g, inputs, final, x, n);
    var result := FinishStage(stages, g, x.history, x.tasks[n], n);
    y, failed := Settle(Popped(x, n), n, result), result.None?;
    CollectedProgress(g, inputs, final, x, n, result, y);
  }

  method FinishStage(stages: seq<PipelineStage>, ghost g: Graph, history: seq<Context>, since: nat, n: Name)
    returns (result: Option<Value>)
    requires Graphs(stages, g) && n in g && since < |history|
    requires forall s :: s in stages ==> s.retryCount >= 0
    modifies stages
    ensures OutcomeSince(g[n], history, since, result)
    ensures forall s :: s in stages ==> s.retryCount >= 0
  {
    var s :| s in stages && s.name == n;
    result := Finish(s, history, since);
    InGraph(stages, g, s);
  }

  lemma StartProgress(g: Graph, inputs: Context)
    requires WellFormed(g, inputs)
    ensures Fixed(g, inputs, Final(g, inputs))
    ensures Progress(g, inputs, Final(g, inputs), Execution(inputs, [inputs], {}, {}, map[]))
  {
    FixpointJustified(g, inputs, inputs);
    FinalIsLeast(g, inputs, inputs);
  }

  /** At the end of the loop every stage that could run is settled. */
  ghost predicate Stopped(g: Graph, x: Execution) {
    forall n :: MetIn(g, x.context, n) ==> n in x.context || n in x.failed
  }

  /** The main loop. */
  method Loop(stages: seq<PipelineStage>, ghost g: Graph, inputs: Context, ghost final: Context, maxConcurrent: nat,
              enableRetry: bool)
    returns (x: Execution, raised: bool)
    requires Graphs(stages, g) && Fixed(g, inputs, final) && maxConcurrent >= 1
    requires Progress(g, inputs, final, Execution(inputs, [inputs], {}, {}, map[]))
    requires forall s :: s in stages ==> s.retryCount >= 0
    modifies stages
    ensures raised ==> !enableRetry && FailedIn(g, final) != {}
    ensures !raised ==> Progress(g, inputs, final, x) && Stopped(g, x)
                        && (enableRetry || x.failed == {})
  {
    x := Execution(inputs, [inputs], {}, {}, map[]);
    raised := false;
    while x.Settled() < |stages|
      invariant Progress(g, inputs, final, x) && |x.tasks| <= maxConcurrent
      invariant enableRetry || x.failed == {}
      invariant forall s :: s in stages ==> s.retryCount >= 0
      decreases |stages| - x.Settled()
    {
      var ready := GetReadyStages(stages, x.completed, x.failed);
      if ready == [] && x.tasks == map[] {
        NothingReady(stages, g, x, ready);
        return;
      }
      x, raised := LaunchAndCollect(stages, g, inputs, final, maxConcurrent, enableRetry, ready, x);
      if raised {
        return;
      }
    }
    Exhausted(stages, g, inputs, final, x);
  }

  /** One turn of the main loop: launches, the wait, and the collecting loop. */
  method LaunchAndCollect(stages: seq<PipelineStage>, ghost g: Graph, ghost inputs: Context, ghost final: Context,
                          maxConcurrent: nat, enableRetry: bool, ready: seq<PipelineStage>, x: Execution)
    returns (y: Execution, raised: bool)
    requires Graphs(stages, g) && Fixed(g, inputs, final) && Progress(g, inputs, final, x)
    requires maxConcurrent >= 1 && |x.tasks| <= maxConcurrent && (enableRetry || x.failed == {})
    requires forall s :: s in ready ==> s in stages && IsReady(s, x.completed, x.failed)
    requires ready != [] || x.tasks != map[]
    requires forall s :: s in stages ==> s.retryCount >= 0
    modifies stages
    ensures raised ==> !enableRetry && FailedIn(g, final) != {}
    ensures !raised ==> Progress(g, inputs, final, y) && |y.tasks| <= maxConcurrent
                        && y.Settled() > x.Settled() && (enableRetry || y.failed == {})
    ensures forall s :: s in stages ==> s.retryCount >= 0
  {
    y := LaunchReady(ready, maxConcurrent, x);
    LaunchedState(stages, g, inputs, final, ready, maxConcurrent, x, y);
    var done: set<Name> :| done != {} && done <= y.tasks.Keys;
    y, raised := Collect(stages, g, inputs, final, enableRetry, done, y);
  }

  /** For every order in which launches finish, every relaunch, every context an attempt may have read
      and every limit on concurrency, the run ends with the same context and the same stages completed
      and failed; it raises exactly when failures are not tolerated and some stage fails. */
  method ExecuteStages(stages: seq<PipelineStage>, inputs: Context, maxConcurrent: nat, enableRetry: bool)
    returns (context: Context, completed: set<Name>, failed: set<Name>, raised: bool)
    requires UniqueNames(stages) && WellFormed(GraphOf(stages), inputs) && maxConcurrent >= 1
    requires forall s :: s in stages ==> s.retryCount >= 0
    modifies stages
    ensures var g := GraphOf(stages);
            var final := Final(g, inputs);
            && raised == (!enableRetry && FailedIn(g, final) != {})
            && (!raised ==> context == final && completed == final.Keys * g.Keys
                            && failed == FailedIn(g, final))
  {
    ghost var g := GraphOf(stages);
    GraphOfGraphs(stages);
    StartProgress(g, inputs);
    var x;
    x, raised := Loop(stages, g, inputs, Final(g, inputs), maxConcurrent, enableRetry);
    if !raised {
      assert Sound(g, inputs, Final(g, inputs), x.history[|x.history| - 1]);
      StoppedIsFinal(g, inputs, x.context, x.failed);
    }
    return x.context, x.completed, x.failed, raised;
  }

  lemma InGraph(stages: seq<PipelineStage>, g: Graph, s: PipelineStage)
    requires Graphs(stages, g) && s in stages
    ensures s.name in g && g[s.name] == s.stage
  {
  }

  lemma NothingReady(stages: seq<PipelineStage>, g: Graph, x: Execution, ready: seq<PipelineStage>)
    requires Graphs(stages, g) && ready == [] && x.completed == x.context.Keys * g.Keys
    requires forall s :: s in ready <==> s in stages && IsReady(s, x.completed, x.failed)
    ensures Stopped(g, x)
  {
    forall n | MetIn(g, x.context, n) ensures n in x.context || n in x.failed {
      var k :| 0 <= k < |stages| && stages[k].name == n;
      assert stages[k] !in ready;
    }
  }
}
