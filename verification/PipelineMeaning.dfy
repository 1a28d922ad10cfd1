/** What a pipeline computes, stage by stage: what each stage is called with and what becomes of its result. */
module PipelineMeaning {
  import opened Hashing
  import opened Sequences
  import opened Pipelines

  /** A literal is passed as it is, a reference to a completed stage as that stage's value, a reference to an
      input as that input, and a reference to anything else as nothing. */
  ghost predicate Receives(g: Graph, inputs: Context, c: Context, arg: Arg, received: Option<Value>) {
    match arg
    case Literal(value) => received == Some(value)
    case Ref(m) =>
      if m in inputs then received == Some(inputs[m])
      else if m in g && m in c then received == Some(c[m])
      else received == None
  }

  ghost predicate CalledWith(g: Graph, inputs: Context, c: Context, n: Name, args: Args)
    requires n in g
  {
    && args.Keys == g[n].template.Keys
    && forall key :: key in g[n].template && key in args ==> Receives(g, inputs, c, g[n].template[key], args[key])
  }

  /** The call ends in the value: the function returns it, or raises and the handler turns the error into it. */
  predicate Yields(stage: Stage, args: Args, value: Value) {
    match stage.func(args)
    case Ok(v) => v == value
    case Err(error) => stage.onError.Some? && stage.onError.value(error) == Ok(value)
  }

  /** All dependencies are stages that completed. */
  predicate Waited(g: Graph, c: Context, n: Name)
    requires n in g
  {
    forall k :: 0 <= k < |g[n].dependsOn| ==> g[n].dependsOn[k] in g && g[n].dependsOn[k] in c
  }

  lemma CalledIsResolved(g: Graph, inputs: Context, c: Context, n: Name, args: Args)
    requires n in g && Within(inputs, c) && c.Keys <= inputs.Keys + g.Keys && CalledWith(g, inputs, c, n, args)
    ensures args == ResolvedArgs(g[n].template, c)
  {
    forall key | key in g[n].template ensures args[key] == Resolved(g[n].template[key], c) {
      assert Receives(g, inputs, c, g[n].template[key], args[key]);
    }
  }

  lemma YieldsIsOutcome(stage: Stage, args: Args, c: Context, value: Value)
    requires args == ResolvedArgs(stage.template, c)
    ensures Yields(stage, args, value) <==> Outcome(stage, c) == Some(value)
  {
  }

  lemma WaitedIsMet(g: Graph, c: Context, n: Name)
    requires n in g
    ensures Waited(g, c, n) <==> Met(g[n], c.Keys * g.Keys)
  {
  }

  /** A stage completes exactly when its dependencies did and the call with their values yields a value, which
      is then its own; it fails exactly when they did and the call yields none. */
  lemma StageMeaning(g: Graph, inputs: Context, n: Name, args: Args)
    requires WellFormed(g, inputs) && n in g && CalledWith(g, inputs, Final(g, inputs), n, args)
    ensures var c := Final(g, inputs);
            && (n in c <==> Waited(g, c, n) && exists value :: Yields(g[n], args, value))
            && (n in c ==> Yields(g[n], args, c[n]))
            && (n in FailedIn(g, c) <==> Waited(g, c, n) && forall value :: !Yields(g[n], args, value))
  {
    var c := Final(g, inputs);
    FinalIsLeast(g, inputs, c);
    CalledIsResolved(g, inputs, c, n, args);
    WaitedIsMet(g, c, n);
    forall value ensures Yields(g[n], args, value) <==> Outcome(g[n], c) == Some(value) {
      YieldsIsOutcome(g[n], args, c, value);
    }
    if Waited(g, c, n) && exists value :: Yields(g[n], args, value) {
      assert Ready(g, c, n);
    }
    if Outcome(g[n], c).Some? {
      assert Yields(g[n], args, Outcome(g[n], c).value);
    }
  }

  /** Every stage is called with some arguments. */
  lemma CallExists(g: Graph, inputs: Context, n: Name) returns (args: Args)
    requires WellFormed(g, inputs) && n in g
    ensures CalledWith(g, inputs, Final(g, inputs), n, args)
  {
    var c := Final(g, inputs);
    FinalIsLeast(g, inputs, c);
    args := ResolvedArgs(g[n].template, c);
    forall key | key in g[n].template && key in args
      ensures Receives(g, inputs, c, g[n].template[key], args[key])
    {
    }
  }

  /** The inputs are in the final context unchanged, and it holds nothing but inputs and stages. */
  lemma InputsStay(g: Graph, inputs: Context)
    requires WellFormed(g, inputs)
    ensures forall i :: i in inputs ==> i in Final(g, inputs) && Final(g, inputs)[i] == inputs[i]
    ensures forall i :: i in Final(g, inputs) ==> i in inputs || i in g
  {
    FinalIsLeast(g, inputs, inputs);
  }

  /** The function gives back its argument. */
  ghost predicate GivesBack(stage: Stage, key: string) {
    forall args: Args :: key in args && args[key].Some? ==> stage.func(args) == Ok(args[key].value)
  }

  /** Data flows along references: a stage that refers to a dependency and gives back that argument ends with
      the dependency's value. */
  lemma ValueFlows(g: Graph, inputs: Context, a: Name, b: Name, key: string)
    requires WellFormed(g, inputs) && a in g && b in g && g[b].dependsOn == [a] && GivesBack(g[b], key)
    requires key in g[b].template && g[b].template[key] == Ref(a) && a in Final(g, inputs)
    ensures b in Final(g, inputs) && Final(g, inputs)[b] == Final(g, inputs)[a]
  {
    var c := Final(g, inputs);
    var args := CallExists(g, inputs, b);
    assert Receives(g, inputs, c, g[b].template[key], args[key]);
    StageMeaning(g, inputs, b, args);
    assert Yields(g[b], args, c[a]);
  }

  /** Likewise for a stage without dependencies that gives back an input it refers to. */
  lemma InputFlows(g: Graph, inputs: Context, i: Name, b: Name, key: string)
    requires WellFormed(g, inputs) && i in inputs && b in g && g[b].dependsOn == [] && GivesBack(g[b], key)
    requires key in g[b].template && g[b].template[key] == Ref(i)
    ensures b in Final(g, inputs) && Final(g, inputs)[b] == inputs[i]
  {
    var args := CallExists(g, inputs, b);
    assert Receives(g, inputs, Final(g, inputs), g[b].template[key], args[key]);
    StageMeaning(g, inputs, b, args);
    assert Yields(g[b], args, inputs[i]);
  }

  /** A stage that raises whatever it is given ends with what its handler makes of the error, or fails. */
  lemma HandlerDecides(g: Graph, inputs: Context, n: Name, error: string)
    requires WellFormed(g, inputs) && n in g && Waited(g, Final(g, inputs), n)
    requires forall args: Args :: g[n].func(args) == Err(error)
    ensures var c := Final(g, inputs);
            if g[n].onError.Some? && g[n].onError.value(error).Ok?
            then n in c && c[n] == g[n].onError.value(error).value
            else n in FailedIn(g, c) && n !in c
  {
    var args := CallExists(g, inputs, n);
    StageMeaning(g, inputs, n, args);
    if g[n].onError.Some? && g[n].onError.value(error).Ok? {
      assert Yields(g[n], args, g[n].onError.value(error).value);
    }
  }

  /** How often a stage is attempted: never more than its retries allow, and less often only if an attempt did
      not raise; the result is then that attempt's, and otherwise the handler's. */
  lemma AttemptsMade(stage: Stage, snapshots: seq<Context>, k: nat, before: int, after: int, result: Option<Value>)
    requires LastAttempt(stage, snapshots, k, before, after, result)
    ensures k == 0 || before + k <= stage.maxRetries
    ensures var last := stage.func(ResolvedArgs(stage.template, snapshots[k]));
            && (before + k < stage.maxRetries ==> last.Ok?)
            && (last.Ok? ==> result == Some(last.value))
            && (last.Err? && stage.onError.None? ==> result == None)
            && (forall i :: 0 <= i < k ==> stage.func(ResolvedArgs(stage.template, snapshots[i])).Err?)
  {
    if k > 0 {
      assert Raises(stage, snapshots[k - 1]) && before + (k - 1) < stage.maxRetries;
    }
    forall i | 0 <= i < k ensures stage.func(ResolvedArgs(stage.template, snapshots[i])).Err? {
      assert Raises(stage, snapshots[i]);
    }
  }

  /** What the executor may start: stages neither completed nor failed whose dependencies completed. */
  function MayStart(completed: set<Name>, failed: set<Name>): PipelineStage -> bool {
    (s: PipelineStage) =>
      s.name !in completed + failed && forall d :: d in s.stage.dependsOn ==> d in completed
  }

  /** The ready stages are the stages that may start, in the order of the pipeline. */
  lemma {:induction false} ReadyMeaning(stages: seq<PipelineStage>, completed: set<Name>, failed: set<Name>)
    ensures ReadyStages(stages, completed, failed) == Filter(MayStart(completed, failed), stages)
  {
    if stages != [] {
      ReadyMeaning(stages[..|stages| - 1], completed, failed);
      ReadyIff(stages[|stages| - 1], completed, failed);
    }
  }

  lemma ReadyIff(s: PipelineStage, completed: set<Name>, failed: set<Name>)
    ensures IsReady(s, completed, failed) <==> MayStart(completed, failed)(s)
  {
    assert (forall d :: d in s.stage.dependsOn ==> d in completed) <==> Met(s.stage, completed);
  }

  /** The named stages are in flight with the present context, besides what was, and nothing else differs. */
  ghost predicate InFlightNow(x: Execution, y: Execution, names: set<Name>) {
    && y == x.(tasks := y.tasks) && y.tasks.Keys == x.tasks.Keys + names
    && forall n :: n in y.tasks ==> y.tasks[n] == if n in names then |x.history| - 1 else x.tasks[n]
  }

  lemma {:induction false} FirstLaunched(x: Execution, ready: seq<PipelineStage>, k: nat)
    requires x.history != [] && k <= |ready|
    ensures InFlightNow(x, LaunchedFirst(x, ready, k), Elements(NamesOf(ready[..k])))
  {
    if k > 0 {
      FirstLaunched(x, ready, k - 1);
      NamesNext(ready, k);
    } else {
      assert NamesOf(ready[..0]) == [];
    }
  }

  lemma NamesNext(ready: seq<PipelineStage>, k: nat)
    requires 0 < k <= |ready|
    ensures Elements(NamesOf(ready[..k])) == Elements(NamesOf(ready[..k - 1])) + {ready[k - 1].name}
  {
    assert NamesOf(ready[..k]) == NamesOf(ready[..k - 1]) + [ready[k - 1].name];
  }

  /** Launching puts the first ready stages in flight, as many as the limit leaves room for, with the present
      context; what was in flight stays, and a stage launched again counts from now. */
  lemma LaunchMeaning(x: Execution, ready: seq<PipelineStage>, maxConcurrent: nat)
    requires x.history != [] && |x.tasks| <= maxConcurrent
    ensures var free := maxConcurrent - |x.tasks|;
            var first := if free < |ready| then free else |ready|;
            InFlightNow(x, LaunchedFirst(x, ready, Room(x, ready, maxConcurrent)), Elements(NamesOf(ready[..first])))
  {
    var free := maxConcurrent - |x.tasks|;
    var first := if free < |ready| then free else |ready|;
    FirstLaunched(x, ready, first);
  }
}
