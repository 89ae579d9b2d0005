/** The provenance summary (`buildOnePathSummary`): a bounded depth-first search over the
    reverse index for one way of making a target from base elements, preferring input pairs
    the player already has. */
module Provenance {
  import opened Util
  import opened Alias
  import opened PairKey
  import opened RecipeIndex
  import opened StableSort

  /** `MAX_DEPTH`: the search gives up below this depth. */
  const MaxDepth: nat := 8
  /** `MAX_STEPS`: the search gives up once more steps than this are recorded. */
  const MaxSteps: nat := 22

  /** One displayed step `a + b → out`. */
  datatype Step = Step(a: string, b: string, out: string)

  /** What the search reads: the reverse index, `baseSet` and `discSet`. */
  datatype Ctx = Ctx(producers: map<string, seq<Pair>>, base: set<string>, disc: set<string>)

  /** What the search threads through its calls: the `visited` set and the `steps` list,
      both shared by every branch. */
  datatype Search = Search(visited: set<string>, steps: seq<Step>)

  /** The search context for the current discovery state: `baseSet` is the resolved base
      elements and `discSet` the resolved base and combined elements. */
  function MakeCtx(aliases: Aliases, producers: map<string, seq<Pair>>,
                   base: seq<string>, combined: seq<string>): (ctx: Ctx)
    ensures ctx.base <= ctx.disc
    ensures forall x :: x in ctx.base <==> x in ResolveAll(aliases, base)
    ensures forall x :: x in ctx.disc <==> x in ResolveAll(aliases, base + combined)
  {
    var rb := ResolveAll(aliases, base);
    var rd := ResolveAll(aliases, base + combined);
    assert forall i :: 0 <= i < |rb| ==> rb[i] == rd[i];
    Ctx(producers, set x | x in rb, set x | x in rd)
  }

  /** The preference score of a pair: one point per input already discovered, one more per
      input that is a base element. */
  function Score(ctx: Ctx, p: Pair): (n: nat)
    ensures n <= 4
  {
    (if p.a in ctx.disc then 1 else 0) + (if p.b in ctx.disc then 1 else 0)
    + (if p.a in ctx.base then 1 else 0) + (if p.b in ctx.base then 1 else 0)
  }

  /** The score as a sort key. */
  function ScoreKey(ctx: Ctx): Pair -> nat {
    p => Score(ctx, p)
  }

  /** `choosePairsFor(tgt)`: the producer pairs of `tgt` (a fresh copy) stably sorted by
      descending score; a permutation of the producer list, highest score first. */
  function ChoosePairs(ctx: Ctx, tgt: string): (r: seq<Pair>)
    ensures multiset(r) == multiset(Get(ctx.producers, tgt))
  {
    SortBy(ScoreKey(ctx), Get(ctx.producers, tgt))
  }

  /** `choosePairsFor` lists the pairs highest score first. */
  lemma ChoosePairsDescending(ctx: Ctx, tgt: string)
    ensures var r := ChoosePairs(ctx, tgt);
      forall i, j :: 0 <= i < j < |r| ==> Score(ctx, r[i]) >= Score(ctx, r[j])
  {
    assert Descending(ScoreKey(ctx), ChoosePairs(ctx, tgt));
  }

  /** `choosePairsFor` keeps, for every score, the producer list's order among the pairs
      with that score. */
  lemma ChoosePairsStable(ctx: Ctx, tgt: string, m: nat)
    ensures WithKey(ScoreKey(ctx), ChoosePairs(ctx, tgt), m)
      == WithKey(ScoreKey(ctx), Get(ctx.producers, tgt), m)
  {
    SortByStable(ScoreKey(ctx), Get(ctx.producers, tgt), m);
  }

  /** Every pair `choosePairsFor` lists is a producer pair of the target. */
  lemma ChoosePairsMembers(ctx: Ctx, tgt: string)
    ensures forall i :: 0 <= i < |ChoosePairs(ctx, tgt)| ==> ChoosePairs(ctx, tgt)[i] in Get(ctx.producers, tgt)
  {
    var r := ChoosePairs(ctx, tgt);
    assert forall i :: 0 <= i < |r| ==> r[i] in multiset(Get(ctx.producers, tgt));
  }

  /** `x` is available after `steps`: it is a base element or some step produced it. */
  predicate Obtained(base: set<string>, steps: seq<Step>, x: string) {
    x in base || exists j :: 0 <= j < |steps| && steps[j].out == x
  }

  /** Every step lists a pair of the reverse index for its output. */
  predicate Sound(ctx: Ctx, steps: seq<Step>) {
    forall i :: 0 <= i < |steps| ==> Pair(steps[i].a, steps[i].b) in Get(ctx.producers, steps[i].out)
  }

  /** The steps can be carried out in the listed order: both inputs of every step are base
      elements or outputs of earlier steps. */
  predicate Chronological(base: set<string>, steps: seq<Step>) {
    forall i :: 0 <= i < |steps| ==>
      Obtained(base, steps[..i], steps[i].a) && Obtained(base, steps[..i], steps[i].b)
  }

  /** Appending one step whose inputs are already available keeps the list chronological. */
  lemma ChronologicalPush(base: set<string>, steps: seq<Step>, s: Step)
    requires Chronological(base, steps)
    requires Obtained(base, steps, s.a) && Obtained(base, steps, s.b)
    ensures Chronological(base, steps + [s])
  {
    var steps' := steps + [s];
    forall i | 0 <= i < |steps'|
      ensures Obtained(base, steps'[..i], steps'[i].a) && Obtained(base, steps'[..i], steps'[i].b)
    {
      if i < |steps| {
        assert steps'[..i] == steps[..i];
      } else {
        assert steps'[..i] == steps;
      }
    }
  }

  /** A list of steps the search may show: sound and chronological. */
  predicate Valid(ctx: Ctx, steps: seq<Step>) {
    Sound(ctx, steps) && Chronological(ctx.base, steps)
  }

  /** What is available stays available as steps are added. */
  lemma ObtainedGrows(base: set<string>, steps: seq<Step>, steps': seq<Step>, x: string)
    requires steps <= steps' && Obtained(base, steps, x)
    ensures Obtained(base, steps', x)
  {
    if x !in base {
      var j :| 0 <= j < |steps| && steps[j].out == x;
      assert steps'[j] == steps[j];
    }
  }

  /** Recording a sound step whose inputs are available keeps the list valid. */
  lemma ValidPush(ctx: Ctx, steps: seq<Step>, s: Step)
    requires Valid(ctx, steps)
    requires Pair(s.a, s.b) in Get(ctx.producers, s.out)
    requires Obtained(ctx.base, steps, s.a) && Obtained(ctx.base, steps, s.b)
    ensures Valid(ctx, steps + [s])
  {
    ChronologicalPush(ctx.base, steps, s);
    var steps' := steps + [s];
    assert forall i :: 0 <= i < |steps| ==> steps'[i] == steps[i];
  }

  /** `dfs(tgt, depth)`: whether `tgt` can be made, recording the steps that make it. A
      successful search for an element that is not a base element ends with the step making
      it. */
  function Dfs(ctx: Ctx, tgt: string, depth: nat, st: Search): (res: (bool, Search))
    requires depth <= MaxDepth + 1
    ensures st.steps <= res.1.steps
    ensures |res.1.steps| <= Max(|st.steps|, MaxSteps + MaxDepth + 1 - depth)
    ensures res.0 && tgt !in ctx.base ==>
      |res.1.steps| > |st.steps| && res.1.steps[|res.1.steps| - 1].out == tgt
    decreases MaxDepth + 1 - depth, 1, 0
  {
    if depth > MaxDepth || |st.steps| > MaxSteps then (false, st)
    else if tgt in ctx.base then (true, st)
    else if tgt in st.visited then (false, st)
    else
      var st1 := st.(visited := st.visited + {tgt});
      var options := ChoosePairs(ctx, tgt);
      if |options| == 0 then (tgt in ctx.base, st1)
      else TryOptions(ctx, tgt, depth, options, st1)
  }

  /** `baseSet.has(x) || dfs(x, depth)`: one input of an option. */
  function Input(ctx: Ctx, x: string, depth: nat, st: Search): (res: (bool, Search))
    requires depth <= MaxDepth + 1
    ensures st.steps <= res.1.steps
    ensures |res.1.steps| <= Max(|st.steps|, MaxSteps + MaxDepth + 1 - depth)
    ensures res.0 && x !in ctx.base ==>
      |res.1.steps| > |st.steps| && res.1.steps[|res.1.steps| - 1].out == x
    decreases MaxDepth + 1 - depth, 2, 0
  {
    if x in ctx.base then (true, st) else Dfs(ctx, x, depth, st)
  }

  /** The `for` loop of `dfs` over the remaining options: the first option whose two inputs
      are both obtained records its step and ends the loop. Steps recorded while trying a
      failed option stay recorded, and `okB` is evaluated even when `okA` is false. */
  function TryOptions(ctx: Ctx, tgt: string, depth: nat, opts: seq<Pair>, st: Search)
    : (res: (bool, Search))
    requires depth <= MaxDepth
    ensures st.steps <= res.1.steps
    ensures |res.1.steps| <= Max(|st.steps|, MaxSteps + MaxDepth - depth) + 1
    ensures res.0 ==> |res.1.steps| > |st.steps| && res.1.steps[|res.1.steps| - 1].out == tgt
    decreases MaxDepth + 1 - depth, 0, |opts|
  {
    if |opts| == 0 then (false, st)
    else
      var p := opts[0];
      var ra := Input(ctx, p.a, depth + 1, st);
      var rb := Input(ctx, p.b, depth + 1, ra.1);
      if ra.0 && rb.0 then (true, rb.1.(steps := rb.1.steps + [Step(p.a, p.b, tgt)]))
      else TryOptions(ctx, tgt, depth, opts[1..], rb.1)
  }

  /** The search only records steps that are producer pairs of their outputs and whose inputs
      are available when they are recorded. */
  lemma {:induction false} DfsValid(ctx: Ctx, tgt: string, depth: nat, st: Search)
    requires depth <= MaxDepth + 1
    requires Valid(ctx, st.steps)
    ensures Valid(ctx, Dfs(ctx, tgt, depth, st).1.steps)
    decreases MaxDepth + 1 - depth, 1, 0
  {
    if depth <= MaxDepth && |st.steps| <= MaxSteps && tgt !in ctx.base && tgt !in st.visited {
      var options := ChoosePairs(ctx, tgt);
      if |options| > 0 {
        ChoosePairsMembers(ctx, tgt);
        TryOptionsValid(ctx, tgt, depth, options, st.(visited := st.visited + {tgt}));
      }
    }
  }

  /** One input keeps the recorded steps valid, and when it succeeds the input is available. */
  lemma {:induction false} InputValid(ctx: Ctx, x: string, depth: nat, st: Search)
    requires depth <= MaxDepth + 1
    requires Valid(ctx, st.steps)
    ensures var res := Input(ctx, x, depth, st);
      Valid(ctx, res.1.steps) && (res.0 ==> Obtained(ctx.base, res.1.steps, x))
    decreases MaxDepth + 1 - depth, 2, 0
  {
    if x !in ctx.base {
      DfsValid(ctx, x, depth, st);
    }
  }

  /** The loop over the options keeps the recorded steps valid. */
  lemma {:induction false} TryOptionsValid(ctx: Ctx, tgt: string, depth: nat, opts: seq<Pair>, st: Search)
    requires depth <= MaxDepth
    requires forall i :: 0 <= i < |opts| ==> opts[i] in Get(ctx.producers, tgt)
    requires Valid(ctx, st.steps)
    ensures Valid(ctx, TryOptions(ctx, tgt, depth, opts, st).1.steps)
    decreases MaxDepth + 1 - depth, 0, |opts|
  {
    if |opts| > 0 {
      var p := opts[0];
      var ra := Input(ctx, p.a, depth + 1, st);
      InputValid(ctx, p.a, depth + 1, st);
      var rb := Input(ctx, p.b, depth + 1, ra.1);
      InputValid(ctx, p.b, depth + 1, ra.1);
      if ra.0 && rb.0 {
        ObtainedGrows(ctx.base, ra.1.steps, rb.1.steps, p.a);
        ValidPush(ctx, rb.1.steps, Step(p.a, p.b, tgt));
      } else {
        TryOptionsValid(ctx, tgt, depth, opts[1..], rb.1);
      }
    }
  }

  /** The search from a resolved target at depth 0 with nothing visited and no steps: the
      recorded steps on success, `[]` on failure, in the order `dfs` pushes them. */
  function Search0(ctx: Ctx, tgt: string): (r: seq<Step>)
    ensures |r| <= MaxSteps + MaxDepth + 1
    ensures Valid(ctx, r)
    ensures |r| > 0 ==> r[|r| - 1].out == tgt
    ensures r != [] <==> Dfs(ctx, tgt, 0, Search({}, [])).0 && tgt !in ctx.base
  {
    assert Valid(ctx, []);
    DfsValid(ctx, tgt, 0, Search({}, []));
    var res := Dfs(ctx, tgt, 0, Search({}, []));
    if res.0 then res.1.steps else []
  }

  /** Reading sound steps in the opposite order keeps them sound. */
  lemma SoundReverse(ctx: Ctx, steps: seq<Step>)
    requires Sound(ctx, steps)
    ensures Sound(ctx, Reverse(steps))
  {
    var r := Reverse(steps);
    assert forall i :: 0 <= i < |r| ==> r[i] == steps[|steps| - 1 - i];
  }

  /** `buildOnePathSummary(target)` as written: the recorded steps reversed on success, `[]`
      on failure. */
  function PathSummaryAsWritten(aliases: Aliases, ctx: Ctx, target: string): (r: seq<Step>)
    ensures |r| <= MaxSteps + MaxDepth + 1
    ensures Sound(ctx, r)
    ensures |r| > 0 ==> r[0].out == Resolve(aliases, target)
    ensures r != [] <==> var tgt := Resolve(aliases, target);
      Dfs(ctx, tgt, 0, Search({}, [])).0 && tgt !in ctx.base
  {
    var steps := Search0(ctx, Resolve(aliases, target));
    SoundReverse(ctx, steps);
    Reverse(steps)
  }

  /** `buildOnePathSummary(target)` with the order its comment promises: the steps from the
      leaves to the target, each step's inputs made before it is carried out, and the last
      step making the target. */
  function PathSummary(aliases: Aliases, ctx: Ctx, target: string): (r: seq<Step>)
    ensures |r| <= MaxSteps + MaxDepth + 1
    ensures Sound(ctx, r)
    ensures Chronological(ctx.base, r)
    ensures |r| > 0 ==> r[|r| - 1].out == Resolve(aliases, target)
    ensures r != [] <==> var tgt := Resolve(aliases, target);
      Dfs(ctx, tgt, 0, Search({}, [])).0 && tgt !in ctx.base
  {
    Search0(ctx, Resolve(aliases, target))
  }

  /** The corrected summary is the as-written one read in the opposite order. */
  lemma PathSummaryIsReversed(aliases: Aliases, ctx: Ctx, target: string)
    ensures PathSummary(aliases, ctx, target) == Reverse(PathSummaryAsWritten(aliases, ctx, target))
  {
    ReverseReverse(Search0(ctx, Resolve(aliases, target)));
  }

  /** A target that resolves to a base element has an empty summary. */
  lemma BaseTargetHasEmptyPath(aliases: Aliases, ctx: Ctx, target: string)
    requires Resolve(aliases, target) in ctx.base
    ensures PathSummary(aliases, ctx, target) == []
    ensures PathSummaryAsWritten(aliases, ctx, target) == []
  {
  }

  /** A non-empty summary makes the target: the search succeeded on a target that is not a
      base element. */
  lemma NonEmptyPathMakesTarget(aliases: Aliases, ctx: Ctx, target: string)
    requires PathSummary(aliases, ctx, target) != []
    ensures Resolve(aliases, target) !in ctx.base
    ensures Obtained(ctx.base, PathSummary(aliases, ctx, target), Resolve(aliases, target))
  {
    var r := PathSummary(aliases, ctx, target);
    assert r[|r| - 1].out == Resolve(aliases, target);
  }

  /** A world where the search makes `t` in two steps: `t` has the one producer pair
      `a + y`, `a` has the one producer pair `x + y`, `x` and `y` are base elements and
      `a` and `t` are not. */
  predicate TwoStepWorld(ctx: Ctx, t: string, a: string, x: string, y: string) {
    && Get(ctx.producers, t) == [Pair(a, y)] && Get(ctx.producers, a) == [Pair(x, y)]
    && x in ctx.base && y in ctx.base && a !in ctx.base && t !in ctx.base && a != t
  }

  /** A producer list with one pair is its own sorted order. */
  lemma ChoosePairsSingle(ctx: Ctx, tgt: string, p: Pair)
    requires Get(ctx.producers, tgt) == [p]
    ensures ChoosePairs(ctx, tgt) == [p]
  {
    var r := ChoosePairs(ctx, tgt);
    assert multiset(r) == multiset{p};
    assert |r| == 1 && p in multiset(r);
  }

  /** The option `x + y` for `a` succeeds at once, both inputs being base elements. */
  lemma TwoStepInnerOption(ctx: Ctx, t: string, a: string, x: string, y: string)
    requires TwoStepWorld(ctx, t, a, x, y)
    ensures TryOptions(ctx, a, 1, [Pair(x, y)], Search({t, a}, []))
      == (true, Search({t, a}, [Step(x, y, a)]))
  {
    var st1 := Search({t, a}, []);
    assert Input(ctx, x, 2, st1) == (true, st1);
    assert Input(ctx, y, 2, st1) == (true, st1);
    assert [Pair(x, y)][0] == Pair(x, y);
    assert st1.steps + [Step(x, y, a)] == [Step(x, y, a)];
  }

  /** Searching for `a` below `t` makes it from the two base elements. */
  lemma TwoStepInner(ctx: Ctx, t: string, a: string, x: string, y: string)
    requires TwoStepWorld(ctx, t, a, x, y)
    ensures Dfs(ctx, a, 1, Search({t}, [])) == (true, Search({t, a}, [Step(x, y, a)]))
  {
    assert Dfs(ctx, a, 1, Search({t}, [])) == TryOptions(ctx, a, 1, [Pair(x, y)], Search({t, a}, [])) by {
      ChoosePairsSingle(ctx, a, Pair(x, y));
      assert {t} + {a} == {t, a};
    }
    TwoStepInnerOption(ctx, t, a, x, y);
  }

  /** With `a` made, the option `a + y` for `t` succeeds and records its step after it. */
  lemma TwoStepOption(ctx: Ctx, t: string, a: string, x: string, y: string)
    requires TwoStepWorld(ctx, t, a, x, y)
    ensures TryOptions(ctx, t, 0, [Pair(a, y)], Search({t}, []))
      == (true, Search({t, a}, [Step(x, y, a), Step(a, y, t)]))
  {
    var st2 := Search({t, a}, [Step(x, y, a)]);
    assert Input(ctx, a, 1, Search({t}, [])) == (true, st2) by {
      TwoStepInner(ctx, t, a, x, y);
    }
    assert [Pair(a, y)][0] == Pair(a, y);
    assert st2.steps + [Step(a, y, t)] == [Step(x, y, a), Step(a, y, t)];
  }

  /** The search for `t` records the step making `a` first and the step making `t` last. */
  lemma TwoStepSearch(ctx: Ctx, t: string, a: string, x: string, y: string)
    requires TwoStepWorld(ctx, t, a, x, y)
    ensures Search0(ctx, t) == [Step(x, y, a), Step(a, y, t)]
  {
    assert Dfs(ctx, t, 0, Search({}, [])) == TryOptions(ctx, t, 0, [Pair(a, y)], Search({t}, [])) by {
      ChoosePairsSingle(ctx, t, Pair(a, y));
      assert {} + {t} == {t};
    }
    TwoStepOption(ctx, t, a, x, y);
  }

  /** In such a world the as-written summary lists `a + y → t` first, before the step that
      makes `a`, so it is not chronological; the corrected summary lists the steps leaves
      first. */
  lemma AsWrittenIsNotChronological(aliases: Aliases, ctx: Ctx, target: string, a: string, x: string, y: string)
    requires TwoStepWorld(ctx, Resolve(aliases, target), a, x, y)
    ensures var t := Resolve(aliases, target);
      PathSummaryAsWritten(aliases, ctx, target) == [Step(a, y, t), Step(x, y, a)]
    ensures !Chronological(ctx.base, PathSummaryAsWritten(aliases, ctx, target))
    ensures var t := Resolve(aliases, target);
      PathSummary(aliases, ctx, target) == [Step(x, y, a), Step(a, y, t)]
  {
    var t := Resolve(aliases, target);
    TwoStepSearch(ctx, t, a, x, y);
    var r := PathSummaryAsWritten(aliases, ctx, target);
    assert r == Reverse([Step(x, y, a), Step(a, y, t)]);
    assert r == [Step(a, y, t), Step(x, y, a)];
    assert !Obtained(ctx.base, r[..0], r[0].a);
  }

  /** One such world: `Atomo` is made from the two starting elements and `Estrella` from
      `Atomo` and `Expansión`. */
  lemma TwoStepWorldExists()
    ensures TwoStepWorld(
      Ctx(map["Estrella" := [Pair("Atomo", "Expansión")], "Atomo" := [Pair("Singularidad", "Expansión")]],
          {"Singularidad", "Expansión"}, {"Singularidad", "Expansión"}),
      "Estrella", "Atomo", "Singularidad", "Expansión")
  {
  }
}
