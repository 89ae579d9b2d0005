/** The recipe indices built once the data file is loaded, and the pure lookup
    `combineElements`. The forward index `recipeMap` maps a pair key to the
    duplicate-free outputs of every recipe for that pair; the reverse index
    `producers` maps an output to the list of input pairs that make it. */
module RecipeIndex {
  import opened Util
  import opened Text
  import opened Alias
  import opened PairKey

  /** One entry of the data file's `recipes` list. `None` stands for a field that is
      missing or, for `inputs`, not an array. */
  datatype RawRecipe = RawRecipe(inputs: Option<seq<string>>, outputs: Option<seq<string>>)

  datatype Index = Index(recipeMap: map<string, seq<string>>, producers: map<string, seq<Pair>>)

  const EmptyIndex: Index := Index(map[], map[])

  /** `map.get(k) || []`. */
  function Get<V>(m: map<string, seq<V>>, k: string): seq<V> {
    if k in m then m[k] else []
  }

  /** The build only uses entries whose `inputs` is an array of exactly two names. */
  predicate Kept(r: RawRecipe) {
    r.inputs.Some? && |r.inputs.value| == 2
  }

  /** The resolved inputs, in the entry's own order. */
  function InputsOf(env: Env, r: RawRecipe): Pair
    requires Kept(r)
  {
    Pair(Resolve(env.aliases, r.inputs.value[0]), Resolve(env.aliases, r.inputs.value[1]))
  }

  /** The key the entry is filed under: `keyFor` of the already resolved inputs. */
  function KeyOf(env: Env, r: RawRecipe): string
    requires Kept(r)
  {
    KeyFor(env, InputsOf(env, r).a, InputsOf(env, r).b)
  }

  /** `(outputs || []).map(o => resolveAlias(o))`. */
  function OutputsOf(env: Env, r: RawRecipe): seq<string> {
    ResolveAll(env.aliases, r.outputs.GetOr([]))
  }

  /** Appends the pair to the producer list of each output in turn; an output listed
      twice gets the pair twice. */
  function AddProducers(prods: map<string, seq<Pair>>, outs: seq<string>, p: Pair)
    : (r: map<string, seq<Pair>>)
    ensures forall o :: o in r <==> o in prods || o in outs
    ensures forall o, q :: q in Get(r, o) <==> q in Get(prods, o) || (q == p && o in outs)
    ensures forall o :: Get(prods, o) <= Get(r, o)
    decreases |outs|
  {
    if |outs| == 0 then prods
    else
      var r := AddProducers(prods[outs[0] := Get(prods, outs[0]) + [p]], outs[1..], p);
      assert forall o :: o in outs <==> o == outs[0] || o in outs[1..];
      r
  }

  /** The forward-index update for one entry: the outputs under key `k` become the earlier
      outputs followed by the new ones, duplicates removed. Earlier outputs are never
      replaced and no other key changes. */
  function Merge(m: map<string, seq<string>>, k: string, outs: seq<string>)
    : (m': map<string, seq<string>>)
    ensures k in m' && NoDup(m'[k])
    ensures forall o :: o in m'[k] <==> o in Get(m, k) || o in outs
    ensures NoDup(Get(m, k)) ==> Get(m, k) <= m'[k]
    ensures forall k' :: k' != k ==> (k' in m' <==> k' in m) && Get(m', k') == Get(m, k')
  {
    var prior := Get(m, k);
    var merged := Dedup(prior + outs);
    assert NoDup(prior) ==> prior <= merged by {
      if NoDup(prior) {
        DedupOfNoDup(prior);
        DedupExtends(prior, outs);
      }
    }
    m[k := merged]
  }

  /** The merged outputs are listed in order of first appearance in the earlier outputs
      followed by the new ones. */
  lemma MergeFirstSeen(m: map<string, seq<string>>, k: string, outs: seq<string>)
    ensures forall i, j :: 0 <= i < j < |Merge(m, k, outs)[k]| ==>
      FirstIndex(Get(m, k) + outs, Merge(m, k, outs)[k][i]) < FirstIndex(Get(m, k) + outs, Merge(m, k, outs)[k][j])
  {
    DedupOrder(Get(m, k) + outs);
  }

  /** What the build loop computes for one entry before touching the indices: the key,
      the resolved input pair and the resolved outputs; `None` for an entry it skips. */
  datatype Entry = Entry(key: string, inputs: Pair, outputs: seq<string>)

  function EntryOf(env: Env, r: RawRecipe): (e: Option<Entry>)
    ensures e.Some? <==> Kept(r)
  {
    if Kept(r) then Some(Entry(KeyOf(env, r), InputsOf(env, r), OutputsOf(env, r))) else None
  }

  /** The entries of the whole recipe list, position by position. */
  function Entries(env: Env, rs: seq<RawRecipe>): (es: seq<Option<Entry>>)
    ensures |es| == |rs|
    ensures forall i :: 0 <= i < |rs| ==> es[i] == EntryOf(env, rs[i])
  {
    seq(|rs|, i requires 0 <= i < |rs| => EntryOf(env, rs[i]))
  }

  /** One iteration of the build loop; a skipped entry changes nothing. */
  function AddEntry(idx: Index, e: Option<Entry>): Index {
    match e
    case None => idx
    case Some(en) =>
      Index(Merge(idx.recipeMap, en.key, en.outputs),
            AddProducers(idx.producers, en.outputs, en.inputs))
  }

  /** The build loop over a list of entries, in list order. */
  function BuildFrom(es: seq<Option<Entry>>): (idx: Index)
    ensures forall k :: k in idx.recipeMap ==> NoDup(idx.recipeMap[k])
    decreases |es|
  {
    if |es| == 0 then EmptyIndex
    else AddEntry(BuildFrom(es[..|es| - 1]), es[|es| - 1])
  }

  /** The indices built from the data file's recipe list. */
  function Build(env: Env, rs: seq<RawRecipe>): Index {
    BuildFrom(Entries(env, rs))
  }

  /** Some kept entry is filed under key `k`. */
  ghost predicate FeedsKey(es: seq<Option<Entry>>, k: string) {
    exists i :: 0 <= i < |es| && es[i].Some? && es[i].value.key == k
  }

  /** Some kept entry filed under key `k` lists (after resolution) the output `o`. */
  ghost predicate Yields(es: seq<Option<Entry>>, k: string, o: string) {
    exists i :: 0 <= i < |es| && es[i].Some? && es[i].value.key == k && o in es[i].value.outputs
  }

  /** Some kept entry with resolved inputs `p` lists the output `o`. */
  ghost predicate Produces(es: seq<Option<Entry>>, o: string, p: Pair) {
    exists i :: 0 <= i < |es| && es[i].Some? && es[i].value.inputs == p && o in es[i].value.outputs
  }

  /** One build step adds the entry's key and nothing else. */
  lemma AddEntryKeys(idx: Index, e: Option<Entry>, k: string)
    ensures k in AddEntry(idx, e).recipeMap <==> k in idx.recipeMap || (e.Some? && e.value.key == k)
  {
  }

  /** One build step adds the entry's outputs under its key and nothing else. */
  lemma AddEntryForward(idx: Index, e: Option<Entry>, k: string, o: string)
    ensures o in Get(AddEntry(idx, e).recipeMap, k) <==>
      o in Get(idx.recipeMap, k) || (e.Some? && e.value.key == k && o in e.value.outputs)
  {
  }

  /** One build step adds the entry's input pair for each of its outputs and nothing else. */
  lemma AddEntryReverse(idx: Index, e: Option<Entry>, o: string, p: Pair)
    ensures p in Get(AddEntry(idx, e).producers, o) <==>
      p in Get(idx.producers, o) || (e.Some? && e.value.inputs == p && o in e.value.outputs)
  {
  }

  /** `FeedsKey` of a list is `FeedsKey` of all but its last entry, or the last entry. */
  lemma FeedsKeySnoc(es: seq<Option<Entry>>, k: string)
    requires |es| > 0
    ensures var last := es[|es| - 1];
      FeedsKey(es, k) <==> FeedsKey(es[..|es| - 1], k) || (last.Some? && last.value.key == k)
  {
    var init := es[..|es| - 1];
    if FeedsKey(init, k) {
      var i :| 0 <= i < |init| && init[i].Some? && init[i].value.key == k;
      assert es[i] == init[i];
    }
    if FeedsKey(es, k) {
      var i :| 0 <= i < |es| && es[i].Some? && es[i].value.key == k;
      if i < |init| {
        assert init[i] == es[i];
      }
    }
  }

  /** `Yields` of a list is `Yields` of all but its last entry, or the last entry. */
  lemma YieldsSnoc(es: seq<Option<Entry>>, k: string, o: string)
    requires |es| > 0
    ensures var last := es[|es| - 1];
      Yields(es, k, o) <==>
        Yields(es[..|es| - 1], k, o) || (last.Some? && last.value.key == k && o in last.value.outputs)
  {
    var init := es[..|es| - 1];
    if Yields(init, k, o) {
      var i :| 0 <= i < |init| && init[i].Some? && init[i].value.key == k && o in init[i].value.outputs;
      assert es[i] == init[i];
    }
    if Yields(es, k, o) {
      var i :| 0 <= i < |es| && es[i].Some? && es[i].value.key == k && o in es[i].value.outputs;
      if i < |init| {
        assert init[i] == es[i];
      }
    }
  }

  /** `Produces` of a list is `Produces` of all but its last entry, or the last entry. */
  lemma ProducesSnoc(es: seq<Option<Entry>>, o: string, p: Pair)
    requires |es| > 0
    ensures var last := es[|es| - 1];
      Produces(es, o, p) <==>
        Produces(es[..|es| - 1], o, p) || (last.Some? && last.value.inputs == p && o in last.value.outputs)
  {
    var init := es[..|es| - 1];
    if Produces(init, o, p) {
      var i :| 0 <= i < |init| && init[i].Some? && init[i].value.inputs == p && o in init[i].value.outputs;
      assert es[i] == init[i];
    }
    if Produces(es, o, p) {
      var i :| 0 <= i < |es| && es[i].Some? && es[i].value.inputs == p && o in es[i].value.outputs;
      if i < |init| {
        assert init[i] == es[i];
      }
    }
  }

  /** A key is present in the forward index iff some kept entry is filed under it. */
  lemma {:induction false} BuildKeys(es: seq<Option<Entry>>, k: string)
    ensures k in BuildFrom(es).recipeMap <==> FeedsKey(es, k)
    decreases |es|
  {
    if |es| > 0 {
      var init := es[..|es| - 1];
      BuildKeys(init, k);
      AddEntryKeys(BuildFrom(init), es[|es| - 1], k);
      FeedsKeySnoc(es, k);
    }
  }

  /** The forward index is exactly the union of the outputs of all kept entries for a key:
      an output is listed under a key iff some kept entry filed under that key lists it. */
  lemma {:induction false} BuildForward(es: seq<Option<Entry>>, k: string, o: string)
    ensures o in Get(BuildFrom(es).recipeMap, k) <==> Yields(es, k, o)
    decreases |es|
  {
    if |es| > 0 {
      var init := es[..|es| - 1];
      BuildForward(init, k, o);
      AddEntryForward(BuildFrom(init), es[|es| - 1], k, o);
      YieldsSnoc(es, k, o);
    }
  }

  /** The reverse index lists a pair for an output iff some kept entry with those resolved
      inputs lists that output. */
  lemma {:induction false} BuildReverse(es: seq<Option<Entry>>, o: string, p: Pair)
    ensures p in Get(BuildFrom(es).producers, o) <==> Produces(es, o, p)
    decreases |es|
  {
    if |es| > 0 {
      var init := es[..|es| - 1];
      BuildReverse(init, o, p);
      AddEntryReverse(BuildFrom(init), es[|es| - 1], o, p);
      ProducesSnoc(es, o, p);
    }
  }

  /** The two indices agree: every pair stored for an output is filed, under its key, with
      that output; and every output filed under a key has a stored producer pair with that key. */
  ghost predicate Consistent(env: Env, idx: Index) {
    && (forall o, p :: p in Get(idx.producers, o) ==> o in Get(idx.recipeMap, KeyFor(env, p.a, p.b)))
    && (forall k, o :: o in Get(idx.recipeMap, k) ==> HasProducer(env, idx, k, o))
  }

  /** Some pair stored for output `o` has key `k`. */
  ghost predicate HasProducer(env: Env, idx: Index, k: string, o: string) {
    exists p :: p in Get(idx.producers, o) && KeyFor(env, p.a, p.b) == k
  }

  /** Every kept entry of the recipe list is indexed both ways: its resolved input pair is
      stored for each of its outputs, and each output is filed under the entry's key. */
  lemma BuildIndexesEveryRecipe(env: Env, rs: seq<RawRecipe>, i: int, o: string)
    requires 0 <= i < |rs| && Kept(rs[i]) && o in OutputsOf(env, rs[i])
    ensures InputsOf(env, rs[i]) in Get(Build(env, rs).producers, o)
    ensures o in Get(Build(env, rs).recipeMap, KeyOf(env, rs[i]))
  {
    var es := Entries(env, rs);
    var e := es[i].value;
    assert e == Entry(KeyOf(env, rs[i]), InputsOf(env, rs[i]), OutputsOf(env, rs[i]));
    BuildReverse(es, o, e.inputs);
    BuildForward(es, e.key, o);
  }

  /** A kept entry's key is `keyFor` of its own resolved inputs. */
  lemma EntryKeyIsKeyFor(env: Env, rs: seq<RawRecipe>, i: int)
    requires 0 <= i < |rs| && Kept(rs[i])
    ensures var e := Entries(env, rs)[i].value; e.key == KeyFor(env, e.inputs.a, e.inputs.b)
  {
  }

  /** Every pair stored for an output comes with that output filed under the pair's key. */
  lemma BuildProducersFiled(env: Env, rs: seq<RawRecipe>, o: string, p: Pair)
    requires p in Get(Build(env, rs).producers, o)
    ensures o in Get(Build(env, rs).recipeMap, KeyFor(env, p.a, p.b))
  {
    var es := Entries(env, rs);
    BuildReverse(es, o, p);
    var i :| 0 <= i < |es| && es[i].Some? && es[i].value.inputs == p && o in es[i].value.outputs;
    EntryKeyIsKeyFor(env, rs, i);
    BuildForward(es, es[i].value.key, o);
  }

  /** Every output filed under a key has a stored producer pair whose key it is. */
  lemma BuildFiledHasProducer(env: Env, rs: seq<RawRecipe>, k: string, o: string)
    requires o in Get(Build(env, rs).recipeMap, k)
    ensures HasProducer(env, Build(env, rs), k, o)
  {
    var es := Entries(env, rs);
    BuildForward(es, k, o);
    var i :| 0 <= i < |es| && es[i].Some? && es[i].value.key == k && o in es[i].value.outputs;
    EntryKeyIsKeyFor(env, rs, i);
    var p := es[i].value.inputs;
    BuildReverse(es, o, p);
    assert p in Get(Build(env, rs).producers, o) && KeyFor(env, p.a, p.b) == k;
  }

  /** The indices the build produces are consistent with each other. */
  lemma BuildConsistent(env: Env, rs: seq<RawRecipe>)
    ensures Consistent(env, Build(env, rs))
  {
    var idx := Build(env, rs);
    forall o, p | p in Get(idx.producers, o)
      ensures o in Get(idx.recipeMap, KeyFor(env, p.a, p.b))
    {
      BuildProducersFiled(env, rs, o, p);
    }
    forall k, o | o in Get(idx.recipeMap, k)
      ensures HasProducer(env, idx, k, o)
    {
      BuildFiledHasProducer(env, rs, k, o);
    }
  }

  /** Later entries only add: every key already present stays, and its earlier output list
      is a prefix of the list after more entries are processed. */
  lemma {:induction false} BuildOnlyAdds(es: seq<Option<Entry>>, more: seq<Option<Entry>>, k: string)
    requires k in BuildFrom(es).recipeMap
    ensures k in BuildFrom(es + more).recipeMap
    ensures BuildFrom(es).recipeMap[k] <= BuildFrom(es + more).recipeMap[k]
    decreases |more|
  {
    if |more| > 0 {
      var more' := more[..|more| - 1];
      assert (es + more)[..|es + more| - 1] == es + more';
      BuildOnlyAdds(es, more', k);
    } else {
      assert es + more == es;
    }
  }

  /** `combineElements(a, b)`: the forward index entry for the pair, or `null`. */
  function Lookup(env: Env, idx: Index, a: string, b: string): Option<seq<string>> {
    var k := KeyFor(env, a, b);
    if k in idx.recipeMap then Some(idx.recipeMap[k]) else None
  }

  /** After the build, the lookup is `null` exactly when no kept entry is filed under the
      pair's key; otherwise it lists, without duplicates, exactly the union of the outputs
      of those entries. */
  lemma LookupAfterBuild(env: Env, rs: seq<RawRecipe>, a: string, b: string)
    ensures var r := Lookup(env, Build(env, rs), a, b);
      var es := Entries(env, rs);
      && (r.None? <==> !FeedsKey(es, KeyFor(env, a, b)))
      && (r.Some? ==> NoDup(r.value))
      && (r.Some? ==> forall o :: o in r.value <==> Yields(es, KeyFor(env, a, b), o))
  {
    var k := KeyFor(env, a, b);
    var es := Entries(env, rs);
    BuildKeys(es, k);
    forall o
      ensures k in Build(env, rs).recipeMap ==> (o in Build(env, rs).recipeMap[k] <==> Yields(es, k, o))
    {
      BuildForward(es, k, o);
    }
  }

  /** The lookup does not depend on the order of the two names whenever `keyFor` does not:
      the canonical names are equal or the collation does not tie them. */
  lemma LookupCommutes(env: Env, idx: Index, a: string, b: string)
    requires ValidCollation(env.collate)
    requires Canon(env, a) == Canon(env, b) || env.collate(Canon(env, a), Canon(env, b)) != 0
    ensures Lookup(env, idx, a, b) == Lookup(env, idx, b, a)
  {
    KeyForCommutesWhenOrdered(env, a, b);
  }
}
