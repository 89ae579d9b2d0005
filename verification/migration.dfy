/** The legacy data format (`migrateOldCombinations`): an object from a concatenated pair
    key to outputs, turned into recipe entries by splitting each key into a known name
    followed by a known name. Also the choice between that format and the current one. */
module Migration {
  import opened Util
  import opened Text
  import opened Alias
  import opened PairKey
  import opened RecipeIndex

  /** One `[key, outputs]` of `Object.entries(combinations)`. */
  datatype LegacyEntry = LegacyEntry(key: string, outputs: seq<string>)

  /** `new Set(allPossibleElements.map(n => resolveAlias(n)))`, in its iteration order:
      the resolved names in order of first appearance, each once. */
  function KnownNames(aliases: Aliases, all: seq<string>): (names: seq<string>)
    ensures NoDup(names)
    ensures forall n :: n in names <==> n in ResolveAll(aliases, all)
    ensures forall i, j :: 0 <= i < j < |names| ==>
      FirstIndex(ResolveAll(aliases, all), names[i]) < FirstIndex(ResolveAll(aliases, all), names[j])
  {
    DedupOrder(ResolveAll(aliases, all));
    Dedup(ResolveAll(aliases, all))
  }

  /** `canonKey.startsWith(e1) && names.has(canonKey.slice(e1.length))`. */
  predicate SplitsAt(names: seq<string>, canon: string, e1: string) {
    e1 <= canon && canon[|e1|..] in names
  }

  /** The position, at or after `i`, of the first known name that splits `canon`, or `|names|`. */
  function FirstSplit(names: seq<string>, canon: string, i: nat): (j: nat)
    requires i <= |names|
    ensures i <= j <= |names|
    ensures j < |names| ==> SplitsAt(names, canon, names[j])
    decreases |names| - i
  {
    if i == |names| then i
    else if SplitsAt(names, canon, names[i]) then i
    else FirstSplit(names, canon, i + 1)
  }

  /** No known name between `i` and the position `FirstSplit` returns splits `canon`. */
  lemma {:induction false} FirstSplitIsFirst(names: seq<string>, canon: string, i: nat, k: nat)
    requires i <= k && i <= |names| && k < FirstSplit(names, canon, i)
    ensures !SplitsAt(names, canon, names[k])
    decreases |names| - i
  {
    if k > i {
      FirstSplitIsFirst(names, canon, i + 1, k);
    }
  }

  /** `trySplit` applied to an already resolved key: the first known name (in set order)
      that the key starts with and whose remainder is also known, or `null`. */
  function TrySplit(names: seq<string>, canon: string): (r: Option<Pair>)
    ensures r.Some? ==> r.value.a + r.value.b == canon
  {
    var j := FirstSplit(names, canon, 0);
    if j < |names| then
      var e1 := names[j];
      assert canon == e1 + canon[|e1|..];
      Some(Pair(e1, canon[|e1|..]))
    else None
  }

  /** A split found is made of two known names, and the first one is the earliest known
      name (in set order) that splits the key. */
  lemma TrySplitFirst(names: seq<string>, canon: string)
    requires TrySplit(names, canon).Some?
    ensures var p := TrySplit(names, canon).value;
      p.a in names && p.b in names
      && exists j :: (0 <= j < |names| && names[j] == p.a
           && forall k :: 0 <= k < j ==> !SplitsAt(names, canon, names[k]))
  {
    var j := FirstSplit(names, canon, 0);
    forall k | 0 <= k < j
      ensures !SplitsAt(names, canon, names[k])
    {
      FirstSplitIsFirst(names, canon, 0, k);
    }
  }

  /** `trySplit` gives `null` exactly when no known name splits the key. */
  lemma TrySplitNoneIff(names: seq<string>, canon: string)
    ensures TrySplit(names, canon).None? <==>
      forall j :: 0 <= j < |names| ==> !SplitsAt(names, canon, names[j])
  {
    var j := FirstSplit(names, canon, 0);
    if j == |names| {
      forall k | 0 <= k < |names|
        ensures !SplitsAt(names, canon, names[k])
      {
        FirstSplitIsFirst(names, canon, 0, k);
      }
    }
  }

  /** The legacy key resolved as `resolveAlias(norm(k))` and the outputs as
      `outs.map(o => resolveAlias(o))`: the two things migration computes from an entry. */
  function ResolveEntry(aliases: Aliases, c: LegacyEntry): LegacyEntry {
    LegacyEntry(Resolve(aliases, Trim(c.key)), ResolveAll(aliases, c.outputs))
  }

  /** `ResolveEntry` applied to every legacy entry, position by position. */
  function ResolveEntries(aliases: Aliases, combos: seq<LegacyEntry>): (cs: seq<LegacyEntry>)
    ensures |cs| == |combos|
    ensures forall i :: 0 <= i < |combos| ==> cs[i] == ResolveEntry(aliases, combos[i])
  {
    seq(|combos|, i requires 0 <= i < |combos| => ResolveEntry(aliases, combos[i]))
  }

  /** What one resolved legacy entry becomes: the split of its key as the inputs and its
      outputs, or nothing when the key does not split. */
  function MigrateOne(names: seq<string>, c: LegacyEntry): (r: Option<RawRecipe>)
    ensures r.Some? <==> TrySplit(names, c.key).Some?
    ensures r.Some? ==> Kept(r.value) && r.value.outputs == Some(c.outputs)
    ensures r.Some? ==> r.value.inputs.value[0] + r.value.inputs.value[1] == c.key
  {
    match TrySplit(names, c.key)
    case None => None
    case Some(p) => Some(RawRecipe(Some([p.a, p.b]), Some(c.outputs)))
  }

  /** The migration loop over resolved entries: the migrated entries in the legacy order,
      with the keys that do not split dropped. */
  function MigrateResolved(names: seq<string>, cs: seq<LegacyEntry>): (rs: seq<RawRecipe>)
    ensures |rs| <= |cs|
    ensures forall i :: 0 <= i < |rs| ==> Kept(rs[i])
    ensures forall x :: x in rs <==> exists j :: 0 <= j < |cs| && MigrateOne(names, cs[j]) == Some(x)
    decreases |cs|
  {
    if |cs| == 0 then []
    else
      var rest := MigrateResolved(names, cs[1..]);
      assert forall j :: 1 <= j < |cs| ==> cs[j] == cs[1..][j - 1];
      match MigrateOne(names, cs[0])
      case None => rest
      case Some(r) => [r] + rest
  }

  /** `migrateOldCombinations(combos)`, given the known-name set in iteration order. Every
      migrated entry is kept by the build, and no entry is invented. */
  function MigrateOldCombinations(aliases: Aliases, names: seq<string>, combos: seq<LegacyEntry>)
    : (rs: seq<RawRecipe>)
    ensures |rs| <= |combos|
    ensures forall i :: 0 <= i < |rs| ==> Kept(rs[i])
  {
    MigrateResolved(names, ResolveEntries(aliases, combos))
  }

  /** Every migrated entry's inputs are two known names whose concatenation is the resolved,
      trimmed legacy key it came from, and its outputs are that entry's resolved outputs. */
  lemma MigratedInputsSplitKey(aliases: Aliases, names: seq<string>, combos: seq<LegacyEntry>, x: RawRecipe)
    requires x in MigrateOldCombinations(aliases, names, combos)
    ensures exists j :: (0 <= j < |combos|
      && x.inputs.value[0] + x.inputs.value[1] == Resolve(aliases, Trim(combos[j].key))
      && x.inputs.value[0] in names && x.inputs.value[1] in names
      && x.outputs == Some(ResolveAll(aliases, combos[j].outputs)))
  {
    var cs := ResolveEntries(aliases, combos);
    var j :| 0 <= j < |cs| && MigrateOne(names, cs[j]) == Some(x);
    TrySplitFirst(names, cs[j].key);
    assert cs[j] == ResolveEntry(aliases, combos[j]);
  }

  /** A legacy entry whose resolved key splits is migrated: some migrated entry has the
      first split as its inputs and the entry's resolved outputs. */
  lemma SplittableIsMigrated(aliases: Aliases, names: seq<string>, combos: seq<LegacyEntry>, j: int)
    requires 0 <= j < |combos|
    requires TrySplit(names, Resolve(aliases, Trim(combos[j].key))).Some?
    ensures var p := TrySplit(names, Resolve(aliases, Trim(combos[j].key))).value;
      RawRecipe(Some([p.a, p.b]), Some(ResolveAll(aliases, combos[j].outputs)))
        in MigrateOldCombinations(aliases, names, combos)
  {
    var cs := ResolveEntries(aliases, combos);
    assert cs[j] == ResolveEntry(aliases, combos[j]);
    assert MigrateOne(names, cs[j]).Some?;
  }

  /** Migration works entry by entry: migrating two lists one after the other is migrating
      their concatenation, so the legacy order is kept. */
  lemma {:induction false} MigrateAppend(names: seq<string>, xs: seq<LegacyEntry>, ys: seq<LegacyEntry>)
    ensures MigrateResolved(names, xs + ys) == MigrateResolved(names, xs) + MigrateResolved(names, ys)
    decreases |xs|
  {
    if |xs| == 0 {
      assert xs + ys == ys;
    } else {
      assert (xs + ys)[0] == xs[0];
      assert (xs + ys)[1..] == xs[1..] + ys;
      MigrateAppend(names, xs[1..], ys);
    }
  }

  /** No legacy entry is lost exactly when every key splits. */
  lemma {:induction false} MigrateKeepsAllIff(names: seq<string>, cs: seq<LegacyEntry>)
    ensures |MigrateResolved(names, cs)| == |cs| <==>
      forall j :: 0 <= j < |cs| ==> TrySplit(names, cs[j].key).Some?
    decreases |cs|
  {
    if |cs| > 0 {
      MigrateKeepsAllIff(names, cs[1..]);
      assert forall j :: 1 <= j < |cs| ==> cs[j] == cs[1..][j - 1];
    }
  }

  /** The parts of the data file the engine reads. A field that is missing is `None`;
      `elements` is `elements.base` followed by `elements.combined`. */
  datatype Data = Data(
    elements: seq<string>,
    aliases: Aliases,
    recipes: Option<seq<RawRecipe>>,
    combinations: Option<seq<LegacyEntry>>)

  /** The recipe list the build runs over: the migrated legacy object when the file has
      `combinations` and no `recipes`, otherwise `recipes` (or nothing). */
  function RecipeSource(data: Data): (rs: seq<RawRecipe>)
    ensures data.recipes.Some? ==> rs == data.recipes.value
    ensures data.recipes.None? && data.combinations.None? ==> rs == []
    ensures data.recipes.None? && data.combinations.Some? ==>
      rs == MigrateOldCombinations(data.aliases, KnownNames(data.aliases, data.elements),
                                   data.combinations.value)
  {
    if data.combinations.Some? && data.recipes.None? then
      MigrateOldCombinations(data.aliases, KnownNames(data.aliases, data.elements), data.combinations.value)
    else data.recipes.GetOr([])
  }
}
