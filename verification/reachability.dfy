/** The still-combinable classifier (`canProduceUndiscovered`): whether a discovered element
    can still be combined with a discovered partner into something not yet discovered. The
    classifier works on the keys of the forward index, reading each key back by splitting
    it on `'|'`. */
module Reachability {
  import opened Util
  import opened Text
  import opened Alias
  import opened PairKey
  import opened RecipeIndex

  /** `outs.some(o => !discoveredSet.has(resolveAlias(o)))`. */
  predicate SomeUndiscovered(aliases: Aliases, outs: seq<string>, d: set<string>) {
    exists i :: 0 <= i < |outs| && Resolve(aliases, outs[i]) !in d
  }

  /** The test made for one forward-index entry: the key's first two `'|'`-fields are `a`
      and `b` (`b` is `undefined` when there is no separator); `e` must be one of them, the
      other one must be discovered, and some output must be undiscovered. */
  predicate KeyHit(aliases: Aliases, k: string, outs: seq<string>, e: string, d: set<string>) {
    var f := Split(k);
    var a := f[0];
    var b: Option<string> := if |f| > 1 then Some(f[1]) else None;
    var other: Option<string> := if a == e then b else Some(a);
    && (a == e || b == Some(e))
    && other.Some? && other.value in d
    && SomeUndiscovered(aliases, outs, d)
  }

  /** `canProduceUndiscovered(e, d)`: some entry of the forward index passes the test. The
      loop's iteration order does not matter, because it stops at the first entry that passes. */
  predicate CanProduceUndiscovered(aliases: Aliases, recipeMap: map<string, seq<string>>,
                                   e: string, d: set<string>) {
    exists k :: k in recipeMap && KeyHit(aliases, k, recipeMap[k], e, d)
  }

  /** Every key of the forward index is the collation-sorted join of two canonical names
      without separators, which is how the build files entries. */
  ghost predicate WellKeyed(env: Env, idx: Index) {
    forall k :: k in idx.recipeMap ==> exists x, y :: KeyOfNames(env, x, y, k)
  }

  /** `k` is the key of the canonical, separator-free names `x` and `y`. */
  ghost predicate KeyOfNames(env: Env, x: string, y: string, k: string) {
    && Sep !in x && Sep !in y
    && Canon(env, x) == x && Canon(env, y) == y
    && k == Join(Sort2(env.collate, x, y))
  }

  /** A two-name join read back by splitting is the two names. */
  lemma SplitSorted(c: Collation, x: string, y: string)
    requires Sep !in x && Sep !in y
    ensures Split(Join(Sort2(c, x, y))) == Sort2(c, x, y)
  {
    var s := Sort2(c, x, y);
    assert s[1..] == [s[1]];
    assert Join(s) == s[0] + [Sep] + s[1];
    SplitPair(s[0], s[1]);
  }

  /** On canonical names `keyFor` is just the sorted join. */
  lemma KeyForCanonical(env: Env, x: string, y: string)
    requires Canon(env, x) == x && Canon(env, y) == y
    ensures KeyFor(env, x, y) == Join(Sort2(env.collate, x, y))
  {
  }

  /** What the per-entry test means for a key that reads back as two names. */
  lemma KeyHitOfPair(aliases: Aliases, k: string, outs: seq<string>, e: string, d: set<string>)
    requires |Split(k)| == 2
    requires KeyHit(aliases, k, outs, e, d)
    ensures var f := Split(k);
      (f[0] == e && f[1] in d) || (f[1] == e && f[0] in d)
    ensures SomeUndiscovered(aliases, outs, d)
  {
  }

  /** When `e` is one name of a sorted pair and the other name `o` is in `d`, sorting
      `e, o` gives the same pair back. */
  lemma PartnerInPair(c: Collation, x: string, y: string, e: string, d: set<string>)
    requires ValidCollation(c) && Separating(c)
    requires var s := Sort2(c, x, y); (s[0] == e && s[1] in d) || (s[1] == e && s[0] in d)
    ensures exists o :: (o in d && (e == x || e == y) && (o == x || o == y)
      && Sort2(c, e, o) == Sort2(c, x, y))
  {
    var s := Sort2(c, x, y);
    var o := if s[0] == e then s[1] else s[0];
    Sort2Symmetric(c, x, y);
    assert (e == x && o == y) || (e == y && o == x);
  }

  /** If the classifier says yes, some discovered partner combines with `e` into a list
      holding an undiscovered output. */
  lemma CanProduceSound(env: Env, idx: Index, e: string, d: set<string>)
    requires ValidCollation(env.collate) && Separating(env.collate)
    requires WellKeyed(env, idx)
    requires CanProduceUndiscovered(env.aliases, idx.recipeMap, e, d)
    ensures exists o :: (o in d && Lookup(env, idx, e, o).Some?
      && SomeUndiscovered(env.aliases, Lookup(env, idx, e, o).value, d))
  {
    var c := env.collate;
    var k :| k in idx.recipeMap && KeyHit(env.aliases, k, idx.recipeMap[k], e, d);
    var x, y :| KeyOfNames(env, x, y, k);
    SplitSorted(c, x, y);
    KeyHitOfPair(env.aliases, k, idx.recipeMap[k], e, d);
    PartnerInPair(c, x, y, e, d);
    var o :| o in d && (e == x || e == y) && (o == x || o == y) && Sort2(c, e, o) == Sort2(c, x, y);
    KeyForCanonical(env, e, o);
    assert Lookup(env, idx, e, o) == Some(idx.recipeMap[k]);
  }

  /** If some discovered partner combines with `e` into a list holding an undiscovered
      output, the classifier says yes. */
  lemma CanProduceComplete(env: Env, idx: Index, e: string, o: string, d: set<string>)
    requires Sep !in e && Canon(env, e) == e
    requires Sep !in o && Canon(env, o) == o
    requires o in d && Lookup(env, idx, e, o).Some?
    requires SomeUndiscovered(env.aliases, Lookup(env, idx, e, o).value, d)
    ensures CanProduceUndiscovered(env.aliases, idx.recipeMap, e, d)
  {
    var k := KeyFor(env, e, o);
    KeyForCanonical(env, e, o);
    SplitSorted(env.collate, e, o);
    assert KeyHit(env.aliases, k, idx.recipeMap[k], e, d);
  }

  /** The classifier in the player's terms: with a consistent, non-tying collation and a
      well-keyed index, a discovered `e` is still combinable exactly when some discovered
      element combines with it (`combineElements`) into a list holding an undiscovered output. */
  lemma CanProduceIffCombinable(env: Env, idx: Index, e: string, d: set<string>)
    requires ValidCollation(env.collate) && Separating(env.collate)
    requires WellKeyed(env, idx)
    requires Sep !in e && Canon(env, e) == e
    requires forall x :: x in d ==> Sep !in x && Canon(env, x) == x
    ensures CanProduceUndiscovered(env.aliases, idx.recipeMap, e, d) <==>
      exists o :: (o in d && Lookup(env, idx, e, o).Some?
        && SomeUndiscovered(env.aliases, Lookup(env, idx, e, o).value, d))
  {
    if CanProduceUndiscovered(env.aliases, idx.recipeMap, e, d) {
      CanProduceSound(env, idx, e, d);
    }
    if exists o :: o in d && Lookup(env, idx, e, o).Some?
        && SomeUndiscovered(env.aliases, Lookup(env, idx, e, o).value, d) {
      var o :| o in d && Lookup(env, idx, e, o).Some?
        && SomeUndiscovered(env.aliases, Lookup(env, idx, e, o).value, d);
      CanProduceComplete(env, idx, e, o, d);
    }
  }

  /** Every kept entry's resolved inputs, read as names, are separator-free. */
  predicate InputsSepFree(rs: seq<RawRecipe>) {
    forall i :: 0 <= i < |rs| && Kept(rs[i]) ==>
      Sep !in rs[i].inputs.value[0] && Sep !in rs[i].inputs.value[1]
  }

  /** The build files every entry under a well-formed key when the data file has one layer
      of aliasing and no name or alias target contains `'|'`. */
  lemma BuildWellKeyed(env: Env, rs: seq<RawRecipe>)
    requires OneLayer(env.aliases) && TargetsSepFree(env.aliases) && InputsSepFree(rs)
    ensures WellKeyed(env, Build(env, rs))
  {
    var es := Entries(env, rs);
    forall k | k in Build(env, rs).recipeMap
      ensures exists x, y :: KeyOfNames(env, x, y, k)
    {
      BuildKeys(es, k);
      var i :| 0 <= i < |es| && es[i].Some? && es[i].value.key == k;
      EntryKeyIsKeyFor(env, rs, i);
      var p := es[i].value.inputs;
      assert p == InputsOf(env, rs[i]);
      var x, y := Canon(env, p.a), Canon(env, p.b);
      CanonIdempotent(env, p.a);
      CanonIdempotent(env, p.b);
      ResolveKeepsSepFree(env.aliases, rs[i].inputs.value[0]);
      ResolveKeepsSepFree(env.aliases, rs[i].inputs.value[1]);
      TrimKeepsSepFree(p.a);
      TrimKeepsSepFree(p.b);
      ResolveKeepsSepFree(env.aliases, Trim(p.a));
      ResolveKeepsSepFree(env.aliases, Trim(p.b));
      assert KeyOfNames(env, x, y, k);
    }
  }
}
