/** The player's discovery state and how a combination changes it (`checkCombination`),
    the reset state, the discovered-name set and the story unlock rule. */
module Discovery {
  import opened Util
  import opened Alias
  import opened PairKey
  import opened RecipeIndex

  /** `discoveredElements`: the seed elements and, in order of discovery, the rest. */
  datatype State = State(base: seq<string>, combined: seq<string>)

  /** The result text of one combination: nothing, or the list of names it produced. */
  datatype Outcome = NothingHappened | Created(created: seq<string>)

  /** At most this many outputs of one combination are processed (`results.slice(0, 6)`). */
  const OutputCap: nat := 6

  /** The state `resetGame` (and a first visit) starts from. */
  function Reset(): (s: State)
    ensures |s.base| == 2 && s.combined == []
  {
    State(["Singularidad", "Expansión"], [])
  }

  /** No name is recorded twice: `combined` has no duplicates and shares nothing with `base`. */
  predicate Inv(s: State) {
    NoDup(s.combined) && forall x :: x in s.combined ==> x !in s.base
  }

  /** The player owns `r`. */
  predicate Owns(s: State, r: string) {
    r in s.combined || r in s.base
  }

  /** One pass of the loop body: an output already owned leaves the state alone, a new one
      is appended to `combined`. */
  function Record(s: State, r: string): (s': State)
    ensures s'.base == s.base && s.combined <= s'.combined
    ensures Owns(s, r) ==> s' == s
    ensures !Owns(s, r) ==> s'.combined == s.combined + [r]
  {
    if Owns(s, r) then s else s.(combined := s.combined + [r])
  }

  /** The loop over the (already resolved) processed outputs, in order. */
  function Discover(s: State, rs: seq<string>): (s': State)
    ensures s'.base == s.base
    ensures s.combined <= s'.combined
    ensures forall x :: x in s'.combined <==> x in s.combined || (x in rs && x !in s.base)
    ensures Inv(s) ==> Inv(s')
    ensures AppendedInOrder(s, rs, s')
    decreases |rs|
  {
    if |rs| == 0 then s
    else
      var s1 := Record(s, rs[0]);
      assert forall x :: x in rs <==> x == rs[0] || x in rs[1..];
      var s' := Discover(s1, rs[1..]);
      AppendedInOrderStep(s, rs, s');
      s'
  }

  /** The names appended to `s`'s `combined` to give `s'` were not owned before, and they
      follow the order in which they first occur in `rs`. */
  predicate AppendedInOrder(s: State, rs: seq<string>, s': State)
    requires |s.combined| <= |s'.combined|
  {
    && (forall i :: |s.combined| <= i < |s'.combined| ==>
         !Owns(s, s'.combined[i]) && s'.combined[i] in rs)
    && (forall i, j :: |s.combined| <= i < j < |s'.combined| ==>
         FirstIndex(rs, s'.combined[i]) < FirstIndex(rs, s'.combined[j]))
  }

  /** One pass of the loop: if the rest of the loop appends in order after recording
      `rs[0]`, the whole loop appends in order. */
  lemma AppendedInOrderStep(s: State, rs: seq<string>, s': State)
    requires |rs| > 0
    requires Record(s, rs[0]).combined <= s'.combined
    requires AppendedInOrder(Record(s, rs[0]), rs[1..], s')
    ensures AppendedInOrder(s, rs, s')
  {
    var s1 := Record(s, rs[0]);
    var n := |s.combined|;
    var c := s'.combined;
    forall i | n <= i < |c|
      ensures !Owns(s, c[i])
      ensures c[i] in rs
      ensures FirstIndex(rs, c[i]) == if i == n && !Owns(s, rs[0]) then 0 else 1 + FirstIndex(rs[1..], c[i])
    {
      if i == n && !Owns(s, rs[0]) {
        assert c[i] == s1.combined[n] == rs[0];
      } else {
        assert i >= |s1.combined|;
        assert c[i] != rs[0];
        assert c[i] in rs[1..];
      }
    }
  }

  /** Every processed output is owned afterwards. */
  lemma DiscoverOwnsAll(s: State, rs: seq<string>)
    ensures forall r :: r in rs ==> Owns(Discover(s, rs), r)
  {
  }

  /** Outputs the player already owns change nothing. */
  lemma {:induction false} DiscoverOwnedIsNoOp(s: State, rs: seq<string>)
    requires forall r :: r in rs ==> Owns(s, r)
    ensures Discover(s, rs) == s
    decreases |rs|
  {
    if |rs| > 0 {
      assert rs[0] in rs;
      assert forall r :: r in rs[1..] ==> r in rs;
      DiscoverOwnedIsNoOp(s, rs[1..]);
    }
  }

  /** Processing the same outputs a second time changes nothing. */
  lemma DiscoverIdempotent(s: State, rs: seq<string>)
    ensures Discover(Discover(s, rs), rs) == Discover(s, rs)
  {
    DiscoverOwnsAll(s, rs);
    DiscoverOwnedIsNoOp(Discover(s, rs), rs);
  }

  /** `combined` grows by at most one name per processed output. */
  lemma {:induction false} DiscoverGrowthBound(s: State, rs: seq<string>)
    ensures |Discover(s, rs).combined| <= |s.combined| + |rs|
    decreases |rs|
  {
    if |rs| > 0 {
      DiscoverGrowthBound(Record(s, rs[0]), rs[1..]);
    }
  }

  /** The outputs `checkCombination` processes: the first six, each resolved. */
  function Processed(aliases: Aliases, results: seq<string>): (rs: seq<string>)
    ensures |rs| == Min(|results|, OutputCap)
    ensures forall i :: 0 <= i < |rs| ==> rs[i] == Resolve(aliases, results[i])
  {
    ResolveAll(aliases, results[..Min(|results|, OutputCap)])
  }

  /** `checkCombination` for the two names in the crafting area: when the lookup gives a
      non-empty list, the processed outputs are recorded and all of them are reported,
      owned or not; otherwise nothing happens. */
  function Combine(env: Env, idx: Index, s: State, a: string, b: string): (res: (State, Outcome))
    ensures res.0.base == s.base && s.combined <= res.0.combined
    ensures res.1.NothingHappened? <==>
      (Lookup(env, idx, a, b).None? || |Lookup(env, idx, a, b).value| == 0)
    ensures res.1.NothingHappened? ==> res.0 == s
    ensures res.1.Created? ==> (|res.1.created| <= OutputCap
      && res.1.created == Processed(env.aliases, Lookup(env, idx, a, b).value)
      && res.0 == Discover(s, res.1.created))
    ensures Inv(s) ==> Inv(res.0)
  {
    match Lookup(env, idx, a, b)
    case None => (s, NothingHappened)
    case Some(results) =>
      if |results| == 0 then (s, NothingHappened)
      else
        var created := Processed(env.aliases, results);
        (Discover(s, created), Created(created))
  }

  /** After a combination, the player owns every name it reports, and `combined` gained at
      most six names. */
  lemma CombineOwnsCreated(env: Env, idx: Index, s: State, a: string, b: string)
    ensures var (s', out) := Combine(env, idx, s, a, b);
      && (out.Created? ==> forall r :: r in out.created ==> Owns(s', r))
      && |s'.combined| <= |s.combined| + OutputCap
  {
    var (s', out) := Combine(env, idx, s, a, b);
    if out.Created? {
      DiscoverOwnsAll(s, out.created);
      DiscoverGrowthBound(s, out.created);
    }
  }

  /** Repeating the same combination leaves the state as the first one left it. */
  lemma CombineTwice(env: Env, idx: Index, s: State, a: string, b: string)
    ensures var s' := Combine(env, idx, s, a, b).0;
      Combine(env, idx, s', a, b).0 == s'
  {
    var (s', out) := Combine(env, idx, s, a, b);
    if out.Created? {
      DiscoverIdempotent(s, out.created);
    }
  }

  /** With a consistent collation and canonical names the collation does not tie, the order
      in which the two elements are dropped does not matter. */
  lemma CombineCommutes(env: Env, idx: Index, s: State, a: string, b: string)
    requires ValidCollation(env.collate)
    requires Canon(env, a) == Canon(env, b) || env.collate(Canon(env, a), Canon(env, b)) != 0
    ensures Combine(env, idx, s, a, b) == Combine(env, idx, s, b, a)
  {
    LookupCommutes(env, idx, a, b);
  }

  /** The reset state satisfies the invariant. */
  lemma ResetInv()
    ensures Inv(Reset())
  {
    assert "Singularidad" != "Expansión" by {
      assert "Singularidad"[0] != "Expansión"[0];
    }
  }

  /** `new Set(base.concat(combined).map(resolveAlias))`. */
  function Discovered(aliases: Aliases, s: State): (d: set<string>)
    ensures forall x :: x in d <==> x in ResolveAll(aliases, s.base + s.combined)
  {
    set x | x in ResolveAll(aliases, s.base + s.combined)
  }

  /** A combination only adds to the discovered set. */
  lemma DiscoveredGrows(aliases: Aliases, s: State, rs: seq<string>)
    ensures Discovered(aliases, s) <= Discovered(aliases, Discover(s, rs))
  {
    var s' := Discover(s, rs);
    forall x | x in Discovered(aliases, s)
      ensures x in Discovered(aliases, s')
    {
      var all := s.base + s.combined;
      var all' := s'.base + s'.combined;
      var i :| 0 <= i < |all| && ResolveAll(aliases, all)[i] == x;
      assert all <= all';
      assert ResolveAll(aliases, all')[i] == Resolve(aliases, all'[i]);
    }
  }

  /** The story unlock rule: every required name, resolved, is discovered. */
  predicate Unlocked(aliases: Aliases, reqs: seq<string>, disc: set<string>) {
    forall i :: 0 <= i < |reqs| ==> Resolve(aliases, reqs[i]) in disc
  }

  /** A chapter with no requirements is always open, and an open chapter stays open as the
      discovered set grows. */
  lemma UnlockedMonotone(aliases: Aliases, reqs: seq<string>, d1: set<string>, d2: set<string>)
    requires d1 <= d2
    ensures Unlocked(aliases, [], d1)
    ensures Unlocked(aliases, reqs, d1) ==> Unlocked(aliases, reqs, d2)
  {
  }

  /** Once a chapter is open, no combination closes it again. */
  lemma StoryStaysUnlocked(env: Env, idx: Index, s: State, a: string, b: string, reqs: seq<string>)
    requires Unlocked(env.aliases, reqs, Discovered(env.aliases, s))
    ensures Unlocked(env.aliases, reqs, Discovered(env.aliases, Combine(env, idx, s, a, b).0))
  {
    var res := Combine(env, idx, s, a, b);
    if res.1.Created? {
      DiscoveredGrows(env.aliases, s, res.1.created);
    }
  }
}
