/** The canonical unordered pair key (`keyFor`): both names are trimmed and resolved,
    put in collation order and joined with `'|'`. */
module PairKey {
  import opened Text
  import opened Alias

  /** A three-way string comparison standing in for `x.localeCompare(y, 'es')`:
      negative, zero or positive. Its Spanish collation rules are not modelled. */
  type Collation = (string, string) -> int

  /** What the engine is configured with once the data file is loaded. */
  datatype Env = Env(aliases: Aliases, collate: Collation)

  /** A pair of element names in input order, as the reverse index stores it. */
  datatype Pair = Pair(a: string, b: string)

  /** A consistent comparator: x sorts before y exactly when y sorts after x. */
  ghost predicate ValidCollation(c: Collation) {
    forall x, y :: c(x, y) < 0 <==> c(y, x) > 0
  }

  /** A collation that never ties two different strings. */
  ghost predicate Separating(c: Collation) {
    forall x, y :: c(x, y) == 0 ==> x == y
  }

  /** `resolveAlias(norm(x))`, the per-name step of `keyFor`. */
  function Canon(env: Env, x: string): string {
    Resolve(env.aliases, Trim(x))
  }

  /** The two-element `sort` with a comparator: the sort is stable, so the pair is
      swapped only when the first sorts strictly after the second. */
  function Sort2(c: Collation, x: string, y: string): (r: seq<string>)
    ensures |r| == 2 && multiset(r) == multiset{x, y}
  {
    if c(x, y) > 0 then [y, x] else [x, y]
  }

  /** Sorting two names puts them in collation order. */
  lemma Sort2Sorted(c: Collation, x: string, y: string)
    requires ValidCollation(c)
    ensures var r := Sort2(c, x, y); c(r[0], r[1]) <= 0
  {
    if c(x, y) > 0 {
      assert c(y, x) < 0;
    }
  }

  /** With a consistent collation that never ties different names, the sorted pair does
      not depend on the order of the two names. */
  lemma Sort2Symmetric(c: Collation, x: string, y: string)
    requires ValidCollation(c) && Separating(c)
    ensures Sort2(c, x, y) == Sort2(c, y, x)
  {
    if x != y {
      if c(x, y) > 0 {
        assert c(y, x) < 0;
      } else {
        assert c(x, y) != 0;
        assert c(y, x) > 0;
      }
    }
  }

  /** With one layer of aliasing, a canonical name is its own canonical form. */
  lemma CanonIdempotent(env: Env, x: string)
    requires OneLayer(env.aliases)
    ensures Canon(env, Canon(env, x)) == Canon(env, x)
  {
    ResolveTrim(env.aliases, x);
    ResolveTrim(env.aliases, Canon(env, x));
    ResolveIdempotent(env.aliases, x);
  }

  /** `keyFor(a, b)`. */
  function KeyFor(env: Env, a: string, b: string): string {
    Join(Sort2(env.collate, Canon(env, a), Canon(env, b)))
  }

  /** The key is the two canonical names, in collation order, around one separator. */
  lemma KeyForShape(env: Env, a: string, b: string)
    ensures var s := Sort2(env.collate, Canon(env, a), Canon(env, b));
      KeyFor(env, a, b) == s[0] + [Sep] + s[1]
  {
    var s := Sort2(env.collate, Canon(env, a), Canon(env, b));
    assert s[1..] == [s[1]];
    assert Join(s[1..]) == s[1];
    assert Join(s) == s[0] + [Sep] + Join(s[1..]);
  }

  /** A key reads back, by splitting on `'|'`, as the two canonical names in some order. */
  lemma KeyForSplit(env: Env, a: string, b: string)
    requires Sep !in Canon(env, a) && Sep !in Canon(env, b)
    ensures var f := Split(KeyFor(env, a, b));
      f == [Canon(env, a), Canon(env, b)] || f == [Canon(env, b), Canon(env, a)]
  {
    KeyForShape(env, a, b);
    var s := Sort2(env.collate, Canon(env, a), Canon(env, b));
    SplitPair(s[0], s[1]);
  }

  /** `keyFor` is commutative for a pair exactly when the two canonical names are equal
      or the collation does not tie them; a tie between different names keeps input order,
      so the two orders give different keys. */
  lemma KeyForCommutesIff(env: Env, a: string, b: string)
    requires ValidCollation(env.collate)
    requires Sep !in Canon(env, a) && Sep !in Canon(env, b)
    ensures KeyFor(env, a, b) == KeyFor(env, b, a) <==>
      (Canon(env, a) == Canon(env, b) || env.collate(Canon(env, a), Canon(env, b)) != 0)
  {
    var x, y := Canon(env, a), Canon(env, b);
    var c := env.collate;
    if x != y && c(x, y) == 0 {
      assert c(y, x) == 0 by {
        assert c(y, x) < 0 <==> c(x, y) > 0;
        assert c(x, y) < 0 <==> c(y, x) > 0;
      }
      KeyForShape(env, a, b);
      KeyForShape(env, b, a);
      SplitPair(x, y);
      SplitPair(y, x);
      assert KeyFor(env, a, b) == x + [Sep] + y;
      assert KeyFor(env, b, a) == y + [Sep] + x;
      assert Split(KeyFor(env, a, b)) != Split(KeyFor(env, b, a));
    } else if x != y {
      KeyForCommutesWhenOrdered(env, a, b);
    }
  }

  /** The sufficient half of `KeyForCommutesIff`, with no condition on the separator. */
  lemma KeyForCommutesWhenOrdered(env: Env, a: string, b: string)
    requires ValidCollation(env.collate)
    requires Canon(env, a) == Canon(env, b) || env.collate(Canon(env, a), Canon(env, b)) != 0
    ensures KeyFor(env, a, b) == KeyFor(env, b, a)
  {
    var x, y := Canon(env, a), Canon(env, b);
    var c := env.collate;
    if x != y {
      if c(x, y) > 0 {
        assert c(y, x) < 0;
        assert Sort2(c, x, y) == [y, x] == Sort2(c, y, x);
      } else {
        assert c(y, x) > 0;
        assert Sort2(c, x, y) == [x, y] == Sort2(c, y, x);
      }
    }
  }

  /** With a collation that never ties different strings, `keyFor` is commutative. */
  lemma KeyForCommutes(env: Env, a: string, b: string)
    requires ValidCollation(env.collate) && Separating(env.collate)
    ensures KeyFor(env, a, b) == KeyFor(env, b, a)
  {
    KeyForCommutesWhenOrdered(env, a, b);
  }
}
