/** Alias resolution (`norm` / `resolveAlias`): a raw element name is trimmed and then
    looked up in the data file's alias table; a missing or empty entry leaves the
    trimmed name as its own canonical form. */
module Alias {
  import opened Text

  /** The data file's `aliases` object: raw name to canonical name. */
  type Aliases = map<string, string>

  /** True when the alias table rewrites the (already trimmed) name `n`: the entry exists
      and is not the empty string, which JavaScript's `||` treats as absent. */
  predicate Rewrites(aliases: Aliases, n: string) {
    n in aliases && aliases[n] != ""
  }

  /** `resolveAlias(name)`. */
  function Resolve(aliases: Aliases, name: string): (r: string)
    ensures Rewrites(aliases, Trim(name)) ==> r == aliases[Trim(name)]
    ensures !Rewrites(aliases, Trim(name)) ==> r == Trim(name) && Trimmed(r)
    ensures r != Trim(name) ==> Trim(name) in aliases && aliases[Trim(name)] == r
  {
    var n := Trim(name);
    if Rewrites(aliases, n) then aliases[n] else n
  }

  /** `outputs.map(o => resolveAlias(o))`. */
  function ResolveAll(aliases: Aliases, names: seq<string>): (r: seq<string>)
    ensures |r| == |names|
    ensures forall i :: 0 <= i < |names| ==> r[i] == Resolve(aliases, names[i])
  {
    seq(|names|, i requires 0 <= i < |names| => Resolve(aliases, names[i]))
  }

  /** Resolution only looks at the trimmed name, so trimming first changes nothing. */
  lemma ResolveTrim(aliases: Aliases, name: string)
    ensures Resolve(aliases, Trim(name)) == Resolve(aliases, name)
  {
    TrimIdempotent(name);
  }

  /** The data file defines one layer of aliasing: every alias target reachable from a
      trimmed name resolves to itself. */
  predicate OneLayer(aliases: Aliases) {
    forall k :: k in aliases && Trimmed(k) && aliases[k] != "" ==>
      Resolve(aliases, aliases[k]) == aliases[k]
  }

  /** Resolution is idempotent on every input exactly when the table has one layer. */
  lemma ResolveIdempotentIff(aliases: Aliases)
    ensures OneLayer(aliases) <==>
      forall x :: Resolve(aliases, Resolve(aliases, x)) == Resolve(aliases, x)
  {
    if OneLayer(aliases) {
      forall x
        ensures Resolve(aliases, Resolve(aliases, x)) == Resolve(aliases, x)
      {
        ResolveIdempotent(aliases, x);
      }
    }
    if forall x :: Resolve(aliases, Resolve(aliases, x)) == Resolve(aliases, x) {
      forall k | k in aliases && Trimmed(k) && aliases[k] != ""
        ensures Resolve(aliases, aliases[k]) == aliases[k]
      {
        assert Trim(k) == k;
        assert Resolve(aliases, k) == aliases[k];
        assert Resolve(aliases, Resolve(aliases, k)) == Resolve(aliases, k);
      }
    }
  }

  /** With one layer of aliasing, resolving a resolved name changes nothing. */
  lemma ResolveIdempotent(aliases: Aliases, x: string)
    requires OneLayer(aliases)
    ensures Resolve(aliases, Resolve(aliases, x)) == Resolve(aliases, x)
  {
    var n := Trim(x);
    TrimIdempotent(x);
    if Rewrites(aliases, n) {
      assert Trimmed(n);
    }
  }

  /** The plain reading of "no alias target is itself an alias key": when every non-empty
      target is trimmed and is not rewritten again, the table has one layer. */
  lemma NoChainsIsOneLayer(aliases: Aliases)
    requires forall k :: k in aliases && aliases[k] != "" ==>
      Trimmed(aliases[k]) && !Rewrites(aliases, aliases[k])
    ensures OneLayer(aliases)
  {
    forall k | k in aliases && Trimmed(k) && aliases[k] != ""
      ensures Resolve(aliases, aliases[k]) == aliases[k]
    {
      var t := aliases[k];
      assert Trim(t) == t;
    }
  }

  /** No alias target contains the pair-key separator. */
  predicate TargetsSepFree(aliases: Aliases) {
    forall k :: k in aliases ==> Sep !in aliases[k]
  }

  /** Resolving a separator-free name under such a table gives a separator-free name. */
  lemma ResolveKeepsSepFree(aliases: Aliases, x: string)
    requires TargetsSepFree(aliases) && Sep !in x
    ensures Sep !in Resolve(aliases, x)
  {
    TrimKeepsSepFree(x);
  }
}
