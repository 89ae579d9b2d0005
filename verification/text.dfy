/** String helpers the engine relies on: JavaScript's `String.prototype.trim`,
    and joining/splitting pair keys on the `'|'` separator. */
module Text {

  /** The characters `trim` removes: ECMAScript WhiteSpace and LineTerminator code points. */
  predicate IsSpace(c: char) {
    var n := c as int;
    || n == 0x09 || n == 0x0A || n == 0x0B || n == 0x0C || n == 0x0D
    || n == 0x20 || n == 0xA0 || n == 0x1680
    || (0x2000 <= n <= 0x200A)
    || n == 0x2028 || n == 0x2029 || n == 0x202F || n == 0x205F
    || n == 0x3000 || n == 0xFEFF
  }

  /** True when the string neither starts nor ends with whitespace. */
  predicate Trimmed(s: string) {
    |s| == 0 || (!IsSpace(s[0]) && !IsSpace(s[|s| - 1]))
  }

  /** The first position at or after `i` that does not hold whitespace, or `|s|`. */
  function SkipSpace(s: string, i: nat): (j: nat)
    requires i <= |s|
    ensures i <= j <= |s|
    ensures forall k :: i <= k < j ==> IsSpace(s[k])
    ensures j < |s| ==> !IsSpace(s[j])
    decreases |s| - i
  {
    if i < |s| && IsSpace(s[i]) then SkipSpace(s, i + 1) else i
  }

  /** Walking back from `j` (not below `lo`) over whitespace: the position just after the
      last character before `j` that is not whitespace, or `lo`. */
  function SkipSpaceBack(s: string, lo: nat, j: nat): (e: nat)
    requires lo <= j <= |s|
    ensures lo <= e <= j
    ensures forall k :: e <= k < j ==> IsSpace(s[k])
    ensures e > lo ==> !IsSpace(s[e - 1])
    decreases j
  {
    if j > lo && IsSpace(s[j - 1]) then SkipSpaceBack(s, lo, j - 1) else j
  }

  /** `String(s).trim()`, the engine's `norm`: the input with surrounding whitespace
      removed. The result is trimmed, and an already trimmed string is left unchanged. */
  function Trim(s: string): (r: string)
    ensures Trimmed(r)
    ensures Trimmed(s) ==> r == s
  {
    var i := SkipSpace(s, 0);
    var e := SkipSpaceBack(s, i, |s|);
    assert Trimmed(s) && |s| > 0 ==> i == 0 && e == |s|;
    s[i..e]
  }

  /** Trimming removes whitespace only: the result is a slice of the input and everything
      before and after that slice is whitespace. */
  lemma TrimIsSlice(s: string)
    ensures exists i, e :: (0 <= i <= e <= |s| && Trim(s) == s[i..e]
      && (forall k :: 0 <= k < i ==> IsSpace(s[k]))
      && (forall k :: e <= k < |s| ==> IsSpace(s[k])))
  {
    var i := SkipSpace(s, 0);
    var e := SkipSpaceBack(s, i, |s|);
    assert Trim(s) == s[i..e];
  }

  /** Trimming twice is trimming once. */
  lemma TrimIdempotent(s: string)
    ensures Trim(Trim(s)) == Trim(s)
  {
  }

  /** The separator `keyFor` joins resolved names with. */
  const Sep: char := '|'

  /** `fields.join('|')`. */
  function Join(fields: seq<string>): string
    decreases |fields|
  {
    if |fields| == 0 then ""
    else if |fields| == 1 then fields[0]
    else fields[0] + [Sep] + Join(fields[1..])
  }

  /** Trimming never introduces a separator. */
  lemma TrimKeepsSepFree(s: string)
    requires Sep !in s
    ensures Sep !in Trim(s)
  {
    var i := SkipSpace(s, 0);
    var e := SkipSpaceBack(s, i, |s|);
    assert Trim(s) == s[i..e];
    assert forall k :: 0 <= k < e - i ==> s[i..e][k] == s[i + k];
  }

  /** Position of the first occurrence of `c` in `s`. */
  function IndexOf(s: string, c: char): (i: nat)
    requires c in s
    ensures i < |s| && s[i] == c && c !in s[..i]
    decreases |s|
  {
    if s[0] == c then 0
    else
      assert s == [s[0]] + s[1..];
      1 + IndexOf(s[1..], c)
  }

  /** `s.split('|')`: the pieces between separators. Joining them back gives the input. */
  function Split(s: string): (fields: seq<string>)
    ensures |fields| >= 1
    ensures forall i :: 0 <= i < |fields| ==> Sep !in fields[i]
    ensures Join(fields) == s
    decreases |s|
  {
    if Sep !in s then [s]
    else
      var i := IndexOf(s, Sep);
      var rest := Split(s[i + 1..]);
      assert s == s[..i] + [Sep] + s[i + 1..];
      assert ([s[..i]] + rest)[1..] == rest;
      [s[..i]] + rest
  }

  /** Splitting a join of separator-free fields gives the fields back. */
  lemma {:induction false} SplitJoin(fields: seq<string>)
    requires |fields| >= 1
    requires forall i :: 0 <= i < |fields| ==> Sep !in fields[i]
    ensures Split(Join(fields)) == fields
    decreases |fields|
  {
    if |fields| > 1 {
      var f0 := fields[0];
      var tail := Join(fields[1..]);
      var s := f0 + [Sep] + tail;
      assert Join(fields) == s;
      assert Sep in s by { assert s[|f0|] == Sep; }
      assert s[..|f0|] == f0;
      var i := IndexOf(s, Sep);
      assert i == |f0|;
      assert s[i + 1..] == tail;
      SplitJoin(fields[1..]);
      assert fields == [f0] + fields[1..];
    }
  }

  /** The two-name case of `SplitJoin`, which is how pair keys are read back. */
  lemma SplitPair(x: string, y: string)
    requires Sep !in x && Sep !in y
    ensures Split(x + [Sep] + y) == [x, y]
  {
    assert [x, y][1..] == [y];
    assert Join([x, y]) == x + [Sep] + y;
    SplitJoin([x, y]);
  }
}
