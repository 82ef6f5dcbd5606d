/** The pieces of Go's `strings` and `path/filepath` packages that the model-store
    helpers use, on `string` = `seq<char>`. Cut sets and replaced strings are the
    single separator character the callers pass. */
module GoStrings {

  /** strings.HasPrefix */
  predicate HasPrefix(s: string, prefix: string) {
    |prefix| <= |s| && s[..|prefix|] == prefix
  }

  /** strings.Contains: `sub` occurs somewhere in `s`. */
  predicate Contains(s: string, sub: string)
    decreases |s|
  {
    HasPrefix(s, sub) || (|s| > 0 && Contains(s[1..], sub))
  }

  /** An occurrence of `sub` at any position `i` makes `s` contain it. */
  lemma {:induction false} ContainsAt(s: string, sub: string, i: nat)
    requires i <= |s| && HasPrefix(s[i..], sub)
    ensures Contains(s, sub)
    decreases i
  {
    if i > 0 {
      assert s[1..][i - 1..] == s[i..];
      ContainsAt(s[1..], sub, i - 1);
    }
  }

  /** Conversely, `s` contains `sub` only at some position `i`. */
  lemma {:induction false} ContainsHasOccurrence(s: string, sub: string)
    requires Contains(s, sub)
    ensures exists i :: 0 <= i <= |s| && HasPrefix(s[i..], sub)
    decreases |s|
  {
    if HasPrefix(s, sub) {
      assert s[0..] == s;
    } else {
      ContainsHasOccurrence(s[1..], sub);
      var j :| 0 <= j <= |s[1..]| && HasPrefix(s[1..][j..], sub);
      assert s[1..][j..] == s[j + 1..];
    }
  }

  /** strings.TrimPrefix: drop `prefix` when `s` starts with it. */
  function TrimPrefix(s: string, prefix: string): (r: string)
    ensures HasPrefix(s, prefix) ==> prefix + r == s
    ensures !HasPrefix(s, prefix) ==> r == s
  {
    if HasPrefix(s, prefix) then s[|prefix|..] else s
  }

  /** strings.TrimLeft with the one-character cut set {c}. */
  function TrimLeft(s: string, c: char): (r: string)
    ensures |r| <= |s|
    ensures r == [] || r[0] != c
    decreases |s|
  {
    if |s| > 0 && s[0] == c then TrimLeft(s[1..], c) else s
  }

  /** strings.TrimRight with the one-character cut set {c}. */
  function TrimRight(s: string, c: char): (r: string)
    ensures |r| <= |s|
    ensures r == [] || r[|r| - 1] != c
    decreases |s|
  {
    if |s| > 0 && s[|s| - 1] == c then TrimRight(s[..|s| - 1], c) else s
  }

  /** strings.Trim with the one-character cut set {c}: no `c` is left at either
      end. */
  function Trim(s: string, c: char): (r: string)
    ensures r == [] || (r[0] != c && r[|r| - 1] != c)
  {
    var l := TrimLeft(s, c);
    var r := TrimRight(l, c);
    TrimRightRemovesOnlyCutset(l, c);
    assert r != [] ==> r[0] == l[0];
    r
  }

  /** TrimLeft removes a run of `c` from the front and nothing else. */
  lemma {:induction false} TrimLeftRemovesOnlyCutset(s: string, c: char)
    ensures var r := TrimLeft(s, c);
      r == s[|s| - |r|..] && forall i :: 0 <= i < |s| - |r| ==> s[i] == c
    decreases |s|
  {
    if |s| > 0 && s[0] == c {
      TrimLeftRemovesOnlyCutset(s[1..], c);
    }
  }

  /** TrimRight removes a run of `c` from the back and nothing else. */
  lemma {:induction false} TrimRightRemovesOnlyCutset(s: string, c: char)
    ensures var r := TrimRight(s, c);
      r == s[..|r|] && forall i :: |r| <= i < |s| ==> s[i] == c
    decreases |s|
  {
    if |s| > 0 && s[|s| - 1] == c {
      TrimRightRemovesOnlyCutset(s[..|s| - 1], c);
    }
  }

  /** Trim keeps a contiguous piece of `s`; everything before and after it is `c`. */
  lemma TrimRemovesOnlyCutset(s: string, c: char)
    ensures var r := Trim(s, c);
      var k := |s| - |TrimLeft(s, c)|;
      && 0 <= k <= |s| - |r| && r == s[k..k + |r|]
      && (forall i :: 0 <= i < k ==> s[i] == c)
      && (forall i :: k + |r| <= i < |s| ==> s[i] == c)
  {
    var l := TrimLeft(s, c);
    TrimLeftRemovesOnlyCutset(s, c);
    TrimRightRemovesOnlyCutset(l, c);
    var k := |s| - |l|;
    var r := TrimRight(l, c);
    assert r == s[k..k + |r|];
    forall i | k + |r| <= i < |s| ensures s[i] == c {
      assert s[i] == l[i - k];
    }
  }

  /** strings.ReplaceAll(s, string(from), string(to)) for single characters. */
  function ReplaceAll(s: string, from: char, to: char): (r: string)
    ensures |r| == |s|
    decreases |s|
  {
    if s == [] then [] else ReplaceAll(s[..|s| - 1], from, to) + [if s[|s| - 1] == from then to else s[|s| - 1]]
  }

  /** Every `from` becomes `to`; every other character stays. */
  lemma {:induction false} ReplaceAllAt(s: string, from: char, to: char, i: nat)
    requires i < |s|
    ensures ReplaceAll(s, from, to)[i] == if s[i] == from then to else s[i]
    decreases |s|
  {
    if i < |s| - 1 {
      ReplaceAllAt(s[..|s| - 1], from, to, i);
    }
  }

  /** Replacing in a concatenation replaces in each part. */
  lemma {:induction false} ReplaceAllConcat(a: string, b: string, from: char, to: char)
    ensures ReplaceAll(a + b, from, to) == ReplaceAll(a, from, to) + ReplaceAll(b, from, to)
    decreases |b|
  {
    if b == [] {
      assert a + b == a;
    } else {
      var init := b[..|b| - 1];
      assert (a + b)[..|a + b| - 1] == a + init;
      ReplaceAllConcat(a, init, from, to);
    }
  }

  /** A string without `from` is left as it is. */
  lemma {:induction false} ReplaceAllAbsent(s: string, from: char, to: char)
    requires from !in s
    ensures ReplaceAll(s, from, to) == s
    decreases |s|
  {
    if s != [] {
      assert s[|s| - 1] != from;
      assert from !in s[..|s| - 1];
      ReplaceAllAbsent(s[..|s| - 1], from, to);
    }
  }

  /** When `to` differs from `from`, no `from` is left. */
  lemma {:induction false} ReplaceAllRemoves(s: string, from: char, to: char)
    requires from != to
    ensures from !in ReplaceAll(s, from, to)
    decreases |s|
  {
    if s != [] {
      ReplaceAllRemoves(s[..|s| - 1], from, to);
    }
  }

  /** The backward scan filepath.Split makes for the last separator: the
      position of the last `c` in `s`, or -1. */
  function LastIndex(s: string, c: char): (r: int)
    ensures -1 <= r < |s|
    ensures r >= 0 ==> s[r] == c
    ensures forall j :: r < j < |s| ==> s[j] != c
    decreases |s|
  {
    if s == [] then -1
    else if s[|s| - 1] == c then |s| - 1
    else LastIndex(s[..|s| - 1], c)
  }

  /** A `c` followed only by other characters is the last one. */
  lemma {:induction false} LastIndexBeforeTail(x: string, c: char, f: string)
    requires c !in f
    ensures LastIndex(x + [c] + f, c) == |x|
    decreases |f|
  {
    var s := x + [c] + f;
    if f != [] {
      var init := f[..|f| - 1];
      assert s[..|s| - 1] == x + [c] + init;
      assert s[|s| - 1] == f[|f| - 1];
      LastIndexBeforeTail(x, c, init);
    }
  }

  /** strings.Join */
  function Join(parts: seq<string>, sep: string): string
    decreases |parts|
  {
    if |parts| == 0 then []
    else if |parts| == 1 then parts[0]
    else Join(parts[..|parts| - 1], sep) + sep + parts[|parts| - 1]
  }

  /** The two halves filepath.Split returns. */
  datatype PathParts = PathParts(dir: string, file: string)

  /** filepath.Split on a system without volume names: everything up to and
      including the last separator, and the rest. */
  function SplitPath(path: string, sep: char): (r: PathParts)
    ensures r.dir + r.file == path
    ensures sep !in r.file
    ensures r.dir == [] || r.dir[|r.dir| - 1] == sep
  {
    var i := LastIndex(path, sep);
    PathParts(path[..i + 1], path[i + 1..])
  }
}
