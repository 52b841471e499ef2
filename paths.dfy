/** POSIX path helpers with the semantics of Node's `path.parse(p).base`
    and `path.extname(p)`. */
module Paths {
  import opened Strings

  /** Index of the last `c` in `p`, or -1 (`lastIndexOf`). */
  function LastIndexOf(p: string, c: char): (r: int)
    ensures -1 <= r < |p|
    ensures r >= 0 ==> p[r] == c
    ensures forall i :: r < i < |p| ==> p[i] != c
  {
    if |p| == 0 then -1
    else if p[|p| - 1] == c then |p| - 1
    else LastIndexOf(p[..|p| - 1], c)
  }

  /** A `c` with no `c` after it is the last one. */
  lemma LastIndexOfAt(p: string, c: char, k: nat)
    requires k < |p| && p[k] == c
    requires forall i :: k < i < |p| ==> p[i] != c
    ensures LastIndexOf(p, c) == k
  {
    var r := LastIndexOf(p, c);
    assert r >= k;
  }

  lemma NoneAfter(a: string, b: string, c: char)
    requires c !in b
    ensures forall i :: |a| < i < |a| + 1 + |b| ==> (a + [c] + b)[i] != c
  {
    forall i | |a| < i < |a| + 1 + |b| ensures (a + [c] + b)[i] != c {
      assert (a + [c] + b)[i] == b[i - |a| - 1];
    }
  }

  /** The last `c` of `a + [c] + b` is the one between them when `b` has none. */
  lemma LastIndexOfConcat(a: string, b: string, c: char)
    requires c !in b
    ensures LastIndexOf(a + [c] + b, c) == |a|
  {
    var p := a + [c] + b;
    assert p[|a|] == c;
    NoneAfter(a, b, c);
    LastIndexOfAt(p, c, |a|);
  }

  function StripTrailingSlashes(p: string): (r: string)
    ensures |r| <= |p| && r == p[..|r|]
    ensures |r| > 0 ==> r[|r| - 1] != '/'
  {
    if |p| > 0 && p[|p| - 1] == '/' then StripTrailingSlashes(p[..|p| - 1]) else p
  }

  /** The last path segment, trailing separators ignored. */
  function BaseName(p: string): (r: string)
    ensures '/' !in r
  {
    var q := StripTrailingSlashes(p);
    q[LastIndexOf(q, '/') + 1..]
  }

  /** `path.extname`: from the last `.` of the base name to its end; empty
      when the base name has no `.`, starts with its only `.`, or is `..`. */
  function ExtName(p: string): (r: string)
    ensures r == "" || (r[0] == '.' && EndsWith(BaseName(p), r) && '.' !in r[1..])
  {
    var base := BaseName(p);
    var d := LastIndexOf(base, '.');
    if d <= 0 || IsDotDot(base) then ""
    else
      assert base[|base| - |base[d..]|..] == base[d..];
      base[d..]
  }

  predicate IsDotDot(s: string) {
    |s| == 2 && s[0] == '.' && s[1] == '.'
  }

  /** The base name of `dir/name` is `name`, whatever the directories. */
  lemma BaseNameOfChild(dir: string, name: string)
    requires |name| > 0 && '/' !in name
    ensures BaseName(dir + "/" + name) == name
    ensures BaseName(name) == name
  {
    var p := dir + "/" + name;
    assert p[|p| - 1] == name[|name| - 1] != '/';
    assert StripTrailingSlashes(p) == p;
    LastIndexOfConcat(dir, name, '/');
    assert p[|dir| + 1..] == name;
    assert StripTrailingSlashes(name) == name;
    assert LastIndexOf(name, '/') == -1;
  }

  /** A base name `stem.ext` (with a non-empty stem, and not `..`) has
      extension `.ext`, where `ext` is everything after the last dot. */
  lemma ExtNameOfBase(p: string, stem: string, e: string)
    requires BaseName(p) == stem + "." + e
    requires |stem| > 0 && '.' !in e && !(stem == "." && e == "")
    ensures ExtName(p) == "." + e
  {
    var base := BaseName(p);
    assert base == stem + ['.'] + e;
    LastIndexOfConcat(stem, e, '.');
    assert base[|stem|..] == "." + e;
    assert IsDotDot(base) ==> stem == ".";
  }

  /** The extension of `dir/name` is `name[k..]` when `k` (not 0) is the
      position of the last dot of `name`, whatever the directories. */
  lemma ExtNameOfChild(dir: string, name: string, k: nat)
    requires '/' !in name && 0 < k < |name| && name[k] == '.'
    requires forall i :: k < i < |name| ==> name[i] != '.'
    requires !IsDotDot(name)
    ensures ExtName(dir + "/" + name) == name[k..]
  {
    BaseNameOfChild(dir, name);
    var d := LastIndexOf(name, '.');
    assert d == k;
  }

  /** A base name without a dot has no extension. */
  lemma ExtNameNoDot(p: string)
    requires '.' !in BaseName(p)
    ensures ExtName(p) == ""
  {
    var base := BaseName(p);
    var d := LastIndexOf(base, '.');
    assert d < 0;
  }

  /** A path ending in a suffix without `/` has a base name ending in that
      suffix. */
  lemma BaseNameSuffix(p: string, suf: string)
    requires |suf| > 0 && '/' !in suf && EndsWith(p, suf)
    ensures EndsWith(BaseName(p), suf)
  {
    var n := |p| - |suf|;
    assert p[|p| - 1] == suf[|suf| - 1];
    assert StripTrailingSlashes(p) == p;
    forall i | n <= i < |p| ensures p[i] != '/' {
      assert p[i] == suf[i - n];
    }
    var r := LastIndexOf(p, '/');
    assert r < n;
    assert p[r + 1..][|p| - (r + 1) - |suf|..] == suf;
  }

  /** A path ending in `pre` + `ext`, where `ext` is a dot followed by a
      non-empty text without a dot, and neither part has a separator, has
      the extension `ext`. */
  lemma ExtNameBySuffix(p: string, pre: string, ext: string)
    requires |pre| > 0 && '/' !in pre && '/' !in ext
    requires |ext| > 1 && ext[0] == '.' && '.' !in ext[1..]
    requires EndsWith(p, pre + ext)
    ensures ExtName(p) == ext
  {
    var suf := pre + ext;
    assert '/' !in suf;
    BaseNameSuffix(p, suf);
    var base := BaseName(p);
    var stem := base[..|base| - |ext|];
    assert base[|base| - |suf|..] == suf;
    assert base[|base| - |ext|..] == ext;
    assert base == stem + "." + ext[1..];
    ExtNameOfBase(p, stem, ext[1..]);
  }
}
