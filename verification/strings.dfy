/**
 The few Python string operations the two scripts rely on: `str.lower`,
 `str.endswith`, `str.replace`, `str.split('.')[0]` and the POSIX
 `os.path.join` / `os.path.basename` pair. Strings are `seq<char>`.
 */
module Strings {

  predicate StartsWith(s: string, prefix: string) {
    |prefix| <= |s| && s[..|prefix|] == prefix
  }

  predicate EndsWith(s: string, suffix: string) {
    |suffix| <= |s| && s[|s| - |suffix|..] == suffix
  }

  /** `p` occurs in `s` starting at index `i`. */
  predicate OccursAt(s: string, p: string, i: int) {
    0 <= i && i + |p| <= |s| && s[i..i + |p|] == p
  }

  /** Python's `p in s` for strings. */
  predicate Contains(s: string, p: string) {
    exists i :: 0 <= i <= |s| - |p| && OccursAt(s, p, i)
  }

  /** `c` is nowhere in `s`. */
  predicate Lacks(s: string, c: char) {
    forall i :: 0 <= i < |s| ==> s[i] != c
  }

  function LowerChar(c: char): char {
    if 'A' <= c <= 'Z' then (c as int + 32) as char else c
  }

  /** `str.lower` on the ASCII range; every other character is kept. */
  function Lower(s: string): string {
    seq(|s|, i requires 0 <= i < |s| => LowerChar(s[i]))
  }

  /**
   `s.replace(pat, rep)`: scan from the left, replace each occurrence of
   `pat` and continue after it, so that replaced occurrences never overlap.
   */
  function Replace(s: string, pat: string, rep: string): string
    requires |pat| > 0
    decreases |s|
  {
    if |s| < |pat| then s
    else if StartsWith(s, pat) then rep + Replace(s[|pat|..], pat, rep)
    else [s[0]] + Replace(s[1..], pat, rep)
  }

  /** A marker such as `<OD>`: `<`, then characters other than `<` and `>`, then `>`. */
  predicate Marker(m: string) {
    && |m| >= 2
    && m[0] == '<'
    && m[|m| - 1] == '>'
    && Lacks(m[1..|m| - 1], '<')
    && Lacks(m[1..|m| - 1], '>')
  }

  /** Text without angle brackets. */
  predicate Plain(r: string) {
    Lacks(r, '<') && Lacks(r, '>')
  }

  lemma OccursInSuffix(s: string, p: string, k: nat, i: int)
    requires k <= |s|
    requires OccursAt(s[k..], p, i)
    ensures OccursAt(s, p, i + k)
  {
    assert s[k..][i..i + |p|] == s[i + k..i + k + |p|];
  }

  lemma ContainsSuffix(s: string, p: string, k: nat)
    requires k <= |s|
    requires Contains(s[k..], p)
    ensures Contains(s, p)
  {
    var i :| OccursAt(s[k..], p, i);
    OccursInSuffix(s, p, k, i);
  }

  /** A character of `r` that `m` lacks keeps `r` from occurring inside `m`. */
  lemma NotContainedByChar(m: string, r: string, j: nat)
    requires j < |r| && Lacks(m, r[j])
    ensures !Contains(m, r)
  {
  }

  /** Replacing a pattern that does not occur changes nothing. */
  lemma {:induction false} ReplaceAbsent(s: string, pat: string, rep: string)
    requires |pat| > 0
    requires !Contains(s, pat)
    ensures Replace(s, pat, rep) == s
    decreases |s|
  {
    if |s| < |pat| {
    } else {
      assert !OccursAt(s, pat, 0);
      assert s[..|pat|] == s[0..0 + |pat|];
      if Contains(s[1..], pat) {
        ContainsSuffix(s, pat, 1);
      }
      ReplaceAbsent(s[1..], pat, rep);
      assert s == [s[0]] + s[1..];
    }
  }

  lemma StartsWithCons(s: string, q: string)
    requires |s| > 0 && |q| > 0
    ensures StartsWith(s, q) <==> s[0] == q[0] && StartsWith(s[1..], q[1..])
  {
    if s[0] == q[0] && StartsWith(s[1..], q[1..]) {
      assert s[..|q|] == [s[0]] + s[1..][..|q| - 1];
    }
    if StartsWith(s, q) {
      assert s[1..][..|q| - 1] == s[..|q|][1..];
    }
  }

  /**
   Plain text that does not occur inside marker `q` cannot begin a tail
   `q[k..]` of it: the tail ends in `>`, which the text lacks, and a tail
   longer than the text would contain it.
   */
  lemma PlainBlocksTail(r: string, rest: string, q: string, k: nat)
    requires Marker(q) && 1 <= k < |q|
    requires Plain(r) && !Contains(q, r)
    ensures !StartsWith(r + rest, q[k..])
  {
    var v := q[k..];
    var out := r + rest;
    if |v| <= |out| {
      if |v| <= |r| {
        assert out[..|v|][|v| - 1] == r[|v| - 1];
        assert v[|v| - 1] == '>';
      } else {
        assert !OccursAt(q, r, k);
        assert out[..|v|][..|r|] == r;
        assert v[..|r|] == q[k..k + |r|];
      }
    }
  }

  /**
   Replacing pattern `p` by plain text `r` cannot make `t` start with a tail
   `q[k..]` of a marker `q` unless `t` already did.
   */
  lemma {:induction false} ReplaceKeepsTail(t: string, p: string, r: string, q: string, k: nat)
    requires |p| > 0 && p[0] == '<'
    requires Marker(q) && 1 <= k < |q|
    requires Plain(r) && !Contains(q, r)
    ensures StartsWith(Replace(t, p, r), q[k..]) ==> StartsWith(t, q[k..])
    decreases |t|
  {
    var v := q[k..];
    var out := Replace(t, p, r);
    if |t| < |p| {
    } else if StartsWith(t, p) {
      PlainBlocksTail(r, Replace(t[|p|..], p, r), q, k);
    } else {
      var rest := Replace(t[1..], p, r);
      assert out == [t[0]] + rest;
      StartsWithCons(out, v);
      StartsWithCons(t, v);
      assert v[1..] == q[k + 1..];
      if k + 1 < |q| {
        ReplaceKeepsTail(t[1..], p, r, q, k + 1);
      }
    }
  }

  lemma PlainPrefixNoMarker(r: string, rest: string, q: string)
    requires |q| > 0 && q[0] == '<' && Lacks(r, '<')
    requires !Contains(rest, q)
    ensures !Contains(r + rest, q)
  {
    var out := r + rest;
    forall i | 0 <= i <= |out| - |q|
      ensures !OccursAt(out, q, i)
    {
      if i < |r| {
        assert out[i..i + |q|][0] == r[i];
      } else {
        assert !OccursAt(rest, q, i - |r|);
        assert out[i..i + |q|] == rest[i - |r|..i - |r| + |q|];
      }
    }
  }

  lemma CharPrefixNoMarker(c: char, rest: string, q: string)
    requires !Contains(rest, q) && !StartsWith([c] + rest, q)
    ensures !Contains([c] + rest, q)
  {
    var out := [c] + rest;
    forall i | 0 <= i <= |out| - |q|
      ensures !OccursAt(out, q, i)
    {
      if i == 0 {
        assert out[0..|q|] == out[..|q|];
      } else {
        assert !OccursAt(rest, q, i - 1);
        assert out[i..i + |q|] == rest[i - 1..i - 1 + |q|];
      }
    }
  }

  /**
   Replacing a pattern by plain text leaves no marker `q` behind: neither
   the pattern itself (when `q` is the pattern) nor a marker absent before.
   */
  lemma {:induction false} ReplaceLeavesNoMarker(s: string, p: string, r: string, q: string)
    requires |p| > 0 && p[0] == '<'
    requires Marker(q)
    requires Plain(r) && !Contains(q, r)
    requires p == q || !Contains(s, q)
    ensures !Contains(Replace(s, p, r), q)
    decreases |s|
  {
    if |s| < |p| {
    } else if StartsWith(s, p) {
      var rest := Replace(s[|p|..], p, r);
      if Contains(s[|p|..], q) {
        ContainsSuffix(s, q, |p|);
      }
      ReplaceLeavesNoMarker(s[|p|..], p, r, q);
      PlainPrefixNoMarker(r, rest, q);
    } else {
      var rest := Replace(s[1..], p, r);
      var out := [s[0]] + rest;
      if Contains(s[1..], q) {
        ContainsSuffix(s, q, 1);
      }
      ReplaceLeavesNoMarker(s[1..], p, r, q);
      assert !StartsWith(s, q) by {
        if |q| <= |s| {
          assert s[0..|q|] == s[..|q|];
          assert !OccursAt(s, q, 0);
        }
      }
      StartsWithCons(s, q);
      ReplaceKeepsTail(s[1..], p, r, q, 1);
      StartsWithCons(out, q);
      CharPrefixNoMarker(s[0], rest, q);
    }
  }

  /** Equal strings with the same prefix and suffix have the same middle. */
  lemma SameMiddle(a: string, x: string, y: string, t: string)
    requires a + x + t == a + y + t
    ensures x == y
  {
    assert |x| == |y|;
    assert (a + x + t)[|a|..|a| + |x|] == x;
    assert (a + y + t)[|a|..|a| + |y|] == y;
  }

  /** POSIX `os.path.basename`: the part after the last `/`. */
  function Basename(path: string): (b: string)
    ensures Lacks(b, '/')
    ensures EndsWith(path, b)
    ensures |b| < |path| ==> path[|path| - |b| - 1] == '/'
    decreases |path|
  {
    if |path| == 0 then ""
    else if path[|path| - 1] == '/' then ""
    else
      var rest := Basename(path[..|path| - 1]);
      BasenameStep(path, rest);
      rest + [path[|path| - 1]]
  }

  /** The basename grows by the last character when that character is not `/`. */
  lemma BasenameStep(path: string, rest: string)
    requires |path| > 0 && path[|path| - 1] != '/'
    requires Lacks(rest, '/') && EndsWith(path[..|path| - 1], rest)
    requires |rest| < |path| - 1 ==> path[|path| - |rest| - 2] == '/'
    ensures Lacks(rest + [path[|path| - 1]], '/')
    ensures EndsWith(path, rest + [path[|path| - 1]])
  {
    var front := path[..|path| - 1];
    var c := path[|path| - 1];
    var b := rest + [c];
    forall i | 0 <= i < |b|
      ensures b[i] != '/'
    {
      if i < |rest| {
        assert b[i] == rest[i];
      }
    }
    assert path == front + [c];
    assert path[|path| - |b|..] == front[|front| - |rest|..] + [c];
  }

  /** POSIX `os.path.join(dir, name)` for a name that is not absolute. */
  function Join(dir: string, name: string): string {
    if |dir| == 0 || dir[|dir| - 1] == '/' then dir + name else dir + "/" + name
  }

  /** Joining a directory entry onto a directory and taking the basename gives the entry back. */
  lemma {:induction false} BasenameOfJoin(dir: string, name: string)
    requires Lacks(name, '/')
    ensures Basename(Join(dir, name)) == name
    decreases |name|
  {
    if |name| > 0 {
      var front, last := name[..|name| - 1], name[|name| - 1];
      assert name == front + [last];
      assert Lacks(front, '/') && last != '/';
      JoinSnoc(dir, front, last);
      BasenameSnoc(Join(dir, front), last);
      BasenameOfJoin(dir, front);
    } else {
      var j := Join(dir, name);
      assert |j| == 0 || j[|j| - 1] == '/';
    }
  }

  lemma JoinSnoc(dir: string, name: string, c: char)
    ensures Join(dir, name + [c]) == Join(dir, name) + [c]
  {
  }

  /** Appending a character other than `/` appends it to the basename. */
  lemma BasenameSnoc(path: string, c: char)
    requires c != '/'
    ensures Basename(path + [c]) == Basename(path) + [c]
  {
    assert (path + [c])[..|path|] == path;
  }

  /** `s.split('.')[0]`: everything before the first `.`, or all of `s`. */
  function BeforeFirstDot(s: string): (stem: string)
    decreases |s|
  {
    if |s| == 0 || s[0] == '.' then "" else [s[0]] + BeforeFirstDot(s[1..])
  }

  /**
   The first field of a split on `.` is the longest dot-free prefix: it is
   a prefix, it holds no `.`, and it is either all of `s` or followed by `.`.
   */
  lemma {:induction false} BeforeFirstDotIsDotFreePrefix(s: string)
    ensures StartsWith(s, BeforeFirstDot(s))
    ensures Lacks(BeforeFirstDot(s), '.')
    ensures BeforeFirstDot(s) == s || s[|BeforeFirstDot(s)|] == '.'
    decreases |s|
  {
    if |s| > 0 && s[0] != '.' {
      BeforeFirstDotIsDotFreePrefix(s[1..]);
      var stem := BeforeFirstDot(s);
      assert stem == [s[0]] + BeforeFirstDot(s[1..]);
      assert s[..|stem|] == [s[0]] + s[1..][..|stem| - 1];
      if BeforeFirstDot(s[1..]) == s[1..] {
        assert stem == s;
      }
    }
  }
}
