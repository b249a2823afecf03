/** String primitives the scripts take from Python's `str`: `strip`, `split('\n')`,
    `startswith`, `endswith`, the substring test `in`, and `replace`. */
module Text {

  /** The characters for which Python's `str.isspace()` holds; `str.strip()` removes
      these, and the regular expressions' `\s` matches them. */
  predicate IsSpace(c: char) {
    c == ' ' || ('\t' <= c <= '\r') || ('\U{1C}' <= c <= '\U{1F}') || c == '\U{85}'
    || c == '\U{A0}' || c == '\U{1680}' || ('\U{2000}' <= c <= '\U{200A}') || c == '\U{2028}'
    || c == '\U{2029}' || c == '\U{202F}' || c == '\U{205F}' || c == '\U{3000}'
  }

  /** The regular expressions' `\d`: ASCII and full-width decimal digits. */
  predicate IsDigit(c: char) {
    ('0' <= c <= '9') || ('０' <= c <= '９')
  }

  ghost predicate AllSpace(s: string) {
    forall k :: 0 <= k < |s| ==> IsSpace(s[k])
  }

  /** The index of the first non-whitespace character of `s` at or after `i`, or `|s|`. */
  function SkipSpace(s: string, i: nat): (j: nat)
    requires i <= |s|
    ensures i <= j <= |s|
    ensures forall k :: i <= k < j ==> IsSpace(s[k])
    ensures j < |s| ==> !IsSpace(s[j])
    decreases |s| - i
  {
    if i < |s| && IsSpace(s[i]) then SkipSpace(s, i + 1) else i
  }

  /** The end of `s[..i]` once its trailing whitespace is dropped. */
  function SkipSpaceBack(s: string, i: nat): (j: nat)
    requires i <= |s|
    ensures j <= i
    ensures forall k :: j <= k < i ==> IsSpace(s[k])
    ensures j > 0 ==> !IsSpace(s[j - 1])
  {
    if i > 0 && IsSpace(s[i - 1]) then SkipSpaceBack(s, i - 1) else i
  }

  /** `s.lstrip()`: the longest suffix of `s` that does not start with whitespace. */
  function TrimLeft(s: string): (r: string)
    ensures |r| <= |s| && r == s[|s| - |r|..]
    ensures forall k :: 0 <= k < |s| - |r| ==> IsSpace(s[k])
    ensures r != [] ==> !IsSpace(r[0])
  {
    s[SkipSpace(s, 0)..]
  }

  /** `s.rstrip()`: the longest prefix of `s` that does not end with whitespace. */
  function TrimRight(s: string): (r: string)
    ensures |r| <= |s| && r == s[..|r|]
    ensures forall k :: |r| <= k < |s| ==> IsSpace(s[k])
    ensures r != [] ==> !IsSpace(r[|r| - 1])
  {
    s[..SkipSpaceBack(s, |s|)]
  }

  /** `s.strip()`: no longer than `s`, and with no whitespace at either end. */
  function Strip(s: string): (r: string)
    ensures |r| <= |s|
    ensures r != [] ==> !IsSpace(r[0]) && !IsSpace(r[|r| - 1])
  {
    TrimRight(TrimLeft(s))
  }

  /** `s.strip()` is empty exactly when every character of `s` is whitespace. */
  lemma StripEmpty(s: string)
    ensures Strip(s) == [] <==> AllSpace(s)
  {
    var l := TrimLeft(s);
    forall k | 0 <= k < |l| ensures l[k] == s[|s| - |l| + k] {}
    if Strip(s) == [] {
      assert |l| == 0;
    }
  }

  /** A string whose first character is not whitespace keeps it under `strip()`. */
  lemma StripKeepsFirst(s: string)
    requires |s| > 0 && !IsSpace(s[0])
    ensures |Strip(s)| > 0 && Strip(s)[0] == s[0]
  {
    assert TrimLeft(s) == s;
  }

  /** `strip()` is idempotent. */
  lemma StripIdempotent(s: string)
    ensures Strip(Strip(s)) == Strip(s)
  {
    var l := TrimLeft(s);
    var r := Strip(s);
    if r != [] {
      assert r[0] == l[0];
      assert TrimLeft(r) == r;
      assert TrimRight(r) == r;
    }
  }

  predicate StartsWith(s: string, p: string) {
    |p| <= |s| && s[..|p|] == p
  }

  /** Whether `s` starts with a one-character `p` is decided by its first character. */
  lemma StartsWithHead(s: string, p: string)
    requires |s| > 0 && |p| == 1
    ensures StartsWith(s, p) <==> s[0] == p[0]
  {
    assert s[..1] == [s[0]];
  }

  /** The prefix of `s` one character longer. */
  lemma TakeSnoc(s: string, k: nat)
    requires k < |s|
    ensures s[..k] + [s[k]] == s[..k + 1]
  {
  }

  predicate EndsWith(s: string, p: string) {
    |p| <= |s| && s[|s| - |p|..] == p
  }

  /** `p` occurs in `s` starting at index `i`. */
  predicate MatchAt(s: string, p: string, i: nat) {
    i + |p| <= |s| && s[i..i + |p|] == p
  }

  /** Python's substring test `p in s`. */
  ghost predicate Contains(s: string, p: string) {
    exists i: nat :: MatchAt(s, p, i)
  }

  /** Whether `p` occurs in `s` at some index from `i` on. */
  function InfixFrom(s: string, p: string, i: nat): (b: bool)
    ensures b <==> exists j: nat :: i <= j && MatchAt(s, p, j)
    decreases |s| - i
  {
    if i + |p| > |s| then
      assert forall j: nat :: i <= j ==> !MatchAt(s, p, j);
      false
    else if MatchAt(s, p, i) then true
    else InfixFrom(s, p, i + 1)
  }

  /** Python's `p in s`, computed. */
  function HasInfix(s: string, p: string): (b: bool)
    ensures b <==> Contains(s, p)
  {
    InfixFrom(s, p, 0)
  }

  /** An occurrence of `p` in `b` is an occurrence in `a + b`, shifted by `|a|`. */
  lemma MatchAppend(a: string, b: string, p: string, i: nat)
    ensures MatchAt(a + b, p, |a| + i) <==> MatchAt(b, p, i)
  {
    if i + |p| <= |b| {
      assert (a + b)[|a| + i..|a| + i + |p|] == b[i..i + |p|];
    }
  }

  /** `p` cannot occur at an index holding a character other than its first. */
  lemma MatchNotHead(s: string, p: string, i: nat)
    requires |p| > 0 && i < |s| && s[i] != p[0]
    ensures !MatchAt(s, p, i)
  {
    if i + |p| <= |s| {
      assert s[i..i + |p|][0] == s[i];
    }
  }

  /** The index of the first occurrence of `c` in `s` (`s.index(c)`). */
  function IndexOf(s: string, c: char): (i: nat)
    requires c in s
    ensures i < |s| && s[i] == c
    ensures forall k :: 0 <= k < i ==> s[k] != c
  {
    if s[0] == c then 0 else 1 + IndexOf(s[1..], c)
  }

  /** An index holding `c` with no `c` before it is the first occurrence. */
  lemma IndexOfAt(s: string, c: char, i: nat)
    requires i < |s| && s[i] == c
    requires forall k :: 0 <= k < i ==> s[k] != c
    ensures IndexOf(s, c) == i
  {
  }

  /** `line.split(sep)`: the pieces between the separators, never an empty list. */
  function Split(s: string, sep: char): (r: seq<string>)
    ensures |r| >= 1
    ensures |r| == 1 <==> sep !in s
    ensures sep !in s ==> r == [s]
    ensures forall k :: 0 <= k < |r| ==> sep !in r[k]
    ensures Join(r, sep) == s
    decreases |s|
  {
    if sep !in s then [s]
    else
      var i := IndexOf(s, sep);
      assert s == s[..i] + [sep] + s[i + 1..];
      [s[..i]] + Split(s[i + 1..], sep)
  }

  /** `sep.join(pieces)`. */
  function Join(pieces: seq<string>, sep: char): string
    requires |pieces| >= 1
  {
    if |pieces| == 1 then pieces[0] else pieces[0] + [sep] + Join(pieces[1..], sep)
  }

  /** Splitting a join of separator-free pieces gives the pieces back. */
  lemma {:induction false} SplitJoin(pieces: seq<string>, sep: char)
    requires |pieces| >= 1
    requires forall k :: 0 <= k < |pieces| ==> sep !in pieces[k]
    ensures Split(Join(pieces, sep), sep) == pieces
  {
    if |pieces| > 1 {
      var p := pieces[0];
      var s := Join(pieces, sep);
      var rest := Join(pieces[1..], sep);
      assert s == p + [sep] + rest;
      assert s[|p|] == sep;
      forall k | 0 <= k < |p| ensures s[k] != sep {
        assert s[k] == p[k];
      }
      var i := IndexOf(s, sep);
      assert i == |p|;
      assert s[..i] == p;
      assert s[i + 1..] == rest;
      assert Split(s, sep) == [p] + Split(rest, sep);
      SplitJoin(pieces[1..], sep);
    }
  }

  /** Python's `s.replace(pat, rep)` for a non-empty pattern: occurrences are found left to
      right and do not overlap. Every character of the result comes from `s` or from `rep`,
      and a one-character pattern that `rep` does not hold is gone from the result. */
  function Replace(s: string, pat: string, rep: string): (r: string)
    requires |pat| > 0
    ensures forall c :: c in r ==> c in s || c in rep
    ensures |pat| == 1 && pat[0] !in rep ==> pat[0] !in r
    decreases |s|
  {
    if |s| < |pat| then s
    else if MatchAt(s, pat, 0) then rep + Replace(s[|pat|..], pat, rep)
    else [s[0]] + Replace(s[1..], pat, rep)
  }

  /** Where no occurrence of `pat` starts before index `k`, replacement copies `s[..k]`. */
  lemma {:induction false} ReplaceCopies(s: string, pat: string, rep: string, k: nat)
    requires |pat| > 0 && k <= |s|
    requires forall j: nat :: j < k ==> !MatchAt(s, pat, j)
    ensures Replace(s, pat, rep) == s[..k] + Replace(s[k..], pat, rep)
    decreases |s|, 1
  {
    if k > 0 {
      if |s| >= |pat| {
        var t := s[1..];
        var tail := Replace(s[k..], pat, rep);
        calc {
          Replace(s, pat, rep);
          == { assert !MatchAt(s, pat, 0); }
          [s[0]] + Replace(t, pat, rep);
          == { ReplaceCopiesTail(s, t, pat, rep, k); }
          [s[0]] + (t[..k - 1] + tail);
          == { assert [s[0]] + t[..k - 1] == s[..k]; }
          s[..k] + tail;
        }
      } else {
        assert Replace(s[k..], pat, rep) == s[k..];
        assert s == s[..k] + s[k..];
      }
    }
  }

  /** The inductive step of `ReplaceCopies`, on the string without its first character. */
  lemma {:induction false} ReplaceCopiesTail(s: string, t: string, pat: string, rep: string, k: nat)
    requires |pat| > 0 && 0 < k <= |s| && t == s[1..]
    requires forall j: nat :: j < k ==> !MatchAt(s, pat, j)
    ensures Replace(t, pat, rep) == t[..k - 1] + Replace(s[k..], pat, rep)
    decreases |s|, 0
  {
    forall j: nat | j < k - 1 ensures !MatchAt(t, pat, j) {
      assert !MatchAt(s, pat, 1 + j);
      assert s == [s[0]] + t;
      MatchAppend([s[0]], t, pat, j);
    }
    ReplaceCopies(t, pat, rep, k - 1);
    assert t[k - 1..] == s[k..];
  }

  /** A proper prefix `u` followed by the replacement of `t` does not start with `q` if
      `u + t` does not: a non-empty `rep` that starts with a character `q` lacks cannot
      complete an occurrence begun in `u`. */
  lemma {:induction false} ReplaceHead(u: string, t: string, q: string, pat: string, rep: string)
    requires |pat| > 0 && |rep| > 0 && rep[0] !in q
    requires 1 <= |u| < |q|
    requires !MatchAt(u + t, q, 0)
    ensures !MatchAt(u + Replace(t, pat, rep), q, 0)
    decreases |t|
  {
    var r := Replace(t, pat, rep);
    if |t| < |pat| {
    } else if MatchAt(t, pat, 0) {
      assert (u + r)[|u|] == rep[0];
      assert q[|u|] != rep[0];
    } else {
      var u' := u + [t[0]];
      assert u + r == u' + Replace(t[1..], pat, rep);
      assert u + t == u' + t[1..];
      if |u'| == |q| {
        assert (u + t)[..|q|] == u';
        assert (u + r)[..|q|] == u';
      } else {
        ReplaceHead(u', t[1..], q, pat, rep);
      }
    }
  }

  /** An occurrence of `q` at the head survives replacement when `pat` cannot start
      inside it. */
  lemma ReplaceKeepsHead(s: string, q: string, pat: string, rep: string)
    requires |pat| > 0 && |q| > 0 && pat[0] !in q
    requires MatchAt(s, q, 0)
    ensures MatchAt(Replace(s, pat, rep), q, 0)
  {
    var r := Replace(s, pat, rep);
    if |s| >= |pat| {
      var t := s[1..];
      assert r == [s[0]] + Replace(t, pat, rep) by {
        assert !MatchAt(s, pat, 0) by {
          assert s[0] == q[0] by { assert s[..|q|][0] == s[0]; }
          assert s[..|pat|][0] == s[0];
        }
      }
      assert Replace(t, pat, rep)[..|q| - 1] == t[..|q| - 1] by {
        forall j: nat | j < |q| - 1 ensures !MatchAt(t, pat, j) {
          assert t[j] == q[j + 1] by { assert s[..|q|][j + 1] == s[j + 1]; }
          MatchNotHead(t, pat, j);
        }
        ReplaceCopies(t, pat, rep, |q| - 1);
      }
      assert r[..|q|] == [s[0]] + t[..|q| - 1] == s[..|q|];
    } else {
      assert r == s;
    }
  }

  /** Replacement keeps every occurrence of `q` when `q` and `pat` cannot overlap. */
  lemma {:induction false} ReplaceKeeps(s: string, q: string, pat: string, rep: string)
    requires |pat| > 0 && |q| > 0 && q[0] !in pat && pat[0] !in q
    requires Contains(s, q)
    ensures Contains(Replace(s, pat, rep), q)
    decreases |s|
  {
    var i: nat :| MatchAt(s, q, i);
    var r := Replace(s, pat, rep);
    if i == 0 {
      ReplaceKeepsHead(s, q, pat, rep);
    } else if |s| < |pat| {
      assert MatchAt(r, q, i);
    } else if MatchAt(s, pat, 0) {
      var s' := s[|pat|..];
      assert i >= |pat| by {
        assert s[i] == q[0] by { assert s[i..i + |q|][0] == s[i]; }
        forall k | 0 <= k < |pat| ensures s[k] != q[0] {
          assert s[k] == s[..|pat|][k];
        }
      }
      assert s == s[..|pat|] + s';
      MatchAppend(s[..|pat|], s', q, i - |pat|);
      ReplaceKeeps(s', q, pat, rep);
      var R := Replace(s', pat, rep);
      var j: nat :| MatchAt(R, q, j);
      MatchAppend(rep, R, q, j);
    } else {
      assert s == [s[0]] + s[1..];
      MatchAppend([s[0]], s[1..], q, i - 1);
      ReplaceKeeps(s[1..], q, pat, rep);
      var R := Replace(s[1..], pat, rep);
      var j: nat :| MatchAt(R, q, j);
      MatchAppend([s[0]], R, q, j);
    }
  }

  /** Replacement creates no occurrence of `q` when `q` cannot start inside `rep` nor run
      into it. */
  lemma {:induction false} ReplaceCreatesNone(s: string, q: string, pat: string, rep: string)
    requires |pat| > 0 && |rep| > 0 && |q| > 0 && q[0] !in rep && rep[0] !in q
    requires !Contains(s, q)
    ensures !Contains(Replace(s, pat, rep), q)
    decreases |s|
  {
    var r := Replace(s, pat, rep);
    if |s| < |pat| {
    } else if MatchAt(s, pat, 0) {
      var s' := s[|pat|..];
      var R := Replace(s', pat, rep);
      assert !Contains(R, q) by {
        assert s == s[..|pat|] + s';
        forall j: nat ensures !MatchAt(s', q, j) {
          assert !MatchAt(s, q, |pat| + j);
          MatchAppend(s[..|pat|], s', q, j);
        }
        ReplaceCreatesNone(s', q, pat, rep);
      }
      assert r == rep + R;
      forall i: nat ensures !MatchAt(r, q, i) {
        if i < |rep| {
          assert r[i] == rep[i];
          MatchNotHead(r, q, i);
        } else {
          assert !MatchAt(R, q, i - |rep|);
          MatchAppend(rep, R, q, i - |rep|);
        }
      }
    } else {
      var s' := s[1..];
      var R := Replace(s', pat, rep);
      assert r == [s[0]] + R;
      assert s == [s[0]] + s';
      assert !Contains(R, q) by {
        forall j: nat ensures !MatchAt(s', q, j) {
          assert !MatchAt(s, q, 1 + j);
          MatchAppend([s[0]], s', q, j);
        }
        ReplaceCreatesNone(s', q, pat, rep);
      }
      forall i: nat ensures !MatchAt(r, q, i) {
        if i > 0 {
          assert !MatchAt(R, q, i - 1);
          MatchAppend([s[0]], R, q, i - 1);
        } else if |q| == 1 {
          assert !MatchAt(s, q, 0);
          assert r[..1] == s[..1];
        } else {
          ReplaceHead([s[0]], s', q, pat, rep);
        }
      }
    }
  }

  /** After replacement no occurrence of `pat` is left, when `rep` holds no first character
      of `pat` and starts with a character `pat` lacks. */
  lemma {:induction false} ReplaceLeavesNone(s: string, pat: string, rep: string)
    requires |pat| > 0 && |rep| > 0 && pat[0] !in rep && rep[0] !in pat
    ensures !Contains(Replace(s, pat, rep), pat)
    decreases |s|
  {
    var r := Replace(s, pat, rep);
    if |s| < |pat| {
    } else if MatchAt(s, pat, 0) {
      var R := Replace(s[|pat|..], pat, rep);
      ReplaceLeavesNone(s[|pat|..], pat, rep);
      forall i: nat ensures !MatchAt(r, pat, i) {
        if i < |rep| {
          assert r[i] == rep[i];
          MatchNotHead(r, pat, i);
        } else {
          assert !MatchAt(R, pat, i - |rep|);
          MatchAppend(rep, R, pat, i - |rep|);
        }
      }
    } else {
      var R := Replace(s[1..], pat, rep);
      assert r == [s[0]] + R;
      ReplaceLeavesNone(s[1..], pat, rep);
      forall i: nat ensures !MatchAt(r, pat, i) {
        if i > 0 {
          assert !MatchAt(R, pat, i - 1);
          MatchAppend([s[0]], R, pat, i - 1);
        } else if |pat| == 1 {
          assert r[..1] == s[..1];
        } else {
          assert [s[0]] + s[1..] == s;
          ReplaceHead([s[0]], s[1..], pat, pat, rep);
        }
      }
    }
  }

  /** Every occurrence of `pat` turns into an occurrence of `rep`: if `s` contains `pat`, the
      result contains `rep`. */
  lemma {:induction false} ReplaceIntroduces(s: string, pat: string, rep: string)
    requires |pat| > 0 && Contains(s, pat)
    ensures Contains(Replace(s, pat, rep), rep)
    decreases |s|
  {
    var r := Replace(s, pat, rep);
    if MatchAt(s, pat, 0) {
      assert MatchAt(r, rep, 0);
    } else {
      var i: nat :| MatchAt(s, pat, i);
      assert i > 0;
      assert s == [s[0]] + s[1..];
      MatchAppend([s[0]], s[1..], pat, i - 1);
      ReplaceIntroduces(s[1..], pat, rep);
      var R := Replace(s[1..], pat, rep);
      var j: nat :| MatchAt(R, rep, j);
      MatchAppend([s[0]], R, rep, j);
    }
  }

  /** A string that contains `p` contains every piece of `p`. */
  lemma ContainsInfix(s: string, p: string, a: nat, b: nat)
    requires a <= b <= |p| && Contains(s, p)
    ensures Contains(s, p[a..b])
  {
    var i: nat :| MatchAt(s, p, i);
    assert p[a..b] == s[i + a..i + b] by {
      forall k | 0 <= k < b - a ensures p[a..b][k] == s[i + a + k] {
        assert p[a + k] == s[i..i + |p|][a + k];
      }
    }
    assert MatchAt(s, p[a..b], i + a);
  }

  /** Replacing a one-character pattern distributes over concatenation. */
  lemma {:induction false} ReplaceCharConcat(a: string, b: string, c: char, rep: string)
    ensures Replace(a + b, [c], rep) == Replace(a, [c], rep) + Replace(b, [c], rep)
    decreases |a|
  {
    if a != [] {
      assert (a + b)[1..] == a[1..] + b;
      assert (a + b)[..1] == a[..1];
      ReplaceCharConcat(a[1..], b, c, rep);
    } else {
      assert a + b == b;
    }
  }

  /** Deleting characters distributes over concatenation. */
  lemma {:induction false} RemoveCharsConcat(a: string, b: string, cs: set<char>)
    ensures RemoveChars(a + b, cs) == RemoveChars(a, cs) + RemoveChars(b, cs)
  {
    if a == [] {
      assert a + b == b;
    } else {
      assert (a + b)[1..] == a[1..] + b;
      RemoveCharsConcat(a[1..], b, cs);
    }
  }

  /** `s` with every character of `cs` deleted (`re.sub` with a character alternation). */
  function RemoveChars(s: string, cs: set<char>): (r: string)
    ensures forall c :: c in r <==> c in s && c !in cs
    ensures |r| <= |s|
  {
    if s == [] then []
    else (if s[0] in cs then [] else [s[0]]) + RemoveChars(s[1..], cs)
  }
}
