/** The filename sanitiser of `download_music` (download.py and download_list.py):
    `|` becomes `" -"`, then `?`, `:`, `"`, `<`, `>` and `*` are deleted. */
module Sanitize {
  import opened Text

  /** The characters the last six `replace` calls delete. */
  const Dropped: set<char> := {'?', ':', '\"', '<', '>', '*'}

  /** A character the sanitised name never holds. */
  predicate Forbidden(c: char) {
    c == '|' || c in Dropped
  }

  /** `song_title.replace("|", " -").replace("?", "")` ... `.replace("*", "")`, call for call.
      The sanitised name holds none of `| ? : " < > *`, and no character that was not in
      the title except the space and the dash that replace a vertical bar. */
  function SafeTitle(title: string): (r: string)
    ensures forall k :: 0 <= k < |r| ==> !Forbidden(r[k])
    ensures forall c :: c in r ==> c in title || c == ' ' || c == '-'
  {
    var s1 := Replace(title, "|", " -");
    var s2 := Replace(s1, "?", "");
    var s3 := Replace(s2, ":", "");
    var s4 := Replace(s3, "\"", "");
    var s5 := Replace(s4, "<", "");
    var s6 := Replace(s5, ">", "");
    Replace(s6, "*", "")
  }

  /** What one character of the title becomes. */
  function CharImage(c: char): (r: string)
    ensures forall k :: 0 <= k < |r| ==> !Forbidden(r[k])
  {
    if c == '|' then " -" else if c in Dropped then [] else [c]
  }

  /** The sanitiser character by character: every `|` becomes `" -"`, every dropped
      character disappears, and every other character is kept, in order. */
  function SafeChars(t: string): (r: string)
    ensures forall k :: 0 <= k < |r| ==> !Forbidden(r[k])
  {
    if t == [] then []
    else
      var r := CharImage(t[0]) + SafeChars(t[1..]);
      assert forall k :: 0 <= k < |r| ==> !Forbidden(r[k]) by {
        forall k | 0 <= k < |r| ensures !Forbidden(r[k]) {
          if k >= |CharImage(t[0])| {
            assert r[k] == SafeChars(t[1..])[k - |CharImage(t[0])|];
          }
        }
      }
      r
  }

  /** Each single-character `replace` distributes over concatenation, so the whole chain
      does. */
  lemma SafeTitleConcat(a: string, b: string)
    ensures SafeTitle(a + b) == SafeTitle(a) + SafeTitle(b)
  {
    var ra := Replace(a, "|", " -");
    var rb := Replace(b, "|", " -");
    ReplaceCharConcat(a, b, '|', " -");
    var a2, b2 := Replace(ra, "?", ""), Replace(rb, "?", "");
    ReplaceCharConcat(ra, rb, '?', "");
    var a3, b3 := Replace(a2, ":", ""), Replace(b2, ":", "");
    ReplaceCharConcat(a2, b2, ':', "");
    var a4, b4 := Replace(a3, "\"", ""), Replace(b3, "\"", "");
    ReplaceCharConcat(a3, b3, '\"', "");
    var a5, b5 := Replace(a4, "<", ""), Replace(b4, "<", "");
    ReplaceCharConcat(a4, b4, '<', "");
    var a6, b6 := Replace(a5, ">", ""), Replace(b5, ">", "");
    ReplaceCharConcat(a5, b5, '>', "");
    ReplaceCharConcat(a6, b6, '*', "");
  }

  /** `replace` of a one-character pattern on a one-character string. */
  lemma ReplaceOne(d: char, c: char, rep: string)
    ensures Replace([d], [c], rep) == if d == c then rep else [d]
  {
    assert [d][1..] == [];
  }

  /** One deletion stage on what a single character has become so far. */
  lemma Stage(s: string, c: char)
    requires s == [] || s == " -" || |s| == 1
    requires c != ' ' && c != '-'
    ensures Replace(s, [c], "") == if s == [c] then [] else s
  {
    if |s| == 1 {
      ReplaceOne(s[0], c, "");
      assert s == [s[0]];
    } else if s == " -" {
      assert s[1..] == "-";
      ReplaceOne('-', c, "");
    }
  }

  /** The chain maps a single character to its image. */
  lemma SafeTitleChar(d: char)
    ensures SafeTitle([d]) == CharImage(d)
  {
    ReplaceOne(d, '|', " -");
    var s1 := Replace([d], "|", " -");
    Stage(s1, '?');
    var s2 := Replace(s1, "?", "");
    Stage(s2, ':');
    var s3 := Replace(s2, ":", "");
    Stage(s3, '\"');
    var s4 := Replace(s3, "\"", "");
    Stage(s4, '<');
    var s5 := Replace(s4, "<", "");
    Stage(s5, '>');
    var s6 := Replace(s5, ">", "");
    Stage(s6, '*');
  }

  /** The chain of `replace` calls is the character-by-character sanitiser. */
  lemma {:induction false} SafeTitleIsSafeChars(t: string)
    ensures SafeTitle(t) == SafeChars(t)
  {
    if t == [] {
      assert Replace([], "|", " -") == [];
    } else {
      assert t == [t[0]] + t[1..];
      SafeTitleConcat([t[0]], t[1..]);
      SafeTitleChar(t[0]);
      SafeTitleIsSafeChars(t[1..]);
    }
  }

  /** A name without forbidden characters is left as it is. */
  lemma {:induction false} SafeCharsKeepsClean(t: string)
    requires forall k :: 0 <= k < |t| ==> !Forbidden(t[k])
    ensures SafeChars(t) == t
  {
    if t != [] {
      SafeCharsKeepsClean(t[1..]);
    }
  }

  /** Sanitising twice is sanitising once. */
  lemma SafeTitleIdempotent(t: string)
    ensures SafeTitle(SafeTitle(t)) == SafeTitle(t)
  {
    SafeTitleIsSafeChars(t);
    SafeTitleIsSafeChars(SafeTitle(t));
    SafeCharsKeepsClean(SafeTitle(t));
  }
}
