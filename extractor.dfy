/** `extract_songs_and_title`: the line-scanning state machine that turns a pasted track
    listing into an album title and an ordered list of `{title, url}` records. download.py
    and get_info.py carry the same function; this module models both. */
module Extractor {
  import opened Wrappers
  import opened Text

  /** One `{'title': ..., 'url': ...}` record. */
  datatype Song = Song(title: string, url: string)

  /** What `extract_songs_and_title` does with its input: it raises `IndexError`, or it
      returns an album title and the records. */
  datatype Extraction = IndexError | Extracted(album: string, songs: seq<Song>)

  /** The title returned when the header check fails. */
  const UnknownAlbum: string := "未知专辑"

  /** A title that starts with `《` is never the sentinel title. */
  lemma NotUnknownAlbum(t: string)
    requires StartsWith(t, "《")
    ensures t != UnknownAlbum
  {
    assert UnknownAlbum[0] == '未';
    assert t[0] == "《"[0];
  }

  /** The characters `re.sub(r"（|）", "", tune)` deletes. */
  const Parens: set<char> := {'（', '）'}

  predicate NotSpace(c: char) {
    !IsSpace(c)
  }

  /** The length of the longest prefix of `s` whose characters all satisfy `p`. */
  function LeadRun(s: string, p: char -> bool): (n: nat)
    ensures n <= |s|
    ensures forall k :: 0 <= k < n ==> p(s[k])
    ensures n < |s| ==> !p(s[n])
  {
    if s != [] && p(s[0]) then 1 + LeadRun(s[1..], p) else 0
  }

  /** A prefix whose characters all satisfy `p` lies within the leading run. */
  lemma {:induction false} LeadRunCovers(s: string, p: char -> bool, n: nat)
    requires n <= |s|
    requires forall k :: 0 <= k < n ==> p(s[k])
    ensures LeadRun(s, p) >= n
  {
    if n > 0 {
      assert p(s[0]);
      LeadRunCovers(s[1..], p, n - 1);
    }
  }

  /** The leading run of `u + v` is exactly `u` when every character of `u` satisfies `p`
      and the first character of `v`, if any, does not. */
  lemma LeadRunPrefix(u: string, v: string, p: char -> bool)
    requires forall k :: 0 <= k < |u| ==> p(u[k])
    requires v != [] ==> !p(v[0])
    ensures LeadRun(u + v, p) == |u|
  {
    var s := u + v;
    forall k | 0 <= k < |u| ensures p(s[k]) {
      assert s[k] == u[k];
    }
    LeadRunCovers(s, p, |u|);
    if |u| < |s| {
      assert s[|u|] == v[0];
    }
  }

  /** `line` starts with `【` and a digit, and has a `】` after them. */
  predicate IsHeaderLine(line: string) {
    |line| >= 2 && line[0] == '【' && IsDigit(line[1]) && '】' in line[2..]
  }

  /** Where group 1 of `【\d+\.?\s*(.*?)】` starts: after the marker, the longest digit run,
      an optional dot and the longest whitespace run. */
  function GroupStart(line: string): (c: nat)
    requires |line| >= 2 && line[0] == '【' && IsDigit(line[1])
    ensures 2 <= c <= |line|
    ensures forall k :: 2 <= k < c ==> line[k] != '】'
  {
    var a := 1 + LeadRun(line[1..], IsDigit);
    var b := if a < |line| && line[a] == '.' then a + 1 else a;
    var c := b + LeadRun(line[b..], IsSpace);
    assert forall k :: 1 <= k < a ==> IsDigit(line[k]) by {
      forall k | 1 <= k < a ensures IsDigit(line[k]) {
        assert line[1..][k - 1] == line[k];
      }
    }
    assert forall k :: b <= k < c ==> IsSpace(line[k]) by {
      forall k | b <= k < c ensures IsSpace(line[k]) {
        assert line[b..][k - b] == line[k];
      }
    }
    c
  }

  /** `re.match(r"【\d+\.?\s*(.*?)】", line)` and its group 1, which runs from `GroupStart`
      up to the first `】`. */
  function HeaderMatch(line: string): (r: Option<string>)
    ensures r.Some? <==> IsHeaderLine(line)
    ensures r.Some? ==> '】' !in r.value && StartsWith(line[GroupStart(line)..], r.value + "】")
  {
    if |line| >= 2 && line[0] == '【' && IsDigit(line[1]) then
      var c := GroupStart(line);
      var rest := line[c..];
      assert '】' in line[2..] <==> '】' in rest by {
        assert line[2..] == line[2..c] + rest;
        assert '】' !in line[2..c];
      }
      if '】' in rest then
        var k := IndexOf(rest, '】');
        TakeSnoc(rest, k);
        Some(rest[..k])
      else
        None
    else
      None
  }

  /** Where the header pattern's group starts on a line `【` digits, an optional dot,
      whitespace, `tail`: after the whitespace, when the first character of `tail` cannot be
      taken into the whitespace run (nor, straight after the digits, into the digit run or
      as the dot). */
  lemma GroupStartAt(ds: string, dot: string, ws: string, tail: string)
    requires |ds| > 0 && forall k :: 0 <= k < |ds| ==> IsDigit(ds[k])
    requires dot == "" || dot == "."
    requires forall k :: 0 <= k < |ws| ==> IsSpace(ws[k])
    requires tail != [] && !IsSpace(tail[0])
    requires dot == "" && ws == [] ==> !IsDigit(tail[0]) && tail[0] != '.'
    ensures var line := ['【'] + ds + dot + ws + tail;
            GroupStart(line) == 1 + |ds| + |dot| + |ws| && line[GroupStart(line)..] == tail
  {
    var line := ['【'] + ds + dot + ws + tail;
    var tail2 := ws + tail;
    var tail1 := dot + tail2;
    var a := 1 + |ds|;
    assert line[1..] == ds + tail1;
    assert LeadRun(line[1..], IsDigit) == |ds| by {
      assert !IsDigit(tail1[0]) by {
        if dot == "." {
          assert tail1[0] == '.';
        } else if ws != [] {
          assert tail1[0] == ws[0];
        } else {
          assert tail1[0] == tail[0];
        }
      }
      LeadRunPrefix(ds, tail1, IsDigit);
    }
    var b := a + |dot|;
    assert line[a..] == tail1;
    assert line[b..] == tail2;
    assert (if a < |line| && line[a] == '.' then a + 1 else a) == b by {
      assert line[a] == tail1[0];
      if dot == "" && ws != [] {
        assert tail1[0] == ws[0];
      }
    }
    assert LeadRun(line[b..], IsSpace) == |ws| by {
      LeadRunPrefix(ws, tail, IsSpace);
    }
    assert line[b + |ws|..] == tail;
  }

  /** The header pattern on a line `【` digits, an optional dot, whitespace, `t`, `】`, more:
      it matches, and its group is `t`, whenever `t` holds no `】` and its first character
      cannot be taken into the whitespace run (nor, straight after the digits, into the
      digit run or as the dot). */
  lemma HeaderCapture(ds: string, dot: string, ws: string, t: string, rest: string)
    requires |ds| > 0 && forall k :: 0 <= k < |ds| ==> IsDigit(ds[k])
    requires dot == "" || dot == "."
    requires forall k :: 0 <= k < |ws| ==> IsSpace(ws[k])
    requires '】' !in t
    requires t != [] ==> !IsSpace(t[0]) && (dot == "" && ws == [] ==> !IsDigit(t[0]) && t[0] != '.')
    ensures HeaderMatch(['【'] + ds + dot + ws + (t + "】" + rest)) == Some(t)
  {
    var tail := t + "】" + rest;
    var line := ['【'] + ds + dot + ws + tail;
    var c := 1 + |ds| + |dot| + |ws|;
    assert GroupStart(line) == c && line[c..] == tail by {
      assert tail[0] == if t == [] then '】' else t[0];
      GroupStartAt(ds, dot, ws, tail);
    }
    assert IsHeaderLine(line) by {
      assert line[1] == ds[0];
      assert line[2..][c - 2 + |t|] == tail[|t|] == '】';
    }
    assert StartsWith(tail, t + "】") by {
      assert tail[..|t| + 1] == t + "】";
    }
    HeaderMatchIs(line, t);
  }

  /** A header line whose text from `GroupStart` on runs up to a `】` after `t`, `】`-free,
      has `t` as its group. */
  lemma HeaderMatchIs(line: string, t: string)
    requires IsHeaderLine(line) && '】' !in t
    requires StartsWith(line[GroupStart(line)..], t + "】")
    ensures HeaderMatch(line) == Some(t)
  {
    CloseUnique(line[GroupStart(line)..], HeaderMatch(line).value, t);
  }

  /** A text that runs up to a `】` at the head of `s` is no shorter than a `】`-free one
      that does too. */
  lemma CloseNotBefore(s: string, v: string, t: string)
    requires '】' !in t
    requires StartsWith(s, v + "】") && StartsWith(s, t + "】")
    ensures |v| >= |t|
  {
    assert s[|v|] == '】' by {
      assert s[..|v| + 1][|v|] == '】';
    }
  }

  /** Two `】`-free texts that each run up to a `】` at the head of `s` are the same text. */
  lemma CloseUnique(s: string, v: string, t: string)
    requires '】' !in v && '】' !in t
    requires StartsWith(s, v + "】") && StartsWith(s, t + "】")
    ensures v == t
  {
    CloseNotBefore(s, v, t);
    CloseNotBefore(s, t, v);
    assert v == s[..|v| + 1][..|v|];
    assert t == s[..|t| + 1][..|t|];
  }

  /** Group 1 of `re.search(r"(.*?)(原调)?调", line)`: the text before the first `调`, less
      a `原` directly before it when that `调` is doubled (`原调调`). */
  function TuneNote(line: string): (r: string)
    requires '调' in line
    ensures StartsWith(line, r) && '调' !in r
  {
    var j := IndexOf(line, '调');
    if 1 <= j && j + 1 < |line| && line[j - 1] == '原' && line[j + 1] == '调' then line[..j - 1]
    else line[..j]
  }

  /** Before a lone `调`, the note is all the text in front of it, unless that text ends
      in `原` and a second `调` follows. */
  lemma TuneNotePlain(p: string, rest: string)
    requires '调' !in p
    requires !(EndsWith(p, "原") && StartsWith(rest, "调"))
    ensures TuneNote(p + "调" + rest) == p
  {
    var line := p + "调" + rest;
    forall k | 0 <= k < |p| ensures line[k] != '调' {
      assert line[k] == p[k];
    }
    IndexOfAt(line, '调', |p|);
    assert line[..|p|] == p;
  }

  /** Before `原调调`, the note is the text in front of `原`: the regular expression takes
      `原调` as its optional group. */
  lemma TuneNoteYuan(p: string, rest: string)
    requires '调' !in p
    ensures TuneNote(p + "原调调" + rest) == p
  {
    var line := p + "原调调" + rest;
    forall k | 0 <= k < |p| + 1 ensures line[k] != '调' {
      if k < |p| { assert line[k] == p[k]; } else { assert line[k] == '原'; }
    }
    IndexOfAt(line, '调', |p| + 1);
    assert line[|p|] == '原' && line[|p| + 2] == '调';
    assert line[..|p|] == p;
  }

  /** The tune a `调` line sets: the note, then `调`, with the full-width parentheses
      deleted. */
  predicate IsTune(t: string) {
    |t| > 0 && t[|t| - 1] == '调' && '（' !in t && '）' !in t
  }

  function TuneOf(line: string): (t: string)
    requires '调' in line
    ensures IsTune(t)
    ensures t == RemoveChars(TuneNote(line) + "调", Parens)
  {
    var note := RemoveChars(TuneNote(line), Parens);
    RemoveCharsConcat(TuneNote(line), "调", Parens);
    assert RemoveChars("调", Parens) == "调" by {
      assert "调"[1..] == [];
    }
    note + "调"
  }

  /** A link as `re.match(r"https?://\S+", line)` accepts it. */
  predicate IsUrl(u: string) {
    ((StartsWith(u, "http://") && |u| > 7) || (StartsWith(u, "https://") && |u| > 8))
    && forall k :: 0 <= k < |u| ==> !IsSpace(u[k])
  }

  /** `re.match(r"https?://\S+", line).group(0)`: the longest whitespace-free prefix of a
      line that starts with a scheme and one more non-space character. */
  function UrlMatch(line: string): (r: Option<string>)
    ensures r.Some? <==> (StartsWith(line, "http://") && |line| > 7 && !IsSpace(line[7]))
                         || (StartsWith(line, "https://") && |line| > 8 && !IsSpace(line[8]))
    ensures r.Some? ==> IsUrl(r.value) && StartsWith(line, r.value)
    ensures r.Some? ==> |r.value| == |line| || IsSpace(line[|r.value|])
  {
    var n := if StartsWith(line, "https://") then 8 else if StartsWith(line, "http://") then 7 else 0;
    assert StartsWith(line, "https://") ==> !StartsWith(line, "http://") by {
      if StartsWith(line, "https://") { assert line[4] == "https://"[4] != "http://"[4]; }
    }
    if n > 0 && n < |line| && !IsSpace(line[n]) then
      var m := LeadRun(line, NotSpace);
      SchemeRun(line, line[..n]);
      Some(line[..m])
    else
      None
  }

  /** A line that starts with the whitespace-free `scheme` and one more non-space character
      keeps the scheme, and that character, in its leading non-space run. */
  lemma SchemeRun(line: string, scheme: string)
    requires StartsWith(line, scheme) && |scheme| < |line| && !IsSpace(line[|scheme|])
    requires forall k :: 0 <= k < |scheme| ==> !IsSpace(scheme[k])
    ensures LeadRun(line, NotSpace) > |scheme|
    ensures StartsWith(line[..LeadRun(line, NotSpace)], scheme)
  {
    var n := |scheme|;
    assert forall k :: 0 <= k <= n ==> NotSpace(line[k]) by {
      forall k | 0 <= k < n ensures NotSpace(line[k]) {
        assert line[k] == scheme[k];
      }
    }
    LeadRunCovers(line, NotSpace, n + 1);
    var m := LeadRun(line, NotSpace);
    assert line[..m][..n] == line[..n];
  }

  /** How one stripped line is read, patterns tried in the source's order. */
  datatype LineKind = Header(title: string) | Tune(tune: string) | Link(url: string) | Ignored

  /** What a classified line can carry: a tune is well formed and a link is a URL. */
  predicate WellKind(k: LineKind) {
    match k
    case Tune(t) => IsTune(t)
    case Link(u) => IsUrl(u)
    case _ => true
  }

  /** How a line is read: what it yields is well formed, and a link is a prefix of the
      line. */
  function Classify(line: string): (r: LineKind)
    ensures WellKind(r)
    ensures r.Link? ==> StartsWith(line, r.url)
  {
    match HeaderMatch(line)
    case Some(g) => Header(Strip(g))
    case None =>
      if '调' in line then Tune(TuneOf(line))
      else match UrlMatch(line)
        case Some(u) => Link(u)
        case None => Ignored
  }

  /** The header pattern is tried first, then the `调` search, then the link pattern: a line
      holding `调` is a tune line even when it starts with `http`. */
  lemma ClassifyOrder(line: string)
    ensures Classify(line).Header? <==> IsHeaderLine(line)
    ensures Classify(line).Tune? <==> !IsHeaderLine(line) && '调' in line
    ensures Classify(line).Link? <==> !IsHeaderLine(line) && '调' !in line && UrlMatch(line).Some?
  {
  }

  /** The loop's variables `base_title`, `tune` and `songs`. */
  datatype ParseState = ParseState(baseTitle: Option<string>, tune: Option<string>, songs: seq<Song>)

  const Start := ParseState(None, None, [])

  /** `base_title` is truthy. */
  predicate HasBase(st: ParseState) {
    st.baseTitle.Some? && st.baseTitle.value != ""
  }

  /** `f"{base_title} | {tune}" if tune else base_title`: the base title, followed by the
      tune exactly when a non-empty tune is set. */
  function FullTitle(base: string, tune: Option<string>): (r: string)
    ensures StartsWith(r, base)
    ensures r == base <==> tune.None? || tune.value == ""
    ensures r != base ==> EndsWith(r, tune.value)
  {
    if tune.Some? && tune.value != "" then base + " | " + tune.value else base
  }

  /** What one iteration does with a line of kind `k`: records are only ever appended, one
      exactly when a link follows a title; only header and tune lines change the title and
      the tune. */
  function Apply(st: ParseState, k: LineKind): (r: ParseState)
    ensures st.songs <= r.songs && |r.songs| <= |st.songs| + 1
    ensures |r.songs| == |st.songs| + 1 <==> k.Link? && HasBase(st)
    ensures !k.Header? && !k.Tune? ==> r.baseTitle == st.baseTitle && r.tune == st.tune
  {
    match k
    case Header(t) => ParseState(Some(t), None, st.songs)
    case Tune(t) => st.(tune := Some(t))
    case Link(u) =>
      if HasBase(st) then st.(songs := st.songs + [Song(FullTitle(st.baseTitle.value, st.tune), u)])
      else st
    case Ignored => st
  }

  /** How each of the lines `ls` is read once stripped. */
  function Kinds(ls: seq<string>): (ks: seq<LineKind>)
    ensures |ks| == |ls|
  {
    if ls == [] then [] else [Classify(Strip(ls[0]))] + Kinds(ls[1..])
  }

  lemma {:induction false} KindsAt(ls: seq<string>, k: nat)
    requires k < |ls|
    ensures Kinds(ls)[k] == Classify(Strip(ls[k]))
  {
    if k > 0 {
      KindsAt(ls[1..], k - 1);
    }
  }

  /** The loop's state after lines of kinds `ks` (the lines from index 2 on): at most one
      record per line. */
  function Scan(ks: seq<LineKind>): (r: ParseState)
    ensures |r.songs| <= |ks|
  {
    if ks == [] then Start else Apply(Scan(ks[..|ks| - 1]), ks[|ks| - 1])
  }

  lemma ScanSnoc(ks: seq<LineKind>, k: LineKind)
    ensures Scan(ks + [k]) == Apply(Scan(ks), k)
  {
    assert (ks + [k])[..|ks|] == ks;
  }

  /** Scanning one more of the kinds `ks`: the window `ks[lo..n]` widened by one. */
  lemma ScanWiden(ks: seq<LineKind>, lo: nat, n: nat)
    requires lo <= n < |ks|
    ensures Scan(ks[lo..n + 1]) == Apply(Scan(ks[lo..n]), ks[n])
  {
    assert ks[lo..n + 1][..n - lo] == ks[lo..n];
  }

  /** `input_text.strip().split('\n')`. */
  function Lines(text: string): (lines: seq<string>)
    ensures |lines| >= 1
  {
    Split(Strip(text), '\n')
  }

  /** `extract_songs_and_title(input_text)`: `IndexError` only on a one-line listing, and at
      most one record per line. */
  function Extract(text: string): (r: Extraction)
    ensures r.IndexError? ==> |Lines(text)| == 1
    ensures r.Extracted? ==> |r.songs| <= |Lines(text)|
  {
    var lines := Lines(text);
    if !StartsWith(lines[0], "《") then Extracted(UnknownAlbum, [])
    else if |lines| < 2 then IndexError
    else if Strip(lines[1]) != "" then Extracted(UnknownAlbum, [])
    else Extracted(Strip(lines[0]), Scan(Kinds(lines)[2..]).songs)
  }

  /** The function as the scripts run it: the header check, then the loop over the lines
      from index 2 on. */
  method ExtractSongsAndTitle(inputText: string) returns (r: Extraction)
    ensures r == Extract(inputText)
  {
    var lines := Split(Strip(inputText), '\n');
    if !StartsWith(lines[0], "《") {
      return Extracted(UnknownAlbum, []);
    }
    if |lines| < 2 {
      return IndexError;
    }
    if Strip(lines[1]) != "" {
      return Extracted(UnknownAlbum, []);
    }
    var title := Strip(lines[0]);
    var songs := ScanLines(lines);
    r := Extracted(title, songs);
  }

  /** The loop `for i in range(2, len(lines))`, which updates `base_title` and `tune` and
      appends to `songs`. */
  method ScanLines(lines: seq<string>) returns (songs: seq<Song>)
    requires |lines| >= 2
    ensures songs == Scan(Kinds(lines)[2..]).songs
  {
    songs := [];
    var baseTitle: Option<string> := None;
    var tune: Option<string> := None;
    ghost var kinds := Kinds(lines);
    var i := 2;
    while i < |lines|
      invariant 2 <= i <= |lines|
      invariant ParseState(baseTitle, tune, songs) == Scan(kinds[2..i])
    {
      KindsAt(lines, i);
      ScanWiden(kinds, 2, i);
      baseTitle, tune, songs := ScanLine(Strip(lines[i]), baseTitle, tune, songs);
      i := i + 1;
    }
    assert kinds[2..i] == kinds[2..];
  }

  /** One iteration of that loop on the stripped line `line`: the header pattern, else the
      `调` search, else the link pattern, and a record only when a base title is set. */
  method ScanLine(line: string, baseTitle0: Option<string>, tune0: Option<string>, songs0: seq<Song>)
    returns (baseTitle: Option<string>, tune: Option<string>, songs: seq<Song>)
    ensures ParseState(baseTitle, tune, songs) == Apply(ParseState(baseTitle0, tune0, songs0), Classify(line))
  {
    baseTitle, tune, songs := baseTitle0, tune0, songs0;
    var songMatch := HeaderMatch(line);
    if songMatch.Some? {
      baseTitle := Some(Strip(songMatch.value));
      tune := None;
    } else if '调' in line {
      var tuneNote := TuneNote(line);
      tune := Some(RemoveChars(tuneNote + "调", Parens));
    } else {
      var urlMatch := UrlMatch(line);
      if urlMatch.Some? && baseTitle.Some? && baseTitle.value != "" {
        var fullTitle := if tune.Some? && tune.value != "" then baseTitle.value + " | " + tune.value
                         else baseTitle.value;
        songs := songs + [Song(fullTitle, urlMatch.value)];
      }
    }
  }
}
