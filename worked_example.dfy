/** A listing worked through end to end: the album line, the blank line, two headers, a
    tune line and two links. The tune follows the first header, so only the first record
    carries it. */
module WorkedExample {
  import opened Wrappers
  import opened Text
  import opened Extractor

  /** `【<digit>. <title>】`. */
  function HeaderOf(digit: char, title: string): string {
    ['【', digit, '.', ' '] + title + ['】']
  }

  /** The lines of a listing: the album line, the blank line, a header, a tune line, a
      link, a second header and a second link. */
  function ListingLines(album: string, t1: string, u1: string, t2: string, u2: string): seq<string> {
    [album, "", HeaderOf('1', t1), "C调", u1, HeaderOf('2', t2), u2]
  }

  /** The listing as pasted: its lines, one per row, and a final newline. */
  function Listing(album: string, t1: string, u1: string, t2: string, u2: string): string {
    Join(ListingLines(album, t1, u1, t2, u2), '\n') + "\n"
  }

  /** A title that a header line gives back unchanged. */
  predicate PlainTitle(t: string) {
    |t| > 0 && !IsSpace(t[0]) && !IsSpace(t[|t| - 1])
    && forall k :: 0 <= k < |t| ==> t[k] != '】' && t[k] != '\n'
  }

  /** An `https://` link with no space in it and no `调`. */
  predicate PlainLink(u: string) {
    StartsWith(u, "https://") && |u| > 8 && '调' !in u
    && forall k :: 0 <= k < |u| ==> !IsSpace(u[k])
  }

  /** An album line: `《` first, no space at the end and no newline. */
  predicate PlainAlbum(album: string) {
    |album| > 0 && album[0] == '《' && !IsSpace(album[|album| - 1]) && '\n' !in album
  }

  /** A line with no space at either end is its own `strip()`. */
  lemma StripSelf(s: string)
    requires |s| > 0 && !IsSpace(s[0]) && !IsSpace(s[|s| - 1])
    ensures Strip(s) == s
  {
    assert SkipSpace(s, 0) == 0;
    assert TrimLeft(s) == s;
    assert SkipSpaceBack(s, |s|) == |s|;
  }

  /** A join ends with the join of any of its tails. */
  lemma {:induction false} JoinSuffix(ls: seq<string>, k: nat)
    requires k < |ls|
    ensures EndsWith(Join(ls, '\n'), Join(ls[k..], '\n'))
  {
    if k > 0 {
      assert ls[1..][k - 1..] == ls[k..];
      JoinSuffix(ls[1..], k - 1);
      var tail := Join(ls[1..], '\n');
      var whole := Join(ls, '\n');
      assert whole == ls[0] + "\n" + tail;
      assert whole[|whole| - |tail|..] == tail;
      var t := Join(ls[k..], '\n');
      assert whole[|whole| - |t|..] == tail[|tail| - |t|..];
    }
  }

  /** A header line has no newline in it. */
  lemma HeaderOneLine(digit: char, title: string)
    requires digit != '\n' && PlainTitle(title)
    ensures '\n' !in HeaderOf(digit, title)
  {
    var line := HeaderOf(digit, title);
    forall i | 0 <= i < |line|
      ensures line[i] != '\n'
    {
      if 4 <= i < |line| - 1 {
        assert line[i] == title[i - 4];
      }
    }
  }

  /** The trailing newline goes, and the lines come back out of the split. */
  lemma ListingSplit(album: string, t1: string, u1: string, t2: string, u2: string)
    requires PlainAlbum(album) && PlainTitle(t1) && PlainTitle(t2) && PlainLink(u1) && PlainLink(u2)
    ensures Lines(Listing(album, t1, u1, t2, u2)) == ListingLines(album, t1, u1, t2, u2)
  {
    var ls := ListingLines(album, t1, u1, t2, u2);
    var text := Listing(album, t1, u1, t2, u2);
    var body := Join(ls, '\n');
    assert body == album + "\n" + Join(ls[1..], '\n');
    assert TrimLeft(text) == text by {
      assert text[0] == body[0] == album[0];
    }
    JoinSuffix(ls, 6);
    assert ls[6..] == [u2];
    assert text[|text| - 2] == u2[|u2| - 1];
    assert SkipSpaceBack(text, |text|) == |text| - 1;
    assert Strip(text) == body;
    HeaderOneLine('1', t1);
    HeaderOneLine('2', t2);
    assert '\n' !in u1 && '\n' !in u2 by {
      assert IsSpace('\n');
    }
    SplitJoin(ls, '\n');
  }

  /** A header line gives its title back. */
  lemma HeaderLine(digit: char, title: string)
    requires IsDigit(digit) && PlainTitle(title)
    ensures Classify(HeaderOf(digit, title)) == Header(title)
  {
    var line := HeaderOf(digit, title);
    assert LeadRun(line[1..], IsDigit) == 1 by {
      assert line[1..][1] == '.';
    }
    assert LeadRun(line[3..], IsSpace) == 1 by {
      assert line[3..][1] == title[0];
    }
    assert GroupStart(line) == 4;
    var rest := line[4..];
    assert rest == title + ['】'];
    assert IndexOf(rest, '】') == |title|;
    assert rest[..|title|] == title;
    StripSelf(title);
  }

  /** An `https://` link with no space in it is a link line. */
  lemma LinkLine(line: string)
    requires PlainLink(line)
    ensures Classify(line) == Link(line)
  {
    assert line[0] == 'h' by { assert line[..8][0] == line[0]; }
    assert HeaderMatch(line).None?;
    assert !IsSpace(line[8]);
    var m := UrlMatch(line);
    assert m.Some?;
    assert |m.value| == |line|;
    assert m.value == line[..|m.value|] == line;
  }

  /** `C调` is a tune line and gives itself back. */
  lemma TuneLine()
    ensures Classify("C调") == Tune("C调")
  {
    assert IndexOf("C调", '调') == 1;
    assert TuneNote("C调") == "C";
    assert RemoveChars("C", Parens) == "C";
  }

  /** A line with no space at either end is read as it stands. */
  lemma KindOfLine(ls: seq<string>, k: nat)
    requires 2 <= k < |ls|
    requires |ls[k]| > 0 && !IsSpace(ls[k][0]) && !IsSpace(ls[k][|ls[k]| - 1])
    ensures Kinds(ls)[k] == Classify(ls[k])
  {
    KindsAt(ls, k);
    StripSelf(ls[k]);
  }

  lemma HeaderKind(ls: seq<string>, k: nat, digit: char, title: string)
    requires 2 <= k < |ls| && IsDigit(digit) && PlainTitle(title) && ls[k] == HeaderOf(digit, title)
    ensures Kinds(ls)[k] == Header(title)
  {
    KindOfLine(ls, k);
    HeaderLine(digit, title);
  }

  lemma LinkKind(ls: seq<string>, k: nat)
    requires 2 <= k < |ls| && PlainLink(ls[k])
    ensures Kinds(ls)[k] == Link(ls[k])
  {
    KindOfLine(ls, k);
    LinkLine(ls[k]);
  }

  lemma TuneKind(ls: seq<string>, k: nat)
    requires 2 <= k < |ls| && ls[k] == "C调"
    ensures Kinds(ls)[k] == Tune("C调")
  {
    KindOfLine(ls, k);
    TuneLine();
  }

  lemma DropTwo(ks: seq<LineKind>)
    requires |ks| == 7
    ensures ks[2..] == [ks[2], ks[3], ks[4], ks[5], ks[6]]
  {
  }

  /** How the lines after the blank one are read. */
  lemma ListingKinds(album: string, t1: string, u1: string, t2: string, u2: string)
    requires PlainTitle(t1) && PlainTitle(t2) && PlainLink(u1) && PlainLink(u2)
    ensures Kinds(ListingLines(album, t1, u1, t2, u2))[2..]
            == [Header(t1), Tune("C调"), Link(u1), Header(t2), Link(u2)]
  {
    var ls := ListingLines(album, t1, u1, t2, u2);
    HeaderKind(ls, 2, '1', t1);
    TuneKind(ls, 3);
    LinkKind(ls, 4);
    HeaderKind(ls, 5, '2', t2);
    LinkKind(ls, 6);
    DropTwo(Kinds(ls));
  }

  /** The state machine over those kinds: the tune joins the first title only. */
  lemma ListingScan(t1: string, u1: string, t2: string, u2: string)
    requires t1 != "" && t2 != ""
    ensures Scan([Header(t1), Tune("C调"), Link(u1), Header(t2), Link(u2)]).songs
            == [Song(t1 + " | C调", u1), Song(t2, u2)]
  {
    var ks := [Header(t1), Tune("C调"), Link(u1), Header(t2), Link(u2)];
    var first := Song(t1 + " | C调", u1);
    assert Scan(ks[..1]) == ParseState(Some(t1), None, []) by {
      assert ks[..1][..0] == [];
    }
    assert Scan(ks[..2]) == ParseState(Some(t1), Some("C调"), []) by {
      assert ks[..2][..1] == ks[..1];
    }
    assert Scan(ks[..3]) == ParseState(Some(t1), Some("C调"), [first]) by {
      assert ks[..3][..2] == ks[..2];
      assert HasBase(Scan(ks[..2]));
      assert FullTitle(t1, Some("C调")) == t1 + " | C调";
    }
    assert Scan(ks[..4]) == ParseState(Some(t2), None, [first]) by {
      assert ks[..4][..3] == ks[..3];
    }
    assert ks[..5][..4] == ks[..4];
    assert ks[..5] == ks;
  }

  /** A pasted listing with two records: the album title, both header titles, the tune on
      the first record only (it came after the first header and before the second), and
      the two links. */
  lemma ListingExtracted(album: string, t1: string, u1: string, t2: string, u2: string)
    requires PlainAlbum(album) && PlainTitle(t1) && PlainTitle(t2) && PlainLink(u1) && PlainLink(u2)
    ensures Extract(Listing(album, t1, u1, t2, u2))
            == Extracted(album, [Song(t1 + " | C调", u1), Song(t2, u2)])
  {
    var lines := ListingLines(album, t1, u1, t2, u2);
    ListingSplit(album, t1, u1, t2, u2);
    assert StartsWith(lines[0], "《");
    StripSelf(album);
    assert Strip(lines[1]) == "";
    ListingKinds(album, t1, u1, t2, u2);
    ListingScan(t1, u1, t2, u2);
  }
}
