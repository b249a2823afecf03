/** Properties of the line-scanning state machine of `extract_songs_and_title`: which lines
    emit a record, with which title, in which order, and what the header check returns. */
module ScanFacts {
  import opened Wrappers
  import opened Text
  import opened Extractor

  /** The state the loop keeps: a set tune is well formed, and every record has a
      non-empty title and a URL. */
  predicate Good(st: ParseState) {
    (st.tune.Some? ==> IsTune(st.tune.value))
    && forall j :: 0 <= j < |st.songs| ==> st.songs[j].title != "" && IsUrl(st.songs[j].url)
  }

  lemma {:induction false} ScanGood(ks: seq<LineKind>)
    requires forall n :: 0 <= n < |ks| ==> WellKind(ks[n])
    ensures Good(Scan(ks))
  {
    if ks != [] {
      var init := ks[..|ks| - 1];
      ScanGood(init);
      var st := Scan(init);
      var k := ks[|ks| - 1];
      assert WellKind(k);
      if k.Link? && HasBase(st) {
        assert Scan(ks).songs == st.songs + [Song(FullTitle(st.baseTitle.value, st.tune), k.url)];
      }
    }
  }

  /** Every line of a listing is read as a well-formed kind. */
  lemma KindsWell(ls: seq<string>)
    ensures forall n :: 0 <= n < |ls| ==> WellKind(Kinds(ls)[n])
  {
    forall n | 0 <= n < |ls| ensures WellKind(Kinds(ls)[n]) {
      KindsAt(ls, n);
    }
  }

  /** Line `n` of `ks` emits a record: it is a link and a non-empty base title is set
      when it is reached. */
  predicate Emits(ks: seq<LineKind>, n: nat)
    requires n < |ks|
  {
    ks[n].Link? && HasBase(Scan(ks[..n]))
  }

  /** The record line `n` emits: the base title, with the tune when one is set, and the
      link. */
  function RecordAt(ks: seq<LineKind>, n: nat): Song
    requires n < |ks| && Emits(ks, n)
  {
    var st := Scan(ks[..n]);
    Song(FullTitle(st.baseTitle.value, st.tune), ks[n].url)
  }

  /** The indices of the lines that emit, in input order. */
  function Emitting(ks: seq<LineKind>): (ns: seq<nat>)
    ensures forall j :: 0 <= j < |ns| ==> ns[j] < |ks|
  {
    if ks == [] then []
    else
      var init := ks[..|ks| - 1];
      var ns := Emitting(init);
      ns + if Emits(ks, |ks| - 1) then [|ks| - 1] else []
  }

  /** Dropping the last kind leaves the states before the earlier lines as they were. */
  lemma InitPrefix(ks: seq<LineKind>, n: nat)
    requires n < |ks|
    ensures ks[..|ks| - 1][..n] == ks[..n]
    ensures n < |ks| - 1 ==> ks[..|ks| - 1][n] == ks[n]
  {
  }

  /** The records are exactly those of the emitting lines: one per emitting line, in input
      order, each with the title and link `RecordAt` gives it. */
  lemma {:induction false} ScanRecords(ks: seq<LineKind>)
    ensures |Scan(ks).songs| == |Emitting(ks)|
    ensures forall j :: 0 <= j < |Emitting(ks)| ==>
              Emits(ks, Emitting(ks)[j]) && Scan(ks).songs[j] == RecordAt(ks, Emitting(ks)[j])
    ensures forall i, j :: 0 <= i < j < |Emitting(ks)| ==> Emitting(ks)[i] < Emitting(ks)[j]
    ensures forall n :: 0 <= n < |ks| && Emits(ks, n) ==> n in Emitting(ks)
  {
    if ks != [] {
      var last := |ks| - 1;
      var init := ks[..last];
      ScanRecords(init);
      var ns := Emitting(init);
      var st := Scan(init);
      assert Scan(ks) == Apply(st, ks[last]);
      forall n | 0 <= n < last
        ensures Emits(init, n) == Emits(ks, n)
        ensures Emits(ks, n) ==> RecordAt(init, n) == RecordAt(ks, n)
      {
        InitPrefix(ks, n);
      }
      assert Emits(ks, last) == (ks[last].Link? && HasBase(st)) by {
        assert ks[..last] == init;
      }
      if Emits(ks, last) {
        assert Scan(ks).songs == st.songs + [RecordAt(ks, last)] by {
          assert ks[..last] == init;
        }
        assert Emitting(ks) == ns + [last];
      } else {
        assert Scan(ks).songs == st.songs;
        assert Emitting(ks) == ns;
      }
    }
  }

  /** The tune of the last tune line among `ms`, if any. */
  function LastTune(ms: seq<LineKind>): (t: Option<string>)
    ensures t.Some? ==> Tune(t.value) in ms
    ensures (forall m :: 0 <= m < |ms| ==> !ms[m].Tune?) ==> t == None
  {
    if ms == [] then None
    else if ms[|ms| - 1].Tune? then Some(ms[|ms| - 1].tune)
    else LastTune(ms[..|ms| - 1])
  }

  /** After a header line at `a`, and until the next header, the base title is the header's
      title and the tune is the one of the last tune line since the header: the header
      resets the tune, and a tune persists across link and ignored lines. */
  lemma {:induction false} AfterHeader(ks: seq<LineKind>, a: nat, b: nat)
    requires a < b <= |ks| && ks[a].Header?
    requires forall m :: a < m < b ==> !ks[m].Header?
    ensures Scan(ks[..b]).baseTitle == Some(ks[a].title)
    ensures Scan(ks[..b]).tune == LastTune(ks[a + 1..b])
  {
    if b == a + 1 {
      assert ks[..b][..a] == ks[..a];
      assert ks[a + 1..b] == [];
    } else {
      AfterHeader(ks, a, b - 1);
      assert ks[..b][..b - 1] == ks[..b - 1];
      assert ks[a + 1..b][..b - 1 - (a + 1)] == ks[a + 1..b - 1];
    }
  }

  /** Before the first header line there is no base title, so no record. */
  lemma {:induction false} BeforeAnyHeader(ks: seq<LineKind>, b: nat)
    requires b <= |ks|
    requires forall m :: 0 <= m < b ==> !ks[m].Header?
    ensures Scan(ks[..b]).baseTitle == None && Scan(ks[..b]).songs == []
  {
    if b > 0 {
      BeforeAnyHeader(ks, b - 1);
      assert ks[..b][..b - 1] == ks[..b - 1];
    }
  }

  /** A link line before any header, or after a header whose title is empty, emits
      nothing. */
  lemma NoRecordWithoutTitle(ks: seq<LineKind>, n: nat)
    requires n < |ks|
    requires (forall m :: 0 <= m < n ==> !ks[m].Header?)
             || exists a :: 0 <= a < n && ks[a] == Header("") && forall m :: a < m < n ==> !ks[m].Header?
    ensures !Emits(ks, n)
  {
    if forall m :: 0 <= m < n ==> !ks[m].Header? {
      BeforeAnyHeader(ks, n);
    } else {
      var a :| 0 <= a < n && ks[a] == Header("") && forall m :: a < m < n ==> !ks[m].Header?;
      AfterHeader(ks, a, n);
    }
  }

  /** A block of link lines with the URLs `us`. */
  function Links(us: seq<string>): (ks: seq<LineKind>)
    ensures |ks| == |us| && forall j :: 0 <= j < |us| ==> ks[j] == Link(us[j])
  {
    if us == [] then [] else Links(us[..|us| - 1]) + [Link(us[|us| - 1])]
  }

  /** One record per URL, in order, all with the title `title`. */
  function Records(title: string, us: seq<string>): (r: seq<Song>)
    ensures |r| == |us| && forall j :: 0 <= j < |us| ==> r[j] == Song(title, us[j])
  {
    if us == [] then [] else Records(title, us[..|us| - 1]) + [Song(title, us[|us| - 1])]
  }

  /** Several link lines in a row leave the title and tune alone and, when a base title is
      set, append one record each, all with the same title, in input order. */
  lemma {:induction false} ScanLinks(ks: seq<LineKind>, us: seq<string>)
    ensures Scan(ks + Links(us)).baseTitle == Scan(ks).baseTitle
    ensures Scan(ks + Links(us)).tune == Scan(ks).tune
    ensures Scan(ks + Links(us)).songs ==
              Scan(ks).songs + if HasBase(Scan(ks))
                               then Records(FullTitle(Scan(ks).baseTitle.value, Scan(ks).tune), us)
                               else []
  {
    if us == [] {
      assert ks + Links(us) == ks;
    } else {
      var us' := us[..|us| - 1];
      var u := us[|us| - 1];
      ScanLinks(ks, us');
      var st := Scan(ks + Links(us'));
      assert Scan(ks + Links(us)) == Apply(st, Link(u)) by {
        assert ks + Links(us) == (ks + Links(us')) + [Link(u)] by {
          assert Links(us) == Links(us') + [Link(u)];
        }
        ScanSnoc(ks + Links(us'), Link(u));
      }
      var s := Scan(ks);
      if HasBase(s) {
        var title := FullTitle(s.baseTitle.value, s.tune);
        assert Apply(st, Link(u)).songs == (s.songs + Records(title, us')) + [Song(title, u)];
        assert Records(title, us) == Records(title, us') + [Song(title, u)];
        assert s.songs + Records(title, us) == (s.songs + Records(title, us')) + [Song(title, u)];
      } else {
        assert Apply(st, Link(u)) == st;
      }
    }
  }

  /** `Lines(text)` has a second line exactly when the stripped text holds a newline. */
  lemma LinesCount(text: string)
    ensures |Lines(text)| == 1 <==> '\n' !in Strip(text)
    ensures |Lines(text)| == 1 ==> Lines(text) == [Strip(text)]
  {
  }

  /** A one-line listing that starts with `《` makes the function raise `IndexError` at
      `lines[1]`, and nothing else does. */
  lemma ExtractIndexError(text: string)
    ensures Extract(text) == IndexError <==> StartsWith(Strip(text), "《") && '\n' !in Strip(text)
  {
    LinesCount(text);
  }

  /** The header check: the sentinel `("未知专辑", [])` comes back exactly when line 0 does
      not start with `《`, or line 1 exists and is not blank. */
  lemma ExtractSentinel(text: string)
    ensures var lines := Lines(text);
            Extract(text) == Extracted(UnknownAlbum, []) <==>
              !StartsWith(lines[0], "《") || (|lines| >= 2 && Strip(lines[1]) != "")
  {
    var lines := Lines(text);
    if StartsWith(lines[0], "《") && |lines| >= 2 && Strip(lines[1]) == "" {
      StartsWithHead(lines[0], "《");
      StripKeepsFirst(lines[0]);
      StartsWithHead(Strip(lines[0]), "《");
      NotUnknownAlbum(Strip(lines[0]));
    }
  }

  /** Past the header check the album title is the stripped first line, which starts with
      `《` and so never equals the sentinel title; the sentinel title always comes with no
      records; and every record has a non-empty title and a URL. */
  lemma ExtractAlbum(text: string)
    requires Extract(text).Extracted?
    ensures var r := Extract(text);
            var lines := Lines(text);
            (r.album == UnknownAlbum ==> r.songs == [])
            && (r.album != UnknownAlbum ==> r.album == Strip(lines[0]) && StartsWith(r.album, "《"))
            && forall j :: 0 <= j < |r.songs| ==> r.songs[j].title != "" && IsUrl(r.songs[j].url)
  {
    var lines := Lines(text);
    if StartsWith(lines[0], "《") && |lines| >= 2 && Strip(lines[1]) == "" {
      StartsWithHead(lines[0], "《");
      StripKeepsFirst(lines[0]);
      StartsWithHead(Strip(lines[0]), "《");
      NotUnknownAlbum(Strip(lines[0]));
      var ks := Kinds(lines)[2..];
      KindsWell(lines);
      assert forall n :: 0 <= n < |ks| ==> WellKind(ks[n]) by {
        forall n | 0 <= n < |ks| ensures WellKind(ks[n]) {
          assert ks[n] == Kinds(lines)[n + 2];
        }
      }
      ScanGood(ks);
    }
  }
}
