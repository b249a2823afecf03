/** Properties of `download_music`: which sources are fetched, in which order, which file
    they land in, and what a track whose page has no `<source>` element does. */
module DownloadFacts {
  import opened Wrappers
  import opened Text
  import opened Extractor
  import opened Sanitize
  import opened Sources
  import opened Downloader

  /** The normalised `src`s the source loop accepts, in source order. */
  function AcceptedUrls(srcs: seq<string>): (us: seq<string>)
    ensures |us| <= |srcs|
    ensures forall j :: 0 <= j < |us| ==> Accepted(us[j])
  {
    if srcs == [] then []
    else (if Accepted(Normalize(srcs[0])) then [Normalize(srcs[0])] else []) + AcceptedUrls(srcs[1..])
  }

  /** One media request per URL, in order. */
  function Gets(us: seq<string>): (rs: seq<Request>)
    ensures |rs| == |us|
  {
    if us == [] then [] else [MediaGet(us[0])] + Gets(us[1..])
  }

  /** `after` differs from `before` at most in the file `path`. */
  ghost predicate OnlyTouches(before: map<string, seq<Byte>>, after: map<string, seq<Byte>>, path: string) {
    forall p :: p != path ==> (p in after <==> p in before) && (p in before ==> after[p] == before[p])
  }

  /** What the source loop promises from the state `t` on: its media requests are a prefix
      of the accepted URLs, it writes no file but `path` (none when nothing is accepted),
      and it keeps the messages printed before it. */
  ghost predicate FetchesAccepted(srcs: seq<string>, path: string, t: Track, r: Track) {
    var n := |r.requests| - |t.requests|;
    0 <= n <= |AcceptedUrls(srcs)|
    && r.requests == t.requests + Gets(AcceptedUrls(srcs)[..n])
    && OnlyTouches(t.files, r.files, path)
    && (AcceptedUrls(srcs) == [] ==> r.files == t.files)
    && t.log <= r.log
  }

  /** The source loop fetches accepted sources only, in source order, without skipping one:
      its media requests are a prefix of the accepted URLs (the whole list unless a
      `RequestException` ended the track); it writes no file but `path`, and none at all
      when no source is accepted; the messages before it are kept. */
  lemma {:induction false} SourcesFetchAccepted(script: Script, path: string, safe: string, net: Net,
                                                srcs: seq<string>, t: Track)
    ensures FetchesAccepted(srcs, path, t, RunSources(script, path, safe, net, srcs, t))
    decreases |srcs|, 1
  {
    if srcs == [] {
      assert t.requests + Gets([]) == t.requests;
    } else if !Accepted(Normalize(srcs[0])) {
      var t2 := SkipSource(script, safe, t);
      SourcesFetchAccepted(script, path, safe, net, srcs[1..], t2);
      assert AcceptedUrls(srcs) == AcceptedUrls(srcs[1..]);
    } else {
      SourcesFetchStep(script, path, safe, net, srcs, t);
    }
  }

  /** The step of `SourcesFetchAccepted` for an accepted first source. */
  lemma {:induction false} SourcesFetchStep(script: Script, path: string, safe: string, net: Net,
                                            srcs: seq<string>, t: Track)
    requires srcs != [] && Accepted(Normalize(srcs[0]))
    ensures FetchesAccepted(srcs, path, t, RunSources(script, path, safe, net, srcs, t))
    decreases |srcs|, 0
  {
    var url := Normalize(srcs[0]);
    var rest := srcs[1..];
    var us := AcceptedUrls(srcs);
    var r := RunSources(script, path, safe, net, srcs, t);
    assert us == [url] + AcceptedUrls(rest);
    var t2 := FetchSource(path, safe, net, url, t);
    if Completes(net, url) {
      assert r == RunSources(script, path, safe, net, rest, t2);
      SourcesFetchAccepted(script, path, safe, net, rest, t2);
      FetchesCons(srcs, url, path, t, t2, r);
    } else {
      assert r == t2;
      assert us[..1] == [url];
    }
  }

  /** An accepted source followed by the rest of the loop fetches a prefix of the accepted
      URLs, when the rest does. */
  lemma FetchesCons(srcs: seq<string>, url: string, path: string, t: Track, t2: Track, r: Track)
    requires srcs != [] && AcceptedUrls(srcs) == [url] + AcceptedUrls(srcs[1..])
    requires t2.requests == t.requests + [MediaGet(url)]
    requires OnlyTouches(t.files, t2.files, path) && t.log <= t2.log
    requires FetchesAccepted(srcs[1..], path, t2, r)
    ensures FetchesAccepted(srcs, path, t, r)
  {
    var rest := AcceptedUrls(srcs[1..]);
    var m := |r.requests| - |t2.requests|;
    ConsRequests(url, rest, m, t.requests, r.requests);
    OnlyTouchesTrans(t.files, t2.files, r.files, path);
    assert t.log <= r.log by {
      assert r.log[..|t.log|] == r.log[..|t2.log|][..|t.log|];
    }
  }

  lemma ConsRequests(url: string, rest: seq<string>, m: nat, before: seq<Request>, after: seq<Request>)
    requires m <= |rest|
    requires after == (before + [MediaGet(url)]) + Gets(rest[..m])
    ensures after == before + Gets(([url] + rest)[..m + 1])
  {
    var v := rest[..m];
    assert ([url] + rest)[..m + 1] == [url] + v;
    GetsCons(url, v);
    assert after == before + ([MediaGet(url)] + Gets(v));
  }

  lemma GetsCons(u: string, v: seq<string>)
    ensures Gets([u] + v) == [MediaGet(u)] + Gets(v)
  {
    assert ([u] + v)[1..] == v;
  }

  lemma OnlyTouchesTrans(a: map<string, seq<Byte>>, b: map<string, seq<Byte>>, c: map<string, seq<Byte>>, path: string)
    requires OnlyTouches(a, b, path) && OnlyTouches(b, c, path)
    ensures OnlyTouches(a, c, path)
  {
  }

  /** Every accepted URL gets a stream that arrives whole. */
  predicate AllServed(net: Net, us: seq<string>) {
    forall j :: 0 <= j < |us| ==> Completes(net, us[j])
  }

  /** What the source loop does from the state `t` when every accepted source is served in
      full: one media request per accepted URL, in order, and the file `path` holding the
      bytes of the last one. */
  ghost predicate LastWins(us: seq<string>, path: string, net: Net, t: Track, r: Track) {
    AllServed(net, us)
    && r.requests == t.requests + Gets(us)
    && r.files == if us == [] then t.files else t.files[path := Flatten(net.media(us[|us| - 1]).chunks)]
  }

  /** When every accepted source is served in full, each one is fetched, in source order,
      and written to the same `path`, so the file ends up with the last accepted source's
      bytes. */
  lemma {:induction false} SourcesLastWins(script: Script, path: string, safe: string, net: Net,
                                           srcs: seq<string>, t: Track)
    requires AllServed(net, AcceptedUrls(srcs))
    ensures LastWins(AcceptedUrls(srcs), path, net, t, RunSources(script, path, safe, net, srcs, t))
    decreases |srcs|
  {
    if srcs != [] {
      var url := Normalize(srcs[0]);
      var rest := srcs[1..];
      var us := AcceptedUrls(srcs);
      if !Accepted(url) {
        assert us == AcceptedUrls(rest);
        SourcesLastWins(script, path, safe, net, rest, SkipSource(script, safe, t));
      } else {
        assert us == [url] + AcceptedUrls(rest);
        assert Completes(net, us[0]);
        var t2 := FetchSource(path, safe, net, url, t);
        assert AllServed(net, AcceptedUrls(rest)) by {
          forall j | 0 <= j < |AcceptedUrls(rest)| ensures Completes(net, AcceptedUrls(rest)[j]) {
            assert AcceptedUrls(rest)[j] == us[j + 1];
          }
        }
        assert RunSources(script, path, safe, net, srcs, t) == RunSources(script, path, safe, net, rest, t2);
        SourcesLastWins(script, path, safe, net, rest, t2);
        LastWinsCons(url, AcceptedUrls(rest), path, net, t, t2, RunSources(script, path, safe, net, rest, t2));
      }
    }
  }

  /** A source served in full, followed by the rest of the loop. */
  lemma LastWinsCons(url: string, rest: seq<string>, path: string, net: Net, t: Track, t2: Track, r: Track)
    requires Completes(net, url) && t2.requests == t.requests + [MediaGet(url)]
    requires t2.files == t.files[path := Flatten(net.media(url).chunks)]
    requires LastWins(rest, path, net, t2, r)
    ensures LastWins([url] + rest, path, net, t, r)
  {
    GetsCons(url, rest);
    assert AllServed(net, [url] + rest) by {
      forall j | 0 <= j < |rest| + 1 ensures Completes(net, ([url] + rest)[j]) {
        if j > 0 { assert ([url] + rest)[j] == rest[j - 1]; }
      }
    }
    assert r.requests == (t.requests + [MediaGet(url)]) + Gets(rest);
    if rest != [] {
      assert ([url] + rest)[|rest|] == rest[|rest| - 1];
    }
  }

  /** When no source is accepted nothing is fetched or written; the manifest script says
      "missing parameters" once per source, the clipboard script says nothing. */
  lemma {:induction false} SourcesAllRejected(script: Script, path: string, safe: string, net: Net,
                                              srcs: seq<string>, t: Track)
    requires AcceptedUrls(srcs) == []
    ensures var r := RunSources(script, path, safe, net, srcs, t);
            r.files == t.files && r.requests == t.requests
            && r.log == t.log + if script == Batch then seq(|srcs|, _ => MissingParams(safe)) else []
    decreases |srcs|
  {
    if srcs != [] {
      var rest := srcs[1..];
      SourcesAllRejected(script, path, safe, net, rest, SkipSource(script, safe, t));
      if script == Batch {
        assert [MissingParams(safe)] + seq(|rest|, _ => MissingParams(safe)) == seq(|srcs|, _ => MissingParams(safe));
      }
    }
  }

  /** A `src` that lacks `code=`, even with `id=` and a timestamp, is never fetched. */
  lemma NoCodeNotFetched(srcs: seq<string>, k: nat)
    requires k < |srcs| && !Contains(srcs[k], "code=")
    ensures Normalize(srcs[k]) !in AcceptedUrls(srcs)
  {
    NoCodeRejected(srcs[k]);
  }

  /** `FetchesAccepted` for a source loop that starts after the page request alone. */
  lemma FetchesAfterPage(srcs: seq<string>, path: string, pageGet: Request, files: map<string, seq<Byte>>, r: Track)
    requires FetchesAccepted(srcs, path, Track(files, [pageGet], []), r)
    ensures var us := AcceptedUrls(srcs);
            var n := |r.requests| - 1;
            n <= |us| && r.requests == [pageGet] + Gets(us[..n]) && OnlyTouches(files, r.files, path)
  {
  }

  /** One track: the page is requested first and once, then only accepted sources, in
      order; no file but the track's `<safe title>.mp3` is written; and a page that fails
      or has no `<source>` element leads to no media request and no file. */
  lemma TrackRequests(script: Script, song: Song, directory: string, net: Net, files: map<string, seq<Byte>>)
    ensures var r := TrackSpec(script, song, directory, net, files);
            |r.requests| >= 1 && r.requests[0] == PageGet(song.url)
            && OnlyTouches(files, r.files, TrackPath(directory, song))
            && (net.page(song.url).PageFailed? || net.page(song.url).srcs == [] ==>
                  r.requests == [PageGet(song.url)] && r.files == files)
            && (net.page(song.url).PageOk? ==>
                  var us := AcceptedUrls(net.page(song.url).srcs);
                  var n := |r.requests| - 1;
                  n <= |us| && r.requests == [PageGet(song.url)] + Gets(us[..n]))
  {
    var page := net.page(song.url);
    var r := TrackSpec(script, song, directory, net, files);
    var path := TrackPath(directory, song);
    if page.PageOk? && page.srcs != [] {
      var t := Track(files, [PageGet(song.url)], []);
      assert FetchesAccepted(page.srcs, path, t, r) by {
        var safe := SafeTitle(song.title);
        assert r == RunSources(script, path, safe, net, page.srcs, t);
        SourcesFetchAccepted(script, path, safe, net, page.srcs, t);
      }
      FetchesAfterPage(page.srcs, path, PageGet(song.url), files, r);
    } else {
      assert r.requests == [PageGet(song.url)] && r.files == files;
    }
  }

  /** A track whose page has `<source>` elements but none acceptable fetches nothing past
      the page and writes nothing. */
  lemma TrackAllRejected(script: Script, song: Song, directory: string, net: Net, files: map<string, seq<Byte>>)
    requires net.page(song.url).PageOk? && AcceptedUrls(net.page(song.url).srcs) == []
    ensures var r := TrackSpec(script, song, directory, net, files);
            r.requests == [PageGet(song.url)] && r.files == files
  {
    var page := net.page(song.url);
    if page.srcs != [] {
      var t := Track(files, [PageGet(song.url)], []);
      SourcesAllRejected(script, TrackPath(directory, song), SafeTitle(song.title), net, page.srcs, t);
    }
  }
}
