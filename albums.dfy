/** The loop `for song in songs: download_music(song, directory, session)` that both
    download scripts run over an album's records. */
module Albums {
  import opened Text
  import opened Extractor
  import opened Downloader
  import opened DownloadFacts

  /** The loop from the files `files`, over the records `songs` in order: each track starts
      from the files the previous one left, and its requests and messages follow theirs.
      Every record is attempted, so there is at least one request per record. */
  function RunSongs(script: Script, songs: seq<Song>, directory: string, net: Net,
                    files: map<string, seq<Byte>>): (r: Track)
    ensures |r.requests| >= |songs|
  {
    if songs == [] then Track(files, [], [])
    else
      var t := RunSongs(script, songs[..|songs| - 1], directory, net, files);
      var u := TrackSpec(script, songs[|songs| - 1], directory, net, t.files);
      Track(u.files, t.requests + u.requests, t.log + u.log)
  }

  /** One more record: the track runs from the files the earlier ones left. */
  lemma RunSongsStep(script: Script, songs: seq<Song>, i: nat, directory: string, net: Net,
                     files: map<string, seq<Byte>>)
    requires i < |songs|
    ensures var t := RunSongs(script, songs[..i], directory, net, files);
            var u := TrackSpec(script, songs[i], directory, net, t.files);
            RunSongs(script, songs[..i + 1], directory, net, files)
            == Track(u.files, t.requests + u.requests, t.log + u.log)
  {
    assert songs[..i + 1][..i] == songs[..i];
  }

  /** The loop as the scripts run it. */
  method DownloadSongs(disk: Disk, script: Script, songs: seq<Song>, directory: string, net: Net)
    returns (requests: seq<Request>, log: seq<Event>)
    modifies disk
    ensures Track(disk.files, requests, log) == RunSongs(script, songs, directory, net, old(disk.files))
  {
    requests, log := [], [];
    var i := 0;
    while i < |songs|
      invariant 0 <= i <= |songs|
      invariant Track(disk.files, requests, log) == RunSongs(script, songs[..i], directory, net, old(disk.files))
    {
      ghost var before := disk.files;
      var rq, lg := DownloadMusic(disk, script, songs[i], directory, net);
      ghost var u := TrackSpec(script, songs[i], directory, net, before);
      assert disk.files == u.files && rq == u.requests && lg == u.log;
      requests := requests + rq;
      log := log + lg;
      RunSongsStep(script, songs, i, directory, net, old(disk.files));
      i := i + 1;
    }
    assert songs[..i] == songs;
  }

  /** The pages requested, in order. */
  function PageUrls(rs: seq<Request>): seq<string> {
    if rs == [] then []
    else (if rs[0].PageGet? then [rs[0].url] else []) + PageUrls(rs[1..])
  }

  /** The `url` of each record, in order. */
  function Urls(songs: seq<Song>): (us: seq<string>)
    ensures |us| == |songs|
  {
    if songs == [] then [] else Urls(songs[..|songs| - 1]) + [songs[|songs| - 1].url]
  }

  lemma {:induction false} PageUrlsConcat(a: seq<Request>, b: seq<Request>)
    ensures PageUrls(a + b) == PageUrls(a) + PageUrls(b)
  {
    if a == [] {
      assert a + b == b;
    } else {
      assert (a + b)[1..] == a[1..] + b;
      PageUrlsConcat(a[1..], b);
    }
  }

  /** Media requests name no page. */
  lemma {:induction false} PageUrlsGets(us: seq<string>)
    ensures PageUrls(Gets(us)) == []
  {
    if us != [] {
      assert Gets(us)[1..] == Gets(us[1..]);
      PageUrlsGets(us[1..]);
    }
  }

  /** A track requests its own page and no other. */
  lemma TrackPageUrls(script: Script, song: Song, directory: string, net: Net, files: map<string, seq<Byte>>)
    ensures PageUrls(TrackSpec(script, song, directory, net, files).requests) == [song.url]
  {
    var r := TrackSpec(script, song, directory, net, files);
    TrackRequests(script, song, directory, net, files);
    if net.page(song.url).PageOk? {
      var us := AcceptedUrls(net.page(song.url).srcs);
      var n := |r.requests| - 1;
      PageUrlsConcat([PageGet(song.url)], Gets(us[..n]));
      PageUrlsGets(us[..n]);
    }
  }

  /** Every record of the album is attempted exactly once, in order, whatever
      `RequestException` occurs: one on a track does not stop the later ones. The disk never
      fails here, so this holds only for runs in which every file opens. */
  lemma {:induction false} SongsAttemptedInOrder(script: Script, songs: seq<Song>, directory: string, net: Net,
                                                 files: map<string, seq<Byte>>)
    ensures PageUrls(RunSongs(script, songs, directory, net, files).requests) == Urls(songs)
  {
    if songs != [] {
      var init := songs[..|songs| - 1];
      var t := RunSongs(script, init, directory, net, files);
      var u := TrackSpec(script, songs[|songs| - 1], directory, net, t.files);
      SongsAttemptedInOrder(script, init, directory, net, files);
      TrackPageUrls(script, songs[|songs| - 1], directory, net, t.files);
      PageUrlsConcat(t.requests, u.requests);
    }
  }

  /** Each track writes only its own `<safe title>.mp3` in the album directory. */
  lemma {:induction false} SongsOnlyTouchTheirFiles(script: Script, songs: seq<Song>, directory: string, net: Net,
                                                    files: map<string, seq<Byte>>, p: string)
    requires forall k :: 0 <= k < |songs| ==> p != TrackPath(directory, songs[k])
    ensures var r := RunSongs(script, songs, directory, net, files);
            (p in r.files <==> p in files) && (p in files ==> r.files[p] == files[p])
  {
    if songs != [] {
      var init := songs[..|songs| - 1];
      var t := RunSongs(script, init, directory, net, files);
      SongsOnlyTouchTheirFiles(script, init, directory, net, files, p);
      TrackRequests(script, songs[|songs| - 1], directory, net, t.files);
    }
  }
}
