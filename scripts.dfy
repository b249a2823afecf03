/** The `main` functions of the three scripts: get_info.py extracts and saves the manifest,
    download.py extracts, saves and downloads, and download_list.py downloads every
    manifest of a directory. */
module Scripts {
  import opened Text
  import opened Extractor
  import opened ScanFacts
  import opened Downloader
  import opened Albums
  import opened Manifest

  /** How get_info.py's `main` ends: `IndexError` out of the extractor, `sys.exit(1)`, or
      the records saved as the manifest at `path`. */
  datatype InfoRun = InfoCrashed | InfoExit | InfoSaved(path: string, songs: seq<Song>)

  /** get_info.py `main`: exit with status 1 when no record was extracted, and otherwise save
      the extracted records, all of them, as `<targetDir>/<album title>.json`. A saved manifest is never empty and
      its album title is a real one, starting with `《`. */
  function GetInfoMain(inputText: string, targetDir: string): (r: InfoRun)
    ensures r.InfoExit? <==> Extract(inputText).Extracted? && Extract(inputText).songs == []
    ensures r.InfoCrashed? <==> Extract(inputText).IndexError?
    ensures r.InfoSaved? ==>
              var album := Extract(inputText).album;
              r.songs == Extract(inputText).songs && r.songs != []
              && album != UnknownAlbum && StartsWith(album, "《")
              && r.path == JoinPath(targetDir, ManifestName(album))
  {
    match Extract(inputText)
    case IndexError => InfoCrashed
    case Extracted(album, songs) =>
      if songs == [] then InfoExit
      else
        ExtractAlbum(inputText);
        InfoSaved(JoinPath(targetDir, ManifestName(album)), songs)
  }

  /** download.py's check `not songs or album_title == "未知专辑"`, which makes `main` exit
      with status 1. */
  predicate ClipboardRefuses(album: string, songs: seq<Song>) {
    songs == [] || album == UnknownAlbum
  }

  /** The two scripts refuse the same extractions: the sentinel title never comes with
      records, so download.py's title check adds nothing to the empty-list check. */
  lemma RefusalsAgree(inputText: string)
    requires Extract(inputText).Extracted?
    ensures var e := Extract(inputText);
            ClipboardRefuses(e.album, e.songs) <==> GetInfoMain(inputText, "").InfoExit?
  {
    ExtractAlbum(inputText);
  }

  /** Input that fails the header check makes both scripts exit with status 1 before they
      save or download anything. */
  lemma MalformedExits(inputText: string, targetDir: string)
    requires var lines := Lines(inputText);
             !StartsWith(lines[0], "《") || (|lines| >= 2 && Strip(lines[1]) != "")
    ensures GetInfoMain(inputText, targetDir) == InfoExit
    ensures ClipboardRefuses(Extract(inputText).album, Extract(inputText).songs)
  {
    ExtractSentinel(inputText);
  }

  /** How download.py's `main` ends: `IndexError` out of the extractor, `sys.exit(1)`, or
      the manifest saved at `manifestPath` and every record attempted. */
  datatype ClipboardRun =
    | ClipCrashed
    | ClipExit
    | ClipDone(manifestPath: string, songs: seq<Song>, requests: seq<Request>, log: seq<Event>)

  /** download.py `main`: extract; exit with status 1, touching nothing, when the check
      refuses; otherwise save `<readDir>/<album title>.json` and download every record into
      `<saveDir>/<album title>`. */
  method DownloadMain(disk: Disk, inputText: string, readDir: string, saveDir: string, net: Net)
    returns (run: ClipboardRun)
    modifies disk
    ensures Extract(inputText).IndexError? ==> run == ClipCrashed && disk.files == old(disk.files)
    ensures Extract(inputText).Extracted? ==>
              var album, songs := Extract(inputText).album, Extract(inputText).songs;
              if ClipboardRefuses(album, songs) then run == ClipExit && disk.files == old(disk.files)
              else
                var t := RunSongs(Clipboard, songs, JoinPath(saveDir, album), net, old(disk.files));
                run == ClipDone(JoinPath(readDir, ManifestName(album)), songs, t.requests, t.log)
                && disk.files == t.files
  {
    var extraction := ExtractSongsAndTitle(inputText);
    if extraction.IndexError? {
      return ClipCrashed;
    }
    var album, songs := extraction.album, extraction.songs;
    if songs == [] || album == UnknownAlbum {
      return ClipExit;
    }
    var manifestPath := JoinPath(readDir, ManifestName(album));
    var directory := JoinPath(saveDir, album);
    var requests, log := DownloadSongs(disk, Clipboard, songs, directory, net);
    run := ClipDone(manifestPath, songs, requests, log);
  }

  /** download_list.py `main` over the directory listing `names`, from the files `files`:
      each `.json` entry is loaded (`load` stands for `json.load` of the file at that path)
      and its records downloaded into `<saveDir>/<name less .json>`; other entries are
      passed over, so a directory without a manifest leads to no request and no write. */
  function BatchSpec(names: seq<string>, targetDir: string, saveDir: string, net: Net,
                     load: string -> seq<Song>, files: map<string, seq<Byte>>): (r: Track)
    ensures (forall k :: 0 <= k < |names| ==> !IsManifest(names[k])) ==> r == Track(files, [], [])
  {
    if names == [] then Track(files, [], [])
    else
      var t := BatchSpec(names[..|names| - 1], targetDir, saveDir, net, load, files);
      var name := names[|names| - 1];
      if !IsManifest(name) then t
      else
        var u := RunSongs(Batch, load(JoinPath(targetDir, name)), JoinPath(saveDir, AlbumOf(name)), net, t.files);
        Track(u.files, t.requests + u.requests, t.log + u.log)
  }

  /** One more directory entry: a `.json` entry runs its records from the files the earlier
      entries left, and any other entry changes nothing. */
  lemma BatchSpecStep(names: seq<string>, i: nat, targetDir: string, saveDir: string, net: Net,
                      load: string -> seq<Song>, files: map<string, seq<Byte>>)
    requires i < |names|
    ensures var t := BatchSpec(names[..i], targetDir, saveDir, net, load, files);
            var name := names[i];
            BatchSpec(names[..i + 1], targetDir, saveDir, net, load, files)
            == if !IsManifest(name) then t
               else
                 var u := RunSongs(Batch, load(JoinPath(targetDir, name)), JoinPath(saveDir, AlbumOf(name)), net, t.files);
                 Track(u.files, t.requests + u.requests, t.log + u.log)
  {
    assert names[..i + 1][..i] == names[..i];
  }

  /** download_list.py `main`: the loop over `os.listdir(target_directory)`, and inside it
      the loop over the manifest's records. */
  method BatchMain(disk: Disk, names: seq<string>, targetDir: string, saveDir: string, net: Net,
                   load: string -> seq<Song>)
    returns (requests: seq<Request>, log: seq<Event>)
    modifies disk
    ensures Track(disk.files, requests, log) == BatchSpec(names, targetDir, saveDir, net, load, old(disk.files))
  {
    requests, log := [], [];
    var i := 0;
    while i < |names|
      invariant 0 <= i <= |names|
      invariant Track(disk.files, requests, log) == BatchSpec(names[..i], targetDir, saveDir, net, load, old(disk.files))
    {
      var filename := names[i];
      BatchSpecStep(names, i, targetDir, saveDir, net, load, old(disk.files));
      if IsManifest(filename) {
        var albumTitle := filename[..|filename| - 5];
        assert albumTitle == AlbumOf(filename);
        var songs := load(JoinPath(targetDir, filename));
        var directory := JoinPath(saveDir, albumTitle);
        ghost var before := disk.files;
        var rq, lg := DownloadSongs(disk, Batch, songs, directory, net);
        ghost var u := RunSongs(Batch, songs, directory, net, before);
        assert disk.files == u.files && rq == u.requests && lg == u.log;
        requests := requests + rq;
        log := log + lg;
      }
      i := i + 1;
    }
    assert names[..i] == names;
  }

  /** Only the `.json` entries of the listing matter: the run is the one over those
      entries alone. */
  lemma {:induction false} BatchOnlyManifests(names: seq<string>, targetDir: string, saveDir: string, net: Net,
                                              load: string -> seq<Song>, files: map<string, seq<Byte>>)
    ensures BatchSpec(names, targetDir, saveDir, net, load, files)
            == BatchSpec(ManifestNames(names), targetDir, saveDir, net, load, files)
  {
    if names != [] {
      var init := names[..|names| - 1];
      var last := names[|names| - 1];
      BatchOnlyManifests(init, targetDir, saveDir, net, load, files);
      var ms := ManifestNames(init);
      if IsManifest(last) {
        assert ManifestNames(names) == ms + [last];
        assert (ms + [last])[..|ms|] == ms;
      } else {
        assert ManifestNames(names) == ms;
      }
    }
  }

  /** The record URLs of the manifests `ms`, manifest after manifest. */
  function ManifestUrls(ms: seq<string>, targetDir: string, load: string -> seq<Song>): seq<string> {
    if ms == [] then []
    else ManifestUrls(ms[..|ms| - 1], targetDir, load) + Urls(load(JoinPath(targetDir, ms[|ms| - 1])))
  }

  /** Every record of every manifest is attempted exactly once: manifests in listing order,
      records in manifest order, whatever `RequestException` occurs. The disk never fails
      here, so this holds only for runs in which every file opens. */
  lemma {:induction false} BatchAttemptsAll(names: seq<string>, targetDir: string, saveDir: string, net: Net,
                                            load: string -> seq<Song>, files: map<string, seq<Byte>>)
    ensures PageUrls(BatchSpec(names, targetDir, saveDir, net, load, files).requests)
            == ManifestUrls(ManifestNames(names), targetDir, load)
  {
    if names != [] {
      var init := names[..|names| - 1];
      var last := names[|names| - 1];
      var t := BatchSpec(init, targetDir, saveDir, net, load, files);
      BatchAttemptsAll(init, targetDir, saveDir, net, load, files);
      var ms := ManifestNames(init);
      if IsManifest(last) {
        var songs := load(JoinPath(targetDir, last));
        var u := RunSongs(Batch, songs, JoinPath(saveDir, AlbumOf(last)), net, t.files);
        SongsAttemptedInOrder(Batch, songs, JoinPath(saveDir, AlbumOf(last)), net, t.files);
        PageUrlsConcat(t.requests, u.requests);
        assert ManifestNames(names) == ms + [last];
        assert (ms + [last])[..|ms|] == ms;
      } else {
        assert ManifestNames(names) == ms;
      }
    }
  }
}
