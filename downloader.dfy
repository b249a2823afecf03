/** `download_music` (download.py and download_list.py): fetch a track's page, walk its
    `<source>` elements in order, and stream every accepted one into
    `<directory>/<safe title>.mp3`. */
module Downloader {
  import opened Wrappers
  import opened Text
  import opened Extractor
  import opened Sanitize
  import opened Sources

  newtype Byte = b: int | 0 <= b < 256

  /** What `session.get(music_url, stream=True)` gives back: a `RequestException` before any
      byte arrives (the request or `raise_for_status` fails), or a stream whose
      `content-length` header may be absent and whose `iter_content(1024)` yields `chunks`
      and then, when `broken`, raises a `RequestException`. */
  datatype MediaResponse =
    | MediaFailed
    | MediaStream(contentLength: Option<nat>, chunks: seq<seq<Byte>>, broken: bool)

  /** What `session.get(url)` on a track's page gives back: a `RequestException`, or the
      `src` attribute of every `<source>` element, in document order. */
  datatype PageResponse = PageFailed | PageOk(srcs: seq<string>)

  /** The network as the scripts see it. */
  datatype Net = Net(page: string -> PageResponse, media: string -> MediaResponse)

  /** download.py (the clipboard script) or download_list.py (the manifest script); only
      the second reports rejected sources. */
  datatype Script = Clipboard | Batch

  /** A request the scripts send. */
  datatype Request = PageGet(url: string) | MediaGet(url: string)

  /** The messages `download_music` prints, each naming the safe title. */
  datatype Event =
    | NoSources(title: string)
    | Downloading(title: string)
    | Downloaded(title: string)
    | MissingParams(title: string)
    | RequestError(title: string)

  /** Files on disk, path to bytes, and what the scripts have sent and printed. */
  datatype Track = Track(files: map<string, seq<Byte>>, requests: seq<Request>, log: seq<Event>)

  /** `os.path.join(a, b)` on POSIX: an absolute `b` replaces `a`, and a separator is added
      only when `a` is non-empty and does not end with one. */
  function JoinPath(a: string, b: string): (p: string)
    ensures EndsWith(p, b)
    ensures !StartsWith(b, "/") ==> StartsWith(p, a)
  {
    if StartsWith(b, "/") then b
    else if a == [] || EndsWith(a, "/") then a + b
    else a + "/" + b
  }

  /** The chunks of a stream, concatenated in order. */
  function Flatten(chunks: seq<seq<Byte>>): seq<Byte> {
    if chunks == [] then [] else Flatten(chunks[..|chunks| - 1]) + chunks[|chunks| - 1]
  }

  lemma FlattenSnoc(chunks: seq<seq<Byte>>, c: seq<Byte>)
    ensures Flatten(chunks + [c]) == Flatten(chunks) + c
  {
    assert (chunks + [c])[..|chunks|] == chunks;
  }

  /** The bar's `total`: `int(headers.get('content-length', 0))`. */
  function DeclaredTotal(contentLength: Option<nat>): nat {
    match contentLength
    case Some(n) => n
    case None => 0
  }

  /** The disk: the bytes of each file the scripts write. */
  class Disk {
    var files: map<string, seq<Byte>>

    constructor (files0: map<string, seq<Byte>>)
      ensures files == files0
    {
      files := files0;
    }

    /** `open(path, 'wb')`: the file exists and is empty. */
    method Create(path: string)
      modifies this
      ensures files == old(files)[path := []]
    {
      files := files[path := []];
    }

    /** `f.write(data)` on a file opened for writing. */
    method Append(path: string, data: seq<Byte>)
      requires path in files
      modifies this
      ensures files == old(files)[path := old(files)[path] + data]
    {
      files := files[path := files[path] + data];
    }
  }

  /** The `with open(...)` block and its chunk loop: the file ends up holding the chunks in
      order, the progress counter equals the number of bytes written, and the declared total
      is the `content-length` header or 0. */
  method StreamToFile(disk: Disk, path: string, contentLength: Option<nat>, chunks: seq<seq<Byte>>)
    returns (total: nat, progress: nat)
    modifies disk
    ensures total == DeclaredTotal(contentLength)
    ensures disk.files == old(disk.files)[path := Flatten(chunks)]
    ensures progress == |disk.files[path]|
  {
    total := if contentLength.Some? then contentLength.value else 0;
    disk.Create(path);
    progress := 0;
    var i := 0;
    while i < |chunks|
      invariant 0 <= i <= |chunks|
      invariant disk.files == old(disk.files)[path := Flatten(chunks[..i])]
      invariant progress == |Flatten(chunks[..i])|
    {
      var data := chunks[i];
      progress := progress + |data|;
      disk.Append(path, data);
      assert chunks[..i + 1] == chunks[..i] + [data];
      FlattenSnoc(chunks[..i], data);
      i := i + 1;
    }
    assert chunks[..i] == chunks;
  }

  /** An accepted source: `session.get(music_url, stream=True)`, then the `with open(...)`
      block, which leaves in `path` whatever chunks arrived before any failure. It adds its
      one media request and writes no file but `path`; a stream that arrives whole leaves
      its bytes there. It prints two messages about the track, the second "downloaded"
      exactly when the stream arrived whole. */
  function FetchSource(path: string, safe: string, net: Net, url: string, t: Track): (r: Track)
    ensures r.requests == t.requests + [MediaGet(url)]
    ensures forall p :: p != path ==> (p in r.files <==> p in t.files) && (p in t.files ==> r.files[p] == t.files[p])
    ensures Completes(net, url) ==> r.files == t.files[path := Flatten(net.media(url).chunks)]
    ensures |r.log| == |t.log| + 2 && t.log <= r.log
    ensures forall j :: |t.log| <= j < |r.log| ==> r.log[j].title == safe
    ensures r.log[|r.log| - 1] == Downloaded(safe) <==> Completes(net, url)
  {
    var requests := t.requests + [MediaGet(url)];
    match net.media(url)
    case MediaFailed => Track(t.files, requests, t.log + [Downloading(safe), RequestError(safe)])
    case MediaStream(_, chunks, broken) =>
      Track(t.files[path := Flatten(chunks)], requests,
            t.log + [Downloading(safe), if broken then RequestError(safe) else Downloaded(safe)])
  }

  /** The media request for `url` gets a stream that arrives whole, so the loop goes on. */
  predicate Completes(net: Net, url: string) {
    net.media(url).MediaStream? && !net.media(url).broken
  }

  /** A rejected source: nothing is requested or written, and only the manifest script
      prints "missing parameters". */
  function SkipSource(script: Script, safe: string, t: Track): (r: Track)
    ensures r.files == t.files && r.requests == t.requests
    ensures t.log <= r.log
    ensures forall j :: |t.log| <= j < |r.log| ==> r.log[j].title == safe
    ensures r.log != t.log <==> script == Batch
  {
    if script == Batch then t.(log := t.log + [MissingParams(safe)]) else t
  }

  /** The loop `for source in sources`, from the state `t` on: each source's `src` is
      normalised; an accepted one is requested and streamed into `path`, and a
      `RequestException` ends the track; a rejected one is skipped. */
  function RunSources(script: Script, path: string, safe: string, net: Net, srcs: seq<string>, t: Track): (r: Track)
    ensures t.requests <= r.requests && |r.requests| <= |t.requests| + |srcs|
    ensures t.log <= r.log
    ensures forall j :: |t.log| <= j < |r.log| ==> r.log[j].title == safe
    decreases |srcs|
  {
    if srcs == [] then t
    else
      var url := Normalize(srcs[0]);
      if !Accepted(url) then RunSources(script, path, safe, net, srcs[1..], SkipSource(script, safe, t))
      else if Completes(net, url) then RunSources(script, path, safe, net, srcs[1..], FetchSource(path, safe, net, url, t))
      else FetchSource(path, safe, net, url, t)
  }

  /** One more source from index `i`: a rejected one is skipped, an accepted one is
      fetched, and the loop goes on after it only when its stream arrived whole. */
  lemma RunSourcesStep(script: Script, path: string, safe: string, net: Net, srcs: seq<string>,
                       i: nat, t: Track)
    requires i < |srcs|
    ensures var url := Normalize(srcs[i]);
            RunSources(script, path, safe, net, srcs[i..], t)
            == if !Accepted(url) then RunSources(script, path, safe, net, srcs[i + 1..], SkipSource(script, safe, t))
               else if Completes(net, url) then RunSources(script, path, safe, net, srcs[i + 1..], FetchSource(path, safe, net, url, t))
               else FetchSource(path, safe, net, url, t)
  {
    assert srcs[i..][0] == srcs[i];
    assert srcs[i..][1..] == srcs[i + 1..];
  }

  /** Where a track's audio goes: `os.path.join(directory, f"{safe_song_title}.mp3")`. The
      file is named after the safe title with `.mp3` added, and lies under `directory`
      unless the safe title is itself an absolute path. */
  function TrackPath(directory: string, song: Song): (p: string)
    ensures EndsWith(p, SafeTitle(song.title) + ".mp3")
    ensures !StartsWith(SafeTitle(song.title), "/") ==> StartsWith(p, directory)
  {
    var name := SafeTitle(song.title) + ".mp3";
    assert StartsWith(name, "/") ==> StartsWith(SafeTitle(song.title), "/") by {
      var safe := SafeTitle(song.title);
      if safe == [] {
        assert name[0] == '.';
      } else {
        assert name[..1] == safe[..1];
      }
    }
    JoinPath(directory, name)
  }

  /** `download_music(song, directory, session)` from the files `files`: the page request,
      then either a `RequestException`, "no audio source", or the source loop. */
  function TrackSpec(script: Script, song: Song, directory: string, net: Net, files: map<string, seq<Byte>>): (r: Track)
    ensures |r.requests| >= 1 && r.requests[0] == PageGet(song.url)
    ensures forall j :: 0 <= j < |r.log| ==> r.log[j].title == SafeTitle(song.title)
  {
    var safe := SafeTitle(song.title);
    var t := Track(files, [PageGet(song.url)], []);
    match net.page(song.url)
    case PageFailed => Track(files, t.requests, [RequestError(safe)])
    case PageOk(srcs) =>
      if srcs == [] then Track(files, t.requests, [NoSources(safe)])
      else RunSources(script, TrackPath(directory, song), safe, net, srcs, t)
  }

  /** The `try` block of `download_music`'s loop and its `except`: the streamed request for
      `url`, the file written chunk by chunk, and the message that ends the attempt; `ok`
      says whether the loop goes on to the next source. */
  method FetchMedia(disk: Disk, path: string, safe: string, net: Net, url: string,
                    requests0: seq<Request>, log0: seq<Event>)
    returns (requests: seq<Request>, log: seq<Event>, ok: bool)
    modifies disk
    ensures ok == Completes(net, url)
    ensures Track(disk.files, requests, log)
            == FetchSource(path, safe, net, url, Track(old(disk.files), requests0, log0))
  {
    log := log0 + [Downloading(safe)];
    requests := requests0 + [MediaGet(url)];
    var response := net.media(url);
    if response.MediaFailed? {
      log := log + [RequestError(safe)];
      return requests, log, false;
    }
    var total, progress := StreamToFile(disk, path, response.contentLength, response.chunks);
    if response.broken {
      log := log + [RequestError(safe)];
      return requests, log, false;
    }
    log := log + [Downloaded(safe)];
    ok := true;
  }

  /** `download_music`, statement by statement. */
  method DownloadMusic(disk: Disk, script: Script, song: Song, directory: string, net: Net)
    returns (requests: seq<Request>, log: seq<Event>)
    modifies disk
    ensures Track(disk.files, requests, log) == TrackSpec(script, song, directory, net, old(disk.files))
  {
    var safe := SafeTitle(song.title);
    requests := [PageGet(song.url)];
    log := [];
    var page := net.page(song.url);
    if page.PageFailed? {
      log := [RequestError(safe)];
      return;
    }
    var srcs := page.srcs;
    if |srcs| == 0 {
      log := [NoSources(safe)];
      return;
    }
    var path := JoinPath(directory, safe + ".mp3");
    ghost var goal := TrackSpec(script, song, directory, net, old(disk.files));
    assert path == TrackPath(directory, song);
    assert srcs[0..] == srcs;
    var i := 0;
    while i < |srcs|
      invariant 0 <= i <= |srcs|
      invariant RunSources(script, path, safe, net, srcs[i..], Track(disk.files, requests, log)) == goal
    {
      var musicUrl := Normalize(srcs[i]);
      ghost var before := Track(disk.files, requests, log);
      RunSourcesStep(script, path, safe, net, srcs, i, before);
      if Accepted(musicUrl) {
        var ok;
        requests, log, ok := FetchMedia(disk, path, safe, net, musicUrl, requests, log);
        assert Track(disk.files, requests, log) == FetchSource(path, safe, net, musicUrl, before);
        if !ok {
          return;
        }
      } else if script == Batch {
        log := log + [MissingParams(safe)];
        assert Track(disk.files, requests, log) == SkipSource(script, safe, before);
      } else {
        assert Track(disk.files, requests, log) == SkipSource(script, safe, before);
      }
      i := i + 1;
    }
  }
}
