/** Manifest file names. download.py and get_info.py save an album's records as
    `<album title>.json`; download_list.py keeps the directory entries that end in `.json`
    and takes the album title back from the name. */
module Manifest {
  import opened Text

  const Suffix: string := ".json"

  /** `f"{album_title}.json"`. */
  function ManifestName(album: string): (name: string)
    ensures EndsWith(name, Suffix) && |name| == |album| + |Suffix|
    ensures name[..|album|] == album
  {
    album + Suffix
  }

  /** `filename.endswith('.json')`: exactly the names that are the manifest name of some
      album title. */
  function IsManifest(name: string): (b: bool)
    ensures b <==> exists album :: ManifestName(album) == name
  {
    var b := EndsWith(name, Suffix);
    assert b ==> ManifestName(name[..|name| - |Suffix|]) == name;
    b
  }

  /** `filename[:-5]`, on a name that ends with `.json`: the name less its suffix, so the
      manifest of that title has exactly this name. */
  function AlbumOf(name: string): (album: string)
    requires IsManifest(name)
    ensures |album| == |name| - |Suffix|
    ensures ManifestName(album) == name
  {
    assert name == name[..|name| - 5] + name[|name| - 5..];
    name[..|name| - 5]
  }

  /** The name download.py gives a manifest is one download_list.py picks up, and it gives
      back the title the manifest was saved under. */
  lemma AlbumOfManifestName(album: string)
    ensures IsManifest(ManifestName(album))
    ensures AlbumOf(ManifestName(album)) == album
  {
    var name := ManifestName(album);
    assert name[..|name| - 5] == album;
  }

  /** The entries of a listing that name manifests, in listing order. */
  function ManifestNames(names: seq<string>): (ms: seq<string>)
    ensures |ms| <= |names|
    ensures forall k :: 0 <= k < |ms| ==> IsManifest(ms[k]) && ms[k] in names
    ensures forall k :: 0 <= k < |names| && IsManifest(names[k]) ==> names[k] in ms
  {
    if names == [] then []
    else
      var init := names[..|names| - 1];
      var last := names[|names| - 1];
      var ms := ManifestNames(init) + if IsManifest(last) then [last] else [];
      assert forall k :: 0 <= k < |names| - 1 ==> names[k] == init[k];
      ms
  }
}
