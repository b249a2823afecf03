/** What `download_music` does with one `<source>` element's `src`: it repairs the
    mis-encoded `&timestamp=` (an HTML entity decoder turns `&times` into `×`) and accepts
    the URL only when it carries the `id`, `timestamp` and `code` parameters. */
module Sources {
  import opened Text

  /** `source['src'].replace('×tamp=', '&timestamp=')`: every `×tamp=` is replaced, and
      the replacement creates none. */
  function Normalize(src: string): (r: string)
    ensures !Contains(r, "×tamp=")
  {
    ReplaceLeavesNone(src, "×tamp=", "&timestamp=");
    Replace(src, "×tamp=", "&timestamp=")
  }

  /** `"id=" in music_url and "timestamp=" in music_url and "code=" in music_url`: the
      computed `in` tests hold exactly when the URL has an occurrence of each marker. */
  function Accepted(musicUrl: string): (ok: bool)
    ensures ok <==> Contains(musicUrl, "id=") && Contains(musicUrl, "timestamp=") && Contains(musicUrl, "code=")
  {
    HasInfix(musicUrl, "id=") && HasInfix(musicUrl, "timestamp=") && HasInfix(musicUrl, "code=")
  }

  /** A `src` without the mis-encoded marker is left as it is. */
  lemma NormalizeKeepsClean(src: string)
    requires !Contains(src, "×tamp=")
    ensures Normalize(src) == src
  {
    assert forall j: nat :: j < |src| ==> !MatchAt(src, "×tamp=", j);
    ReplaceCopies(src, "×tamp=", "&timestamp=", |src|);
    assert src[|src|..] == [];
  }

  /** A `src` whose only timestamp marker is the mis-encoded one is accepted once it is
      normalised, provided it has `id=` and `code=`. */
  lemma MisencodedAccepted(src: string)
    requires Contains(src, "id=") && Contains(src, "code=") && Contains(src, "×tamp=")
    ensures Accepted(Normalize(src))
  {
    ReplaceKeeps(src, "id=", "×tamp=", "&timestamp=");
    ReplaceKeeps(src, "code=", "×tamp=", "&timestamp=");
    ReplaceIntroduces(src, "×tamp=", "&timestamp=");
    ContainsInfix(Normalize(src), "&timestamp=", 1, 11);
    assert "&timestamp="[1..11] == "timestamp=";
  }

  /** Normalisation never creates `code=`: a `src` without it is rejected, whatever else
      it carries. */
  lemma NoCodeRejected(src: string)
    requires !Contains(src, "code=")
    ensures !Accepted(Normalize(src))
  {
    ReplaceCreatesNone(src, "code=", "×tamp=", "&timestamp=");
  }
}
