/** `downloadImage` (sources/vyos-http.go:33-77) as a specification: look up
    the latest release of the rolling nightly builds, pick the download URL
    of the last asset whose name has extension ".iso", and hand it to the
    download helper. */
module Download {
  import opened Wrappers
  import opened Host
  import FilePath

  const Owner := "vyos"
  const Repo := "vyos-rolling-nightly-builds"
  const IsoExt := ".iso"

  /** An asset is an ISO image when `filepath.Ext` of its name is ".iso". */
  predicate IsIso(a: Asset)
  {
    FilePath.Ext(GetName(a)) == IsoExt
  }

  /** The position of the last ISO asset, if there is one. */
  function LastIso(assets: seq<Asset>): (r: Option<nat>)
    ensures r.Some? ==>
      && r.value < |assets| && IsIso(assets[r.value])
      && forall j :: r.value < j < |assets| ==> !IsIso(assets[j])
    ensures r.None? ==> forall j :: 0 <= j < |assets| ==> !IsIso(assets[j])
  {
    if assets == [] then None
    else if IsIso(assets[|assets| - 1]) then Some(|assets| - 1)
    else LastIso(assets[..|assets| - 1])
  }

  /** The value of `isoURL` after the loop over `assets`: the download URL
      of the last ISO asset, or "" when there is none. */
  function SelectedURL(assets: seq<Asset>): string
  {
    match LastIso(assets)
    case Some(i) => GetBrowserDownloadURL(assets[i])
    case None => ""
  }

  /** One more asset: an ISO asset overwrites the selection, any other
      asset leaves it alone. */
  lemma SelectedURLSnoc(assets: seq<Asset>, a: Asset)
    ensures SelectedURL(assets + [a]) ==
            if IsIso(a) then GetBrowserDownloadURL(a) else SelectedURL(assets)
  {
    assert (assets + [a])[..|assets|] == assets;
  }

  /** The selected URL is the one of the last ISO asset: later matches
      overwrite earlier ones. */
  lemma SelectedURLIsLastIso(assets: seq<Asset>, i: nat)
    requires i < |assets| && IsIso(assets[i])
    requires forall j :: i < j < |assets| ==> !IsIso(assets[j])
    ensures SelectedURL(assets) == GetBrowserDownloadURL(assets[i])
  {
  }

  /** Without an ISO asset nothing is selected. */
  lemma SelectedURLWithoutIso(assets: seq<Asset>)
    requires forall j :: 0 <= j < |assets| ==> !IsIso(assets[j])
    ensures SelectedURL(assets) == ""
  {
  }

  /** What `downloadImage` returns, the calls it made, and the value it
      stored in `s.fpath`, if it reached that assignment. */
  datatype Fetch = Fetch(err: Option<Error>, trace: seq<Event>, fpath: Option<string>)

  /** `downloadImage`: the lookup, the selection and the download. */
  function DownloadImage(w: World): Fetch
  {
    match w.latestRelease
    case Failure(cause) =>
      Fetch(Some(LatestReleaseFailed(cause)), [LatestReleaseLookup(Owner, Repo, false)], None)
    case Success(assets) =>
      var lookup := LatestReleaseLookup(Owner, Repo, true);
      var url := SelectedURL(assets);
      if url == "" then Fetch(Some(NoIsoURL), [lookup], None)
      else
        var got := w.download(url);
        var fetch := DownloadHash(url, "", Sha256, got.err.None?);
        Fetch(if got.err.Some? then Some(DownloadFailed(got.err.value)) else None, [lookup, fetch], Some(got.dir))
  }

  /** A failed lookup is reported before any asset is examined: nothing is
      downloaded and `s.fpath` is left alone. */
  lemma LookupFailureStopsEarly(w: World)
    requires w.latestRelease.Failure?
    ensures DownloadImage(w).err == Some(LatestReleaseFailed(w.latestRelease.error))
    ensures DownloadImage(w).fpath.None?
    ensures forall k :: 0 <= k < |DownloadImage(w).trace| ==> !DownloadImage(w).trace[k].DownloadHash?
  {
  }

  /** When the selected URL is empty, because no asset is an ISO image or
      because the last ISO asset has no download URL, `downloadImage`
      fails after the lookup without calling the download helper. */
  lemma NoIsoNoDownload(w: World)
    requires w.latestRelease.Success?
    requires SelectedURL(w.latestRelease.value) == ""
    ensures DownloadImage(w).err == Some(NoIsoURL)
    ensures DownloadImage(w).fpath.None?
    ensures DownloadImage(w).trace == [LatestReleaseLookup(Owner, Repo, true)]
  {
  }

  /** The empty URL of the last ISO asset hides an earlier ISO asset that
      has one: the loop does not skip assets without a URL. */
  lemma LastIsoWithoutURLSelectsNothing(u: string)
    ensures SelectedURL([Asset(Some("a.iso"), Some(u)), Asset(Some("b.iso"), None)]) == ""
  {
    var b := "b.iso";
    FilePath.ExtIsIsoIffSuffix(b);
    assert b[|b| - 4..] == ".iso";
  }

  /** The download helper, when called, gets the URL of the last ISO asset,
      an empty checksum URL and a SHA-256 hasher, and its directory is
      stored whether or not it failed. */
  lemma DownloadsLastIso(w: World, i: nat)
    requires w.latestRelease.Success?
    requires i < |w.latestRelease.value| && IsIso(w.latestRelease.value[i])
    requires forall j :: i < j < |w.latestRelease.value| ==> !IsIso(w.latestRelease.value[j])
    requires GetBrowserDownloadURL(w.latestRelease.value[i]) != ""
    ensures var url := GetBrowserDownloadURL(w.latestRelease.value[i]);
      && DownloadImage(w).trace == [LatestReleaseLookup(Owner, Repo, true),
                                 DownloadHash(url, "", Sha256, w.download(url).err.None?)]
      && DownloadImage(w).fpath == Some(w.download(url).dir)
  {
    SelectedURLIsLastIso(w.latestRelease.value, i);
  }

  /** `downloadImage` returns nil exactly when the lookup succeeds, some
      ISO asset is selected with a non-empty URL, and the download succeeds. */
  lemma DownloadImageSucceeds(w: World)
    ensures DownloadImage(w).err.None? <==>
      && w.latestRelease.Success?
      && SelectedURL(w.latestRelease.value) != ""
      && w.download(SelectedURL(w.latestRelease.value)).err.None?
    ensures DownloadImage(w).err.None? ==>
      && LastIso(w.latestRelease.value).Some?
      && IsIso(w.latestRelease.value[LastIso(w.latestRelease.value).value])
  {
  }

  /** Every call `downloadImage` makes starts with the lookup of the same
      repository, and a failing call is always the last one. */
  lemma DownloadImageStopsAtFailure(w: World)
    ensures var t := DownloadImage(w).trace;
      && 1 <= |t| <= 2
      && t[0] == LatestReleaseLookup(Owner, Repo, w.latestRelease.Success?)
      && (forall k :: 0 < k < |t| ==> t[k].DownloadHash?)
      && (forall k :: 0 <= k < |t| - 1 ==> t[k].ok)
      && (DownloadImage(w).err.None? <==> t[|t| - 1].ok && t[|t| - 1].DownloadHash?)
  {
  }
}
