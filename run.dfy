/** `Run` (sources/vyos-http.go:23-31) as a specification: download the
    image, and unpack `filepath.Join(s.fpath, s.fname)` into the root
    directory only when the download succeeded. */
module Launch {
  import opened Wrappers
  import opened Host
  import opened Resources
  import opened Download
  import opened Extraction
  import ExtractionProperties
  import FilePath

  /** The fields of the receiver that `Run` reads: the cache and root
      directories it inherits, and its own `fname` and `fpath`. */
  datatype Receiver = Receiver(cacheDir: string, rootfsDir: string, fname: string, fpath: string)

  /** What `Run` returns, the calls it made, and `s.fpath` afterwards. */
  datatype Ran = Ran(err: Option<Error>, trace: seq<Event>, fpath: string)

  /** `s.fpath` after `downloadImage`: the helper's directory when the
      helper was called, the old value otherwise. */
  function FpathAfter(w: World, old_fpath: string): string
  {
    var f := DownloadImage(w);
    if f.fpath.Some? then f.fpath.value else old_fpath
  }

  /** `Run`. */
  function Run(w: World, s: Receiver): Ran
  {
    var f := DownloadImage(w);
    var fpath := FpathAfter(w, s.fpath);
    if f.err.Some? then Ran(Some(DownloadImageFailed(f.err.value)), f.trace, fpath)
    else
      var u := UnpackIso(w, Call(s.cacheDir, FilePath.Join([fpath, s.fname]), s.rootfsDir));
      Ran(u.err, f.trace + u.trace, fpath)
  }

  /** An event of `downloadImage`: neither acquires nor releases. */
  predicate IsFetch(e: Event)
  {
    e.LatestReleaseLookup? || e.DownloadHash?
  }

  /** A failed download is returned wrapped, and `unpackISO` is never
      called: no directory is created, nothing is mounted or removed. */
  lemma RunStopsOnDownloadFailure(w: World, s: Receiver)
    requires DownloadImage(w).err.Some?
    ensures Run(w, s).err == Some(DownloadImageFailed(DownloadImage(w).err.value))
    ensures forall k :: 0 <= k < |Run(w, s).trace| ==> IsFetch(Run(w, s).trace[k])
  {
    Download.DownloadImageStopsAtFailure(w);
  }

  /** `Run` returns nil exactly when the download succeeds and the
      unpacking succeeds, which needs all six of its main calls to
      succeed. */
  lemma RunSucceeds(w: World, s: Receiver)
    ensures Run(w, s).err.None? <==>
      && DownloadImage(w).err.None?
      && w.tempDir(Iso).Success? && w.tempDir(Squashfs).Success?
      && w.mount(Iso).None? && w.mount(Squashfs).None?
      && w.removeRoot.None? && w.rsync.None?
  {
    var fpath := FpathAfter(w, s.fpath);
    ExtractionProperties.ExtractSucceeds(w, Call(s.cacheDir, FilePath.Join([fpath, s.fname]), s.rootfsDir));
  }

  /** With `fname` never assigned, the image `Run` mounts is the cleaned
      download directory itself, not a file inside it. */
  lemma RunMountsDownloadDir(w: World, s: Receiver)
    requires s.fname == ""
    requires DownloadImage(w).err.None?
    requires FpathAfter(w, s.fpath) != ""
    ensures var trace := Run(w, s).trace;
      forall k :: 0 <= k < |trace| && trace[k].Mount? && trace[k].role == Iso ==>
        trace[k].source == FilePath.Clean(FpathAfter(w, s.fpath))
  {
    var fpath := FpathAfter(w, s.fpath);
    var c := Call(s.cacheDir, FilePath.Join([fpath, s.fname]), s.rootfsDir);
    var f := DownloadImage(w);
    var u := UnpackIso(w, c);
    var trace := f.trace + u.trace;
    assert Run(w, s).trace == trace;
    assert c.filePath == FilePath.Clean(fpath) by {
      FilePath.JoinEmptyName(fpath);
    }
    ExtractionProperties.IsoMountedFromFilePath(w, c);
    Download.DownloadImageStopsAtFailure(w);
    forall k | 0 <= k < |trace| && trace[k].Mount? && trace[k].role == Iso
      ensures trace[k].source == c.filePath
    {
      if k >= |f.trace| {
        assert trace[k] == u.trace[k - |f.trace|];
      }
    }
  }

  /** The resource discipline of `unpackISO` holds for the whole of `Run`:
      every temporary directory and mount is given back once, most recent
      first, and nothing is held at the end. */
  lemma RunBalanced(w: World, s: Receiver)
    ensures Balanced(Run(w, s).trace)
  {
    var f := DownloadImage(w);
    Download.DownloadImageStopsAtFailure(w);
    HeldAfterNeutral([], f.trace);
    if f.err.None? {
      var c := Call(s.cacheDir, FilePath.Join([FpathAfter(w, s.fpath), s.fname]), s.rootfsDir);
      var u := UnpackIso(w, c);
      assert Run(w, s).trace == f.trace + u.trace;
      ExtractionProperties.ExtractBalanced(w, c);
      HeldAfterAppend([], f.trace, u.trace);
    }
  }
}
