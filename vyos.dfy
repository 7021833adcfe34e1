/** The `vyos` image source of `sources/vyos-http.go` as the imperative code
    it is: a receiver whose `fpath` field `downloadImage` assigns, a loop
    that overwrites the selected URL at every ISO asset, and an `unpackISO`
    that pushes each release onto a stack of deferred calls and runs that
    stack, the most recent first, at every `return`. Each method is proved
    against the specification function of the same step. */
module VyosSource {
  import opened Wrappers
  import opened Host
  import opened Download
  import opened Extraction
  import opened Launch
  import FilePath

  /** The loop of `downloadImage` over the release assets: every asset whose
      name has extension ".iso" overwrites `isoURL`; there is no `break`. */
  method SelectIsoURL(assets: seq<Asset>) returns (isoURL: string)
    ensures isoURL == SelectedURL(assets)
  {
    isoURL := "";
    for i := 0 to |assets|
      invariant isoURL == SelectedURL(assets[..i])
    {
      var a := assets[i];
      if FilePath.Ext(GetName(a)) == IsoExt {
        isoURL := GetBrowserDownloadURL(a);
      }
      assert assets[..i + 1] == assets[..i] + [a];
      SelectedURLSnoc(assets[..i], a);
    }
    assert assets[..|assets|] == assets;
  }

  /** What Go does on `return` from a function with deferred calls: pop and
      run them until the stack is empty, dropping their errors. */
  method RunDeferred(w: World, trace: seq<Event>, deferred: seq<Deferred>) returns (t: seq<Event>)
    ensures t == trace + Unwind(w, deferred)
  {
    t := trace;
    var stack := deferred;
    while stack != []
      invariant t + Unwind(w, stack) == trace + Unwind(w, deferred)
      decreases |stack|
    {
      var d := stack[|stack| - 1];
      assert Unwind(w, stack) == [Perform(w, d)] + Unwind(w, stack[..|stack| - 1]);
      stack := stack[..|stack| - 1];
      t := t + [Perform(w, d)];
    }
  }

  /** The `vyos` struct with the fields of the embedded `common` that this
      file reads. */
  class Vyos {
    const cacheDir: string
    const rootfsDir: string
    var fname: string
    var fpath: string

    /** A receiver as Go's zero value leaves it: `fname` and `fpath` empty. */
    constructor (cacheDir: string, rootfsDir: string)
      ensures this.cacheDir == cacheDir && this.rootfsDir == rootfsDir
      ensures fname == "" && fpath == ""
    {
      this.cacheDir := cacheDir;
      this.rootfsDir := rootfsDir;
      fname := "";
      fpath := "";
    }

    /** `downloadImage`: only `fpath` changes, and only when the download
        helper is called. */
    method DownloadImage(w: World) returns (err: Option<Error>, trace: seq<Event>)
      modifies this`fpath
      ensures err == Download.DownloadImage(w).err && trace == Download.DownloadImage(w).trace
      ensures fpath == FpathAfter(w, old(fpath))
    {
      match w.latestRelease
      case Failure(cause) =>
        return Some(LatestReleaseFailed(cause)), [LatestReleaseLookup(Owner, Repo, false)];
      case Success(assets) =>
        trace := [LatestReleaseLookup(Owner, Repo, true)];
        var isoURL := SelectIsoURL(assets);
        if isoURL == "" {
          return Some(NoIsoURL), trace;
        }
        var got := w.download(isoURL);
        fpath := got.dir;
        trace := trace + [DownloadHash(isoURL, "", Sha256, got.err.None?)];
        err := if got.err.Some? then Some(DownloadFailed(got.err.value)) else None;
    }

    /** `unpackISO`: every `return` runs the deferred calls registered so
        far. */
    method UnpackIso(w: World, filePath: string, rootfsDir: string) returns (err: Option<Error>, trace: seq<Event>)
      ensures Outcome(err, trace) == Extraction.UnpackIso(w, Call(cacheDir, filePath, rootfsDir))
    {
      var deferred: seq<Deferred> := [];
      trace := [];

      var madeIso := w.tempDir(Iso);
      trace := trace + [MkTemp(Iso, cacheDir, TempPattern, madeIso.Success?)];
      if madeIso.Failure? {
        trace := RunDeferred(w, trace, deferred);
        return Some(TempDirFailed(madeIso.error)), trace;
      }
      var isoDir := madeIso.value;
      deferred := deferred + [RemoveAllLater(Iso, isoDir)];

      var madeSquashfs := w.tempDir(Squashfs);
      trace := trace + [MkTemp(Squashfs, cacheDir, TempPattern, madeSquashfs.Success?)];
      if madeSquashfs.Failure? {
        trace := RunDeferred(w, trace, deferred);
        return Some(TempDirFailed(madeSquashfs.error)), trace;
      }
      var squashfsDir := madeSquashfs.value;
      deferred := deferred + [RemoveAllLater(Squashfs, squashfsDir)];

      var mountedIso := w.mount(Iso);
      trace := trace + [Mount(IsoFsType, ReadOnly, filePath, Iso, isoDir, mountedIso.None?)];
      if mountedIso.Some? {
        trace := RunDeferred(w, trace, deferred);
        return Some(MountFailed(filePath, mountedIso.value)), trace;
      }
      deferred := deferred + [UnmountLater(Iso, isoDir)];

      var squashfsImage := SquashfsImage(isoDir);
      var mountedSquashfs := w.mount(Squashfs);
      trace := trace + [Mount(SquashfsFsType, ReadOnly, squashfsImage, Squashfs, squashfsDir, mountedSquashfs.None?)];
      if mountedSquashfs.Some? {
        trace := RunDeferred(w, trace, deferred);
        return Some(MountFailed(squashfsImage, mountedSquashfs.value)), trace;
      }
      deferred := deferred + [UnmountLater(Squashfs, squashfsDir)];

      var removed := w.removeRoot;
      trace := trace + [RemoveRoot(rootfsDir, removed.None?)];
      if removed.Some? {
        trace := RunDeferred(w, trace, deferred);
        return Some(RemoveRootFailed(rootfsDir, removed.value)), trace;
      }

      var synced := w.rsync;
      trace := trace + [Rsync(squashfsDir + "/", rootfsDir, synced.None?)];
      if synced.Some? {
        trace := RunDeferred(w, trace, deferred);
        return Some(RsyncFailed(synced.value)), trace;
      }

      trace := RunDeferred(w, trace, deferred);
      return None, trace;
    }

    /** `Run`: download, and unpack `filepath.Join(fpath, fname)` into the
        root directory only when the download succeeded. */
    method Run(w: World) returns (err: Option<Error>, trace: seq<Event>)
      modifies this`fpath
      ensures Ran(err, trace, fpath) == Launch.Run(w, Receiver(cacheDir, rootfsDir, fname, old(fpath)))
    {
      var fetchErr, fetched := DownloadImage(w);
      if fetchErr.Some? {
        return Some(DownloadImageFailed(fetchErr.value)), fetched;
      }
      var unpacked;
      err, unpacked := UnpackIso(w, FilePath.Join([fpath, fname]), rootfsDir);
      trace := fetched + unpacked;
    }
  }
}
