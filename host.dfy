/** What `sources/vyos-http.go` sees of the world outside it. Every network,
    file-system and process call is an event of a trace; whether a call
    succeeds, and what it answers, is fixed in advance by a `World`, so that
    one `World` value describes one run of the host. */
module Host {
  import opened Wrappers

  /** The two temporary directories `unpackISO` creates: the mount point of
      the ISO image and the mount point of the squashfs image inside it. */
  datatype Role = Iso | Squashfs

  /** A GitHub release asset. Both fields are pointers in the API client;
      `None` stands for a nil pointer. */
  datatype Asset = Asset(name: Option<string>, browserDownloadURL: Option<string>)

  /** `Asset.GetName`: the name, or "" for a nil pointer. */
  function GetName(a: Asset): string
  {
    match a.name
    case Some(n) => n
    case None => ""
  }

  /** `Asset.GetBrowserDownloadURL`: the URL, or "" for a nil pointer. */
  function GetBrowserDownloadURL(a: Asset): string
  {
    match a.browserDownloadURL
    case Some(u) => u
    case None => ""
  }

  /** The hash function handed to the download helper. */
  datatype Hasher = Sha256

  /** One call to the outside world, with whether it succeeded. */
  datatype Event =
    | LatestReleaseLookup(owner: string, repo: string, ok: bool)
    | DownloadHash(url: string, checksumURL: string, hasher: Hasher, ok: bool)
    | MkTemp(role: Role, parent: string, pattern: string, ok: bool)
    | Mount(fsType: string, options: string, source: string, role: Role, target: string, ok: bool)
    | Unmount(role: Role, target: string, ok: bool)
    | RemoveDir(role: Role, path: string, ok: bool)
    | RemoveRoot(path: string, ok: bool)
    | Rsync(source: string, dest: string, ok: bool)

  /** A release of a resource: what the deferred calls of `unpackISO` do. */
  predicate IsRelease(e: Event)
  {
    e.Unmount? || e.RemoveDir?
  }

  /** The errors the functions of the file return; `cause` is the error
      value of the failing call that the message wraps with `%w`. */
  datatype Error =
    | LatestReleaseFailed(cause: string)
    | NoIsoURL
    | DownloadFailed(cause: string)
    | DownloadImageFailed(inner: Error)
    | TempDirFailed(cause: string)
    | MountFailed(path: string, cause: string)
    | RemoveRootFailed(path: string, cause: string)
    | RsyncFailed(cause: string)

  /** What the download helper answers for a URL: the cache directory it
      returns and its error, if any. Go returns both, and the caller stores
      the directory whether or not the error is nil. */
  datatype Fetched = Fetched(dir: string, err: Option<string>)

  /** The answers of the world to every call the file makes. A failing call
      is answered by the text of its error. */
  datatype World = World(
    latestRelease: Result<seq<Asset>, string>,
    download: string -> Fetched,
    tempDir: Role -> Result<string, string>,
    mount: Role -> Option<string>,
    unmount: Role -> Option<string>,
    removeTemp: Role -> Option<string>,
    removeRoot: Option<string>,
    rsync: Option<string>)
}
