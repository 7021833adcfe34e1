# VyOS image source of distrobuilder, in Dafny

This project models `sources/vyos-http.go` of distrobuilder. That file holds the `vyos` image source. Its `Run` has two steps:

- `downloadImage` looks up the latest release of `vyos/vyos-rolling-nightly-builds` on GitHub. It keeps the browser-download URL of the last release asset whose name has the extension `.iso`. It then hands that URL to the cached, hashed download helper.
- `unpackISO` creates two temporary directories. It mounts the ISO on the first one and `live/filesystem.squashfs` from inside it on the second. It removes the root directory and rsyncs the squashfs tree into its place. Each temporary directory and each mount gets a deferred release, and the deferred releases run last in, first out, on every `return`.

The outside world is one `World` value (`host.dfy`). It gives the answer of every network, file-system and process call, so a `World` stands for one run of the host. The calls themselves become `Event`s of a trace that every operation returns.

The modules:

- `FilePath` (`filepath.dfy`): Go's `filepath.Ext`, and `filepath.Join` with the `Clean` it applies (Unix separator).
- `Host` (`host.dfy`): assets, events, errors and the world.
- `Resources` (`resources.dfy`): which events acquire or release a temporary directory or a mount; the stack of held resources along a trace; `Balanced` traces, where every release gives back the most recent resource still held.
- `Download` (`download.dfy`): `downloadImage` as a function, with the asset-selection rule.
- `Extraction` and `ExtractionProperties` (`extraction.dfy`, `extraction_properties.dfy`): `unpackISO` as a machine of stage functions. `UnpackIso` returns the main calls up to the first failure, followed by the unwound defer stack.
- `Launch` (`run.dfy`): `Run` as a function.
- `VyosSource` (`vyos.dfy`): the imperative code. The `Vyos` class has the `fpath` and `fname` fields. `SelectIsoURL` is the overwriting loop. `UnpackIso` keeps an explicit `deferred` stack and runs `RunDeferred` at each of its seven `return`s. Each method is proved equal to the specification function of its step.

## Model

| member | source | states |
|---|---|---|
| FilePath.ExtSuffix | sources/vyos-http.go:63 | a non-empty extension is a suffix of the path that starts with '.' and holds no other '.' or separator |
| FilePath.ExtEmpty | sources/vyos-http.go:63 | an empty extension means every '.' of the path lies before a separator, so the final element has none |
| FilePath.ExtIsIsoIffSuffix | sources/vyos-http.go:63-65 | the `.iso` test holds exactly when the name ends in ".iso" (case-sensitive; "x.ISO" and "x.iso/" fail) |
| FilePath.Join | sources/vyos-http.go:30 | `filepath.Join` gives "" exactly when every element is empty |
| FilePath.JoinEmptyName | sources/vyos-http.go:30 | `filepath.Join(dir, "")` is `Clean(dir)`, or "" for an empty `dir` |
| FilePath.JoinPlainNames | sources/vyos-http.go:104 | `filepath.Join(dir, a, b)` for plain names is `a/b` directly below the cleaned `dir`, with the root and "." cases |
| Download.LastIso | sources/vyos-http.go:60-68 | the position found holds an asset whose name has extension ".iso" and no later asset has one; no position means no asset has one |
| Download.SelectedURLSnoc | sources/vyos-http.go:62-67 | one more asset overwrites the selected URL when its name has extension ".iso" and leaves it alone otherwise |
| Download.SelectedURLIsLastIso | sources/vyos-http.go:62-68 | when asset i is the last ISO asset, the selected URL is its URL: later matches overwrite earlier ones |
| Download.SelectedURLWithoutIso | sources/vyos-http.go:60-68 | with no ISO asset the selected URL is "" |
| Download.LookupFailureStopsEarly | sources/vyos-http.go:55-58 | a failed latest-release lookup returns the wrapped lookup error; nothing is downloaded and `fpath` is not assigned |
| Download.NoIsoNoDownload | sources/vyos-http.go:70-72 | whenever the selected URL is empty (no ISO asset, or the last ISO asset has no URL) the result is the "Failed to get latest release URL" error, the lookup is the only call and `fpath` is not assigned |
| Download.LastIsoWithoutURLSelectsNothing | sources/vyos-http.go:62-72 | an earlier ISO asset with a URL is overwritten by a later ISO asset without one: the selected URL is empty |
| Download.DownloadsLastIso | sources/vyos-http.go:60-76 | the download helper gets the URL of the last ISO asset, an empty checksum URL and a SHA-256 hasher; `fpath` gets the helper's directory even when the helper fails |
| Download.DownloadImageSucceeds | sources/vyos-http.go:55-76 | `downloadImage` returns nil exactly when the lookup succeeds, a non-empty URL is selected and the download succeeds; an ISO asset then exists |
| Download.DownloadImageStopsAtFailure | sources/vyos-http.go:55-76 | the calls are the lookup and at most one download; only the last call can fail, and the result is nil exactly when the last call is a download that succeeded |
| Resources.HeldAfterAppend | sources/vyos-http.go:85-115 | the held stack after two pieces of a trace is the second piece run from the stack the first piece leaves |
| Resources.HeldCounts | sources/vyos-http.go:85-115 | the held multiset at the end is the start, plus the acquisitions, minus the releases, for every resource |
| Resources.BalancedReleasesExactlyOnce | sources/vyos-http.go:85-115 | in a balanced trace every resource is released exactly as often as it is acquired |
| Resources.HeldAfterNeutral | sources/vyos-http.go:23-31 | calls that neither acquire nor release leave the held stack unchanged |
| Extraction.Perform | sources/vyos-http.go:85-115 | running a deferred call is a release of the resource it was registered for and acquires nothing, whether or not the call fails |
| Extraction.Unwind | sources/vyos-http.go:85-115 | the deferred calls run exactly once each, the most recently registered first |
| Extraction.StepsFinished | sources/vyos-http.go:79-134 | the main steps make no release, every step before the last succeeds, the result is nil exactly when the last step succeeds, and the defer stack holds exactly the resources acquired, in order |
| Extraction.StepsOnPlan | sources/vyos-http.go:79-134 | the main steps are a prefix of the six calls of the file in order (two temp dirs, two mounts, root removal, rsync) that ends at the first failure or after rsync |
| ExtractionProperties.UnwindGivesBack | sources/vyos-http.go:85-115 | unwinding a defer stack on top of the resources it registered gives every one of them back, last in first out |
| ExtractionProperties.ExtractBalanced | sources/vyos-http.go:79-134 | on every exit path of `unpackISO` each temp dir and mount is released when it is the most recent one still held, and nothing is held at the end |
| ExtractionProperties.ExtractReleasesExactlyOnce | sources/vyos-http.go:79-134 | on every exit path each of the four resources is released exactly as many times as it is acquired, at most once |
| ExtractionProperties.ReleasesTargetMadeDirs | sources/vyos-http.go:80-115 | on every exit path each deferred `RemoveAll` and `Unmount` targets the directory `os.MkdirTemp` returned for the same role (ISO or squashfs) |
| ExtractionProperties.Seniority | sources/vyos-http.go:80-115 | gives each resource its place in the acquisition order |
| ExtractionProperties.ExtractReleaseOrder | sources/vyos-http.go:85-115 | releases come in strictly reverse acquisition order: squashfs unmount, ISO unmount, squashfs dir, ISO dir; no unmount follows a directory removal |
| ExtractionProperties.ExtractStopsAtFirstFailure | sources/vyos-http.go:79-134 | no main step runs after a failed one: only releases follow it |
| ExtractionProperties.SquashfsMountFollowsIsoMount | sources/vyos-http.go:95-111 | the squashfs mount comes right after a successful ISO mount, from `isoDir/live/filesystem.squashfs` |
| ExtractionProperties.IsoMountedFromFilePath | sources/vyos-http.go:95-98 | the ISO is mounted read-only as iso9660 from the given path onto the first temp dir, once both temp dirs exist |
| ExtractionProperties.PlanIndex | sources/vyos-http.go:79-134 | a call of `unpackISO` that is not a release is the call of the six-step plan at the same position, and every call before it succeeded |
| ExtractionProperties.RootRemovedOnlyWhenMounted | sources/vyos-http.go:117-122 | the root directory is removed fifth, after four successful acquisitions and before any release |
| ExtractionProperties.RsyncOnlyAfterRootRemoved | sources/vyos-http.go:119-131 | rsync runs only right after a successful removal of the root directory, copying `squashfsDir + "/"` into it |
| ExtractionProperties.ExtractSucceeds | sources/vyos-http.go:79-134 | `unpackISO` returns nil exactly when its six main calls succeed; its calls are then those six, the two unmounts and the two removals, in that order |
| ExtractionProperties.ExtractIgnoresCleanupErrors | sources/vyos-http.go:85-115 | the answers of the unmounts and directory removals change neither the returned error nor any call, only whether the releases succeeded |
| ExtractionProperties.SquashfsImageUnder | sources/vyos-http.go:104 | the squashfs image path is `live/filesystem.squashfs` directly below the cleaned ISO mount point |
| Launch.RunStopsOnDownloadFailure | sources/vyos-http.go:24-27 | a failed download is returned wrapped, and `unpackISO` is never called |
| Launch.RunSucceeds | sources/vyos-http.go:23-31 | `Run` returns nil exactly when the download and all six unpacking steps succeed |
| Launch.RunMountsDownloadDir | sources/vyos-http.go:19-30 | with `fname` empty, the ISO mounted is the cleaned download directory itself |
| Launch.RunBalanced | sources/vyos-http.go:23-31 | the whole of `Run` releases every resource once, most recent first, and holds nothing at the end |
| VyosSource.SelectIsoURL | sources/vyos-http.go:60-68 | the loop leaves `isoURL` at the selected URL, the one of the last ISO asset |
| VyosSource.RunDeferred | sources/vyos-http.go:85-115 | returning runs the whole defer stack, most recent first |
| VyosSource.Vyos.constructor | sources/vyos-http.go:16-21 | a new receiver has empty `fname` and `fpath` |
| VyosSource.Vyos.DownloadImage | sources/vyos-http.go:33-77 | result and calls are those of `downloadImage`; `fpath` becomes the helper's directory when the helper was called, and is unchanged otherwise |
| VyosSource.Vyos.UnpackIso | sources/vyos-http.go:79-134 | result and calls are those of `unpackISO` with its defer stack |
| VyosSource.Vyos.Run | sources/vyos-http.go:23-31 | result, calls and new `fpath` are those of `Run`, unpacking `filepath.Join(fpath, fname)` |

## Left out

- The GitHub REST client (`github.NewClient`, `GetLatestRelease`) is an answer of the `World`: a list of assets or an error. The `Response` it also returns is ignored by the source and is not modelled.
- `DownloadHash` and SHA-256 hashing are a call whose answer (directory and error) comes from the `World`. The model records only that it is called with the selected URL, an empty checksum URL and a SHA-256 hasher. `s.definition.Image`, its first argument, is not modelled.
- The real effects of `os.MkdirTemp`, the `mount` subprocesses, `unix.Unmount`, `os.RemoveAll` and `shared.RsyncLocal` are not modelled. Each is an event that succeeds or fails as the `World` says. The generated temporary names, the mount flags passed as `0` and the context argument are not modelled.
- The logging and `fmt.Println` calls have no behaviour and are left out.
- The commented-out variant switch in `downloadImage` is dead code and is left out.
- The error values keep their cause, and the path where the message has one, but not the message text.
- Strings are sequences of `char`, one per byte of the Go string. No encoding is modelled.
- `FilePath.Join`, `FilePath.Clean` and `FilePath.Ext` model the Unix behaviour of Go's `path/filepath` only. The Windows volume-name handling is left out.

Facts about `sources/vyos-http.go` that the model keeps as they are:

- `unpackISO` creates both temporary directories before it mounts the ISO.
- It removes `rootfsDir` itself with `os.RemoveAll`, not only its contents.
- A missing `live/filesystem.squashfs` is an ordinary squashfs mount failure, not a separate error.
- The file does no checksum-manifest or signature verification and sets no transport-security policy.
- `s.fname` is never assigned in this file, so `Run` unpacks `filepath.Join(s.fpath, "")`, which is the cleaned download directory and not the ISO file inside it. `Launch.RunMountsDownloadDir` states this.
