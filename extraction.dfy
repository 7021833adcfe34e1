/** `unpackISO` (sources/vyos-http.go:79-134) as a specification: the main
    steps run in order until one fails; each acquisition registers a deferred
    release, and on every return the deferred releases run last in, first
    out, their own errors discarded. */
module Extraction {
  import opened Wrappers
  import opened Host
  import opened Resources
  import FilePath

  const TempPattern := "temp_"
  const LiveDir := "live"
  const SquashfsFile := "filesystem.squashfs"
  const IsoFsType := "iso9660"
  const SquashfsFsType := "squashfs"
  const ReadOnly := "ro"

  /** The squashfs image inside the mounted ISO. */
  function SquashfsImage(isoDir: string): string
  {
    FilePath.Join([isoDir, LiveDir, SquashfsFile])
  }

  /** A call registered with `defer`. */
  datatype Deferred = RemoveAllLater(role: Role, dir: string) | UnmountLater(role: Role, dir: string)

  /** The resource a deferred call gives back. */
  function DeferredRes(d: Deferred): Res
  {
    match d
    case RemoveAllLater(role, _) => TempDirOf(role)
    case UnmountLater(role, _) => MountOf(role)
  }

  /** Running one deferred call; its error, if any, is dropped. */
  function Perform(w: World, d: Deferred): (e: Event)
    ensures IsRelease(e) && Acquired(e).None? && Released(e) == Some(DeferredRes(d))
  {
    match d
    case RemoveAllLater(role, dir) => RemoveDir(role, dir, w.removeTemp(role).None?)
    case UnmountLater(role, dir) => Unmount(role, dir, w.unmount(role).None?)
  }

  /** The deferred calls run on return: the most recently registered first. */
  function Unwind(w: World, stack: seq<Deferred>): (events: seq<Event>)
    ensures |events| == |stack|
    ensures forall i :: 0 <= i < |stack| ==> events[i] == Perform(w, stack[|stack| - 1 - i])
  {
    if stack == [] then []
    else [Perform(w, stack[|stack| - 1])] + Unwind(w, stack[..|stack| - 1])
  }

  /** The resources the deferred stack will give back, in registration order. */
  function ResOf(stack: seq<Deferred>): (held: seq<Res>)
    ensures |held| == |stack|
    ensures forall k :: 0 <= k < |stack| ==> held[k] == DeferredRes(stack[k])
  {
    if stack == [] then [] else ResOf(stack[..|stack| - 1]) + [DeferredRes(stack[|stack| - 1])]
  }

  /** The calls made so far and the deferred stack so far. */
  datatype Progress = Progress(events: seq<Event>, deferred: seq<Deferred>)

  /** Where the main steps stopped: the calls made, the deferred stack at
      that point and the error to return. */
  datatype Phase = Phase(events: seq<Event>, deferred: seq<Deferred>, err: Option<Error>)

  /** What `unpackISO` returns and the calls it made. */
  datatype Outcome = Outcome(err: Option<Error>, trace: seq<Event>)

  /** The arguments of one `unpackISO` call, with the receiver's cache
      directory. */
  datatype Call = Call(cacheDir: string, filePath: string, rootfsDir: string)

  /** A step succeeded and registered its release. */
  function Acquire(p: Progress, e: Event, d: Deferred): Progress
  {
    Progress(p.events + [e], p.deferred + [d])
  }

  /** A step failed: return its error. */
  function Stop(p: Progress, e: Event, err: Error): Phase
  {
    Phase(p.events + [e], p.deferred, Some(err))
  }

  /** The main steps of `unpackISO`, up to and including the first that
      fails, as a machine whose states are the functions below. */
  function Steps(w: World, c: Call): Phase
  {
    match w.tempDir(Iso)
    case Failure(cause) =>
      Stop(Progress([], []), MkTemp(Iso, c.cacheDir, TempPattern, false), TempDirFailed(cause))
    case Success(isoDir) =>
      MakeSquashfsDir(w, c, isoDir,
        Acquire(Progress([], []), MkTemp(Iso, c.cacheDir, TempPattern, true), RemoveAllLater(Iso, isoDir)))
  }

  /** The ISO mount point exists. */
  function MakeSquashfsDir(w: World, c: Call, isoDir: string, p: Progress): Phase
  {
    match w.tempDir(Squashfs)
    case Failure(cause) =>
      Stop(p, MkTemp(Squashfs, c.cacheDir, TempPattern, false), TempDirFailed(cause))
    case Success(squashfsDir) =>
      MountIsoImage(w, c, isoDir, squashfsDir,
        Acquire(p, MkTemp(Squashfs, c.cacheDir, TempPattern, true), RemoveAllLater(Squashfs, squashfsDir)))
  }

  /** Both mount points exist. */
  function MountIsoImage(w: World, c: Call, isoDir: string, squashfsDir: string, p: Progress): Phase
  {
    var ok := w.mount(Iso).None?;
    var e := Mount(IsoFsType, ReadOnly, c.filePath, Iso, isoDir, ok);
    if !ok then Stop(p, e, MountFailed(c.filePath, w.mount(Iso).value))
    else MountSquashfsImage(w, c, isoDir, squashfsDir, Acquire(p, e, UnmountLater(Iso, isoDir)))
  }

  /** The ISO image is mounted. */
  function MountSquashfsImage(w: World, c: Call, isoDir: string, squashfsDir: string, p: Progress): Phase
  {
    var image := SquashfsImage(isoDir);
    var ok := w.mount(Squashfs).None?;
    var e := Mount(SquashfsFsType, ReadOnly, image, Squashfs, squashfsDir, ok);
    if !ok then Stop(p, e, MountFailed(image, w.mount(Squashfs).value))
    else ReplaceRoot(w, c, squashfsDir, Acquire(p, e, UnmountLater(Squashfs, squashfsDir)))
  }

  /** Both images are mounted: remove the root directory, then copy the
      squashfs tree into its place. */
  function ReplaceRoot(w: World, c: Call, squashfsDir: string, p: Progress): Phase
  {
    var clear := RemoveRoot(c.rootfsDir, w.removeRoot.None?);
    if w.removeRoot.Some? then Stop(p, clear, RemoveRootFailed(c.rootfsDir, w.removeRoot.value))
    else
      var sync := Rsync(squashfsDir + "/", c.rootfsDir, w.rsync.None?);
      if w.rsync.Some? then Stop(Progress(p.events + [clear], p.deferred), sync, RsyncFailed(w.rsync.value))
      else Phase(p.events + [clear] + [sync], p.deferred, None)
  }

  /** `unpackISO(filePath, rootfsDir)`: the main steps, then the deferred
      calls. */
  function UnpackIso(w: World, c: Call): Outcome
  {
    var phase := Steps(w, c);
    Outcome(phase.err, phase.events + Unwind(w, phase.deferred))
  }

  /** The four resources in the order `unpackISO` acquires them. */
  const AcquisitionOrder: seq<Res> := [TempDirOf(Iso), TempDirOf(Squashfs), MountOf(Iso), MountOf(Squashfs)]

  /** Progress so far: every step succeeded without releasing anything, and
      the deferred stack holds exactly what was acquired, in acquisition
      order; `k` resources are held. */
  ghost predicate Tracked(p: Progress, k: nat)
  {
    && |p.deferred| == k <= |AcquisitionOrder|
    && (forall i :: 0 <= i < |p.events| ==> !IsRelease(p.events[i]) && p.events[i].ok)
    && ResOf(p.deferred) == AcquisitionOrder[..k]
    && HeldAfter([], p.events) == Some(ResOf(p.deferred))
  }

  /** The main steps make no release, every step but the last succeeded,
      the error is set exactly when the last step failed, and the deferred
      stack holds exactly what the steps acquired, in acquisition order. */
  ghost predicate Finished(phase: Phase)
  {
    && phase.events != []
    && (forall i :: 0 <= i < |phase.events| ==> !IsRelease(phase.events[i]))
    && (forall i :: 0 <= i < |phase.events| - 1 ==> phase.events[i].ok)
    && (phase.err.None? <==> phase.events[|phase.events| - 1].ok)
    && |phase.deferred| <= |AcquisitionOrder|
    && ResOf(phase.deferred) == AcquisitionOrder[..|phase.deferred|]
    && HeldAfter([], phase.events) == Some(ResOf(phase.deferred))
  }

  lemma AcquireTracked(p: Progress, k: nat, e: Event, d: Deferred)
    requires Tracked(p, k) && k < |AcquisitionOrder|
    requires e.ok && !IsRelease(e)
    requires Acquired(e) == Some(DeferredRes(d)) && DeferredRes(d) == AcquisitionOrder[k]
    ensures Tracked(Acquire(p, e, d), k + 1)
  {
    HeldAfterSnoc([], p.events, e);
    assert (p.deferred + [d])[..k] == p.deferred;
    assert AcquisitionOrder[..k + 1] == AcquisitionOrder[..k] + [AcquisitionOrder[k]];
  }

  lemma StopFinished(p: Progress, k: nat, e: Event, err: Error)
    requires Tracked(p, k)
    requires !e.ok && !IsRelease(e) && Acquired(e).None?
    ensures Finished(Stop(p, e, err))
  {
    HeldAfterSnoc([], p.events, e);
  }

  lemma ReplaceRootFinished(w: World, c: Call, squashfsDir: string, p: Progress)
    requires Tracked(p, 4)
    ensures Finished(ReplaceRoot(w, c, squashfsDir, p))
  {
    var clear := RemoveRoot(c.rootfsDir, w.removeRoot.None?);
    HeldAfterSnoc([], p.events, clear);
    if w.removeRoot.None? {
      var sync := Rsync(squashfsDir + "/", c.rootfsDir, w.rsync.None?);
      HeldAfterSnoc([], p.events + [clear], sync);
    }
  }

  lemma MountSquashfsImageFinished(w: World, c: Call, isoDir: string, squashfsDir: string, p: Progress)
    requires Tracked(p, 3)
    ensures Finished(MountSquashfsImage(w, c, isoDir, squashfsDir, p))
  {
    var ok := w.mount(Squashfs).None?;
    var e := Mount(SquashfsFsType, ReadOnly, SquashfsImage(isoDir), Squashfs, squashfsDir, ok);
    if !ok {
      StopFinished(p, 3, e, MountFailed(SquashfsImage(isoDir), w.mount(Squashfs).value));
    } else {
      AcquireTracked(p, 3, e, UnmountLater(Squashfs, squashfsDir));
      ReplaceRootFinished(w, c, squashfsDir, Acquire(p, e, UnmountLater(Squashfs, squashfsDir)));
    }
  }

  lemma MountIsoImageFinished(w: World, c: Call, isoDir: string, squashfsDir: string, p: Progress)
    requires Tracked(p, 2)
    ensures Finished(MountIsoImage(w, c, isoDir, squashfsDir, p))
  {
    var ok := w.mount(Iso).None?;
    var e := Mount(IsoFsType, ReadOnly, c.filePath, Iso, isoDir, ok);
    if !ok {
      StopFinished(p, 2, e, MountFailed(c.filePath, w.mount(Iso).value));
    } else {
      AcquireTracked(p, 2, e, UnmountLater(Iso, isoDir));
      MountSquashfsImageFinished(w, c, isoDir, squashfsDir, Acquire(p, e, UnmountLater(Iso, isoDir)));
    }
  }

  lemma MakeSquashfsDirFinished(w: World, c: Call, isoDir: string, p: Progress)
    requires Tracked(p, 1)
    ensures Finished(MakeSquashfsDir(w, c, isoDir, p))
  {
    match w.tempDir(Squashfs)
    case Failure(cause) =>
      StopFinished(p, 1, MkTemp(Squashfs, c.cacheDir, TempPattern, false), TempDirFailed(cause));
    case Success(squashfsDir) =>
      var e := MkTemp(Squashfs, c.cacheDir, TempPattern, true);
      AcquireTracked(p, 1, e, RemoveAllLater(Squashfs, squashfsDir));
      MountIsoImageFinished(w, c, isoDir, squashfsDir, Acquire(p, e, RemoveAllLater(Squashfs, squashfsDir)));
  }

  lemma StepsFinished(w: World, c: Call)
    ensures Finished(Steps(w, c))
  {
    var start := Progress([], []);
    assert Tracked(start, 0);
    match w.tempDir(Iso)
    case Failure(cause) =>
      StopFinished(start, 0, MkTemp(Iso, c.cacheDir, TempPattern, false), TempDirFailed(cause));
    case Success(isoDir) =>
      var e := MkTemp(Iso, c.cacheDir, TempPattern, true);
      AcquireTracked(start, 0, e, RemoveAllLater(Iso, isoDir));
      MakeSquashfsDirFinished(w, c, isoDir, Acquire(start, e, RemoveAllLater(Iso, isoDir)));
  }

  /** The path a creation answered, or "" when it failed; no later step
      runs in that case. */
  function DirOr(r: Result<string, string>): string
  {
    if r.Success? then r.value else ""
  }

  /** The six main calls of `unpackISO` in program order, each with the
      outcome the world gives it. */
  function Plan(w: World, c: Call): seq<Event>
  {
    var isoDir := DirOr(w.tempDir(Iso));
    var squashfsDir := DirOr(w.tempDir(Squashfs));
    [ MkTemp(Iso, c.cacheDir, TempPattern, w.tempDir(Iso).Success?),
      MkTemp(Squashfs, c.cacheDir, TempPattern, w.tempDir(Squashfs).Success?),
      Mount(IsoFsType, ReadOnly, c.filePath, Iso, isoDir, w.mount(Iso).None?),
      Mount(SquashfsFsType, ReadOnly, SquashfsImage(isoDir), Squashfs, squashfsDir, w.mount(Squashfs).None?),
      RemoveRoot(c.rootfsDir, w.removeRoot.None?),
      Rsync(squashfsDir + "/", c.rootfsDir, w.rsync.None?) ]
  }

  /** The calls made so far are the first calls of the plan. */
  ghost predicate OnPlan(w: World, c: Call, events: seq<Event>)
  {
    |events| <= |Plan(w, c)| && events == Plan(w, c)[..|events|]
  }

  /** The main steps are a prefix of the plan that ends at its first failure
      or runs to its end. */
  ghost predicate EndsOnPlan(w: World, c: Call, events: seq<Event>)
  {
    && OnPlan(w, c, events)
    && events != []
    && (|events| == |Plan(w, c)| || !events[|events| - 1].ok)
  }

  lemma PlanStep(w: World, c: Call, events: seq<Event>)
    requires OnPlan(w, c, events) && |events| < |Plan(w, c)|
    ensures OnPlan(w, c, events + [Plan(w, c)[|events|]])
  {
    assert Plan(w, c)[..|events| + 1] == Plan(w, c)[..|events|] + [Plan(w, c)[|events|]];
  }

  lemma ReplaceRootOnPlan(w: World, c: Call, squashfsDir: string, p: Progress)
    requires w.tempDir(Squashfs) == Success(squashfsDir)
    requires OnPlan(w, c, p.events) && |p.events| == 4
    ensures EndsOnPlan(w, c, ReplaceRoot(w, c, squashfsDir, p).events)
  {
    PlanStep(w, c, p.events);
    if w.removeRoot.None? {
      PlanStep(w, c, p.events + [Plan(w, c)[4]]);
    }
  }

  lemma MountSquashfsImageOnPlan(w: World, c: Call, isoDir: string, squashfsDir: string, p: Progress)
    requires w.tempDir(Iso) == Success(isoDir) && w.tempDir(Squashfs) == Success(squashfsDir)
    requires OnPlan(w, c, p.events) && |p.events| == 3
    ensures EndsOnPlan(w, c, MountSquashfsImage(w, c, isoDir, squashfsDir, p).events)
  {
    PlanStep(w, c, p.events);
    if w.mount(Squashfs).None? {
      var e := Plan(w, c)[3];
      ReplaceRootOnPlan(w, c, squashfsDir, Acquire(p, e, UnmountLater(Squashfs, squashfsDir)));
    }
  }

  lemma MountIsoImageOnPlan(w: World, c: Call, isoDir: string, squashfsDir: string, p: Progress)
    requires w.tempDir(Iso) == Success(isoDir) && w.tempDir(Squashfs) == Success(squashfsDir)
    requires OnPlan(w, c, p.events) && |p.events| == 2
    ensures EndsOnPlan(w, c, MountIsoImage(w, c, isoDir, squashfsDir, p).events)
  {
    PlanStep(w, c, p.events);
    if w.mount(Iso).None? {
      var e := Plan(w, c)[2];
      MountSquashfsImageOnPlan(w, c, isoDir, squashfsDir, Acquire(p, e, UnmountLater(Iso, isoDir)));
    }
  }

  lemma MakeSquashfsDirOnPlan(w: World, c: Call, isoDir: string, p: Progress)
    requires w.tempDir(Iso) == Success(isoDir)
    requires OnPlan(w, c, p.events) && |p.events| == 1
    ensures EndsOnPlan(w, c, MakeSquashfsDir(w, c, isoDir, p).events)
  {
    PlanStep(w, c, p.events);
    match w.tempDir(Squashfs)
    case Failure(_) =>
    case Success(squashfsDir) =>
      var e := Plan(w, c)[1];
      MountIsoImageOnPlan(w, c, isoDir, squashfsDir, Acquire(p, e, RemoveAllLater(Squashfs, squashfsDir)));
  }

  /** The main calls of `unpackISO` are made in program order, each only if
      every earlier one succeeded, and they stop at the first failure. */
  lemma StepsOnPlan(w: World, c: Call)
    ensures EndsOnPlan(w, c, Steps(w, c).events)
  {
    var start := Progress([], []);
    PlanStep(w, c, []);
    match w.tempDir(Iso)
    case Failure(_) =>
    case Success(isoDir) =>
      var e := Plan(w, c)[0];
      MakeSquashfsDirOnPlan(w, c, isoDir, Acquire(start, e, RemoveAllLater(Iso, isoDir)));
  }
}
