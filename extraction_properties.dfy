/** What `unpackISO` (sources/vyos-http.go:79-134) guarantees on every exit
    path, proved of its specification `Extraction.UnpackIso`. */
module ExtractionProperties {
  import opened Wrappers
  import opened Host
  import opened Resources
  import opened Extraction
  import FilePath

  /** Running the deferred calls gives back exactly what they registered. */
  lemma {:induction false} UnwindGivesBack(w: World, held: seq<Res>, d: seq<Deferred>)
    ensures HeldAfter(held + ResOf(d), Unwind(w, d)) == Some(held)
    decreases |d|
  {
    if d == [] {
      assert held + ResOf(d) == held;
    } else {
      var d' := d[..|d| - 1];
      var x := d[|d| - 1];
      var e := Perform(w, x);
      assert Unwind(w, d) == [e] + Unwind(w, d');
      HeldAfterAppend(held + ResOf(d), [e], Unwind(w, d'));
      HeldAfterSnoc(held + ResOf(d), [], e);
      assert [] + [e] == [e];
      assert held + ResOf(d) == (held + ResOf(d')) + [DeferredRes(x)];
      UnwindGivesBack(w, held, d');
    }
  }

  /** On every exit path, every release gives back the most recently
      acquired resource still held, and nothing is held on return. */
  lemma ExtractBalanced(w: World, c: Call)
    ensures Balanced(UnpackIso(w, c).trace)
  {
    var phase := Steps(w, c);
    StepsFinished(w, c);
    HeldAfterAppend([], phase.events, Unwind(w, phase.deferred));
    UnwindGivesBack(w, [], phase.deferred);
    assert [] + ResOf(phase.deferred) == ResOf(phase.deferred);
  }

  lemma AcquisitionOrderDistinct(k: nat, r: Res)
    requires k <= |AcquisitionOrder|
    ensures multiset(AcquisitionOrder[..k])[r] <= 1
  {
    var order := AcquisitionOrder;
    if k == 0 {
    } else if k == 1 {
      assert order[..1] == [order[0]];
    } else if k == 2 {
      assert order[..2] == [order[0], order[1]];
    } else if k == 3 {
      assert order[..3] == [order[0], order[1], order[2]];
    } else {
      assert order[..4] == order;
    }
  }

  /** Exactly-once release: on every exit path each temporary directory and
      each mount is released as many times as it was acquired, and that is
      at most once. */
  lemma ExtractReleasesExactlyOnce(w: World, c: Call)
    ensures var trace := UnpackIso(w, c).trace;
      forall r :: CountReleased(trace, r) == CountAcquired(trace, r) <= 1
  {
    var phase := Steps(w, c);
    var trace := UnpackIso(w, c).trace;
    var unwound := Unwind(w, phase.deferred);
    ExtractBalanced(w, c);
    BalancedReleasesExactlyOnce(trace);
    StepsFinished(w, c);
    forall r ensures CountAcquired(trace, r) <= 1 {
      CountAcquiredAppend(phase.events, unwound, r);
      CountAcquiredNone(unwound, r);
      HeldCounts([], phase.events, r);
      CountReleasedNone(phase.events, r);
      AcquisitionOrderDistinct(|phase.deferred|, r);
    }
  }

  /** Every deferred call targets the directory `os.MkdirTemp` returned for
      its role: the ISO mount point for the ISO, the squashfs mount point
      for the squashfs image. */
  ghost predicate TargetsMadeDirs(w: World, stack: seq<Deferred>)
  {
    forall k :: 0 <= k < |stack| ==> w.tempDir(stack[k].role) == Success(stack[k].dir)
  }

  lemma AcquireTargetsMadeDir(w: World, p: Progress, e: Event, d: Deferred)
    requires TargetsMadeDirs(w, p.deferred) && w.tempDir(d.role) == Success(d.dir)
    ensures TargetsMadeDirs(w, Acquire(p, e, d).deferred)
  {
  }

  lemma ReplaceRootTargetsMadeDirs(w: World, c: Call, squashfsDir: string, p: Progress)
    requires TargetsMadeDirs(w, p.deferred)
    ensures TargetsMadeDirs(w, ReplaceRoot(w, c, squashfsDir, p).deferred)
  {
  }

  lemma MountSquashfsImageTargetsMadeDirs(w: World, c: Call, isoDir: string, squashfsDir: string, p: Progress)
    requires TargetsMadeDirs(w, p.deferred) && w.tempDir(Squashfs) == Success(squashfsDir)
    ensures TargetsMadeDirs(w, MountSquashfsImage(w, c, isoDir, squashfsDir, p).deferred)
  {
    if w.mount(Squashfs).None? {
      var e := Mount(SquashfsFsType, ReadOnly, SquashfsImage(isoDir), Squashfs, squashfsDir, true);
      AcquireTargetsMadeDir(w, p, e, UnmountLater(Squashfs, squashfsDir));
      ReplaceRootTargetsMadeDirs(w, c, squashfsDir, Acquire(p, e, UnmountLater(Squashfs, squashfsDir)));
    }
  }

  lemma MountIsoImageTargetsMadeDirs(w: World, c: Call, isoDir: string, squashfsDir: string, p: Progress)
    requires TargetsMadeDirs(w, p.deferred)
    requires w.tempDir(Iso) == Success(isoDir) && w.tempDir(Squashfs) == Success(squashfsDir)
    ensures TargetsMadeDirs(w, MountIsoImage(w, c, isoDir, squashfsDir, p).deferred)
  {
    if w.mount(Iso).None? {
      var e := Mount(IsoFsType, ReadOnly, c.filePath, Iso, isoDir, true);
      AcquireTargetsMadeDir(w, p, e, UnmountLater(Iso, isoDir));
      MountSquashfsImageTargetsMadeDirs(w, c, isoDir, squashfsDir, Acquire(p, e, UnmountLater(Iso, isoDir)));
    }
  }

  lemma MakeSquashfsDirTargetsMadeDirs(w: World, c: Call, isoDir: string, p: Progress)
    requires TargetsMadeDirs(w, p.deferred) && w.tempDir(Iso) == Success(isoDir)
    ensures TargetsMadeDirs(w, MakeSquashfsDir(w, c, isoDir, p).deferred)
  {
    match w.tempDir(Squashfs)
    case Failure(_) =>
    case Success(squashfsDir) =>
      var e := MkTemp(Squashfs, c.cacheDir, TempPattern, true);
      AcquireTargetsMadeDir(w, p, e, RemoveAllLater(Squashfs, squashfsDir));
      MountIsoImageTargetsMadeDirs(w, c, isoDir, squashfsDir, Acquire(p, e, RemoveAllLater(Squashfs, squashfsDir)));
  }

  lemma StepsTargetMadeDirs(w: World, c: Call)
    ensures TargetsMadeDirs(w, Steps(w, c).deferred)
  {
    var start := Progress([], []);
    match w.tempDir(Iso)
    case Failure(_) =>
    case Success(isoDir) =>
      var e := MkTemp(Iso, c.cacheDir, TempPattern, true);
      AcquireTargetsMadeDir(w, start, e, RemoveAllLater(Iso, isoDir));
      MakeSquashfsDirTargetsMadeDirs(w, c, isoDir, Acquire(start, e, RemoveAllLater(Iso, isoDir)));
  }

  /** On every exit path each removal and each unmount targets the
      directory `os.MkdirTemp` made for the same role, so a directory is
      never unmounted or removed in the place of the other. */
  lemma ReleasesTargetMadeDirs(w: World, c: Call)
    ensures var t := UnpackIso(w, c).trace;
      forall i :: 0 <= i < |t| ==>
        && (t[i].RemoveDir? ==> w.tempDir(t[i].role) == Success(t[i].path))
        && (t[i].Unmount? ==> w.tempDir(t[i].role) == Success(t[i].target))
  {
    var phase := Steps(w, c);
    var unwound := Unwind(w, phase.deferred);
    var t := phase.events + unwound;
    assert UnpackIso(w, c).trace == t;
    StepsFinished(w, c);
    StepsTargetMadeDirs(w, c);
    forall i | 0 <= i < |t| && IsRelease(t[i])
      ensures t[i].RemoveDir? ==> w.tempDir(t[i].role) == Success(t[i].path)
      ensures t[i].Unmount? ==> w.tempDir(t[i].role) == Success(t[i].target)
    {
      assert i >= |phase.events|;
      var d := phase.deferred[|phase.deferred| - 1 - (i - |phase.events|)];
      assert t[i] == unwound[i - |phase.events|] == Perform(w, d);
    }
  }

  /** Position of a resource in the acquisition order. */
  function Seniority(r: Res): (n: nat)
    ensures n < |AcquisitionOrder| && AcquisitionOrder[n] == r
  {
    match r
    case TempDirOf(Iso) => 0
    case TempDirOf(Squashfs) => 1
    case MountOf(Iso) => 2
    case MountOf(Squashfs) => 3
  }

  /** Releases run last in, first out: unmount the squashfs image, unmount
      the ISO, remove the squashfs mount point, remove the ISO mount point;
      so both unmounts come before either directory removal. */
  lemma ExtractReleaseOrder(w: World, c: Call)
    ensures var trace := UnpackIso(w, c).trace;
      forall i, j :: 0 <= i < j < |trace| && IsRelease(trace[i]) && IsRelease(trace[j]) ==>
        Seniority(Released(trace[i]).value) > Seniority(Released(trace[j]).value)
    ensures var trace := UnpackIso(w, c).trace;
      forall i, j :: 0 <= i < j < |trace| && trace[i].RemoveDir? ==> !trace[j].Unmount?
  {
    StepsFinished(w, c);
    ReleaseOrderIn(w, Steps(w, c), UnpackIso(w, c).trace);
  }

  lemma ReleaseOrderIn(w: World, phase: Phase, trace: seq<Event>)
    requires Finished(phase)
    requires trace == phase.events + Unwind(w, phase.deferred)
    ensures forall i, j :: 0 <= i < j < |trace| && IsRelease(trace[i]) && IsRelease(trace[j]) ==>
      Seniority(Released(trace[i]).value) > Seniority(Released(trace[j]).value)
    ensures forall i, j :: 0 <= i < j < |trace| && trace[i].RemoveDir? ==> !trace[j].Unmount?
  {
    var n, d := |phase.events|, phase.deferred;
    assert forall m :: 0 <= m < |d| ==> Seniority(DeferredRes(d[m])) == m by {
      forall m | 0 <= m < |d| ensures Seniority(DeferredRes(d[m])) == m {
        assert ResOf(d)[m] == AcquisitionOrder[m];
      }
    }
    forall i | n <= i < |trace|
      ensures IsRelease(trace[i]) && Seniority(Released(trace[i]).value) == |d| - 1 - (i - n)
    {
      assert trace[i] == Unwind(w, d)[i - n];
    }
  }

  /** No step runs after a failed step: once a main call fails only
      releases follow; and an error is returned exactly when a main call
      failed. */
  lemma ExtractStopsAtFirstFailure(w: World, c: Call)
    ensures var out := UnpackIso(w, c);
      forall i, j :: 0 <= i < j < |out.trace| && !IsRelease(out.trace[i]) && !out.trace[i].ok ==>
        IsRelease(out.trace[j])
    ensures var out := UnpackIso(w, c);
      out.err.Some? <==> exists i :: 0 <= i < |out.trace| && !IsRelease(out.trace[i]) && !out.trace[i].ok
  {
    StepsFinished(w, c);
    StopsAtFirstFailureIn(w, Steps(w, c), UnpackIso(w, c));
  }

  lemma StopsAtFirstFailureIn(w: World, phase: Phase, out: Outcome)
    requires Finished(phase)
    requires out == Outcome(phase.err, phase.events + Unwind(w, phase.deferred))
    ensures forall i, j :: 0 <= i < j < |out.trace| && !IsRelease(out.trace[i]) && !out.trace[i].ok ==>
      IsRelease(out.trace[j])
    ensures out.err.Some? <==> exists i :: 0 <= i < |out.trace| && !IsRelease(out.trace[i]) && !out.trace[i].ok
  {
    var n := |phase.events|;
    assert forall i :: 0 <= i < n ==> out.trace[i] == phase.events[i];
    assert forall i :: n <= i < |out.trace| ==> out.trace[i] == Unwind(w, phase.deferred)[i - n];
    if out.err.Some? {
      assert !IsRelease(out.trace[n - 1]) && !out.trace[n - 1].ok;
    }
  }

  /** The trace of one `unpackISO` run as the two lemma families of
      `Extraction` describe it: the main steps end on the plan at their
      first failure, and the unwound defer stack follows them. */
  ghost predicate Shaped(w: World, c: Call, phase: Phase, trace: seq<Event>)
  {
    && Finished(phase)
    && EndsOnPlan(w, c, phase.events)
    && trace == phase.events + Unwind(w, phase.deferred)
  }

  lemma ExtractShaped(w: World, c: Call)
    ensures Shaped(w, c, Steps(w, c), UnpackIso(w, c).trace)
  {
    StepsFinished(w, c);
    StepsOnPlan(w, c);
  }

  /** A call of the trace that is not a release is the call of the plan at
      the same position, and every call before it succeeded. */
  lemma PlanIndex(w: World, c: Call, phase: Phase, trace: seq<Event>, i: nat)
    requires Shaped(w, c, phase, trace)
    requires i < |trace| && !IsRelease(trace[i])
    ensures i < |phase.events| && i < |Plan(w, c)| && trace[i] == Plan(w, c)[i]
    ensures forall k :: 0 <= k < i ==> trace[k].ok && trace[k] == Plan(w, c)[k]
  {
    var n := |phase.events|;
    var tail := Unwind(w, phase.deferred);
    assert forall j :: 0 <= j < |tail| ==> IsRelease(tail[j]);
    assert forall j :: n <= j < |trace| ==> trace[j] == tail[j - n];
    assert forall k :: 0 <= k < n ==> trace[k] == phase.events[k];
  }

  /** The squashfs image is mounted only right after the ISO was mounted
      successfully, and always from the fixed path inside the ISO mount
      point. */
  lemma SquashfsMountFollowsIsoMount(w: World, c: Call)
    ensures var trace := UnpackIso(w, c).trace;
      forall i :: 0 <= i < |trace| && trace[i].Mount? && trace[i].role == Squashfs ==>
        && 0 < i
        && w.tempDir(Iso).Success?
        && trace[i - 1] == Mount(IsoFsType, ReadOnly, c.filePath, Iso, w.tempDir(Iso).value, true)
        && trace[i].source == SquashfsImage(w.tempDir(Iso).value)
  {
    ExtractShaped(w, c);
    SquashfsMountFollowsIsoMountIn(w, c, Steps(w, c), UnpackIso(w, c).trace);
  }

  lemma SquashfsMountFollowsIsoMountIn(w: World, c: Call, phase: Phase, trace: seq<Event>)
    requires Shaped(w, c, phase, trace)
    ensures forall i :: 0 <= i < |trace| && trace[i].Mount? && trace[i].role == Squashfs ==>
      && 0 < i
      && w.tempDir(Iso).Success?
      && trace[i - 1] == Mount(IsoFsType, ReadOnly, c.filePath, Iso, w.tempDir(Iso).value, true)
      && trace[i].source == SquashfsImage(w.tempDir(Iso).value)
  {
    var plan := Plan(w, c);
    forall i | 0 <= i < |trace| && trace[i].Mount? && trace[i].role == Squashfs
      ensures 0 < i && w.tempDir(Iso).Success?
      ensures trace[i - 1] == Mount(IsoFsType, ReadOnly, c.filePath, Iso, w.tempDir(Iso).value, true)
      ensures trace[i].source == SquashfsImage(w.tempDir(Iso).value)
    {
      PlanIndex(w, c, phase, trace, i);
      assert i == 3;
      assert trace[0] == plan[0] && trace[0].ok;
      assert trace[2] == plan[2] && trace[2].ok;
    }
  }

  /** The ISO image is mounted read-only, as iso9660, from the path
      `unpackISO` was given onto the first temporary directory, and only
      once both temporary directories exist. */
  lemma IsoMountedFromFilePath(w: World, c: Call)
    ensures var trace := UnpackIso(w, c).trace;
      forall i :: 0 <= i < |trace| && trace[i].Mount? && trace[i].role == Iso ==>
        && i == 2
        && w.tempDir(Iso).Success? && w.tempDir(Squashfs).Success?
        && trace[i].fsType == IsoFsType && trace[i].options == ReadOnly
        && trace[i].source == c.filePath && trace[i].target == w.tempDir(Iso).value
  {
    ExtractShaped(w, c);
    IsoMountedFromFilePathIn(w, c, Steps(w, c), UnpackIso(w, c).trace);
  }

  lemma IsoMountedFromFilePathIn(w: World, c: Call, phase: Phase, trace: seq<Event>)
    requires Shaped(w, c, phase, trace)
    ensures forall i :: 0 <= i < |trace| && trace[i].Mount? && trace[i].role == Iso ==>
      && i == 2
      && w.tempDir(Iso).Success? && w.tempDir(Squashfs).Success?
      && trace[i].fsType == IsoFsType && trace[i].options == ReadOnly
      && trace[i].source == c.filePath && trace[i].target == w.tempDir(Iso).value
  {
    var plan := Plan(w, c);
    forall i | 0 <= i < |trace| && trace[i].Mount? && trace[i].role == Iso
      ensures i == 2 && w.tempDir(Iso).Success? && w.tempDir(Squashfs).Success?
      ensures trace[i].fsType == IsoFsType && trace[i].options == ReadOnly
      ensures trace[i].source == c.filePath && trace[i].target == w.tempDir(Iso).value
    {
      PlanIndex(w, c, phase, trace, i);
      assert i == 2;
      assert trace[0] == plan[0] && trace[0].ok;
      assert trace[1] == plan[1] && trace[1].ok;
    }
  }

  /** The root directory is removed only once both images are mounted and
      nothing has been released. */
  lemma RootRemovedOnlyWhenMounted(w: World, c: Call)
    ensures var trace := UnpackIso(w, c).trace;
      forall i :: 0 <= i < |trace| && trace[i].RemoveRoot? ==>
        && trace[i].path == c.rootfsDir
        && i == 4
        && forall k :: 0 <= k < i ==> !IsRelease(trace[k]) && trace[k].ok
  {
    ExtractShaped(w, c);
    RootRemovedOnlyWhenMountedIn(w, c, Steps(w, c), UnpackIso(w, c).trace);
  }

  lemma RootRemovedOnlyWhenMountedIn(w: World, c: Call, phase: Phase, trace: seq<Event>)
    requires Shaped(w, c, phase, trace)
    ensures forall i :: 0 <= i < |trace| && trace[i].RemoveRoot? ==>
      && trace[i].path == c.rootfsDir
      && i == 4
      && forall k :: 0 <= k < i ==> !IsRelease(trace[k]) && trace[k].ok
  {
    var plan := Plan(w, c);
    forall i | 0 <= i < |trace| && trace[i].RemoveRoot?
      ensures trace[i].path == c.rootfsDir && i == 4
      ensures forall k :: 0 <= k < i ==> !IsRelease(trace[k]) && trace[k].ok
    {
      PlanIndex(w, c, phase, trace, i);
      assert i == 4;
      assert forall k :: 0 <= k < i ==> !IsRelease(plan[k]);
    }
  }

  /** rsync runs only right after the removal of the root directory
      succeeded, and copies the squashfs mount point into the root
      directory. */
  lemma RsyncOnlyAfterRootRemoved(w: World, c: Call)
    ensures var trace := UnpackIso(w, c).trace;
      forall i :: 0 <= i < |trace| && trace[i].Rsync? ==>
        && 0 < i
        && trace[i - 1] == RemoveRoot(c.rootfsDir, true)
        && w.tempDir(Squashfs).Success?
        && trace[i].source == w.tempDir(Squashfs).value + "/"
        && trace[i].dest == c.rootfsDir
  {
    ExtractShaped(w, c);
    RsyncOnlyAfterRootRemovedIn(w, c, Steps(w, c), UnpackIso(w, c).trace);
  }

  lemma RsyncOnlyAfterRootRemovedIn(w: World, c: Call, phase: Phase, trace: seq<Event>)
    requires Shaped(w, c, phase, trace)
    ensures forall i :: 0 <= i < |trace| && trace[i].Rsync? ==>
      && 0 < i
      && trace[i - 1] == RemoveRoot(c.rootfsDir, true)
      && w.tempDir(Squashfs).Success?
      && trace[i].source == w.tempDir(Squashfs).value + "/"
      && trace[i].dest == c.rootfsDir
  {
    var plan := Plan(w, c);
    forall i | 0 <= i < |trace| && trace[i].Rsync?
      ensures 0 < i && trace[i - 1] == RemoveRoot(c.rootfsDir, true)
      ensures w.tempDir(Squashfs).Success?
      ensures trace[i].source == w.tempDir(Squashfs).value + "/" && trace[i].dest == c.rootfsDir
    {
      PlanIndex(w, c, phase, trace, i);
      assert i == 5;
      assert trace[1] == plan[1] && trace[1].ok;
      assert trace[4] == plan[4] && trace[4].ok;
    }
  }

  /** `unpackISO` returns nil exactly when all six main calls succeed, and
      then its calls are: the six main calls, then unmount the squashfs
      image, unmount the ISO, remove the squashfs mount point and remove
      the ISO mount point. */
  lemma ExtractSucceeds(w: World, c: Call)
    ensures UnpackIso(w, c).err.None? <==>
      && w.tempDir(Iso).Success? && w.tempDir(Squashfs).Success?
      && w.mount(Iso).None? && w.mount(Squashfs).None?
      && w.removeRoot.None? && w.rsync.None?
    ensures UnpackIso(w, c).err.None? ==>
      var isoDir, squashfsDir := w.tempDir(Iso).value, w.tempDir(Squashfs).value;
      UnpackIso(w, c).trace == Plan(w, c) + [
        Unmount(Squashfs, squashfsDir, w.unmount(Squashfs).None?),
        Unmount(Iso, isoDir, w.unmount(Iso).None?),
        RemoveDir(Squashfs, squashfsDir, w.removeTemp(Squashfs).None?),
        RemoveDir(Iso, isoDir, w.removeTemp(Iso).None?)]
  {
    var phase := Steps(w, c);
    var n := |phase.events|;
    var plan := Plan(w, c);
    StepsFinished(w, c);
    StepsOnPlan(w, c);
    if phase.err.None? {
      assert n == |plan|;
      assert phase.events == plan;
      assert forall k :: 0 <= k < n ==> plan[k].ok;
      var isoDir, squashfsDir := w.tempDir(Iso).value, w.tempDir(Squashfs).value;
      var deferred := [RemoveAllLater(Iso, isoDir), RemoveAllLater(Squashfs, squashfsDir),
                       UnmountLater(Iso, isoDir), UnmountLater(Squashfs, squashfsDir)];
      assert phase.deferred == deferred;
    }
  }

  /** Cleanup errors are discarded: whatever the unmounts and directory
      removals answer, `unpackISO` returns the same error, and its calls
      differ at most in whether those releases succeeded. */
  lemma ExtractIgnoresCleanupErrors(w: World, c: Call,
                                    unmount: Role -> Option<string>, removeTemp: Role -> Option<string>)
    ensures var w' := w.(unmount := unmount, removeTemp := removeTemp);
      && UnpackIso(w', c).err == UnpackIso(w, c).err
      && |UnpackIso(w', c).trace| == |UnpackIso(w, c).trace|
      && forall i :: 0 <= i < |UnpackIso(w, c).trace| ==>
           && UnpackIso(w', c).trace[i].(ok := true) == UnpackIso(w, c).trace[i].(ok := true)
           && (!IsRelease(UnpackIso(w, c).trace[i]) ==> UnpackIso(w', c).trace[i] == UnpackIso(w, c).trace[i])
  {
    var w' := w.(unmount := unmount, removeTemp := removeTemp);
    var phase := Steps(w, c);
    assert Steps(w', c) == phase;
    var n := |phase.events|;
    StepsFinished(w, c);
    forall i | n <= i < |UnpackIso(w, c).trace|
      ensures UnpackIso(w', c).trace[i].(ok := true) == UnpackIso(w, c).trace[i].(ok := true)
    {
      assert UnpackIso(w, c).trace[i] == Unwind(w, phase.deferred)[i - n];
      assert UnpackIso(w', c).trace[i] == Unwind(w', phase.deferred)[i - n];
    }
  }

  /** The squashfs image path is "live/filesystem.squashfs" directly below
      the cleaned ISO mount point. */
  lemma SquashfsImageUnder(isoDir: string)
    requires isoDir != ""
    ensures var dir := FilePath.Clean(isoDir);
      SquashfsImage(isoDir) ==
        (if dir == "/" then "/" else if dir == "." then "" else dir + "/") + LiveDir + "/" + SquashfsFile
  {
    FilePath.JoinPlainNames(isoDir, LiveDir, SquashfsFile);
  }
}
