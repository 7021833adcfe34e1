/** Resource discipline over a trace: which events acquire and which release
    a temporary directory or a mount, and the stack of resources held after
    each prefix of a trace. A trace is balanced when every release gives
    back the most recently acquired resource still held (last in, first
    out) and nothing is held at its end. A release counts as given back
    when the call is made, whether or not the call itself succeeds. */
module Resources {
  import opened Wrappers
  import opened Host

  datatype Res = TempDirOf(role: Role) | MountOf(role: Role)

  /** The resource a successful creation or mount acquires. */
  function Acquired(e: Event): Option<Res>
  {
    match e
    case MkTemp(role, _, _, ok) => if ok then Some(TempDirOf(role)) else None
    case Mount(_, _, _, role, _, ok) => if ok then Some(MountOf(role)) else None
    case _ => None
  }

  /** The resource a removal or unmount gives back. */
  function Released(e: Event): Option<Res>
  {
    match e
    case RemoveDir(role, _, _) => Some(TempDirOf(role))
    case Unmount(role, _, _) => Some(MountOf(role))
    case _ => None
  }

  /** The held stack after one more event; `None` once some release was not
      of the top of the stack. */
  function Next(held: Option<seq<Res>>, e: Event): Option<seq<Res>>
  {
    match held
    case None => None
    case Some(stack) =>
      match Acquired(e)
      case Some(r) => Some(stack + [r])
      case None =>
        match Released(e)
        case None => Some(stack)
        case Some(r) =>
          if stack != [] && stack[|stack| - 1] == r then Some(stack[..|stack| - 1]) else None
  }

  function HeldAfter(start: seq<Res>, trace: seq<Event>): Option<seq<Res>>
  {
    if trace == [] then Some(start)
    else Next(HeldAfter(start, trace[..|trace| - 1]), trace[|trace| - 1])
  }

  /** Every resource released exactly when it is the most recent one still
      held, and none held at the end. */
  predicate Balanced(trace: seq<Event>)
  {
    HeldAfter([], trace) == Some([])
  }

  function CountAcquired(trace: seq<Event>, r: Res): nat
  {
    if trace == [] then 0
    else CountAcquired(trace[..|trace| - 1], r) + (if Acquired(trace[|trace| - 1]) == Some(r) then 1 else 0)
  }

  function CountReleased(trace: seq<Event>, r: Res): nat
  {
    if trace == [] then 0
    else CountReleased(trace[..|trace| - 1], r) + (if Released(trace[|trace| - 1]) == Some(r) then 1 else 0)
  }

  lemma HeldAfterSnoc(start: seq<Res>, trace: seq<Event>, e: Event)
    ensures HeldAfter(start, trace + [e]) == Next(HeldAfter(start, trace), e)
  {
    assert (trace + [e])[..|trace|] == trace;
  }

  /** Running a trace in two pieces: the second piece starts from the stack
      the first one leaves. */
  lemma {:induction false} HeldAfterAppend(start: seq<Res>, a: seq<Event>, b: seq<Event>)
    ensures HeldAfter(start, a + b) ==
            match HeldAfter(start, a)
            case None => None
            case Some(mid) => HeldAfter(mid, b)
    decreases |b|
  {
    if b == [] {
      assert a + b == a;
    } else {
      var b' := b[..|b| - 1];
      var e := b[|b| - 1];
      assert a + b == (a + b') + [e];
      assert b == b' + [e];
      HeldAfterSnoc(start, a + b', e);
      HeldAfterAppend(start, a, b');
      match HeldAfter(start, a)
      case None =>
        assert HeldAfter(start, a + b') == None;
      case Some(mid) =>
        HeldAfterSnoc(mid, b', e);
    }
  }

  /** What is held at the end is what was held at the start, plus what was
      acquired, minus what was released, resource by resource. */
  lemma {:induction false} HeldCounts(start: seq<Res>, trace: seq<Event>, r: Res)
    requires HeldAfter(start, trace).Some?
    ensures multiset(start)[r] + CountAcquired(trace, r) ==
            multiset(HeldAfter(start, trace).value)[r] + CountReleased(trace, r)
    decreases |trace|
  {
    if trace != [] {
      var init := trace[..|trace| - 1];
      var e := trace[|trace| - 1];
      assert HeldAfter(start, init).Some?;
      HeldCounts(start, init, r);
      var stack := HeldAfter(start, init).value;
      if Acquired(e).None? && Released(e).Some? {
        assert stack == stack[..|stack| - 1] + [stack[|stack| - 1]];
      }
    }
  }

  /** In a balanced trace every resource is released exactly as many times
      as it is acquired. */
  lemma BalancedReleasesExactlyOnce(trace: seq<Event>)
    requires Balanced(trace)
    ensures forall r :: CountReleased(trace, r) == CountAcquired(trace, r)
  {
    forall r ensures CountReleased(trace, r) == CountAcquired(trace, r) {
      HeldCounts([], trace, r);
    }
  }

  lemma {:induction false} CountAcquiredAppend(a: seq<Event>, b: seq<Event>, r: Res)
    ensures CountAcquired(a + b, r) == CountAcquired(a, r) + CountAcquired(b, r)
    decreases |b|
  {
    if b == [] {
      assert a + b == a;
    } else {
      assert (a + b)[..|a + b| - 1] == a + b[..|b| - 1];
      CountAcquiredAppend(a, b[..|b| - 1], r);
    }
  }

  lemma {:induction false} CountAcquiredNone(trace: seq<Event>, r: Res)
    requires forall i :: 0 <= i < |trace| ==> Acquired(trace[i]).None?
    ensures CountAcquired(trace, r) == 0
    decreases |trace|
  {
    if trace != [] {
      CountAcquiredNone(trace[..|trace| - 1], r);
    }
  }

  lemma {:induction false} CountReleasedNone(trace: seq<Event>, r: Res)
    requires forall i :: 0 <= i < |trace| ==> Released(trace[i]).None?
    ensures CountReleased(trace, r) == 0
    decreases |trace|
  {
    if trace != [] {
      CountReleasedNone(trace[..|trace| - 1], r);
    }
  }

  /** Events that neither acquire nor release leave the held stack as it
      was. */
  lemma {:induction false} HeldAfterNeutral(start: seq<Res>, trace: seq<Event>)
    requires forall i :: 0 <= i < |trace| ==> Acquired(trace[i]).None? && Released(trace[i]).None?
    ensures HeldAfter(start, trace) == Some(start)
    decreases |trace|
  {
    if trace != [] {
      HeldAfterNeutral(start, trace[..|trace| - 1]);
    }
  }
}
