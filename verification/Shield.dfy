// The cancellation shield: a caller waits for a protected child task, and a
// cancellation of the caller is held back until the child is done.

module Shield {
  import opened Common
  import opened Ledger
  import opened StakeCommit
  import opened ExposureRecovery

  // How the child ends. Fatal is an exception outside Python's Exception class
  // that is not a cancellation, such as SystemExit.
  datatype ChildEnd = Value | Raised | Fatal | ChildCancelled

  datatype Child = Running | Done(end: ChildEnd)

  datatype Result = Returns | RaisesChildError | RaisesFatal | RaisesCancelled

  // Waiting: first await. Draining: the await inside the handler's loop.
  datatype Mode = Waiting | Draining | Exited(result: Result)

  // `pending` is a cancellation requested but not yet thrown into the wrapper;
  // `everCancelled` remembers that one was requested before the wrapper exited.
  datatype Wrapper = Wrapper(child: Child, mode: Mode, pending: bool, everCancelled: bool)

  const START := Wrapper(Running, Waiting, false, false)

  // What the event loop can do next; Resume runs the wrapper until it awaits
  // again or exits.
  datatype Event = ChildFinishes(end: ChildEnd) | CallerCancels | Resume

  function ChildResult(end: ChildEnd): Result {
    match end
    case Value => Returns
    case Raised => RaisesChildError
    case Fatal => RaisesFatal
    case ChildCancelled => RaisesCancelled
  }

  function Step(w: Wrapper, e: Event): Wrapper {
    if w.mode.Exited? then w
    else match e
      case ChildFinishes(end) => if w.child.Running? then w.(child := Done(end)) else w
      case CallerCancels => w.(pending := true, everCancelled := true)
      case Resume =>
        if w.pending then
          // CancelledError: enter or continue the loop, leave it if the child is done
          w.(pending := false, mode := if w.child.Done? then Exited(RaisesCancelled) else Draining)
        else if w.child.Running? then w
        else if w.mode.Waiting? then w.(mode := Exited(ChildResult(w.child.end)))
        else w.(mode := Exited(if w.child.end.Fatal? then RaisesFatal else RaisesCancelled))
  }

  function Schedule(w: Wrapper, es: seq<Event>): Wrapper {
    if es == [] then w else Step(Schedule(w, es[..|es| - 1]), es[|es| - 1])
  }

  ghost predicate Coherent(w: Wrapper) {
    && (w.mode.Waiting? ==> w.everCancelled == w.pending)
    && (w.mode.Draining? ==> w.everCancelled)
    && (w.mode.Exited? ==>
          && w.child.Done?
          && (!w.everCancelled ==> w.mode.result == ChildResult(w.child.end))
          && (w.everCancelled ==> w.mode.result == RaisesCancelled
                                  || (w.child.end.Fatal? && w.mode.result == RaisesFatal)))
  }

  // For every interleaving: the wrapper exits only after the child is done,
  // passes the child's own end on when the caller was never cancelled, and
  // raises the cancellation otherwise, except that a fatal end may replace it.
  lemma {:induction false} ShieldHolds(es: seq<Event>)
    ensures Coherent(Schedule(START, es))
  {
    if es != [] { ShieldHolds(es[..|es| - 1]); }
  }

  ghost predicate AlwaysRaisesCancellation(end: ChildEnd) {
    forall es :: var w := Schedule(START, es);
      w.mode.Exited? && w.everCancelled && w.child == Done(end) ==> w.mode.result == RaisesCancelled
  }

  // A cancelled caller always sees its cancellation exactly when the child's
  // end is not a fatal one.
  lemma CancellationAuthoritativeIff(end: ChildEnd)
    ensures AlwaysRaisesCancellation(end) <==> !end.Fatal?
  {
    if end.Fatal? {
      var es := [CallerCancels, Resume, ChildFinishes(Fatal), Resume];
      var es1, es2, es3 := [CallerCancels], [CallerCancels, Resume], [CallerCancels, Resume, ChildFinishes(Fatal)];
      assert es[..3] == es3 && es3[..2] == es2 && es2[..1] == es1 && es1[..0] == [];
      assert Schedule(START, es1) == Wrapper(Running, Waiting, true, true);
      assert Schedule(START, es2) == Wrapper(Running, Draining, false, true);
      assert Schedule(START, es3) == Wrapper(Done(Fatal), Draining, false, true);
      assert Schedule(START, es).mode.result == RaisesFatal;
    } else {
      forall es ensures var w := Schedule(START, es);
        w.mode.Exited? && w.everCancelled && w.child == Done(end) ==> w.mode.result == RaisesCancelled
      {
        ShieldHolds(es);
      }
    }
  }

  // The caller is never stuck: once the child is done, one resumption ends it, whether it
  // waited, drained or has a cancellation to be thrown in.
  lemma DoneChildReleasesCaller(w: Wrapper)
    requires w.child.Done?
    ensures Step(w, Resume).mode.Exited?
  {
  }

  // And the end of the child is final.
  lemma {:induction false} EndIsFinal(w: Wrapper, es: seq<Event>)
    requires w.child.Done?
    ensures Schedule(w, es).child == w.child
    ensures Resume in es ==> Schedule(w, es).mode.Exited?
  {
    if es != [] {
      var init, e := es[..|es| - 1], es[|es| - 1];
      assert es == init + [e];
      EndIsFinal(w, init);
    }
  }

  // ----- the shielded stake commit ----------------------------------------

  // The child is one stake commit; the watchdog may cancel the caller at any
  // time. The call is over, and so is the child, when its transaction is.
  datatype System = System(world: World, wrapper: Wrapper)

  datatype SystemEvent = Child(a: Action) | Caller(e: Event)

  // The child's own steps; beginning a second call is not one of them.
  predicate ChildStep(a: Action) { a.Reserve? || a.Update? || a.Commit? || a.Abort? }

  function SystemStep(s: System, e: SystemEvent): System {
    match e
    case Child(a) =>
      if !ChildStep(a) || s.wrapper.child.Done? then s
      else
        var w := Apply(s.world, a);
        System(w, if w.phase.Idle? then Step(s.wrapper, ChildFinishes(Value)) else s.wrapper)
    case Caller(e) => if e.ChildFinishes? then s else System(s.world, Step(s.wrapper, e))
  }

  function SystemRun(s: System, es: seq<SystemEvent>): System {
    if es == [] then s else SystemStep(SystemRun(s, es[..|es| - 1]), es[|es| - 1])
  }

  ghost predicate SystemSound(s: System) {
    && Sound(s.world) && s.world.usage.Some?
    && (s.wrapper.child.Done? ==> s.world.phase.Idle?)
    && Coherent(s.wrapper)
  }

  lemma {:induction false} SystemStaysSound(s: System, es: seq<SystemEvent>)
    requires SystemSound(s)
    ensures SystemSound(SystemRun(s, es))
  {
    if es != [] {
      SystemStaysSound(s, es[..|es| - 1]);
      var m := SystemRun(s, es[..|es| - 1]);
      var e := es[|es| - 1];
      if e.Child? && ChildStep(e.a) { StepSound(m.world, e.a); }
    }
  }

  lemma {:induction false} SystemStaysSafe(s: System, es: seq<SystemEvent>, scope: Option<string>)
    requires SystemSound(s) && Safe(s.world, scope)
    ensures Safe(SystemRun(s, es).world, scope)
  {
    if es != [] {
      SystemStaysSafe(s, es[..|es| - 1], scope);
      var m := SystemRun(s, es[..|es| - 1]);
      var e := es[|es| - 1];
      if e.Child? && ChildStep(e.a) { StepSafe(m.world, e.a, scope); }
    }
  }

  lemma {:induction false} SystemStaysExact(s: System, es: seq<SystemEvent>, scope: Option<string>)
    requires SystemSound(s) && Exact(s.world, scope)
    ensures Exact(SystemRun(s, es).world, scope)
  {
    if es != [] {
      SystemStaysExact(s, es[..|es| - 1], scope);
      var m := SystemRun(s, es[..|es| - 1]);
      var e := es[|es| - 1];
      if e.Child? && ChildStep(e.a) { StepExact(m.world, e.a, scope); }
    }
  }

  // The child is running exactly while its transaction is open,
  ghost predicate InStep(s: System) { s.wrapper.mode.Exited? || (s.wrapper.child.Running? <==> !s.world.phase.Idle?) }

  lemma {:induction false} SystemStaysInStep(s: System, es: seq<SystemEvent>)
    requires SystemSound(s) && InStep(s)
    ensures InStep(SystemRun(s, es))
  {
    if es != [] {
      SystemStaysInStep(s, es[..|es| - 1]);
      SystemStaysSound(s, es[..|es| - 1]);
    }
  }

  // so the caller does get control back: wherever cancellations landed before, at the
  // first resumption after the transaction is over.
  lemma TimeoutReturns(w: World, c: Candidate, es: seq<SystemEvent>)
    requires Sound(w) && w.usage.Some? && w.phase.Idle?
    requires SystemRun(System(Apply(w, Begin(c)), START), es).world.phase.Idle?
    ensures SystemRun(System(Apply(w, Begin(c)), START), es + [Caller(Resume)]).wrapper.mode.Exited?
  {
    var start, more := System(Apply(w, Begin(c)), START), es + [Caller(Resume)];
    StepSound(w, Begin(c));
    SystemStaysSound(start, es);
    SystemStaysInStep(start, es);
    assert more[..|more| - 1] == es;
    var s := SystemRun(start, es);
    if !s.wrapper.mode.Exited? { DoneChildReleasesCaller(s.wrapper); }
  }

  // Wherever the watchdog's cancellations land: when the caller gets control back,
  // the transaction is over and the ledger counts every committed pick. For the day
  // this holds of any candidate; for an event, of one that reaches it.
  lemma TimeoutLeavesNoOrphan(w: World, c: Candidate, es: seq<SystemEvent>, scope: Option<string>)
    requires Safe(w, scope) && w.usage.Some? && w.phase.Idle? && Reaches(c, scope)
    ensures var s := SystemRun(System(Apply(w, Begin(c)), START), es);
            s.wrapper.mode.Exited? ==>
              && s.world.phase.Idle? && s.world.usage.Some?
              && Charge(s.world.rows, s.world.today, scope) <= s.world.usage.value.In(s.world.today, scope)
              && (Exact(w, scope) && Aimed(c, scope) ==>
                    Charge(s.world.rows, s.world.today, scope) == s.world.usage.value.In(s.world.today, scope))
  {
    var start := System(Apply(w, Begin(c)), START);
    StepSound(w, Begin(c));
    StepSafe(w, Begin(c), scope);
    SystemStaysSound(start, es);
    SystemStaysSafe(start, es, scope);
    if Exact(w, scope) && Aimed(c, scope) {
      StepExact(w, Begin(c), scope);
      SystemStaysExact(start, es, scope);
    }
  }
}
