// The application lifespan: what is held when startup or the application fails,
// what the cleanup releases, and how the scheduler is stopped.

module Teardown {
  import opened Common

  datatype Resource = Scheduler | Arcadia | Owned(index: nat) | Http | Redis | Lock | Engine

  // How acquiring the lock fails: without a connection, at the query or its commit on an
  // open one, or because another process holds the lock. `fatal` tells an end outside
  // Exception, such as a cancellation.
  datatype LockFailure = NoConnection | QueryFailed(fatal: bool) | Contended

  // Where the lifespan fails, in program order. A builder that fails may have created
  // clients of its own by then.
  datatype Stage = Locking(how: LockFailure) | Credentials | Seeding | HttpClient | RedisClient | ArcadiaClient
                 | Building(created: nat) | Starting | Serving | Nowhere

  function Rank(s: Stage): nat {
    match s
    case Locking(_) => 1 case Credentials => 2 case Seeding => 3 case HttpClient => 4 case RedisClient => 5
    case ArcadiaClient => 6 case Building(_) => 7 case Starting => 8 case Serving => 9 case Nowhere => 10
  }

  // `locks` tells whether the database offers the single-instance lock, `proxied`
  // asks for a dedicated Arcadia client, and `owned` counts the clients the
  // scheduler builder creates for itself.
  datatype Config = Config(locks: bool, proxied: bool, owned: nat)

  // What is held once the stage has failed: everything acquired before it. A
  // scheduler counts from the moment it runs.
  predicate Held(c: Config, failAt: Stage, r: Resource) {
    match r
    case Engine => true
    case Lock => c.locks && !failAt.Locking?
    case Http => Rank(failAt) > Rank(HttpClient)
    case Redis => Rank(failAt) > Rank(RedisClient)
    case Arcadia => c.proxied && Rank(failAt) > Rank(ArcadiaClient)
    case Owned(i) => i < c.owned && Rank(failAt) > Rank(Building(0))
    case Scheduler => Rank(failAt) > Rank(Starting)
  }

  // The lifespan's local variables when it starts to unwind.
  datatype Locals = Locals(lock: bool, http: bool, redis: bool, arcadia: bool, scheduler: Option<nat>, started: bool)

  ghost predicate Describes(c: Config, failAt: Stage, v: Locals) {
    && v.lock == Held(c, failAt, Lock) && v.http == Held(c, failAt, Http) && v.redis == Held(c, failAt, Redis)
    && v.arcadia == Held(c, failAt, Arcadia) && v.started == Held(c, failAt, Scheduler)
    && v.scheduler == (if Rank(failAt) > Rank(Building(0)) then Some(c.owned) else None)
  }

  // A connection that was opened for the lock and that nothing was told to close: the
  // handler around the query sees exceptions only.
  predicate LockDangles(c: Config, failAt: Stage) { c.locks && failAt == Locking(QueryFailed(true)) }

  // Opens a connection and tries the lock on it. `open` says that the connection was
  // not told to close.
  method AcquireLock(c: Config, failure: Option<LockFailure>) returns (held: bool, open: bool)
    ensures held == (c.locks && failure.None?)
    ensures open == (held || (failure.Some? && LockDangles(c, Locking(failure.value))))
  {
    held, open := false, false;
    if !c.locks { return; }
    if failure == Some(NoConnection) { return; }
    open := true;
    if failure.Some? && failure.value.QueryFailed? {
      if !failure.value.fatal { open := false; }
      return;
    }
    if failure == Some(Contended) {
      open := false;
      return;
    }
    held := true;
  }

  // The body of the try block: each action is reached only when all before it
  // succeeded.
  method Startup(c: Config, failAt: Stage) returns (v: Locals, ghost dangling: bool)
    ensures Describes(c, failAt, v) && dangling == LockDangles(c, failAt)
  {
    v := Locals(false, false, false, false, None, false);
    var lock, open := AcquireLock(c, if failAt.Locking? then Some(failAt.how) else None);
    dangling := open && !lock;
    if failAt.Locking? { return; }
    v := v.(lock := lock);
    if failAt == Credentials { return; }
    if failAt == Seeding { return; }
    if failAt == HttpClient { return; }
    v := v.(http := true);
    if failAt == RedisClient { return; }
    v := v.(redis := true);
    if c.proxied {
      if failAt == ArcadiaClient { return; }
      v := v.(arcadia := true);
    }
    if failAt == ArcadiaClient { return; }
    if failAt.Building? { return; }
    v := v.(scheduler := Some(c.owned));
    if failAt == Starting { return; }
    v := v.(started := true);
  }

  // ----- cleanup ------------------------------------------------------------------

  function OwnedClients(n: nat): (rs: seq<Resource>)
    ensures |rs| == n && forall i :: 0 <= i < n ==> rs[i] == Owned(i)
  {
    seq(n, i requires 0 <= i < n => Owned(i))
  }

  function If(b: bool, r: Resource): seq<Resource> { if b then [r] else [] }

  function Front(v: Locals): seq<Resource> {
    If(v.started, Scheduler) + If(v.arcadia, Arcadia)
      + (if v.scheduler.Some? then OwnedClients(v.scheduler.value) else [])
  }

  function Back(v: Locals): seq<Resource> { If(v.http, Http) + If(v.redis, Redis) + If(v.lock, Lock) + [Engine] }

  method CleanupSteps(v: Locals) returns (steps: seq<Resource>)
    ensures steps == Front(v) + Back(v)
  {
    steps := [];
    if v.started { steps := steps + [Scheduler]; }
    if v.arcadia { steps := steps + [Arcadia]; }
    assert steps == If(v.started, Scheduler) + If(v.arcadia, Arcadia);
    if v.scheduler.Some? {
      ghost var before := steps;
      for i := 0 to v.scheduler.value
        invariant steps == before + OwnedClients(v.scheduler.value)[..i]
      {
        steps := steps + [Owned(i)];
      }
    }
    assert steps == Front(v);
    var rest: seq<Resource> := [];
    if v.http { rest := rest + [Http]; }
    if v.redis { rest := rest + [Redis]; }
    if v.lock { rest := rest + [Lock]; }
    rest := rest + [Engine];
    assert rest == Back(v);
    steps := steps + rest;
  }

  // How the lifespan ends: cleanly, with the triggering error and the notes added
  // to it, or with the cleanup failures of an otherwise clean shutdown.
  datatype Ending = Clean | Primary(notes: seq<Resource>) | CleanupFailed(one: Resource)
                  | CleanupGroup(all: seq<Resource>)

  function Failing(steps: seq<Resource>, bad: set<Resource>): seq<Resource> {
    if steps == [] then []
    else Failing(steps[..|steps| - 1], bad) + if steps[|steps| - 1] in bad then [steps[|steps| - 1]] else []
  }

  // Runs every step, whichever of the earlier ones failed.
  method RunCleanupSteps(steps: seq<Resource>, bad: set<Resource>, primary: bool)
    returns (attempted: seq<Resource>, ending: Ending)
    ensures attempted == steps
    ensures var failures := Failing(steps, bad);
            ending == if primary then Primary(failures)
                      else if failures == [] then Clean
                      else if |failures| == 1 then CleanupFailed(failures[0]) else CleanupGroup(failures)
  {
    attempted := [];
    var failures: seq<Resource> := [];
    for n := 0 to |steps|
      invariant attempted == steps[..n] && failures == Failing(steps[..n], bad)
    {
      assert steps[..n + 1][..n] == steps[..n];
      attempted := attempted + [steps[n]];
      if steps[n] in bad { failures := failures + [steps[n]]; }
    }
    assert steps[..|steps|] == steps;
    if failures == [] { return attempted, if primary then Primary([]) else Clean; }
    if primary { return attempted, Primary(failures); }
    if |failures| == 1 { return attempted, CleanupFailed(failures[0]); }
    return attempted, CleanupGroup(failures);
  }

  // One whole lifespan, for any failing stage and any set of failing cleanups.
  method Lifespan(c: Config, failAt: Stage, bad: set<Resource>) returns (attempted: seq<Resource>, ending: Ending)
    ensures OneAttemptEach(c, failAt, attempted)
    ensures OrderedRelease(attempted)
    ensures EndsRight(failAt, attempted, bad, ending)
  {
    var v, _ := Startup(c, failAt);
    var steps := CleanupSteps(v);
    StepsAreHeld(c, failAt, v, steps);
    FailingIs(steps, bad);
    attempted, ending := RunCleanupSteps(steps, bad, failAt != Nowhere);
  }

  // Each held resource is released exactly once, and nothing else is touched.
  ghost predicate OneAttemptEach(c: Config, failAt: Stage, attempted: seq<Resource>) {
    Distinct(attempted) && forall r :: r in attempted <==> Held(c, failAt, r)
  }

  function Turn(r: Resource): nat {
    match r
    case Scheduler => 0 case Arcadia => 1 case Owned(_) => 2 case Http => 3 case Redis => 4 case Lock => 5
    case Engine => 6
  }

  // A running scheduler stops before any client its jobs use is closed, and the
  // engine goes last.
  ghost predicate OrderedRelease(attempted: seq<Resource>) {
    && attempted != [] && attempted[|attempted| - 1] == Engine
    && (Scheduler in attempted ==> attempted[0] == Scheduler)
    && forall i, j :: 0 <= i < j < |attempted| ==> Turn(attempted[i]) <= Turn(attempted[j])
  }

  // The triggering error survives with one note per failed cleanup; without one the
  // cleanup failures surface, all of them.
  ghost predicate EndsRight(failAt: Stage, attempted: seq<Resource>, bad: set<Resource>, ending: Ending) {
    if failAt != Nowhere then
      ending.Primary? && Distinct(ending.notes) && forall r :: r in ending.notes <==> r in attempted && r in bad
    else
      match ending
      case Primary(_) => false
      case Clean => forall r :: r in attempted ==> r !in bad
      case CleanupFailed(x) => forall r :: r in attempted && r in bad <==> r == x
      case CleanupGroup(all) => |all| > 1 && Distinct(all) && forall r :: r in all <==> r in attempted && r in bad
  }

  ghost predicate InTurn(rs: seq<Resource>, lo: nat, hi: nat) {
    && Distinct(rs)
    && (forall r :: r in rs ==> lo <= Turn(r) <= hi)
    && (forall i, j :: 0 <= i < j < |rs| ==> Turn(rs[i]) <= Turn(rs[j]))
  }

  lemma InTurnAppend(a: seq<Resource>, b: seq<Resource>, lo: nat, mid: nat, hi: nat)
    requires lo <= mid < hi && InTurn(a, lo, mid) && InTurn(b, mid + 1, hi)
    ensures InTurn(a + b, lo, hi)
  {
    var all := a + b;
    forall i, j | 0 <= i < j < |all| ensures Turn(all[i]) <= Turn(all[j]) && all[i] != all[j] {
      if i < |a| { assert all[i] in a; }
      if j >= |a| { assert all[j] in b; }
    }
  }

  lemma FrontIs(c: Config, failAt: Stage, v: Locals)
    requires Describes(c, failAt, v)
    ensures InTurn(Front(v), 0, 2)
    ensures forall r :: r in Front(v) <==> Held(c, failAt, r) && Turn(r) <= 2
    ensures v.started ==> Front(v)[0] == Scheduler
  {
    FrontInTurn(v);
    forall r ensures r in Front(v) <==> Held(c, failAt, r) && Turn(r) <= 2 { FrontHeld(c, failAt, v, r); }
  }

  lemma FrontHeld(c: Config, failAt: Stage, v: Locals, r: Resource)
    requires Describes(c, failAt, v)
    ensures r in Front(v) <==> Held(c, failAt, r) && Turn(r) <= 2
  {
    FrontMembers(v, r);
    match r
    case Scheduler =>
    case Arcadia =>
    case Owned(i) =>
    case Http =>
    case Redis =>
    case Lock =>
    case Engine =>
  }

  lemma FrontInTurn(v: Locals)
    ensures InTurn(Front(v), 0, 2)
    ensures v.started ==> Front(v)[0] == Scheduler
  {
    var owned := if v.scheduler.Some? then OwnedClients(v.scheduler.value) else [];
    InTurnAppend(If(v.started, Scheduler), If(v.arcadia, Arcadia), 0, 0, 1);
    InTurnAppend(If(v.started, Scheduler) + If(v.arcadia, Arcadia), owned, 0, 1, 2);
  }

  lemma FrontMembers(v: Locals, r: Resource)
    ensures r in Front(v) <==> (v.started && r == Scheduler) || (v.arcadia && r == Arcadia)
                               || (v.scheduler.Some? && r.Owned? && r.index < v.scheduler.value)
  {
    var owned := if v.scheduler.Some? then OwnedClients(v.scheduler.value) else [];
    if v.scheduler.Some? && r.Owned? && r.index < v.scheduler.value { assert owned[r.index] == r; }
  }

  lemma BackInTurn(v: Locals)
    ensures InTurn(Back(v), 3, 6)
  {
    var h, r, l := If(v.http, Http), If(v.redis, Redis), If(v.lock, Lock);
    assert InTurn(h, 3, 3) && InTurn(r, 4, 4) && InTurn(l, 5, 5) && InTurn([Engine], 6, 6);
    InTurnAppend(h, r, 3, 3, 4);
    InTurnAppend(h + r, l, 3, 4, 5);
    InTurnAppend(h + r + l, [Engine], 3, 5, 6);
  }

  lemma BackMembers(v: Locals, r: Resource)
    ensures r in Back(v) <==> (v.http && r == Http) || (v.redis && r == Redis) || (v.lock && r == Lock) || r == Engine
  {
  }

  lemma BackIs(c: Config, failAt: Stage, v: Locals)
    requires Describes(c, failAt, v)
    ensures InTurn(Back(v), 3, 6)
    ensures forall r :: r in Back(v) <==> Held(c, failAt, r) && Turn(r) >= 3
    ensures Back(v) != [] && Back(v)[|Back(v)| - 1] == Engine
  {
    BackInTurn(v);
    forall r { BackMembers(v, r); }
  }

  lemma StepsAreHeld(c: Config, failAt: Stage, v: Locals, steps: seq<Resource>)
    requires Describes(c, failAt, v) && steps == Front(v) + Back(v)
    ensures OneAttemptEach(c, failAt, steps) && OrderedRelease(steps)
  {
    FrontIs(c, failAt, v);
    BackIs(c, failAt, v);
    InTurnAppend(Front(v), Back(v), 0, 2, 6);
    assert Scheduler in steps ==> v.started;
  }

  lemma {:induction false} FailingIs(steps: seq<Resource>, bad: set<Resource>)
    ensures forall r :: r in Failing(steps, bad) <==> r in steps && r in bad
    ensures Distinct(steps) ==> Distinct(Failing(steps, bad))
  {
    if steps != [] {
      FailingIs(steps[..|steps| - 1], bad);
      assert steps == steps[..|steps| - 1] + [steps[|steps| - 1]];
    }
  }

  // What exists when the lifespan unwinds: what it holds, the clients a builder that
  // failed had already created for itself, and a lock connection left open.
  predicate Exists(c: Config, failAt: Stage, r: Resource) {
    Held(c, failAt, r) || (failAt.Building? && r.Owned? && r.index < failAt.created)
      || (r == Lock && LockDangles(c, failAt))
  }

  // Every existing resource is released exactly unless the scheduler builder fails
  // after creating a client of its own, or the lock query ends outside Exception on its
  // open connection.
  lemma NothingLeaksIff(c: Config, failAt: Stage, attempted: seq<Resource>)
    requires OneAttemptEach(c, failAt, attempted)
    ensures (forall r :: Exists(c, failAt, r) ==> r in attempted) <==>
              !(failAt.Building? && failAt.created > 0) && !(c.locks && failAt == Locking(QueryFailed(true)))
  {
    if failAt.Building? && failAt.created > 0 { assert Exists(c, failAt, Owned(0)) && Owned(0) !in attempted; }
    if LockDangles(c, failAt) { assert Exists(c, failAt, Lock) && Lock !in attempted; }
  }

  // A cancellation while the lock query runs: the engine is disposed of, the connection
  // is not closed.
  lemma CancelledLockLeaks(c: Config, attempted: seq<Resource>)
    requires c.locks && OneAttemptEach(c, Locking(QueryFailed(true)), attempted)
    ensures attempted == [Engine] && Exists(c, Locking(QueryFailed(true)), Lock)
  {
    assert Engine in attempted && (|attempted| < 2 || attempted[0] != attempted[1]);
    forall i | 0 <= i < |attempted| ensures attempted[i] == Engine { assert attempted[i] in attempted; }
  }

  // A builder that fails after its first client.
  lemma FailedBuilderLeaks(c: Config, attempted: seq<Resource>)
    requires OneAttemptEach(c, Building(1), attempted)
    ensures Exists(c, Building(1), Owned(0)) && Owned(0) !in attempted
    ensures forall r :: Exists(c, Building(1), r) && r != Owned(0) ==> r in attempted
  {
  }

  // ----- stopping the scheduler -----------------------------------------------------

  datatype Fault = PauseFault | StopFault | Cancelled

  // The awaits at which a cancellation of the shutdown itself may arrive.
  datatype Await = Grace | Turnover | Drain

  // Job futures: the executors' pending sets and which futures are terminal.
  class Jobs {
    var pending: seq<set<int>>
    var done: set<int>
    var stops: nat

    constructor (pending: seq<set<int>>, done: set<int>)
      ensures this.pending == pending && this.done == done && stops == 0
    {
      this.pending, this.done, stops := pending, done, 0;
    }

    // asyncio.wait: while it waits any futures may finish, and it returns early only
    // when all awaited ones have.
    method Wait(awaited: set<int>) returns (expired: bool)
      modifies this`done
      ensures old(done) <= done
      ensures expired || awaited <= done
    {
      var finished: set<int> := *;
      done := done + finished;
      expired := !(awaited <= done);
    }

    ghost function AllPending(n: nat): set<int>
      requires n <= |pending|
      reads this`pending
    {
      if n == 0 then {} else AllPending(n - 1) + pending[n - 1]
    }

    // A wait that a cancellation ends.
    method CutWait()
      modifies this`done
      ensures old(done) <= done
    {
      var finished: set<int> := *;
      done := done + finished;
    }

    // Ends with the scheduler told to stop exactly once, and with every captured job
    // terminal, the drain deadline passed, or a cancellation inside the finally block.
    // One during the grace wait still drains what was captured. A fault surfaces only
    // after all that, a later one over an earlier one.
    method ShutdownGracefully(pauseFails: bool, stopFails: bool, cancelled: set<Await>)
      returns (captured: set<int>, graceExpired: bool, drainExpired: bool, drainCut: bool, raised: Option<Fault>)
      modifies this
      ensures pending == old(pending) && old(done) <= done && stops == old(stops) + 1
      ensures captured == (if pauseFails then {} else AllPending(|pending|) - old(done))
      ensures drainCut || drainExpired || captured <= done
      ensures Turnover in cancelled ==> drainCut
      ensures drainCut ==> Turnover in cancelled || (Drain in cancelled && captured != {})
      ensures drainExpired || (drainCut && Turnover !in cancelled) ==> graceExpired || Grace in cancelled
      ensures raised == if drainCut then Some(Cancelled)
                        else if stopFails then Some(StopFault)
                        else if pauseFails then Some(PauseFault)
                        else if Grace in cancelled && captured != {} then Some(Cancelled)
                        else None
    {
      captured, graceExpired, drainExpired, drainCut := {}, false, false, false;
      raised := None;
      if pauseFails {
        raised := Some(PauseFault);
      } else {
        for n := 0 to |pending|
          invariant captured == AllPending(n)
        {
          captured := captured + pending[n];
        }
        captured := captured - done;
        if captured != {} {
          if Grace in cancelled {
            CutWait();
            raised := Some(Cancelled);
          } else {
            graceExpired := Wait(captured);
          }
        }
      }
      // The finally block.
      stops := stops + 1;
      CutWait();
      if Turnover in cancelled { return captured, graceExpired, false, true, Some(Cancelled); }
      var left := captured - done;
      assert captured <= done + left;
      if left != {} {
        if Drain in cancelled {
          CutWait();
          return captured, graceExpired, false, true, Some(Cancelled);
        }
        drainExpired := Wait(left);
      }
      if stopFails { raised := Some(StopFault); }
    }
  }
}
