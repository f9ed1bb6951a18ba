// Locks around deploys (app/locks.py) and every path that takes them
// (app/routing.py, app/autoupdate.py and the routers). None is reentrant.

module Locks {
  type App = string

  class AsyncLock {
    constructor () {}
  }

  // One lock an app, made on first use and kept.
  class LockTable {
    var locks: map<App, AsyncLock>

    ghost predicate Valid()
      reads this
    {
      forall a, b | a in locks && b in locks && a != b :: locks[a] != locks[b]
    }

    constructor ()
      ensures Valid() && locks == map[]
    {
      locks := map[];
    }

    method AppLock(id: App) returns (lock: AsyncLock)
      requires Valid()
      modifies this
      ensures Valid() && id in locks && lock == locks[id]
      ensures id in old(locks) ==> locks == old(locks)
      ensures id !in old(locks) ==> fresh(lock) && locks == old(locks)[id := lock]
    {
      if id in locks {
        return locks[id];
      }
      lock := new AsyncLock();
      locks := locks[id := lock];
    }
  }

  // ----- programs -----

  // The static host's app is configured; the rest of the platform is told apart
  // from it by that one id.
  datatype Config = Config(web: App, never: set<App>) {
    predicate Excluded(id: App) {
      id in never || id == web
    }
  }

  datatype Lock = AppLock(id: App) | Routing

  // Besides the locks, a step that changes an app: its image, environment, labels
  // of the static host, or files, with the deploy that goes with it.
  datatype Step = Acquire(lock: Lock) | Release(lock: Lock) | Change(app: App)

  // A change made under the app's lock.
  function LockedChange(app: App): seq<Step> {
    [Acquire(AppLock(app)), Change(app), Release(AppLock(app))]
  }

  // Writing the static host's routes: it is changed only when they do.
  function SyncSteps(c: Config, changed: bool): seq<Step> {
    [Acquire(Routing)] + (if changed then LockedChange(c.web) else []) + [Release(Routing)]
  }

  // Enrolment after a deploy: only for an app that may sleep.
  function EnrolSteps(c: Config, app: App, enrols: bool, changed: bool): seq<Step> {
    if !enrols || c.Excluded(app) then [] else SyncSteps(c, changed)
  }

  datatype Pass = Pass(app: App, enrols: bool, changed: bool)

  datatype Entry =
    | FrontendUpload(app: App, changed: bool)
    | Refresh(app: App, enrols: bool, changed: bool)
    | SetImage(app: App, enrols: bool, changed: bool)
    | ApplyEnv(apps: seq<App>)
    | SyncRoutes(changed: bool)
    | Sweep(passes: seq<Pass>)

  function EnvSteps(apps: seq<App>): seq<Step> {
    if apps == [] then [] else LockedChange(apps[0]) + EnvSteps(apps[1..])
  }

  function SweepSteps(c: Config, passes: seq<Pass>): seq<Step> {
    if passes == [] then []
    else [Change(passes[0].app)] + EnrolSteps(c, passes[0].app, passes[0].enrols, passes[0].changed) + SweepSteps(c, passes[1..])
  }

  // The locks each entry point takes and gives back, in order.
  function StepsOf(c: Config, e: Entry): seq<Step> {
    match e
    case FrontendUpload(app, changed) =>
      if app == c.web then [] else [Acquire(AppLock(app))] + ([Change(app)] + SyncSteps(c, changed)) + [Release(AppLock(app))]
    case Refresh(app, enrols, changed) =>
      [Acquire(AppLock(app))] + ([Change(app)] + EnrolSteps(c, app, enrols, changed)) + [Release(AppLock(app))]
    case SetImage(app, enrols, changed) =>
      LockedChange(app) + EnrolSteps(c, app, enrols, changed)
    case ApplyEnv(apps) => EnvSteps(apps)
    case SyncRoutes(changed) => SyncSteps(c, changed)
    case Sweep(passes) => SweepSteps(c, passes)
  }

  // The apps some steps change, in order.
  function ChangedBy(steps: seq<Step>): seq<App> {
    if steps == [] then []
    else (if steps[0].Change? then [steps[0].app] else []) + ChangedBy(steps[1..])
  }

  lemma {:induction false} ChangedConcat(a: seq<Step>, b: seq<Step>)
    ensures ChangedBy(a + b) == ChangedBy(a) + ChangedBy(b)
  {
    if a == [] {
      assert a + b == b;
    } else {
      assert (a + b)[1..] == a[1..] + b;
      ChangedConcat(a[1..], b);
    }
  }

  lemma ChangedOne(step: Step, more: seq<Step>)
    ensures ChangedBy([step] + more) == (if step.Change? then [step.app] else []) + ChangedBy(more)
  {
    assert ([step] + more)[1..] == more;
  }

  lemma ChangedLocked(app: App)
    ensures ChangedBy(LockedChange(app)) == [app]
  {
    var l := AppLock(app);
    ChangedOne(Acquire(l), [Change(app), Release(l)]);
    ChangedOne(Change(app), [Release(l)]);
    ChangedOne(Release(l), []);
    assert LockedChange(app) == [Acquire(l)] + [Change(app), Release(l)];
    assert [Change(app), Release(l)] == [Change(app)] + [Release(l)] && [Release(l)] == [Release(l)] + [];
  }

  lemma ChangedSync(c: Config, changed: bool)
    ensures ChangedBy(SyncSteps(c, changed)) == if changed then [c.web] else []
  {
    var inner := if changed then LockedChange(c.web) else [];
    ChangedLocked(c.web);
    ChangedConcat([Acquire(Routing)] + inner, [Release(Routing)]);
    ChangedConcat([Acquire(Routing)], inner);
    ChangedOne(Acquire(Routing), []);
    ChangedOne(Release(Routing), []);
    assert [Acquire(Routing)] + [] == [Acquire(Routing)] && [Release(Routing)] + [] == [Release(Routing)];
  }

  lemma ChangedHolding(app: App, more: seq<Step>)
    ensures ChangedBy([Acquire(AppLock(app))] + ([Change(app)] + more) + [Release(AppLock(app))]) == [app] + ChangedBy(more)
  {
    var l := AppLock(app);
    ChangedConcat([Acquire(l)] + ([Change(app)] + more), [Release(l)]);
    ChangedOne(Acquire(l), [Change(app)] + more);
    ChangedOne(Change(app), more);
    ChangedOne(Release(l), []);
    assert [Release(l)] + [] == [Release(l)];
  }

  // The static host, changed along with an app that is enrolled and may sleep.
  function Enrols(c: Config, app: App, enrols: bool, changed: bool): seq<App> {
    if enrols && app !in c.never && app != c.web && changed then [c.web] else []
  }

  // What each entry point is for: its app, the static host where routes change, and
  // nothing for an upload to the static host itself, which is refused.
  function WorkOf(c: Config, e: Entry): seq<App> {
    match e
    case FrontendUpload(app, changed) => if app == c.web then [] else if changed then [app, c.web] else [app]
    case Refresh(app, enrols, changed) => [app] + Enrols(c, app, enrols, changed)
    case SetImage(app, enrols, changed) => [app] + Enrols(c, app, enrols, changed)
    case ApplyEnv(apps) => apps
    case SyncRoutes(changed) => if changed then [c.web] else []
    case Sweep(passes) => SweepChanges(c, passes)
  }

  lemma EntryChanges(c: Config, e: Entry)
    ensures ChangedBy(StepsOf(c, e)) == WorkOf(c, e)
  {
    match e
    case FrontendUpload(app, changed) =>
      ChangedSync(c, changed);
      ChangedHolding(app, SyncSteps(c, changed));
    case Refresh(app, enrols, changed) =>
      ChangedSync(c, changed);
      ChangedHolding(app, EnrolSteps(c, app, enrols, changed));
    case SetImage(app, enrols, changed) =>
      ChangedSync(c, changed);
      ChangedLocked(app);
      ChangedConcat(LockedChange(app), EnrolSteps(c, app, enrols, changed));
    case ApplyEnv(apps) => ChangedEnv(apps);
    case SyncRoutes(changed) => ChangedSync(c, changed);
    case Sweep(passes) => ChangedSweep(c, passes);
  }

  lemma {:induction false} ChangedEnv(apps: seq<App>)
    ensures ChangedBy(EnvSteps(apps)) == apps
  {
    if apps != [] {
      ChangedLocked(apps[0]);
      ChangedConcat(LockedChange(apps[0]), EnvSteps(apps[1..]));
      ChangedEnv(apps[1..]);
    }
  }

  function SweepChanges(c: Config, passes: seq<Pass>): seq<App> {
    if passes == [] then []
    else
      var p := passes[0];
      [p.app] + Enrols(c, p.app, p.enrols, p.changed) + SweepChanges(c, passes[1..])
  }

  lemma {:induction false} ChangedSweep(c: Config, passes: seq<Pass>)
    ensures ChangedBy(SweepSteps(c, passes)) == SweepChanges(c, passes)
  {
    if passes != [] {
      var p := passes[0];
      ChangedSync(c, p.changed);
      ChangedOne(Change(p.app), EnrolSteps(c, p.app, p.enrols, p.changed));
      ChangedConcat([Change(p.app)] + EnrolSteps(c, p.app, p.enrols, p.changed), SweepSteps(c, passes[1..]));
      ChangedSweep(c, passes[1..]);
    }
  }

  function Rank(c: Config, l: Lock): nat {
    match l
    case AppLock(id) => if id == c.web then 2 else 0
    case Routing => 1
  }

  // Each lock taken ranks above all those held, and all are given back at the end.
  ghost predicate Ordered(c: Config, held: set<Lock>, steps: seq<Step>)
    decreases |steps|
  {
    if steps == [] then held == {}
    else
      match steps[0]
      case Acquire(l) =>
        (forall h | h in held :: Rank(c, h) < Rank(c, l)) && Ordered(c, held + {l}, steps[1..])
      case Release(l) => l in held && Ordered(c, held - {l}, steps[1..])
      case Change(_) => Ordered(c, held, steps[1..])
  }

  // The locks a step takes rank above `l`.
  predicate Above(c: Config, l: Lock, steps: seq<Step>) {
    forall i | 0 <= i < |steps| :: steps[i].Change? || Rank(c, l) < Rank(c, steps[i].lock)
  }

  lemma {:induction false} OrderedConcat(c: Config, held: set<Lock>, a: seq<Step>, b: seq<Step>)
    requires Ordered(c, held, a) && Ordered(c, {}, b)
    ensures Ordered(c, held, a + b)
    decreases |a|
  {
    if a == [] {
      assert a + b == b;
    } else {
      assert (a + b)[1..] == a[1..] + b;
      match a[0] {
        case Acquire(l) => OrderedConcat(c, held + {l}, a[1..], b);
        case Release(l) => OrderedConcat(c, held - {l}, a[1..], b);
        case Change(_) => OrderedConcat(c, held, a[1..], b);
      }
    }
  }

  // What is done while holding one lock of lower rank.
  lemma {:induction false} OrderedInside(c: Config, held: set<Lock>, l: Lock, a: seq<Step>)
    requires Ordered(c, held, a) && l !in held
    requires Above(c, l, a)
    ensures Ordered(c, held + {l}, a + [Release(l)])
    decreases |a|
  {
    var done := a + [Release(l)];
    if a == [] {
      assert done[1..] == [] && held + {l} - {l} == {};
    } else {
      assert done[1..] == a[1..] + [Release(l)];
      match a[0] {
        case Acquire(m) =>
          assert held + {l} + {m} == held + {m} + {l};
          OrderedInside(c, held + {m}, l, a[1..]);
        case Release(m) =>
          assert held + {l} - {m} == held - {m} + {l};
          OrderedInside(c, held - {m}, l, a[1..]);
        case Change(_) => OrderedInside(c, held, l, a[1..]);
      }
    }
  }

  lemma LockedChangeOrdered(c: Config, app: App)
    ensures Ordered(c, {}, LockedChange(app))
    ensures Rank(c, AppLock(app)) == 2 ==> Above(c, Routing, LockedChange(app))
  {
    HoldingOrdered(c, AppLock(app), [Change(app)]) by {
      assert [Change(app)][1..] == [];
    }
    assert LockedChange(app) == [Acquire(AppLock(app))] + [Change(app)] + [Release(AppLock(app))];
  }

  lemma SyncOrdered(c: Config, changed: bool)
    ensures Ordered(c, {}, SyncSteps(c, changed))
    ensures forall l | Rank(c, l) == 0 :: Above(c, l, SyncSteps(c, changed))
  {
    if changed {
      LockedChangeOrdered(c, c.web);
      HoldingOrdered(c, Routing, LockedChange(c.web));
    } else {
      HoldingOrdered(c, Routing, []);
    }
  }

  lemma EnrolOrdered(c: Config, app: App, enrols: bool, changed: bool)
    ensures Ordered(c, {}, EnrolSteps(c, app, enrols, changed))
    ensures EnrolSteps(c, app, enrols, changed) != [] ==>
      app != c.web && EnrolSteps(c, app, enrols, changed) == SyncSteps(c, changed)
  {
    SyncOrdered(c, changed);
  }

  lemma {:induction false} EnvOrdered(c: Config, apps: seq<App>)
    ensures Ordered(c, {}, EnvSteps(apps))
  {
    if apps != [] {
      EnvOrdered(c, apps[1..]);
      LockedChangeOrdered(c, apps[0]);
      OrderedConcat(c, {}, LockedChange(apps[0]), EnvSteps(apps[1..]));
    }
  }

  lemma {:induction false} SweepOrdered(c: Config, passes: seq<Pass>)
    ensures Ordered(c, {}, SweepSteps(c, passes))
  {
    if passes != [] {
      var p := passes[0];
      SweepOrdered(c, passes[1..]);
      EnrolOrdered(c, p.app, p.enrols, p.changed);
      var own := [Change(p.app)] + EnrolSteps(c, p.app, p.enrols, p.changed);
      assert own[1..] == EnrolSteps(c, p.app, p.enrols, p.changed);
      OrderedConcat(c, {}, own, SweepSteps(c, passes[1..]));
    }
  }

  lemma HoldingOrdered(c: Config, l: Lock, a: seq<Step>)
    requires Ordered(c, {}, a) && Above(c, l, a)
    ensures Ordered(c, {}, [Acquire(l)] + a + [Release(l)])
  {
    OrderedInside(c, {}, l, a);
    var s := [Acquire(l)] + a + [Release(l)];
    assert s[1..] == a + [Release(l)];
  }

  lemma ChangeThen(c: Config, app: App, more: seq<Step>)
    requires Ordered(c, {}, more) && Above(c, AppLock(app), more)
    ensures Ordered(c, {}, [Acquire(AppLock(app))] + ([Change(app)] + more) + [Release(AppLock(app))])
  {
    var inner := [Change(app)] + more;
    assert inner[1..] == more;
    HoldingOrdered(c, AppLock(app), inner);
  }

  // Every entry point respects the order and re-enters no lock.
  lemma EntryOrdered(c: Config, e: Entry)
    ensures Ordered(c, {}, StepsOf(c, e))
  {
    match e
    case FrontendUpload(app, changed) =>
      SyncOrdered(c, changed);
      if app != c.web {
        ChangeThen(c, app, SyncSteps(c, changed));
      }
    case Refresh(app, enrols, changed) =>
      EnrolOrdered(c, app, enrols, changed);
      SyncOrdered(c, changed);
      ChangeThen(c, app, EnrolSteps(c, app, enrols, changed));
    case SetImage(app, enrols, changed) =>
      EnrolOrdered(c, app, enrols, changed);
      LockedChangeOrdered(c, app);
      OrderedConcat(c, {}, LockedChange(app), EnrolSteps(c, app, enrols, changed));
    case ApplyEnv(apps) => EnvOrdered(c, apps);
    case SyncRoutes(changed) => SyncOrdered(c, changed);
    case Sweep(passes) => SweepOrdered(c, passes);
  }

  // ----- running them together -----

  // `sweep` says that the hourly sweep started it.
  datatype Task = Task(sweep: bool, held: set<Lock>, rest: seq<Step>)
  type Tasks = seq<Task>

  predicate Free(ts: Tasks, l: Lock) {
    forall i | 0 <= i < |ts| :: l !in ts[i].held
  }

  // A task may take its next step: anything but to take a lock that is not free.
  predicate CanStep(ts: Tasks, i: nat) {
    && i < |ts| && ts[i].rest != []
    && (ts[i].rest[0].Acquire? ==> Free(ts, ts[i].rest[0].lock))
  }

  function Stepped(ts: Tasks, i: nat): Tasks
    requires CanStep(ts, i)
  {
    var t := ts[i];
    var held := match t.rest[0] case Acquire(l) => t.held + {l} case Release(l) => t.held - {l} case Change(_) => t.held;
    ts[i := Task(t.sweep, held, t.rest[1..])]
  }

  // A request arrives, or a task takes a step.
  datatype Move = Arrive(e: Entry) | Go(i: nat)

  ghost predicate Reaches(c: Config, ts: Tasks, moves: seq<Move>, last: Tasks)
    decreases |moves|
  {
    if moves == [] then ts == last
    else
      match moves[0]
      case Arrive(e) => Reaches(c, ts + [Task(e.Sweep?, {}, StepsOf(c, e))], moves[1..], last)
      case Go(i) => CanStep(ts, i) && Reaches(c, Stepped(ts, i), moves[1..], last)
  }

  ghost predicate Orderly(c: Config, ts: Tasks) {
    && (forall i | 0 <= i < |ts| :: Ordered(c, ts[i].held, ts[i].rest))
    && (forall i, j | 0 <= i < j < |ts| :: ts[i].held !! ts[j].held)
  }

  lemma {:induction false} ReachesOrderly(c: Config, ts: Tasks, moves: seq<Move>, last: Tasks)
    requires Orderly(c, ts) && Reaches(c, ts, moves, last)
    ensures Orderly(c, last)
    decreases |moves|
  {
    if moves != [] {
      match moves[0] {
        case Arrive(e) =>
          EntryOrdered(c, e);
          ReachesOrderly(c, ts + [Task(e.Sweep?, {}, StepsOf(c, e))], moves[1..], last);
        case Go(i) =>
          ReachesOrderly(c, Stepped(ts, i), moves[1..], last);
      }
    }
  }

  predicate WaitsFor(ts: Tasks, i: nat, j: nat) {
    && i < |ts| && j < |ts| && ts[i].rest != [] && ts[i].rest[0].Acquire?
    && ts[i].rest[0].lock in ts[j].held
  }

  // Each waits for a lock the next one holds, and the last for one the first holds.
  predicate CircularWait(ts: Tasks, ring: seq<nat>) {
    && ring != []
    && forall n | 0 <= n < |ring| :: WaitsFor(ts, ring[n], ring[if n + 1 < |ring| then n + 1 else 0])
  }

  // The rank waited for rises along a chain of waits.
  lemma WaitRises(c: Config, ts: Tasks, i: nat, j: nat, k: nat)
    requires Orderly(c, ts) && WaitsFor(ts, i, j) && WaitsFor(ts, j, k)
    ensures Rank(c, ts[i].rest[0].lock) < Rank(c, ts[j].rest[0].lock)
  {
    assert Ordered(c, ts[j].held, ts[j].rest);
  }

  lemma {:induction false} ChainRises(c: Config, ts: Tasks, ring: seq<nat>, n: nat)
    requires Orderly(c, ts) && CircularWait(ts, ring) && n < |ring|
    ensures WaitsFor(ts, ring[0], ring[if 1 < |ring| then 1 else 0])
    ensures WaitsFor(ts, ring[n], ring[if n + 1 < |ring| then n + 1 else 0])
    ensures Rank(c, ts[ring[0]].rest[0].lock) + n <= Rank(c, ts[ring[n]].rest[0].lock)
  {
    assert WaitsFor(ts, ring[0], ring[if 0 + 1 < |ring| then 0 + 1 else 0]);
    assert WaitsFor(ts, ring[n], ring[if n + 1 < |ring| then n + 1 else 0]);
    if n > 0 {
      ChainRises(c, ts, ring, n - 1);
      WaitRises(c, ts, ring[n - 1], ring[n], ring[if n + 1 < |ring| then n + 1 else 0]);
    }
  }

  lemma OrderlyHasNoRing(c: Config, ts: Tasks, ring: seq<nat>)
    requires Orderly(c, ts)
    ensures !CircularWait(ts, ring)
  {
    if CircularWait(ts, ring) {
      var last := |ring| - 1;
      ChainRises(c, ts, ring, last);
      ChainRises(c, ts, ring, 0);
      WaitRises(c, ts, ring[last], ring[0], ring[if 1 < |ring| then 1 else 0]);
      assert false;
    }
  }

  // No run of any requests reaches a circular wait on locks ...
  lemma NoDeadlock(c: Config, moves: seq<Move>, last: Tasks, ring: seq<nat>)
    requires Reaches(c, [], moves, last)
    ensures !CircularWait(last, ring)
  {
    ReachesOrderly(c, [], moves, last);
    OrderlyHasNoRing(c, last, ring);
  }

  // ... and while any task is unfinished, some task can step.
  lemma {:induction false} SomeCanStep(c: Config, ts: Tasks, i: nat) returns (k: nat)
    requires Orderly(c, ts) && i < |ts| && ts[i].rest != []
    ensures CanStep(ts, k)
    decreases if ts[i].rest[0].Acquire? then 3 - Rank(c, ts[i].rest[0].lock) else 0
  {
    if CanStep(ts, i) {
      return i;
    }
    var l := ts[i].rest[0].lock;
    var j :| 0 <= j < |ts| && l in ts[j].held;
    assert Ordered(c, ts[j].held, ts[j].rest);
    if CanStep(ts, j) {
      return j;
    }
    k := SomeCanStep(c, ts, j);
  }

  lemma NeverStuck(c: Config, moves: seq<Move>, last: Tasks)
    requires Reaches(c, [], moves, last)
    ensures (exists k :: CanStep(last, k)) <==> exists i | 0 <= i < |last| :: last[i].rest != []
  {
    ReachesOrderly(c, [], moves, last);
    if i :| 0 <= i < |last| && last[i].rest != [] {
      var k := SomeCanStep(c, last, i);
    }
  }

  function Left(ts: Tasks): nat {
    if ts == [] then 0 else |ts[0].rest| + Left(ts[1..])
  }

  // Each step is one fewer to take, so the requests taken in all finish.
  lemma {:induction false} StepShortens(ts: Tasks, i: nat)
    requires CanStep(ts, i)
    ensures Left(Stepped(ts, i)) == Left(ts) - 1
  {
    LeftAt(ts, i, Stepped(ts, i)[i]);
  }

  lemma {:induction false} LeftAt(ts: Tasks, i: nat, t: Task)
    requires i < |ts|
    ensures Left(ts[i := t]) == Left(ts) - |ts[i].rest| + |t.rest|
  {
    if i > 0 {
      LeftAt(ts[1..], i - 1, t);
      assert ts[i := t][1..] == ts[1..][i - 1 := t];
    } else {
      assert ts[i := t][1..] == ts[1..];
    }
  }

  // ----- what the locks are for -----

  // Each change is made under the lock of the app changed.
  predicate Guarded(held: set<Lock>, steps: seq<Step>)
    decreases |steps|
  {
    if steps == [] then true
    else
      match steps[0]
      case Acquire(l) => Guarded(held + {l}, steps[1..])
      case Release(l) => Guarded(held - {l}, steps[1..])
      case Change(app) => AppLock(app) in held && Guarded(held, steps[1..])
  }

  lemma {:induction false} GuardedConcat(held: set<Lock>, more: set<Lock>, a: seq<Step>, b: seq<Step>)
    requires Guarded(held, a) && (forall h: set<Lock> :: Guarded(h, b))
    ensures Guarded(held + more, a + b)
    decreases |a|
  {
    if a == [] {
      assert a + b == b;
    } else {
      assert (a + b)[1..] == a[1..] + b;
      match a[0] {
        case Acquire(l) =>
          assert held + more + {l} == held + {l} + more;
          GuardedConcat(held + {l}, more, a[1..], b);
        case Release(l) =>
          assert held + more - {l} == (held - {l}) + (more - {l});
          GuardedConcat(held - {l}, more - {l}, a[1..], b);
        case Change(_) => GuardedConcat(held, more, a[1..], b);
      }
    }
  }

  lemma GuardedLockedChange(app: App, b: seq<Step>)
    requires forall h: set<Lock> :: Guarded(h, b)
    ensures forall h: set<Lock> :: Guarded(h, LockedChange(app) + b)
  {
    var own, lock := LockedChange(app), AppLock(app);
    assert own[1..] == [Change(app), Release(lock)] && own[1..][1..] == [Release(lock)] && own[1..][1..][1..] == [];
    assert Guarded({lock}, own[1..][1..]) && Guarded({lock}, own[1..]) by {
      assert {lock} - {lock} == {};
    }
    forall h: set<Lock> ensures Guarded(h, own + b) {
      assert {} + {lock} == {lock};
      GuardedConcat({}, h, own, b);
      assert {} + h == h;
    }
  }

  lemma GuardedSync(c: Config, changed: bool)
    ensures forall h: set<Lock> :: Guarded(h, SyncSteps(c, changed))
  {
    var tail := [Release(Routing)];
    assert tail[1..] == [];
    assert forall h: set<Lock> :: Guarded(h, tail);
    var steps := SyncSteps(c, changed);
    if changed {
      GuardedLockedChange(c.web, tail);
      assert steps[1..] == LockedChange(c.web) + tail;
    } else {
      assert steps[1..] == tail;
    }
  }

  lemma {:induction false} GuardedEnv(apps: seq<App>)
    ensures forall h: set<Lock> :: Guarded(h, EnvSteps(apps))
  {
    if apps != [] {
      GuardedEnv(apps[1..]);
      GuardedLockedChange(apps[0], EnvSteps(apps[1..]));
    }
  }

  lemma GuardedHolding(app: App, more: seq<Step>)
    requires forall h: set<Lock> :: Guarded(h, more)
    ensures Guarded({}, [Acquire(AppLock(app))] + ([Change(app)] + more) + [Release(AppLock(app))])
  {
    var lock := AppLock(app);
    var steps := [Acquire(lock)] + ([Change(app)] + more) + [Release(lock)];
    var tail := [Release(lock)];
    assert tail[1..] == [];
    GuardedConcat({}, {lock}, more, tail);
    assert steps[1..][1..] == more + tail && steps[1..][0] == Change(app);
    assert {} + {lock} == {lock};
  }

  // Every entry point but the sweep changes an app only under its lock.
  lemma EntryGuarded(c: Config, e: Entry)
    requires !e.Sweep?
    ensures Guarded({}, StepsOf(c, e))
  {
    match e
    case FrontendUpload(app, changed) =>
      GuardedSync(c, changed);
      GuardedHolding(app, SyncSteps(c, changed));
    case Refresh(app, enrols, changed) =>
      GuardedSync(c, changed);
      GuardedHolding(app, EnrolSteps(c, app, enrols, changed));
    case SetImage(app, enrols, changed) =>
      GuardedSync(c, changed);
      GuardedLockedChange(app, EnrolSteps(c, app, enrols, changed));
    case ApplyEnv(apps) => GuardedEnv(apps);
    case SyncRoutes(changed) => GuardedSync(c, changed);
  }

  ghost predicate AllGuarded(ts: Tasks) {
    forall i | 0 <= i < |ts| && !ts[i].sweep :: Guarded(ts[i].held, ts[i].rest)
  }

  lemma {:induction false} ReachesGuarded(c: Config, ts: Tasks, moves: seq<Move>, last: Tasks)
    requires AllGuarded(ts) && Reaches(c, ts, moves, last)
    ensures AllGuarded(last)
    decreases |moves|
  {
    if moves != [] {
      match moves[0] {
        case Arrive(e) =>
          if !e.Sweep? {
            EntryGuarded(c, e);
          }
          ReachesGuarded(c, ts + [Task(e.Sweep?, {}, StepsOf(c, e))], moves[1..], last);
        case Go(i) =>
          ReachesGuarded(c, Stepped(ts, i), moves[1..], last);
      }
    }
  }

  predicate Changing(ts: Tasks, i: nat, app: App) {
    i < |ts| && ts[i].rest != [] && ts[i].rest[0] == Change(app)
  }

  // Two tasks are never at changing the same app at once, unless one of them is the
  // sweep.
  lemma ChangesExclusive(c: Config, moves: seq<Move>, last: Tasks, i: nat, j: nat, app: App)
    requires Reaches(c, [], moves, last)
    requires i != j && Changing(last, i, app) && Changing(last, j, app)
    ensures last[i].sweep || last[j].sweep
  {
    ReachesOrderly(c, [], moves, last);
    ReachesGuarded(c, [], moves, last);
    assert last[i].sweep || AppLock(app) in last[i].held;
    assert last[j].sweep || AppLock(app) in last[j].held;
  }

  // The sweep deploys without the app's lock, so it can meet a refresh of the app.
  lemma SweepOverlaps(c: Config, app: App, pass: Pass)
    requires pass.app == app
    ensures var moves := [Arrive(Refresh(app, false, false)), Arrive(Sweep([pass])), Go(0)];
            exists last :: Reaches(c, [], moves, last) && Changing(last, 0, app) && Changing(last, 1, app)
  {
    var moves := [Arrive(Refresh(app, false, false)), Arrive(Sweep([pass])), Go(0)];
    var one := [Task(false, {}, StepsOf(c, Refresh(app, false, false)))];
    var two := one + [Task(true, {}, StepsOf(c, Sweep([pass])))];
    assert [] + one == one && CanStep(two, 0);
    var last := Stepped(two, 0);
    assert moves[1..][1..] == [Go(0)] && moves[1..][1..][1..] == [];
    assert Reaches(c, last, [], last) && Reaches(c, two, moves[1..][1..], last);
    assert Reaches(c, one, moves[1..], last);
    assert Reaches(c, [], moves, last);
    assert StepsOf(c, Sweep([pass]))[0] == Change(app);
  }

  // ----- why the static host is never enrolled -----

  // Were a refresh of the static host allowed on to the routing write, it and any
  // other routing write could wait for each other for ever.
  lemma EnrollingTheHostDeadlocks(c: Config)
    ensures var web := AppLock(c.web);
            var refresh := Task(false, {}, [Acquire(web)] + SyncSteps(c, true) + [Release(web)]);
            var sync := Task(false, {}, StepsOf(c, SyncRoutes(true)));
            var ts := [refresh, sync];
            && CanStep(ts, 0) && CanStep(Stepped(ts, 0), 1)
            && CircularWait(Stepped(Stepped(ts, 0), 1), [0, 1])
  {
    var web := AppLock(c.web);
    var refresh := Task(false, {}, [Acquire(web)] + SyncSteps(c, true) + [Release(web)]);
    var sync := Task(false, {}, SyncSteps(c, true));
    var ts := [refresh, sync];
    var one := Stepped(ts, 0);
    assert one[0].rest[0] == Acquire(Routing) && one[0].held == {web};
    assert one[1] == sync;
    var two := Stepped(one, 1);
    assert two[1].rest[0] == Acquire(web) && two[1].held == {Routing};
    assert WaitsFor(two, 0, 1) && WaitsFor(two, 1, 0);
  }
}
