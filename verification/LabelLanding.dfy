// Writing labels to containers (app/routing.py): one backend's write, the wait
// until it has really arrived, and the sync that fronts apps with the static host.

module LabelLanding {
  import opened Text
  import opened TraefikRule
  import opened HostRewrite
  import opened RuleLaws
  import opened Labels
  import opened LabelLaws
  import opened Forwarding

  const LABEL_WINDOW := 90
  const LABEL_ATTEMPTS := 3
  const LABEL_POLL := 5

  // The labels that decide how an app is routed and whether it sleeps.
  function Operative(labels: Block): Block {
    map k | k in labels
            && (ROUTERS <= k || "traefik.http.middlewares.sablier-" <= k || "sablier." <= k) :: labels[k]
  }

  // What was asked for is there; other labels do not matter.
  predicate Carries(live: Block, want: Block) {
    live != map[] && forall k | k in want :: k in live && live[k] == want[k]
  }

  // A label that decides something, by its name.
  predicate Decides(k: string) {
    "traefik.http.routers." <= k || "traefik.http.middlewares.sablier-" <= k || "sablier." <= k
  }

  // What counts as seen: a container with labels, carrying at its wanted value every
  // wanted label whose name decides something, whatever else it carries.
  lemma SeenExactly(live: Block, desired: Block)
    ensures Carries(live, Operative(desired)) <==>
            live != map[] && forall k | k in desired && Decides(k) :: k in live && live[k] == desired[k]
    ensures Operative(desired) == map[] <==> forall k | k in desired :: !Decides(k)
  {
    forall k ensures k in Operative(desired) <==> k in desired && Decides(k) {
    }
    if Operative(desired) != map[] {
      var k :| k in Operative(desired);
      assert Decides(k);
    }
  }

  // Coolify and one container: `shows` is what the n-th inspection shows. Any
  // sequence is allowed, so a deploy may be dropped, late or undone.
  class Container {
    const shows: nat -> Block
    var tick: nat
    var deploys: nat

    constructor (shows: nat -> Block)
      ensures this.shows == shows && tick == 0 && deploys == 0
    {
      this.shows, tick, deploys := shows, 0, 0;
    }

    // Wait for the labels to arrive, asking for another deploy after each window
    // in which they did not.
    method ConfirmLabelsLanded(desired: Block) returns (landed: bool)
      modifies this
      ensures tick >= old(tick)
      // True only on seeing every operative label, or when there are none
      ensures landed <==> Operative(desired) == map[]
                          || exists n | old(tick) <= n < tick :: Carries(shows(n), Operative(desired))
      ensures Operative(desired) == map[] ==> tick == old(tick)
      // the first sighting ends the wait
      ensures forall n | old(tick) <= n < tick - 1 :: !Carries(shows(n), Operative(desired))
      // a bounded wait: one further deploy per window that went by, none for the last
      ensures tick <= old(tick) + LABEL_ATTEMPTS * (LABEL_WINDOW / LABEL_POLL)
      ensures deploys == old(deploys) + (if tick == old(tick) then 0 else (tick - old(tick) - 1) / (LABEL_WINDOW / LABEL_POLL))
      ensures !landed ==> tick == old(tick) + LABEL_ATTEMPTS * (LABEL_WINDOW / LABEL_POLL)
                          && deploys == old(deploys) + LABEL_ATTEMPTS - 1
    {
      var want := Operative(desired);
      if want == map[] {
        return true;
      }
      for attempt := 1 to LABEL_ATTEMPTS + 1
        invariant tick == old(tick) + (attempt - 1) * 18
        invariant deploys == old(deploys) + (if attempt <= LABEL_ATTEMPTS then attempt - 1 else LABEL_ATTEMPTS - 1)
        invariant forall n | old(tick) <= n < tick :: !Carries(shows(n), want)
      {
        var waited := 0;
        while waited < LABEL_WINDOW
          invariant 0 <= waited <= LABEL_WINDOW && waited % LABEL_POLL == 0
          invariant tick == old(tick) + (attempt - 1) * 18 + waited / LABEL_POLL
          invariant deploys == old(deploys) + attempt - 1
          invariant forall n | old(tick) <= n < tick :: !Carries(shows(n), want)
        {
          var live := shows(tick);
          tick := tick + 1;
          if Carries(live, want) {
            return true;
          }
          waited := waited + LABEL_POLL;
        }
        if attempt < LABEL_ATTEMPTS {
          deploys := deploys + 1;
        }
      }
      return false;
    }
  }

  // ----- one backend's write -----

  datatype Applied = NoContainer | Raised | Unchanged | Rewritten

  // An app as the sync sees it.
  datatype Row = Row(id: string, deployed: bool, sleeps: bool)

  // What the static host's container turns out to carry after its redeploy.
  datatype Rollout = Rollout(verified: bool, carries: Block)

  predicate CarriesMarker(labels: Block) {
    exists k | k in labels :: IsRuleKey(k) && Contains(labels[k], MARKER)
  }

  // The marker is asked for by some router's rule, whatever other labels say.
  lemma CarriesMarkerExactly(labels: Block)
    ensures CarriesMarker(labels) <==>
            exists k :: k in labels && RouterRule(k) && Contains(labels[k], "Header(`X-Pironman-Backend`, `1`)")
  {
    forall k ensures IsRuleKey(k) <==> RouterRule(k) {
    }
  }

  class Platform {
    const cfg: Config
    const excluded: set<string>
    // Every hostname of each app, read when labels are written.
    const hosts: map<string, seq<string>>
    // A Coolify call for this app fails.
    const failing: set<string>
    // The labels the running containers carry.
    var web: Block
    const live: map<string, Block>
    // The label blocks written to Coolify, and the deploys asked for.
    var stored: map<string, Block>
    var deploys: seq<string>

    constructor (cfg: Config, excluded: set<string>, hosts: map<string, seq<string>>, failing: set<string>,
                 web: Block, live: map<string, Block>)
      ensures this.cfg == cfg && this.excluded == excluded && this.hosts == hosts && this.failing == failing
      ensures this.web == web && this.live == live && stored == map[] && deploys == []
    {
      this.cfg, this.excluded, this.hosts, this.failing := cfg, excluded, hosts, failing;
      this.web, this.live, stored, deploys := web, live, map[], [];
    }

    // The labels a write would leave on the app's container. An app that must
    // never sleep is un-enrolled whatever its row says.
    function Wanted(app: string, sleeps: bool, fronted: bool): Block
      requires app in hosts && app in live
    {
      Desired(live[app], app, hosts[app], sleeps && app !in excluded, fronted, cfg)
    }

    function Outcome(app: string, sleeps: bool, fronted: bool): Applied
      requires app in hosts
    {
      if app !in live || live[app] == map[] then NoContainer
      else if Wanted(app, sleeps, fronted) == live[app] then Unchanged
      else if app in failing then Raised
      else Rewritten
    }

    // One read, one write, one deploy, and only when something changes.
    method ApplyBackendLabels(app: string, sleeps: bool, fronted: bool) returns (r: Applied)
      requires app in hosts
      modifies this`stored, this`deploys
      ensures r == Outcome(app, sleeps, fronted)
      ensures r.Rewritten? ==> stored == old(stored)[app := Wanted(app, sleeps, fronted)] && deploys == old(deploys) + [app]
      ensures !r.Rewritten? ==> stored == old(stored) && deploys == old(deploys)
    {
      if app !in live || live[app] == map[] {
        return NoContainer;
      }
      var base := live[app];
      var may := sleeps && app !in excluded;
      var desired := if may then Enrolled(base, app, cfg) else Strip(base, app);
      desired := if fronted then Scoped(desired, hosts[app]) else Unscoped(desired, hosts[app]);
      if desired == base {
        return Unchanged;
      }
      if app in failing {
        return Raised;
      }
      stored := stored[app := desired];
      deploys := deploys + [app];
      return Rewritten;
    }

    // The static host's own rollout: its container comes back carrying whatever
    // it carries.
    method DeployStaticHost(rollout: Rollout) returns (verified: bool)
      modifies this`web
      ensures web == rollout.carries && verified == rollout.verified
    {
      web := rollout.carries;
      verified := rollout.verified;
    }

    // The rows a pass rewrites, in its order: the scoping pass walks the deployed
    // fronted apps, the un-scoping pass the apps that still carry the marker.
    predicate Concerned(r: Row, fronted: bool)
      requires r.id in hosts
    {
      && (if fronted then r.deployed else r.id in live && CarriesMarker(live[r.id]))
      && Outcome(r.id, r.sleeps, fronted).Rewritten?
    }

    function Touched(rows: seq<Row>, fronted: bool): (t: seq<Row>)
      requires forall r | r in rows :: r.id in hosts
      ensures forall r :: r in t <==> r in rows && Concerned(r, fronted)
    {
      if rows == [] then []
      else
        var r := rows[|rows| - 1];
        assert rows == rows[..|rows| - 1] + [r];
        Touched(rows[..|rows| - 1], fronted) + (if Concerned(r, fronted) then [r] else [])
    }

    // The label blocks after writing these rows in order.
    function StoreAll(was: map<string, Block>, rows: seq<Row>, fronted: bool): map<string, Block>
      requires forall r | r in rows :: r.id in hosts && r.id in live
    {
      if rows == [] then was
      else
        var r := rows[|rows| - 1];
        StoreAll(was, rows[..|rows| - 1], fronted)[r.id := Wanted(r.id, r.sleeps, fronted)]
    }

    lemma StoreAppend(was: map<string, Block>, rows: seq<Row>, r: Row, fronted: bool)
      requires forall x | x in rows + [r] :: x.id in hosts && x.id in live
      ensures forall x | x in rows :: x in rows + [r]
      ensures StoreAll(was, rows + [r], fronted) == StoreAll(was, rows, fronted)[r.id := Wanted(r.id, r.sleeps, fronted)]
    {
      var all := rows + [r];
      assert all[..|all| - 1] == rows && all[|all| - 1] == r;
    }

    lemma TouchedOneMore(rows: seq<Row>, n: nat, fronted: bool)
      requires n < |rows| && forall r | r in rows :: r.id in hosts
      ensures Touched(rows[..n + 1], fronted) == Touched(rows[..n], fronted) + (if Concerned(rows[n], fronted) then [rows[n]] else [])
    {
      var now := rows[..n + 1];
      assert now[..|now| - 1] == rows[..n] && now[|now| - 1] == rows[n];
    }

    lemma StoreOneMore(was: map<string, Block>, rows: seq<Row>, n: nat, fronted: bool)
      requires n < |rows| && forall r | r in rows :: r.id in hosts
      ensures var before, r := Touched(rows[..n], fronted), rows[n];
              && Ids(Touched(rows[..n + 1], fronted)) == Ids(before) + (if Concerned(r, fronted) then [r.id] else [])
              && StoreAll(was, Touched(rows[..n + 1], fronted), fronted) ==
                 (if Concerned(r, fronted) then StoreAll(was, before, fronted)[r.id := Wanted(r.id, r.sleeps, fronted)]
                  else StoreAll(was, before, fronted))
    {
      var before, r := Touched(rows[..n], fronted), rows[n];
      TouchedOneMore(rows, n, fronted);
      if Concerned(r, fronted) {
        IdsAppend(before, r);
        StoreAppend(was, before, r, fronted);
      } else {
        assert before + [] == before;
        assert Ids(before) + [] == Ids(before);
      }
    }

    method ScopeOne(r: Row) returns (did: bool)
      requires r.id in hosts
      modifies this`stored, this`deploys
      ensures did == Concerned(r, true) && deploys == old(deploys) + if did then [r.id] else []
      ensures stored == if did then old(stored)[r.id := Wanted(r.id, r.sleeps, true)] else old(stored)
    {
      did := false;
      if r.deployed {
        var done := ApplyBackendLabels(r.id, r.sleeps, true);
        did := done.Rewritten?;
      }
    }

    method UnscopeOne(r: Row) returns (did: bool)
      requires r.id in hosts
      modifies this`stored, this`deploys
      ensures did == Concerned(r, false) && deploys == old(deploys) + if did then [r.id] else []
      ensures stored == if did then old(stored)[r.id := Wanted(r.id, r.sleeps, false)] else old(stored)
    {
      did := false;
      if r.id in live && live[r.id] != map[] && CarriesMarker(live[r.id]) {
        var done := ApplyBackendLabels(r.id, r.sleeps, false);
        did := done.Rewritten?;
      }
    }

    // Scope every deployed fronted app.
    method ScopeBackends(rows: seq<Row>) returns (scoped: seq<string>)
      requires forall r | r in rows :: r.id in hosts
      modifies this`stored, this`deploys
      ensures scoped == Ids(Touched(rows, true)) && deploys == old(deploys) + scoped
      ensures stored == StoreAll(old(stored), Touched(rows, true), true)
    {
      scoped := [];
      for n := 0 to |rows|
        invariant scoped == Ids(Touched(rows[..n], true)) && deploys == old(deploys) + scoped
        invariant stored == StoreAll(old(stored), Touched(rows[..n], true), true)
      {
        StoreOneMore(old(stored), rows, n, true);
        var did := ScopeOne(rows[n]);
        if did {
          scoped := scoped + [rows[n].id];
        }
      }
      assert rows[..|rows|] == rows;
    }

    // Take the marker off apps the static host no longer fronts. It reads before
    // it writes: an app without the marker is left completely alone.
    method UnscopeBackends(rows: seq<Row>) returns (unscoped: seq<string>)
      requires forall r | r in rows :: r.id in hosts
      modifies this`stored, this`deploys
      ensures unscoped == Ids(Touched(rows, false)) && deploys == old(deploys) + unscoped
      ensures stored == StoreAll(old(stored), Touched(rows, false), false)
    {
      unscoped := [];
      for n := 0 to |rows|
        invariant unscoped == Ids(Touched(rows[..n], false)) && deploys == old(deploys) + unscoped
        invariant stored == StoreAll(old(stored), Touched(rows[..n], false), false)
      {
        StoreOneMore(old(stored), rows, n, false);
        var did := UnscopeOne(rows[n]);
        if did {
          unscoped := unscoped + [rows[n].id];
        }
      }
      assert rows[..|rows|] == rows;
    }

    // An app that must never sleep and yet carries an enrolment.
    predicate NeedsUnenrol(app: string)
      requires app in hosts
    {
      && app in excluded && app in live && live[app] != map[] && IsEnrolled(live[app], app)
      && Outcome(app, false, false).Rewritten?
    }

    // An app that sleeps and has no container to wake, or one without its enrolment.
    predicate NeedsRepair(app: string)
      requires app in hosts
    {
      && app !in excluded
      && (if app !in live then app !in failing
          else live[app] != map[] && !IsEnrolled(live[app], app) && Outcome(app, true, true).Rewritten?)
    }

    function Unenrols(apps: seq<string>): (r: seq<string>)
      requires forall a | a in apps :: a in hosts
      ensures forall a :: a in r <==> a in apps && NeedsUnenrol(a)
    {
      if apps == [] then []
      else
        var n := |apps| - 1;
        assert apps == apps[..n] + [apps[n]];
        Unenrols(apps[..n]) + if NeedsUnenrol(apps[n]) then [apps[n]] else []
    }

    function Repairs(apps: seq<string>): (r: seq<string>)
      requires forall a | a in apps :: a in hosts
      ensures forall a :: a in r <==> a in apps && NeedsRepair(a)
    {
      if apps == [] then []
      else
        var n := |apps| - 1;
        assert apps == apps[..n] + [apps[n]];
        Repairs(apps[..n]) + if NeedsRepair(apps[n]) then [apps[n]] else []
    }

    // The label blocks after writing these apps in order. A container that is gone
    // is only deployed again.
    function StoreRepairs(was: map<string, Block>, apps: seq<string>): map<string, Block>
      requires forall a | a in apps :: a in hosts
    {
      if apps == [] then was
      else
        var a := apps[|apps| - 1];
        var before := StoreRepairs(was, apps[..|apps| - 1]);
        if a in live then before[a := Wanted(a, a !in excluded, a !in excluded)] else before
    }

    lemma RepairAppend(was: map<string, Block>, apps: seq<string>, a: string)
      requires a in hosts && forall x | x in apps :: x in hosts
      ensures forall x | x in apps + [a] :: x in hosts
      ensures StoreRepairs(was, apps + [a]) ==
              if a in live then StoreRepairs(was, apps)[a := Wanted(a, a !in excluded, a !in excluded)] else StoreRepairs(was, apps)
    {
      var all := apps + [a];
      assert all[..|all| - 1] == apps && all[|all| - 1] == a;
    }

    method UnenrolOne(a: string) returns (did: bool)
      requires a in hosts
      modifies this`stored, this`deploys
      ensures did == NeedsUnenrol(a) && deploys == old(deploys) + if did then [a] else []
      ensures stored == if did then old(stored)[a := Wanted(a, false, false)] else old(stored)
    {
      did := false;
      if a in excluded && a in live && live[a] != map[] && IsEnrolled(live[a], a) {
        var applied := ApplyBackendLabels(a, false, false);
        did := applied.Rewritten?;
      }
    }

    method RepairOne(a: string) returns (did: bool)
      requires a in hosts
      modifies this`stored, this`deploys
      ensures did == NeedsRepair(a) && deploys == old(deploys) + if did then [a] else []
      ensures stored == if did && a in live then old(stored)[a := Wanted(a, true, true)] else old(stored)
    {
      did := false;
      if a in excluded {
        return;
      }
      if a !in live {
        if a !in failing {
          deploys := deploys + [a];
          did := true;
        }
      } else if live[a] != map[] && !IsEnrolled(live[a], a) {
        var applied := ApplyBackendLabels(a, true, true);
        did := applied.Rewritten?;
      }
    }

    // Take the enrolment off apps that must never sleep ...
    method UnenrolExcluded(apps: seq<string>) returns (done: seq<string>)
      requires forall a | a in apps :: a in hosts
      modifies this`stored, this`deploys
      ensures done == Unenrols(apps) && deploys == old(deploys) + done
      ensures stored == StoreRepairs(old(stored), done)
    {
      done := [];
      for n := 0 to |apps|
        invariant done == Unenrols(apps[..n]) && deploys == old(deploys) + done
        invariant stored == StoreRepairs(old(stored), done)
      {
        assert apps[..n + 1][..n] == apps[..n];
        var did := UnenrolOne(apps[n]);
        if did {
          RepairAppend(old(stored), done, apps[n]);
          done := done + [apps[n]];
        }
      }
      assert apps[..|apps|] == apps;
    }

    // ... and put right those that sleep: a missing container is deployed anew, a
    // missing enrolment is written.
    method RepairSleepers(apps: seq<string>) returns (done: seq<string>)
      requires forall a | a in apps :: a in hosts
      modifies this`stored, this`deploys
      ensures done == Repairs(apps) && deploys == old(deploys) + done
      ensures stored == StoreRepairs(old(stored), done)
    {
      done := [];
      for n := 0 to |apps|
        invariant done == Repairs(apps[..n]) && deploys == old(deploys) + done
        invariant stored == StoreRepairs(old(stored), done)
      {
        assert apps[..n + 1][..n] == apps[..n];
        var did := RepairOne(apps[n]);
        if did {
          RepairAppend(old(stored), done, apps[n]);
          done := done + [apps[n]];
        }
      }
      assert apps[..|apps|] == apps;
    }

    // One repair sweep over the deployed apps and those of them that sleep.
    method Reconcile(apps: seq<string>, sleepers: seq<string>) returns (unenrolled: seq<string>, repaired: seq<string>)
      requires forall a | a in apps + sleepers :: a in hosts
      modifies this`stored, this`deploys
      ensures unenrolled == Unenrols(apps) && repaired == Repairs(sleepers)
      ensures deploys == old(deploys) + unenrolled + repaired
      ensures stored == StoreRepairs(StoreRepairs(old(stored), unenrolled), repaired)
    {
      forall a | a in apps || a in sleepers ensures a in hosts {
        assert a in apps + sleepers;
      }
      unenrolled := UnenrolExcluded(apps);
      repaired := RepairSleepers(sleepers);
    }

    // Make the static host's routers match the apps that need fronting, then each
    // backend's labels. `rest` are the deployed apps it does not front, `keys` the
    // static host's labels in the order they are listed.
    method Sync(rows: seq<Row>, rest: seq<Row>, keys: seq<string>, rollout: Rollout, scopeBackends: bool)
      returns (scoped: seq<string>, unscoped: seq<string>)
      requires forall r | r in rows + rest :: r.id in hosts && AppId(r.id)
      requires forall k :: k in keys <==> k in web
      modifies this
      // the routers come first: with a service name, and a verified redeploy that
      // carries what was stored for it, no app is scoped before its router is live
      ensures ServiceOf(keys).Some? && (rollout.verified ==> rollout.carries == StaticLabels(old(web), rows, hosts, ServiceOf(keys))) ==>
                forall a | a in scoped :: a in hosts && FrontRule(a) in web && web[FrontRule(a)] == HostTerm(hosts[a])
      // a static host that did not come back leaves every backend as it was
      ensures old(web) == map[] || (StaticLabels(old(web), rows, hosts, ServiceOf(keys)) != old(web) && !rollout.verified) ==>
                scoped == [] && unscoped == [] && stored == old(stored) && deploys == old(deploys)
      // the static host is only redeployed when its labels change
      ensures StaticLabels(old(web), rows, hosts, ServiceOf(keys)) == old(web) ==> web == old(web)
      // and past that point the passes do what each row asks for
      ensures deploys == old(deploys) + scoped + unscoped
      ensures scopeBackends && old(web) != map[]
              && (StaticLabels(old(web), rows, hosts, ServiceOf(keys)) == old(web) || rollout.verified) ==>
                && scoped == Ids(Touched(rows, true)) && unscoped == Ids(Touched(rest, false))
                && stored == StoreAll(StoreAll(old(stored), Touched(rows, true), true), Touched(rest, false), false)
      ensures !scopeBackends ==> scoped == [] && unscoped == []
    {
      scoped, unscoped := [], [];
      if web == map[] {
        return;
      }
      var service := ServiceOf(keys);
      var desired := StaticLabels(web, rows, hosts, service);
      if desired != web {
        var verified := DeployStaticHost(rollout);
        if !verified {
          return;
        }
      }
      if scopeBackends {
        scoped := ScopeBackends(rows);
        unscoped := UnscopeBackends(rest);
      }
      if service.Some? {
        forall a | a in Ids(rows) ensures FrontRule(a) in desired && desired[FrontRule(a)] == HostTerm(hosts[a]) {
          BuiltRouters(old(web), Ids(rows), hosts, service.value, a);
        }
      }
    }
  }

  lemma {:induction false} IdsAppend(rows: seq<Row>, r: Row)
    ensures Ids(rows + [r]) == Ids(rows) + [r.id]
  {
    if rows == [] {
      assert [] + [r] == [r];
    } else {
      assert (rows + [r])[1..] == rows[1..] + [r];
      IdsAppend(rows[1..], r);
    }
  }

  function Ids(rows: seq<Row>): (ids: seq<string>)
    ensures forall a :: a in ids <==> exists r | r in rows :: r.id == a
  {
    if rows == [] then []
    else
      assert rows == [rows[0]] + rows[1..];
      [rows[0].id] + Ids(rows[1..])
  }

  function StaticLabels(web: Block, rows: seq<Row>, hosts: map<string, seq<string>>, service: Option<string>): Block
    requires forall r | r in rows :: r.id in hosts
  {
    BuildLabels(web, Ids(rows), hosts, service)
  }

  // Without a service name the routers are taken away, not written: a sync that
  // went on to scope a backend would leave it with no router in front of it.
  lemma NoServiceNoRouters(web: Block, rows: seq<Row>, hosts: map<string, seq<string>>, a: string)
    requires forall r | r in rows :: r.id in hosts
    ensures FrontRule(a) !in StaticLabels(web, rows, hosts, None)
  {
    assert FE_PREFIX <= FrontRule(a);
  }

  // A backend that already carries what it should is never deployed again.
  lemma SettledIsUnchanged(p: Platform, app: string, sleeps: bool, fronted: bool, before: Block)
    requires app in p.hosts && app in p.live && p.live[app] != map[]
    requires ReadableBlock(before) && HostsOk(p.hosts[app]) && ',' !in app
    requires !fronted ==> !SomeOnlyMarkers(before)
    requires p.live[app] == Desired(before, app, p.hosts[app], sleeps && app !in p.excluded, fronted, p.cfg)
    ensures p.Outcome(app, sleeps, fronted) == Unchanged
  {
    WritesConverge(before, app, p.hosts[app], sleeps && app !in p.excluded, fronted, p.cfg);
  }

  // What the un-scoping pass writes no longer asks for the marker, so the pass
  // leaves that app alone the next time.
  lemma UnscopedLosesMarker(p: Platform, app: string, sleeps: bool)
    requires app in p.hosts && app in p.live
    requires ReadableBlock(p.live[app]) && !SomeOnlyMarkers(p.live[app]) && HostsOk(p.hosts[app])
    ensures !CarriesMarker(p.Wanted(app, sleeps, false))
  {
    var base := p.live[app];
    var d := if sleeps && app !in p.excluded then Enrolled(base, app, p.cfg) else Strip(base, app);
    RulesKept(base, app, p.cfg);
    forall k | k in Unscoped(d, p.hosts[app]) && IsRuleKey(k)
      ensures !Contains(Unscoped(d, p.hosts[app])[k], MARKER)
    {
      var c :| Reads(d[k], c);
      UnscopedIsUnmarked(c, p.hosts[app]);
    }
  }

  // An app that must never sleep never gets an enrolment written, even when its
  // row asks for one, and an enrolment it carries is taken off.
  lemma ExcludedStaysAwake(p: Platform, app: string, sleeps: bool, fronted: bool)
    requires app in p.hosts && app in p.live && app in p.excluded
    ensures !IsEnrolled(p.Wanted(app, sleeps, fronted), app)
  {
    var base := p.live[app];
    var d := Strip(base, app);
    EnrolmentShows(base, app, p.cfg);
    var lead := "traefik.http.middlewares." + Middleware(app) + ".";
    forall k | k in p.Wanted(app, sleeps, fronted) && (lead <= k || k == "sablier.group")
      ensures k in d && d[k] == p.Wanted(app, sleeps, fronted)[k]
    {
      ScopedHas(d, p.hosts[app], k);
      NotRouter(lead, k);
    }
  }

  // A router of an app that may sleep goes through its middleware: what is written
  // for it puts that first in the chain and keeps the others in order, whatever
  // becomes of the rules.
  lemma SleeperGoesThroughPlugin(p: Platform, app: string, fronted: bool, k: string)
    requires app in p.hosts && app in p.live && app !in p.excluded && ',' !in app
    requires k in p.live[app] && Contains(k, ".routers.") && EndsWith(k, ".middlewares")
    requires !Contains(k, ".middlewares.sablier-" + app + ".") && OtherMiddlewares(p.live[app][k], app) != []
    ensures var written := p.Wanted(app, true, fronted);
            k in written && Split(written[k], ',') == ["sablier-" + app] + OtherMiddlewares(p.live[app][k], app)
  {
    var base := Enrolled(p.live[app], app, p.cfg);
    ChainExactly(p.live[app], app, p.cfg, k);
    NotRuleOrPriority(k);
    ScopedHas(base, p.hosts[app], k);
  }

  lemma NotRuleOrPriority(k: string)
    requires EndsWith(k, ".middlewares")
    ensures !IsRuleKey(k) && !IsPriorityKey(k)
  {
    LastChars(k);
  }

  // A repair that has landed is not made again.
  lemma RepairsOnce(p: Platform, later: Platform, app: string)
    requires app in p.hosts && app in p.live && app in later.hosts && app in later.live && ',' !in app
    requires later.excluded == p.excluded
    requires later.live[app] == p.Wanted(app, app !in p.excluded, app !in p.excluded)
    ensures !later.NeedsUnenrol(app) && !later.NeedsRepair(app)
  {
    if app in p.excluded {
      ExcludedStaysAwake(p, app, false, false);
    } else {
      SleeperIsEnrolled(p, app);
    }
  }

  // The sweep acts on exactly the containers whose enrolment is not what the
  // exclusion list asks for, as long as the platform takes the write.
  lemma SweepRepairsDrift(p: Platform, app: string)
    requires app in p.hosts && app in p.live && p.live[app] != map[] && ',' !in app
    ensures p.NeedsUnenrol(app) || p.NeedsRepair(app) <==>
            app !in p.failing && (IsEnrolled(p.live[app], app) <==> app in p.excluded)
  {
    if app in p.excluded {
      ExcludedStaysAwake(p, app, false, false);
    } else {
      SleeperIsEnrolled(p, app);
    }
  }

  // An app that may sleep is written with its enrolment.
  lemma SleeperIsEnrolled(p: Platform, app: string)
    requires app in p.hosts && app in p.live && app !in p.excluded && ',' !in app
    ensures IsEnrolled(p.Wanted(app, true, true), app)
  {
    var base := Enrolled(p.live[app], app, p.cfg);
    EnrolmentShows(p.live[app], app, p.cfg);
    EnrolmentKept(base, app, p.hosts[app]);
  }

  // Scoping leaves an enrolment in place.
  lemma EnrolmentKept(labels: Block, app: string, hosts: seq<string>)
    requires IsEnrolled(labels, app)
    ensures IsEnrolled(Scoped(labels, hosts), app)
  {
    var lead := "traefik.http.middlewares." + Middleware(app) + ".";
    var k :| k in labels && lead <= k;
    ScopedHas(labels, hosts, k);
    ScopedHas(labels, hosts, "sablier.group");
    NotRouter(lead, k);
    NotRouter(lead, "sablier.group");
  }

  // ----- from label writes to routing -----

  // What a label write leaves on a container is a block the routing theorems speak of.
  lemma LandedIsWritten(before: Block, id: string, app: App, sleeps: bool, cfg: Config)
    requires ReadableBlock(before)
    requires app.labels == Desired(before, id, app.hosts, sleeps, app.fronted, cfg)
    ensures Written(app)
  {
    RulesKept(before, id, cfg);
    var base := if sleeps then Enrolled(before, id, cfg) else Strip(before, id);
    assert WrittenFrom(app, base);
  }

  // Once a sync's routers are live and the labels written for each running app have
  // landed, routing is settled: so clients reach the static host, its forwards reach
  // the containers, and nothing goes round twice.
  lemma SyncedWorldIsSettled(w: World, current: Block, rows: seq<Row>, hosts: map<string, seq<string>>, service: string,
                             before: map<string, Block>, sleeping: set<string>, cfg: Config)
    requires HostsApart(w) && OwnRoutersApart(w, current) && Lists(w, Ids(rows), hosts)
    requires forall r | r in rows :: r.id in hosts
    requires w.web == StaticLabels(current, rows, hosts, Some(service))
    requires forall a | a in w.apps && w.apps[a].running ::
      a in before && ReadableBlock(before[a])
      && w.apps[a].labels == Desired(before[a], a, w.apps[a].hosts, a in sleeping, w.apps[a].fronted, cfg)
    ensures Settled(w)
  {
    forall a | a in w.apps && w.apps[a].running ensures Written(w.apps[a]) {
      LandedIsWritten(before[a], a, w.apps[a], a in sleeping, cfg);
    }
    DerivedWorldIsSettled(w, current, Ids(rows), hosts, service);
  }

  lemma NotRouter(lead: string, k: string)
    requires "traefik.http.middlewares." <= lead
    requires lead <= k || k == "sablier.group"
    ensures !(ROUTERS <= k)
  {
    if lead <= k {
      assert k[13] == lead[13] == 'm';
      assert ROUTERS[13] == 'r';
    }
  }
}
