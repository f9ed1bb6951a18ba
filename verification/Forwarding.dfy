// Two routers share a fronted app's hostname: the static host's, and the app's
// own, which also asks for the marker header. Which one Traefik picks, and why a
// forwarded request cannot go round in circles.

module Forwarding {
  import opened Text
  import opened TraefikRule
  import opened HostRewrite
  import opened RuleLaws
  import opened Labels
  import opened LabelLaws
  import SH = StaticHost

  // ----- the static host's routers -----

  const FE_PREFIX := "traefik.http.routers.fe-"

  function FrontKey(app: string, field: string): string {
    FE_PREFIX + app + field
  }

  function FrontRule(app: string): string {
    FrontKey(app, ".rule")
  }

  // One router per fronted app, listing every hostname it answers on.
  function FrontLabels(app: string, hosts: seq<string>, service: string): Block {
    map[FrontKey(app, ".rule") := HostTerm(hosts),
        FrontKey(app, ".entryPoints") := "http",
        FrontKey(app, ".service") := service,
        FrontKey(app, ".middlewares") := "gzip"]
  }

  predicate IsPortKey(k: string) {
    "traefik.http.services." <= k && EndsWith(k, ".loadbalancer.server.port")
  }

  // The static host's own service, by the first of its labels that names one; a name
  // that is empty is none.
  function ServiceOf(keys: seq<string>): Option<string> {
    if keys == [] then None
    else if !IsPortKey(keys[0]) then ServiceOf(keys[1..])
    else
      var k, lead, tail := keys[0], |"traefik.http.services."|, |".loadbalancer.server.port"|;
      if lead < |k| - tail then Some(k[lead..|k| - tail]) else None
  }

  lemma PortKeyOf(name: string)
    ensures var k := "traefik.http.services." + name + ".loadbalancer.server.port";
            IsPortKey(k) && k[|"traefik.http.services."|..|k| - |".loadbalancer.server.port"|] == name
  {
    var lead, tail := "traefik.http.services.", ".loadbalancer.server.port";
    Assoc(lead, name, tail);
    assert (lead + name + tail)[|lead + name|..] == tail;
    assert (lead + name + tail)[..|lead + name|] == lead + name;
  }

  // With at most one label that names a service, it is the one named.
  lemma {:induction false} ServiceExactly(keys: seq<string>, name: string)
    requires forall i, j | 0 <= i < j < |keys| :: !(IsPortKey(keys[i]) && IsPortKey(keys[j]))
    ensures ServiceOf(keys) == Some(name) <==>
            name != "" && ("traefik.http.services." + name + ".loadbalancer.server.port") in keys
  {
    var key := "traefik.http.services." + name + ".loadbalancer.server.port";
    PortKeyOf(name);
    if keys != [] {
      var rest := keys[1..];
      assert keys == [keys[0]] + rest;
      if IsPortKey(keys[0]) {
        assert forall i | 0 <= i < |rest| :: rest[i] == keys[i + 1] && !IsPortKey(rest[i]);
        if |"traefik.http.services."| < |keys[0]| - |".loadbalancer.server.port"| {
          PortKeyShape(keys[0]);
        }
        assert name != "" ==> |"traefik.http.services."| < |key| - |".loadbalancer.server.port"|;
      } else {
        forall i, j | 0 <= i < j < |rest| ensures !(IsPortKey(rest[i]) && IsPortKey(rest[j])) {
          assert rest[i] == keys[i + 1] && rest[j] == keys[j + 1];
        }
        ServiceExactly(rest, name);
      }
    }
  }

  lemma PortKeyShape(k: string)
    requires IsPortKey(k) && |"traefik.http.services."| < |k| - |".loadbalancer.server.port"|
    ensures k == "traefik.http.services." + k[|"traefik.http.services."|..|k| - |".loadbalancer.server.port"|] + ".loadbalancer.server.port"
  {}

  function WithoutGenerated(labels: Block): Block {
    map k | k in labels && !(FE_PREFIX <= k) :: labels[k]
  }

  function FrontRouters(apps: seq<string>, hosts: map<string, seq<string>>, service: string): Block
    requires forall a | a in apps :: a in hosts
  {
    if apps == [] then map[]
    else FrontRouters(apps[..|apps| - 1], hosts, service) + FrontLabels(apps[|apps| - 1], hosts[apps[|apps| - 1]], service)
  }

  // The static host's labels for a set of fronted apps. Without a service name
  // the routers are not written.
  function BuildLabels(current: Block, apps: seq<string>, hosts: map<string, seq<string>>, service: Option<string>): Block
    requires forall a | a in apps :: a in hosts
  {
    if service.None? then WithoutGenerated(current)
    else WithoutGenerated(current) + FrontRouters(apps, hosts, service.value)
  }

  predicate IsField(f: string) {
    f == ".rule" || f == ".entryPoints" || f == ".service" || f == ".middlewares"
  }

  lemma FieldDot(f: string)
    requires IsField(f)
    ensures f != "" && f[0] == '.'
  {}

  // An app id is a slug.
  predicate AppId(app: string) {
    app != "" && '.' !in app
  }

  lemma FrontKeySplit(a: string, f: string, b: string, g: string)
    requires AppId(a) && AppId(b) && f != "" && f[0] == '.' && g != "" && g[0] == '.'
    requires FrontKey(a, f) == FrontKey(b, g)
    ensures a == b && f == g
  {
    var k := FrontKey(a, f);
    var n := |FE_PREFIX|;
    assert k[n..] == a + f && FrontKey(b, g)[n..] == b + g;
    IndexOfAfter(a, f, '.');
    IndexOfAfter(b, g, '.');
    assert |a| == |b|;
    assert a == (a + f)[..|a|] && b == (b + g)[..|b|];
    assert f == (a + f)[|a|..] && g == (b + g)[|b|..];
  }

  function FieldValue(f: string, hosts: seq<string>, service: string): string {
    if f == ".rule" then HostTerm(hosts) else if f == ".entryPoints" then "http"
    else if f == ".service" then service else "gzip"
  }

  lemma FrontLabelsHave(app: string, hosts: seq<string>, service: string, f: string)
    requires AppId(app) && IsField(f)
    ensures FrontKey(app, f) in FrontLabels(app, hosts, service)
    ensures FrontLabels(app, hosts, service)[FrontKey(app, f)] == FieldValue(f, hosts, service)
  {
    if FrontKey(app, f) == FrontKey(app, ".middlewares") { FrontKeySplit(app, f, app, ".middlewares"); }
    else if FrontKey(app, f) == FrontKey(app, ".service") { FrontKeySplit(app, f, app, ".service"); }
    else if FrontKey(app, f) == FrontKey(app, ".entryPoints") { FrontKeySplit(app, f, app, ".entryPoints"); }
  }

  // Which app and field a generated label belongs to.
  lemma {:induction false} FrontRoutersOnly(apps: seq<string>, hosts: map<string, seq<string>>, service: string, k: string)
    returns (a: string, f: string)
    requires forall x | x in apps :: x in hosts
    requires k in FrontRouters(apps, hosts, service)
    ensures a in apps && IsField(f) && k == FrontKey(a, f)
  {
    var last := apps[|apps| - 1];
    if k in FrontLabels(last, hosts[last], service) {
      a := last;
      f :| IsField(f) && k == FrontKey(last, f);
    } else {
      a, f := FrontRoutersOnly(apps[..|apps| - 1], hosts, service, k);
    }
  }

  lemma {:induction false} FrontRoutersHave(apps: seq<string>, hosts: map<string, seq<string>>, service: string,
                                            a: string, f: string)
    requires forall x | x in apps :: x in hosts && AppId(x)
    requires a in apps && IsField(f)
    ensures FrontKey(a, f) in FrontRouters(apps, hosts, service)
    ensures FrontRouters(apps, hosts, service)[FrontKey(a, f)] == FieldValue(f, hosts[a], service)
  {
    var last := apps[|apps| - 1];
    var k := FrontKey(a, f);
    if a == last {
      FrontLabelsHave(a, hosts[a], service, f);
    } else {
      FrontRoutersHave(apps[..|apps| - 1], hosts, service, a, f);
      if k in FrontLabels(last, hosts[last], service) {
        var g :| IsField(g) && k == FrontKey(last, g);
        FieldDot(g);
        FrontKeySplit(a, f, last, g);
      }
    }
  }

  // A fronted app's router matches its hosts and has no priority of its own; a
  // router of an app that is no longer fronted is gone.
  lemma BuiltRouters(current: Block, apps: seq<string>, hosts: map<string, seq<string>>, service: string, a: string)
    requires forall x | x in apps :: x in hosts && AppId(x)
    requires AppId(a)
    ensures var built := BuildLabels(current, apps, hosts, Some(service));
            && (FrontRule(a) in built <==> a in apps)
            && (a in apps ==> built[FrontRule(a)] == HostTerm(hosts[a]))
            && FrontKey(a, ".priority") !in built
  {
    assert FE_PREFIX <= FrontRule(a) && FE_PREFIX <= FrontKey(a, ".priority");
    var routers := FrontRouters(apps, hosts, service);
    if a in apps {
      FrontRoutersHave(apps, hosts, service, a, ".rule");
    } else if FrontRule(a) in routers {
      var b, f := FrontRoutersOnly(apps, hosts, service, FrontRule(a));
      FrontKeySplit(b, f, a, ".rule");
    }
    if FrontKey(a, ".priority") in routers {
      var b, f := FrontRoutersOnly(apps, hosts, service, FrontKey(a, ".priority"));
      FrontKeySplit(b, f, a, ".priority");
    }
  }

  // The static host's derived block, label by label: its own labels as they were, and
  // besides them nothing but labels of the fronted apps' routers ...
  lemma BuiltOnly(current: Block, apps: seq<string>, hosts: map<string, seq<string>>, service: string, k: string)
    requires forall x | x in apps :: x in hosts && AppId(x)
    ensures var built := BuildLabels(current, apps, hosts, Some(service));
            && (!("traefik.http.routers.fe-" <= k) ==>
                  (k in built <==> k in current) && (k in built ==> built[k] == current[k]))
            && ("traefik.http.routers.fe-" <= k && k in built ==> exists a :: a in apps && RouterLabel(a, k))
  {
    if k in FrontRouters(apps, hosts, service) {
      var a, f := FrontRoutersOnly(apps, hosts, service, k);
      assert FE_PREFIX <= k && RouterLabel(a, k);
    }
  }

  // Without a service name only the generated labels are taken away.
  lemma BuiltNone(current: Block, apps: seq<string>, hosts: map<string, seq<string>>, k: string)
    requires forall x | x in apps :: x in hosts
    ensures var built := BuildLabels(current, apps, hosts, None);
            && (k in built <==> k in current && !("traefik.http.routers.fe-" <= k))
            && (k in built ==> built[k] == current[k])
  {}

  // ... of which each fronted app has all four.
  lemma BuiltRouter(current: Block, apps: seq<string>, hosts: map<string, seq<string>>, service: string, a: string)
    requires (forall x | x in apps :: x in hosts && AppId(x)) && a in apps
    ensures var (built, r) := (BuildLabels(current, apps, hosts, Some(service)), "traefik.http.routers.fe-" + a);
            && r + ".rule" in built && built[r + ".rule"] == HostTerm(hosts[a])
            && r + ".entryPoints" in built && built[r + ".entryPoints"] == "http"
            && r + ".service" in built && built[r + ".service"] == service
            && r + ".middlewares" in built && built[r + ".middlewares"] == "gzip"
  {
    FrontRoutersHave(apps, hosts, service, a, ".rule");
    FrontRoutersHave(apps, hosts, service, a, ".entryPoints");
    FrontRoutersHave(apps, hosts, service, a, ".service");
    FrontRoutersHave(apps, hosts, service, a, ".middlewares");
    assert ".rule" != ".entryPoints" && ".service" != ".rule" && ".service" != ".entryPoints";
    assert ".middlewares" != ".rule" && ".middlewares" != ".entryPoints" && ".middlewares" != ".service";
  }

  predicate RouterLabel(app: string, k: string) {
    var r := "traefik.http.routers.fe-" + app;
    k == r + ".rule" || k == r + ".entryPoints" || k == r + ".service" || k == r + ".middlewares"
  }

  // Deriving the routers again from their own output changes nothing, so a sync
  // with nothing new restarts nothing.
  lemma BuildTwice(current: Block, apps: seq<string>, hosts: map<string, seq<string>>, service: string)
    requires forall x | x in apps :: x in hosts && AppId(x)
    ensures BuildLabels(BuildLabels(current, apps, hosts, Some(service)), apps, hosts, Some(service))
            == BuildLabels(current, apps, hosts, Some(service))
  {
    var built := BuildLabels(current, apps, hosts, Some(service));
    forall k ensures k in WithoutGenerated(built) <==> k in WithoutGenerated(current) {
      if k in FrontRouters(apps, hosts, service) {
        var a, f := FrontRoutersOnly(apps, hosts, service, k);
        assert FE_PREFIX <= k;
      }
    }
  }

  // ----- which router answers -----

  // Traefik ranks by explicit priority, else by the length of the rule.
  function Rank(labels: Block, k: string): nat
    requires k in labels && EndsWith(k, ".rule")
  {
    var p := PriorityKey(k);
    if p in labels && AllDigits(labels[p]) && ToNat(labels[p]) > 0 then ToNat(labels[p]) else |labels[k]|
  }

  // A priority of zero is as none.
  lemma RankExactly(labels: Block, k: string)
    requires k in labels && EndsWith(k, ".rule")
    ensures PriorityKey(k) !in labels ==> Rank(labels, k) == |labels[k]|
    ensures PriorityKey(k) in labels && labels[PriorityKey(k)] == "0" ==> Rank(labels, k) == |labels[k]|
    ensures PriorityKey(k) in labels && labels[PriorityKey(k)] == "1" ==> Rank(labels, k) == 1
  {
    assert "0"[..0] == "" && "1"[..0] == "" && ToNat("") == 0;
    assert ToNat("0") == 0 && ToNat("1") == 1;
  }

  datatype App = App(hosts: seq<string>, fronted: bool, running: bool, labels: Block)

  // The static host always runs; a stopped container has no routers.
  datatype World = World(web: Block, apps: map<string, App>)

  datatype Owner = Web | Backend(app: string)

  predicate Exists(w: World, o: Owner) {
    o.Web? || (o.app in w.apps && w.apps[o.app].running)
  }

  function BlockOf(w: World, o: Owner): Block
    requires Exists(w, o)
  {
    if o.Web? then w.web else w.apps[o.app].labels
  }

  predicate Answers(w: World, o: Owner, k: string, q: Request) {
    Exists(w, o) && k in BlockOf(w, o) && IsRuleKey(k) && Matches(BlockOf(w, o)[k], q)
  }

  // Traefik may pick this router: none that matches outranks it.
  ghost predicate Picks(w: World, q: Request, o: Owner, k: string) {
    && Answers(w, o, k, q)
    && forall p, j :: Answers(w, p, j, q) ==> Rank(BlockOf(w, p), j) <= Rank(BlockOf(w, o), k)
  }

  predicate FrontLive(w: World, a: string)
    requires a in w.apps
  {
    && FrontRule(a) in w.web && w.web[FrontRule(a)] == HostTerm(w.apps[a].hosts)
    && FrontKey(a, ".priority") !in w.web
  }

  predicate FrontsLive(w: World) {
    forall a | a in w.apps && w.apps[a].fronted :: FrontLive(w, a)
  }

  // No other router of the static host matches a hosted app.
  ghost predicate NoOtherFronts(w: World) {
    forall k, q, a | HostClaims(w, k, q, a) :: w.apps[a].fronted && k == FrontRule(a)
  }

  // A rule of the static host's own block matches a request to this app.
  predicate HostClaims(w: World, k: string, q: Request, a: string) {
    && k in w.web && IsRuleKey(k)
    && a in w.apps && q.host in w.apps[a].hosts && Matches(w.web[k], q)
  }

  // The labels the platform has written are the labels the containers carry.
  ghost predicate Settled(w: World) {
    && HostsApart(w) && FrontsLive(w) && NoOtherFronts(w)
    && (forall a | a in w.apps && w.apps[a].running :: Written(w.apps[a]))
  }

  ghost predicate Written(app: App) {
    exists base: Block :: WrittenFrom(app, base)
  }

  ghost predicate WrittenFrom(app: App, base: Block) {
    && ReadableBlock(base)
    && app.labels == if app.fronted then Scoped(base, app.hosts) else Unscoped(base, app.hosts)
  }

  ghost predicate HostsApart(w: World) {
    && (forall a | a in w.apps :: HostsOk(w.apps[a].hosts) && AppId(a))
    && (forall a, b, h | a in w.apps && b in w.apps && h in w.apps[a].hosts && h in w.apps[b].hosts :: a == b)
  }

  // The static host's own routers match no hosted app.
  ghost predicate OwnRoutersApart(w: World, current: Block) {
    forall k, q: Request, a | k in WithoutGenerated(current) && IsRuleKey(k) && a in w.apps
      && q.host in w.apps[a].hosts :: !Matches(current[k], q)
  }

  predicate Lists(w: World, fronted: seq<string>, hosts: map<string, seq<string>>) {
    && (forall a | a in fronted :: a in w.apps && w.apps[a].fronted && a in hosts && hosts[a] == w.apps[a].hosts)
    && (forall a | a in w.apps && w.apps[a].fronted :: a in fronted)
  }

  lemma DerivedRouter(w: World, current: Block, fronted: seq<string>, hosts: map<string, seq<string>>, service: string,
                      k: string, q: Request, a: string)
    requires HostsApart(w) && OwnRoutersApart(w, current) && Lists(w, fronted, hosts)
    requires w.web == BuildLabels(current, fronted, hosts, Some(service))
    requires HostClaims(w, k, q, a)
    ensures w.apps[a].fronted && k == FrontRule(a)
  {
    if k in FrontRouters(fronted, hosts, service) {
      var b := GeneratedRouter(current, fronted, hosts, service, k, q);
      assert b in w.apps && q.host in w.apps[b].hosts;
    }
  }

  // The routers BuildLabels derives, next to routers of the static host's own that
  // match no hosted app, and blocks written for the apps, make a settled world.
  lemma DerivedWorldIsSettled(w: World, current: Block, fronted: seq<string>, hosts: map<string, seq<string>>, service: string)
    requires HostsApart(w) && OwnRoutersApart(w, current) && Lists(w, fronted, hosts)
    requires w.web == BuildLabels(current, fronted, hosts, Some(service))
    requires forall a | a in w.apps && w.apps[a].running :: Written(w.apps[a])
    ensures Settled(w)
  {
    DerivedFronts(w, current, fronted, hosts, service);
    DerivedOnly(w, current, fronted, hosts, service);
  }

  lemma DerivedFronts(w: World, current: Block, fronted: seq<string>, hosts: map<string, seq<string>>, service: string)
    requires HostsApart(w) && Lists(w, fronted, hosts)
    requires w.web == BuildLabels(current, fronted, hosts, Some(service))
    ensures FrontsLive(w)
  {
    forall a | a in w.apps && w.apps[a].fronted ensures FrontLive(w, a) {
      BuiltRouters(current, fronted, hosts, service, a);
    }
  }

  lemma DerivedOnly(w: World, current: Block, fronted: seq<string>, hosts: map<string, seq<string>>, service: string)
    requires HostsApart(w) && OwnRoutersApart(w, current) && Lists(w, fronted, hosts)
    requires w.web == BuildLabels(current, fronted, hosts, Some(service))
    ensures NoOtherFronts(w)
  {
    forall k, q, a | HostClaims(w, k, q, a) ensures w.apps[a].fronted && k == FrontRule(a) {
      DerivedRouter(w, current, fronted, hosts, service, k, q, a);
    }
  }

  // A generated router that matches is the one of the app that owns the host.
  lemma GeneratedRouter(current: Block, fronted: seq<string>, hosts: map<string, seq<string>>, service: string,
                        k: string, q: Request) returns (b: string)
    requires forall a | a in fronted :: a in hosts && AppId(a) && HostsOk(hosts[a])
    requires k in FrontRouters(fronted, hosts, service) && IsRuleKey(k)
    requires Matches(BuildLabels(current, fronted, hosts, Some(service))[k], q)
    ensures b in fronted && k == FrontRule(b) && q.host in hosts[b]
  {
    var f;
    b, f := FrontRoutersOnly(fronted, hosts, service, k);
    RuleFieldOnly(b, f);
    BuiltRouters(current, fronted, hosts, service, b);
    HostTermMatches(hosts[b], q);
  }

  lemma RuleFieldOnly(b: string, f: string)
    requires IsField(f) && IsRuleKey(FrontKey(b, f))
    ensures f == ".rule"
  {
    var k := FrontKey(b, f);
    assert k[|k| - 5..][4] == k[|k| - 1] == f[|f| - 1] && k[|k| - 5..][3] == k[|k| - 2] == f[|f| - 2];
  }

  lemma HostTermMatches(hosts: seq<string>, q: Request)
    requires HostsOk(hosts)
    ensures Matches(HostTerm(hosts), q) <==> q.host in hosts
  {
    HostTermPrinted(hosts);
    HostExprWf(hosts);
    HostMeaning(hosts, q);
    RuleMeaning([HostExpr(hosts)], q);
    assert RuleText([HostExpr(hosts)]) == HostTerm(hosts) + "" == HostTerm(hosts);
  }

  predicate Marked(q: Request) {
    (HEADER_NAME, HEADER_TOKEN) in q.headers
  }

  function WithMarker(q: Request): Request {
    q.(headers := q.headers + {(HEADER_NAME, HEADER_TOKEN)})
  }

  lemma FrontMatches(w: World, a: string, q: Request)
    requires Settled(w) && a in w.apps && w.apps[a].fronted && q.host in w.apps[a].hosts
    ensures Answers(w, Web, FrontRule(a), q)
    ensures Rank(w.web, FrontRule(a)) == |HostTerm(w.apps[a].hosts)|
  {
    var hosts := w.apps[a].hosts;
    HostTermMatches(hosts, q);
  }

  lemma HundredIs100()
    ensures AllDigits(BACKEND_PRIORITY) && ToNat(BACKEND_PRIORITY) == 100
  {
    assert "100"[..2] == "10" && "10"[..1] == "1" && "1"[..0] == "";
    assert ToNat("1") == 1 && ToNat("10") == 10;
  }

  // An app's own router answers only that app's hosts; behind the static host it
  // also asks for the marker, and its priority is fixed.
  lemma BackendAnswers(w: World, b: string, k: string, q: Request)
    requires Settled(w) && Answers(w, Backend(b), k, q)
    ensures q.host in w.apps[b].hosts
    ensures w.apps[b].fronted ==> Marked(q) && Rank(w.apps[b].labels, k) == 100
  {
    var app := w.apps[b];
    var base: Block :| WrittenFrom(app, base);
    if app.fronted {
      ScopedAnswers(base, app.hosts, k, q);
    } else {
      var c :| Reads(base[k], c);
      UnscopedMeaning(c, app.hosts, q);
    }
  }

  lemma ScopedAnswers(base: Block, hosts: seq<string>, k: string, q: Request)
    requires ReadableBlock(base) && HostsOk(hosts) && IsRuleKey(k)
    requires k in Scoped(base, hosts) && Matches(Scoped(base, hosts)[k], q)
    ensures q.host in hosts && Marked(q) && Rank(Scoped(base, hosts), k) == 100
  {
    NotBoth(k);
    ScopedHas(base, hosts, k);
    var c :| Reads(base[k], c);
    ScopedRouter(base, k, hosts);
    ScopedMeaning(c, hosts, q);
    HundredIs100();
  }

  // A client's request for a fronted app reaches the static host, and no router
  // but that app's is a candidate.
  lemma ClientReachesStaticHost(w: World, a: string, q: Request, o: Owner, k: string)
    requires Settled(w) && a in w.apps && w.apps[a].fronted && q.host in w.apps[a].hosts && !Marked(q)
    ensures Picks(w, q, o, k) <==> o == Web && k == FrontRule(a)
  {
    FrontMatches(w, a, q);
    forall p, j | Answers(w, p, j, q) ensures p == Web && j == FrontRule(a) {
      if p.Backend? {
        BackendAnswers(w, p.app, j, q);
      } else {
        assert HostClaims(w, j, q, a);
      }
    }
  }

  // The app's own container has a router this request meets.
  ghost predicate BackendTakes(w: World, a: string, q: Request) {
    exists k :: Answers(w, Backend(a), k, q)
  }

  // A router of these labels asks for nothing the request does not have, its host
  // aside.
  ghost predicate Takes(base: Block, q: Request) {
    exists k, c :: k in base && IsRuleKey(k) && Reads(base[k], c) && AllHold(Others(c), q)
  }

  // The container has a router for a marked request to one of its hosts exactly
  // when it runs and the labels it was written from held one whose other
  // conditions the request meets.
  lemma BackendTakesExactly(w: World, a: string, q: Request, base: Block)
    requires a in w.apps && w.apps[a].fronted && HostsOk(w.apps[a].hosts) && q.host in w.apps[a].hosts && Marked(q)
    requires w.apps[a].running ==> WrittenFrom(w.apps[a], base)
    ensures BackendTakes(w, a, q) <==> w.apps[a].running && Takes(base, q)
  {
    var app := w.apps[a];
    if app.running {
      if Takes(base, q) {
        var k := TakesRouter(base, app.hosts, q);
        assert Answers(w, Backend(a), k, q);
      }
      if BackendTakes(w, a, q) {
        var k :| Answers(w, Backend(a), k, q);
        RouterTakes(base, app.hosts, k, q);
      }
    }
  }

  lemma TakesRouter(base: Block, hosts: seq<string>, q: Request) returns (k: string)
    requires ReadableBlock(base) && HostsOk(hosts) && q.host in hosts && Marked(q) && Takes(base, q)
    ensures IsRuleKey(k) && k in Scoped(base, hosts) && Matches(Scoped(base, hosts)[k], q)
  {
    var c;
    k, c :| k in base && IsRuleKey(k) && Reads(base[k], c) && AllHold(Others(c), q);
    ScopedRouter(base, k, hosts);
    ScopedMeaning(c, hosts, q);
  }

  lemma RouterTakes(base: Block, hosts: seq<string>, k: string, q: Request)
    requires ReadableBlock(base) && HostsOk(hosts) && IsRuleKey(k)
    requires k in Scoped(base, hosts) && Matches(Scoped(base, hosts)[k], q)
    ensures Takes(base, q)
  {
    NotBoth(k);
    ScopedHas(base, hosts, k);
    var c :| Reads(base[k], c);
    ScopedRouter(base, k, hosts);
    ScopedMeaning(c, hosts, q);
  }

  // The marked copy of a request reaches the app's container exactly when that is
  // running with a router whose other conditions the request meets, and the static
  // host's rule is shorter than the backend priority. At equal rank Traefik may
  // pick either.
  lemma MarkedCopyReachesBackend(w: World, a: string, q: Request, base: Block)
    requires Settled(w) && a in w.apps && w.apps[a].fronted && q.host in w.apps[a].hosts && Marked(q)
    requires w.apps[a].running ==> WrittenFrom(w.apps[a], base)
    ensures (forall o, k :: Picks(w, q, o, k) ==> o == Backend(a))
            <==> w.apps[a].running && Takes(base, q) && |HostTerm(w.apps[a].hosts)| < 100
    ensures !w.apps[a].running || !Takes(base, q) || |HostTerm(w.apps[a].hosts)| > 100 ==>
              forall o, k :: Picks(w, q, o, k) <==> o == Web && k == FrontRule(a)
  {
    BackendTakesExactly(w, a, q, base);
    OneOfTwo(w, a, q);
  }

  lemma OneOfTwo(w: World, a: string, q: Request)
    requires Settled(w) && a in w.apps && w.apps[a].fronted && q.host in w.apps[a].hosts && Marked(q)
    ensures (forall o, k :: Picks(w, q, o, k) ==> o == Backend(a))
            <==> BackendTakes(w, a, q) && |HostTerm(w.apps[a].hosts)| < 100
    ensures !BackendTakes(w, a, q) || |HostTerm(w.apps[a].hosts)| > 100 ==>
              forall o, k :: Picks(w, q, o, k) <==> o == Web && k == FrontRule(a)
  {
    FrontMatches(w, a, q);
    forall p, j | Answers(w, p, j, q)
      ensures (p == Web && j == FrontRule(a)) || (p == Backend(a) && Rank(BlockOf(w, p), j) == 100)
    {
      if p.Backend? {
        BackendAnswers(w, p.app, j, q);
      } else {
        assert HostClaims(w, j, q, a);
      }
    }
    if |HostTerm(w.apps[a].hosts)| >= 100 || !BackendTakes(w, a, q) {
      assert Picks(w, q, Web, FrontRule(a));
    }
  }

  // Two custom domains of ordinary length are enough to outgrow the priority.
  lemma LongRuleExample()
    ensures var hosts := ["shop-coolify.bogdanripa.com", "shop.example-company.com", "www.shop.example-company.com"];
            HostsOk(hosts) && |HostTerm(hosts)| > 100
  {
    var hosts := ["shop-coolify.bogdanripa.com", "shop.example-company.com", "www.shop.example-company.com"];
    var rest := ["shop.example-company.com", "www.shop.example-company.com"];
    var last := ["www.shop.example-company.com"];
    assert hosts[1..] == rest && rest[1..] == last;
    assert |HostCalls(last)| == 8 + |last[0]| == 36;
    assert |HostCalls(rest)| == 8 + |rest[0]| + 4 + 36;
    assert |HostCalls(hosts)| == 8 + |hosts[0]| + 4 + |HostCalls(rest)|;
    assert HostOk(hosts[0]) && HostOk(rest[0]) && HostOk(last[0]);
  }

  // ----- the forwarding chain -----

  // A request and the routers it meets: every hop but the last is the static host
  // forwarding its marked copy. The world may change between hops. `incoming` is
  // the request as the static host reads it and `answer` what it gives.
  datatype Hop = Hop(world: World, owner: Owner, key: string, incoming: SH.Incoming, app: Option<string>,
                     self: string, site: Option<SH.Site>, mf: SH.Manifest, answer: SH.Answer)

  ghost predicate Handled(q: Request, h: Hop) {
    h.incoming.marked == Marked(q) && SH.MayAnswer(h.incoming, h.app, h.self, h.site, h.mf, h.answer)
  }

  ghost predicate Forwarded(h: Hop) {
    h.owner == Web && SH.Forwards(h.incoming, h.app, h.self, h.site, h.mf)
  }

  ghost predicate Chain(q: Request, hops: seq<Hop>)
    decreases |hops|
  {
    hops != [] ==>
      && Picks(hops[0].world, q, hops[0].owner, hops[0].key)
      && (hops[0].owner == Web ==> Handled(q, hops[0]))
      && (|hops| > 1 ==> Forwarded(hops[0]) && Chain(WithMarker(q), hops[1..]))
  }

  // No request is forwarded twice: at most two hops, whatever the containers do
  // in between, and a second hop that ends at the static host is answered 503 with
  // the down header, forwarding nothing.
  lemma AtMostTwoHops(q: Request, hops: seq<Hop>)
    requires Chain(q, hops)
    ensures |hops| <= 2
    ensures |hops| == 2 ==> !Marked(q) && Marked(WithMarker(q))
    ensures |hops| == 2 && hops[1].owner == Web ==>
              hops[1].answer == SH.Json(503, true) && !Forwarded(hops[1])
  {
    if |hops| > 1 {
      assert Chain(WithMarker(q), hops[1..]) && Marked(WithMarker(q));
    }
  }

  // End to end, for a settled world: a forwarded request ends at its app's
  // container if that is running and takes it, and otherwise at the static host,
  // which says 503 with the down header and forwards nothing.
  lemma ForwardEnds(q: Request, a: string, hops: seq<Hop>, base: Block)
    requires Chain(q, hops) && |hops| == 2 && Settled(hops[1].world)
    requires a in hops[1].world.apps
    requires var app := hops[1].world.apps[a];
             app.fronted && q.host in app.hosts && |HostTerm(app.hosts)| < 100
    requires hops[1].world.apps[a].running ==> WrittenFrom(hops[1].world.apps[a], base)
    ensures if hops[1].world.apps[a].running && Takes(base, WithMarker(q)) then hops[1].owner == Backend(a)
            else hops[1].owner == Web && hops[1].key == FrontRule(a)
                 && hops[1].answer == SH.Json(503, true) && !Forwarded(hops[1])
  {
    AtMostTwoHops(q, hops);
    assert Chain(WithMarker(q), hops[1..]) && hops[1..][0] == hops[1];
    MarkedCopyReachesBackend(hops[1].world, a, WithMarker(q), base);
    assert Picks(hops[1].world, WithMarker(q), hops[1].owner, hops[1].key);
  }
}
