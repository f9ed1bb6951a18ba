// How the label operations combine: enrolment can be taken off again and repeated,
// scoping and un-scoping of a whole block can be repeated, the two halves of a write
// commute, and a write applied to its own output changes nothing. A law that fails
// for some blocks is stated with the exact family of blocks for which it holds, so
// that a redeploy can be told apart from a loop of redeploys (app/sablier.py,
// app/routing.py).

module LabelLaws {
  import opened Text
  import opened TraefikRule
  import opened HostRewrite
  import opened RuleLaws
  import opened Labels

  // ----- middleware chains -----

  lemma {:induction false} WithoutOnly(xs: seq<string>, x: string)
    ensures x !in Without(xs, x)
    ensures forall y :: y in Without(xs, x) <==> y in xs && y != x
    ensures x !in xs ==> Without(xs, x) == xs
  {
    if xs != [] {
      WithoutOnly(xs[1..], x);
      assert xs == [xs[0]] + xs[1..];
    }
  }

  // Reading back a written chain gives the middlewares that were written.
  lemma ChainOfJoined(xs: seq<string>)
    requires forall x | x in xs :: x != "" && ',' !in x
    ensures Chain(Join(xs, ",")) == xs
    ensures Join(xs, ",") == "" <==> xs == []
  {
    if xs == [] {
      assert Split("", ',') == [""];
    } else {
      SplitJoin(xs, ',');
      WithoutOnly(xs, "");
      assert xs[0] in xs;
    }
  }

  lemma ChainMembers(v: string)
    ensures forall x | x in Chain(v) :: x != "" && ',' !in x
  {
    WithoutOnly(Split(v, ','), "");
  }

  // Removing the middleware undoes adding it, and removing it twice is removing
  // it once.
  lemma CleanAfter(v: string, mw: string)
    requires mw != "" && ',' !in mw
    ensures CleanChain(CleanChain(v, mw), mw) == CleanChain(v, mw)
    ensures CleanChain(Prepended(CleanChain(v, mw), mw), mw) == CleanChain(v, mw)
  {
    var kept := Without(Chain(v), mw);
    ChainMembers(v);
    WithoutOnly(Chain(v), mw);
    WithoutOnly(kept, mw);
    ChainOfJoined([mw] + kept);
    assert Without([mw] + kept, mw) == kept by {
      assert ([mw] + kept)[1..] == kept;
    }
  }

  // ----- kinds of labels -----

  lemma LastChars(k: string)
    ensures EndsWith(k, ".rule") ==> !EndsWith(k, ".middlewares") && !EndsWith(k, ".priority") && !IsSablierKey(k)
    ensures EndsWith(k, ".priority") ==> !EndsWith(k, ".middlewares") && !IsSablierKey(k)
  {
    if |k| >= 5 { assert k[|k| - 5..][4] == k[|k| - 1] && k[|k| - 5..][0] == k[|k| - 5]; }
    if |k| >= 9 { assert k[|k| - 9..][8] == k[|k| - 1]; }
    if |k| >= 12 { assert k[|k| - 12..][11] == k[|k| - 1]; }
  }

  // A router's rule and its priority are middleware labels together or not at all.
  lemma SameMiddleware(base: string, app: string)
    ensures IsMiddlewareKey(base + ".rule", app) <==> IsMiddlewareKey(base + ".priority", app)
  {
    var p := ".middlewares." + Middleware(app) + ".";
    OccursUpToDot(base, "rule", p);
    OccursUpToDot(base, "priority", p);
    assert base + ".rule" == base + ("." + "rule") && base + ".priority" == base + ("." + "priority");
  }

  lemma OccursUpToDot(base: string, word: string, p: string)
    requires p != "" && p[|p| - 1] == '.' && '.' !in word
    ensures Contains(base + ("." + word), p) <==> Contains(base + ".", p)
  {
    var s := base + ("." + word);
    assert s == base + "." + word;
    forall i | At(base + ".", p, i) ensures At(s, p, i) {
      AtConcat(base + ".", word, p, i);
    }
    forall i | At(s, p, i) ensures At(base + ".", p, i) {
      var last := i + |p| - 1;
      assert forall j | |base| < j < |s| :: s[j] == word[j - |base| - 1] && s[j] != '.';
      assert s[last] == '.';
      assert last <= |base|;
      AtConcat(base + ".", word, p, i);
    }
  }

  lemma RuleAndPriority(k: string, app: string)
    ensures EndsWith(k, ".priority") ==>
              EndsWith(RuleKeyOf(k), ".rule") && (IsMiddlewareKey(k, app) <==> IsMiddlewareKey(RuleKeyOf(k), app))
    ensures EndsWith(k, ".priority") ==> !IsRuleKey(k)
  {
    KeyRoundTrip(k);
    if EndsWith(k, ".priority") {
      var base := k[..|k| - 9];
      assert k == base + ".priority";
      SameMiddleware(base, app);
      LastChars(k);
    }
  }

  lemma InMiddle(head: string, mid: string, rest: string)
    ensures Contains(head + (mid + rest), mid)
  {
    assert mid + "" == mid && At(mid, mid, 0);
    AtConcat(mid, rest, mid, 0);
    AtConcat(head, mid + rest, mid, 0);
    assert At(head + (mid + rest), mid, |head|);
  }

  lemma Regroup(a: string, b: string, c: string, d: string, e: string, tail: string)
    ensures (a + b) + c + (d + e) + tail == a + ((b + c + d) + (e + tail))
  {}

  lemma MiddlewareTail(app: string, tail: string)
    ensures IsMiddlewareKey("traefik.http.middlewares." + Middleware(app) + ".plugin.sablier" + tail, app)
  {
    var mw := Middleware(app);
    assert "traefik.http" + ".middlewares." == "traefik.http.middlewares.";
    assert "." + "plugin.sablier" == ".plugin.sablier";
    Regroup("traefik.http", ".middlewares.", mw, ".", "plugin.sablier", tail);
    InMiddle("traefik.http", ".middlewares." + mw + ".", "plugin.sablier" + tail);
  }

  // None of the label endings that matter to routing.
  lemma OtherEnding(k: string, tail: string)
    requires |tail| >= 2 && EndsWith(k, tail)
    requires tail[|tail| - 1] == 'p' || tail[|tail| - 1] == 'n' || tail[|tail| - 1] == 't'
          || tail[|tail| - 2..] == "rl" || tail[|tail| - 2..] == "me"
    ensures !IsChainKey(k) && !EndsWith(k, ".rule") && !EndsWith(k, ".priority")
  {
    assert k[|k| - |tail|..][|tail| - 1] == k[|k| - 1] && k[|k| - |tail|..][|tail| - 2] == k[|k| - 2];
    assert tail[|tail| - 2..][0] == tail[|tail| - 2] && tail[|tail| - 2..][1] == tail[|tail| - 1];
    if |k| >= 5 { assert k[|k| - 5..][4] == k[|k| - 1] && k[|k| - 5..][3] == k[|k| - 2]; }
    if |k| >= 9 { assert k[|k| - 9..][8] == k[|k| - 1]; }
    if |k| >= 12 { assert k[|k| - 12..][11] == k[|k| - 1]; }
  }

  lemma EnrolmentKeys(app: string, cfg: Config, k: string)
    requires k in Enrolment(app, cfg)
    ensures IsSablierKey(k) || IsMiddlewareKey(k, app)
    ensures !IsChainKey(k) && !EndsWith(k, ".rule") && !EndsWith(k, ".priority")
  {
    var p := "traefik.http.middlewares." + Middleware(app) + ".plugin.sablier";
    if k == "sablier.enable" {
      assert k[|k| - 5..] == "nable" && k[|k| - 9..] == "er.enable" && k[|k| - 12..] == "blier.enable";
    } else if k == "sablier.group" {
      OtherEnding(k, ".group");
    } else {
      var tail := if k == p + ".sablierUrl" then ".sablierUrl" else if k == p + ".group" then ".group"
                  else if k == p + ".sessionDuration" then ".sessionDuration"
                  else if cfg.dynamic then ".dynamic.displayName" else ".blocking.timeout";
      assert k == p + tail;
      MiddlewareTail(app, tail);
      assert k[|k| - |tail|..] == tail;
      assert ".sablierUrl"[9..] == "rl" && ".dynamic.displayName"[18..] == "me";
      OtherEnding(k, tail);
    }
  }

  lemma MiddlewareName(app: string)
    requires ',' !in app
    ensures Middleware(app) != "" && ',' !in Middleware(app)
  {}

  // ----- enrolment -----

  lemma StripTwice(labels: Block, app: string)
    requires ',' !in app
    ensures Strip(Strip(labels, app), app) == Strip(labels, app)
  {
    MiddlewareName(app);
    forall k | k in Strip(labels, app)
      ensures k in Strip(Strip(labels, app), app) && Strip(Strip(labels, app), app)[k] == Strip(labels, app)[k]
    {
      CleanAfter(labels[k], Middleware(app));
    }
  }

  // Un-enrolling restores what was there before enrolling.
  lemma StripOfEnrolled(labels: Block, app: string, cfg: Config)
    requires ',' !in app
    ensures Strip(Enrolled(labels, app, cfg), app) == Strip(labels, app)
  {
    MiddlewareName(app);
    var d, e := Strip(labels, app), Enrolled(labels, app, cfg);
    forall k ensures (k in Strip(e, app) <==> k in d) && (k in d ==> Strip(e, app)[k] == d[k]) {
      if k in Enrolment(app, cfg) {
        EnrolmentKeys(app, cfg, k);
      }
      if k in d {
        CleanAfter(labels[k], Middleware(app));
      }
    }
  }

  lemma EnrolledTwice(labels: Block, app: string, cfg: Config)
    requires ',' !in app
    ensures Enrolled(Enrolled(labels, app, cfg), app, cfg) == Enrolled(labels, app, cfg)
    ensures Enrolled(Strip(labels, app), app, cfg) == Enrolled(labels, app, cfg)
    ensures Strip(Enrolled(labels, app, cfg), app) == Strip(Strip(labels, app), app)
  {
    StripOfEnrolled(labels, app, cfg);
    StripTwice(labels, app);
  }

  lemma GroupKeyLeads(app: string)
    ensures "traefik.http.middlewares." + Middleware(app) + "."
         <= "traefik.http.middlewares." + Middleware(app) + ".plugin.sablier" + ".group"
  {
    var lead := "traefik.http.middlewares." + Middleware(app);
    assert ".plugin.sablier" == "." + "plugin.sablier";
    Assoc(lead, ".", "plugin.sablier");
    Assoc(lead + ".", "plugin.sablier", ".group");
  }

  // Enrolment can be seen on the labels, and stripping takes it off.
  lemma EnrolmentShows(labels: Block, app: string, cfg: Config)
    ensures IsEnrolled(Enrolled(labels, app, cfg), app)
    ensures !IsEnrolled(Strip(labels, app), app)
  {
    var k := "traefik.http.middlewares." + Middleware(app) + ".plugin.sablier" + ".group";
    GroupKeyLeads(app);
    assert k in Enrolment(app, cfg);
    assert k in Enrolled(labels, app, cfg);
    assert |k| > |"sablier.group"|;
  }

  // An enrolment is this app's group label and some label of its own middleware.
  lemma IsEnrolledExactly(labels: Block, app: string)
    ensures IsEnrolled(labels, app) <==>
            && "sablier.group" in labels && labels["sablier.group"] == app
            && exists k :: k in labels && "traefik.http.middlewares.sablier-" + app + "." <= k
  {
    var lead := "traefik.http.middlewares.";
    assert "traefik.http.middlewares.sablier-" == lead + "sablier-";
    Assoc(lead, "sablier-", app);
    assert lead + Middleware(app) + "." == "traefik.http.middlewares.sablier-" + app + ".";
  }

  // ----- label by label -----

  function OtherThan(x: string): string -> bool {
    (y: string) => y != x
  }

  function Neither(x: string, y: string): string -> bool {
    (z: string) => z != x && z != y
  }

  lemma {:induction false} WithoutIsFilter(xs: seq<string>, x: string)
    ensures Without(xs, x) == Filter(xs, OtherThan(x))
  {
    if xs != [] {
      var first, rest := [xs[0]], xs[1..];
      WithoutIsFilter(rest, x);
      FilterConcat(first, rest, OtherThan(x));
      assert xs == first + rest;
      assert Filter(first, OtherThan(x)) == if xs[0] == x then [] else first by {
        assert first[..0] == [];
      }
    }
  }

  lemma {:induction false} FilterTwice(xs: seq<string>, x: string, y: string)
    ensures Filter(Filter(xs, OtherThan(x)), OtherThan(y)) == Filter(xs, Neither(x, y))
  {
    if xs != [] {
      var before, last := xs[..|xs| - 1], xs[|xs| - 1];
      FilterTwice(before, x, y);
      var once := Filter(before, OtherThan(x));
      if last == x {
        assert once + [] == once;
        assert Filter(before, Neither(x, y)) + [] == Filter(before, Neither(x, y));
      } else {
        assert (once + [last])[..|once|] == once;
      }
    }
  }

  // The middlewares a chain names besides this app's own, in order.
  function OtherMiddlewares(chain: string, app: string): seq<string> {
    Filter(Split(chain, ','), Neither("", "sablier-" + app))
  }

  lemma KeptIsOthers(v: string, app: string)
    ensures Without(Chain(v), Middleware(app)) == OtherMiddlewares(v, app)
  {
    WithoutIsFilter(Split(v, ','), "");
    WithoutIsFilter(Chain(v), Middleware(app));
    FilterTwice(Split(v, ','), "", Middleware(app));
  }

  // A router's chain. Enrolled, it is the app's middleware and then every other one
  // in its old order; stripped, it is the others alone. A chain that names no other
  // goes altogether, so such a router is not sent through the middleware either.
  lemma ChainExactly(labels: Block, app: string, cfg: Config, k: string)
    requires ',' !in app
    requires k in labels && Contains(k, ".routers.") && EndsWith(k, ".middlewares")
    requires !Contains(k, ".middlewares.sablier-" + app + ".")
    ensures var others := OtherMiddlewares(labels[k], app);
            && (k in Enrolled(labels, app, cfg) <==> others != [])
            && (k in Strip(labels, app) <==> others != [])
            && (others != [] ==>
                  && Split(Enrolled(labels, app, cfg)[k], ',') == ["sablier-" + app] + others
                  && Split(Strip(labels, app)[k], ',') == others)
  {
    var mw, v := Middleware(app), labels[k];
    MarkKey(app);
    ChainKeyOnly(app, cfg, k);
    CleanIsOthers(v, app);
    assert k in Strip(labels, app) <==> OtherMiddlewares(v, app) != [];
  }

  lemma ChainKeyOnly(app: string, cfg: Config, k: string)
    requires EndsWith(k, ".middlewares") && IsChainKey(k)
    ensures !IsSablierKey(k) && k !in Enrolment(app, cfg)
  {
    assert k[|k| - 1] == k[|k| - 12..][11];
    if k in Enrolment(app, cfg) {
      EnrolmentKeys(app, cfg, k);
    }
  }

  lemma CleanIsOthers(v: string, app: string)
    requires ',' !in app
    ensures var (mw, others) := (Middleware(app), OtherMiddlewares(v, app));
            && (CleanChain(v, mw) == "" <==> others == [])
            && (others != [] ==> Split(CleanChain(v, mw), ',') == others
                                 && Split(Prepended(CleanChain(v, mw), mw), ',') == [mw] + others)
  {
    var mw, others := Middleware(app), OtherMiddlewares(v, app);
    MiddlewareName(app);
    KeptIsOthers(v, app);
    ChainMembers(v);
    WithoutOnly(Chain(v), mw);
    ChainOfJoined(others);
    if others != [] {
      SplitJoin(others, ',');
      SplitJoin([mw] + others, ',');
    }
  }

  lemma MarkKey(app: string)
    ensures ".middlewares." + Middleware(app) + "." == ".middlewares.sablier-" + app + "."
  {
    assert ".middlewares.sablier-" == ".middlewares." + "sablier-";
    Assoc(".middlewares.", "sablier-", app);
  }

  // Every other label: the two that Sablier looks for and those of the app's own
  // middleware are the enrolment's, and all the rest are left as they were.
  lemma OthersLeftAlone(labels: Block, app: string, cfg: Config, k: string)
    requires !(Contains(k, ".routers.") && EndsWith(k, ".middlewares"))
    ensures var own := k == "sablier.enable" || k == "sablier.group" || Contains(k, ".middlewares.sablier-" + app + ".");
            && (own ==> k !in Strip(labels, app) && (k in Enrolled(labels, app, cfg) <==> k in Enrolment(app, cfg)))
            && (!own ==> (k in Strip(labels, app) <==> k in labels) && (k in Enrolled(labels, app, cfg) <==> k in labels))
            && (!own && k in labels ==> Strip(labels, app)[k] == labels[k] && Enrolled(labels, app, cfg)[k] == labels[k])
  {
    MarkKey(app);
    if k in Enrolment(app, cfg) {
      EnrolmentKeys(app, cfg, k);
    }
  }

  // What the enrolment says, label by label.
  lemma EnrolmentSays(labels: Block, app: string, cfg: Config)
    ensures var d, p := Enrolled(labels, app, cfg), "traefik.http.middlewares.sablier-" + app + ".plugin.sablier";
            && "sablier.enable" in d && d["sablier.enable"] == "true"
            && "sablier.group" in d && d["sablier.group"] == app
            && p + ".sablierUrl" in d && d[p + ".sablierUrl"] == cfg.url
            && p + ".group" in d && d[p + ".group"] == app
            && p + ".sessionDuration" in d && d[p + ".sessionDuration"] == cfg.session
            && (if cfg.dynamic then p + ".dynamic.displayName" in d && d[p + ".dynamic.displayName"] == app
                else p + ".blocking.timeout" in d && d[p + ".blocking.timeout"] == cfg.timeout)
  {
    var lead := "traefik.http.middlewares.";
    assert "traefik.http.middlewares.sablier-" == lead + "sablier-";
    Assoc(lead, "sablier-", app);
    var p := "traefik.http.middlewares.sablier-" + app + ".plugin.sablier";
    assert p == lead + Middleware(app) + ".plugin.sablier";
    EnrolmentEntries(p, app, cfg);
  }

  lemma TailsDiffer(p: string, a: string, b: string)
    requires a != b
    ensures p + a != p + b
  {
    assert (p + a)[|p|..] == a && (p + b)[|p|..] == b;
  }

  lemma EnrolmentEntries(p: string, app: string, cfg: Config)
    requires p == "traefik.http.middlewares." + Middleware(app) + ".plugin.sablier"
    ensures var e := Enrolment(app, cfg);
            && "sablier.enable" in e && e["sablier.enable"] == "true" && "sablier.group" in e && e["sablier.group"] == app
            && p + ".sablierUrl" in e && e[p + ".sablierUrl"] == cfg.url
            && p + ".group" in e && e[p + ".group"] == app
            && p + ".sessionDuration" in e && e[p + ".sessionDuration"] == cfg.session
            && (if cfg.dynamic then p + ".dynamic.displayName" in e && e[p + ".dynamic.displayName"] == app
                else p + ".blocking.timeout" in e && e[p + ".blocking.timeout"] == cfg.timeout)
  {
    TailsDiffer(p, ".sablierUrl", ".group");
    TailsDiffer(p, ".sablierUrl", ".sessionDuration");
    TailsDiffer(p, ".group", ".sessionDuration");
    TailsDiffer(p, ".dynamic.displayName", ".sablierUrl");
    TailsDiffer(p, ".dynamic.displayName", ".group");
    TailsDiffer(p, ".dynamic.displayName", ".sessionDuration");
    TailsDiffer(p, ".blocking.timeout", ".sablierUrl");
    TailsDiffer(p, ".blocking.timeout", ".group");
    TailsDiffer(p, ".blocking.timeout", ".sessionDuration");
    assert p[0] == 't';
  }

  // It says nothing else.
  lemma EnrolmentNames(app: string, cfg: Config, k: string)
    requires k in Enrolment(app, cfg)
    ensures var p := "traefik.http.middlewares.sablier-" + app + ".plugin.sablier";
            || k == "sablier.enable" || k == "sablier.group"
            || k == p + ".sablierUrl" || k == p + ".group" || k == p + ".sessionDuration"
            || k == p + (if cfg.dynamic then ".dynamic.displayName" else ".blocking.timeout")
  {
    var lead := "traefik.http.middlewares.";
    assert "traefik.http.middlewares.sablier-" == lead + "sablier-";
    Assoc(lead, "sablier-", app);
  }

  predicate RouterRule(k: string) {
    "traefik.http.routers." <= k && |k| >= 5 && k[|k| - 5..] == ".rule"
  }

  // A scoped block, label by label: every rule is scoped and its router's priority
  // set; no other label changes, and nothing else is added.
  lemma ScopedLabels(labels: Block, hosts: seq<string>, k: string)
    ensures var s := Scoped(labels, hosts);
            && (k in labels && RouterRule(k) ==>
                  && k in s && s[k] == ScopedRule(labels[k], hosts)
                  && k[..|k| - 5] + ".priority" in s && s[k[..|k| - 5] + ".priority"] == "100")
            && (k in labels && !RouterRule(k) && (forall r | r in labels && RouterRule(r) :: k != r[..|r| - 5] + ".priority") ==>
                  k in s && s[k] == labels[k])
            && (k in s && k !in labels ==> exists r :: r in labels && RouterRule(r) && k == r[..|r| - 5] + ".priority")
  {
    KeyRoundTrip(k);
    RouterPrefix(k);
    NotBoth(k);
    ScopedHas(labels, hosts, k);
    if RouterRule(k) {
      ScopedHas(labels, hosts, PriorityKey(k));
    }
    if OwnsPriority(labels, k) {
      assert RouterRule(RuleKeyOf(k)) && k == RuleKeyOf(k)[..|RuleKeyOf(k)| - 5] + ".priority";
    }
  }

  // The priority of a router whose rule mentions the marker.
  predicate OfMarkedRouter(labels: Block, k: string) {
    exists r :: r in labels && RouterRule(r) && k == r[..|r| - 5] + ".priority" && Contains(labels[r], MARKER)
  }

  // An un-scoped block, label by label: every rule is un-scoped, and a router's
  // priority goes exactly when it is the platform's and its rule mentions the
  // marker; no other label changes.
  lemma UnscopedLabels(labels: Block, hosts: seq<string>, k: string)
    ensures var u := Unscoped(labels, hosts);
            && (k in labels && RouterRule(k) ==> k in u && u[k] == UnscopedRule(labels[k], hosts))
            && (k in u ==> k in labels && (RouterRule(k) || u[k] == labels[k]))
            && (k in labels && !RouterRule(k) ==>
                  (k !in u <==> labels[k] == "100" && OfMarkedRouter(labels, k)))
  {
    NotBoth(k);
    if k in labels {
      MarkerPriority(labels, k);
    }
  }

  lemma MarkerPriority(labels: Block, k: string)
    requires k in labels
    ensures PriorityOfMarker(labels, k) <==> labels[k] == "100" && OfMarkedRouter(labels, k)
  {
    KeyRoundTrip(k);
    RouterPrefix(k);
    if r :| r in labels && RouterRule(r) && k == r[..|r| - 5] + ".priority" && Contains(labels[r], MARKER) {
      KeyRoundTrip(r);
      RouterPrefix(r);
    }
    if PriorityOfMarker(labels, k) {
      assert RouterRule(RuleKeyOf(k)) && k == RuleKeyOf(k)[..|RuleKeyOf(k)| - 5] + ".priority";
    }
  }

  // ----- scoping and enrolment do not disturb each other -----

  lemma StripScoped(labels: Block, app: string, hosts: seq<string>)
    ensures Strip(Scoped(labels, hosts), app) == Scoped(Strip(labels, app), hosts)
  {
    var d, s := Strip(labels, app), Scoped(labels, hosts);
    forall k ensures (k in Strip(s, app) <==> k in Scoped(d, hosts))
                  && (k in Strip(s, app) ==> Strip(s, app)[k] == Scoped(d, hosts)[k]) {
      ScopedHas(labels, hosts, k);
      ScopedHas(d, hosts, k);
      RuleAndPriority(k, app);
      LastChars(k);
      if IsPriorityKey(k) {
        LastChars(RuleKeyOf(k));
      }
    }
  }

  lemma StripUnscopedKey(labels: Block, app: string, hosts: seq<string>, k: string)
    ensures var left, right := Strip(Unscoped(labels, hosts), app), Unscoped(Strip(labels, app), hosts);
            (k in left <==> k in right) && (k in left ==> left[k] == right[k])
  {
    RuleAndPriority(k, app);
    LastChars(k);
    if IsPriorityKey(k) {
      LastChars(RuleKeyOf(k));
    }
  }

  lemma StripUnscoped(labels: Block, app: string, hosts: seq<string>)
    ensures Strip(Unscoped(labels, hosts), app) == Unscoped(Strip(labels, app), hosts)
  {
    forall k {
      StripUnscopedKey(labels, app, hosts, k);
    }
  }

  lemma EnrolledOwns(labels: Block, app: string, cfg: Config, k: string)
    ensures OwnsPriority(Enrolled(labels, app, cfg), k) <==> OwnsPriority(Strip(labels, app), k)
    ensures OwnsPriority(Strip(labels, app), k) ==>
              Enrolled(labels, app, cfg)[RuleKeyOf(k)] == Strip(labels, app)[RuleKeyOf(k)]
  {
    if IsPriorityKey(k) {
      var r := RuleKeyOf(k);
      KeyRoundTrip(k);
      LastChars(r);
      if r in Enrolment(app, cfg) {
        EnrolmentKeys(app, cfg, r);
      }
    }
  }

  lemma EnrolledScoped(labels: Block, app: string, hosts: seq<string>, cfg: Config)
    ensures Enrolled(Scoped(labels, hosts), app, cfg) == Scoped(Enrolled(labels, app, cfg), hosts)
  {
    StripScoped(labels, app, hosts);
    var d, e := Strip(labels, app), Enrolled(labels, app, cfg);
    var left, right := Enrolled(Scoped(labels, hosts), app, cfg), Scoped(e, hosts);
    forall k ensures (k in left <==> k in right) && (k in left ==> left[k] == right[k]) {
      EnrolledOwns(labels, app, cfg, k);
      ScopedHas(d, hosts, k);
      ScopedHas(e, hosts, k);
      LastChars(k);
      if k in Enrolment(app, cfg) {
        EnrolmentKeys(app, cfg, k);
      }
    }
  }

  lemma EnrolledUnscoped(labels: Block, app: string, hosts: seq<string>, cfg: Config)
    ensures Enrolled(Unscoped(labels, hosts), app, cfg) == Unscoped(Enrolled(labels, app, cfg), hosts)
  {
    StripUnscoped(labels, app, hosts);
    var d, e := Strip(labels, app), Enrolled(labels, app, cfg);
    var left, right := Enrolled(Unscoped(labels, hosts), app, cfg), Unscoped(e, hosts);
    forall k ensures (k in left <==> k in right) && (k in left ==> left[k] == right[k]) {
      EnrolledOwns(labels, app, cfg, k);
      LastChars(k);
      if k in Enrolment(app, cfg) {
        EnrolmentKeys(app, cfg, k);
      }
    }
  }

  // ----- scoping twice -----

  // The conditions a rule text is the print of.
  ghost predicate Reads(rule: string, c: Conditions) {
    Readable(c) && rule == RuleText(All(c))
  }

  // Every rule in the block is a conjunction the rewriting reads.
  ghost predicate ReadableBlock(labels: Block) {
    forall k | k in labels && IsRuleKey(k) :: exists c :: Reads(labels[k], c)
  }

  // Some router's rule is nothing but the marker.
  ghost predicate SomeOnlyMarkers(labels: Block) {
    exists k, c :: k in labels && IsRuleKey(k) && Reads(labels[k], c) && OnlyMarkers(c)
  }

  lemma ScopedTwice(labels: Block, hosts: seq<string>)
    requires ReadableBlock(labels) && HostsOk(hosts)
    ensures Scoped(Scoped(labels, hosts), hosts) == Scoped(labels, hosts)
  {
    var s := Scoped(labels, hosts);
    forall k ensures (k in Scoped(s, hosts) <==> k in s) && (k in s ==> Scoped(s, hosts)[k] == s[k]) {
      ScopedHas(labels, hosts, k);
      ScopedHas(s, hosts, k);
      KeyRoundTrip(k);
      if IsPriorityKey(k) {
        var r := RuleKeyOf(k);
        KeyRoundTrip(r);
        ScopedHas(labels, hosts, r);
      }
      if k in labels && IsRuleKey(k) {
        var c :| Reads(labels[k], c);
        ScopedLastHostsWin(c, hosts, hosts);
      }
    }
  }

  // The marker is gone from a rule that was not only the marker.
  lemma UnscopedIsUnmarked(c: Conditions, hosts: seq<string>)
    requires Readable(c) && HostsOk(hosts) && !OnlyMarkers(c)
    ensures !Contains(UnscopedRule(RuleText(All(c)), hosts), MARKER)
  {
    var d := UnscopedConds(c, hosts);
    UnscopedRefines(c, hosts);
    AllPlainAndWf(d);
    MarkerInRule(All(d));
    DropMarkersOnly(c.before);
  }

  // Un-scoping again changes nothing unless some rule was only the marker.
  lemma UnscopedTwice(labels: Block, hosts: seq<string>)
    requires ReadableBlock(labels) && HostsOk(hosts)
    ensures Unscoped(Unscoped(labels, hosts), hosts) == Unscoped(labels, hosts) <==> !SomeOnlyMarkers(labels)
  {
    var u := Unscoped(labels, hosts);
    if SomeOnlyMarkers(labels) {
      var k, c :| k in labels && IsRuleKey(k) && Reads(labels[k], c) && OnlyMarkers(c);
      NotBoth(k);
      UnscopedIdempotent(c, hosts);
      assert u[k] == UnscopedRule(labels[k], hosts);
      assert k in Unscoped(u, hosts) && Unscoped(u, hosts)[k] == UnscopedRule(u[k], hosts);
    } else {
      forall k ensures (k in Unscoped(u, hosts) <==> k in u) && (k in u ==> Unscoped(u, hosts)[k] == u[k]) {
        KeyRoundTrip(k);
        RouterPrefix(k);
        var r := if IsPriorityKey(k) then RuleKeyOf(k) else k;
        if r in labels && IsRuleKey(r) {
          var c :| Reads(labels[r], c);
          NotBoth(r);
          assert !OnlyMarkers(c);
          UnscopedIdempotent(c, hosts);
          UnscopedIsUnmarked(c, hosts);
        }
      }
    }
  }

  // Scoping and then un-scoping is un-scoping, exactly when no rule was only the
  // marker and no scoped router had a priority of its own.
  ghost predicate OwnPriority(labels: Block) {
    exists k :: k in labels && IsRuleKey(k) && PriorityKey(k) in labels && !PriorityOfMarker(labels, PriorityKey(k))
  }

  lemma UnscopedOfScopedBlock(labels: Block, hosts: seq<string>)
    requires ReadableBlock(labels) && HostsOk(hosts)
    ensures Unscoped(Scoped(labels, hosts), hosts) == Unscoped(labels, hosts)
            <==> !SomeOnlyMarkers(labels) && !OwnPriority(labels)
  {
    var s := Scoped(labels, hosts);
    var left, right := Unscoped(s, hosts), Unscoped(labels, hosts);
    if SomeOnlyMarkers(labels) {
      var k, c :| k in labels && IsRuleKey(k) && Reads(labels[k], c) && OnlyMarkers(c);
      NotBoth(k);
      ScopedHas(labels, hosts, k);
      UnscopedOfScoped(c, hosts, hosts);
      assert left[k] != right[k];
    } else if OwnPriority(labels) {
      var k :| k in labels && IsRuleKey(k) && PriorityKey(k) in labels && !PriorityOfMarker(labels, PriorityKey(k));
      ScopedRouter(labels, k, hosts);
      assert PriorityKey(k) in right && PriorityKey(k) !in left;
    } else {
      forall k ensures (k in left <==> k in right) && (k in left ==> left[k] == right[k]) {
        UnscopedOfScopedAt(labels, hosts, k);
      }
    }
  }

  // A scoped router carries the marker and the platform's priority.
  lemma ScopedRouter(labels: Block, k: string, hosts: seq<string>)
    requires ReadableBlock(labels) && HostsOk(hosts) && k in labels && IsRuleKey(k)
    ensures PriorityKey(k) in Scoped(labels, hosts) && PriorityOfMarker(Scoped(labels, hosts), PriorityKey(k))
    ensures k in Scoped(labels, hosts) && Scoped(labels, hosts)[k] == ScopedRule(labels[k], hosts)
  {
    var c :| Reads(labels[k], c);
    KeyRoundTrip(k);
    RouterPrefix(k);
    NotBoth(k);
    ScopedHas(labels, hosts, k);
    ScopedHas(labels, hosts, PriorityKey(k));
    ScopedRefines(c, hosts);
    AllPlainAndWf(ScopedConds(c, hosts));
    MarkerInRule(All(ScopedConds(c, hosts)));
  }

  lemma UnscopedOfScopedAt(labels: Block, hosts: seq<string>, k: string)
    requires ReadableBlock(labels) && HostsOk(hosts) && !SomeOnlyMarkers(labels) && !OwnPriority(labels)
    ensures var left, right := Unscoped(Scoped(labels, hosts), hosts), Unscoped(labels, hosts);
            (k in left <==> k in right) && (k in left ==> left[k] == right[k])
  {
    ScopedHas(labels, hosts, k);
    KeyRoundTrip(k);
    RouterPrefix(k);
    if OwnsPriority(labels, k) {
      ScopedRouter(labels, RuleKeyOf(k), hosts);
    } else if k in labels && IsRuleKey(k) {
      NotBoth(k);
      ScopedRouter(labels, k, hosts);
      var c :| Reads(labels[k], c);
      UnscopedOfScoped(c, hosts, hosts);
    } else if IsPriorityKey(k) {
      ScopedHas(labels, hosts, RuleKeyOf(k));
      KeyRoundTrip(RuleKeyOf(k));
    }
  }

  // ----- the whole write -----

  // The rules of a block are untouched by enrolment.
  lemma RulesKept(labels: Block, app: string, cfg: Config)
    requires ReadableBlock(labels)
    ensures ReadableBlock(Strip(labels, app)) && ReadableBlock(Enrolled(labels, app, cfg))
    ensures !SomeOnlyMarkers(labels) ==> !SomeOnlyMarkers(Strip(labels, app)) && !SomeOnlyMarkers(Enrolled(labels, app, cfg))
  {
    var d, e := Strip(labels, app), Enrolled(labels, app, cfg);
    forall k | IsRuleKey(k)
      ensures k in d ==> k in labels && d[k] == labels[k]
      ensures k in e ==> k in labels && e[k] == labels[k]
    {
      LastChars(k);
      if k in Enrolment(app, cfg) {
        EnrolmentKeys(app, cfg, k);
      }
    }
    forall k | k in d && IsRuleKey(k) ensures exists c :: Reads(d[k], c) {
      var c :| Reads(labels[k], c);
      assert Reads(d[k], c);
    }
    forall k | k in e && IsRuleKey(k) ensures exists c :: Reads(e[k], c) {
      var c :| Reads(labels[k], c);
      assert Reads(e[k], c);
    }
  }

  // The two halves of the write can be done in either order.
  lemma HalvesCommute(labels: Block, app: string, hosts: seq<string>, sleeps: bool, fronted: bool, cfg: Config)
    ensures Desired(labels, app, hosts, sleeps, fronted, cfg) ==
            var s := if fronted then Scoped(labels, hosts) else Unscoped(labels, hosts);
            if sleeps then Enrolled(s, app, cfg) else Strip(s, app)
  {
    StripScoped(labels, app, hosts);
    StripUnscoped(labels, app, hosts);
    EnrolledScoped(labels, app, hosts, cfg);
    EnrolledUnscoped(labels, app, hosts, cfg);
  }

  // A container that carries what the write asked for is left alone by the next
  // write: label writes converge.
  lemma WritesConverge(labels: Block, app: string, hosts: seq<string>, sleeps: bool, fronted: bool, cfg: Config)
    requires ReadableBlock(labels) && HostsOk(hosts) && ',' !in app
    requires !fronted ==> !SomeOnlyMarkers(labels)
    ensures var once := Desired(labels, app, hosts, sleeps, fronted, cfg);
            Desired(once, app, hosts, sleeps, fronted, cfg) == once
  {
    var d := if sleeps then Enrolled(labels, app, cfg) else Strip(labels, app);
    var once := if fronted then Scoped(d, hosts) else Unscoped(d, hosts);
    RulesKept(labels, app, cfg);
    EnrolledTwice(labels, app, cfg);
    StripTwice(labels, app);
    HalvesCommute(d, app, hosts, sleeps, fronted, cfg);
    HalvesCommute(once, app, hosts, sleeps, fronted, cfg);
    StripScoped(d, app, hosts);
    StripUnscoped(d, app, hosts);
    EnrolledScoped(d, app, hosts, cfg);
    EnrolledUnscoped(d, app, hosts, cfg);
    ScopedTwice(d, hosts);
    UnscopedTwice(d, hosts);
  }
}
