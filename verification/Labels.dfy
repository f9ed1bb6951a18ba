// Label blocks as the platform rewrites them (app/routing.py, app/sablier.py): every
// router rule scoped or un-scoped, the priority that goes with it, and the enrolment
// in scale-to-zero. A block is a map; the loop of `scoped` depends on the order it
// meets the labels in, so that order is modelled too, and shown to matter in one
// case only.

module Labels {
  import opened Text
  import opened TraefikRule
  import opened HostRewrite
  import opened RuleLaws

  type Block = map<string, string>

  const ROUTERS := "traefik.http.routers."
  const BACKEND_PRIORITY := "100"

  // ----- which labels are which -----

  predicate IsRuleKey(k: string) {
    ROUTERS <= k && EndsWith(k, ".rule")
  }

  predicate IsPriorityKey(k: string) {
    ROUTERS <= k && EndsWith(k, ".priority")
  }

  // r.rule -> r.priority
  function PriorityKey(k: string): string
    requires EndsWith(k, ".rule")
  {
    k[..|k| - 5] + ".priority"
  }

  // r.priority -> r.rule
  function RuleKeyOf(k: string): string
    requires EndsWith(k, ".priority")
  {
    k[..|k| - 9] + ".rule"
  }

  function Middleware(app: string): string {
    "sablier-" + app
  }

  predicate IsSablierKey(k: string) {
    k == "sablier.enable" || k == "sablier.group"
  }

  predicate IsMiddlewareKey(k: string, app: string) {
    Contains(k, ".middlewares." + Middleware(app) + ".")
  }

  predicate IsChainKey(k: string) {
    Contains(k, ".routers.") && EndsWith(k, ".middlewares")
  }

  // ----- scoping behind the static host -----

  // The router whose rule is in the block owns this priority.
  predicate OwnsPriority(labels: Block, k: string) {
    IsPriorityKey(k) && RuleKeyOf(k) in labels
  }

  function ScopedValue(labels: Block, hosts: seq<string>, k: string): string {
    if OwnsPriority(labels, k) || k !in labels then BACKEND_PRIORITY
    else if IsRuleKey(k) then ScopedRule(labels[k], hosts)
    else labels[k]
  }

  function Scoped(labels: Block, hosts: seq<string>): Block {
    var added := set k | k in labels && IsRuleKey(k) :: PriorityKey(k);
    map k | k in labels.Keys + added :: ScopedValue(labels, hosts, k)
  }

  // This priority was only there because of the marker.
  predicate PriorityOfMarker(labels: Block, k: string)
    requires k in labels
  {
    && IsPriorityKey(k) && labels[k] == BACKEND_PRIORITY
    && RuleKeyOf(k) in labels && Contains(labels[RuleKeyOf(k)], MARKER)
  }

  function Unscoped(labels: Block, hosts: seq<string>): Block {
    map k | k in labels && !PriorityOfMarker(labels, k) ::
      if IsRuleKey(k) then UnscopedRule(labels[k], hosts) else labels[k]
  }

  // ----- the order in which a block is walked -----

  function AsBlock(items: seq<(string, string)>): Block {
    if items == [] then map[]
    else
      var (k, v) := items[|items| - 1];
      AsBlock(items[..|items| - 1])[k := v]
  }

  predicate DistinctKeys(items: seq<(string, string)>) {
    forall i, j | 0 <= i < j < |items| :: items[i].0 != items[j].0
  }

  // The loop of `scoped`: a rule writes its router's priority and then itself,
  // any other label writes itself.
  method ScopedInOrder(items: seq<(string, string)>, hosts: seq<string>) returns (out: Block)
    requires DistinctKeys(items)
    ensures out == WalkScoped(items, hosts)
  {
    out := map[];
    for n := 0 to |items|
      invariant out == WalkScoped(items[..n], hosts)
    {
      var (k, v) := items[n];
      if IsRuleKey(k) {
        v := ScopedRule(v, hosts);
        out := out[PriorityKey(k) := BACKEND_PRIORITY];
      }
      out := out[k := v];
      assert items[..n + 1][..n] == items[..n];
    }
    assert items[..|items|] == items;
  }

  function WalkScoped(items: seq<(string, string)>, hosts: seq<string>): Block {
    if items == [] then map[]
    else
      var out := WalkScoped(items[..|items| - 1], hosts);
      var (k, v) := items[|items| - 1];
      if IsRuleKey(k) then out[PriorityKey(k) := BACKEND_PRIORITY][k := ScopedRule(v, hosts)]
      else out[k := v]
  }

  // A priority of somebody else's that comes after the rule it belongs to.
  predicate ForeignPriorityAfter(items: seq<(string, string)>, i: int, j: int)
  {
    && 0 <= i < j < |items| && IsRuleKey(items[i].0)
    && items[j].0 == PriorityKey(items[i].0) && items[j].1 != BACKEND_PRIORITY
  }

  predicate NoForeignPriorityAfter(items: seq<(string, string)>) {
    forall i, j | 0 <= i < j < |items| :: !ForeignPriorityAfter(items, i, j)
  }

  lemma KeyRoundTrip(k: string)
    ensures EndsWith(k, ".rule") ==>
              EndsWith(PriorityKey(k), ".priority") && RuleKeyOf(PriorityKey(k)) == k
    ensures EndsWith(k, ".priority") ==>
              EndsWith(RuleKeyOf(k), ".rule") && PriorityKey(RuleKeyOf(k)) == k
    ensures EndsWith(k, ".rule") ==> !EndsWith(k, ".priority")
  {
    if EndsWith(k, ".rule") {
      var base := k[..|k| - 5];
      assert PriorityKey(k)[|base|..] == ".priority" && PriorityKey(k)[..|base|] == base;
      assert k == base + ".rule";
      assert k[|k| - 1] == k[|k| - 5..][4] == 'e';
      if |k| >= 9 {
        assert k[|k| - 1] == k[|k| - 9..][8];
      }
    }
    if EndsWith(k, ".priority") {
      var base := k[..|k| - 9];
      assert RuleKeyOf(k)[|base|..] == ".rule" && RuleKeyOf(k)[..|base|] == base;
      assert k == base + ".priority";
    }
  }

  lemma RouterPrefix(k: string)
    ensures IsRuleKey(k) ==> IsPriorityKey(PriorityKey(k))
    ensures IsPriorityKey(k) ==> IsRuleKey(RuleKeyOf(k))
  {
    KeyRoundTrip(k);
    assert ROUTERS[7] == '.' && ROUTERS[8] == 'h' && ROUTERS[12] == '.' && ROUTERS[13] == 'r' && ROUTERS[20] == '.';
    if IsRuleKey(k) {
      var base := k[..|k| - 5];
      assert k == base + ".rule";
    }
    if IsPriorityKey(k) {
      var base := k[..|k| - 9];
      assert k == base + ".priority";
    }
  }

  // Walking the labels in order gives the order-free result exactly when no
  // foreign priority follows its router's rule.
  lemma {:induction false} WalkIsScoped(items: seq<(string, string)>, hosts: seq<string>)
    requires DistinctKeys(items)
    ensures WalkScoped(items, hosts) == Scoped(AsBlock(items), hosts) <==> NoForeignPriorityAfter(items)
  {
    if NoForeignPriorityAfter(items) {
      WalkWhenClear(items, hosts);
    } else {
      var i, j :| 0 <= i < j < |items| && ForeignPriorityAfter(items, i, j);
      WalkKeepsForeign(items, hosts, i, j);
      AsBlockHas(items, i);
      KeyRoundTrip(items[i].0);
      RouterPrefix(items[i].0);
      assert OwnsPriority(AsBlock(items), items[j].0);
      AsBlockHas(items, j);
    }
  }

  lemma {:induction false} AsBlockHas(items: seq<(string, string)>, i: nat)
    requires DistinctKeys(items) && i < |items|
    ensures items[i].0 in AsBlock(items) && AsBlock(items)[items[i].0] == items[i].1
  {
    var n := |items| - 1;
    if i < n {
      assert items[..n][i] == items[i];
      AsBlockHas(items[..n], i);
    }
  }

  lemma {:induction false} AsBlockOnly(items: seq<(string, string)>)
    ensures forall k :: k in AsBlock(items) ==> exists i | 0 <= i < |items| :: items[i].0 == k
  {
    if items != [] {
      var n := |items| - 1;
      AsBlockOnly(items[..n]);
      forall k | k in AsBlock(items) ensures exists i | 0 <= i < |items| :: items[i].0 == k {
        if k != items[n].0 {
          assert k in AsBlock(items[..n]);
          var i :| 0 <= i < |items[..n]| && items[..n][i].0 == k;
          assert items[i].0 == k;
        }
      }
    }
  }

  lemma SamePriority(a: string, b: string)
    requires IsRuleKey(a) && IsRuleKey(b) && PriorityKey(a) == PriorityKey(b)
    ensures a == b
  {
    KeyRoundTrip(a);
    KeyRoundTrip(b);
  }

  lemma {:induction false} WalkKeepsForeign(items: seq<(string, string)>, hosts: seq<string>, i: nat, j: nat)
    requires DistinctKeys(items) && ForeignPriorityAfter(items, i, j)
    ensures items[j].0 in WalkScoped(items, hosts) && WalkScoped(items, hosts)[items[j].0] == items[j].1
  {
    var n := |items| - 1;
    var (rule, prio) := (items[i].0, items[j].0);
    if j < n {
      var before := items[..n];
      assert before[i] == items[i] && before[j] == items[j];
      var (k, v) := items[n];
      WalkKeepsForeign(before, hosts, i, j);
      assert k != rule && k != prio;
      NotAgain(k, rule);
      KeepsEntry(WalkScoped(before, hosts), k, v, hosts, prio);
    } else {
      RuleOrPriority(rule);
    }
  }

  lemma KeepsEntry(out: Block, k: string, v: string, hosts: seq<string>, x: string)
    requires x in out && k != x && (IsRuleKey(k) ==> PriorityKey(k) != x)
    ensures var next := if IsRuleKey(k) then out[PriorityKey(k) := BACKEND_PRIORITY][k := ScopedRule(v, hosts)] else out[k := v];
            x in next && next[x] == out[x]
  {}

  lemma NotAgain(k: string, rule: string)
    requires IsRuleKey(rule) && k != rule
    ensures IsRuleKey(k) ==> PriorityKey(k) != PriorityKey(rule)
  {
    if IsRuleKey(k) && PriorityKey(k) == PriorityKey(rule) {
      SamePriority(k, rule);
    }
  }

  lemma RuleOrPriority(k: string)
    requires EndsWith(k, ".rule")
    ensures !IsRuleKey(PriorityKey(k))
  {
    KeyRoundTrip(k);
    KeyRoundTrip(PriorityKey(k));
  }

  lemma {:induction false} WalkWhenClear(items: seq<(string, string)>, hosts: seq<string>)
    requires DistinctKeys(items) && NoForeignPriorityAfter(items)
    ensures WalkScoped(items, hosts) == Scoped(AsBlock(items), hosts)
  {
    if items != [] {
      var n := |items| - 1;
      var before := items[..n];
      var (k, v) := items[n];
      assert forall m | 0 <= m < n :: before[m] == items[m];
      forall i, j | 0 <= i < j < |before| ensures !ForeignPriorityAfter(before, i, j) {
        assert !ForeignPriorityAfter(items, i, j);
      }
      WalkWhenClear(before, hosts);
      AsBlockOnly(before);
      var sofar := AsBlock(before);
      assert k !in sofar;
      KeyRoundTrip(k);
      RouterPrefix(k);
      if OwnsPriority(sofar, k) {
        var i :| 0 <= i < n && before[i].0 == RuleKeyOf(k);
        assert !ForeignPriorityAfter(items, i, n);
      }
      ScopedExtended(sofar, k, v, hosts);
    }
  }

  lemma ScopedExtended(labels: Block, k: string, v: string, hosts: seq<string>)
    requires k !in labels
    requires OwnsPriority(labels, k) ==> v == BACKEND_PRIORITY
    ensures Scoped(labels[k := v], hosts) ==
            if IsRuleKey(k) then Scoped(labels, hosts)[PriorityKey(k) := BACKEND_PRIORITY][k := ScopedRule(v, hosts)]
            else Scoped(labels, hosts)[k := v]
  {
    var left := Scoped(labels[k := v], hosts);
    var right := if IsRuleKey(k) then Scoped(labels, hosts)[PriorityKey(k) := BACKEND_PRIORITY][k := ScopedRule(v, hosts)]
                 else Scoped(labels, hosts)[k := v];
    forall x ensures (x in left <==> x in right) && (x in left ==> left[x] == right[x]) {
      ScopedHas(labels[k := v], hosts, x);
      ScopedHas(labels, hosts, x);
      OwnsNext(labels, k, v, x);
      NotBoth(x);
    }
  }

  lemma NotBoth(k: string)
    ensures !(IsRuleKey(k) && IsPriorityKey(k))
  {
    KeyRoundTrip(k);
  }

  lemma OwnsNext(labels: Block, k: string, v: string, x: string)
    ensures OwnsPriority(labels[k := v], x) <==>
            OwnsPriority(labels, x) || (IsRuleKey(k) && x == PriorityKey(k))
  {
    KeyRoundTrip(x);
    RouterPrefix(x);
    KeyRoundTrip(k);
    RouterPrefix(k);
  }

  lemma ScopedHas(labels: Block, hosts: seq<string>, x: string)
    ensures x in Scoped(labels, hosts) <==> x in labels || OwnsPriority(labels, x)
    ensures x in Scoped(labels, hosts) ==> Scoped(labels, hosts)[x] == ScopedValue(labels, hosts, x)
  {
    KeyRoundTrip(x);
    RouterPrefix(x);
    if x in Scoped(labels, hosts) && x !in labels {
      var k :| k in labels && IsRuleKey(k) && PriorityKey(k) == x;
      KeyRoundTrip(k);
      RouterPrefix(k);
    }
  }

  // `docker inspect` prints labels sorted by name, and `r.priority` sorts before
  // `r.rule`: read from a container, no priority follows its rule.
  predicate Precedes(a: string, b: string) {
    if a == "" then b != ""
    else if b == "" then false
    else a[0] < b[0] || (a[0] == b[0] && Precedes(a[1..], b[1..]))
  }

  lemma {:induction false} PrecedesOnce(a: string, b: string)
    requires Precedes(a, b)
    ensures !Precedes(b, a)
  {
    if a != "" && a[0] == b[0] {
      PrecedesOnce(a[1..], b[1..]);
    }
  }

  lemma {:induction false} PrecedesAfter(base: string, a: string, b: string)
    requires Precedes(a, b)
    ensures Precedes(base + a, base + b)
  {
    if base == "" {
      assert base + a == a && base + b == b;
    } else {
      assert (base + a)[1..] == base[1..] + a && (base + b)[1..] == base[1..] + b;
      PrecedesAfter(base[1..], a, b);
    }
  }

  lemma SortedWalkIsScoped(items: seq<(string, string)>, hosts: seq<string>)
    requires forall i, j | 0 <= i < j < |items| :: Precedes(items[i].0, items[j].0)
    ensures DistinctKeys(items) && WalkScoped(items, hosts) == Scoped(AsBlock(items), hosts)
  {
    forall i, j | 0 <= i < j < |items| ensures items[i].0 != items[j].0 {
      if items[i].0 == items[j].0 {
        PrecedesOnce(items[i].0, items[j].0);
      }
    }
    forall i, j | 0 <= i < j < |items| ensures !ForeignPriorityAfter(items, i, j) {
      if ForeignPriorityAfter(items, i, j) {
        var base := items[i].0[..|items[i].0| - 5];
        assert items[i].0 == base + ".rule";
        PrecedesOnce(items[i].0, items[j].0);
        assert ".priority"[1..] == "priority" && ".rule"[1..] == "rule";
        assert Precedes(".priority", ".rule");
        PrecedesAfter(base, ".priority", ".rule");
      }
    }
    WalkIsScoped(items, hosts);
  }

  // ----- scale-to-zero enrolment -----

  function Without(xs: seq<string>, x: string): seq<string> {
    if xs == [] then [] else (if xs[0] == x then [] else [xs[0]]) + Without(xs[1..], x)
  }

  // The middlewares a chain names.
  function Chain(v: string): seq<string> {
    Without(Split(v, ','), "")
  }

  function CleanChain(v: string, mw: string): string {
    Join(Without(Chain(v), mw), ",")
  }

  predicate Strips(labels: Block, app: string, k: string)
    requires k in labels
  {
    || IsSablierKey(k) || IsMiddlewareKey(k, app)
    || (IsChainKey(k) && CleanChain(labels[k], Middleware(app)) == "")
  }

  function Strip(labels: Block, app: string): Block {
    map k | k in labels && !Strips(labels, app, k) ::
      if IsChainKey(k) then CleanChain(labels[k], Middleware(app)) else labels[k]
  }

  datatype Config = Config(url: string, session: string, dynamic: bool, timeout: string)

  // The group labels and the definition of the plugin middleware.
  function Enrolment(app: string, cfg: Config): Block {
    var p := "traefik.http.middlewares." + Middleware(app) + ".plugin.sablier";
    map["sablier.enable" := "true",
        "sablier.group" := app,
        p + ".sablierUrl" := cfg.url,
        p + ".group" := app,
        p + ".sessionDuration" := cfg.session] +
    (if cfg.dynamic then map[p + ".dynamic.displayName" := app]
     else map[p + ".blocking.timeout" := cfg.timeout])
  }

  function Prepended(v: string, mw: string): string {
    if mw in Chain(v) then v else Join([mw] + Chain(v), ",")
  }

  function Enrolled(labels: Block, app: string, cfg: Config): Block {
    var d := Strip(labels, app);
    (map k | k in d :: if IsChainKey(k) then Prepended(d[k], Middleware(app)) else d[k]) + Enrolment(app, cfg)
  }

  predicate IsEnrolled(labels: Block, app: string) {
    && "sablier.group" in labels && labels["sablier.group"] == app
    && exists k | k in labels :: "traefik.http.middlewares." + Middleware(app) + "." <= k
  }

  // Everything the platform stamps on a backend, in one pass.
  function Desired(labels: Block, app: string, hosts: seq<string>, sleeps: bool, fronted: bool, cfg: Config): Block {
    var d := if sleeps then Enrolled(labels, app, cfg) else Strip(labels, app);
    if fronted then Scoped(d, hosts) else Unscoped(d, hosts)
  }
}
