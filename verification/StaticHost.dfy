// The shared static host (web/server.py): how a request is answered, how a
// sleeping backend is woken, and who owns the connections opened on the way.

module StaticHost {
  import opened Text
  import Redirects

  // ----- what a forward can come back with -----

  // A reply's status and whether it carries the static host's own down header.
  datatype Reply = Reply(status: int, down: bool)
  datatype Outcome = Failed | Answered(reply: Reply)

  // The static host's own answer coming back: no router for the backend.
  predicate IsDown(r: Reply) {
    r.status == 503 && r.down
  }

  // The proxy, not the app, could not reach the backend.
  predicate IsGatewayError(r: Reply) {
    (r.status == 502 || r.status == 503 || r.status == 504) && !r.down
  }

  predicate Stands(o: Outcome) {
    o.Answered? && !IsDown(o.reply) && !IsGatewayError(o.reply)
  }

  // Inside the wake loop a 500 is the proxy's too.
  predicate Served(o: Outcome) {
    Stands(o) && o.reply.status != 500
  }

  datatype Settings = Settings(delay: nat, wakeBudget: nat, gatewayBudget: nat)

  function Budget(first: Outcome, cfg: Settings): nat {
    if first.Answered? && IsDown(first.reply) then cfg.wakeBudget else cfg.gatewayBudget
  }

  function CeilDiv(a: nat, b: nat): nat
    requires b > 0
  {
    (a + b - 1) / b
  }

  lemma CeilDivBound(a: nat, b: nat, t: nat)
    requires b > 0 && t * b < a
    ensures t + 1 <= CeilDiv(a, b)
  {
    var q := (a + b - 1) / b;
    assert a + b - 1 == q * b + (a + b - 1) % b;
    assert q * b >= a;
  }

  // What a forward's outcome means, by status and header. It is handed straight on
  // unless the forward failed, it is a 503, or it is a 502 or 504 without the down
  // header; in the wake loop a 500 is not handed on either. Only a 503 with that
  // header says for certain that the app sleeps, and gets the longer budget.
  lemma OutcomeRead(o: Outcome, cfg: Settings)
    ensures Stands(o) <==> o.Answered? && o.reply.status != 503 && (o.reply.down || (o.reply.status != 502 && o.reply.status != 504))
    ensures Served(o) <==> o.Answered? && o.reply.status != 503 && o.reply.status != 500
                           && (o.reply.down || (o.reply.status != 502 && o.reply.status != 504))
    ensures Budget(o, cfg) == if o.Answered? && o.reply.status == 503 && o.reply.down then cfg.wakeBudget else cfg.gatewayBudget
  {}

  // The least number of pauses that last as long as the budget.
  lemma CeilDivLeast(a: nat, b: nat, t: nat)
    requires b > 0
    ensures t * b >= a <==> t >= CeilDiv(a, b)
  {
    var q := CeilDiv(a, b);
    assert q * b >= a && (q == 0 || (q - 1) * b < a) by {
      assert a + b - 1 == q * b + (a + b - 1) % b;
    }
    if t >= q {
      assert t * b >= q * b;
    } else {
      assert t * b <= (q - 1) * b;
    }
  }

  // ----- answers -----

  datatype Answer =
    | File(path: string, status: int)
    | RedirectTo(location: string, status: int)
    | Json(status: int, down: bool)
    | Streamed(upstream: nat, reply: Reply)

  function StatusOf(a: Answer): int {
    match a
    case File(_, status) => status
    case RedirectTo(_, status) => status
    case Json(status, _) => status
    case Streamed(_, reply) => reply.status
  }

  datatype Exit = Fast | WakeFailed | Retried | LastTry | Unreachable

  datatype Manifest = Manifest(hasBackend: bool, spa: bool, redirects: seq<Redirects.Entry>)

  // A request as far as the answer depends on it; `path` is the decoded path.
  datatype Incoming = Incoming(read: bool, path: string, query: string, marked: bool, html: bool)

  const INDEX_FILES := ["index.html", "index.htm"]

  // The bundle's files by their paths, the manifest not among them.
  type Site = set<string>

  function IndexOfSite(site: Site): Option<string> {
    if "/index.html" in site then Some("/index.html")
    else if "/index.htm" in site then Some("/index.htm")
    else None
  }

  // The file a path names: itself, or the index of a directory.
  function FileFor(site: Site, path: string): Option<string> {
    if path in site then Some(path)
    else if EndsWith(path, "/") && path + INDEX_FILES[0] in site then Some(path + INDEX_FILES[0])
    else if EndsWith(path, "/") && path + INDEX_FILES[1] in site then Some(path + INDEX_FILES[1])
    else None
  }

  // What the bundle says about a path nobody has.
  function OwnNotFound(site: Site, mf: Manifest, html: bool): Option<Answer> {
    if mf.spa && IndexOfSite(site).Some? then Some(File(IndexOfSite(site).value, 200))
    else if html && "/404.html" in site then Some(File("/404.html", 404))
    else None
  }

  // The file a path names: the path itself if it is one, and under a path that ends
  // with a slash the first index there is.
  lemma FileForExactly(site: Site, path: string, f: string)
    ensures FileFor(site, path) == Some(f) <==>
            && f in site
            && (f == path
                || (path !in site && path != "" && path[|path| - 1] == '/'
                    && (f == path + "index.html" || (f == path + "index.htm" && path + "index.html" !in site))))
  {
    assert EndsWith(path, "/") <==> path != "" && path[|path| - 1] == '/' by {
      if path != "" {
        assert path[|path| - 1..] == [path[|path| - 1]];
      }
    }
  }

  // What the bundle answers to a path nobody has: a single-page app its index, and
  // otherwise its 404 page to a caller that wants a page.
  lemma OwnNotFoundExactly(site: Site, mf: Manifest, html: bool)
    ensures var index := if "/index.html" in site then "/index.html" else "/index.htm";
            OwnNotFound(site, mf, html) ==
              if mf.spa && index in site then Some(File(index, 200))
              else if html && "/404.html" in site then Some(File("/404.html", 404))
              else None
  {}

  // ----- the host -----

  // `outcomes`, `wakings` and `lags` are the environment: what the n-th forward
  // comes back with, whether the n-th wake call succeeds, how long the n-th
  // forward (and the pause before it, beyond the asked-for delay) takes.
  class Host {
    const outcomes: nat -> Outcome
    const wakings: nat -> bool
    const lags: nat -> nat
    var forwards: nat
    var wakes: nat
    var now: nat
    // Every close of an upstream; an upstream is named by its forward.
    var closes: multiset<nat>

    constructor (outcomes: nat -> Outcome, wakings: nat -> bool, lags: nat -> nat)
      ensures Owned({}) && forwards == 0
      ensures this.outcomes == outcomes && this.wakings == wakings && this.lags == lags
    {
      this.outcomes, this.wakings, this.lags := outcomes, wakings, lags;
      forwards, wakes, now := 0, 0, 0;
      closes := multiset{};
    }

    predicate Opened(u: nat)
      reads this
    {
      u < forwards && outcomes(u).Answered?
    }

    // Exactly the upstreams in `kept` are still open: every other one that was
    // opened has been closed exactly once, and nothing else has been closed.
    ghost predicate Owned(kept: set<nat>)
      reads this
    {
      && (forall u | u in kept :: Opened(u))
      && (forall u: nat :: closes[u] == if Opened(u) && u !in kept then 1 else 0)
    }

    // One hop to the backend.
    method Send() returns (sent: Option<nat>)
      modifies this
      ensures forwards == old(forwards) + 1 && now == old(now) + lags(old(forwards))
      ensures wakes == old(wakes) && closes == old(closes)
      ensures sent == if outcomes(old(forwards)).Answered? then Some(old(forwards)) else None
    {
      var n := forwards;
      forwards := forwards + 1;
      now := now + lags(n);
      sent := if outcomes(n).Answered? then Some(n) else None;
    }

    method Close(u: nat)
      modifies this
      ensures closes == old(closes) + multiset{u}
      ensures forwards == old(forwards) && wakes == old(wakes) && now == old(now)
    {
      closes := closes + multiset{u};
    }

    method Wake() returns (ok: bool)
      modifies this
      ensures ok == wakings(old(wakes)) && wakes == old(wakes) + 1
      ensures forwards == old(forwards) && closes == old(closes) && now >= old(now)
    {
      ok := wakings(wakes);
      wakes := wakes + 1;
    }

    method Sleep(ms: nat)
      modifies this
      ensures now == old(now) + ms
      ensures forwards == old(forwards) && wakes == old(wakes) && closes == old(closes)
    {
      now := now + ms;
    }

    // Poll at a flat cadence until the backend serves or the budget is spent.
    method Poll(budget: nat, cfg: Settings, ghost kept: set<nat>) returns (served: bool)
      requires cfg.delay > 0 && Owned(kept)
      modifies this
      ensures wakes == old(wakes)
      ensures old(forwards) <= forwards <= old(forwards) + CeilDiv(budget, cfg.delay)
      ensures served ==> forwards > old(forwards) && Served(outcomes(forwards - 1))
                         && forwards - 1 !in kept && Owned(kept + {(forwards - 1) as nat})
      ensures !served ==> now >= old(now) + budget && Owned(kept)
      ensures forall n | old(forwards) <= n < forwards - (if served then 1 else 0) :: !Served(outcomes(n))
    {
      var deadline := now + budget;
      ghost var tries: nat := 0;
      while now < deadline
        invariant forwards == old(forwards) + tries
        invariant wakes == old(wakes)
        invariant now >= old(now) + tries * cfg.delay
        invariant tries <= CeilDiv(budget, cfg.delay)
        invariant Owned(kept)
        invariant forall n | old(forwards) <= n < forwards :: !Served(outcomes(n))
        decreases deadline - now
      {
        CeilDivBound(budget, cfg.delay, tries);
        Sleep(cfg.delay);
        tries := tries + 1;
        assert tries * cfg.delay == (tries - 1) * cfg.delay + cfg.delay;
        var sent := Send();
        if Served(outcomes(forwards - 1)) {
          return true;
        }
        if sent.Some? {
          Close(sent.value);
        }
      }
      return false;
    }

    // Forward a request, waking the backend when it turns out to be asleep.
    method Proxy(cfg: Settings, ghost kept: set<nat>) returns (resp: Answer, exit: Exit)
      requires cfg.delay > 0 && Owned(kept)
      modifies this
      // ownership: the only upstream left open is the one behind the answer
      ensures resp.Streamed? ==> resp.upstream !in kept && Owned(kept + {resp.upstream})
      ensures !resp.Streamed? ==> Owned(kept)
      // bounds
      ensures old(wakes) <= wakes <= old(wakes) + 1
      ensures old(forwards) < forwards <= old(forwards) + CeilDiv(Budget(outcomes(old(forwards)), cfg), cfg.delay) + 2
      // which way it went
      ensures exit.Fast? <==> Stands(outcomes(old(forwards)))
      ensures exit.Fast? ==> forwards == old(forwards) + 1 && wakes == old(wakes)
      ensures !exit.Fast? ==> (wakes == old(wakes) + 1 <==> outcomes(old(forwards)).Answered?)
      ensures exit.WakeFailed? <==> !exit.Fast? && wakes == old(wakes) + 1 && !wakings(old(wakes))
      ensures exit.WakeFailed? ==> forwards == old(forwards) + 1
      // nothing before the last forward could have been handed on
      ensures forall n | old(forwards) < n < forwards - 1 :: !Served(outcomes(n))
      ensures exit.Retried? ==> forwards > old(forwards) + 1 && Served(outcomes(forwards - 1))
      ensures exit.LastTry? || exit.Unreachable? ==>
                forwards > old(forwards) + 1 && now >= old(now) + Budget(outcomes(old(forwards)), cfg)
      ensures exit.Unreachable? ==> outcomes(forwards - 1).Failed?
      // the answer is the last forward's, or the host's own 502
      ensures exit.WakeFailed? || exit.Unreachable? ==> resp == Json(502, false)
      ensures !exit.WakeFailed? && !exit.Unreachable? ==>
                outcomes(forwards - 1).Answered?
                && resp == Streamed((forwards - 1) as nat, outcomes(forwards - 1).reply)
    {
      var first := Send();
      var probe := outcomes(forwards - 1);
      if Stands(probe) {
        return Streamed(forwards - 1, probe.reply), Fast;
      }
      var budget := Budget(probe, cfg);
      if first.Some? {
        Close(first.value);
        var woke := Wake();
        if !woke {
          return Json(502, false), WakeFailed;
        }
      }
      resp, exit := WaitForIt(budget, cfg, kept);
    }

    // After the first forward: poll, then one last forward whose answer stands
    // whatever it is.
    method WaitForIt(budget: nat, cfg: Settings, ghost kept: set<nat>) returns (resp: Answer, exit: Exit)
      requires cfg.delay > 0 && Owned(kept)
      modifies this
      ensures resp.Streamed? ==> resp.upstream !in kept && Owned(kept + {resp.upstream})
      ensures !resp.Streamed? ==> Owned(kept)
      ensures wakes == old(wakes)
      ensures old(forwards) < forwards <= old(forwards) + CeilDiv(budget, cfg.delay) + 1
      ensures exit.Retried? || exit.LastTry? || exit.Unreachable?
      ensures forall n | old(forwards) <= n < forwards - 1 :: !Served(outcomes(n))
      ensures exit.Retried? ==> Served(outcomes(forwards - 1))
      ensures !exit.Retried? ==> now >= old(now) + budget
      ensures exit.Unreachable? ==> outcomes(forwards - 1).Failed? && resp == Json(502, false)
      ensures !exit.Unreachable? ==>
                outcomes(forwards - 1).Answered?
                && resp == Streamed((forwards - 1) as nat, outcomes(forwards - 1).reply)
    {
      var served := Poll(budget, cfg, kept);
      if served {
        return Streamed(forwards - 1, outcomes(forwards - 1).reply), Retried;
      }
      var last := Send();
      if last.Some? {
        return Streamed(forwards - 1, outcomes(forwards - 1).reply), LastTry;
      }
      return Json(502, false), Unreachable;
    }

    // Drop the upstream behind an answer that is being replaced.
    method Release(resp: Answer, ghost kept: set<nat>)
      requires resp.Streamed? ==> resp.upstream !in kept && Owned(kept + {resp.upstream})
      requires !resp.Streamed? ==> Owned(kept)
      modifies this
      ensures Owned(kept)
      ensures forwards == old(forwards) && wakes == old(wakes)
    {
      if resp.Streamed? {
        Close(resp.upstream);
      }
    }

    // A path neither the bundle nor the backend has.
    method NotFound(site: Site, mf: Manifest, html: bool, backend: Option<Answer>, ghost kept: set<nat>)
      returns (resp: Answer)
      requires backend.Some? && backend.value.Streamed? ==>
                 backend.value.upstream !in kept && Owned(kept + {backend.value.upstream})
      requires backend.None? || !backend.value.Streamed? ==> Owned(kept)
      modifies this
      ensures resp == if OwnNotFound(site, mf, html).Some? then OwnNotFound(site, mf, html).value
                      else if backend.Some? then backend.value
                      else Json(404, false)
      ensures resp.Streamed? ==> resp.upstream !in kept && Owned(kept + {resp.upstream})
      ensures !resp.Streamed? ==> Owned(kept)
      ensures forwards == old(forwards) && wakes == old(wakes)
    {
      if mf.spa {
        var index := IndexOfSite(site);
        if index.Some? {
          if backend.Some? {
            Release(backend.value, kept);
          }
          return File(index.value, 200);
        }
      }
      if html && "/404.html" in site {
        if backend.Some? {
          Release(backend.value, kept);
        }
        return File("/404.html", 404);
      }
      if backend.Some? {
        return backend.value;
      }
      return Json(404, false);
    }

    // Answer one request. `app` is the app that owns the hostname, `site` its
    // bundle when it has a directory.
    method Resolve(q: Incoming, app: Option<string>, self: string, site: Option<Site>, mf: Manifest,
                   carry: (string, string) -> string, cfg: Settings, ghost kept: set<nat>)
      returns (resp: Answer)
      requires cfg.delay > 0 && Owned(kept)
      modifies this
      // through every path, the only upstream left open is the one behind the answer
      ensures resp.Streamed? ==> resp.upstream !in kept && Owned(kept + {resp.upstream})
      ensures !resp.Streamed? ==> Owned(kept)
      ensures wakes <= old(wakes) + 1
      // what is answered without the backend
      ensures MayAnswer(q, app, self, site, mf, resp)
      // a forward is made exactly for an unmarked request of a hosted app with a
      // backend that no redirect and no file answers
      ensures forwards > old(forwards) <==> Forwards(q, app, self, site, mf)
      ensures !Forwards(q, app, self, site, mf) ==> wakes == old(wakes) && closes == old(closes)
      // otherwise the backend's answer stands, or the host's own 502 when it was not
      // reached or not woken; but the bundle speaks for a read answered 404, as a
      // single-page app or to a caller that wants a page
      ensures Forwards(q, app, self, site, mf) ==>
        var last := outcomes(forwards - 1);
        var index := if "/index.html" in site.value then "/index.html" else "/index.htm";
        var spoken := q.read && last.Answered? && last.reply.status == 404;
        if spoken && mf.spa && index in site.value then resp == File(index, 200)
        else if spoken && q.html && "/404.html" in site.value then resp == File("/404.html", 404)
        else if last.Failed? || (wakes > old(wakes) && !wakings(old(wakes))) then resp == Json(502, false)
        else resp == Streamed((forwards - 1) as nat, last.reply)
    {
      if q.marked {
        return Json(503, true);
      }
      if app.None? || app.value == self || site.None? {
        return Json(404, false);
      }
      var hit, index := Redirects.Match(mf.redirects, q.path, q.query, carry);
      if hit.Some? {
        return RedirectTo(hit.value.0, hit.value.1);
      }
      if !q.read {
        if !mf.hasBackend {
          return Json(404, false);
        }
        var exit;
        resp, exit := Proxy(cfg, kept);
        return resp;
      }
      var f := FileFor(site.value, q.path);
      if f.Some? {
        return File(f.value, 200);
      }
      if !mf.hasBackend {
        resp := NotFound(site.value, mf, q.html, None, kept);
        return resp;
      }
      var exit;
      resp, exit := Proxy(cfg, kept);
      if StatusOf(resp) == 404 {
        resp := NotFound(site.value, mf, q.html, Some(resp), kept);
      }
    }
  }

  predicate Hosted(app: Option<string>, self: string, site: Option<Site>) {
    app.Some? && app.value != self && site.Some?
  }

  ghost predicate Redirected(q: Incoming, mf: Manifest) {
    exists i | 0 <= i < |mf.redirects| :: Redirects.Applies(mf.redirects[i], q.path)
  }

  ghost predicate Forwards(q: Incoming, app: Option<string>, self: string, site: Option<Site>, mf: Manifest) {
    && !q.marked && Hosted(app, self, site) && !Redirected(q, mf) && mf.hasBackend
    && (!q.read || FileFor(site.value, q.path).None?)
  }
  // The answers open to the host. Its own forward coming back is answered as such;
  // a redirect beats everything, then a file answers a read, and what nobody has
  // is the bundle's to answer.
  ghost predicate MayAnswer(q: Incoming, app: Option<string>, self: string, site: Option<Site>, mf: Manifest, resp: Answer) {
    if q.marked then resp == Json(503, true)
    else if !Hosted(app, self, site) then resp == Json(404, false)
    else if Redirected(q, mf) then
      exists i ::
        && Redirects.First(mf.redirects, i, q.path)
        && resp.RedirectTo? && resp.status == Redirects.StatusOf(mf.redirects[i])
        && (q.query == "" ==> resp.location == Redirects.Location(mf.redirects[i], q.path))
    else if q.read && FileFor(site.value, q.path).Some? then resp == File(FileFor(site.value, q.path).value, 200)
    else if mf.hasBackend then Forwards(q, app, self, site, mf)
    else if q.read && OwnNotFound(site.value, mf, q.html).Some? then resp == OwnNotFound(site.value, mf, q.html).value
    else resp == Json(404, false)
  }
}
