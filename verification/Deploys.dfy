// Deploys through an orchestrator that may drop them or silently roll them back,
// and what is recorded of them (app/autoupdate.py, app/deploys.py). Everything read
// from outside is the environment's choice.

module Deploys {
  import opened Text

  type App = string
  type Digest = string
  type Image = string
  type DeployId = string

  datatype Ref = Ref(repo: string, tag: string)

  // One round of inspections: no container, or what each of them answered. Start
  // times are compared by rank.
  datatype Poll = Missing | Seen(started: Option<nat>, state: string, health: string, image: Image)

  // ----- verification -----

  const VERIFY_TIMEOUT := 150
  const POLL_SECONDS := 5

  function Rounds(timeout: int): nat {
    if timeout <= 0 then 0 else (timeout + POLL_SECONDS - 1) / POLL_SECONDS
  }

  predicate Replaced(p: Poll, before: Option<nat>)
    requires p.Seen?
  {
    p.started.Some? && (before.None? || p.started.value > before.value)
  }

  predicate OnTarget(p: Poll, target: Option<Image>)
    requires p.Seen?
  {
    target.None? || p.image == target.value
  }

  // The container was replaced, runs the target and is well.
  predicate Landed(p: Poll, before: Option<nat>, target: Option<Image>) {
    p.Seen? && Replaced(p, before) && OnTarget(p, target) && p.state == "running" && p.health in ["healthy", "none"]
  }

  // The first round that shows the deploy landed, or their number.
  function FirstLanded(polls: seq<Poll>, before: Option<nat>, target: Option<Image>): (n: nat)
    ensures n <= |polls|
    ensures n < |polls| ==> Landed(polls[n], before, target)
    ensures forall m | 0 <= m < n :: !Landed(polls[m], before, target)
  {
    if polls == [] || Landed(polls[0], before, target) then 0 else 1 + FirstLanded(polls[1..], before, target)
  }

  datatype Reason = RolledBack | WrongImage | Unhealthy
  datatype Verdict = Verified(image: Image) | NotVerified(reason: Reason)

  // The last round that saw a container.
  function LastSeen(polls: seq<Poll>): Poll {
    if polls == [] then Missing
    else if polls[|polls| - 1].Seen? then polls[|polls| - 1]
    else LastSeen(polls[..|polls| - 1])
  }

  function ReasonOf(last: Poll, before: Option<nat>, target: Option<Image>): Reason {
    if last.Missing? || !Replaced(last, before) then RolledBack
    else if !OnTarget(last, target) then WrongImage
    else Unhealthy
  }

  function VerdictOf(polls: seq<Poll>, before: Option<nat>, target: Option<Image>): Verdict {
    var n := FirstLanded(polls, before, target);
    if n < |polls| then Verified(polls[n].image) else NotVerified(ReasonOf(LastSeen(polls), before, target))
  }

  // Polls until a round shows the deploy landed, or the time is up.
  method VerifyDeploy(polls: seq<Poll>, before: Option<nat>, timeout: int, target: Option<Image>)
    returns (v: Verdict, slept: nat)
    requires |polls| == Rounds(timeout)
    ensures v == VerdictOf(polls, before, target)
    ensures slept == FirstLanded(polls, before, target)
    // verified just when some round saw a container started after the one before,
    // with the image deployed, running and not unhealthy
    ensures v.Verified? <==> exists n | 0 <= n < |polls| ::
      && polls[n].Seen? && polls[n].started.Some? && (before.Some? ==> polls[n].started.value > before.value)
      && (target.Some? ==> polls[n].image == target.value)
      && polls[n].state == "running" && (polls[n].health == "healthy" || polls[n].health == "none")
  {
    var deadline := timeout;
    var last := Missing;
    slept := 0;
    while deadline > 0
      invariant slept <= |polls| && Rounds(deadline) == |polls| - slept
      invariant last == LastSeen(polls[..slept])
      invariant forall m | 0 <= m < slept :: !Landed(polls[m], before, target)
      decreases deadline
    {
      var p := polls[slept];
      assert polls[..slept + 1][..slept] == polls[..slept];
      if p.Seen? {
        last := p;
        if Landed(p, before, target) {
          return Verified(p.image), slept;
        }
      }
      deadline := deadline - POLL_SECONDS;
      slept := slept + 1;
    }
    assert polls[..|polls|] == polls;
    v := NotVerified(ReasonOf(last, before, target));
  }

  // What a verdict says of the rounds themselves: the image of the first one that saw
  // a container started later than before, on the image deployed, running and not
  // unhealthy.
  lemma VerifiedExactly(polls: seq<Poll>, before: Option<nat>, target: Option<Image>, image: Image)
    ensures VerdictOf(polls, before, target) == Verified(image) <==>
      exists n | 0 <= n < |polls| ::
        && polls[n].Seen? && polls[n].started.Some? && (before.Some? ==> polls[n].started.value > before.value)
        && (target.Some? ==> polls[n].image == target.value)
        && polls[n].state == "running" && (polls[n].health == "healthy" || polls[n].health == "none")
        && polls[n].image == image && VerdictOf(polls[..n], before, target).NotVerified?
  {
    forall n | 0 <= n < |polls| && Landed(polls[n], before, target)
      ensures VerdictOf(polls[..n], before, target).NotVerified? <==> n == FirstLanded(polls, before, target)
    {
      var first := FirstLanded(polls, before, target);
      if first < n {
        assert Landed(polls[..n][first], before, target);
      }
    }
  }

  lemma {:induction false} LastSeenIs(polls: seq<Poll>)
    ensures LastSeen(polls).Missing? <==> forall n | 0 <= n < |polls| :: polls[n].Missing?
    ensures LastSeen(polls).Seen? ==> exists n | 0 <= n < |polls| ::
              polls[n] == LastSeen(polls) && forall m | n < m < |polls| :: polls[m].Missing?
  {
    if polls != [] {
      var last := |polls| - 1;
      LastSeenIs(polls[..last]);
      if polls[last].Missing? && LastSeen(polls).Seen? {
        var n :| 0 <= n < last && polls[..last][n] == LastSeen(polls) && forall m | n < m < last :: polls[..last][m].Missing?;
        assert polls[n] == LastSeen(polls);
        assert forall m | n < m < last :: polls[m] == polls[..last][m];
      } else if polls[last].Missing? {
        assert forall n | 0 <= n < last :: polls[n] == polls[..last][n];
      }
    }
  }

  // The reason given for a deploy that was not verified, by the last container seen:
  // none, or not a later one, means rolled back; a later one on another image, the
  // wrong image; else unhealthy.
  lemma ReasonExactly(polls: seq<Poll>, before: Option<nat>, target: Option<Image>, n: nat)
    requires VerdictOf(polls, before, target).NotVerified?
    requires n < |polls| && polls[n].Seen? && forall m | n < m < |polls| :: polls[m].Missing?
    ensures var later := polls[n].started.Some? && (before.Some? ==> polls[n].started.value > before.value);
            VerdictOf(polls, before, target).reason ==
              if later && target.Some? && polls[n].image != target.value then WrongImage
              else if later then Unhealthy else RolledBack
  {
    LastSeenIs(polls);
    assert LastSeen(polls) == polls[n];
  }

  // A dropped deploy, or one undone before it was looked at: when no round shows a
  // container started later than the one before, the verdict is that it was rolled
  // back, however healthy the container is and whatever it runs.
  lemma NothingNewIsRolledBack(polls: seq<Poll>, before: nat, target: Option<Image>)
    requires forall n | 0 <= n < |polls| && polls[n].Seen? && polls[n].started.Some? :: polls[n].started.value <= before
    ensures VerdictOf(polls, Some(before), target) == NotVerified(RolledBack)
  {
    LastSeenIs(polls);
  }

  // ----- the books -----

  // What the deploy said about itself, stored with its row.
  datatype Outcome =
    | Error
    | Current(image: Image)
    | Deployed(ref: Ref, digest: Option<Digest>, target: Option<Image>, verdict: Verdict)

  datatype AppRow = AppRow(image: Option<Ref>, watch: Option<string>, digest: Option<Digest>)
  datatype DeployRow = DeployRow(app: App, queuedAt: int, ok: Option<bool>, outcome: Option<Outcome>)

  // A deploy asked of the orchestrator.
  datatype Issue = Issued(op: DeployId, app: App, ref: Ref)

  datatype Books = Books(apps: map<App, AppRow>, deploys: map<DeployId, DeployRow>, log: seq<Issue>)

  // What check_and_update reads, in order.
  datatype Reads = Reads(digest: Option<Digest>, target: Option<Image>, running: Option<Image>,
                         before: Option<nat>, polls: seq<Poll>)

  function Watched(row: AppRow): Ref
    requires row.image.Some?
  {
    Ref(row.image.value.repo, if row.watch.None? || row.watch.value == "" then "latest" else row.watch.value)
  }

  // Nothing to do, confirmed against the container.
  predicate IsCurrent(row: AppRow, r: Reads) {
    r.digest.Some? && r.digest == row.digest && r.target.Some? && r.running == r.target
  }

  function CheckOutcome(row: AppRow, r: Reads): Outcome
    requires row.image.Some?
  {
    if r.digest.None? then Error
    else if IsCurrent(row, r) then Current(r.running.value)
    else Deployed(Watched(row), r.digest, r.target, VerdictOf(r.polls, r.before, r.target))
  }

  function IssuesOf(op: DeployId, app: App, o: Outcome): seq<Issue> {
    if o.Deployed? then [Issued(op, app, o.ref)] else []
  }

  // The app's row changes only on a verified deploy.
  function Checked(b: Books, op: DeployId, app: App, r: Reads): Books
    requires app in b.apps && b.apps[app].image.Some?
  {
    var o := CheckOutcome(b.apps[app], r);
    var apps :=
      if o.Deployed? && o.verdict.Verified? then
        b.apps[app := b.apps[app].(image := Some(o.ref), digest := o.digest)]
      else b.apps;
    b.(apps := apps, log := b.log + IssuesOf(op, app, o))
  }

  // A first deploy: the image comes from the caller, the recorded digest is cleared
  // and read again only after the container was verified.
  function FirstOutcome(image: Ref, r: Reads): Outcome {
    Deployed(image, r.digest, r.target, VerdictOf(r.polls, r.before, r.target))
  }

  function Applied(row: AppRow, image: Ref): AppRow {
    var gained := row.image.None?;
    AppRow(Some(image), if gained || row.watch.Some? then Some(image.tag) else None, None)
  }

  function FirstDeployed(b: Books, op: DeployId, app: App, image: Ref, r: Reads): Books
    requires app in b.apps
  {
    var o := FirstOutcome(image, r);
    var row := Applied(b.apps[app], image);
    var row' := if o.verdict.Verified? && r.digest.Some? then row.(digest := r.digest) else row;
    b.(apps := b.apps[app := row'], log := b.log + IssuesOf(op, app, o))
  }

  // Passes only on an affirmative verification.
  predicate Passed(o: Outcome) {
    match o
    case Error => false
    case Current(_) => true
    case Deployed(_, _, _, verdict) => verdict.Verified?
  }

  // Where an outside call raises, if anywhere.
  datatype Raise = Never | BeforeIssue | AfterIssue | AtTheEnd

  function Ran(b: Books, op: DeployId, app: App, image: Option<Ref>, r: Reads, raise: Raise): (Books, Outcome) {
    if app !in b.apps || raise == BeforeIssue then (b, Error)
    else if b.apps[app].image.None? then
      if image.None? then (b, Error)
      else if raise == AfterIssue then (b.(log := b.log + [Issued(op, app, image.value)]), Error)
      else (FirstDeployed(b, op, app, image.value, r), if raise == Never then FirstOutcome(image.value, r) else Error)
    else if raise == AfterIssue then
      (if r.digest.None? || IsCurrent(b.apps[app], r) then b
       else b.(log := b.log + [Issued(op, app, Watched(b.apps[app]))]), Error)
    else (Checked(b, op, app, r), if raise == Never then CheckOutcome(b.apps[app], r) else Error)
  }

  function Finished(b: Books, id: DeployId, o: Outcome, written: bool): Books {
    if !written || id !in b.deploys then b
    else b.(deploys := b.deploys[id := b.deploys[id].(ok := Some(Passed(o)), outcome := Some(o))])
  }

  function Started(b: Books, id: DeployId, app: App, now: int): Books {
    if id in b.deploys then b else b.(deploys := b.deploys[id := DeployRow(app, now, None, None)])
  }

  const STALE_AFTER := 20 * 60

  datatype State = Succeeded | Failed | Running | Unknown

  function StateOf(row: DeployRow, now: int): State {
    if row.ok.None? then if row.queuedAt < now - STALE_AFTER then Unknown else Running
    else if row.ok.value then Succeeded
    else Failed
  }

  class Control {
    var apps: map<App, AppRow>
    var deploys: map<DeployId, DeployRow>
    ghost var log: seq<Issue>

    ghost function State(): Books
      reads this
    {
      Books(apps, deploys, log)
    }

    constructor ()
      ensures State() == Books(map[], map[], [])
    {
      apps, deploys, log := map[], map[], [];
    }

    method CheckAndUpdate(ghost op: DeployId, app: App, r: Reads) returns (o: Outcome)
      requires app in apps && apps[app].image.Some? && |r.polls| == Rounds(VERIFY_TIMEOUT)
      modifies this
      ensures State() == Checked(old(State()), op, app, r)
      ensures o == CheckOutcome(old(apps)[app], r)
    {
      var row := apps[app];
      var ref := Watched(row);
      if r.digest.None? {
        return Error;
      }
      if r.digest == row.digest && r.target.Some? && r.running == r.target {
        assert log + [] == log;
        return Current(r.running.value);
      }
      log := log + [Issued(op, app, ref)];
      var v, _ := VerifyDeploy(r.polls, r.before, VERIFY_TIMEOUT, r.target);
      o := Deployed(ref, r.digest, r.target, v);
      if v.NotVerified? {
        return;
      }
      apps := apps[app := row.(image := Some(ref), digest := r.digest)];
    }

    method ApplyAndSettle(ghost op: DeployId, app: App, image: Ref, r: Reads) returns (o: Outcome)
      requires app in apps && |r.polls| == Rounds(VERIFY_TIMEOUT)
      modifies this
      ensures State() == FirstDeployed(old(State()), op, app, image, r)
      ensures o == FirstOutcome(image, r)
    {
      var row := apps[app];
      var gained := row.image.None?;
      log := log + [Issued(op, app, image)];
      var watch := if gained || row.watch.Some? then Some(image.tag) else None;
      apps := apps[app := AppRow(Some(image), watch, None)];
      var v, _ := VerifyDeploy(r.polls, r.before, VERIFY_TIMEOUT, r.target);
      o := Deployed(image, r.digest, r.target, v);
      if v.Verified? {
        if r.digest.Some? {
          apps := apps[app := apps[app].(digest := r.digest)];
        }
      }
    }

    method Start(id: DeployId, app: App, now: int)
      modifies this
      ensures State() == Started(old(State()), id, app, now)
    {
      if id !in deploys {
        deploys := deploys[id := DeployRow(app, now, None, None)];
      }
    }

    method Finish(id: DeployId, o: Outcome, written: bool)
      modifies this
      ensures State() == Finished(old(State()), id, o, written)
    {
      if written && id in deploys {
        deploys := deploys[id := deploys[id].(ok := Some(Passed(o)), outcome := Some(o))];
      }
    }

    // A queued deploy, and how it ended.
    method Run(id: DeployId, app: App, image: Option<Ref>, r: Reads, raise: Raise, written: bool)
      requires |r.polls| == Rounds(VERIFY_TIMEOUT)
      modifies this
      ensures var (b, o) := Ran(old(State()), id, app, image, r, raise);
              State() == Finished(b, id, o, written)
    {
      var o := Error;
      if app in apps && raise != BeforeIssue {
        if apps[app].image.None? {
          if image.Some? {
            if raise == AfterIssue {
              log := log + [Issued(id, app, image.value)];
            } else {
              var settled := ApplyAndSettle(id, app, image.value, r);
              o := if raise == Never then settled else Error;
            }
          }
        } else if raise == AfterIssue {
          if r.digest.Some? && !IsCurrent(apps[app], r) {
            log := log + [Issued(id, app, Watched(apps[app]))];
          }
        } else {
          var checked := CheckAndUpdate(id, app, r);
          o := if raise == Never then checked else Error;
        }
      }
      Finish(id, o, written);
    }

    method Get(app: App, id: DeployId, now: int) returns (state: Option<State>)
      ensures state.None? <==> id !in deploys || deploys[id].app != app
      ensures state.Some? ==> state.value == StateOf(deploys[id], now)
      // without an outcome it is running for twenty minutes, and then unknown
      ensures state == Some(Succeeded) ==> deploys[id].ok == Some(true)
      ensures state == Some(Failed) ==> deploys[id].ok == Some(false)
      ensures state == Some(Running) ==> deploys[id].ok == None && now - deploys[id].queuedAt <= 20 * 60
      ensures state == Some(Unknown) ==> deploys[id].ok == None && now - deploys[id].queuedAt > 20 * 60
    {
      if id !in deploys || deploys[id].app != app {
        return None;
      }
      state := Some(StateOf(deploys[id], now));
    }
  }

  // ----- one pass -----

  // The tag deployed is the one watched, and `latest` where none is.
  lemma IssuesWatchedTag(b: Books, op: DeployId, app: App, r: Reads, i: Issue)
    requires app in b.apps && b.apps[app].image.Some?
    requires i in Checked(b, op, app, r).log[|b.log|..]
    ensures i.op == op && i.app == app && i.ref.repo == b.apps[app].image.value.repo
    ensures var watch := b.apps[app].watch;
            i.ref.tag == if watch.Some? && watch.value != "" then watch.value else "latest"
  {
    assert Checked(b, op, app, r).log[|b.log|..] == IssuesOf(op, app, CheckOutcome(b.apps[app], r));
    assert i == Issued(op, app, Watched(b.apps[app]));
  }

  // A pass whose deploy was dropped fails and records nothing.
  lemma DroppedDeployFails(b: Books, op: DeployId, app: App, r: Reads)
    requires app in b.apps && b.apps[app].image.Some?
    requires r.before.Some? && !(r.digest == b.apps[app].digest && r.target.Some? && r.running == r.target)
    requires forall n | 0 <= n < |r.polls| && r.polls[n].Seen? && r.polls[n].started.Some? ::
               r.polls[n].started.value <= r.before.value
    ensures !Passed(CheckOutcome(b.apps[app], r)) && Checked(b, op, app, r).apps == b.apps
    ensures r.digest.Some? ==> CheckOutcome(b.apps[app], r).verdict == NotVerified(RolledBack)
  {
    NothingNewIsRolledBack(r.polls, r.before.value, r.target);
  }

  // So does a first deploy: the digest is left cleared.
  lemma DroppedFirstDeploy(b: Books, op: DeployId, app: App, image: Ref, r: Reads)
    requires app in b.apps && r.before.Some?
    requires forall n | 0 <= n < |r.polls| && r.polls[n].Seen? && r.polls[n].started.Some? ::
               r.polls[n].started.value <= r.before.value
    ensures !Passed(FirstOutcome(image, r)) && FirstDeployed(b, op, app, image, r).apps[app].digest == None
  {
    NothingNewIsRolledBack(r.polls, r.before.value, r.target);
  }

  // Some round of the pass saw the container replaced, on target and well.
  predicate SawLanded(r: Reads) {
    exists n | 0 <= n < |r.polls| :: Landed(r.polls[n], r.before, r.target)
  }

  // A deploy is issued exactly when the tag could be pulled and the container was
  // not confirmed to run what the row says is deployed.
  lemma IssuesUnlessConfirmed(b: Books, op: DeployId, app: App, r: Reads)
    requires app in b.apps && b.apps[app].image.Some?
    ensures Issued(op, app, Watched(b.apps[app])) in Checked(b, op, app, r).log[|b.log|..]
       <==> r.digest.Some? && !(r.digest == b.apps[app].digest && r.target.Some? && r.running == r.target)
    ensures r.digest.Some? && r.running != r.target ==>
      Issued(op, app, Watched(b.apps[app])) in Checked(b, op, app, r).log[|b.log|..]
  {
    var o := CheckOutcome(b.apps[app], r);
    assert Checked(b, op, app, r).log[|b.log|..] == IssuesOf(op, app, o);
    if o.Deployed? {
      assert IssuesOf(op, app, o)[0] == Issued(op, app, Watched(b.apps[app]));
    }
  }

  // A pass passes exactly when the tag could be pulled and either the container ran
  // the target before it, with the recorded digest, or some round of inspections
  // found it replaced, on target and well.
  lemma PassesExactly(row: AppRow, r: Reads)
    requires row.image.Some?
    ensures Passed(CheckOutcome(row, r)) <==> r.digest.Some? && (IsCurrent(row, r) || SawLanded(r))
    ensures Passed(CheckOutcome(row, r)) && r.target.Some? ==>
      r.running == r.target
      || exists n | 0 <= n < |r.polls| :: Landed(r.polls[n], r.before, r.target) && r.polls[n].image == r.target.value
  {
    var n := FirstLanded(r.polls, r.before, r.target);
    if n < |r.polls| {
      assert Landed(r.polls[n], r.before, r.target);
    }
  }

  // With no target to compare against, no image is looked at: the verdict and what
  // is recorded are the same whatever image came up.
  function WithImage(polls: seq<Poll>, image: Image): (ps: seq<Poll>)
    ensures |ps| == |polls|
  {
    if polls == [] then []
    else [if polls[0].Seen? then polls[0].(image := image) else Missing] + WithImage(polls[1..], image)
  }

  lemma {:induction false} FirstLandedAnyImage(polls: seq<Poll>, before: Option<nat>, image: Image)
    ensures FirstLanded(WithImage(polls, image), before, None) == FirstLanded(polls, before, None)
  {
    if polls != [] {
      FirstLandedAnyImage(polls[1..], before, image);
      assert WithImage(polls, image)[1..] == WithImage(polls[1..], image);
    }
  }

  lemma NoTargetAnyImage(b: Books, op: DeployId, app: App, r: Reads, image: Image)
    requires app in b.apps && b.apps[app].image.Some? && r.target.None?
    ensures var r' := r.(polls := WithImage(r.polls, image));
            && Passed(CheckOutcome(b.apps[app], r')) == Passed(CheckOutcome(b.apps[app], r))
            && Checked(b, op, app, r').apps == Checked(b, op, app, r).apps
  {
    FirstLandedAnyImage(r.polls, r.before, image);
  }

  // The guarantee holds of a pass, whatever it reads, exactly when it has a target.
  lemma SightingNeedsTarget(row: AppRow, target: Option<Image>)
    requires row.image.Some?
    ensures target.Some?
       <==> forall r: Reads | |r.polls| == Rounds(VERIFY_TIMEOUT) && r.target == target && Passed(CheckOutcome(row, r)) ::
              r.running == target
              || exists n | 0 <= n < |r.polls| :: r.polls[n].Seen? && Some(r.polls[n].image) == target
  {
    forall r: Reads | target.Some? && r.target == target && Passed(CheckOutcome(row, r))
      ensures r.running == target || exists n | 0 <= n < |r.polls| :: r.polls[n].Seen? && Some(r.polls[n].image) == target
    {
      PassesExactly(row, r);
    }
    if target.None? {
      var p := Seen(Some(1), "running", "healthy", "stale");
      var polls := seq(Rounds(VERIFY_TIMEOUT), _ => p);
      var r := Reads(Some("digest"), None, Some("stale"), Some(0), polls);
      assert Landed(polls[0], Some(0), None);
      PassesExactly(row, r);
      assert Passed(CheckOutcome(row, r));
    }
  }

  // A first deploy records whatever digest the tag has after verification, which
  // need not be that of the image it verified; the next pass does not rely on it.
  lemma WrongDigestHeals(b: Books, op: DeployId, app: App, image: Ref, first: Reads, later: Reads, next: DeployId)
    requires app in b.apps && later.digest.Some? && later.running != later.target
    ensures var b' := FirstDeployed(b, op, app, image, first);
            Issued(next, app, Watched(b'.apps[app])) in Checked(b', next, app, later).log[|b'.log|..]
  {
    IssuesUnlessConfirmed(FirstDeployed(b, op, app, image, first), next, app, later);
  }

  // An update that was not confirmed is tried again by the next pass that reads the
  // same tag.
  lemma FailedIsRetried(b: Books, op: DeployId, next: DeployId, app: App, r: Reads, again: Reads)
    requires app in b.apps && b.apps[app].image.Some?
    requires r.digest.Some? && b.apps[app].digest != r.digest && !Passed(CheckOutcome(b.apps[app], r))
    requires again.digest == r.digest
    ensures var b' := Checked(b, op, app, r);
            b'.apps == b.apps && Issued(next, app, Watched(b'.apps[app])) in Checked(b', next, app, again).log[|b'.log|..]
  {
    IssuesUnlessConfirmed(Checked(b, op, app, r), next, app, again);
  }

  // ----- runs -----

  datatype Step =
    | Queue(id: DeployId, app: App, now: int)
    | End(id: DeployId, image: Option<Ref>, seen: Reads, raise: Raise, written: bool)
    | Sweep(app: App, seen: Reads)
    | Recycle
    | Trim(before: int)
    | Edit(app: App, row: Option<AppRow>)

  // Deploys whose task is alive, and the app each is for.
  datatype Sys = Sys(books: Books, tasks: map<DeployId, App>)

  const SWEEP: DeployId := ""

  predicate Enabled(s: Sys, step: Step) {
    match step
    case Queue(id, _, _) => id !in s.books.deploys && id !in s.tasks && id != SWEEP
    case End(id, _, _, _, _) => id in s.tasks
    case Sweep(app, _) => app in s.books.apps && s.books.apps[app].image.Some?
    case _ => true
  }

  function Next(s: Sys, step: Step): Sys
    requires Enabled(s, step)
  {
    match step
    case Queue(id, app, now) => Sys(Started(s.books, id, app, now), s.tasks[id := app])
    case End(id, image, r, raise, written) =>
      var (b, o) := Ran(s.books, id, s.tasks[id], image, r, raise);
      Sys(Finished(b, id, o, written), s.tasks - {id})
    case Sweep(app, r) => s.(books := Checked(s.books, SWEEP, app, r))
    case Recycle => s.(tasks := map[])
    case Edit(app, row) =>
      s.(books := s.books.(apps := if row.Some? then s.books.apps[app := row.value] else s.books.apps - {app}))
    case Trim(before) =>
      s.(books := s.books.(deploys := map id | id in s.books.deploys && s.books.deploys[id].queuedAt >= before
                                           :: s.books.deploys[id]))
  }

  // A run, state by state.
  ghost predicate Trace(states: seq<Sys>, steps: seq<Step>) {
    |states| == |steps| + 1 && forall n | 0 <= n < |steps| :: Follows(states[n], steps[n], states[n + 1])
  }

  predicate Follows(s: Sys, step: Step, s': Sys) {
    Enabled(s, step) && s' == Next(s, step)
  }

  lemma TracePrefix(states: seq<Sys>, steps: seq<Step>)
    requires Trace(states, steps) && steps != []
    ensures Trace(states[..|steps|], steps[..|steps| - 1])
    ensures Follows(states[|steps| - 1], steps[|steps| - 1], states[|steps|])
  {
    var states', steps' := states[..|steps|], steps[..|steps| - 1];
    forall n | 0 <= n < |steps'| ensures Follows(states'[n], steps'[n], states'[n + 1]) {
      assert Follows(states[n], steps[n], states[n + 1]);
    }
  }

  // ----- a recorded success -----

  // What the inspections of a pass showed is what its outcome says.
  ghost predicate Saw(r: Reads, o: Outcome) {
    match o
    case Error => false
    case Current(image) => r.running == r.target == Some(image)
    case Deployed(_, _, target, verdict) => target == r.target && verdict.Verified? && SawImage(r, verdict.image)
  }

  // The first round that found the deploy landed showed this image, which is the
  // target where there is one.
  ghost predicate SawImage(r: Reads, image: Image) {
    && (r.target.Some? ==> r.target.value == image)
    && exists n ::
         && 0 <= n < |r.polls| && Landed(r.polls[n], r.before, r.target) && r.polls[n].image == image
         && forall m | 0 <= m < n :: !Landed(r.polls[m], r.before, r.target)
  }

  lemma RanSaw(b: Books, id: DeployId, app: App, image: Option<Ref>, r: Reads, raise: Raise)
    ensures Passed(Ran(b, id, app, image, r, raise).1) ==>
              raise == Never && Saw(r, Ran(b, id, app, image, r, raise).1)
    ensures Ran(b, id, app, image, r, raise).0.deploys == b.deploys
  {
    var n := FirstLanded(r.polls, r.before, r.target);
    if n < |r.polls| {
      assert Landed(r.polls[n], r.before, r.target);
      assert SawImage(r, r.polls[n].image);
    }
  }

  // The step wrote this row, as the end of its own deploy, on what it had seen.
  ghost predicate Recorded(s: Sys, step: Step, id: DeployId, row: DeployRow) {
    && step.End? && step.id == id && step.written && step.raise == Never
    && id in s.tasks && s.tasks[id] == row.app
    && row.outcome.Some? && Saw(step.seen, row.outcome.value)
  }

  ghost predicate TasksMatch(s: Sys) {
    forall id | id in s.tasks && id in s.books.deploys ::
      s.books.deploys[id].app == s.tasks[id] && s.books.deploys[id].ok.None?
  }

  lemma StepMatches(s: Sys, step: Step)
    requires Enabled(s, step) && TasksMatch(s)
    ensures TasksMatch(Next(s, step))
  {
    if step.End? {
      RanSaw(s.books, step.id, s.tasks[step.id], step.image, step.seen, step.raise);
    }
  }

  lemma {:induction false} TraceMatches(states: seq<Sys>, steps: seq<Step>, n: nat)
    requires Trace(states, steps) && TasksMatch(states[0]) && n <= |steps|
    ensures TasksMatch(states[n])
  {
    if n > 0 {
      TraceMatches(states, steps, n - 1);
      assert Follows(states[n - 1], steps[n - 1], states[n]);
      StepMatches(states[n - 1], steps[n - 1]);
    }
  }

  lemma StepRecords(s: Sys, step: Step, id: DeployId)
    requires Enabled(s, step) && TasksMatch(s)
    requires id in Next(s, step).books.deploys && Next(s, step).books.deploys[id].ok == Some(true)
    ensures var row := Next(s, step).books.deploys[id];
            (id in s.books.deploys && s.books.deploys[id] == row) || Recorded(s, step, id, row)
  {
    if step.End? {
      RanSaw(s.books, step.id, s.tasks[step.id], step.image, step.seen, step.raise);
    }
  }

  // Over every run with tag moves, dropped deploys, rollbacks, recycles and failed
  // writes: a deploy that reads "succeeded" was recorded at one step, by its own
  // task, on inspections that showed the running image it names, its target where
  // there is one; and nothing has touched the row since.
  lemma {:induction false} SucceededRan(states: seq<Sys>, steps: seq<Step>, id: DeployId, now: int) returns (n: nat)
    requires Trace(states, steps) && states[0].books.deploys == map[]
    requires id in states[|steps|].books.deploys && StateOf(states[|steps|].books.deploys[id], now) == Succeeded
    ensures n < |steps| && Recorded(states[n], steps[n], id, states[|steps|].books.deploys[id])
    ensures forall m | n < m <= |steps| ::
              id in states[m].books.deploys && states[m].books.deploys[id] == states[|steps|].books.deploys[id]
    decreases |steps|
  {
    var last := |steps| - 1;
    var row := states[|steps|].books.deploys[id];
    TracePrefix(states, steps);
    TraceMatches(states, steps, last);
    StepRecords(states[last], steps[last], id);
    if id in states[last].books.deploys && states[last].books.deploys[id] == row {
      n := SucceededRan(states[..|steps|], steps[..last], id, now);
    } else {
      n := last;
    }
  }

  // ----- a recorded digest -----

  // The step set this digest: an edit of the row, or a pass over this app that
  // read it and saw a deploy land.
  ghost predicate SetDigest(s: Sys, step: Step, app: App, digest: Option<Digest>) {
    match step
    case Edit(a, _) => a == app
    case Sweep(a, r) => a == app && r.digest == digest && SawLanded(r)
    case End(id, _, r, _, _) => id in s.tasks && s.tasks[id] == app && r.digest == digest && SawLanded(r)
    case _ => false
  }

  ghost predicate HasDigest(s: Sys, app: App, digest: Option<Digest>) {
    app in s.books.apps && s.books.apps[app].digest == digest
  }

  lemma VerifiedSaw(r: Reads)
    ensures VerdictOf(r.polls, r.before, r.target).Verified? ==> SawLanded(r)
  {
    var n := FirstLanded(r.polls, r.before, r.target);
    if n < |r.polls| {
      assert Landed(r.polls[n], r.before, r.target);
    }
  }

  lemma StepSetsDigest(s: Sys, step: Step, app: App, digest: Digest)
    requires Enabled(s, step) && HasDigest(Next(s, step), app, Some(digest))
    ensures HasDigest(s, app, Some(digest)) || SetDigest(s, step, app, Some(digest))
  {
    if step.End? || step.Sweep? {
      VerifiedSaw(step.seen);
    }
  }

  // A digest on record was there from the start, was put there by hand, or belongs
  // to a pass that saw a deploy of its app land; never to one that did not.
  lemma {:induction false} DigestWasSeen(states: seq<Sys>, steps: seq<Step>, app: App, digest: Digest) returns (n: nat)
    requires Trace(states, steps) && HasDigest(states[|steps|], app, Some(digest))
    ensures n <= |steps| && forall m | n <= m <= |steps| :: HasDigest(states[m], app, Some(digest))
    ensures n > 0 ==> SetDigest(states[n - 1], steps[n - 1], app, Some(digest))
    decreases |steps|
  {
    if steps == [] {
      n := 0;
    } else {
      var last := |steps| - 1;
      TracePrefix(states, steps);
      StepSetsDigest(states[last], steps[last], app, digest);
      if HasDigest(states[last], app, Some(digest)) {
        n := DigestWasSeen(states[..|steps|], steps[..last], app, digest);
      } else {
        n := |steps|;
      }
    }
  }

  // ----- an outcome is final -----

  // A finished deploy has no task left, so its outcome stays until the row is
  // trimmed; a row whose task was lost never gets one.
  lemma {:induction false} OutcomeIsFinal(states: seq<Sys>, steps: seq<Step>, id: DeployId, n: nat, m: nat)
    requires Trace(states, steps) && TasksMatch(states[0]) && n <= m <= |steps|
    requires forall k | n <= k <= m :: id in states[k].books.deploys
    requires states[n].books.deploys[id].ok.Some? || id !in states[n].tasks
    ensures states[m].books.deploys[id] == states[n].books.deploys[id] && id !in states[m].tasks
    decreases m
  {
    if n == m {
      TraceMatches(states, steps, n);
    } else {
      OutcomeIsFinal(states, steps, id, n, m - 1);
      assert Follows(states[m - 1], steps[m - 1], states[m]);
      if steps[m - 1].End? {
        var (s, e) := (states[m - 1], steps[m - 1]);
        RanSaw(s.books, e.id, s.tasks[e.id], e.image, e.seen, e.raise);
      }
    }
  }
}
