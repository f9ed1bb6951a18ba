// Alert and heal latches (app/alerts.py, app/probe.py). A check can be cut short
// after it has acted and before it has written down that it did.

module Latches {
  import opened Text

  const DOWN_AFTER := 2
  const HEAL_COOLDOWN := 30 * 60

  // ----- an app whose container is gone -----

  datatype Latch = Latch(missing: nat, alerted: bool)
  datatype Message = Gone | Back

  // One look at an app: is there a container, and may the app sleep?
  datatype Look = Look(present: bool, sleeps: bool)

  datatype Decision = Decision(messages: seq<Message>, latch: Latch)

  function MissingContainerDecision(prev: Option<Latch>, look: Look): Decision {
    var count := if look.present then 0 else (if prev.Some? then prev.value.missing else 0) + 1;
    var alerted := prev.Some? && prev.value.alerted;
    if look.sleeps && prev.Some? then
      if !look.present && count >= DOWN_AFTER && !alerted then Decision([Gone], Latch(count, true))
      else if look.present && alerted then Decision([Back], Latch(count, false))
      else Decision([], Latch(count, alerted))
    else Decision([], Latch(count, if look.sleeps then alerted else false))
  }

  // ----- the proxy's plugin -----

  // None when it cannot be told whether the plugin loaded.
  type Loaded = Option<bool>

  predicate ShouldHeal(loaded: Loaded, now: int, last: Option<int>) {
    loaded == Some(false) && (last.None? || now - last.value >= HEAL_COOLDOWN)
  }

  function HealedAt(loaded: Loaded, now: int, last: Option<int>): Option<int> {
    if loaded != Some(false) then None
    else if ShouldHeal(loaded, now, last) then Some(now)
    else last
  }

  // ----- one check -----

  type App = string

  class AlertState {
    var latches: map<App, Latch>
    var healedAt: Option<int>

    constructor ()
      ensures latches == map[] && healedAt == None
    {
      latches, healedAt := map[], None;
    }

    function Prev(app: App): Option<Latch>
      reads this
    {
      if app in latches then Some(latches[app]) else None
    }

    // Looks at every app, then writes down the proxy's row. `stops` is the app
    // whose messages went out but whose row was not written, if the check was cut
    // short there; then no later row is written either.
    method CheckOnce(apps: seq<(App, Look)>, loaded: Loaded, now: int, stops: nat)
      returns (messages: seq<(App, Message)>, restarted: bool)
      requires forall i, j | 0 <= i < j < |apps| :: apps[i].0 != apps[j].0
      modifies this
      ensures restarted <==> ShouldHeal(loaded, now, old(healedAt))
      ensures healedAt == if stops < |apps| then old(healedAt) else HealedAt(loaded, now, old(healedAt))
      ensures forall i | 0 <= i < |apps| ::
        Prev(apps[i].0) == if i < stops then Some(MissingContainerDecision(old(Prev(apps[i].0)), apps[i].1).latch)
                           else old(Prev(apps[i].0))
      ensures forall app | (forall i | 0 <= i < |apps| :: apps[i].0 != app) :: Prev(app) == old(Prev(app))
      ensures forall i, m | 0 <= i < |apps| ::
        (apps[i].0, m) in messages <==> i <= stops && m in MissingContainerDecision(old(Prev(apps[i].0)), apps[i].1).messages
    {
      restarted := ShouldHeal(loaded, now, healedAt);
      var healTs := if loaded != Some(false) then None else if restarted then Some(now) else healedAt;
      messages := [];
      for n := 0 to |apps|
        invariant n <= stops && healedAt == old(healedAt)
        invariant forall i | 0 <= i < n ::
          Prev(apps[i].0) == Some(MissingContainerDecision(old(Prev(apps[i].0)), apps[i].1).latch)
        invariant forall app | (forall i | 0 <= i < n :: apps[i].0 != app) :: Prev(app) == old(Prev(app))
        invariant forall i, m | 0 <= i < |apps| ::
          (apps[i].0, m) in messages <==> i < n && m in MissingContainerDecision(old(Prev(apps[i].0)), apps[i].1).messages
      {
        var (app, look) := apps[n];
        var d := MissingContainerDecision(Prev(app), look);
        messages := messages + Tagged(app, d.messages);
        if n == stops {
          return;
        }
        latches := latches[app := d.latch];
      }
      healedAt := healTs;
    }
  }

  function Tagged(app: App, ms: seq<Message>): (r: seq<(App, Message)>)
    ensures forall a, m :: (a, m) in r <==> a == app && m in ms
  {
    if ms == [] then [] else [(app, ms[0])] + Tagged(app, ms[1..])
  }

  // ----- runs of one app's latch -----

  // A look, and whether the row was written afterwards.
  datatype Tick = Tick(look: Look, stored: bool)

  function LatchAfter(start: Option<Latch>, ticks: seq<Tick>): Option<Latch> {
    if ticks == [] then start
    else
      var n := |ticks| - 1;
      var before := LatchAfter(start, ticks[..n]);
      if ticks[n].stored then Some(MissingContainerDecision(before, ticks[n].look).latch) else before
  }

  function Sent(start: Option<Latch>, ticks: seq<Tick>, i: nat): seq<Message>
    requires i < |ticks|
  {
    MissingContainerDecision(LatchAfter(start, ticks[..i]), ticks[i].look).messages
  }

  predicate Alerted(start: Option<Latch>, ticks: seq<Tick>, i: nat)
    requires i < |ticks|
  {
    Gone in Sent(start, ticks, i)
  }

  // A written tick that clears the latch: the app may not sleep, or it recovered.
  predicate Clears(start: Option<Latch>, ticks: seq<Tick>, k: nat)
    requires k < |ticks|
  {
    ticks[k].stored && (!ticks[k].look.sleeps || Back in Sent(start, ticks, k))
  }

  predicate IsLatched(start: Option<Latch>, ticks: seq<Tick>, n: nat)
    requires n <= |ticks|
  {
    LatchAfter(start, ticks[..n]).Some? && LatchAfter(start, ticks[..n]).value.alerted
  }

  lemma LatchStep(start: Option<Latch>, ticks: seq<Tick>, n: nat)
    requires n < |ticks|
    ensures LatchAfter(start, ticks[..n + 1])
         == if ticks[n].stored then Some(MissingContainerDecision(LatchAfter(start, ticks[..n]), ticks[n].look).latch)
            else LatchAfter(start, ticks[..n])
  {
    assert ticks[..n + 1][..n] == ticks[..n];
  }

  // Once latched, it stays latched until a tick clears it.
  lemma {:induction false} StaysLatched(start: Option<Latch>, ticks: seq<Tick>, i: nat, j: nat)
    requires i <= j <= |ticks| && IsLatched(start, ticks, i)
    requires forall k | i <= k < j :: !Clears(start, ticks, k)
    ensures IsLatched(start, ticks, j)
  {
    if i < j {
      StaysLatched(start, ticks, i, j - 1);
      assert !Clears(start, ticks, j - 1);
      var d := MissingContainerDecision(LatchAfter(start, ticks[..j - 1]), ticks[j - 1].look);
      assert d.messages == [Back] ==> d.messages[0] == Back;
      LatchStep(start, ticks, j - 1);
    }
  }

  // Between two alerts, the first of them written down, some tick cleared the latch.
  lemma AlertsSeparated(start: Option<Latch>, ticks: seq<Tick>, i: nat, j: nat)
    requires i < j < |ticks| && Alerted(start, ticks, i) && Alerted(start, ticks, j) && ticks[i].stored
    ensures exists k :: i < k < j && Clears(start, ticks, k)
  {
    LatchStep(start, ticks, i);
    if forall k | i < k < j :: !Clears(start, ticks, k) {
      StaysLatched(start, ticks, i + 1, j);
    }
  }

  // An alert that was not written down is sent again at once.
  lemma UnwrittenAlertRepeats(start: Option<Latch>, ticks: seq<Tick>, i: nat)
    requires i + 1 < |ticks| && Alerted(start, ticks, i) && !ticks[i].stored && ticks[i + 1].look == ticks[i].look
    ensures Alerted(start, ticks, i + 1)
  {
    LatchStep(start, ticks, i);
  }

  function Absences(ticks: seq<Tick>): nat {
    if ticks == [] || ticks[|ticks| - 1].look.present then 0 else 1 + Absences(ticks[..|ticks| - 1])
  }

  predicate AllStored(ticks: seq<Tick>) {
    forall i | 0 <= i < |ticks| :: ticks[i].stored
  }

  lemma {:induction false} CountIsAbsences(ticks: seq<Tick>)
    requires AllStored(ticks) && ticks != []
    ensures LatchAfter(None, ticks).Some? && LatchAfter(None, ticks).value.missing == Absences(ticks)
  {
    var n := |ticks| - 1;
    if n > 0 {
      CountIsAbsences(ticks[..n]);
    }
  }

  // An alert goes out exactly when a sleeping app's container is absent twice
  // running and no alert stands.
  lemma AlertsExactly(ticks: seq<Tick>, i: nat)
    requires AllStored(ticks) && i < |ticks|
    ensures Alerted(None, ticks, i)
       <==> i > 0 && ticks[i].look.sleeps && !ticks[i].look.present && !ticks[i - 1].look.present
            && !IsLatched(None, ticks, i)
  {
    if i > 0 {
      CountIsAbsences(ticks[..i]);
      assert ticks[..i][..i - 1] == ticks[..i - 1];
    }
  }

  predicate Absent(ticks: seq<Tick>, i: int)
    requires i < |ticks|
  {
    i >= 0 && !ticks[i].look.present
  }

  // At the end of a written run an alert stands exactly when the last two looks
  // found no container and at the last one the app might sleep.
  lemma {:induction false} StandsExactly(ticks: seq<Tick>)
    requires AllStored(ticks)
    ensures IsLatched(None, ticks, |ticks|) <==>
            ticks != [] && ticks[|ticks| - 1].look.sleeps && Absent(ticks, |ticks| - 1) && Absent(ticks, |ticks| - 2)
  {
    assert ticks[..|ticks|] == ticks;
    if ticks != [] {
      var n := |ticks| - 1;
      StandsExactly(ticks[..n]);
      assert ticks[..n][..n] == ticks[..n];
      if n > 0 {
        CountIsAbsences(ticks[..n]);
        assert ticks[..n][..n - 1] == ticks[..n - 1];
      }
    }
  }

  // Every message of a written run, by the looks alone. "Gone" is the second absence
  // running of an app that may sleep, unless the one before it was that already;
  // "back" is a container found where such an absence stood; nothing else is sent.
  lemma MessagesExactly(ticks: seq<Tick>, i: nat)
    requires AllStored(ticks) && i < |ticks|
    ensures var stood := i > 0 && ticks[i - 1].look.sleeps && Absent(ticks, i - 1) && Absent(ticks, i - 2);
            Sent(None, ticks, i) ==
              if ticks[i].look.sleeps && Absent(ticks, i) && Absent(ticks, i - 1) && !stood then [Gone]
              else if ticks[i].look.sleeps && !Absent(ticks, i) && stood then [Back]
              else []
  {
    var before := ticks[..i];
    StandsExactly(before);
    assert before[..i] == before;
    if i > 0 {
      CountIsAbsences(before);
      assert before[..i - 1] == ticks[..i - 1];
    }
  }

  // ----- runs of the heal latch -----

  datatype Beat = Beat(loaded: Loaded, now: int, stored: bool)

  function HealAfter(start: Option<int>, beats: seq<Beat>): Option<int> {
    if beats == [] then start
    else
      var n := |beats| - 1;
      var before := HealAfter(start, beats[..n]);
      if beats[n].stored then HealedAt(beats[n].loaded, beats[n].now, before) else before
  }

  predicate Restarts(start: Option<int>, beats: seq<Beat>, i: nat)
    requires i < |beats|
  {
    ShouldHeal(beats[i].loaded, beats[i].now, HealAfter(start, beats[..i]))
  }

  predicate Forgets(beats: seq<Beat>, k: nat)
    requires k < |beats|
  {
    beats[k].stored && beats[k].loaded != Some(false)
  }

  lemma HealStep(start: Option<int>, beats: seq<Beat>, n: nat)
    requires n < |beats|
    ensures HealAfter(start, beats[..n + 1])
         == if beats[n].stored then HealedAt(beats[n].loaded, beats[n].now, HealAfter(start, beats[..n]))
            else HealAfter(start, beats[..n])
  {
    assert beats[..n + 1][..n] == beats[..n];
  }

  lemma {:induction false} Remembers(start: Option<int>, beats: seq<Beat>, i: nat, j: nat)
    requires i < j <= |beats| && Restarts(start, beats, i) && beats[i].stored
    requires forall k | i < k < j :: !Forgets(beats, k) && beats[i].now <= beats[k].now
    ensures HealAfter(start, beats[..j]).Some? && beats[i].now <= HealAfter(start, beats[..j]).value
    decreases j
  {
    HealStep(start, beats, j - 1);
    if i < j - 1 {
      Remembers(start, beats, i, j - 1);
    }
  }

  // Two restarts inside the cooldown, the first of them written down, are separated
  // by a check that did not find the plugin definitely missing.
  lemma RestartsSeparated(start: Option<int>, beats: seq<Beat>, i: nat, j: nat)
    requires i < j < |beats| && Restarts(start, beats, i) && Restarts(start, beats, j) && beats[i].stored
    requires forall k | i < k < j :: beats[i].now <= beats[k].now
    requires beats[j].now - beats[i].now < HEAL_COOLDOWN
    ensures exists k :: i < k < j && Forgets(beats, k)
  {
    if forall k | i < k < j :: !Forgets(beats, k) {
      Remembers(start, beats, i, j);
    }
  }

  predicate AllBeatsStored(beats: seq<Beat>) {
    forall i | 0 <= i < |beats| :: beats[i].stored
  }

  // Since beat `j` the plugin was found missing every time, without a restart.
  predicate QuietSince(beats: seq<Beat>, j: nat, i: nat)
    requires j <= i <= |beats|
  {
    forall k | j < k < i :: beats[k].loaded == Some(false) && !Restarts(None, beats, k)
  }

  lemma {:induction false} HealAfterIs(beats: seq<Beat>, i: nat)
    requires AllBeatsStored(beats) && i <= |beats|
    ensures forall j | 0 <= j < i && Restarts(None, beats, j) && QuietSince(beats, j, i) ::
              HealAfter(None, beats[..i]) == Some(beats[j].now)
    ensures HealAfter(None, beats[..i]).Some? ==> exists j | 0 <= j < i :: Restarts(None, beats, j) && QuietSince(beats, j, i)
  {
    if i > 0 {
      HealAfterIs(beats, i - 1);
      HealStep(None, beats, i - 1);
      forall j | 0 <= j < i && Restarts(None, beats, j) && QuietSince(beats, j, i)
        ensures HealAfter(None, beats[..i]) == Some(beats[j].now)
      {
        assert j < i - 1 ==> QuietSince(beats, j, i - 1);
      }
      if HealAfter(None, beats[..i]).Some? {
        if Restarts(None, beats, i - 1) {
          assert QuietSince(beats, i - 1, i);
        } else {
          var j :| 0 <= j < i - 1 && Restarts(None, beats, j) && QuietSince(beats, j, i - 1);
          assert QuietSince(beats, j, i);
        }
      }
    }
  }

  // In a written run the proxy is restarted exactly when the plugin is definitely
  // missing and the last restart since it was last not so, if any, is at least the
  // cooldown ago: also again and again, while it stays missing.
  lemma RestartsExactly(beats: seq<Beat>, i: nat)
    requires AllBeatsStored(beats) && i < |beats|
    ensures Restarts(None, beats, i) <==>
            && beats[i].loaded == Some(false)
            && forall j | 0 <= j < i && Restarts(None, beats, j) && QuietSince(beats, j, i) ::
                 beats[i].now - beats[j].now >= 30 * 60
  {
    HealAfterIs(beats, i);
  }

  // One check that cannot tell is enough to restart the proxy again at once.
  lemma CannotTellForgets(start: Option<int>, beats: seq<Beat>, i: nat)
    requires i + 2 < |beats| && beats[i].stored && beats[i + 1].stored
    requires Restarts(start, beats, i) && beats[i + 1].loaded.None? && beats[i + 2].loaded == Some(false)
    ensures Restarts(start, beats, i + 2)
  {
    HealStep(start, beats, i);
    HealStep(start, beats, i + 1);
  }

  // So is a restart that was not written down.
  lemma UnwrittenRestartRepeats(start: Option<int>, beats: seq<Beat>, i: nat)
    requires i + 1 < |beats| && Restarts(start, beats, i) && !beats[i].stored
    requires beats[i + 1].loaded == Some(false) && beats[i].now <= beats[i + 1].now
    ensures Restarts(start, beats, i + 1)
  {
    HealStep(start, beats, i);
  }
}
