/** The watchdog between the Runner's loop and the liveness probe: internal/reconcile/runner.go and
internal/health/health.go. */
module Watchdog {
  import opened Requests
  import Health

  /** What the loop is doing, and since when. */
  datatype Activity = Waiting(since: int) | Passing(since: int)

  datatype Clocked = Clocked(now: int, activity: Activity, resync: int, stall: int, health: Health.View)

  /** Time passes; the loop wakes, on a trigger or its timer, and reads the settings if the ConfigMap is
      usable; the pass ends; or some other part of the process reports to the health state. */
  datatype Label =
    | Tick(elapsed: nat)
    | Wake(settings: Option<(int, int)>)
    | EndPass
    | OtherSignal(event: Health.Event)

  predicate Enabled(s: Clocked, l: Label) {
    match l
    case Tick(_) => true
    case Wake(settings) => s.activity.Waiting? && (settings.Some? ==> settings.value.0 > 0 && settings.value.1 > 0)
    case EndPass => s.activity.Passing?
    case OtherSignal(event) => !event.Heartbeat?
  }

  /** One step of Run's loop body: the settings are read before the pass's deadline is declared. */
  function Step(s: Clocked, l: Label): Clocked {
    if !Enabled(s, l) then s
    else
      match l
      case Tick(elapsed) => s.(now := s.now + elapsed)
      case Wake(settings) =>
        var (resync, stall) := if settings.Some? then settings.value else (s.resync, s.stall);
        Clocked(s.now, Passing(s.now), resync, stall, Health.Apply(s.health, Health.Heartbeat(s.now, stall)))
      case EndPass =>
        s.(activity := Waiting(s.now), health := Health.Apply(s.health, Health.Heartbeat(s.now, s.resync + s.stall)))
      case OtherSignal(event) => s.(health := Health.Apply(s.health, event))
  }

  function Run(s: Clocked, labels: seq<Label>): Clocked {
    if labels == [] then s else Step(Run(s, labels[..|labels| - 1]), labels[|labels| - 1])
  }

  /** The defaults until a ConfigMap is read, in nanoseconds. */
  const DEFAULT_RESYNC := 300 * Health.SECOND
  const DEFAULT_STALL := 600 * Health.SECOND

  /** Run's first heartbeat. */
  function Begun(now: int, health: Health.View): Clocked {
    Clocked(now, Waiting(now), DEFAULT_RESYNC, DEFAULT_STALL,
            Health.Apply(health, Health.Heartbeat(now, DEFAULT_RESYNC + DEFAULT_STALL)))
  }

  /** How long the current activity may last: a pass the stall timeout, a wait that and the resync
      interval. */
  function Allowance(s: Clocked): int {
    if s.activity.Passing? then s.stall else s.resync + s.stall
  }

  lemma {:induction false} DeadlineIsTheAllowance(now: int, health: Health.View, labels: seq<Label>)
    ensures var s := Run(Begun(now, health), labels);
            && s.activity.since <= s.now && s.resync > 0 && s.stall > 0
            && s.health.deadline == s.activity.since + Allowance(s)
  {
    if labels != [] {
      DeadlineIsTheAllowance(now, health, labels[..|labels| - 1]);
    }
  }

  /** Label `i` of the run took effect. */
  ghost predicate TookEffect(start: Clocked, labels: seq<Label>, i: int) {
    0 <= i < |labels| && Enabled(Run(start, labels[..i]), labels[i])
  }

  /** The last turn of the loop was label `i`, at time `t`. */
  ghost predicate LastTurn(start: Clocked, labels: seq<Label>, i: int, t: int) {
    && TookEffect(start, labels, i) && (labels[i].Wake? || labels[i].EndPass?) && t == Run(start, labels[..i]).now
    && forall j :: i < j && TookEffect(start, labels, j) ==> !labels[j].Wake? && !labels[j].EndPass?
  }

  ghost predicate NoTurn(start: Clocked, labels: seq<Label>) {
    forall j :: TookEffect(start, labels, j) ==> !labels[j].Wake? && !labels[j].EndPass?
  }

  /** The settings in force are those read last, or five and ten minutes. */
  ghost predicate SettingsAre(start: Clocked, labels: seq<Label>, resync: int, stall: int) {
    || (resync == 300_000_000_000 && stall == 600_000_000_000
        && forall j :: TookEffect(start, labels, j) && labels[j].Wake? ==> labels[j].settings.None?)
    || exists i :: && TookEffect(start, labels, i) && labels[i] == Wake(Some((resync, stall)))
                   && forall j :: i < j && TookEffect(start, labels, j) && labels[j].Wake? ==> labels[j].settings.None?
  }

  /** What the loop is doing and by which settings, from its history alone: it passes since its last wake or waits since
      the end of its last pass, or since the start. */
  lemma {:induction false} HistoryTells(now: int, health: Health.View, labels: seq<Label>)
    ensures var start, s := Begun(now, health), Run(Begun(now, health), labels);
            && SettingsAre(start, labels, s.resync, s.stall)
            && if NoTurn(start, labels) then s.activity == Waiting(now)
               else exists i, t :: && LastTurn(start, labels, i, t)
                                   && s.activity == if labels[i].Wake? then Passing(t) else Waiting(t)
  {
    if labels != [] {
      var start, n := Begun(now, health), |labels| - 1;
      var before := labels[..n];
      HistoryTells(now, health, before);
      assert labels == before + [labels[n]];
      EffectsStay(start, before, labels[n]);
      SettingsNext(start, before, labels[n], Run(start, before).resync, Run(start, before).stall);
      if TookEffect(start, labels, n) && (labels[n].Wake? || labels[n].EndPass?) {
        assert LastTurn(start, labels, n, Run(start, before).now);
      } else if !NoTurn(start, before) {
        var i, t :| LastTurn(start, before, i, t)
          && Run(start, before).activity == if before[i].Wake? then Passing(t) else Waiting(t);
        assert labels[..i] == before[..i] && LastTurn(start, labels, i, t);
      }
    }
  }

  lemma {:induction false} EffectsStay(start: Clocked, before: seq<Label>, l: Label)
    ensures forall i :: i < |before| ==> (TookEffect(start, before + [l], i) <==> TookEffect(start, before, i))
    ensures TookEffect(start, before + [l], |before|) <==> Enabled(Run(start, before), l)
  {
    forall i | 0 <= i <= |before|
      ensures (before + [l])[..i] == before[..i]
    {
    }
    assert before[..|before|] == before;
  }

  lemma {:induction false} SettingsNext(start: Clocked, before: seq<Label>, l: Label, resync: int, stall: int)
    requires SettingsAre(start, before, resync, stall)
    ensures var read := Enabled(Run(start, before), l) && l.Wake? && l.settings.Some?;
            if read then SettingsAre(start, before + [l], l.settings.value.0, l.settings.value.1)
            else SettingsAre(start, before + [l], resync, stall)
  {
    EffectsStay(start, before, l);
    if Enabled(Run(start, before), l) && l.Wake? && l.settings.Some? {
      assert TookEffect(start, before + [l], |before|)
             && (before + [l])[|before|] == Wake(Some((l.settings.value.0, l.settings.value.1)));
    } else if i :| TookEffect(start, before, i) && before[i] == Wake(Some((resync, stall)))
                   && forall j :: i < j && TookEffect(start, before, j) && before[j].Wake? ==>
                       before[j].settings.None? {
      assert TookEffect(start, before + [l], i) && (before + [l])[i] == Wake(Some((resync, stall)));
    }
  }

  /** Neither early nor late: after any history of passes, waits and live changes of both settings, the
      loop half of liveness holds exactly while a pass has lasted no longer than the stall timeout it runs under, or a
      wait no longer than that and the resync interval. */
  lemma {:induction false} LiveIffWithinTheAllowance(now: int, health: Health.View, labels: seq<Label>)
    ensures var s := Run(Begun(now, health), labels);
            Health.LoopLive(s.health, s.now) <==>
              match s.activity
              case Passing(since) => s.now - since <= s.stall
              case Waiting(since) => s.now - since <= s.resync + s.stall
  {
    DeadlineIsTheAllowance(now, health, labels);
  }

  /** A loop that keeps its times is never found dead: passes end within the stall timeout, and the loop
      wakes within the stall timeout of its timer. */
  lemma {:induction false} PunctualLoopIsLive(now: int, health: Health.View, labels: seq<Label>)
    requires var s := Run(Begun(now, health), labels);
             match s.activity
             case Passing(since) => s.now <= since + s.stall
             case Waiting(since) => s.now <= (since + s.resync) + s.stall
    ensures var s := Run(Begun(now, health), labels); Health.LoopLive(s.health, s.now)
  {
    LiveIffWithinTheAllowance(now, health, labels);
  }

  /** A loop that stops is found dead: whatever it was doing, no later than the resync interval and the
      stall timeout from then. */
  lemma {:induction false} StoppedLoopIsFound(now: int, health: Health.View, labels: seq<Label>, others: seq<Label>,
                                              elapsed: nat)
    requires forall l :: l in others ==> l.Tick? || l.OtherSignal?
    requires var s := Run(Begun(now, health), labels); elapsed > s.resync + s.stall
    requires Run(Run(Begun(now, health), labels), others).now == Run(Begun(now, health), labels).now + elapsed
    ensures var s := Run(Run(Begun(now, health), labels), others); !Health.LoopLive(s.health, s.now)
  {
    DeadlineIsTheAllowance(now, health, labels);
    NoBeatNoDeadline(Run(Begun(now, health), labels), others);
  }

  lemma {:induction false} NoBeatNoDeadline(s: Clocked, others: seq<Label>)
    requires forall l :: l in others ==> l.Tick? || l.OtherSignal?
    ensures Run(s, others).health.deadline == s.health.deadline
  {
    if others != [] {
      NoBeatNoDeadline(s, others[..|others| - 1]);
    }
  }
}
