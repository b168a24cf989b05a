/** The loop that turns ConfigMap events into reconcile passes: internal/reconcile/runner.go. */
module Runner {
  import opened Requests

  /** unicode.IsSpace */
  predicate IsSpace(c: char) {
    || c == ' ' || '\t' <= c <= '\r' || c == '\U{85}' || c == '\U{A0}'
    || c == '\U{1680}' || '\U{2000}' <= c <= '\U{200A}' || c == '\U{2028}' || c == '\U{2029}'
    || c == '\U{202F}' || c == '\U{205F}' || c == '\U{3000}'
  }

  /** strings.TrimSpace(raw) == "" */
  predicate Blank(raw: string) {
    forall i :: 0 <= i < |raw| ==> IsSpace(raw[i])
  }

  /** What a handler was told of the ConfigMap. */
  datatype ConfigMap = ConfigMap(raw: string, present: bool)

  /** `valid` is whether config.Parse accepts. */
  predicate Usable(valid: string -> bool, c: ConfigMap) {
    c.present && !Blank(c.raw) && valid(c.raw)
  }

  /** Some character of the text is not one of Unicode's white space. */
  ghost predicate HasText(raw: string) {
    exists i :: 0 <= i < |raw| && raw[i] as int !in
      {9, 10, 11, 12, 13, 0x20, 0x85, 0xA0, 0x1680, 0x2000, 0x2001, 0x2002, 0x2003, 0x2004, 0x2005, 0x2006, 0x2007,
       0x2008, 0x2009, 0x200A, 0x2028, 0x2029, 0x202F, 0x205F, 0x3000}
  }

  lemma {:induction false} UsableIff(valid: string -> bool, c: ConfigMap)
    ensures Usable(valid, c) <==> c.present && HasText(c.raw) && valid(c.raw)
  {
  }

  // ----- Handlers and loop interleaved -----

  /** Between waking and reading the loop is Awake; during a pass it is Passing. */
  datatype Loop = Waiting | Awake | Passing

  /** `sets` is every ConfigMap set so far; `inFlight` handlers are between their set and their notify; `lastRead` is
      how many sets there were when the loop read last, and `reconciled` the same for each read it passed on. */
  datatype System = System(sets: seq<ConfigMap>, inFlight: nat, triggered: bool, loop: Loop, lastRead: nat,
                           reconciled: seq<nat>)

  datatype Label =
    | HandlerSet(c: ConfigMap)
    | HandlerNotify
    | WakeByTrigger
    | WakeByTimer
    | Read
    | FinishPass

  function Newest(s: System): ConfigMap {
    if s.sets == [] then ConfigMap("", false) else s.sets[|s.sets| - 1]
  }

  predicate Enabled(s: System, l: Label) {
    match l
    case HandlerSet(_) => true
    case HandlerNotify => s.inFlight > 0
    case WakeByTrigger => s.loop.Waiting? && s.triggered
    case WakeByTimer => s.loop.Waiting?
    case Read => s.loop.Awake?
    case FinishPass => s.loop.Passing?
  }

  function Step(valid: string -> bool, s: System, l: Label): System {
    if !Enabled(s, l) then s
    else
      match l
      case HandlerSet(c) => s.(sets := s.sets + [c], inFlight := s.inFlight + 1)
      case HandlerNotify => s.(inFlight := s.inFlight - 1, triggered := true)
      case WakeByTrigger => s.(triggered := false, loop := Awake)
      case WakeByTimer => s.(loop := Awake)
      case Read =>
        s.(lastRead := |s.sets|, loop := Passing,
           reconciled := s.reconciled + if Usable(valid, Newest(s)) then [|s.sets|] else [])
      case FinishPass => s.(loop := Waiting)
  }

  function Run(valid: string -> bool, s: System, labels: seq<Label>): System {
    if labels == [] then s else Step(valid, Run(valid, s, labels[..|labels| - 1]), labels[|labels| - 1])
  }

  const INITIAL: System := System([], 0, false, Waiting, 0, [])

  /** The Runner: what handlers and loop share is real, where they are is ghost. */
  class Shared {
    const valid: string -> bool
    var raw: string
    var present: bool
    var triggered: bool
    ghost var system: System
    ghost var labels: seq<Label>

    /** The fields are those of the system after the labels. */
    ghost predicate Valid()
      reads this
    {
      && system == Run(valid, INITIAL, labels)
      && ConfigMap(raw, present) == Newest(system) && triggered == system.triggered
    }

    constructor (valid: string -> bool)
      ensures Valid() && this.valid == valid && labels == []
    {
      this.valid := valid;
      raw, present, triggered := "", false, false;
      system, labels := INITIAL, [];
    }

    ghost method Note(l: Label)
      requires system == Run(valid, INITIAL, labels)
      modifies `system, `labels
      ensures labels == old(labels) + [l] && system == Step(valid, old(system), l) == Run(valid, INITIAL, labels)
    {
      RunSnoc(valid, INITIAL, labels, l);
      system, labels := Step(valid, system, l), labels + [l];
    }

    /** A handler stores what it was told. */
    method Set(raw: string, present: bool)
      requires Valid()
      modifies this
      ensures Valid() && labels == old(labels) + [HandlerSet(ConfigMap(raw, present))]
      ensures this.raw == raw && this.present == present && triggered == old(triggered)
    {
      this.raw, this.present := raw, present;
      Note(HandlerSet(ConfigMap(raw, present)));
    }

    /** And then sends without blocking on a channel of one slot. */
    method Notify()
      requires Valid() && system.inFlight > 0
      modifies this
      ensures Valid() && labels == old(labels) + [HandlerNotify]
      ensures triggered && raw == old(raw) && present == old(present)
    {
      if !triggered {
        triggered := true;
      }
      Note(HandlerNotify);
    }

    /** The loop's select, by the trigger or by the resync timer. */
    method Wake(timer: bool)
      requires Valid() && system.loop.Waiting? && (timer || triggered)
      modifies this
      ensures Valid() && labels == old(labels) + [if timer then WakeByTimer else WakeByTrigger]
      ensures triggered == (timer && old(triggered)) && raw == old(raw) && present == old(present)
    {
      if !timer {
        triggered := false;
      }
      Note(if timer then WakeByTimer else WakeByTrigger);
    }

    /** The spec to reconcile, or none: an absent, blank or invalid ConfigMap is skipped. */
    method CurrentSpec() returns (spec: Option<string>)
      requires Valid() && system.loop.Awake?
      modifies `system, `labels
      ensures Valid() && labels == old(labels) + [Read]
      ensures spec == if present && HasText(raw) && valid(raw) then Some(raw) else None
      ensures ConfigMap(raw, present) == Newest(system)
      ensures spec.Some? <==> system.reconciled == old(system).reconciled + [|system.sets|]
    {
      Note(Read);
      UsableIff(valid, ConfigMap(raw, present));
      if !present {
        return None;
      }
      var blank := true;
      for i := 0 to |raw|
        invariant blank <==> forall k :: 0 <= k < i ==> IsSpace(raw[k])
      {
        if !IsSpace(raw[i]) {
          blank := false;
        }
      }
      if blank || !valid(raw) {
        return None;
      }
      spec := Some(raw);
    }

    method Finish()
      requires Valid() && system.loop.Passing?
      modifies `system, `labels
      ensures Valid() && labels == old(labels) + [FinishPass]
    {
      Note(FinishPass);
    }
  }

  // ----- Over all runs -----

  /** A newer ConfigMap than the last read one is never forgotten: a handler is about to notify, a trigger is buffered,
      or the loop is about to read. */
  ghost predicate NothingLost(s: System) {
    s.lastRead <= |s.sets| && (|s.sets| > s.lastRead && s.inFlight == 0 ==> s.triggered || s.loop.Awake?)
  }

  /** Every pass was over a ConfigMap that was present, not blank and valid when it was read. */
  ghost predicate OnlyUsableSpecs(valid: string -> bool, s: System) {
    forall n :: n in s.reconciled ==>
      && 0 < n <= s.lastRead <= |s.sets|
      && s.sets[n - 1].present && HasText(s.sets[n - 1].raw) && valid(s.sets[n - 1].raw)
  }

  /** No pass is over an older ConfigMap than a pass before it. */
  ghost predicate NeverBack(s: System) {
    forall i, j :: 0 <= i < j < |s.reconciled| ==> s.reconciled[i] <= s.reconciled[j]
  }

  lemma {:induction false} NoLostUpdate(valid: string -> bool, labels: seq<Label>)
    ensures var s := Run(valid, INITIAL, labels); NothingLost(s) && OnlyUsableSpecs(valid, s) && NeverBack(s)
  {
    if labels != [] {
      NoLostUpdate(valid, labels[..|labels| - 1]);
      StepLosesNothing(valid, Run(valid, INITIAL, labels[..|labels| - 1]), labels[|labels| - 1]);
    }
  }

  lemma {:induction false} StepLosesNothing(valid: string -> bool, s: System, l: Label)
    requires NothingLost(s) && OnlyUsableSpecs(valid, s) && NeverBack(s)
    ensures var s' := Step(valid, s, l); NothingLost(s') && OnlyUsableSpecs(valid, s') && NeverBack(s')
  {
    UsableIff(valid, Newest(s));
    if l.HandlerSet? {
      assert forall k :: 0 <= k < |s.sets| ==> (s.sets + [l.c])[k] == s.sets[k];
    }
    assert forall i :: 0 <= i < |s.reconciled| ==> s.reconciled[i] in s.reconciled;
  }

  /** From every reachable state in which no handler is between its set and its notify, the loop's own steps, without
      the timer, bring it to a pass over the newest ConfigMap. */
  lemma {:induction false} NewestIsReadWithoutTheTimer(valid: string -> bool, labels: seq<Label>)
    returns (more: seq<Label>)
    requires Run(valid, INITIAL, labels).inFlight == 0
    ensures |more| <= 3 && forall l :: l in more ==> l == WakeByTrigger || l == Read || l == FinishPass
    ensures var (s, s') := (Run(valid, INITIAL, labels), Run(valid, Run(valid, INITIAL, labels), more));
            s'.sets == s.sets && s'.lastRead == |s.sets| && (more != [] ==> s'.loop.Passing?)
  {
    NoLostUpdate(valid, labels);
    var s := Run(valid, INITIAL, labels);
    if s.lastRead == |s.sets| {
      more := [];
    } else if s.loop.Awake? {
      more := [Read];
      RunOne(valid, s, Read);
    } else if s.loop.Waiting? {
      more := [WakeByTrigger, Read];
      RunOne(valid, s, WakeByTrigger);
      RunSnoc(valid, s, [WakeByTrigger], Read);
      assert more == [WakeByTrigger] + [Read];
    } else {
      more := [FinishPass, WakeByTrigger, Read];
      RunOne(valid, s, FinishPass);
      RunSnoc(valid, s, [FinishPass], WakeByTrigger);
      RunSnoc(valid, s, [FinishPass, WakeByTrigger], Read);
      assert [FinishPass, WakeByTrigger] == [FinishPass] + [WakeByTrigger];
      assert more == [FinishPass, WakeByTrigger] + [Read];
    }
  }

  lemma {:induction false} RunSnoc(valid: string -> bool, s: System, labels: seq<Label>, l: Label)
    ensures Run(valid, s, labels + [l]) == Step(valid, Run(valid, s, labels), l)
  {
    assert (labels + [l])[..|labels|] == labels;
  }

  lemma {:induction false} RunOne(valid: string -> bool, s: System, l: Label)
    ensures Run(valid, s, [l]) == Step(valid, s, l)
  {
    assert [l][..0] == [];
  }
}
