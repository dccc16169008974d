/** The readonly classifier of `ReadonlyDetector.check`: the attribute
    normalisers, the OR over nine restrictive signals gathered from the
    field's host element and every input-like descendant, and the verdict
    with its ordered reason list. The in-page script that collects the raw
    attributes is replaced by its result, a `HostState`. */
module ReadonlyDetector {
  import opened Wrappers
  import opened Strings

  /** An attribute as the in-page script reports it: `None` when absent,
      otherwise its string value. */
  type Attr = Option<string>

  /** What the script reports for one `input`, `textarea`, `select` or
      `[role=combobox]` descendant. */
  datatype InputState = InputState(
    readonlyAttr: Attr,
    disabledAttr: Attr,
    ariaReadonly: Attr,
    ariaDisabled: Attr,
    readOnlyProp: bool,
    disabledProp: bool)

  /** What the script reports for the field's host element. */
  datatype HostState = HostState(
    hostReadonly: Attr,
    hostDisabled: Attr,
    hasLockIcon: bool,
    inputs: seq<InputState>)

  /** The nine restrictive signals, in the order the reason text lists them. */
  datatype Signal =
    | LockIcon
    | HostReadonly
    | HostDisabled
    | InputReadonlyAttr
    | InputDisabledAttr
    | AriaReadonly
    | AriaDisabled
    | InputReadOnlyProp
    | InputDisabledProp

  const SignalOrder: seq<Signal> := [
    LockIcon, HostReadonly, HostDisabled, InputReadonlyAttr, InputDisabledAttr,
    AriaReadonly, AriaDisabled, InputReadOnlyProp, InputDisabledProp]

  function Name(s: Signal): string {
    match s
    case LockIcon => "lock icon"
    case HostReadonly => "host readonly"
    case HostDisabled => "host disabled"
    case InputReadonlyAttr => "input readonly attr"
    case InputDisabledAttr => "input disabled attr"
    case AriaReadonly => "aria-readonly=true"
    case AriaDisabled => "aria-disabled=true"
    case InputReadOnlyProp => "input.readOnly"
    case InputDisabledProp => "input.disabled"
  }

  predicate IsInputSignal(s: Signal) {
    !(s.LockIcon? || s.HostReadonly? || s.HostDisabled?)
  }

  function Normalise(s: string): string {
    Lower(Trim(s))
  }

  /** The detector's `t`: the attribute is present and reads as set. */
  predicate AttrTrue(v: Attr) {
    v.Some? && Normalise(v.value) in {"", "true", "1", "readonly"}
  }

  /** The detector's `f`: the attribute is present and reads `false`. */
  predicate AttrFalse(v: Attr) {
    v.Some? && Normalise(v.value) == "false"
  }

  /** `(v or "").strip().lower() == "true"`, used for the ARIA attributes. */
  predicate AriaTrue(v: Attr) {
    Normalise(v.GetOr("")) == "true"
  }

  /** An attribute never reads both as set and as explicitly false, and an
      absent attribute reads as neither. */
  lemma NormalisersExclusive(v: Attr)
    ensures !(AttrTrue(v) && AttrFalse(v))
    ensures v.None? ==> !AttrTrue(v) && !AttrFalse(v) && !AriaTrue(v)
  {
  }

  /** The ARIA test is stricter than the plain-attribute test: whatever it
      accepts the plain test accepts, and a bare (empty) attribute fires the
      plain test only. */
  lemma AriaStricterThanAttr(v: Attr)
    ensures AriaTrue(v) ==> AttrTrue(v)
    ensures AttrTrue(Some("")) && !AriaTrue(Some(""))
  {
    assert Trim("") == "";
  }

  /** Does this descendant on its own raise input signal `s`? */
  predicate Fires(i: InputState, s: Signal) {
    match s
    case InputReadonlyAttr => AttrTrue(i.readonlyAttr)
    case InputDisabledAttr => AttrTrue(i.disabledAttr)
    case AriaReadonly => AriaTrue(i.ariaReadonly)
    case AriaDisabled => AriaTrue(i.ariaDisabled)
    case InputReadOnlyProp => i.readOnlyProp
    case InputDisabledProp => i.disabledProp
    case _ => false
  }

  /** The six per-input flags the detector's loop accumulates. */
  datatype InputFlags = InputFlags(
    readonlyAttr: bool,
    disabledAttr: bool,
    ariaReadonly: bool,
    ariaDisabled: bool,
    readOnlyProp: bool,
    disabledProp: bool)

  const NoFlags := InputFlags(false, false, false, false, false, false)

  function Flag(f: InputFlags, s: Signal): bool {
    match s
    case InputReadonlyAttr => f.readonlyAttr
    case InputDisabledAttr => f.disabledAttr
    case AriaReadonly => f.ariaReadonly
    case AriaDisabled => f.ariaDisabled
    case InputReadOnlyProp => f.readOnlyProp
    case InputDisabledProp => f.disabledProp
    case _ => false
  }

  /** One iteration of the loop: each flag is set once any input fires it. */
  function Step(acc: InputFlags, i: InputState): InputFlags
  {
    InputFlags(
      acc.readonlyAttr || AttrTrue(i.readonlyAttr),
      acc.disabledAttr || AttrTrue(i.disabledAttr),
      acc.ariaReadonly || AriaTrue(i.ariaReadonly),
      acc.ariaDisabled || AriaTrue(i.ariaDisabled),
      acc.readOnlyProp || i.readOnlyProp,
      acc.disabledProp || i.disabledProp)
  }

  /** After a step, a flag is set iff it was set before or the input fires
      it. */
  lemma StepSets(acc: InputFlags, i: InputState, s: Signal)
    ensures Flag(Step(acc, i), s) == (Flag(acc, s) || Fires(i, s))
  {
  }

  /** The loop over all inputs: every flag ends up as the OR of that signal
      over the inputs (on top of what was already set). */
  function Scan(acc: InputFlags, inputs: seq<InputState>): InputFlags
    decreases |inputs|
  {
    if inputs == [] then acc else Scan(Step(acc, inputs[0]), inputs[1..])
  }

  ghost predicate SomeInputFires(inputs: seq<InputState>, s: Signal) {
    exists k :: 0 <= k < |inputs| && Fires(inputs[k], s)
  }

  lemma {:induction false} ScanIsOr(acc: InputFlags, inputs: seq<InputState>, s: Signal)
    ensures Flag(Scan(acc, inputs), s) <==> Flag(acc, s) || SomeInputFires(inputs, s)
    decreases |inputs|
  {
    if inputs != [] {
      ScanIsOr(Step(acc, inputs[0]), inputs[1..], s);
      StepSets(acc, inputs[0], s);
      if SomeInputFires(inputs[1..], s) {
        var k :| 0 <= k < |inputs[1..]| && Fires(inputs[1..][k], s);
        assert Fires(inputs[k + 1], s);
      }
      if SomeInputFires(inputs, s) && !Fires(inputs[0], s) {
        var k :| 0 <= k < |inputs| && Fires(inputs[k], s);
        assert k != 0 && inputs[1..][k - 1] == inputs[k];
      }
    }
  }

  lemma ScanIsOrAll(inputs: seq<InputState>)
    ensures forall s :: Flag(Scan(NoFlags, inputs), s) <==> SomeInputFires(inputs, s)
  {
    forall s ensures Flag(Scan(NoFlags, inputs), s) <==> SomeInputFires(inputs, s) {
      ScanIsOr(NoFlags, inputs, s);
    }
  }

  /** All nine signals of one field. */
  datatype Signals = Signals(lockIcon: bool, hostReadonly: bool, hostDisabled: bool, inputs: InputFlags)

  function Holds(g: Signals, s: Signal): bool {
    match s
    case LockIcon => g.lockIcon
    case HostReadonly => g.hostReadonly
    case HostDisabled => g.hostDisabled
    case _ => Flag(g.inputs, s)
  }

  /** Signal gathering: host signals from the host, input signals OR-ed
      over all descendants. No descendants means no input signal. */
  function Gather(h: HostState): (g: Signals)
    ensures Holds(g, LockIcon) == h.hasLockIcon
    ensures Holds(g, HostReadonly) == AttrTrue(h.hostReadonly)
    ensures Holds(g, HostDisabled) == AttrTrue(h.hostDisabled)
    ensures forall s :: IsInputSignal(s) ==> (Holds(g, s) <==> SomeInputFires(h.inputs, s))
  {
    ScanIsOrAll(h.inputs);
    Signals(h.hasLockIcon, AttrTrue(h.hostReadonly), AttrTrue(h.hostDisabled), Scan(NoFlags, h.inputs))
  }

  /** The reason contributed by one signal: its name if it fires. */
  function Part(g: Signals, s: Signal): seq<string> {
    if Holds(g, s) then [Name(s)] else []
  }

  /** The names of the firing signals among `SignalOrder[i..]`, in order. */
  function FiringFrom(g: Signals, i: nat): seq<string>
    decreases |SignalOrder| - i
  {
    if i >= |SignalOrder| then [] else Part(g, SignalOrder[i]) + FiringFrom(g, i + 1)
  }

  /** The fixed order lists every signal. */
  lemma OrderComplete(s: Signal)
    ensures s in SignalOrder
  {
    var o := SignalOrder;
    match s
    case LockIcon => assert o[0] == s;
    case HostReadonly => assert o[1] == s;
    case HostDisabled => assert o[2] == s;
    case InputReadonlyAttr => assert o[3] == s;
    case InputDisabledAttr => assert o[4] == s;
    case AriaReadonly => assert o[5] == s;
    case AriaDisabled => assert o[6] == s;
    case InputReadOnlyProp => assert o[7] == s;
    case InputDisabledProp => assert o[8] == s;
  }

  lemma NameInjective(s: Signal, t: Signal)
    ensures Name(s) == Name(t) ==> s == t
  {
  }

  lemma {:induction false} FiringFromMembers(g: Signals, i: nat, s: Signal)
    requires i <= |SignalOrder|
    ensures Name(s) in FiringFrom(g, i) <==> s in SignalOrder[i..] && Holds(g, s)
    decreases |SignalOrder| - i
  {
    if i < |SignalOrder| {
      FiringFromMembers(g, i + 1, s);
      NameInjective(s, SignalOrder[i]);
      assert SignalOrder[i..] == [SignalOrder[i]] + SignalOrder[i + 1..];
    }
  }

  lemma {:induction false} FiringFromEmpty(g: Signals, i: nat)
    requires i <= |SignalOrder|
    ensures FiringFrom(g, i) == [] <==> forall j :: i <= j < |SignalOrder| ==> !Holds(g, SignalOrder[j])
    decreases |SignalOrder| - i
  {
    if i < |SignalOrder| {
      FiringFromEmpty(g, i + 1);
    }
  }

  /** The reason list as the detector builds it, one conditional append per
      signal in the source's order. */
  function Reasons(g: Signals): seq<string> {
    Part(g, LockIcon) + (Part(g, HostReadonly) + (Part(g, HostDisabled)
    + (Part(g, InputReadonlyAttr) + (Part(g, InputDisabledAttr)
    + (Part(g, AriaReadonly) + (Part(g, AriaDisabled)
    + (Part(g, InputReadOnlyProp) + (Part(g, InputDisabledProp) + []))))))))
  }

  /** The reason list is exactly the names of the firing signals, in the
      fixed order. */
  lemma ReasonsInOrder(g: Signals)
    ensures Reasons(g) == FiringFrom(g, 0)
  {
  }

  /** The reason list names a signal iff that signal fires, and it is empty
      iff no signal fires. */
  lemma ReasonsNameFiringSignals(g: Signals)
    ensures forall s :: Name(s) in Reasons(g) <==> Holds(g, s)
    ensures Reasons(g) == [] <==> forall s :: !Holds(g, s)
  {
    ReasonsInOrder(g);
    assert SignalOrder[0..] == SignalOrder;
    forall s ensures Name(s) in FiringFrom(g, 0) <==> Holds(g, s) {
      OrderComplete(s);
      FiringFromMembers(g, 0, s);
    }
    FiringFromEmpty(g, 0);
    if FiringFrom(g, 0) == [] {
      forall s ensures !Holds(g, s) {
        OrderComplete(s);
        var j :| 0 <= j < |SignalOrder| && SignalOrder[j] == s;
      }
    }
  }

  /** The detector's `(readonly, reason)` pair. */
  datatype Verdict = Verdict(readonly: bool, reason: string)

  const EditableHostReason := "editable (host readonly='false')"
  const NoSignalsReason := "no readonly signals"
  const UnreachableReason := "readonly signals"

  /** The detector's `any_ro`: the OR of the nine signals. It holds iff
      some signal fires, iff the reason list is non-empty. */
  function AnyReadonly(g: Signals): (b: bool)
    ensures b <==> exists s :: Holds(g, s)
    ensures b <==> Reasons(g) != []
  {
    ReasonsNameFiringSignals(g);
    assert Holds(g, LockIcon) == g.lockIcon && Holds(g, HostReadonly) == g.hostReadonly && Holds(g, HostDisabled) == g.hostDisabled;
    g.lockIcon || g.hostReadonly || g.hostDisabled
      || g.inputs.readonlyAttr || g.inputs.disabledAttr || g.inputs.ariaReadonly
      || g.inputs.ariaDisabled || g.inputs.readOnlyProp || g.inputs.disabledProp
  }

  /** `ReadonlyDetector.check` after the script has run. Readonly iff some
      signal fires, whatever the host's explicit `readonly="false"`; that
      marker only chooses the wording of the editable verdict. */
  function Classify(h: HostState): (r: Verdict)
    ensures r.readonly <==> exists s :: Holds(Gather(h), s)
    ensures !r.readonly && AttrFalse(h.hostReadonly) ==> r.reason == EditableHostReason
    ensures !r.readonly && !AttrFalse(h.hostReadonly) ==> r.reason == NoSignalsReason
    ensures r.readonly ==> Reasons(Gather(h)) != [] && r.reason == Join(Reasons(Gather(h)), ", ")
  {
    var g := Gather(h);
    var anyRo := AnyReadonly(g);
    if AttrFalse(h.hostReadonly) && !anyRo then Verdict(false, EditableHostReason)
    else if anyRo then
      var reasons := Reasons(g);
      Verdict(true, if reasons != [] then Join(reasons, ", ") else UnreachableReason)
    else Verdict(false, NoSignalsReason)
  }

  /** OR aggregation is monotone in the descendants: another input can make
      an editable field readonly, never the other way round. */
  lemma MoreInputsStayReadonly(h: HostState, extra: seq<InputState>)
    ensures Classify(h).readonly ==> Classify(h.(inputs := h.inputs + extra)).readonly
  {
    if Classify(h).readonly {
      var h' := h.(inputs := h.inputs + extra);
      var s :| Holds(Gather(h), s);
      if IsInputSignal(s) {
        var k :| 0 <= k < |h.inputs| && Fires(h.inputs[k], s);
        assert h'.inputs[k] == h.inputs[k];
      }
      assert Holds(Gather(h'), s);
    }
  }
}
