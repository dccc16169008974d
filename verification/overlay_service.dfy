/** The lookup drop-down (creatio_tests/services/overlay_service.py):
    opening it, reading its options until their number settles, and closing
    it. The in-page scripts are replaced by their results, and the deadline
    of `read_until_stable` by the list of ticks that fit before it. */
module OverlayService {
  import opened Wrappers
  import opened Strings
  import opened DomQueries

  /** How clicking an element goes: the direct click works, or it raises
      and the JavaScript click works, or both raise. */
  datatype Click = Clicked | ClickedViaJs | Unclickable

  /** What the overlay does when a container is opened and read. */
  datatype OverlayView = OverlayView(
    caretClick: Click,
    triggerClick: Click,
    shows: bool,              // an option element appears before the wait times out
    waitError: string,        // the text of the wait's timeout exception
    ticks: seq<seq<string>>,  // per tick, the text of each option node the collect script visits
    panelHtml: Option<string>)  // the panel's outerHTML; `None` when the script raised or found no panel

  /** Which element opened the overlay. */
  datatype Opener = ByCaret | ByTrigger(t: Trigger)

  datatype Opened = Opened(ok: bool, message: string, via: Opener)

  /** The exceptions `open` lets through: no trigger element, or a trigger
      that neither click reaches. */
  datatype Raised = NoTrigger | TriggerUnclickable

  /** `open(container)`. The caret icon is tried first; if it is absent or
      both clicks on it raise, the trigger from `find_trigger` is clicked.
      The overlay then counts as open when an option shows up. */
  function Open(parts: set<Part>, v: OverlayView): (r: Result<Opened, Raised>)
    ensures CaretIcon in parts && v.caretClick != Unclickable ==> r.Ok? && r.value.via == ByCaret
    ensures r.Ok? && r.value.via.ByTrigger? ==> Some(r.value.via.t) == FindTrigger(parts)
    ensures r.Err? <==>
      (CaretIcon !in parts || v.caretClick == Unclickable) &&
      (FindTrigger(parts).None? || v.triggerClick == Unclickable)
    ensures r.Ok? ==> (r.value.ok <==> v.shows)
    ensures r.Ok? && r.value.ok ==> r.value.message == "overlay visible"
    ensures r.Ok? && !r.value.ok ==> r.value.message == "overlay not visible: " + v.waitError
  {
    var opener :=
      if CaretIcon in parts && v.caretClick != Unclickable then Ok(ByCaret)
      else match FindTrigger(parts)
        case None => Err(NoTrigger)
        case Some(t) => if v.triggerClick == Unclickable then Err(TriggerUnclickable) else Ok(ByTrigger(t));
    if opener.Err? then Err(opener.error)
    else if v.shows then Ok(Opened(true, "overlay visible", opener.value))
    else Ok(Opened(false, "overlay not visible: " + v.waitError, opener.value))
  }

  /** No string of `s` occurs twice. */
  predicate Distinct(s: seq<string>) {
    forall i, j :: 0 <= i < j < |s| ==> s[i] != s[j]
  }

  /** The collect script on one tick: each node's text trimmed by
      JavaScript's `trim()`, blanks dropped, duplicates dropped, in order of
      first appearance. */
  function Collect(raw: seq<string>): seq<string>
  {
    if raw == [] then []
    else
      var prev := Collect(raw[..|raw| - 1]);
      var t := JsTrim(raw[|raw| - 1]);
      if t != "" && t !in prev then prev + [t] else prev
  }

  /** The collected options are distinct, trimmed and non-blank, and they
      are exactly the non-blank trimmed texts of the nodes. */
  lemma {:induction false} CollectSound(raw: seq<string>)
    ensures Distinct(Collect(raw))
    ensures forall i :: 0 <= i < |Collect(raw)| ==> Collect(raw)[i] != "" && IsJsTrimmed(Collect(raw)[i])
    ensures forall t :: t in Collect(raw) ==> exists i :: 0 <= i < |raw| && JsTrim(raw[i]) == t
    ensures forall i :: 0 <= i < |raw| && JsTrim(raw[i]) != "" ==> JsTrim(raw[i]) in Collect(raw)
  {
    if raw != [] {
      var init := raw[..|raw| - 1];
      CollectSound(init);
      assert forall i :: 0 <= i < |init| ==> init[i] == raw[i];
    }
  }

  /** The number of options seen at each tick. */
  function Counts(ticks: seq<seq<string>>): (c: seq<nat>)
    ensures |c| == |ticks|
    ensures forall i :: 0 <= i < |ticks| ==> c[i] == |Collect(ticks[i])|
  {
    seq(|ticks|, i requires 0 <= i < |ticks| => |Collect(ticks[i])|)
  }

  /** `stable_ticks` after tick `k`: how many ticks in a row, ending at `k`,
      repeated the previous non-zero count. */
  function Run(counts: seq<nat>, k: nat): nat
    requires k < |counts|
  {
    if k == 0 then 0
    else if counts[k] == counts[k - 1] && counts[k - 1] >= 1 then Run(counts, k - 1) + 1
    else 0
  }

  /** Tick `k` ends three equal non-zero counts. */
  predicate Settled(counts: seq<nat>, k: nat) {
    2 <= k < |counts| && counts[k] == counts[k - 1] == counts[k - 2] >= 1
  }

  /** The loop stops at tick `k` exactly when the last three counts agree
      and are non-zero: stability looks at counts, never at contents. */
  lemma RunSettled(counts: seq<nat>, k: nat)
    requires k < |counts|
    ensures Run(counts, k) >= 2 <==> Settled(counts, k)
  {
    if k >= 1 && counts[k] == counts[k - 1] && counts[k - 1] >= 1 && k >= 2 {
      assert Run(counts, k) == Run(counts, k - 1) + 1;
    }
  }

  /** The tick at which reading stops: the first settled one from `k` on,
      else the last tick. */
  function StopFrom(counts: seq<nat>, k: nat): (s: nat)
    requires k < |counts|
    ensures k <= s < |counts|
    ensures forall j :: k <= j < s ==> !Settled(counts, j)
    ensures Settled(counts, s) || s == |counts| - 1
    decreases |counts| - k
  {
    RunSettled(counts, k);
    if Run(counts, k) >= 2 || k == |counts| - 1 then k else StopFrom(counts, k + 1)
  }

  /** The failure message: the first 800 characters of the panel markup. */
  function NoOptionsMessage(html: Option<string>): string {
    "no options; overlay html: " + Take(html.GetOr(""), 800)
  }

  /** The triple `read_until_stable` returns. */
  datatype ReadOut = ReadOut(ok: bool, options: seq<string>, message: string)

  /** What `read_until_stable` returns, stated through the stopping tick:
      the options collected there when there are any, else the failure
      message. With no tick at all there is nothing collected. */
  function Read(ticks: seq<seq<string>>, html: Option<string>): (r: ReadOut)
    ensures r.ok ==> r.options != [] && Distinct(r.options) && r.message == "options collected"
    ensures !r.ok ==> r.options == [] && r.message == NoOptionsMessage(html)
  {
    if |ticks| == 0 then ReadOut(false, [], NoOptionsMessage(html))
    else
      var last := Collect(ticks[StopFrom(Counts(ticks), 0)]);
      CollectSound(ticks[StopFrom(Counts(ticks), 0)]);
      if last == [] then ReadOut(false, [], NoOptionsMessage(html)) else ReadOut(true, last, "options collected")
  }

  /** `read_until_stable()`: collects the options tick by tick until three
      ticks in a row give the same non-zero count, then succeeds iff the
      last collected list is non-empty. */
  method ReadUntilStable(ticks: seq<seq<string>>, html: Option<string>)
    returns (ok: bool, options: seq<string>, message: string)
    ensures |ticks| == 0 ==> !ok
    ensures |ticks| > 0 ==> (ok <==> Collect(ticks[StopFrom(Counts(ticks), 0)]) != [])
    ensures ok ==> options == Collect(ticks[StopFrom(Counts(ticks), 0)]) && message == "options collected"
    ensures !ok ==> options == [] && message == NoOptionsMessage(html)
    ensures ReadOut(ok, options, message) == Read(ticks, html)
  {
    var texts: seq<string> := [];
    if |ticks| > 0 {
      var stop;
      texts, stop := PollUntilStable(ticks);
    }
    if texts == [] {
      return false, [], NoOptionsMessage(html);
    }
    return true, texts, "options collected";
  }

  /** The polling loop of `read_until_stable()`: the texts of the tick it
      stops at, and that tick. */
  method PollUntilStable(ticks: seq<seq<string>>) returns (texts: seq<string>, stop: nat)
    requires |ticks| > 0
    ensures stop == StopFrom(Counts(ticks), 0) && texts == Collect(ticks[stop])
  {
    ghost var counts := Counts(ticks);
    var lastLen := -1;
    var stableTicks := 0;
    texts := [];
    var i := 0;
    var done := false;
    while i < |ticks| && !done
      invariant 0 <= i <= |ticks|
      invariant i == 0 ==> lastLen == -1 && !done
      invariant 0 < i && !done ==> texts == Collect(ticks[i - 1]) && lastLen == |texts| && stableTicks == Run(counts, i - 1)
      invariant done ==> 0 < i && texts == Collect(ticks[i - 1]) && Settled(counts, i - 1)
      invariant forall j :: 0 <= j < i - 1 ==> !Settled(counts, j)
      invariant !done ==> forall j :: 0 <= j < i ==> !Settled(counts, j)
    {
      texts := Collect(ticks[i]);
      if |texts| == lastLen && lastLen >= 1 {
        stableTicks := stableTicks + 1;
      } else {
        stableTicks := 0;
      }
      RunSettled(counts, i);
      if stableTicks >= 2 {
        done := true;
      } else {
        lastLen := |texts|;
      }
      i := i + 1;
    }
    stop := i - 1;
    StopIsFirstSettled(counts, stop);
  }

  /** The stopping tick is the first settled one, or the last tick. */
  lemma StopIsFirstSettled(counts: seq<nat>, s: nat)
    requires s < |counts|
    requires forall j :: 0 <= j < s ==> !Settled(counts, j)
    requires Settled(counts, s) || s == |counts| - 1
    ensures StopFrom(counts, 0) == s
  {
    var t := StopFrom(counts, 0);
    assert Settled(counts, t) || t == |counts| - 1;
  }

  /** Two reads whose ticks show the same numbers of options stop at the
      same tick, whatever the option texts are. */
  lemma StopDependsOnlyOnCounts(a: seq<seq<string>>, b: seq<seq<string>>)
    requires |a| == |b| > 0
    requires forall i :: 0 <= i < |a| ==> |Collect(a[i])| == |Collect(b[i])|
    ensures StopFrom(Counts(a), 0) == StopFrom(Counts(b), 0)
  {
    assert Counts(a) == Counts(b);
  }
}
