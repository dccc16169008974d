/** Polling helpers (creatio_tests/services/waits.py). A deadline is
    replaced by the finite list of attempts that fit before it: each
    attempt is `None` when the polled call raised, otherwise what it
    returned. */
module Waits {
  import opened Wrappers

  /** The outcome of a poll and the number of calls it made. */
  datatype Poll = Poll(ok: bool, calls: nat)

  /** Some attempt succeeds. */
  ghost predicate AnyTrue(attempts: seq<Option<bool>>) {
    exists i :: 0 <= i < |attempts| && attempts[i] == Some(true)
  }

  /** Polling from attempt `k` on. */
  function PollFrom(attempts: seq<Option<bool>>, k: nat): (r: Poll)
    requires k <= |attempts|
    ensures k <= r.calls <= |attempts|
    ensures r.ok ==> k < r.calls && attempts[r.calls - 1] == Some(true)
    ensures r.ok ==> forall j :: k <= j < r.calls - 1 ==> attempts[j] != Some(true)
    ensures !r.ok ==> r.calls == |attempts| && forall j :: k <= j < |attempts| ==> attempts[j] != Some(true)
    decreases |attempts| - k
  {
    if k == |attempts| then Poll(false, k)
    else if attempts[k] == Some(true) then Poll(true, k + 1)
    else PollFrom(attempts, k + 1)
  }

  /** `poll_until(fn, timeout)`: true as soon as a call returns something
      truthy; a call that raises counts as false and polling goes on. */
  function PollUntil(attempts: seq<Option<bool>>): (r: Poll)
    ensures r.ok <==> AnyTrue(attempts)
    ensures r.calls <= |attempts|
    ensures r.ok ==> 0 < r.calls && attempts[r.calls - 1] == Some(true)
    ensures r.ok ==> forall j :: 0 <= j < r.calls - 1 ==> attempts[j] != Some(true)
    ensures !r.ok ==> r.calls == |attempts|
  {
    PollFrom(attempts, 0)
  }

  /** Attempts after the first success are never made: whatever follows a
      successful prefix, the outcome and the number of calls stay the
      same. */
  lemma {:induction false} PollIgnoresLaterAttempts(attempts: seq<Option<bool>>, more: seq<Option<bool>>, k: nat)
    requires k <= |attempts| && PollFrom(attempts, k).ok
    ensures PollFrom(attempts + more, k) == PollFrom(attempts, k)
    decreases |attempts| - k
  {
    assert (attempts + more)[k] == attempts[k];
    if attempts[k] != Some(true) {
      PollIgnoresLaterAttempts(attempts, more, k + 1);
    }
  }

  /** A call that raises is the same as one that returns false. */
  lemma {:induction false} PollRaiseIsFalse(attempts: seq<Option<bool>>, i: nat, k: nat)
    requires i < |attempts| && attempts[i].None? && k <= |attempts|
    ensures PollFrom(attempts[i := Some(false)], k) == PollFrom(attempts, k)
    decreases |attempts| - k
  {
    if k < |attempts| {
      PollRaiseIsFalse(attempts, i, k + 1);
    }
  }

  /** `wait_for_css(driver, selector, timeout)`: each attempt is the number
      of matches, `None` where the query raised. */
  function WaitForCss(attempts: seq<Option<nat>>): (ok: bool)
    ensures ok <==> exists i :: 0 <= i < |attempts| && attempts[i].Some? && attempts[i].value > 0
  {
    var polled := seq(|attempts|, i requires 0 <= i < |attempts| =>
      if attempts[i].Some? then Some(attempts[i].value > 0) else None);
    var r := PollUntil(polled);
    assert forall i :: 0 <= i < |attempts| ==> (polled[i] == Some(true) <==> attempts[i].Some? && attempts[i].value > 0);
    r.ok
  }

  /** `wait_for_js_ready(driver, timeout)`: each attempt is the document's
      `readyState` (empty when the script returned nothing), `None` where the
      script raised. */
  function WaitForJsReady(attempts: seq<Option<string>>): (ok: bool)
    ensures ok <==> exists i :: 0 <= i < |attempts| && attempts[i] == Some("complete")
  {
    var polled := seq(|attempts|, i requires 0 <= i < |attempts| =>
      if attempts[i].Some? then Some(attempts[i].value == "complete") else None);
    var r := PollUntil(polled);
    assert forall i :: 0 <= i < |attempts| ==> (polled[i] == Some(true) <==> attempts[i] == Some("complete"));
    r.ok
  }
}
