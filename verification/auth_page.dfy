/** The pure parts of `CreatioAuthPage` (creatio_tests/page/auth_page.py):
    the base URL it keeps, the test URL it opens, the field index it builds
    from what successive ticks show, and waiting for one field. Logging in,
    loading the page and the driver itself are not part of this model. */
module AuthPage {
  import opened Wrappers
  import opened Strings
  import opened FieldIndex
  import DomQueries
  import Waits

  /** The client's settings after construction. */
  datatype Client = Client(baseUrl: string, username: string, password: string, testUrl: string,
                           headless: bool, waitTimeoutSec: int, debug: bool)

  /** `CreatioAuthPage(...)`: the base URL loses its trailing slashes, the
      other settings are kept as given. */
  function NewClient(baseUrl: string, username: string, password: string, testUrl: string,
                     headless: bool, waitTimeoutSec: int, debug: bool): (c: Client)
    ensures c.baseUrl == "" || c.baseUrl[|c.baseUrl| - 1] != '/'
    ensures |c.baseUrl| <= |baseUrl| && baseUrl[..|c.baseUrl|] == c.baseUrl
    ensures forall i :: |c.baseUrl| <= i < |baseUrl| ==> baseUrl[i] == '/'
    ensures c.username == username && c.password == password && c.testUrl == testUrl
    ensures c.headless == headless && c.waitTimeoutSec == waitTimeoutSec && c.debug == debug
  {
    Client(TrimEndChar(baseUrl, '/'), username, password, testUrl, headless, waitTimeoutSec, debug)
  }

  /** Stripping the trailing slashes of a URL that has none changes
      nothing. */
  lemma BaseUrlStable(c: Client)
    ensures NewClient(c.baseUrl, c.username, c.password, c.testUrl, c.headless, c.waitTimeoutSec, c.debug).baseUrl
         == TrimEndChar(c.baseUrl, '/')
    ensures c.baseUrl == "" || c.baseUrl[|c.baseUrl| - 1] != '/' ==> TrimEndChar(c.baseUrl, '/') == c.baseUrl
  {
  }

  /** The test URL is absolute: it starts with `http://` or `https://`,
      compared case-sensitively. */
  predicate IsAbsolute(url: string) {
    StartsWith(url, "http://") || StartsWith(url, "https://")
  }

  /** `_resolve_test_url()`. */
  function ResolveTestUrl(c: Client): (url: string)
    ensures IsAbsolute(c.testUrl) ==> url == c.testUrl
    ensures !IsAbsolute(c.testUrl) ==> StartsWith(url, c.baseUrl)
    ensures !IsAbsolute(c.testUrl) ==>
      |url| == |c.baseUrl| + |c.testUrl| + (if StartsWith(c.testUrl, "/") then 0 else 1)
    ensures !IsAbsolute(c.testUrl) ==> url[|c.baseUrl|] == '/' && url[|url| - |c.testUrl|..] == c.testUrl
  {
    if IsAbsolute(c.testUrl) then c.testUrl
    else if StartsWith(c.testUrl, "/") then c.baseUrl + c.testUrl
    else c.baseUrl + "/" + c.testUrl
  }

  /** The scheme test does not fold case: a test URL that does not begin
      with a lower-case `h` (`HTTPS://...` say) is taken for a path and
      appended to the base URL. */
  lemma SchemeIsCaseSensitive(c: Client)
    requires c.testUrl != "" && c.testUrl[0] != 'h'
    ensures !IsAbsolute(c.testUrl)
    ensures StartsWith(ResolveTestUrl(c), c.baseUrl) && |ResolveTestUrl(c)| > |c.baseUrl|
  {
    assert !StartsWith(c.testUrl, "http://") by {
      if |c.testUrl| >= 7 {
        assert c.testUrl[..7][0] == c.testUrl[0];
      }
    }
    assert !StartsWith(c.testUrl, "https://") by {
      if |c.testUrl| >= 8 {
        assert c.testUrl[..8][0] == c.testUrl[0];
      }
    }
  }

  /** One element the index selectors match, by its `element-name`
      attribute (`None` when absent or when reading it raised). */
  datatype Candidate<E> = Candidate(name: Option<string>, el: E)

  /** What one indexing tick sees: the candidates of all index selectors,
      selector by selector (see `Candidates`). */
  type Tick<E> = seq<Candidate<E>>

  const IndexSelectors: seq<string> := [
    "crt-input[element-name]",
    "crt-checkbox[element-name]",
    "crt-combobox[element-name]",
    "crt-number-input[element-name]",
    "crt-date-input[element-name]",
    "crt-time-input[element-name]",
    "crt-date-time-input[element-name]",
    "crt-datetimepicker[element-name]"
  ]

  /** The candidates of one tick, from the matches of each index selector;
      a selector without an entry raised and contributes nothing. */
  function Candidates<E>(found: map<string, seq<Candidate<E>>>): (t: Tick<E>)
    ensures forall x :: x in t ==> exists i :: 0 <= i < |IndexSelectors| && IndexSelectors[i] in found && x in found[IndexSelectors[i]]
  {
    DomQueries.Gather(IndexSelectors, found)
  }

  /** The code a candidate registers under: its stripped attribute. */
  function CodeOf<E>(c: Candidate<E>): (code: string)
    ensures IsTrimmed(code)
  {
    Trim(c.name.GetOr(""))
  }

  /** A candidate without the attribute registers under the empty code;
      one with it, under the attribute's stripped text. */
  lemma CodeOfName<E>(c: Candidate<E>)
    ensures c.name.None? ==> CodeOf(c) == ""
    ensures c.name.Some? ==> CodeOf(c) == Trim(c.name.value)
  {
  }

  /** The `(code, element)` pairs one tick offers, selector by selector. */
  function TickPairs<E>(t: Tick<E>): (r: seq<(string, E)>)
    ensures |r| == |t|
    ensures forall i :: 0 <= i < |t| ==> r[i] == (CodeOf(t[i]), t[i].el)
  {
    seq(|t|, i requires 0 <= i < |t| => (CodeOf(t[i]), t[i].el))
  }

  /** The pairs of the first `n` ticks, in the order they are offered. */
  function Pairs<E>(ticks: seq<Tick<E>>, n: nat): (r: seq<(string, E)>)
    requires n <= |ticks|
  {
    if n == 0 then [] else Pairs(ticks, n - 1) + TickPairs(ticks[n - 1])
  }

  /** The index after adding the first `j` pairs of `pairs` to `ix`. */
  function AddFirst<E>(ix: Index<E>, pairs: seq<(string, E)>, j: nat): (r: Index<E>)
    requires Valid(ix) && j <= |pairs|
    ensures Valid(r) && |ix.keys| <= |r.keys|
  {
    if j == 0 then ix else Add(AddFirst(ix, pairs, j - 1), pairs[j - 1].0, pairs[j - 1].1)
  }

  /** The index after the first `n` ticks. */
  function IndexAfter<E>(ticks: seq<Tick<E>>, n: nat): (ix: Index<E>)
    requires n <= |ticks|
    ensures Valid(ix)
  {
    if n == 0 then New()
    else
      var pairs := TickPairs(ticks[n - 1]);
      AddFirst(IndexAfter(ticks, n - 1), pairs, |pairs|)
  }

  /** The index sizes after each of the first `n` ticks. */
  function CountsUpTo<E>(ticks: seq<Tick<E>>, n: nat): (c: seq<nat>)
    requires n <= |ticks|
    ensures |c| == n
  {
    if n == 0 then [] else CountsUpTo(ticks, n - 1) + [|IndexAfter(ticks, n).keys|]
  }

  /** The index size after each tick. */
  function Counts<E>(ticks: seq<Tick<E>>): (c: seq<nat>)
    ensures |c| == |ticks|
  {
    CountsUpTo(ticks, |ticks|)
  }

  /** Entry `k` of the counts is the size of the index after tick `k`. */
  lemma {:induction false} CountAt<E>(ticks: seq<Tick<E>>, n: nat, k: nat)
    requires k < n <= |ticks|
    ensures CountsUpTo(ticks, n)[k] == |IndexAfter(ticks, k + 1).keys|
  {
    if k < n - 1 {
      CountAt(ticks, n - 1, k);
    }
  }

  /** `stable_ticks` after tick `k`: how many ticks in a row, ending at `k`,
      repeated the previous count. */
  function Stable(counts: seq<nat>, k: nat): nat
    requires k < |counts|
  {
    if k == 0 then 0
    else if counts[k] == counts[k - 1] then Stable(counts, k - 1) + 1
    else 0
  }

  /** Indexing stops after tick `k`. */
  predicate Done(counts: seq<nat>, k: nat) {
    k < |counts| && counts[k] > 0 && Stable(counts, k) >= 4
  }

  /** Indexing is not done after any of the first `n` ticks. */
  predicate NoneDoneBefore(counts: seq<nat>, n: nat)
    requires n <= |counts|
  {
    n == 0 || (NoneDoneBefore(counts, n - 1) && !Done(counts, n - 1))
  }

  /** Stopping takes five equal non-zero counts in a row. */
  lemma {:induction false} DoneIffFiveEqual(counts: seq<nat>, k: nat)
    requires k < |counts|
    ensures Done(counts, k) <==>
      4 <= k && counts[k] > 0 && forall j :: k - 4 <= j <= k ==> counts[j] == counts[k]
  {
    if 4 <= k && forall j :: k - 4 <= j <= k ==> counts[j] == counts[k] {
      assert counts[k - 1] == counts[k] && counts[k - 2] == counts[k] && counts[k - 3] == counts[k] && counts[k - 4] == counts[k];
      assert Stable(counts, k) == Stable(counts, k - 4) + 4;
    }
    if Stable(counts, k) >= 4 {
      assert Stable(counts, k) == Stable(counts, k - 1) + 1;
      assert Stable(counts, k - 1) == Stable(counts, k - 2) + 1;
      assert Stable(counts, k - 2) == Stable(counts, k - 3) + 1;
      assert Stable(counts, k - 3) == Stable(counts, k - 4) + 1;
      assert forall j :: k - 4 <= j <= k ==> counts[j] == counts[k];
    }
  }

  /** The tick indexing stops at: the first one from `k` on after which it
      is done, else the last tick. */
  function StopFrom(counts: seq<nat>, k: nat): (s: nat)
    requires k < |counts|
    ensures k <= s < |counts|
    ensures forall j :: k <= j < s ==> !Done(counts, j)
    ensures Done(counts, s) || s == |counts| - 1
    decreases |counts| - k
  {
    if Done(counts, k) || k == |counts| - 1 then k else StopFrom(counts, k + 1)
  }

  /** The loop's stability state: the last count, how many ticks in a row
      repeated it, and whether indexing is done. */
  datatype Tracker = Tracker(lastCount: int, stableTicks: nat, done: bool)

  /** One tick's update of the stability state, given the count it leaves. */
  function Advance(t: Tracker, cur: nat): Tracker {
    var stable := if cur == t.lastCount then t.stableTicks + 1 else 0;
    Tracker(cur, stable, cur > 0 && stable >= 4)
  }

  /** The stability state after the first `n` ticks. */
  function Track<E>(ticks: seq<Tick<E>>, n: nat): Tracker
    requires n <= |ticks|
  {
    if n == 0 then Tracker(-1, 0, false) else Advance(Track(ticks, n - 1), |IndexAfter(ticks, n).keys|)
  }

  /** None of the first `n` ticks finished indexing. */
  predicate NotDoneUpTo<E>(ticks: seq<Tick<E>>, n: nat)
    requires n <= |ticks|
  {
    n == 0 || (NotDoneUpTo(ticks, n - 1) && !Track(ticks, n).done)
  }

  /** `build_fields_index()`: tick after tick, every candidate with a
      non-empty code not yet indexed is added, until the index size is
      non-zero and has not changed for four ticks. Returns the index and
      the number of ticks it took. */
  method BuildFieldsIndex<E>(ticks: seq<Tick<E>>) returns (ix: Index<E>, used: nat)
    ensures Valid(ix)
    ensures |ticks| == 0 ==> used == 0 && ix.keys == []
    ensures |ticks| > 0 ==> used == StopFrom(Counts(ticks), 0) + 1
    ensures used <= |ticks| && ix == IndexAfter(ticks, used)
  {
    ix := New();
    var lastCount: int := -1;
    var stableTicks := 0;
    var i := 0;
    var done := false;
    while i < |ticks| && !done
      invariant 0 <= i <= |ticks|
      invariant ix == IndexAfter(ticks, i)
      invariant Tracker(lastCount, stableTicks, done) == Track(ticks, i)
      invariant done ==> 0 < i && NotDoneUpTo(ticks, i - 1)
      invariant !done ==> NotDoneUpTo(ticks, i)
    {
      var offered := TickPairs(ticks[i]);
      ix := AddFirst(ix, offered, |offered|);
      TickStep(ticks, i);
      var curCount := Len(ix);
      if curCount == lastCount {
        stableTicks := stableTicks + 1;
      } else {
        stableTicks := 0;
      }
      lastCount := curCount;
      if curCount > 0 && stableTicks >= 4 {
        done := true;
      }
      i := i + 1;
    }
    used := i;
    if |ticks| > 0 {
      StopIsTracked(ticks, used);
    }
  }

  /** What tick `i` does to the index and to the stability state. */
  lemma TickStep<E>(ticks: seq<Tick<E>>, i: nat)
    requires i < |ticks|
    ensures IndexAfter(ticks, i + 1) == AddFirst(IndexAfter(ticks, i), TickPairs(ticks[i]), |TickPairs(ticks[i])|)
    ensures Track(ticks, i + 1) == Advance(Track(ticks, i), |IndexAfter(ticks, i + 1).keys|)
  {
  }

  /** The loop's state after tick `k` is the count after it, the run of
      equal counts ending at it, and whether indexing is done there. */
  lemma {:induction false} TrackIsStable<E>(ticks: seq<Tick<E>>, k: nat)
    requires k < |ticks|
    ensures Track(ticks, k + 1) == Tracker(Counts(ticks)[k], Stable(Counts(ticks), k), Done(Counts(ticks), k))
  {
    CountAt(ticks, |ticks|, k);
    if k > 0 {
      TrackIsStable(ticks, k - 1);
    }
  }

  /** The loop's stopping condition, read on the counts. */
  lemma {:induction false} NotDoneUpToCounts<E>(ticks: seq<Tick<E>>, n: nat)
    requires n <= |ticks|
    ensures NotDoneUpTo(ticks, n) == NoneDoneBefore(Counts(ticks), n)
  {
    if n > 0 {
      NotDoneUpToCounts(ticks, n - 1);
      TrackIsStable(ticks, n - 1);
    }
  }

  /** Where the loop stops is the first tick after which indexing is done,
      or the last tick. */
  lemma StopIsTracked<E>(ticks: seq<Tick<E>>, used: nat)
    requires 0 < used <= |ticks| && NotDoneUpTo(ticks, used - 1)
    requires Track(ticks, used).done || used == |ticks|
    ensures StopFrom(Counts(ticks), 0) == used - 1
  {
    TrackedStopOnCounts(ticks, used);
    StopIsFirstDone(Counts(ticks), used - 1, 0);
  }

  /** The loop's exit condition, read on the counts. */
  lemma TrackedStopOnCounts<E>(ticks: seq<Tick<E>>, used: nat)
    requires 0 < used <= |ticks| && NotDoneUpTo(ticks, used - 1)
    requires Track(ticks, used).done || used == |ticks|
    ensures NoneDoneBefore(Counts(ticks), used - 1)
    ensures Done(Counts(ticks), used - 1) || used == |ticks|
  {
    NotDoneUpToCounts(ticks, used - 1);
    TrackIsStable(ticks, used - 1);
  }

  /** The stopping tick is the first one after which indexing is done, or
      the last tick. */
  lemma {:induction false} StopIsFirstDone(counts: seq<nat>, s: nat, k: nat)
    requires k <= s < |counts|
    requires NoneDoneBefore(counts, s)
    requires Done(counts, s) || s == |counts| - 1
    ensures StopFrom(counts, k) == s
    decreases s - k
  {
    if k < s {
      NoneDoneBeforeAll(counts, s, k);
      StopIsFirstDone(counts, s, k + 1);
    }
  }

  /** What `NoneDoneBefore` says of each tick before the bound. */
  lemma {:induction false} NoneDoneBeforeAll(counts: seq<nat>, n: nat, k: nat)
    requires k < n <= |counts| && NoneDoneBefore(counts, n)
    ensures !Done(counts, k)
    decreases n
  {
    if k < n - 1 {
      NoneDoneBeforeAll(counts, n - 1, k);
    }
  }

  /** The index only grows: later ticks append codes after the ones
      already indexed, and never change what an indexed code maps to. */
  lemma {:induction false} IndexOnlyGrows<E>(ticks: seq<Tick<E>>, i: nat, j: nat)
    requires i <= j <= |ticks|
    ensures |IndexAfter(ticks, i).keys| <= |IndexAfter(ticks, j).keys|
    decreases j - i
  {
    if i < j {
      IndexOnlyGrows(ticks, i, j - 1);
    }
  }

  /** Later ticks never change what an indexed code maps to. */
  lemma {:induction false} IndexKeepsEntry<E>(ticks: seq<Tick<E>>, i: nat, j: nat, k: string)
    requires i <= j <= |ticks| && k in IndexAfter(ticks, i).items
    ensures Get(IndexAfter(ticks, j), k) == Get(IndexAfter(ticks, i), k)
    decreases j - i
  {
    if i < j {
      IndexKeepsEntry(ticks, i, j - 1, k);
      TickKeepsEntry(ticks, j - 1, k);
    }
  }

  /** One more tick never changes an indexed code's entry. */
  lemma TickKeepsEntry<E>(ticks: seq<Tick<E>>, n: nat, k: string)
    requires n < |ticks| && k in IndexAfter(ticks, n).items
    ensures Get(IndexAfter(ticks, n + 1), k) == Get(IndexAfter(ticks, n), k)
  {
    var pairs := TickPairs(ticks[n]);
    AddFirstKeepsEntry(IndexAfter(ticks, n), pairs, |pairs|, k);
  }

  /** Adding pairs never changes an entry already present. */
  lemma {:induction false} AddFirstKeepsEntry<E>(ix: Index<E>, pairs: seq<(string, E)>, j: nat, k: string)
    requires Valid(ix) && j <= |pairs| && k in ix.items
    ensures Get(AddFirst(ix, pairs, j), k) == Get(ix, k)
  {
    if j > 0 {
      AddFirstKeepsEntry(ix, pairs, j - 1, k);
    }
  }

  /** Hence the count after each tick never decreases. */
  lemma CountsNonDecreasing<E>(ticks: seq<Tick<E>>, i: nat, j: nat)
    requires i <= j < |ticks|
    ensures Counts(ticks)[i] <= Counts(ticks)[j]
  {
    IndexOnlyGrows(ticks, i + 1, j + 1);
    CountAt(ticks, |ticks|, i);
    CountAt(ticks, |ticks|, j);
  }

  /** Folding the first `j` pairs of `q` into the index of `p` gives the
      index of `p` followed by those pairs. */
  lemma {:induction false} BuildExtend<E>(p: seq<(string, E)>, q: seq<(string, E)>, j: nat)
    requires j <= |q|
    ensures Build(p + q[..j]) == AddFirst(Build(p), q, j)
  {
    if j == 0 {
      assert p + q[..0] == p;
    } else {
      BuildExtend(p, q, j - 1);
      assert p + q[..j] == (p + q[..j - 1]) + [q[j - 1]];
      BuildSnoc(p + q[..j - 1], q[j - 1]);
    }
  }

  /** The index after `n` ticks is the index of all their pairs, in the
      order offered. */
  lemma {:induction false} IndexAfterIsBuild<E>(ticks: seq<Tick<E>>, n: nat)
    requires n <= |ticks|
    ensures IndexAfter(ticks, n) == Build(Pairs(ticks, n))
  {
    if n > 0 {
      IndexAfterIsBuild(ticks, n - 1);
      var p := Pairs(ticks, n - 1);
      var q := TickPairs(ticks[n - 1]);
      BuildExtend(p, q, |q|);
      assert q[..|q|] == q;
      assert Pairs(ticks, n) == p + q;
      assert IndexAfter(ticks, n) == AddFirst(Build(p), q, |q|);
    }
  }

  /** The element indexed for a code is the one offered first for it, over
      all the ticks taken; a code never offered is not indexed. */
  lemma IndexedElementIsFirstOffered<E>(ticks: seq<Tick<E>>, n: nat, code: string)
    requires n <= |ticks| && code != ""
    ensures Get(IndexAfter(ticks, n), code) ==
      match FirstPos(Pairs(ticks, n), code)
      case None => None
      case Some(i) => Some(Pairs(ticks, n)[i].1)
  {
    IndexAfterIsBuild(ticks, n);
    BuildFirstWins(Pairs(ticks, n), code);
  }

  /** `await_field_present(code, ...)`: the first lookup that finds the
      field, each lookup being the element or `None`. */
  function AwaitFieldPresent<E>(lookups: seq<Option<E>>): (r: Option<E>)
    ensures r.None? <==> forall i :: 0 <= i < |lookups| ==> lookups[i].None?
    ensures r.Some? ==> exists i :: (0 <= i < |lookups| && lookups[i] == r &&
      forall j :: 0 <= j < i ==> lookups[j].None?)
  {
    if lookups == [] then None
    else if lookups[0].Some? then lookups[0]
    else
      var rest := AwaitFieldPresent(lookups[1..]);
      assert forall i :: 1 <= i < |lookups| ==> lookups[i] == lookups[1..][i - 1];
      rest
  }

  /** Waiting for a field succeeds exactly when polling for its presence
      would. */
  lemma AwaitIsPoll<E>(lookups: seq<Option<E>>)
    ensures AwaitFieldPresent(lookups).Some? <==>
      Waits.PollUntil(seq(|lookups|, i requires 0 <= i < |lookups| => Some(lookups[i].Some?))).ok
  {
    var polled := seq(|lookups|, i requires 0 <= i < |lookups| => Some(lookups[i].Some?));
    assert forall i :: 0 <= i < |lookups| ==> (polled[i] == Some(true) <==> lookups[i].Some?);
  }
}
