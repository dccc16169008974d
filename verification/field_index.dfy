/** `FieldIndex` (creatio_tests/page/field_index.py): the registry of form
    field elements by their `element-name` code, in which the first
    registration of a code wins and the empty code is never registered. */
module FieldIndex {
  import opened Wrappers
  import opened OrderedMaps

  /** An index over elements of type `E`. */
  type Index<E> = OrderedMap<string, E>

  /** The index invariant: a well-formed ordered map without the empty
      code. */
  ghost predicate Valid<E>(ix: Index<E>) {
    ix.Valid() && "" !in ix.items
  }

  function New<E>(): (ix: Index<E>)
    ensures Valid(ix) && ix.keys == []
  {
    Empty()
  }

  /** `add(code, element)`. */
  function Add<E>(ix: Index<E>, code: string, el: E): (r: Index<E>)
    requires Valid(ix)
    ensures Valid(r)
    ensures Get(ix, code).Some? ==> Get(r, code) == Get(ix, code)
    ensures Get(ix, code).None? && code != "" ==> Get(r, code) == Some(el)
    ensures code == "" ==> r == ix
    ensures forall k :: k != code ==> Get(r, k) == Get(ix, k)
    ensures |ix.keys| <= |r.keys| <= |ix.keys| + 1
    ensures ix.keys <= r.keys
  {
    if code == "" || code in ix.items then ix else Put(ix, code, el)
  }

  /** `get(code)`: the registered element, or `None`. */
  function Get<E>(ix: Index<E>, code: string): (r: Option<E>)
    ensures r.Some? <==> code in ix.items
    ensures r.Some? ==> r.value == ix.items[code]
  {
    OrderedMaps.Get(ix, code)
  }

  /** `len(index)`. */
  function Len<E>(ix: Index<E>): (n: nat)
    requires Valid(ix)
    ensures n == |ix.items| == |ix.keys|
  {
    assert OrderedMaps.Len(ix) == |ix.keys|;
    |ix.keys|
  }

  /** `keys()`, in first-insertion order. */
  function Keys<E>(ix: Index<E>): (r: seq<string>)
    requires Valid(ix)
    ensures forall k :: k in r <==> Get(ix, k).Some?
    ensures forall i :: 0 <= i < |r| ==> r[i] != ""
  {
    ix.keys
  }

  /** The index after adding every `(code, element)` pair in order. */
  function Build<E>(pairs: seq<(string, E)>): (ix: Index<E>)
    ensures Valid(ix)
  {
    if pairs == [] then New()
    else
      var last := pairs[|pairs| - 1];
      Add(Build(pairs[..|pairs| - 1]), last.0, last.1)
  }

  /** Building over one more pair adds that pair to the index built so
      far. */
  lemma BuildSnoc<E>(pairs: seq<(string, E)>, p: (string, E))
    ensures Build(pairs + [p]) == Add(Build(pairs), p.0, p.1)
  {
    assert (pairs + [p])[..|pairs|] == pairs;
  }

  /** Position of the first pair registering `code`: the reference
      definition of "first registration". */
  function FirstPos<E>(pairs: seq<(string, E)>, code: string): (r: Option<nat>)
    ensures r.Some? ==> r.value < |pairs| && pairs[r.value].0 == code
    ensures r.Some? ==> forall j :: 0 <= j < r.value ==> pairs[j].0 != code
    ensures r.None? ==> forall j :: 0 <= j < |pairs| ==> pairs[j].0 != code
  {
    if pairs == [] then None
    else if pairs[0].0 == code then Some(0)
    else
      match FirstPos(pairs[1..], code)
      case None => None
      case Some(i) => Some(i + 1)
  }

  /** Appending a pair leaves earlier first positions alone. */
  lemma {:induction false} FirstPosSnoc<E>(pairs: seq<(string, E)>, p: (string, E), code: string)
    ensures FirstPos(pairs + [p], code) ==
      if FirstPos(pairs, code).Some? then FirstPos(pairs, code)
      else if p.0 == code then Some(|pairs|)
      else None
  {
    if pairs != [] {
      assert (pairs + [p])[1..] == pairs[1..] + [p];
      if pairs[0].0 != code {
        FirstPosSnoc(pairs[1..], p, code);
      }
    }
  }

  /** The element registered for a code is the one of its first pair, and
      only non-empty codes that occur in some pair are registered. */
  lemma {:induction false} BuildFirstWins<E>(pairs: seq<(string, E)>, code: string)
    ensures Get(Build(pairs), code) ==
      if code == "" then None
      else match FirstPos(pairs, code)
        case None => None
        case Some(i) => Some(pairs[i].1)
  {
    if pairs != [] {
      var init := pairs[..|pairs| - 1];
      var last := pairs[|pairs| - 1];
      assert pairs == init + [last];
      BuildSnoc(init, last);
      BuildFirstWins(init, code);
      FirstPosSnoc(init, last, code);
      var q := FirstPos(init, code);
      if q.Some? {
        assert pairs[q.value] == init[q.value];
      }
    }
  }

  /** Every indexed code has a first registration. */
  lemma KeyHasFirstPos<E>(pairs: seq<(string, E)>, i: nat)
    requires i < |Build(pairs).keys|
    ensures FirstPos(pairs, Build(pairs).keys[i]).Some?
  {
    var k := Build(pairs).keys[i];
    assert k in Build(pairs).items;
    BuildFirstWins(pairs, k);
  }

  /** Keys come out in the order of their codes' first registration. */
  lemma {:induction false} KeysInFirstOrder<E>(pairs: seq<(string, E)>, i: nat, j: nat)
    requires i < j < |Build(pairs).keys|
    ensures FirstPos(pairs, Build(pairs).keys[i]).Some? && FirstPos(pairs, Build(pairs).keys[j]).Some?
    ensures FirstPos(pairs, Build(pairs).keys[i]).value < FirstPos(pairs, Build(pairs).keys[j]).value
  {
    var init := pairs[..|pairs| - 1];
    var last := pairs[|pairs| - 1];
    assert pairs == init + [last];
    BuildSnoc(init, last);
    var prev := Build(init);
    var ki := Build(pairs).keys[i];
    var kj := Build(pairs).keys[j];
    KeyHasFirstPos(pairs, i);
    KeyHasFirstPos(pairs, j);
    assert ki == prev.keys[i];
    KeyHasFirstPos(init, i);
    FirstPosSnoc(init, last, ki);
    if j < |prev.keys| {
      assert kj == prev.keys[j];
      KeysInFirstOrder(init, i, j);
      FirstPosSnoc(init, last, kj);
    } else {
      assert kj == last.0 && kj !in prev.items;
      BuildFirstWins(init, kj);
      FirstPosSnoc(init, last, kj);
    }
  }

  /** The same, for all keys at once. */
  lemma BuildKeysInFirstOrder<E>(pairs: seq<(string, E)>)
    ensures forall i :: 0 <= i < |Build(pairs).keys| ==>
      FirstPos(pairs, Build(pairs).keys[i]).Some?
    ensures forall i, j :: 0 <= i < j < |Build(pairs).keys| ==>
      FirstPos(pairs, Build(pairs).keys[i]).value < FirstPos(pairs, Build(pairs).keys[j]).value
  {
    forall i | 0 <= i < |Build(pairs).keys|
      ensures FirstPos(pairs, Build(pairs).keys[i]).Some?
    {
      KeyHasFirstPos(pairs, i);
    }
    forall i, j | 0 <= i < j < |Build(pairs).keys|
      ensures FirstPos(pairs, Build(pairs).keys[i]).value < FirstPos(pairs, Build(pairs).keys[j]).value
    {
      KeysInFirstOrder(pairs, i, j);
    }
  }

  /** The codes the pairs register: every non-empty one. */
  function Codes<E>(pairs: seq<(string, E)>): (r: set<string>)
    ensures forall k :: k in r <==> k != "" && exists i :: 0 <= i < |pairs| && pairs[i].0 == k
  {
    set i | 0 <= i < |pairs| && pairs[i].0 != "" :: pairs[i].0
  }

  /** `len` counts the distinct non-empty codes added. */
  lemma BuildLen<E>(pairs: seq<(string, E)>)
    ensures Len(Build(pairs)) == |Codes(pairs)|
  {
    var ix := Build(pairs);
    forall k ensures k in ix.items <==> k in Codes(pairs) {
      BuildFirstWins(pairs, k);
    }
    assert ix.items.Keys == Codes(pairs);
    DistinctCardinality(ix.keys);
    assert ix.items.Keys == set k | k in ix.keys;
  }
}
