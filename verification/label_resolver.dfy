/** Label resolution (creatio_tests/services/label_resolver.py): the
    visible caption of a form field, looked for in the input's ARIA
    attributes first and in the container's label elements last. */
module LabelResolver {
  import opened Wrappers
  import opened Strings
  import DomQueries

  /** An element's `text` and `textContent`; a property that is `None` or
      whose read raised is the empty string, which `safe_text` treats the
      same way. */
  datatype TextNode = TextNode(text: string, textContent: string)

  /** The first `input, textarea, [role='combobox']` of the container, by
      its two ARIA attributes (`None` when absent). */
  datatype InputEl = InputEl(ariaLabel: Option<string>, labelledBy: Option<string>)

  /** What resolution can see: the container's input if any, the document's
      elements by id, and the matches of each label selector (a selector
      without an entry raised). */
  datatype LabelDom = LabelDom(
    input: Option<InputEl>,
    byId: map<string, TextNode>,
    labels: map<string, seq<TextNode>>)

  /** `safe_text(el)`: the stripped visible text, else the stripped
      `textContent`, else the empty string. */
  function SafeText(n: TextNode): (r: string)
    ensures IsTrimmed(r)
    ensures r == "" <==> AllSpace(n.text) && AllSpace(n.textContent)
  {
    TrimEmptyIffBlank(n.text);
    TrimEmptyIffBlank(n.textContent);
    var t := Trim(n.text);
    if t != "" then t else Trim(n.textContent)
  }

  /** The safe text is the visible text, or failing that the text content,
      with only surrounding whitespace removed. */
  lemma SafeTextPrefersText(n: TextNode)
    ensures !AllSpace(n.text) ==> PaddedBy(n.text, SafeText(n))
    ensures AllSpace(n.text) ==> PaddedBy(n.textContent, SafeText(n))
  {
    TrimPadded(n.text);
    TrimPadded(n.textContent);
  }

  /** Stage one: the stripped `aria-label`. */
  function AriaText(d: LabelDom): (r: string)
    ensures IsTrimmed(r)
    ensures d.input.None? ==> r == ""
  {
    if d.input.Some? then Trim(d.input.value.ariaLabel.GetOr("")) else ""
  }

  /** The text an id contributes: that of its element, or nothing when no
      element has the id. */
  function IdText(ids: seq<string>, byId: map<string, TextNode>, j: int): string
    requires 0 <= j < |ids|
  {
    if ids[j] in byId then SafeText(byId[ids[j]]) else ""
  }

  /** The non-empty texts of the ids that resolve, in id order. */
  function PartsOf(ids: seq<string>, byId: map<string, TextNode>): (r: seq<string>)
    ensures |r| <= |ids|
    ensures forall i :: 0 <= i < |r| ==> r[i] != "" && IsTrimmed(r[i])
  {
    if ids == [] then []
    else
      var t := IdText(ids, byId, 0);
      if t != "" then [t] + PartsOf(ids[1..], byId) else PartsOf(ids[1..], byId)
  }

  /** A text is among the parts exactly when some id resolves to it;
      unresolvable ids and blank texts contribute nothing. */
  lemma {:induction false} PartsOfMembers(ids: seq<string>, byId: map<string, TextNode>, t: string)
    ensures t in PartsOf(ids, byId) <==> t != "" && exists j :: 0 <= j < |ids| && IdText(ids, byId, j) == t
  {
    if ids != [] {
      PartsOfMembers(ids[1..], byId, t);
      forall j | 0 <= j < |ids| - 1
        ensures IdText(ids[1..], byId, j) == IdText(ids, byId, j + 1)
      {
      }
      if t != "" && t !in PartsOf(ids, byId) {
        forall j | 0 <= j < |ids|
          ensures IdText(ids, byId, j) != t
        {
          if j > 0 {
            assert IdText(ids[1..], byId, j - 1) != t;
          }
        }
      }
    }
  }

  /** The texts `aria-labelledby` contributes: its whitespace-separated ids,
      looked up one by one. */
  function LabelledParts(d: LabelDom): (r: seq<string>)
    requires d.input.Some?
    ensures forall i :: 0 <= i < |r| ==> r[i] != "" && IsTrimmed(r[i])
  {
    PartsOf(Words(Trim(d.input.value.labelledBy.GetOr(""))), d.byId)
  }

  /** Stage two: the parts joined with single spaces, then stripped. */
  function LabelledText(d: LabelDom): (r: string)
    ensures IsTrimmed(r)
    ensures d.input.None? ==> r == ""
  {
    if d.input.Some? && Trim(d.input.value.labelledBy.GetOr("")) != "" then
      Trim(Join(LabelledParts(d), " "))
    else ""
  }

  /** The position of the first node at or after `k` with a non-empty
      safe text. */
  function FirstWithText(nodes: seq<TextNode>, k: nat): (r: Option<nat>)
    requires k <= |nodes|
    ensures r.Some? ==> k <= r.value < |nodes| && SafeText(nodes[r.value]) != ""
    ensures r.Some? ==> forall j :: k <= j < r.value ==> SafeText(nodes[j]) == ""
    ensures r.None? ==> forall j :: k <= j < |nodes| ==> SafeText(nodes[j]) == ""
    decreases |nodes| - k
  {
    if k == |nodes| then None
    else if SafeText(nodes[k]) != "" then Some(k)
    else FirstWithText(nodes, k + 1)
  }

  /** The first non-empty `safe_text` of a list of nodes. */
  function FirstText(nodes: seq<TextNode>): (r: string)
    ensures IsTrimmed(r)
    ensures r == "" <==> forall i :: 0 <= i < |nodes| ==> SafeText(nodes[i]) == ""
    ensures r != "" ==> exists i :: FirstTextAt(nodes, i) && SafeText(nodes[i]) == r
  {
    match FirstWithText(nodes, 0)
    case None => ""
    case Some(i) => assert FirstTextAt(nodes, i); SafeText(nodes[i])
  }

  /** `nodes[i]` is the first node with a non-empty text. */
  predicate FirstTextAt(nodes: seq<TextNode>, i: int) {
    0 <= i < |nodes| && SafeText(nodes[i]) != "" && forall j :: 0 <= j < i ==> SafeText(nodes[j]) == ""
  }

  /** Stage three: the first label element of the container with text. */
  function ContainerText(d: LabelDom): (r: string)
    ensures IsTrimmed(r)
    ensures r == "" <==> forall i :: 0 <= i < |DomQueries.FindLabels(d.labels)| ==> SafeText(DomQueries.FindLabels(d.labels)[i]) == ""
    ensures r != "" ==> exists i :: FirstTextAt(DomQueries.FindLabels(d.labels), i) && SafeText(DomQueries.FindLabels(d.labels)[i]) == r
  {
    FirstText(DomQueries.FindLabels(d.labels))
  }

  /** `resolve_label(container, driver)`. */
  function ResolveLabel(d: LabelDom): (r: string)
    ensures IsTrimmed(r)
    ensures r == "" <==> AriaText(d) == "" && LabelledText(d) == "" && ContainerText(d) == ""
    ensures AriaText(d) != "" ==> r == AriaText(d)
    ensures AriaText(d) == "" && LabelledText(d) != "" ==> r == LabelledText(d)
    ensures AriaText(d) == "" && LabelledText(d) == "" ==> r == ContainerText(d)
  {
    var a := AriaText(d);
    if a != "" then a
    else
      var l := LabelledText(d);
      if l != "" then l else ContainerText(d)
  }

  /** A non-blank `aria-label` decides the label whatever the referenced
      ids and the container's label elements hold. */
  lemma AriaLabelWins(d: LabelDom, byId: map<string, TextNode>, labels: map<string, seq<TextNode>>)
    requires d.input.Some? && !AllSpace(d.input.value.ariaLabel.GetOr(""))
    ensures ResolveLabel(d) == ResolveLabel(d.(byId := byId, labels := labels))
    ensures PaddedBy(d.input.value.ariaLabel.GetOr(""), ResolveLabel(d))
  {
    TrimEmptyIffBlank(d.input.value.ariaLabel.GetOr(""));
    TrimPadded(d.input.value.ariaLabel.GetOr(""));
  }

  /** Without an input element, resolution goes straight to the container's
      label elements. */
  lemma NoInputUsesContainer(d: LabelDom)
    requires d.input.None?
    ensures ResolveLabel(d) == FirstText(DomQueries.FindLabels(d.labels))
  {
  }

  /** The final strip of stage two changes nothing: the joined parts are
      already stripped, and empty exactly when no id resolved to text. */
  lemma LabelledTextIsJoin(d: LabelDom)
    requires d.input.Some? && !AllSpace(d.input.value.labelledBy.GetOr(""))
    ensures LabelledText(d) == Join(LabelledParts(d), " ")
    ensures LabelledText(d) == "" <==> LabelledParts(d) == []
  {
    TrimEmptyIffBlank(d.input.value.labelledBy.GetOr(""));
    JoinWordsTrimmed(LabelledParts(d));
    TrimOfTrimmed(Join(LabelledParts(d), " "));
  }
}
