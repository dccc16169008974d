/** DOM helper queries (creatio_tests/services/dom_queries.py). A query's
    outcome is an input: for a selector, the list of matches, or no entry
    at all when the driver raised. */
module DomQueries {
  import opened Wrappers
  import opened Strings

  /** `outer_html` after the script: the markup, or `None` when the script
      raised or returned nothing. */
  function Clean(html: Option<string>): (c: string)
    ensures '\n' !in c
    ensures html.None? ==> c == ""
  {
    Without(Trim(html.GetOr("")), '\n')
  }

  /** `outer_html(driver, el, max_len)`: the stripped markup without line
      feeds, cut to `max_len` characters with `"..."` marking a cut. */
  function OuterHtml(html: Option<string>, maxLen: nat): (r: string)
    ensures '\n' !in r
    ensures |r| <= maxLen + 3
    ensures |Clean(html)| <= maxLen ==> r == Clean(html)
    ensures |Clean(html)| > maxLen ==> |r| == maxLen + 3 && r[..maxLen] == Clean(html)[..maxLen] && r[maxLen..] == "..."
    ensures html.None? ==> r == ""
  {
    var c := Clean(html);
    Take(c, maxLen) + (if |c| > maxLen then "..." else "")
  }

  /** The result of one `find_elements` call per selector, concatenated in
      selector order; a selector whose query raised contributes nothing. */
  function Gather<T>(sels: seq<string>, found: map<string, seq<T>>): (r: seq<T>)
    ensures forall x :: x in r ==> exists i :: 0 <= i < |sels| && sels[i] in found && x in found[sels[i]]
  {
    if sels == [] then []
    else (if sels[0] in found then found[sels[0]] else []) + Gather(sels[1..], found)
  }

  /** Gathering over two selector lists is gathering over each in turn. */
  lemma {:induction false} GatherAppend<T>(a: seq<string>, b: seq<string>, found: map<string, seq<T>>)
    ensures Gather(a + b, found) == Gather(a, found) + Gather(b, found)
  {
    if a != [] {
      assert (a + b)[0] == a[0] && (a + b)[1..] == a[1..] + b;
      GatherAppend(a[1..], b, found);
    } else {
      assert a + b == b;
    }
  }

  /** Every match of every selector that answered is gathered. */
  lemma {:induction false} GatherComplete<T>(sels: seq<string>, found: map<string, seq<T>>, i: nat, x: T)
    requires i < |sels| && sels[i] in found && x in found[sels[i]]
    ensures x in Gather(sels, found)
  {
    if i > 0 {
      GatherComplete(sels[1..], found, i - 1, x);
    }
  }

  /** A selector whose query raised is the same as one that matched
      nothing. */
  lemma {:induction false} GatherFailedIsEmpty<T>(sels: seq<string>, found: map<string, seq<T>>, s: string)
    requires s !in found
    ensures Gather(sels, found) == Gather(sels, found[s := []])
  {
    if sels != [] {
      GatherFailedIsEmpty(sels[1..], found, s);
    }
  }

  /** The label selectors of `find_labels`, in the order they are tried. */
  const LabelSelectors: seq<string> := [
    ".crt-input-label",
    "label",
    ".crt-checkbox-label",
    ".crt-base-input-width-holder-label",
    ".mat-form-field-label"
  ]

  /** `find_labels(container)`. */
  function FindLabels<T>(found: map<string, seq<T>>): (r: seq<T>)
    ensures forall x :: x in r ==> exists s :: s in LabelSelectors && s in found && x in found[s]
  {
    Gather(LabelSelectors, found)
  }

  /** The lookup-related elements a container may hold, each matched by
      one simple selector. */
  datatype Part =
    | RoleCombobox        // [role='combobox']
    | ComboboxContainer   // .crt-combobox-container
    | AutocompleteInput   // .crt-autocomplete-input-control
    | PlainInput          // input
    | CaretIcon           // mat-icon[svgicon='caret-arrow']
    | ClearIcon           // .combobox-expander.clear, mat-icon[svgicon='small-close']

  /** The element `find_trigger` returns: the combobox, or the first match
      of the fallback selector group. */
  datatype Trigger = Combobox | Fallback

  /** `find_trigger(container)`; `None` where the fallback query raises. */
  function FindTrigger(parts: set<Part>): (r: Option<Trigger>)
    ensures RoleCombobox in parts ==> r == Some(Combobox)
    ensures r == Some(Fallback) <==>
      RoleCombobox !in parts && (ComboboxContainer in parts || AutocompleteInput in parts || PlainInput in parts)
    ensures r.None? <==>
      RoleCombobox !in parts && ComboboxContainer !in parts && AutocompleteInput !in parts && PlainInput !in parts
  {
    if RoleCombobox in parts then Some(Combobox)
    else if ComboboxContainer in parts || AutocompleteInput in parts || PlainInput in parts then Some(Fallback)
    else None
  }
}
