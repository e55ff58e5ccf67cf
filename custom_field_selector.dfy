/** The field picker of one rule: the options it offers (groups flattened into one list),
    the options the search term leaves, the label it shows for the chosen field, and its
    open/closed state. */
module CustomFieldSelector {
  import opened Text

  /** A field the picker offers: its name (the value a rule stores) and its label. */
  datatype FieldOption = FieldOption(name: string, labelText: string)

  /** An entry of the option list: a single option, or a labelled group of options. */
  datatype OptionEntry = Single(option: FieldOption) | OptionGroup(labelText: string, options: seq<FieldOption>)

  /** The options one entry contributes. */
  function EntryOptions(e: OptionEntry): seq<FieldOption> {
    match e
    case Single(o) => [o]
    case OptionGroup(_, os) => os
  }

  /** The entries' options, one entry after the other. */
  function Flatten(entries: seq<OptionEntry>): (r: seq<FieldOption>)
    ensures entries == [] ==> r == []
  {
    if entries == [] then [] else EntryOptions(entries[0]) + Flatten(entries[1..])
  }

  lemma {:induction false} FlattenAppend(a: seq<OptionEntry>, b: seq<OptionEntry>)
    ensures Flatten(a + b) == Flatten(a) + Flatten(b)
  {
    if a == [] {
      assert a + b == b;
    } else {
      assert (a + b)[0] == a[0];
      assert (a + b)[1..] == a[1..] + b;
      FlattenAppend(a[1..], b);
    }
  }

  /** An option is offered exactly when some entry contributes it. */
  lemma {:induction false} FlattenIff(entries: seq<OptionEntry>, o: FieldOption)
    ensures o in Flatten(entries) <==> exists k :: 0 <= k < |entries| && o in EntryOptions(entries[k])
  {
    if entries != [] {
      FlattenIff(entries[1..], o);
      if o in EntryOptions(entries[0]) {
        assert 0 < |entries| && o in EntryOptions(entries[0]);
      }
      if exists k :: 0 <= k < |entries| && o in EntryOptions(entries[k]) {
        var k :| 0 <= k < |entries| && o in EntryOptions(entries[k]);
        if k > 0 {
          assert entries[1..][k - 1] == entries[k];
        }
      }
      if exists k :: 0 <= k < |entries[1..]| && o in EntryOptions(entries[1..][k]) {
        var k :| 0 <= k < |entries[1..]| && o in EntryOptions(entries[1..][k]);
        assert entries[k + 1] == entries[1..][k];
      }
    }
  }

  /** A list without groups flattens to its own options, in order. */
  lemma {:induction false} FlattenSingles(os: seq<FieldOption>)
    ensures Flatten(seq(|os|, i requires 0 <= i < |os| => Single(os[i]))) == os
  {
    var es := seq(|os|, i requires 0 <= i < |os| => Single(os[i]));
    if os != [] {
      FlattenSingles(os[1..]);
      assert es[1..] == seq(|os[1..]|, i requires 0 <= i < |os[1..]| => Single(os[1..][i]));
      assert os == [os[0]] + os[1..];
    }
  }

  /** The options whose label contains the search term, ignoring case, in their order. */
  function Filtered(options: seq<FieldOption>, term: string): (r: seq<FieldOption>)
    ensures |r| <= |options|
  {
    if options == [] then []
    else (if MatchesSearch(options[0].labelText, term) then [options[0]] else [])
         + Filtered(options[1..], term)
  }

  /** An option is listed exactly when it is offered and its label matches the term. */
  lemma {:induction false} FilteredIff(options: seq<FieldOption>, term: string, o: FieldOption)
    ensures o in Filtered(options, term) <==> o in options && MatchesSearch(o.labelText, term)
  {
    if options != [] {
      FilteredIff(options[1..], term, o);
      assert options == [options[0]] + options[1..];
    }
  }

  /** Filtering keeps the order of the options. */
  lemma {:induction false} FilteredAppend(a: seq<FieldOption>, b: seq<FieldOption>, term: string)
    ensures Filtered(a + b, term) == Filtered(a, term) + Filtered(b, term)
  {
    if a == [] {
      assert a + b == b;
    } else {
      var h := if MatchesSearch(a[0].labelText, term) then [a[0]] else [];
      assert (a + b)[0] == a[0];
      assert (a + b)[1..] == a[1..] + b;
      assert Filtered(a + b, term) == h + Filtered(a[1..] + b, term);
      FilteredAppend(a[1..], b, term);
      assert h + (Filtered(a[1..], term) + Filtered(b, term))
          == (h + Filtered(a[1..], term)) + Filtered(b, term);
    }
  }

  /** With no search term every option is listed. */
  lemma {:induction false} FilteredEmptyTerm(options: seq<FieldOption>)
    ensures Filtered(options, "") == options
  {
    if options != [] {
      FilteredEmptyTerm(options[1..]);
      assert Lower("") == "";
      assert MatchesSearch(options[0].labelText, "");
      assert [options[0]] + options[1..] == options;
    }
  }

  /** The label shown when no option names the value. */
  const Placeholder := "Select field"

  /** The label of the first option named `value`; the placeholder when there is none, or
      when that option's label is empty. */
  function SelectedLabel(options: seq<FieldOption>, value: string): (r: string)
    ensures (forall k :: 0 <= k < |options| ==> options[k].name != value) ==> r == Placeholder
    ensures forall k ::
      (0 <= k < |options| && options[k].name == value &&
       (forall j :: 0 <= j < k ==> options[j].name != value)) ==>
      r == (if options[k].labelText != "" then options[k].labelText else Placeholder)
  {
    if options == [] then Placeholder
    else if options[0].name == value then
      (if options[0].labelText != "" then options[0].labelText else Placeholder)
    else
      var r := SelectedLabel(options[1..], value);
      assert forall k :: 0 < k < |options| ==> options[k] == options[1..][k - 1];
      r
  }

  /** The picker's state; `emitted` lists the field names it passed on, oldest first. */
  class Selector {
    var isOpen: bool
    var searchTerm: string
    var emitted: seq<string>

    constructor ()
      ensures !isOpen && searchTerm == "" && emitted == []
    {
      isOpen := false;
      searchTerm := "";
      emitted := [];
    }

    /** A click on the header opens a closed list and closes an open one. */
    method ToggleDropdown()
      modifies this`isOpen
      ensures isOpen == !old(isOpen)
    {
      isOpen := !isOpen;
    }

    /** Focus leaving the picker closes the list and clears the search; focus moving
        inside it changes nothing. */
    method HandleBlur(focusInside: bool)
      modifies this`isOpen, this`searchTerm
      ensures focusInside ==> isOpen == old(isOpen) && searchTerm == old(searchTerm)
      ensures !focusInside ==> !isOpen && searchTerm == ""
    {
      if !focusInside {
        isOpen := false;
        searchTerm := "";
      }
    }

    method HandleSearchChange(value: string)
      modifies this`searchTerm
      ensures searchTerm == value
    {
      searchTerm := value;
    }

    /** Picking an option passes its name on, closes the list and clears the search. */
    method HandleOptionSelect(name: string)
      modifies this`emitted, this`isOpen, this`searchTerm
      ensures emitted == old(emitted) + [name] && !isOpen && searchTerm == ""
    {
      emitted := emitted + [name];
      isOpen := false;
      searchTerm := "";
    }

    /** The options on show for `entries`: exactly the offered ones whose label matches
        the search term. */
    function Visible(entries: seq<OptionEntry>): (r: seq<FieldOption>)
      reads this
      ensures forall o :: o in r <==>
        o in Flatten(entries) && MatchesSearch(o.labelText, searchTerm)
    {
      FilteredMembers(Flatten(entries), searchTerm);
      Filtered(Flatten(entries), searchTerm)
    }
  }

  lemma FilteredMembers(options: seq<FieldOption>, term: string)
    ensures forall o :: o in Filtered(options, term) <==> o in options && MatchesSearch(o.labelText, term)
  {
    forall o
      ensures o in Filtered(options, term) <==> o in options && MatchesSearch(o.labelText, term)
    {
      FilteredIff(options, term, o);
    }
  }
}
