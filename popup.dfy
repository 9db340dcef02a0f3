/**
 * The popup page as a small state machine: the mode radio buttons, the two
 * unit selects and the result area. `populateSelect`, `updateUnitsByMode`,
 * `updateToUnitOptions` and the Convert button's click handler update these
 * fields in place; the DOM elements themselves are not modelled.
 */
module Popup {
  import opened Wrappers
  import opened Units
  import opened Controller

  /** One `<option>` of a select: its `value` and its text. */
  datatype Choice = Choice(value: string, text: string)

  /** What the result area shows. */
  datatype Message =
    | Blank
    | CannotConvertFrom(unit: string)
    | Shows(outcome: Outcome)

  /** The display group a mode shows in the source select: US when the US radio is checked, EU otherwise. */
  function Group(us: bool): (r: seq<(Unit, string)>)
    ensures |r| > 0 && forall i :: 0 <= i < |r| ==> r[i].0 in AllowedConversions
  {
    if us then UnitNamesUS else UnitNamesEU
  }

  /** The options `populateSelect` creates from the entries of an object, in order. */
  function ChoicesOf(entries: seq<(Unit, string)>): (r: seq<Choice>)
    ensures |r| == |entries|
    ensures forall i :: 0 <= i < |r| ==> r[i] == Choice(Name(entries[i].0), entries[i].1)
    decreases |entries|
  {
    if entries == [] then []
    else
      var last := entries[|entries| - 1];
      ChoicesOf(entries[..|entries| - 1]) + [Choice(Name(last.0), last.1)]
  }

  /** The options `updateToUnitOptions` creates for a list of targets: each unit with its `unitNames` label. */
  function TargetChoices(targets: seq<Unit>): (r: seq<Choice>)
    ensures |r| == |targets|
    ensures forall i :: 0 <= i < |r| ==> r[i].value == Name(targets[i]) && targets[i] in UnitNames && r[i].text == UnitNames[targets[i]]
    decreases |targets|
  {
    if targets == [] then []
    else
      var last := targets[|targets| - 1];
      UnitNamesCoverEveryUnit(last);
      TargetChoices(targets[..|targets| - 1]) + [Choice(Name(last), UnitNames[last])]
  }

  /** The target options a source value leads to: the permitted targets of its unit, or none. */
  function TargetsFor(from: string): (r: seq<Choice>)
    ensures UnitOf(from).None? ==> r == []
    ensures UnitOf(from).Some? ==> r == TargetChoices(AllowedConversions[UnitOf(from).value])
  {
    match AllowedFor(from)
    case None => []
    case Some(allowed) => TargetChoices(allowed)
  }

  /** The selected target a source value leads to: the first permitted target, or an empty select's `""`. */
  function DefaultTarget(from: string): (r: string)
    ensures UnitOf(from).None? ==> r == ""
    ensures UnitOf(from).Some? ==> r == Name(AllowedConversions[UnitOf(from).value][0])
  {
    match AllowedFor(from)
    case None => ""
    case Some(allowed) => Name(allowed[0])
  }

  /** The first unit of each group is the default source, and its first permitted target the default target. */
  lemma DefaultSelections()
    ensures Name(Group(true)[0].0) == "lbs" && DefaultTarget("lbs") == "kg"
    ensures Name(Group(false)[0].0) == "kg" && DefaultTarget("kg") == "lbs"
  {
    UnitOfName(Lbs);
    UnitOfName(Kg);
  }

  class Page {
    /** Whether the US radio button is checked (otherwise the EU one is). */
    var usChecked: bool
    /** The options of the source select, and its value. */
    var fromOptions: seq<Choice>
    var fromValue: string
    /** The options of the target select, and its value. */
    var toOptions: seq<Choice>
    var toValue: string
    /** The text of the result area. */
    var message: Message

    /**
     * The states the page can reach: the source select holds the group of the
     * checked mode with one of its units selected, and the target select holds
     * exactly the permitted targets of that unit with one of them selected.
     */
    ghost predicate Valid()
      reads this
    {
      SourceValid() && TargetValid()
    }

    /** The source select holds the group of the checked mode, and one of its units is selected. */
    ghost predicate SourceValid()
      reads this`usChecked, this`fromOptions, this`fromValue
    {
      fromOptions == ChoicesOf(Group(usChecked))
      && (exists i :: 0 <= i < |fromOptions| && fromOptions[i].value == fromValue)
      && UnitOf(fromValue).Some?
    }

    /** The target select holds the permitted targets of the selected source, and one of them is selected. */
    ghost predicate TargetValid()
      reads this`fromValue, this`toOptions, this`toValue
    {
      toOptions == TargetsFor(fromValue)
      && exists j :: 0 <= j < |toOptions| && toOptions[j].value == toValue
    }

    /**
     * The page after `DOMContentLoaded`: both listeners registered for it run,
     * `updateUnitsByMode` and then `updateToUnitOptions` again.
     */
    constructor(us: bool)
      ensures Valid()
      ensures usChecked == us && message == Blank
      ensures us ==> fromValue == "lbs" && toValue == "kg"
      ensures !us ==> fromValue == "kg" && toValue == "lbs"
    {
      usChecked := us;
      fromOptions := [];
      fromValue := "";
      toOptions := [];
      toValue := "";
      message := Blank;
      new;
      UpdateUnitsByMode();
      var _ := UpdateToUnitOptions();
      DefaultSelections();
    }

    /**
     * `populateSelect(fromUnitSelect, entries)`: the old options are removed,
     * one option per entry is appended in order, and the select's value
     * becomes that of its first option (`""` when it has none).
     */
    method PopulateFromSelect(entries: seq<(Unit, string)>)
      modifies this
      ensures fromOptions == ChoicesOf(entries)
      ensures fromValue == if entries == [] then "" else Name(entries[0].0)
      ensures entries == Group(usChecked) ==> SourceValid()
      ensures usChecked == old(usChecked) && toOptions == old(toOptions)
      ensures toValue == old(toValue) && message == old(message)
    {
      fromOptions := [];
      for i := 0 to |entries|
        invariant fromOptions == ChoicesOf(entries[..i])
        invariant usChecked == old(usChecked) && toOptions == old(toOptions)
        invariant toValue == old(toValue) && message == old(message)
      {
        assert entries[..i + 1][..i] == entries[..i];
        fromOptions := fromOptions + [Choice(Name(entries[i].0), entries[i].1)];
      }
      assert entries[..|entries|] == entries;
      fromValue := if fromOptions == [] then "" else fromOptions[0].value;
    }

    /**
     * `updateToUnitOptions`: empties the target select; for a non-empty value
     * that is no key of `allowedConversions` shows the unrecognised-source
     * message; otherwise appends the permitted targets in order and selects
     * the first. For the empty value the lookup yields `undefined` and the
     * `forEach` throws a `TypeError`, reported as `threw`.
     */
    method UpdateToUnitOptions() returns (threw: bool)
      modifies this
      ensures threw <==> fromValue == ""
      ensures toOptions == TargetsFor(fromValue) && toValue == DefaultTarget(fromValue)
      ensures SourceValid() ==> Valid()
      ensures message == if fromValue != "" && UnitOf(fromValue).None? then CannotConvertFrom(fromValue) else old(message)
      ensures usChecked == old(usChecked) && fromOptions == old(fromOptions) && fromValue == old(fromValue)
    {
      toOptions := [];
      toValue := "";
      if fromValue != "" && AllowedFor(fromValue).None? {
        message := CannotConvertFrom(fromValue);
        return false;
      }
      match AllowedFor(fromValue)
      case None =>
        threw := true;
      case Some(allowed) =>
        for i := 0 to |allowed|
          invariant toOptions == TargetChoices(allowed[..i])
          invariant toValue == "" && message == old(message)
          invariant usChecked == old(usChecked) && fromOptions == old(fromOptions) && fromValue == old(fromValue)
        {
          assert allowed[..i + 1][..i] == allowed[..i];
          UnitNamesCoverEveryUnit(allowed[i]);
          toOptions := toOptions + [Choice(Name(allowed[i]), UnitNames[allowed[i]])];
        }
        assert allowed[..|allowed|] == allowed;
        if |allowed| > 0 {
          toValue := Name(allowed[0]);
        }
        threw := false;
    }

    /**
     * `updateUnitsByMode`: fills the source select with the group of the
     * checked mode and then refreshes the targets, which leaves the page in a
     * valid state with the group's first unit and its default target selected.
     */
    method UpdateUnitsByMode()
      modifies this
      ensures Valid()
      ensures usChecked == old(usChecked) && message == old(message)
      ensures fromValue == Name(Group(usChecked)[0].0)
      ensures toValue == DefaultTarget(fromValue)
    {
      PopulateFromSelect(Group(usChecked));
      var _ := UpdateToUnitOptions();
      GroupValueIsValid(usChecked, 0);
      assert fromOptions[0].value == fromValue && toOptions[0].value == toValue;
    }

    /** The `change` event of a mode radio button: it fires only when the checked button changes. */
    method SetMode(us: bool)
      modifies this
      requires Valid()
      ensures Valid()
      ensures usChecked == us && message == old(message)
      ensures us != old(usChecked) ==> fromValue == Name(Group(us)[0].0) && toValue == DefaultTarget(fromValue)
      ensures us == old(usChecked) ==> fromValue == old(fromValue) && toValue == old(toValue)
    {
      if us != usChecked {
        usChecked := us;
        UpdateUnitsByMode();
      }
    }

    /** Choosing the `i`-th source option; a different choice fires `change`, which refreshes the targets. */
    method SelectFrom(i: nat)
      modifies this
      requires Valid() && i < |fromOptions|
      ensures Valid()
      ensures fromValue == old(fromOptions[i].value) && usChecked == old(usChecked)
      ensures fromOptions == old(fromOptions) && message == old(message)
      ensures fromValue != old(fromValue) ==> toValue == DefaultTarget(fromValue)
      ensures fromValue == old(fromValue) ==> toValue == old(toValue)
    {
      if fromOptions[i].value != fromValue {
        fromValue := fromOptions[i].value;
        var _ := UpdateToUnitOptions();
        GroupValueIsValid(usChecked, i);
        assert SourceValid() by {
          assert fromOptions[i].value == fromValue;
        }
        assert TargetValid() by {
          assert toOptions[0].value == toValue;
        }
      }
    }

    /** Choosing the `j`-th target option: no listener runs. */
    method SelectTo(j: nat)
      modifies this
      requires Valid() && j < |toOptions|
      ensures Valid()
      ensures toValue == old(toOptions[j].value)
      ensures usChecked == old(usChecked) && fromOptions == old(fromOptions) && fromValue == old(fromValue)
      ensures toOptions == old(toOptions) && message == old(message)
    {
      toValue := toOptions[j].value;
    }

    /**
     * The Convert button's click handler on the current selections and the
     * raw text of the input field. From a valid state the pair is always
     * one the table offers, so the unsupported-pair message never appears.
     */
    method Click(raw: string)
      modifies this
      ensures message == Shows(Convert(fromValue, toValue, raw))
      ensures old(Valid()) ==> Valid() && message.outcome != Failed(UnsupportedPair)
      ensures usChecked == old(usChecked) && fromOptions == old(fromOptions) && fromValue == old(fromValue)
      ensures toOptions == old(toOptions) && toValue == old(toValue)
    {
      if Valid() {
        ValidPairIsOffered(raw);
      }
      message := Shows(Convert(fromValue, toValue, raw));
    }

    /** In a valid state the selected pair is one the table offers, so converting it never reports an unsupported pair. */
    lemma ValidPairIsOffered(raw: string)
      requires Valid()
      ensures Convert(fromValue, toValue, raw) != Failed(UnsupportedPair)
    {
      var u := UnitOf(fromValue).value;
      var j :| 0 <= j < |toOptions| && toOptions[j].value == toValue;
      var t := AllowedConversions[u][j];
      assert Name(u) == fromValue && Name(t) == toValue;
      OfferedPairsNeverUnsupported(u, t, raw);
    }
  }

  /** Any unit of a group, with the target options and default target it leads to, is a valid selection. */
  lemma GroupValueIsValid(us: bool, i: nat)
    requires i < |Group(us)|
    ensures var from := Name(Group(us)[i].0);
      UnitOf(from).Some? && |TargetsFor(from)| > 0 && TargetsFor(from)[0].value == DefaultTarget(from)
  {
    var u := Group(us)[i].0;
    UnitOfName(u);
    AllowedCoversEveryUnit(u);
  }
}
