/** The two filter widgets. A multi-select dropdown shows one checkbox per option and reports
    the new selection on every toggle or on Clear. A range dropdown keeps a local draft of its
    two bounds and reports the draft on Apply, or two empty bounds on Clear. */
module FilterDropdowns {
  import opened Optional

  // ---------------------------------------------------------------------------
  // Multi-select
  // ---------------------------------------------------------------------------

  /** No option is selected twice. */
  predicate Distinct(xs: seq<string>) {
    forall i, j :: 0 <= i < j < |xs| ==> xs[i] != xs[j]
  }

  /** The selection with every occurrence of `o` filtered out, the rest in order. */
  function Without(xs: seq<string>, o: string): (r: seq<string>)
    ensures o !in r
    ensures forall x :: x != o ==> (x in r <==> x in xs)
    ensures multiset(r) == multiset(xs)[o := 0]
  {
    if |xs| == 0 then []
    else
      assert xs == [xs[0]] + xs[1..];
      (if xs[0] == o then [] else [xs[0]]) + Without(xs[1..], o)
  }

  /** Filtering works piece by piece, so the order of what is kept is the order it had. */
  lemma {:induction false} WithoutAppend(a: seq<string>, b: seq<string>, o: string)
    ensures Without(a + b, o) == Without(a, o) + Without(b, o)
    decreases |a|
  {
    if |a| > 0 {
      assert (a + b)[1..] == a[1..] + b;
      WithoutAppend(a[1..], b, o);
    } else {
      assert a + b == b;
    }
  }

  /** Filtering out an option that is not there changes nothing. */
  lemma {:induction false} WithoutAbsent(xs: seq<string>, o: string)
    requires o !in xs
    ensures Without(xs, o) == xs
    decreases |xs|
  {
    if |xs| > 0 {
      WithoutAbsent(xs[1..], o);
      assert xs[0] != o;
      assert Without(xs, o) == [xs[0]] + xs[1..] == xs;
    }
  }

  /** Filtering keeps a selection free of repeats. */
  lemma {:induction false} WithoutDistinct(xs: seq<string>, o: string)
    requires Distinct(xs)
    ensures Distinct(Without(xs, o))
    decreases |xs|
  {
    if |xs| > 0 {
      assert Distinct(xs[1..]) by {
        forall i, j | 0 <= i < j < |xs[1..]| ensures xs[1..][i] != xs[1..][j] {
          assert xs[1..][i] == xs[i + 1] && xs[1..][j] == xs[j + 1];
        }
      }
      WithoutDistinct(xs[1..], o);
      var rest := Without(xs[1..], o);
      if xs[0] != o {
        assert xs[0] !in xs[1..];
        assert xs[0] !in rest;
        var r := [xs[0]] + rest;
        forall i, j | 0 <= i < j < |r| ensures r[i] != r[j] {
          if i == 0 {
            assert r[j] == rest[j - 1];
          } else {
            assert r[i] == rest[i - 1] && r[j] == rest[j - 1];
          }
        }
      }
    }
  }

  /** A click on `option`'s checkbox: a selected option is removed wherever it occurs,
      an unselected one is appended at the end. */
  function ToggleOption(selected: seq<string>, option: string): (r: seq<string>)
    ensures option in r <==> option !in selected
    ensures forall x :: x != option ==> (x in r <==> x in selected)
    ensures option in selected ==> multiset(r) == multiset(selected)[option := 0]
    ensures option !in selected ==>
      |r| == |selected| + 1 && r[..|selected|] == selected && r[|selected|] == option
  {
    if option in selected then Without(selected, option) else selected + [option]
  }

  /** Toggling an unselected option twice restores the selection; toggling a selected one
      twice moves it to the end. */
  lemma ToggleTwice(selected: seq<string>, option: string)
    ensures option !in selected ==> ToggleOption(ToggleOption(selected, option), option) == selected
    ensures option in selected ==>
      ToggleOption(ToggleOption(selected, option), option) == Without(selected, option) + [option]
  {
    if option !in selected {
      WithoutAppend(selected, [option], option);
      WithoutAbsent(selected, option);
    }
  }

  /** A selection built by toggling has no repeats, and its size moves by one per click,
      which is what the count badge on the button shows. */
  lemma ToggleDistinct(selected: seq<string>, option: string)
    requires Distinct(selected)
    ensures Distinct(ToggleOption(selected, option))
    ensures option in selected ==> |ToggleOption(selected, option)| == |selected| - 1
    ensures option !in selected ==> |ToggleOption(selected, option)| == |selected| + 1
  {
    if option in selected {
      WithoutDistinct(selected, option);
      var i :| 0 <= i < |selected| && selected[i] == option;
      assert selected == selected[..i] + [option] + selected[i + 1..];
      assert option !in selected[..i] && option !in selected[i + 1..];
      assert multiset(selected)[option] == 1;
      assert |multiset(ToggleOption(selected, option))| == |multiset(selected)| - 1;
    }
  }

  /** Toggling an offered option keeps the selection among the offered options. */
  lemma ToggleWithinOptions(options: seq<string>, selected: seq<string>, option: string)
    requires forall x :: x in selected ==> x in options
    requires option in options
    ensures forall x :: x in ToggleOption(selected, option) ==> x in options
  {
  }

  /** What the user can do with an open multi-select dropdown. */
  datatype MultiEvent = Toggle(option: string) | ClearAll

  /** The Clear entry is shown only while something is selected. */
  predicate ClearShown(selected: seq<string>) {
    |selected| > 0
  }

  /** The selection the dropdown reports for an event, or `None` when the event reports
      nothing (Clear is not shown). */
  function MultiSelect(selected: seq<string>, ev: MultiEvent): (reported: Option<seq<string>>)
    ensures reported.Some? <==> ev.Toggle? || ClearShown(selected)
    ensures ev.ClearAll? && reported.Some? ==> reported.value == []
    ensures ev.Toggle? ==> reported.value == ToggleOption(selected, ev.option)
  {
    match ev
    case Toggle(option) => Some(ToggleOption(selected, option))
    case ClearAll => if ClearShown(selected) then Some([]) else None
  }

  // ---------------------------------------------------------------------------
  // Range
  // ---------------------------------------------------------------------------

  /** The bounds typed into the two inputs and not yet applied. */
  datatype RangeDraft = RangeDraft(localMin: string, localMax: string)

  /** A string is truthy exactly when it is not empty. */
  predicate TextTruthy(s: string) {
    s != ""
  }

  /** The draft when the dropdown is first shown: each bound, or '' when it is falsy. */
  function InitialDraft(min: string, max: string): (d: RangeDraft)
    ensures d == RangeDraft(min, max)
  {
    RangeDraft(if TextTruthy(min) then min else "", if TextTruthy(max) then max else "")
  }

  /** The button is marked active when either applied bound is set. */
  predicate IsActive(min: string, max: string) {
    TextTruthy(min) || TextTruthy(max)
  }

  /** What the user can do with an open range dropdown. */
  datatype RangeEvent = EditMin(value: string) | EditMax(value: string) | Apply | ClearRange

  /** The draft after the event, and the pair of bounds reported, if any. */
  datatype RangeOutcome = RangeOutcome(draft: RangeDraft, reported: Option<(string, string)>)

  /** One event on a range dropdown whose applied bounds are `min` and `max`. */
  function RangeStep(min: string, max: string, draft: RangeDraft, ev: RangeEvent): (out: RangeOutcome)
    ensures out.reported.Some? <==> ev.Apply? || (ev.ClearRange? && (min != "" || max != ""))
    ensures ev.Apply? ==> out.draft == draft && out.reported == Some((draft.localMin, draft.localMax))
    ensures ev.ClearRange? && (min != "" || max != "") ==>
      out.draft == RangeDraft("", "") && out.reported == Some(("", ""))
    ensures ev.EditMin? ==> out.draft.localMin == ev.value && out.draft.localMax == draft.localMax
    ensures ev.EditMax? ==> out.draft.localMax == ev.value && out.draft.localMin == draft.localMin
  {
    match ev
    case EditMin(v) => RangeOutcome(draft.(localMin := v), None)
    case EditMax(v) => RangeOutcome(draft.(localMax := v), None)
    case Apply => RangeOutcome(draft, Some((draft.localMin, draft.localMax)))
    case ClearRange =>
      if IsActive(min, max) then RangeOutcome(RangeDraft("", ""), Some(("", ""))) else RangeOutcome(draft, None)
  }

  /** Typing both bounds and pressing Apply reports exactly what was typed, whatever the
      draft held before. */
  lemma ApplyReportsTyped(min: string, max: string, draft: RangeDraft, a: string, b: string)
    ensures
      var d1 := RangeStep(min, max, draft, EditMin(a)).draft;
      var d2 := RangeStep(min, max, d1, EditMax(b)).draft;
      RangeStep(min, max, d2, Apply).reported == Some((a, b))
  {
  }

  /** After Clear, Apply reports the same empty bounds that Clear did. */
  lemma ApplyAfterClear(min: string, max: string, draft: RangeDraft)
    requires IsActive(min, max)
    ensures
      var cleared := RangeStep(min, max, draft, ClearRange);
      RangeStep(min, max, cleared.draft, Apply).reported == cleared.reported
  {
  }
}
