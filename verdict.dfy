/**
 * The decision of `verifyAnswer`: the round is won when every target slot is
 * selected and no other slot is.
 */
module Verdict {
  import opened Images
  import opened Counting
  import opened Layout

  /** The rule applied to the two counters: all targets found, no wrong pick. */
  predicate Accepted(s: seq<Entry>, sel: set<int>) {
    Tally(s, sel, true) == |ValentineIndices| && Tally(s, sel, false) == 0
  }

  /**
   * For a selection of grid slots, `correctSelections` counts the selected
   * targets, `wrongSelections` the selected non-targets, and together they
   * count the whole selection.
   */
  lemma TallySplit(s: seq<Entry>, sel: set<int>)
    requires sel <= Slots(|s|)
    ensures Tally(s, sel, true) == |sel * TargetSlots(s)|
    ensures Tally(s, sel, false) == |sel - TargetSlots(s)|
    ensures Tally(s, sel, true) + Tally(s, sel, false) == |sel|
  {
    TallyCounts(s, sel, true);
    TallyCounts(s, sel, false);
    assert SelectedWith(s, sel, true) == sel * TargetSlots(s);
    assert SelectedWith(s, sel, false) == sel - TargetSlots(s);
  }

  /** A subset as large as its superset is the superset. */
  lemma SubsetOfSameSize(a: set<int>, b: set<int>)
    requires a <= b && |a| == |b|
    ensures a == b
  {
    var extra := b - a;
    assert b == a + extra;
    assert a * extra == {};
    assert |extra| == 0;
    assert b == a + {};
  }

  /**
   * On a layout, the rule accepts a selection of grid slots exactly when the
   * selection is the set of target slots: no partial credit, no tolerance.
   */
  lemma AcceptedIffExact(s: seq<Entry>, sel: set<int>)
    requires IsLayout(s) && sel <= Slots(|s|)
    ensures Accepted(s, sel) <==> sel == TargetSlots(s)
  {
    LayoutTargetCount(s);
    TallySplit(s, sel);
    if Accepted(s, sel) {
      AcceptedSelectsTargets(s, sel);
    }
  }

  /** The counters that meet the rule force the selection to be the target slots. */
  lemma AcceptedSelectsTargets(s: seq<Entry>, sel: set<int>)
    requires sel <= Slots(|s|) && |TargetSlots(s)| == |ValentineIndices|
    requires |sel * TargetSlots(s)| == |ValentineIndices| && |sel - TargetSlots(s)| == 0
    ensures sel == TargetSlots(s)
  {
    var t := TargetSlots(s);
    assert sel - t == {};
    assert sel * t == sel;
    SubsetOfSameSize(sel, t);
  }

  /** Selecting nothing fails. */
  lemma EmptySelectionRejected(s: seq<Entry>)
    requires IsLayout(s)
    ensures !Accepted(s, {})
  {
    LayoutTargetCount(s);
    AcceptedIffExact(s, {});
  }

  /** Selecting the targets but one fails. */
  lemma MissingTargetRejected(s: seq<Entry>, t: int)
    requires IsLayout(s) && t in TargetSlots(s)
    ensures !Accepted(s, TargetSlots(s) - {t})
  {
    AcceptedIffExact(s, TargetSlots(s) - {t});
  }

  /** Selecting the targets and one more slot fails. */
  lemma ExtraSlotRejected(s: seq<Entry>, x: int)
    requires IsLayout(s) && 0 <= x < |s| && x !in TargetSlots(s)
    ensures !Accepted(s, TargetSlots(s) + {x})
  {
    AcceptedIffExact(s, TargetSlots(s) + {x});
  }

  /** Selecting exactly the targets succeeds. */
  lemma TargetsAccepted(s: seq<Entry>)
    requires IsLayout(s)
    ensures Accepted(s, TargetSlots(s))
  {
    AcceptedIffExact(s, TargetSlots(s));
  }

  /**
   * Everything `verifyAnswer` computes on a layout: the two counters, their
   * bound and sum, and the decision.
   */
  lemma Outcome(s: seq<Entry>, sel: set<int>)
    requires IsLayout(s) && sel <= Slots(|s|)
    ensures Tally(s, sel, true) == |sel * TargetSlots(s)|
    ensures Tally(s, sel, false) == |sel - TargetSlots(s)|
    ensures Tally(s, sel, true) <= |ValentineIndices|
    ensures Tally(s, sel, true) + Tally(s, sel, false) == |sel|
    ensures Accepted(s, sel) <==> sel == TargetSlots(s)
  {
    LayoutTargetCount(s);
    TallySplit(s, sel);
    AcceptedIffExact(s, sel);
  }
}
