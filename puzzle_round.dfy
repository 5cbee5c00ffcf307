/**
 * One round of the puzzle: the shuffled grid and the player's selection, with
 * the operations behind the page's handlers (`initCaptcha`, `toggleImage`,
 * `verifyAnswer`, `resetCaptcha`, `refreshImages`).
 */
module Round {
  import opened Images
  import opened FisherYates
  import opened Counting
  import opened Layout
  import opened Verdict
  import opened Selection

  class PuzzleRound {
    /** The shuffled entries, slot by slot (`shuffledIndices`). */
    var layout: array<Entry>
    /** The selected slots (`selectedImages`). */
    var selected: set<int>

    /** The layout is a shuffle of the catalog and only grid slots are selected. */
    ghost predicate Valid()
      reads this, layout
    {
      IsLayout(layout[..]) && selected <= Slots(layout.Length)
    }

    /** Script load with an empty selection, then the first round. */
    constructor (draws: seq<int>)
      requires FullDraws(|Catalog()|, draws)
      ensures Valid() && fresh(layout)
      ensures layout[..] == Shuffle(Catalog(), draws) && selected == {}
    {
      layout := new Entry[0];
      selected := {};
      new;
      Start(draws);
    }

    /**
     * A new round (`initCaptcha`): the selection is cleared, the catalog's
     * entries are copied into a fresh array and shuffled in place.
     */
    method Start(draws: seq<int>)
      requires FullDraws(|Catalog()|, draws)
      modifies this
      ensures Valid() && fresh(layout)
      ensures layout[..] == Shuffle(Catalog(), draws) && selected == {}
    {
      selected := {};
      var entries := BuildEntries(ImageFiles);
      var shuffledIndices := new Entry[|entries|](k requires 0 <= k < |entries| => entries[k]);
      assert shuffledIndices[..] == Catalog();
      ShuffleInPlace(shuffledIndices, draws);
      layout := shuffledIndices;
    }

    /** The retry button (`resetCaptcha`): a new round. */
    method Reset(draws: seq<int>)
      requires FullDraws(|Catalog()|, draws)
      modifies this
      ensures Valid() && fresh(layout)
      ensures layout[..] == Shuffle(Catalog(), draws) && selected == {}
    {
      Start(draws);
    }

    /** The refresh button (`refreshImages`): a new round. */
    method Refresh(draws: seq<int>)
      requires FullDraws(|Catalog()|, draws)
      modifies this
      ensures Valid() && fresh(layout)
      ensures layout[..] == Shuffle(Catalog(), draws) && selected == {}
    {
      Start(draws);
    }

    /** A click on grid slot `index` (`toggleImage`) flips that slot and no other. */
    method Toggle(index: int)
      requires Valid() && 0 <= index < layout.Length
      modifies this`selected
      ensures Valid()
      ensures selected == Toggled(old(selected), index)
    {
      if index in selected {
        selected := selected - {index};
      } else {
        selected := selected + {index};
      }
      ToggleStaysInGrid(old(selected), index, layout.Length);
    }

    /**
     * The verify button (`verifyAnswer`): walks the slots in order counting
     * selected targets and selected non-targets, and accepts when every
     * target and nothing else is selected. Layout and selection are left as
     * they are, so a failed round goes on.
     */
    method Verify() returns (correctSelections: nat, wrongSelections: nat, isCorrect: bool)
      requires Valid()
      ensures correctSelections == |selected * TargetSlots(layout[..])|
      ensures wrongSelections == |selected - TargetSlots(layout[..])|
      ensures correctSelections <= |ValentineIndices|
      ensures correctSelections + wrongSelections == |selected|
      ensures isCorrect == Accepted(layout[..], selected)
      ensures isCorrect <==> selected == TargetSlots(layout[..])
    {
      correctSelections, wrongSelections := 0, 0;
      for index := 0 to layout.Length
        invariant correctSelections == Tally(layout[..index], selected, true)
        invariant wrongSelections == Tally(layout[..index], selected, false)
      {
        assert layout[..index + 1][..index] == layout[..index];
        var isSelected := index in selected;
        var isValentine := layout[index].isValentine;
        if isSelected && isValentine {
          correctSelections := correctSelections + 1;
        } else if isSelected && !isValentine {
          wrongSelections := wrongSelections + 1;
        }
      }
      assert layout[..layout.Length] == layout[..];
      isCorrect := correctSelections == |ValentineIndices| && wrongSelections == 0;
      Outcome(layout[..], selected);
    }
  }
}
