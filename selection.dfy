/** The selection of a round: the set of grid slots the player has picked. */
module Selection {
  import opened Images

  /** The selection after a click on slot `index` (`toggleImage`). */
  function Toggled(sel: set<int>, index: int): (r: set<int>)
    ensures index in r <==> index !in sel
    ensures forall k :: k != index ==> (k in r <==> k in sel)
  {
    if index in sel then sel - {index} else sel + {index}
  }

  /** A second click on the same slot undoes the first. */
  lemma ToggleTwice(sel: set<int>, index: int)
    ensures Toggled(Toggled(sel, index), index) == sel
  {
  }

  /** Clicking a grid slot keeps the selection within the grid. */
  lemma ToggleStaysInGrid(sel: set<int>, index: int, n: nat)
    requires sel <= Slots(n) && 0 <= index < n
    ensures Toggled(sel, index) <= Slots(n)
  {
  }
}
