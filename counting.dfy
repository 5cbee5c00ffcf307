/**
 * The counters of `verifyAnswer`: walking the slots in order, how many selected
 * slots hold a target (`correctSelections`) or a non-target (`wrongSelections`).
 */
module Counting {
  import opened Images

  /** 1 when slot `k` is selected and its entry's flag is `wanted`, else 0. */
  function Mark(sel: set<int>, wanted: bool, k: int, e: Entry): nat {
    if k in sel && e.isValentine == wanted then 1 else 0
  }

  /** The counter after the slots of `s` have been walked in order. */
  function Tally(s: seq<Entry>, sel: set<int>, wanted: bool): nat {
    if s == [] then 0
    else Tally(s[..|s| - 1], sel, wanted) + Mark(sel, wanted, |s| - 1, s[|s| - 1])
  }

  /** The selected slots of `s` whose flag is `wanted`. */
  function SelectedWith(s: seq<Entry>, sel: set<int>, wanted: bool): set<int> {
    set k | k in sel && 0 <= k < |s| && s[k].isValentine == wanted
  }

  /** The counter is the number of selected slots with the wanted flag. */
  lemma {:induction false} TallyCounts(s: seq<Entry>, sel: set<int>, wanted: bool)
    ensures Tally(s, sel, wanted) == |SelectedWith(s, sel, wanted)|
  {
    if s == [] {
      assert SelectedWith(s, sel, wanted) == {};
    } else {
      var n := |s| - 1;
      var p := s[..n];
      TallyCounts(p, sel, wanted);
      if n in sel && s[n].isValentine == wanted {
        assert SelectedWith(s, sel, wanted) == SelectedWith(p, sel, wanted) + {n};
      } else {
        assert SelectedWith(s, sel, wanted) == SelectedWith(p, sel, wanted);
      }
    }
  }

  /** Replacing the entry of one slot changes the counter by that slot's marks only. */
  lemma {:induction false} TallyUpdate(s: seq<Entry>, sel: set<int>, wanted: bool, i: int, x: Entry)
    requires 0 <= i < |s|
    ensures Tally(s[i := x], sel, wanted) + Mark(sel, wanted, i, s[i])
         == Tally(s, sel, wanted) + Mark(sel, wanted, i, x)
  {
    var n := |s| - 1;
    if i == n {
      assert s[i := x][..n] == s[..n];
    } else {
      assert s[i := x][..n] == s[..n][i := x];
      TallyUpdate(s[..n], sel, wanted, i, x);
    }
  }
}
