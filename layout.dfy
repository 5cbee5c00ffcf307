/**
 * The layouts a round can show, and what every Fisher–Yates run of the catalog
 * keeps: the entries themselves, each entry's target flag, and the number of
 * target slots.
 */
module Layout {
  import opened Images
  import opened FisherYates
  import opened Counting

  /** The layouts of a round: the catalog after a complete run of the shuffle loop. */
  ghost predicate IsLayout(s: seq<Entry>) {
    exists draws :: FullDraws(|Catalog()|, draws) && s == Shuffle(Catalog(), draws)
  }

  /** A swap of two slots that are both counted leaves a counter unchanged. */
  lemma SwapKeepsTally(s: seq<Entry>, sel: set<int>, wanted: bool, i: int, j: int)
    requires 0 <= i < |s| && 0 <= j < |s| && i in sel && j in sel
    ensures Tally(Swap(s, i, j), sel, wanted) == Tally(s, sel, wanted)
  {
    var t := s[i := s[j]];
    assert Swap(s, i, j) == t[j := s[i]];
    TallyUpdate(s, sel, wanted, i, s[j]);
    TallyUpdate(t, sel, wanted, j, s[i]);
  }

  /** Every prefix of the shuffle loop leaves a counter over all slots unchanged. */
  lemma {:induction false} StepsKeepTally(s: seq<Entry>, draws: seq<int>, m: nat, sel: set<int>, wanted: bool)
    requires DrawsFit(|s|, draws) && m <= |draws|
    requires Slots(|s|) <= sel
    ensures Tally(Steps(s, draws, m), sel, wanted) == Tally(s, sel, wanted)
  {
    if m > 0 {
      var before := Steps(s, draws, m - 1);
      assert Steps(s, draws, m) == Swap(before, |s| - m, draws[m - 1]);
      StepsKeepTally(s, draws, m - 1, sel, wanted);
      SwapKeepsTally(before, sel, wanted, |s| - m, draws[m - 1]);
    }
  }

  /** The shuffle moves target flags between slots but keeps their number. */
  lemma ShuffleKeepsTargetCount(s: seq<Entry>, draws: seq<int>)
    requires DrawsFit(|s|, draws)
    ensures |TargetSlots(Shuffle(s, draws))| == |TargetSlots(s)|
  {
    var r := Shuffle(s, draws);
    var all := Slots(|s|);
    StepsKeepTally(s, draws, |draws|, all, true);
    TallyCounts(s, all, true);
    TallyCounts(r, all, true);
    assert SelectedWith(s, all, true) == TargetSlots(s);
    assert SelectedWith(r, all, true) == TargetSlots(r);
  }

  /** Every entry of the shuffled sequence is an entry of the original one. */
  lemma ShuffledEntriesComeFromInput<T>(s: seq<T>, draws: seq<int>, k: int)
    requires DrawsFit(|s|, draws) && 0 <= k < |s|
    ensures Shuffle(s, draws)[k] in s
  {
    var r := Shuffle(s, draws);
    StepsPermute(s, draws, |draws|);
    assert r[k] in multiset(r);
  }

  /** Target flags travel with their entries. */
  lemma ShuffleKeepsFlags(s: seq<Entry>, draws: seq<int>)
    requires DrawsFit(|s|, draws)
    requires forall k :: 0 <= k < |s| ==> FlagAgrees(s[k])
    ensures forall k :: 0 <= k < |s| ==> FlagAgrees(Shuffle(s, draws)[k])
  {
    forall k | 0 <= k < |s| ensures FlagAgrees(Shuffle(s, draws)[k]) {
      ShuffledEntriesComeFromInput(s, draws, k);
    }
  }

  /** In a sequence without repeats every element occurs at most once. */
  lemma {:induction false} NoRepeatsCountOnce<T>(s: seq<T>, e: T)
    requires forall k, l :: 0 <= k < l < |s| ==> s[k] != s[l]
    ensures multiset(s)[e] <= 1
  {
    if s != [] {
      var n := |s| - 1;
      assert s == s[..n] + [s[n]];
      NoRepeatsCountOnce(s[..n], e);
      if e == s[n] {
        assert e !in s[..n];
      }
    }
  }

  /** An element found at two different positions occurs at least twice. */
  lemma RepeatCountsTwice<T>(s: seq<T>, k: int, l: int)
    requires 0 <= k < l < |s| && s[k] == s[l]
    ensures multiset(s)[s[k]] >= 2
  {
    assert s == s[..l] + [s[l]] + s[l + 1..];
    assert s[k] in multiset(s[..l]);
  }

  /** A layout fills the grid and is a permutation of the catalog. */
  lemma LayoutPermutesCatalog(s: seq<Entry>)
    requires IsLayout(s)
    ensures |s| == TotalImages
    ensures multiset(s) == multiset(Catalog())
  {
    var c := Catalog();
    var draws :| FullDraws(|c|, draws) && s == Shuffle(c, draws);
    StepsPermute(c, draws, |draws|);
  }

  /** Each slot of a layout carries the target flag its catalog index calls for. */
  lemma LayoutFlagsAgree(s: seq<Entry>)
    requires IsLayout(s)
    ensures forall k :: 0 <= k < |s| ==> FlagAgrees(s[k])
  {
    var c := Catalog();
    var draws :| FullDraws(|c|, draws) && s == Shuffle(c, draws);
    ShuffleKeepsFlags(c, draws);
  }

  /** A layout has exactly as many target slots as there are configured targets. */
  lemma LayoutTargetCount(s: seq<Entry>)
    requires IsLayout(s)
    ensures |s| == TotalImages
    ensures |TargetSlots(s)| == |ValentineIndices|
  {
    var c := Catalog();
    var draws :| FullDraws(|c|, draws) && s == Shuffle(c, draws);
    CatalogShape();
    ShuffleKeepsTargetCount(c, draws);
  }

  /** Each slot of a layout holds the catalog entry of its own catalog index. */
  lemma LayoutSlotFromCatalog(s: seq<Entry>, k: int)
    requires IsLayout(s) && 0 <= k < |s|
    ensures 0 <= s[k].originalIndex < |Catalog()|
    ensures s[k] == Catalog()[s[k].originalIndex]
  {
    var c := Catalog();
    var draws :| FullDraws(|c|, draws) && s == Shuffle(c, draws);
    ShuffledEntriesComeFromInput(c, draws, k);
    var l :| 0 <= l < |c| && c[l] == s[k];
  }

  /** No two slots of a layout show the same image. */
  lemma LayoutShowsNoImageTwice(s: seq<Entry>, k: int, l: int)
    requires IsLayout(s) && 0 <= k < l < |s|
    ensures s[k].originalIndex != s[l].originalIndex
  {
    if s[k].originalIndex == s[l].originalIndex {
      LayoutPermutesCatalog(s);
      LayoutSlotFromCatalog(s, k);
      LayoutSlotFromCatalog(s, l);
      RepeatCountsTwice(s, k, l);
      CatalogShape();
      NoRepeatsCountOnce(Catalog(), s[k]);
      assert false;
    }
  }

  /** The images a layout shows are exactly the catalog's. */
  lemma LayoutShowsEveryImage(s: seq<Entry>)
    requires IsLayout(s)
    ensures (set k | 0 <= k < |s| :: s[k].originalIndex) == Slots(TotalImages)
  {
    var c := Catalog();
    var shown := set k | 0 <= k < |s| :: s[k].originalIndex;
    LayoutPermutesCatalog(s);
    forall o | o in shown ensures o in Slots(TotalImages) {
      var k :| 0 <= k < |s| && s[k].originalIndex == o;
      LayoutSlotFromCatalog(s, k);
    }
    forall o | o in Slots(TotalImages) ensures o in shown {
      assert c[o] in multiset(s);
      var k :| 0 <= k < |s| && s[k] == c[o];
    }
  }
}
