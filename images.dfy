/**
 * Static configuration of the puzzle: the nine image files, which of them are
 * the right answer, and the entries that a round shuffles.
 */
module Images {

  /** Number of grid slots in a round (`config.totalImages`). */
  const TotalImages: nat := 9

  /** Catalog indices of the target images (`config.valentineIndices`). */
  const ValentineIndices: seq<int> := [0, 1, 2, 3]

  /** The image files, in catalog order. */
  const ImageFiles: seq<string> := [
    "images/image1.jpg", "images/image2.jpg", "images/image3.jpg",
    "images/image4.jpg", "images/image5.jpg", "images/image6.jpg",
    "images/image7.jpg", "images/image8.jpg", "images/image9.jpg"
  ]

  /** One entry of the shuffled array: its file, its catalog index and its target flag. */
  datatype Entry = Entry(file: string, originalIndex: int, isValentine: bool)

  /** Whether a catalog index is one of the targets (`valentineIndices.includes`). */
  predicate IsValentineIndex(index: int) {
    index in ValentineIndices
  }

  /** An entry's target flag is the one its catalog index calls for. */
  predicate FlagAgrees(e: Entry) {
    e.isValentine == IsValentineIndex(e.originalIndex)
  }

  /** The slot indices of a grid of `n` slots. */
  function Slots(n: nat): (r: set<int>)
    ensures forall k :: k in r <==> 0 <= k < n
  {
    if n == 0 then {} else Slots(n - 1) + {n - 1}
  }

  /** The slots of a layout that hold a target. */
  function TargetSlots(s: seq<Entry>): set<int> {
    set k | 0 <= k < |s| && s[k].isValentine
  }

  /** The entries built from the file list, one per file, in file order. */
  function BuildEntries(files: seq<string>): (r: seq<Entry>)
    ensures |r| == |files|
    ensures forall k :: 0 <= k < |r| ==>
      r[k].file == files[k] && r[k].originalIndex == k && FlagAgrees(r[k])
  {
    seq(|files|, k requires 0 <= k < |files| => Entry(files[k], k, IsValentineIndex(k)))
  }

  /** The unshuffled entries of every round. */
  function Catalog(): seq<Entry> {
    BuildEntries(ImageFiles)
  }

  /**
   * The catalog fills the whole grid, its entries are pairwise distinct, and its
   * target slots are exactly the configured target indices.
   */
  lemma CatalogShape()
    ensures |Catalog()| == TotalImages
    ensures forall k, l :: 0 <= k < l < |Catalog()| ==> Catalog()[k] != Catalog()[l]
    ensures TargetSlots(Catalog()) == set k | k in ValentineIndices
    ensures |TargetSlots(Catalog())| == |ValentineIndices|
  {
    var c := Catalog();
    assert TargetSlots(c) == {0, 1, 2, 3} by {
      forall k | k in TargetSlots(c) ensures k in {0, 1, 2, 3} {
        assert IsValentineIndex(k);
      }
      forall k | k in {0, 1, 2, 3} ensures k in TargetSlots(c) {
        assert c[k].isValentine;
      }
    }
    assert (set k | k in ValentineIndices) == {0, 1, 2, 3};
  }
}
