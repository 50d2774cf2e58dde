/**
 * The selection state machine of filesystem/directory/navigator.go.
 *
 * A `Navigator` holds the current path, the entries listed there and the
 * index of the selected entry. `selectedIndex` is a Go `uint16`, and
 * `SelectNextEntry` compares `uint16(len(entries)) - selectedIndex`, so both
 * the truncation of the length and the wrap-around of the subtraction and
 * of `selectedIndex++` are written out here. The class methods mirror the
 * Go methods; what they compute is given by `NextIndex` and `PreviousIndex`,
 * about which the lemmas below are proved.
 */
module DirectoryNavigator {
  import opened FileTree
  import opened Directory

  /** The values of a Go `uint16`. */
  type U16 = x: int | 0 <= x < 0x1_0000

  /** Go's conversion to `uint16` and its wrap-around arithmetic. */
  function Wrap16(x: int): U16 {
    x % 0x1_0000
  }

  /**
   * The selection invariant: fewer than 65536 entries (so that the length
   * survives the `uint16` conversion), and the index names an entry, or is 0
   * when there are none.
   */
  predicate InRange(count: nat, index: U16) {
    count < 0x1_0000 && (index < count || index == 0)
  }

  /** The index after `SelectNextEntry` with `count` entries, exactly as the `uint16` code computes it. */
  function NextIndex(count: nat, index: U16): (r: U16)
    ensures r == index || r == Wrap16(index + 1)
    ensures count < 0x1_0000 && index <= count ==>
      (r == index + 1 <==> count - index > 1) && (r != index + 1 ==> r == index)
    ensures InRange(count, index) ==> InRange(count, r)
  {
    if Wrap16(Wrap16(count) - index) > 1 then Wrap16(index + 1) else index
  }

  /** The index after `SelectPreviousEntry`. */
  function PreviousIndex(index: U16): (r: U16)
    ensures index > 0 ==> r == index - 1
    ensures index == 0 ==> r == 0
  {
    if index > 0 then index - 1 else index
  }

  /** One call of a selection method. */
  datatype Move = Next | Previous

  /** The index after a sequence of selection calls, in order. */
  function Replay(count: nat, index: U16, moves: seq<Move>): U16
    decreases |moves|
  {
    if moves == [] then index
    else
      var first := if moves[0] == Next then NextIndex(count, index) else PreviousIndex(index);
      Replay(count, first, moves[1..])
  }

  /** `k` calls of `SelectNextEntry`. */
  function NextTimes(count: nat, index: U16, k: nat): U16
    decreases k
  {
    if k == 0 then index else NextTimes(count, NextIndex(count, index), k - 1)
  }

  /** `k` calls of `SelectPreviousEntry`. */
  function PreviousTimes(index: U16, k: nat): U16
    decreases k
  {
    if k == 0 then index else PreviousTimes(PreviousIndex(index), k - 1)
  }

  class Navigator {
    var currentPath: string
    var selectedIndex: U16
    var entries: seq<Entry>

    ghost predicate Valid()
      reads this
    {
      InRange(|entries|, selectedIndex)
    }

    /** `new(Navigator)`: Go's zero value, with no path and no entries. */
    constructor ()
      ensures currentPath == [] && selectedIndex == 0 && entries == []
      ensures Valid()
    {
      currentPath := [];
      selectedIndex := 0;
      entries := [];
    }

    /** The stored path, as last set. */
    function CurrentPath(): (p: string)
      reads this
      ensures p == currentPath
    {
      currentPath
    }

    /** The stored selection. */
    function SelectedIndex(): (i: U16)
      reads this
      ensures i == selectedIndex
    {
      selectedIndex
    }

    /** The stored entries; the filesystem is not consulted. */
    function Entries(): (e: seq<Entry>)
      reads this
      ensures e == entries
    {
      entries
    }

    /**
     * Stores `path` verbatim, lists it (through the filesystem `fs`) and
     * resets the selection to the first entry.
     */
    method SetWorkingDirectory(fs: Node, path: string)
      requires ValidTree(fs)
      modifies this
      ensures currentPath == path
      ensures entries == EntriesAt(fs, path)
      ensures selectedIndex == 0
      ensures |entries| < 0x1_0000 ==> Valid()
    {
      currentPath := path;
      entries := Directory.Entries(fs, path);
      selectedIndex := 0;
    }

    /** Moves the selection one entry down unless the last entry is selected. */
    method SelectNextEntry()
      modifies this`selectedIndex
      ensures selectedIndex == NextIndex(|entries|, old(selectedIndex))
      ensures old(Valid()) ==> Valid()
    {
      if Wrap16(Wrap16(|entries|) - selectedIndex) > 1 {
        selectedIndex := Wrap16(selectedIndex + 1);
      }
    }

    /** Moves the selection one entry up unless the first entry is selected. */
    method SelectPreviousEntry()
      modifies this`selectedIndex
      ensures selectedIndex == PreviousIndex(old(selectedIndex))
      ensures old(Valid()) ==> Valid()
    {
      if selectedIndex > 0 {
        selectedIndex := selectedIndex - 1;
      }
    }
  }

  // ---------------------------------------------------------------------
  // Properties of the selection functions

  /** With no entries, neither selection call moves the index off 0. */
  lemma EmptyStaysAtZero()
    ensures NextIndex(0, 0) == 0
    ensures PreviousIndex(0) == 0
  {
  }

  /** With the last entry selected, `SelectNextEntry` changes nothing, however often it is called. */
  lemma {:induction false} NextAtLastIsIdempotent(count: nat, k: nat)
    requires 0 < count < 0x1_0000
    ensures NextIndex(count, count - 1) == count - 1
    ensures NextTimes(count, count - 1, k) == count - 1
    decreases k
  {
    if k > 0 {
      NextAtLastIsIdempotent(count, k - 1);
    }
  }

  /** `k` calls of `SelectNextEntry` from a valid state advance by `k`, stopping at the last entry. */
  lemma {:induction false} NextTimesClamps(count: nat, index: U16, k: nat)
    requires InRange(count, index)
    ensures NextTimes(count, index, k) ==
      if count == 0 then 0
      else if index + k < count - 1 then index + k else count - 1
    decreases k
  {
    if k > 0 {
      NextTimesClamps(count, NextIndex(count, index), k - 1);
    }
  }

  /** `k` calls of `SelectPreviousEntry` step back by `k`, stopping at the first entry. */
  lemma {:induction false} PreviousTimesClamps(index: U16, k: nat)
    ensures PreviousTimes(index, k) == if index >= k then index - k else 0
    decreases k
  {
    if k > 0 {
      PreviousTimesClamps(PreviousIndex(index), k - 1);
    }
  }

  /** Any sequence of selection calls keeps the selection invariant. */
  lemma {:induction false} ReplayKeepsInRange(count: nat, index: U16, moves: seq<Move>)
    requires InRange(count, index)
    ensures InRange(count, Replay(count, index, moves))
    decreases |moves|
  {
    if moves != [] {
      var first := if moves[0] == Next then NextIndex(count, index) else PreviousIndex(index);
      ReplayKeepsInRange(count, first, moves[1..]);
    }
  }

  /** A step down that moved is undone by a step up. */
  lemma PreviousUndoesNext(count: nat, index: U16)
    requires InRange(count, index)
    requires NextIndex(count, index) != index
    ensures PreviousIndex(NextIndex(count, index)) == index
  {
  }

  /** A step up that moved is undone by a step down. */
  lemma NextUndoesPrevious(count: nat, index: U16)
    requires InRange(count, index)
    requires index > 0
    ensures NextIndex(count, PreviousIndex(index)) == index
  {
  }

  /**
   * Without the bound of `InRange` the `uint16` truncation shows: with
   * exactly 65536 entries the length truncates to 0 and the selection can
   * never leave the first entry.
   */
  lemma {:induction false} NextStuckWhenLengthTruncates(k: nat)
    ensures NextIndex(0x1_0000, 0) == 0
    ensures NextTimes(0x1_0000, 0, k) == 0
    decreases k
  {
    if k > 0 {
      NextStuckWhenLengthTruncates(k - 1);
    }
  }

  /**
   * A client of the class, as in the test of `SetWorkingDirectory`: with at
   * least two entries one `SelectNextEntry` selects the second entry, and
   * setting the same directory again resets the selection to the first while
   * listing the same entries.
   */
  method ResetScenario(fs: Node, path: string, n: Navigator) returns (afterNext: U16)
    requires ValidTree(fs)
    requires 2 <= |EntriesAt(fs, path)| < 0x1_0000
    modifies n
    ensures afterNext == 1
    ensures n.currentPath == path && n.entries == EntriesAt(fs, path) && n.selectedIndex == 0
  {
    n.SetWorkingDirectory(fs, path);
    n.SelectNextEntry();
    afterNext := n.SelectedIndex();
    n.SetWorkingDirectory(fs, path);
  }
}
