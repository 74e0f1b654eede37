/** The keyboard loop of `main` in mt4-panel.py: the display mode chosen among
    positions, orders and pending, the two hide switches and the quit flag,
    all module-level globals changed in place by one key at a time. */
module Keys {
  /** The three views, in the order the space bar cycles through them. */
  const Modes: seq<string> := ["positions", "orders", "pending"]

  /** The mode index after `key`: space moves to the next view, wrapping
      round; `p`, `o` and `P` jump to a view; every other key keeps it. */
  function NextIndex(i: int, key: char): (j: int)
    requires 0 <= i < |Modes|
    ensures 0 <= j < |Modes|
    ensures key !in " poP" ==> j == i
  {
    match key
    case ' ' => (i + 1) % |Modes|
    case 'p' => 0
    case 'o' => 1
    case 'P' => 2
    case _ => i
  }

  /** Whether the panel is drawn again after `key`: every key the loop acts
      on except `q`. */
  predicate Redraws(key: char) {
    key in " HpohP"
  }

  /** Space moves forward: positions, then orders, then pending, then
      positions again; pressing it once per view comes back to the view it
      started from, having shown each of the others in between. */
  lemma SpaceCycles(i: int)
    requires 0 <= i < |Modes|
    ensures NextIndex(0, ' ') == 1 && NextIndex(1, ' ') == 2 && NextIndex(2, ' ') == 0
    ensures NextIndex(NextIndex(NextIndex(i, ' '), ' '), ' ') == i
    ensures NextIndex(NextIndex(i, ' '), ' ') !in {i, NextIndex(i, ' ')}
  {
  }

  /** Space always leaves the current view. */
  lemma SpaceMoves(i: int)
    requires 0 <= i < |Modes|
    ensures NextIndex(i, ' ') != i
  {
  }

  /** The jump keys pick their view whatever view was up, so pressing one
      twice is the same as pressing it once. */
  lemma JumpIdempotent(i: int, key: char)
    requires 0 <= i < |Modes| && key in "poP"
    ensures NextIndex(NextIndex(i, key), key) == NextIndex(i, key)
    ensures NextIndex(i, key) == NextIndex(0, key)
  {
  }

  /** Every view can be reached from every view with one jump key. */
  lemma JumpReaches(i: int, j: int)
    requires 0 <= i < |Modes| && 0 <= j < |Modes|
    ensures NextIndex(i, "poP"[j]) == j
  {
  }

  class Controls {
    var modeIndex: int
    var mode: string
    /** `hide` in mt4-panel.py: balance and equity left out of the footer. */
    var hideFigures: bool
    var hidePending: bool
    var quit: bool

    /** The mode name is always the entry of `Modes` at the mode index. */
    ghost predicate Valid()
      reads this
    {
      0 <= modeIndex < |Modes| && mode == Modes[modeIndex]
    }

    /** Start-up: the positions view, pending orders listed, not quitting;
        figures are hidden unless the marker file exists. */
    constructor(showFileExists: bool)
      ensures Valid() && modeIndex == 0 && mode == "positions"
      ensures hideFigures == !showFileExists && !hidePending && !quit
    {
      modeIndex := 0;
      mode := Modes[0];
      hideFigures := !showFileExists;
      hidePending := false;
      quit := false;
    }

    /** One key read by the loop of `main`. `h` and `H` flip their switch, `q`
        sets the quit flag, the mode keys move the mode index, and nothing
        else changes. */
    method HandleKey(key: char) returns (redraw: bool)
      requires Valid()
      modifies this
      ensures Valid()
      ensures modeIndex == NextIndex(old(modeIndex), key)
      ensures hideFigures == (if key == 'H' then !old(hideFigures) else old(hideFigures))
      ensures hidePending == (if key == 'h' then !old(hidePending) else old(hidePending))
      ensures quit == (old(quit) || key == 'q')
      ensures redraw <==> Redraws(key)
    {
      redraw := true;
      match key
      case ' ' =>
        modeIndex := (modeIndex + 1) % |Modes|;
        mode := Modes[modeIndex];
      case 'H' =>
        hideFigures := !hideFigures;
      case 'p' =>
        modeIndex := 0;
        mode := Modes[modeIndex];
      case 'o' =>
        modeIndex := 1;
        mode := Modes[modeIndex];
      case 'h' =>
        hidePending := !hidePending;
      case 'P' =>
        modeIndex := 2;
        mode := Modes[modeIndex];
      case 'q' =>
        quit := true;
        redraw := false;
      case _ =>
        redraw := false;
    }
  }
}
