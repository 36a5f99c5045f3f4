/** The replay screen (ReplayScreenComponent): the recorded states of a
    finished game, a cursor on the state shown, the keyboard moves of that
    cursor, and the painting of one state onto the board and the capture
    counters. */
module Replay {
  import opened Wrappers
  import opened Text
  import opened BoardView

  /** One recorded position (GameStateDTO): the "!"-separated snapshot, the
      two capture counts and the move it follows. */
  datatype GameState = GameState(board: string, capturedBlack: int, capturedWhite: int, moveNumber: int)

  datatype ReplayError =
    | NoSuchState    // states[n] is undefined, and reading its counts is a TypeError
    | MissingCell    // the snapshot names an intersection the page does not have

  class ReplayScreen {
    /** The index of the state shown: a JavaScript number, NaN after a
        move-number input that is not a number. */
    var stateNumber: Num
    var states: seq<GameState>
    /** The intersections of the page. */
    const stones: StoneCells
    /** Both capture counter elements are known (set once the game's players
        are loaded). */
    var countersBound: bool
    var blackCapturedText: string
    var whiteCapturedText: string
    /** The value of the move-number input. */
    var moveInput: string

    /** The cursor designates one of the states. */
    predicate CursorInRange()
      reads this
    {
      stateNumber.Int? && 0 <= stateNumber.value < |states|
    }

    constructor (stones: StoneCells)
      ensures this.stones == stones
      ensures stateNumber == Int(0) && states == [] && !countersBound && moveInput == ""
    {
      this.stones := stones;
      stateNumber := Int(0);
      states := [];
      countersBound := false;
      blackCapturedText, whiteCapturedText := "", "";
      moveInput := "";
    }

    /** The counter elements become known, whichever side the player sits. */
    method BindCounters()
      modifies this`countersBound
      ensures countersBound
    {
      countersBound := true;
    }

    /** Appends the fetched states one by one, in the order received. */
    method LoadGameStates(fetched: seq<GameState>)
      modifies this`states
      ensures states == old(states) + fetched
    {
      for i := 0 to |fetched|
        invariant states == old(states) + fetched[..i]
      {
        assert fetched[..i + 1] == fetched[..i] + [fetched[i]];
        states := states + [fetched[i]];
      }
    }

    /** Writes both counters when their elements are known. */
    method UpdateCapturedCounters(black: string, white: string)
      modifies this`blackCapturedText, this`whiteCapturedText
      ensures countersBound ==> blackCapturedText == "Prises : " + black && whiteCapturedText == "Prises : " + white
      ensures !countersBound ==> blackCapturedText == old(blackCapturedText) && whiteCapturedText == old(whiteCapturedText)
    {
      if countersBound {
        blackCapturedText := "Prises : " + black;
        whiteCapturedText := "Prises : " + white;
      }
    }

    /** State `n` has been shown, from the state before: it exists, its
        counts are on the counters when their elements are known (which are
        otherwise left as they were), and the cells are its snapshot decoded
        with "!" between lines, `r` passing exactly when no cell was
        missing. */
    twostate predicate Shown(n: int, new r: Outcome<ReplayError>)
      reads this, stones
    {
      && 0 <= n < |states|
      && r != Fail(NoSuchState)
      && Applied(stones.styles, r.Pass?) == DecodeSnapshot(old(stones.styles), states[n].board, "!")
      && (countersBound ==>
            && blackCapturedText == "Prises : " + IntToString(states[n].capturedBlack)
            && whiteCapturedText == "Prises : " + IntToString(states[n].capturedWhite))
      && (!countersBound ==>
            blackCapturedText == old(blackCapturedText) && whiteCapturedText == old(whiteCapturedText))
    }

    /** Nothing on the page has changed: the cells and both counters. */
    twostate predicate Kept()
      reads this, stones
    {
      && stones.styles == old(stones.styles)
      && blackCapturedText == old(blackCapturedText) && whiteCapturedText == old(whiteCapturedText)
    }

    /** Shows state `n`: its counts on the counters, then its snapshot
        decoded with "!" between lines. An `n` that names no state fails
        before anything changes. */
    method DisplayState(n: Num) returns (r: Outcome<ReplayError>)
      modifies this`blackCapturedText, this`whiteCapturedText, stones
      ensures !(n.Int? && 0 <= n.value < |states|) ==> r == Fail(NoSuchState) && Kept()
      ensures n.Int? && 0 <= n.value < |states| ==> Shown(n.value, r)
    {
      if !(n.Int? && 0 <= n.value < |states|) {
        return Fail(NoSuchState);
      }
      var state := states[n.value];
      UpdateCapturedCounters(IntToString(state.capturedBlack), IntToString(state.capturedWhite));
      var ok := stones.Decode(state.board, "!");
      r := if ok then Pass else Fail(MissingCell);
    }

    /** ArrowRight: moves to the next state and shows it, unless the cursor
        is on the last state (or is NaN). */
    method NextState() returns (r: Outcome<ReplayError>)
      modifies this`stateNumber, this`blackCapturedText, this`whiteCapturedText, stones
      ensures var moves := old(stateNumber).Int? && old(stateNumber).value < |states| - 1;
        && (moves ==> stateNumber == Int(old(stateNumber).value + 1))
        && (moves ==> (r == Fail(NoSuchState) <==> !CursorInRange()))
        && (moves && CursorInRange() ==> Shown(stateNumber.value, r))
        && (moves && !CursorInRange() ==> Kept())
        && (!moves ==> stateNumber == old(stateNumber) && r.Pass? && Kept())
      ensures old(CursorInRange()) ==> CursorInRange() && r != Fail(NoSuchState)
    {
      r := Pass;
      if stateNumber.Int? && stateNumber.value < |states| - 1 {
        stateNumber := Int(stateNumber.value + 1);
        r := DisplayState(stateNumber);
      }
    }

    /** ArrowLeft: moves to the previous state and shows it, unless the
        cursor is on the first state (or is NaN). */
    method PreviousState() returns (r: Outcome<ReplayError>)
      modifies this`stateNumber, this`blackCapturedText, this`whiteCapturedText, stones
      ensures var moves := old(stateNumber).Int? && old(stateNumber).value > 0;
        && (moves ==> stateNumber == Int(old(stateNumber).value - 1))
        && (moves ==> (r == Fail(NoSuchState) <==> !CursorInRange()))
        && (moves && CursorInRange() ==> Shown(stateNumber.value, r))
        && (moves && !CursorInRange() ==> Kept())
        && (!moves ==> stateNumber == old(stateNumber) && r.Pass? && Kept())
      ensures old(CursorInRange()) ==> CursorInRange() && r != Fail(NoSuchState)
    {
      r := Pass;
      if stateNumber.Int? && stateNumber.value > 0 {
        stateNumber := Int(stateNumber.value - 1);
        r := DisplayState(stateNumber);
      }
    }

    /** Enter, as written: the cursor takes the typed move number minus one
        whatever it is, the state is shown only when that index exists, and
        the input is cleared unless showing the state threw on a missing
        cell. */
    method MoveToState() returns (r: Outcome<ReplayError>)
      modifies this`stateNumber, this`moveInput, this`blackCapturedText, this`whiteCapturedText, stones
      ensures stateNumber == NumAdd(NumberOf(old(moveInput)), -1)
      ensures r != Fail(MissingCell) ==> moveInput == ""
      ensures r == Fail(MissingCell) ==> moveInput == old(moveInput)
      ensures !CursorInRange() ==> r.Pass? && Kept()
      ensures CursorInRange() ==> Shown(stateNumber.value, r)
    {
      var moveNumber := NumAdd(NumberOf(moveInput), -1);
      stateNumber := moveNumber;
      r := Pass;
      if moveNumber.Int? && 0 <= moveNumber.value < |states| {
        stateNumber := moveNumber;
        r := DisplayState(stateNumber);
      }
      if r != Fail(MissingCell) {
        moveInput := "";
      }
    }

    /** Enter, as intended: the cursor moves only to a state that exists,
        so it stays on a state; the input is cleared as in MoveToState. */
    method MoveToStateChecked() returns (r: Outcome<ReplayError>)
      modifies this`stateNumber, this`moveInput, this`blackCapturedText, this`whiteCapturedText, stones
      ensures var target := NumAdd(NumberOf(old(moveInput)), -1);
        && (target.Int? && 0 <= target.value < |states| ==> stateNumber == target && Shown(target.value, r))
        && (!(target.Int? && 0 <= target.value < |states|) ==> stateNumber == old(stateNumber) && r.Pass? && Kept())
      ensures r != Fail(MissingCell) ==> moveInput == ""
      ensures r == Fail(MissingCell) ==> moveInput == old(moveInput)
      ensures old(CursorInRange()) ==> CursorInRange()
    {
      var moveNumber := NumAdd(NumberOf(moveInput), -1);
      r := Pass;
      if moveNumber.Int? && 0 <= moveNumber.value < |states| {
        stateNumber := moveNumber;
        r := DisplayState(stateNumber);
      }
      if r != Fail(MissingCell) {
        moveInput := "";
      }
    }

    /** The keyboard handler, with the corrected Enter: every key keeps the
        cursor on a state, and no key shows a state that does not exist. */
    method HandleKey(key: string) returns (r: Outcome<ReplayError>)
      modifies this`stateNumber, this`moveInput, this`blackCapturedText, this`whiteCapturedText, stones
      ensures old(CursorInRange()) ==> CursorInRange() && r != Fail(NoSuchState)
      ensures key != "ArrowRight" && key != "ArrowLeft" && key != "Enter" ==>
        stateNumber == old(stateNumber) && moveInput == old(moveInput) && r.Pass? && Kept()
      ensures key == "ArrowRight" || key == "ArrowLeft" ==> moveInput == old(moveInput)
    {
      r := Pass;
      if key == "ArrowRight" {
        r := NextState();
      } else if key == "ArrowLeft" {
        r := PreviousState();
      } else if key == "Enter" {
        r := MoveToStateChecked();
      }
    }
  }

  /** With two states, typing 9 and pressing Enter leaves the cursor on
      index 8, which names no state; ArrowLeft then moves it to 7 and the
      display fails reading states[7]. */
  method MoveToStateEscapes(stones: StoneCells, s0: GameState, s1: GameState)
    returns (inRange: bool, back: Outcome<ReplayError>)
    modifies stones
    ensures !inRange && back == Fail(NoSuchState)
  {
    var screen := new ReplayScreen(stones);
    screen.LoadGameStates([s0, s1]);
    screen.moveInput := "9";
    NumberOfIntToString(9);
    assert IntToString(9) == "9";
    var _ := screen.MoveToState();
    inRange := screen.CursorInRange();
    back := screen.PreviousState();
  }

  /** The corrected Enter under the same inputs keeps the cursor on a state. */
  method MoveToStateCheckedStays(stones: StoneCells, s0: GameState, s1: GameState)
    returns (inRange: bool, back: Outcome<ReplayError>)
    modifies stones
    ensures inRange && back != Fail(NoSuchState)
  {
    var screen := new ReplayScreen(stones);
    screen.LoadGameStates([s0, s1]);
    screen.moveInput := "9";
    var _ := screen.MoveToStateChecked();
    inRange := screen.CursorInRange();
    back := screen.PreviousState();
  }
}
