/** One game session (Game): two nullable seats, the seat whose turn it is,
    a started flag, the rule tag and its score rule, the board, and the calls
    the session forwards to its timers and to the rules engine. */
module Session {
  import opened Wrappers
  import opened Text
  import Goban

  /** The account a connection plays under (GameUserDTO). */
  datatype User = User(token: string, name: string, elo: int)

  /** A connected player. Seats hold references to clients and compare them
      by identity. */
  class Client {
    var user: User

    constructor (u: User)
      ensures user == u
    {
      user := u;
    }
  }

  /** ChineseScoreRule (area) or JapaneseScoreRule (territory). */
  datatype ScoreRule = Chinese | Japanese

  /** A call the session makes into TimerManager or GameLogic. */
  datatype Forwarded =
    | SwitchToNextPlayer
    | GetPreviousTimer
    /** A stone handed to GameLogic, with the engine's verdict: a rejected
        move (off the grid, occupied, ko, suicide) is raised as an exception
        and leaves the game as it was. */
    | LogicPlaceStone(x: int, y: int, accepted: bool)
    | LogicSkipTurn

  /** The score rule a rule tag selects: "c" area scoring, "j" territory
      scoring, no rule at all for any other tag. */
  function ScoreRuleFor(rule: string): (r: Option<ScoreRule>)
    ensures r == Some(Chinese) <==> rule == "c"
    ensures r == Some(Japanese) <==> rule == "j"
    ensures r == None <==> rule != "c" && rule != "j"
  {
    if rule == "c" then Some(Chinese) else if rule == "j" then Some(Japanese) else None
  }

  /** The seat that plays after `current`: the second seat after the first,
      the first seat after anything else. */
  function NextTurn(current: Client?, player1: Client?, player2: Client?): (r: Client?)
    ensures r == player1 || r == player2
    ensures current == player1 ==> r == player2
    ensures current != player1 ==> r == player1
    ensures player1 != player2 && (current == player1 || current == player2) ==> r != current
  {
    if current == player1 then player2 else player1
  }

  /** With two distinct seats, the turn moves to the other seat, and two
      changes give the turn back to whoever held it. */
  lemma NextTurnTwice(current: Client?, player1: Client?, player2: Client?)
    requires player1 != player2 && (current == player1 || current == player2)
    ensures NextTurn(current, player1, player2) != current
    ensures NextTurn(NextTurn(current, player1, player2), player1, player2) == current
  {
  }

  /** Number of passes at the end of the forwarded calls, that is since the
      last stone the rules engine accepted. */
  function TrailingPasses(calls: seq<Forwarded>): (n: nat)
    ensures n <= |calls|
    decreases |calls|
  {
    if |calls| == 0 then 0
    else match calls[|calls| - 1]
      case LogicSkipTurn => TrailingPasses(calls[..|calls| - 1]) + 1
      case LogicPlaceStone(_, _, accepted) => if accepted then 0 else TrailingPasses(calls[..|calls| - 1])
      case _ => TrailingPasses(calls[..|calls| - 1])
  }

  /** A pass adds one to the run of passes; a stone the rules engine
      accepts, forwarded as the session does it, ends the run, and one it
      rejects leaves the run as it was. */
  lemma {:induction false} TrailingPassesStep(calls: seq<Forwarded>, x: int, y: int, accepted: bool)
    ensures TrailingPasses(calls + [LogicSkipTurn]) == TrailingPasses(calls) + 1
    ensures TrailingPasses(calls + [SwitchToNextPlayer, GetPreviousTimer, LogicPlaceStone(x, y, accepted)])
      == if accepted then 0 else TrailingPasses(calls)
  {
    assert (calls + [LogicSkipTurn])[..|calls|] == calls;
    var c1 := calls + [SwitchToNextPlayer];
    var c2 := c1 + [GetPreviousTimer];
    var placed := c2 + [LogicPlaceStone(x, y, accepted)];
    assert c1[..|calls|] == calls;
    assert c2[..|c1|] == c1;
    assert placed[..|c2|] == c2;
    assert TrailingPasses(c1) == TrailingPasses(calls);
    assert TrailingPasses(c2) == TrailingPasses(calls);
    assert calls + [SwitchToNextPlayer, GetPreviousTimer, LogicPlaceStone(x, y, accepted)] == placed;
  }

  /** The end condition of the rules engine: at some point both players
      passed in a row. Once reached, the end is final. */
  predicate EndedByPasses(calls: seq<Forwarded>)
    decreases |calls|
  {
    |calls| > 0 && (TrailingPasses(calls) >= 2 || EndedByPasses(calls[..|calls| - 1]))
  }

  /** The game has ended exactly when some prefix of the forwarded calls
      finishes with two passes in a row. */
  lemma {:induction false} EndedByPassesAt(calls: seq<Forwarded>)
    ensures EndedByPasses(calls) <==> exists k :: 0 < k <= |calls| && TrailingPasses(calls[..k]) >= 2
    decreases |calls|
  {
    if |calls| > 0 {
      var init := calls[..|calls| - 1];
      EndedByPassesAt(init);
      assert calls[..|calls|] == calls;
      assert forall k :: 0 < k < |calls| ==> init[..k] == calls[..k];
      if EndedByPasses(init) {
        var k :| 0 < k <= |init| && TrailingPasses(init[..k]) >= 2;
        assert calls[..k] == init[..k];
      }
      if k :| 0 < k <= |calls| && TrailingPasses(calls[..k]) >= 2 {
        if k < |calls| {
          assert init[..k] == calls[..k];
        }
      }
    }
  }

  /** One more forwarded call ends the game exactly when the game had
      already ended, or the call is a pass that follows a pass. */
  lemma EndedStep(calls: seq<Forwarded>, c: Forwarded)
    ensures EndedByPasses(calls + [c]) <==>
      EndedByPasses(calls) || (c == LogicSkipTurn && TrailingPasses(calls) >= 1)
  {
    var next := calls + [c];
    assert next[..|calls|] == calls;
    if c == LogicSkipTurn {
      TrailingPassesStep(calls, 0, 0, true);
    }
  }

  /** Two passes in a row end the game whatever came before, and an ended
      game stays ended whatever is forwarded afterwards. */
  lemma {:induction false} DoublePassEnds(calls: seq<Forwarded>, more: seq<Forwarded>)
    ensures EndedByPasses(calls + [LogicSkipTurn] + [LogicSkipTurn])
    ensures EndedByPasses(calls) ==> EndedByPasses(calls + more)
    decreases |more|
  {
    TrailingPassesStep(calls, 0, 0, true);
    TrailingPassesStep(calls + [LogicSkipTurn], 0, 0, true);
    EndedStep(calls + [LogicSkipTurn], LogicSkipTurn);
    if |more| == 0 {
      assert calls + more == calls;
    } else if EndedByPasses(calls) {
      var init := more[..|more| - 1];
      DoublePassEnds(calls, init);
      EndedStep(calls + init, more[|more| - 1]);
      assert calls + init + [more[|more| - 1]] == calls + more;
    }
  }

  datatype GameError =
    | NullReference  // there is no TimerManager before Start
    | MoveRejected   // GameLogic refused the stone and raised an exception

  class Game {
    var player1: Client?
    var player2: Client?
    var currentTurn: Client?
    const gameBoard: Goban.Board
    /** None when the rule tag names no score rule (the source leaves the field null). */
    const score: Option<ScoreRule>
    var started: bool
    const rule: string
    const size: nat
    const id: int
    /** The TimerManager exists (it is created by Start). */
    var hasTimerManager: bool
    /** Every call made into TimerManager and GameLogic, in order. */
    var forwarded: seq<Forwarded>

    ghost predicate Valid()
      reads this, gameBoard
    {
      gameBoard.Valid() && gameBoard.size == size
    }

    /** A game that is not started, with empty seats, a fresh empty board,
        and an id one past the number of custom games: the constructor reads
        CustomGames.Count itself, which is passed in here. */
    constructor (size: nat, rule: string, customGamesCount: nat)
      ensures Valid() && fresh(gameBoard) && fresh(gameBoard.board) && fresh(gameBoard.previousBoard)
      ensures !started && id == customGamesCount + 1 && this.size == size && this.rule == rule
      ensures score == ScoreRuleFor(rule)
      ensures player1 == null && player2 == null && currentTurn == null
      ensures !hasTimerManager && forwarded == []
      ensures forall i, j :: 0 <= i < size && 0 <= j < size ==> gameBoard.board[i, j] == Goban.Empty
      ensures gameBoard.capturedBlackStones == 0 && gameBoard.capturedWhiteStones == 0
    {
      started := false;
      id := customGamesCount + 1;
      this.size := size;
      gameBoard := new Goban.Board(size);
      this.rule := rule;
      score := ScoreRuleFor(rule);
      player1, player2, currentTurn := null, null, null;
      hasTimerManager := false;
      forwarded := [];
    }

    /** Both seats are taken. */
    predicate IsFull(): (r: bool)
      reads this
      ensures r <==> SeatCount() == 2
    {
      player1 != null && player2 != null
    }

    /** The number of taken seats. */
    function SeatCount(): (n: nat)
      reads this
      ensures n <= 2
    {
      (if player1 != null then 1 else 0) + (if player2 != null then 1 else 0)
    }

    /** Marks the game started and creates its timers. */
    method Start()
      modifies this`started, this`hasTimerManager
      ensures started && hasTimerManager
    {
      started := true;
      hasTimerManager := true;
    }

    /** Seats `player` in the first empty seat; an empty game also hands it
        the turn; a full game is left as it is. */
    method AddPlayer(player: Client)
      modifies this`player1, this`player2, this`currentTurn
      ensures old(player1) == null ==>
        player1 == player && currentTurn == player && player2 == old(player2)
      ensures old(player1) != null && old(player2) == null ==>
        player1 == old(player1) && player2 == player && currentTurn == old(currentTurn)
      ensures old(player1) != null && old(player2) != null ==>
        player1 == old(player1) && player2 == old(player2) && currentTurn == old(currentTurn)
      ensures old(player2) == null || old(player1) == null ==> SeatCount() == old(SeatCount()) + 1
      ensures old(IsFull()) ==> IsFull()
    {
      if player1 == null {
        player1 := player;
        currentTurn := player;
      } else if player2 == null {
        player2 := player;
      }
    }

    /** Switches the clocks, reads the time of the player who just moved and
        only then hands the move to the rules engine; answers that time in
        milliseconds. `previousMs` is the reading of that player's clock and
        `accepted` the rules engine's verdict on the stone. A rejected stone
        is raised out of the call after the clocks were switched. Before
        Start there is no TimerManager: a null dereference, nothing
        forwarded. */
    method PlaceStone(x: int, y: int, previousMs: nat, accepted: bool) returns (r: Result<string, GameError>)
      modifies this`forwarded
      ensures !hasTimerManager ==> r == Failure(NullReference) && forwarded == old(forwarded)
      ensures hasTimerManager ==>
        forwarded == old(forwarded) + [SwitchToNextPlayer, GetPreviousTimer, LogicPlaceStone(x, y, accepted)]
      ensures hasTimerManager && accepted ==> r == Success(NatToString(previousMs)) && TrailingPasses(forwarded) == 0
      ensures hasTimerManager && !accepted ==>
        r == Failure(MoveRejected) && TrailingPasses(forwarded) == TrailingPasses(old(forwarded))
      ensures TestWin() == old(TestWin())
    {
      if !hasTimerManager {
        return Failure(NullReference);
      }
      TrailingPassesStep(forwarded, x, y, accepted);
      EndedStep(forwarded, SwitchToNextPlayer);
      forwarded := forwarded + [SwitchToNextPlayer];
      EndedStep(forwarded, GetPreviousTimer);
      var time := NatToString(previousMs);
      forwarded := forwarded + [GetPreviousTimer];
      EndedStep(forwarded, LogicPlaceStone(x, y, accepted));
      forwarded := forwarded + [LogicPlaceStone(x, y, accepted)];
      r := if accepted then Success(time) else Failure(MoveRejected);
    }

    /** Hands the turn to the other seat. */
    method ChangeTurn()
      modifies this`currentTurn
      ensures currentTurn == NextTurn(old(currentTurn), player1, player2)
    {
      currentTurn := if currentTurn == player1 then player2 else player1;
    }

    /** The captured black stones, then the captured white stones. */
    function GetCapturedStone(): (r: (int, int))
      reads this, gameBoard
      ensures r.0 == gameBoard.capturedBlackStones && r.1 == gameBoard.capturedWhiteStones
    {
      (gameBoard.capturedBlackStones, gameBoard.capturedWhiteStones)
    }

    /** Forwards one pass to the rules engine and flips the turn once; the
        game has ended exactly when it had already ended or the previous
        call was a pass too. */
    method SkipTurn()
      modifies this`forwarded, this`currentTurn
      ensures forwarded == old(forwarded) + [LogicSkipTurn]
      ensures currentTurn == NextTurn(old(currentTurn), player1, player2)
      ensures TestWin() <==> old(TestWin()) || TrailingPasses(old(forwarded)) >= 1
    {
      EndedStep(forwarded, LogicSkipTurn);
      forwarded := forwarded + [LogicSkipTurn];
      ChangeTurn();
    }

    /** The rules engine reports the game over: at some point of the
        forwarded calls, the last two were passes. */
    predicate TestWin(): (r: bool)
      reads this
      ensures r <==> exists k :: 0 < k <= |forwarded| && TrailingPasses(forwarded[..k]) >= 2
    {
      EndedByPassesAt(forwarded);
      EndedByPasses(forwarded)
    }
  }

  /** A two-player session from creation to the end: the first player holds
      the turn, the second fills the game, Start starts it, and two passes
      end the game with the turn back with the first player. */
  method SessionScenario(p1: Client, p2: Client) returns (full: bool, started: bool, ended: bool, turnBack: bool)
    requires p1 != p2
    ensures full && started && ended && turnBack
  {
    var g := new Game(9, "c", 0);
    g.AddPlayer(p1);
    g.AddPlayer(p2);
    full := g.IsFull();
    g.Start();
    started := g.started;
    g.SkipTurn();
    g.SkipTurn();
    ended := g.TestWin();
    turnBack := g.currentTurn == p1;
  }
  /** A stone the rules engine rejects does not break a run of passes: pass,
      rejected stone, pass ends the game, while pass, accepted stone, pass
      does not, and only the accepted stone answers the clock reading. */
  method RejectedMoveScenario(p1: Client, p2: Client)
    returns (rejected: Result<string, GameError>, endedAfterRejected: bool,
             accepted: Result<string, GameError>, endedAfterAccepted: bool)
    requires p1 != p2
    ensures rejected == Failure(MoveRejected) && endedAfterRejected
    ensures accepted == Success(NatToString(1500)) && !endedAfterAccepted
  {
    var g := new Game(9, "j", 0);
    g.AddPlayer(p1);
    g.AddPlayer(p2);
    g.Start();
    g.SkipTurn();
    TrailingPassesStep([], 0, 0, true);
    rejected := g.PlaceStone(4, 4, 1500, false);
    g.SkipTurn();
    endedAfterRejected := g.TestWin();

    var h := new Game(9, "j", 0);
    h.AddPlayer(p1);
    h.AddPlayer(p2);
    h.Start();
    h.SkipTurn();
    accepted := h.PlaceStone(4, 4, 1500, true);
    h.SkipTurn();
    endedAfterAccepted := h.TestWin();
  }
}
