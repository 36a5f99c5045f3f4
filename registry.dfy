/** The session registry and game creation (CreateGameStrategy.Execute).
    The two process-wide dictionaries, custom games and matchmaking games,
    are passed in and handed back as maps from game id to session. */
module Registry {
  import opened Wrappers
  import opened Text
  import opened Session

  /** The ids of a registry are exactly 1..Count. */
  ghost predicate DenseIds<T>(games: map<int, T>)
  {
    forall k :: k in games <==> 1 <= k <= |games|
  }

  /** Every id names its own session object. */
  ghost predicate DistinctGames(games: map<int, Game>)
  {
    forall k1, k2 :: k1 in games && k2 in games && k1 != k2 ==> games[k1] != games[k2]
  }

  /** Inserting under a new key adds one entry. */
  lemma InsertNewKey<T>(games: map<int, T>, key: int, g: T)
    requires key !in games
    ensures |games[key := g]| == |games| + 1
  {
    assert games[key := g].Keys == games.Keys + {key};
  }

  /** Count + 1 is a new id when the ids are 1..Count, and inserting under
      it keeps them 1..Count + 1. */
  lemma NextIdIsFresh<T>(games: map<int, T>, g: T)
    requires DenseIds(games)
    ensures |games| + 1 !in games
    ensures DenseIds(games[|games| + 1 := g])
  {
    var n := |games|;
    assert n + 1 !in games;
    InsertNewKey(games, n + 1, g);
    var next := games[n + 1 := g];
    forall k
      ensures k in next <==> 1 <= k <= n + 1
    {
      assert k in next <==> k in games || k == n + 1;
    }
  }

  /** Filing a session no id names yet under Count + 1 keeps the ids
      1..Count and keeps every id on its own session. */
  lemma RegisterKeeps(games: map<int, Game>, g: Game)
    requires forall k :: k in games ==> games[k] != g
    ensures DenseIds(games) ==> DenseIds(games[|games| + 1 := g])
    ensures DistinctGames(games) ==> DistinctGames(games[|games| + 1 := g])
  {
    if DenseIds(games) { NextIdIsFresh(games, g); }
  }

  /** When the ids are not 1..Count, Count + 1 may already be taken: the new
      game then replaces one that is registered. */
  lemma NextIdCanCollide<T>(g1: T, g2: T)
    ensures var games := map[2 := g1];
      |games| + 1 in games && games[|games| + 1 := g2][2] == g2
  {
  }

  datatype CreateError =
    | IndexOutOfRange   // data has too few fields
    | BadSize           // data[3] is not a 16-bit integer
    | NegativeSize      // no board of that size can be allocated

  /** The fields a creation request is read from, in the order the source
      reads them: the size from data[3] (Convert.ToInt16), then the rule tag
      from data[4]; the token data[2] is read later, when data[4] exists. */
  function ParseCreateRequest(data: seq<string>): (r: Result<(int, string, string), CreateError>)
    ensures r.Success? <==> |data| >= 5 && ParseBounded(data[3], Int16Min, Int16Max).Some?
    ensures r.Success? ==>
      r.value.0 == ParseBounded(data[3], Int16Min, Int16Max).value && r.value.1 == data[4] && r.value.2 == data[2]
    ensures |data| < 4 ==> r == Failure(IndexOutOfRange)
    ensures |data| >= 4 && ParseBounded(data[3], Int16Min, Int16Max).None? ==> r == Failure(BadSize)
  {
    if |data| < 4 then Failure(IndexOutOfRange)
    else match ParseBounded(data[3], Int16Min, Int16Max)
      case None => Failure(BadSize)
      case Some(size) =>
        if |data| < 5 then Failure(IndexOutOfRange)
        else Success((size, data[4], data[2]))
  }

  /** A request written with a decimal 16-bit size, with or without white
      space around it, reads back as that size, rule tag and token. */
  lemma CreateRequestRoundTrip(verb: string, id: string, token: string, size: int, rule: string,
                               more: seq<string>, left: string, right: string)
    requires Int16Min <= size <= Int16Max
    requires AllWhite(left) && AllWhite(right)
    ensures ParseCreateRequest([verb, id, token, left + IntToString(size) + right, rule] + more)
      == Success((size, rule, token))
  {
    ParseBoundedOfPadded(size, Int16Min, Int16Max, left, right);
  }

  /** A size typed with a leading space still creates a game of that size. */
  lemma PaddedSizeScenario()
    ensures ParseCreateRequest(["a", "b", "t", " 9", "c"]) == Success((9, "c", "t"))
  {
    CreateRequestRoundTrip("a", "b", "t", 9, "c", [], " ", "");
    assert " " + IntToString(9) + "" == " 9";
    assert ["a", "b", "t", " 9", "c"] + [] == ["a", "b", "t", " 9", "c"];
  }

  /** The game types that create a game. */
  predicate Creates(gameType: string)
  {
    gameType == "custom" || gameType == "matchmaking"
  }

  /** `g` is the session a creation request makes: `player` in the first
      seat and holding the turn, the second seat empty, not started. */
  ghost predicate CreatedFor(g: Game, player: Client, size: nat, rule: string, id: int)
    reads g
  {
    && g.player1 == player && g.currentTurn == player && g.player2 == null
    && !g.started && !g.hasTimerManager && g.forwarded == []
    && g.id == id && g.size == size && g.rule == rule && g.score == ScoreRuleFor(rule)
  }

  /** Builds the session of a creation request: the game with `player`
      seated first, the caller's token stored, `player` set as player 1. */
  method NewGameFor(player: Client, size: nat, rule: string, token: string, customGamesCount: nat)
    returns (g: Game)
    modifies player
    ensures fresh(g) && g.Valid() && CreatedFor(g, player, size, rule, customGamesCount + 1)
    ensures player.user == old(player.user).(token := token)
  {
    g := new Game(size, rule, customGamesCount);
    g.AddPlayer(player);
    player.user := player.user.(token := token);
    g.player1 := player;
  }

  /** Creates a session for `player` in the custom or the matchmaking pool,
      under the id Count + 1 of that pool, stores the caller's token,
      and answers "{id}-" with the response kind "Send_". Any other game type
      changes nothing; a malformed request fails before anything changes, and
      so does a negative size when a game is to be built. Either way the
      game's own Id is CustomGames.Count + 1. */
  method Execute(player: Client, data: seq<string>, gameType: string,
                 customGames: map<int, Game>, matchmakingGames: map<int, Game>,
                 response: string, kind: string)
    returns (outcome: Outcome<CreateError>, newGame: Game?,
             customGames': map<int, Game>, matchmakingGames': map<int, Game>,
             response': string, kind': string)
    modifies player
    ensures ParseCreateRequest(data).Failure? ==> outcome == Fail(ParseCreateRequest(data).error)
    ensures ParseCreateRequest(data).Success? ==>
      (outcome == Fail(NegativeSize) <==> Creates(gameType) && ParseCreateRequest(data).value.0 < 0)
    ensures outcome.Fail? ==> ParseCreateRequest(data).Failure? || outcome == Fail(NegativeSize)
    ensures newGame == null <==> outcome.Fail? || !Creates(gameType)
    ensures newGame == null ==>
      && customGames' == customGames && matchmakingGames' == matchmakingGames
      && response' == response && kind' == kind && player.user == old(player.user)
    ensures newGame != null ==>
      var (size, rule, token) := ParseCreateRequest(data).value;
      && size >= 0 && fresh(newGame) && newGame.Valid()
      && CreatedFor(newGame, player, size as nat, rule, |customGames| + 1)
      && player.user == old(player.user).(token := token)
    ensures newGame != null && gameType == "custom" ==>
      && customGames' == customGames[|customGames| + 1 := newGame]
      && matchmakingGames' == matchmakingGames
      && response' == IntToString(|customGames| + 1) + "-" && kind' == "Send_"
    ensures newGame != null && gameType == "matchmaking" ==>
      && matchmakingGames' == matchmakingGames[|matchmakingGames| + 1 := newGame]
      && customGames' == customGames
      && response' == IntToString(|matchmakingGames| + 1) + "-" && kind' == "Send_"
    ensures DenseIds(customGames) ==> DenseIds(customGames')
    ensures DenseIds(matchmakingGames) ==> DenseIds(matchmakingGames')
    ensures DistinctGames(customGames) ==> DistinctGames(customGames')
    ensures DistinctGames(matchmakingGames) ==> DistinctGames(matchmakingGames')
  {
    customGames', matchmakingGames', response', kind' := customGames, matchmakingGames, response, kind;
    newGame := null;
    var request := ParseCreateRequest(data);
    if request.Failure? {
      return Fail(request.error), null, customGames', matchmakingGames', response', kind';
    }
    var (size, rule, token) := request.value;
    if !Creates(gameType) {
      return Pass, null, customGames', matchmakingGames', response', kind';
    }
    if size < 0 {
      return Fail(NegativeSize), null, customGames', matchmakingGames', response', kind';
    }
    outcome := Pass;
    newGame := NewGameFor(player, size as nat, rule, token, |customGames|);
    var id;
    if gameType == "custom" {
      id := |customGames| + 1;
      customGames' := customGames[id := newGame];
      RegisterKeeps(customGames, newGame);
    } else {
      id := |matchmakingGames| + 1;
      matchmakingGames' := matchmakingGames[id := newGame];
      RegisterKeeps(matchmakingGames, newGame);
    }
    response' := IntToString(id) + "-";
    kind' := "Send_";
  }
}
