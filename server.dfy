/** The WebSocket server's game-side logic (Server): telling handshakes from
    frames, routing an interpreted response to one client or to both seats,
    starting a full game, settling a finished one, and clearing a
    disconnected client's seats. Frames are recorded in an outbox instead of
    being written to sockets; Elo updates are recorded as the pair of users
    passed as winner and loser. */
module WebSocketServer {
  import opened Wrappers
  import opened Text
  import opened Session
  import Registry

  /** What is written to a client: a text frame built from a message
      (BuildMessage), or a close frame with a status code (BuildDeconnection). */
  datatype Payload = TextFrame(text: string) | CloseFrame(code: int)

  datatype Delivery = Delivery(to: Client, payload: Payload)

  datatype ServerError =
    | IndexOutOfRange   // the response has no "_"
    | BadGameId         // the text before "/" is not a 32-bit integer
    | UnknownGame       // no game under that id
    | NullDereference     // a seat or the score rule is missing
    | UnknownUser       // the database knows no user with a seat's token

  // ---------------------------------------------------------------------
  // Handshakes
  // ---------------------------------------------------------------------

  /** A message opens the WebSocket handshake exactly when it begins with
      "GET" (the regular expression ^GET). */
  function MessageIsHandshakeRequest(message: string): (r: bool)
    ensures r <==> |message| >= 3 && message[0] == 'G' && message[1] == 'E' && message[2] == 'T'
  {
    StartsWith(message, "GET")
  }

  /** Every HTTP GET request line is a handshake; "GET" anywhere but at the
      start is not. */
  lemma HandshakeDetection(rest: string, prefix: string)
    requires |prefix| > 0 && prefix[0] != 'G'
    ensures MessageIsHandshakeRequest("GET " + rest)
    ensures !MessageIsHandshakeRequest(prefix + "GET")
  {
  }

  // ---------------------------------------------------------------------
  // Interpreted responses
  // ---------------------------------------------------------------------

  /** A response of the interpreter: its kind ("Send" or "Broadcast"), the
      data to send, and the id of the game it concerns. */
  datatype Response = Response(kind: string, data: string, gameId: int)

  /** The response text split at "_" into kind (piece 0) and data (piece 1),
      the game id read from the data's piece before "/" (Convert.ToInt32). */
  function ParseResponse(response: string): (r: Result<Response, ServerError>)
    ensures r.Success? <==>
      |Split(response, "_")| >= 2 && ParseBounded(Split(Split(response, "_")[1], "/")[0], Int32Min, Int32Max).Some?
    ensures r.Success? ==>
      && r.value.kind == Split(response, "_")[0]
      && r.value.data == Split(response, "_")[1]
      && r.value.gameId == ParseBounded(Split(Split(response, "_")[1], "/")[0], Int32Min, Int32Max).value
      && Int32Min <= r.value.gameId <= Int32Max
    ensures |Split(response, "_")| < 2 ==> r == Failure(IndexOutOfRange)
    ensures |Split(response, "_")| >= 2 && ParseBounded(Split(Split(response, "_")[1], "/")[0], Int32Min, Int32Max).None? ==>
      r == Failure(BadGameId)
  {
    var parts := Split(response, "_");
    if |parts| < 2 then Failure(IndexOutOfRange)
    else match ParseBounded(Split(parts[1], "/")[0], Int32Min, Int32Max)
      case None => Failure(BadGameId)
      case Some(id) => Success(Response(parts[0], parts[1], id))
  }

  /** An interpreter response "{kind}_{id}/{rest}" reads back as that kind,
      the data "{id}/{rest}" and the game id. */
  lemma ParseResponseRoundTrip(kind: string, id: int, rest: string)
    requires Int32Min <= id <= Int32Max
    requires '_' !in kind && '_' !in rest
    ensures ParseResponse(kind + "_" + IntToString(id) + "/" + rest)
      == Success(Response(kind, IntToString(id) + "/" + rest, id))
  {
    var digits := IntToString(id);
    var data := digits + "/" + rest;
    if '_' in digits { IntToStringChars(id, '_'); }
    if '/' in digits { IntToStringChars(id, '/'); }
    assert '_' !in data;
    JoinPair(kind, data, "_");
    SplitJoin([kind, data], "_");
    assert kind + "_" + digits + "/" + rest == kind + "_" + data;
    SplitFirst(digits, "/", rest);
    ParseBoundedOfIntToString(id, Int32Min, Int32Max);
  }

  /** A response without "_" has no data part. */
  lemma ResponseWithoutSeparator(response: string)
    requires '_' !in response
    ensures ParseResponse(response) == Failure(IndexOutOfRange)
  {
    IndexOfFree(response, "_");
  }

  // ---------------------------------------------------------------------
  // Settlement
  // ---------------------------------------------------------------------

  /** The message a seat receives at the end: "{id}/EndOfGame:{own}-{other}|{won}". */
  function EndOfGameMessage(id: int, own: int, other: int, won: bool): (r: string)
    ensures StartsWith(r, IntToString(id) + "/EndOfGame:")
    ensures |r| >= |BoolToString(won)| && r[|r| - |BoolToString(won)|..] == BoolToString(won)
  {
    var head := IntToString(id) + "/EndOfGame:";
    var front := head + IntToString(own) + "-" + IntToString(other) + "|";
    assert StartsWith(front, head) by {
      assert (head + IntToString(own))[..|head|] == head;
      StartsWithAppend(head + IntToString(own), head, "-");
      StartsWithAppend(head + IntToString(own) + "-", head, IntToString(other));
      StartsWithAppend(head + IntToString(own) + "-" + IntToString(other), head, "|");
    }
    StartsWithAppend(front, head, BoolToString(won));
    assert (front + BoolToString(won))[|front|..] == BoolToString(won);
    front + BoolToString(won)
  }

  /** The decision and the two messages of a finished game. */
  datatype Settlement = Settlement(player1Won: bool, player2Won: bool, player1Message: string, player2Message: string)

  /** The first seat wins ties: player1won is s1 >= s2, player2won is s2 > s1,
      so exactly one seat wins; each seat reads its own score first. */
  function Settle(id: int, score1: int, score2: int): (r: Settlement)
    ensures r.player1Won != r.player2Won
    ensures r.player1Won <==> score1 >= score2
    ensures r.player1Message == EndOfGameMessage(id, score1, score2, r.player1Won)
    ensures r.player2Message == EndOfGameMessage(id, score2, score1, r.player2Won)
  {
    var player1Won := score1 >= score2;
    var player2Won := score2 > score1;
    Settlement(player1Won, player2Won,
      EndOfGameMessage(id, score1, score2, player1Won),
      EndOfGameMessage(id, score2, score1, player2Won))
  }

  /** What a seat learns from its end-of-game message. */
  datatype EndOfGame = EndOfGame(gameId: int, own: nat, other: nat, won: bool)

  /** Reads "{own}-{other}" (non-negative scores). */
  function ReadScores(text: string): Option<(nat, nat)>
  {
    var scores := Split(text, "-");
    if |scores| != 2 then None
    else match (ParseNat(scores[0]), ParseNat(scores[1]))
      case (Some(own), Some(other)) => Some((own, other))
      case _ => None
  }

  /** Reads a C# Boolean text back. */
  function ReadFlag(text: string): Option<bool>
  {
    if text == "True" then Some(true) else if text == "False" then Some(false) else None
  }

  /** Reads "{id}/EndOfGame:{own}-{other}|{True|False}" back (a reference
      reader of the message format, for non-negative scores). */
  function ReadEndOfGame(message: string): Option<EndOfGame>
  {
    var parts := Split(message, "/");
    if |parts| != 2 || !StartsWith(parts[1], "EndOfGame:") then None
    else
      var halves := Split(parts[1][10..], "|");
      if |halves| != 2 then None
      else ReadFields(parts[0], halves[0], halves[1])
  }

  /** The id, the scores and the flag read from their own texts. */
  function ReadFields(idText: string, scores: string, flag: string): Option<EndOfGame>
  {
    match (ParseBounded(idText, Int32Min, Int32Max), ReadScores(scores), ReadFlag(flag))
      case (Some(id), Some((own, other)), Some(won)) => Some(EndOfGame(id, own, other, won))
      case _ => None
  }

  lemma ReadScoresRoundTrip(own: nat, other: nat)
    ensures ReadScores(NatToString(own) + "-" + NatToString(other)) == Some((own, other))
  {
    NotInNatToString(own, '-');
    NotInNatToString(other, '-');
    SplitPair(NatToString(own), NatToString(other), "-");
    ParseNatOfNatToString(own);
    ParseNatOfNatToString(other);
  }

  /** The reader takes the message apart at "/" and "|" as written. */
  lemma ReadEndOfGameOfParts(idText: string, scores: string, flag: string)
    requires '/' !in idText && '/' !in scores && '/' !in flag
    requires '|' !in scores && '|' !in flag
    ensures ReadEndOfGame(idText + "/" + ("EndOfGame:" + (scores + "|" + flag))) == ReadFields(idText, scores, flag)
  {
    var tail := scores + "|" + flag;
    var body := "EndOfGame:" + tail;
    assert '/' !in body;
    SplitPair(idText, body, "/");
    assert body[..10] == "EndOfGame:";
    assert body[10..] == tail;
    SplitPair(scores, flag, "|");
    assert Split(body[10..], "|") == [scores, flag];
  }

  /** The pieces of an end-of-game message hold none of its separators. */
  lemma EndOfGamePiecesFree(id: int, own: nat, other: nat)
    ensures var scores := NatToString(own) + "-" + NatToString(other);
      '/' !in IntToString(id) && '/' !in scores && '|' !in scores
  {
    NotInNatToString(own, '|'); NotInNatToString(other, '|');
    NotInNatToString(own, '/'); NotInNatToString(other, '/');
    if '/' in IntToString(id) { IntToStringChars(id, '/'); }
  }

  /** An end-of-game message is the id text, "/", and a body that the
      reader takes apart at "|". */
  lemma EndOfGameMessageShape(idText: string, own: string, other: string, flag: string)
    ensures idText + "/EndOfGame:" + own + "-" + other + "|" + flag ==
      idText + "/" + ("EndOfGame:" + ((own + "-" + other) + "|" + flag))
  {
    var scores := own + "-" + other;
    assert idText + "/EndOfGame:" + own + "-" + other == idText + "/" + ("EndOfGame:" + scores);
  }

  /** An end-of-game message reads back as the id, both scores and the flag. */
  lemma EndOfGameRoundTrip(id: int, own: nat, other: nat, won: bool)
    requires Int32Min <= id <= Int32Max
    ensures ReadEndOfGame(EndOfGameMessage(id, own, other, won)) == Some(EndOfGame(id, own, other, won))
  {
    var idText, flag := IntToString(id), BoolToString(won);
    var scores := NatToString(own) + "-" + NatToString(other);
    EndOfGameMessageShape(idText, NatToString(own), NatToString(other), flag);
    EndOfGamePiecesFree(id, own, other);
    ReadEndOfGameOfParts(idText, scores, flag);
    ReadScoresRoundTrip(own, other);
    ParseBoundedOfIntToString(id, Int32Min, Int32Max);
    assert ReadFlag(flag) == Some(won);
  }

  /** Both seats read the same game and scores mirrored, and exactly one of
      them reads that it won. */
  lemma SettlementReadBack(id: int, score1: nat, score2: nat)
    requires Int32Min <= id <= Int32Max
    ensures var s := Settle(id, score1, score2);
      && ReadEndOfGame(s.player1Message) == Some(EndOfGame(id, score1, score2, score1 >= score2))
      && ReadEndOfGame(s.player2Message) == Some(EndOfGame(id, score2, score1, score2 > score1))
  {
    EndOfGameRoundTrip(id, score1, score2, score1 >= score2);
    EndOfGameRoundTrip(id, score2, score1, score2 > score1);
  }

  /** The message a seat receives when its game starts: "{id}/Start:{opponent}". */
  function StartMessage(id: int, opponentName: string): (r: string)
    ensures StartsWith(r, IntToString(id) + "/Start:")
    ensures |r| >= |opponentName| && r[|r| - |opponentName|..] == opponentName
  {
    IntToString(id) + "/Start:" + opponentName
  }

  /** The deliveries SendMessage makes: none to a null client. */
  function Addressed(client: Client?, payload: Payload): (r: seq<Delivery>)
    ensures client == null ==> r == []
    ensures client != null ==> r == [Delivery(client, payload)]
  {
    if client == null then [] else [Delivery(client, payload)]
  }

  /** `a` is an initial segment of `b`. */
  predicate IsPrefix(a: seq<Delivery>, b: seq<Delivery>)
  {
    |a| <= |b| && b[..|a|] == a
  }

  /** The database returns, for each token it knows, the user with that token. */
  predicate UsersByToken(users: map<string, User>)
  {
    forall t :: t in users ==> users[t].token == t
  }

  /** The clients seated in any game of the registry. */
  function Seats(games: map<int, Game>): set<Client?>
    reads games.Values
  {
    (set g | g in games.Values :: g.player1) + (set g | g in games.Values :: g.player2)
  }

  /** A finished game can be settled: it has a score rule and both seats. */
  predicate CanSettle(game: Game)
    reads game
  {
    game.score.Some? && game.player1 != null && game.player2 != null
  }

  /** The end-of-game messages of a settled game, to the first seat then
      the second. */
  function EndDeliveries(game: Game, scores: (int, int)): seq<Delivery>
    reads game
    requires CanSettle(game)
  {
    var s := Settle(game.id, scores.0, scores.1);
    [Delivery(game.player1, TextFrame(s.player1Message)), Delivery(game.player2, TextFrame(s.player2Message))]
  }

  /** The (winner, loser) pair passed to the Elo update. */
  function EloPair(game: Game, scores: (int, int)): (r: (User, User))
    reads game, game.player1, game.player2
    requires CanSettle(game)
    ensures Settle(game.id, scores.0, scores.1).player1Won ==> r == (game.player1.user, game.player2.user)
    ensures Settle(game.id, scores.0, scores.1).player2Won ==> r == (game.player2.user, game.player1.user)
  {
    if scores.0 >= scores.1 then (game.player1.user, game.player2.user) else (game.player2.user, game.player1.user)
  }

  /** The user the database returns for `u`'s token. For a token it does
      not know the source stores null; the model keeps `u`. */
  function Reloaded(users: map<string, User>, u: User): (r: User)
    ensures u.token in users ==> r == users[u.token]
    ensures u.token !in users ==> r == u
  {
    if u.token in users then users[u.token] else u
  }

  /** The start messages of a full game: each seat is sent its opponent's
      name, the first seat then the second. */
  function StartDeliveries(game: Game): seq<Delivery>
    reads game, game.player1, game.player2
    requires game.IsFull()
  {
    [Delivery(game.player1, TextFrame(StartMessage(game.id, game.player2.user.name))),
     Delivery(game.player2, TextFrame(StartMessage(game.id, game.player1.user.name)))]
  }

  /** The frames routing `r` writes before any start messages: the client's
      frame for "Send"; for "Broadcast" the frame to each seat, then the
      end messages when the game ended and can be settled; nothing for any
      other kind. */
  function RouteFrames(client: Client, r: Response, game: Game, scores: (int, int)): seq<Delivery>
    reads game
  {
    var frame := TextFrame(r.data);
    if r.kind == "Send" then [Delivery(client, frame)]
    else if r.kind == "Broadcast" then
      Addressed(game.player1, frame) + Addressed(game.player2, frame)
        + (if game.TestWin() && CanSettle(game) then EndDeliveries(game, scores) else [])
    else []
  }

  /** A broadcast that ends a game which cannot be settled: the null
      dereference of HandleGameEnd. */
  predicate BroadcastFails(r: Response, game: Game)
    reads game
  {
    r.kind == "Broadcast" && game.TestWin() && !CanSettle(game)
  }

  /** The Elo update routing `r` requests: one pair when a broadcast ends a
      game that can be settled, none otherwise. */
  function SettledPair(r: Response, game: Game, scores: (int, int)): seq<(User, User)>
    reads game, game.player1, game.player2
  {
    if r.kind == "Broadcast" && game.TestWin() && CanSettle(game) then [EloPair(game, scores)] else []
  }

  /** A "Send" response goes to the invoking client only, never fails and
      settles nothing. */
  lemma SendRouting(client: Client, r: Response, game: Game, scores: (int, int))
    requires r.kind == "Send"
    ensures !BroadcastFails(r, game) && SettledPair(r, game, scores) == []
    ensures RouteFrames(client, r, game, scores) == [Delivery(client, TextFrame(r.data))]
  {
  }

  /** A set of ids with no member is empty. */
  lemma EmptyWithoutMembers(ids: set<int>)
    ensures (forall k :: k !in ids) ==> ids == {}
  {
    if forall k :: k !in ids {
      assert ids == {};
    }
  }

  class Server {
    /** The server-wide flag TreatMessage tests before starting a full game. */
    var started: bool
    /** Every frame written to a client, in order. */
    var sent: seq<Delivery>
    /** Every Elo update requested, as (winner, loser). */
    var eloUpdates: seq<(User, User)>

    constructor ()
      ensures !started && sent == [] && eloUpdates == []
    {
      started := false;
      sent := [];
      eloUpdates := [];
    }

    /** Writes to `client` unless it is null. */
    method SendMessage(client: Client?, payload: Payload)
      modifies this`sent
      ensures sent == old(sent) + Addressed(client, payload)
    {
      if client != null {
        sent := sent + [Delivery(client, payload)];
      }
    }

    /** Settles a finished game: the score pair comes from the game's score
        rule (`scores` is what CalculateScore returns). The seat with the
        winning flag goes to the Elo update as winner; each seat is sent its
        end message. A game without a score rule or with an empty seat fails
        before anything is recorded. */
    method HandleGameEnd(game: Game, scores: (int, int)) returns (outcome: Outcome<ServerError>)
      modifies this`sent, this`eloUpdates
      ensures outcome.Pass? <==> CanSettle(game)
      ensures outcome.Fail? ==> outcome.error == NullDereference && sent == old(sent) && eloUpdates == old(eloUpdates)
      ensures outcome.Pass? ==> eloUpdates == old(eloUpdates) + [EloPair(game, scores)]
      ensures outcome.Pass? ==> sent == old(sent) + EndDeliveries(game, scores)
    {
      if game.score.None? || game.player1 == null || game.player2 == null {
        return Fail(NullDereference);
      }
      var (score1, score2) := scores;
      if score1 >= score2 {
        eloUpdates := eloUpdates + [(game.player1.user, game.player2.user)];
      } else {
        eloUpdates := eloUpdates + [(game.player2.user, game.player1.user)];
      }
      var s := Settle(game.id, score1, score2);
      SendMessage(game.player1, TextFrame(s.player1Message));
      SendMessage(game.player2, TextFrame(s.player2Message));
      outcome := Pass;
    }

    /** Writes the frame to each non-null seat, first then second, and
        settles the game when its rules engine reports the end. */
    method BroadcastMessage(game: Game, payload: Payload, scores: (int, int)) returns (outcome: Outcome<ServerError>)
      modifies this`sent, this`eloUpdates
      ensures !game.TestWin() ==> outcome.Pass? && eloUpdates == old(eloUpdates)
      ensures !game.TestWin() ==> sent == old(sent) + Addressed(game.player1, payload) + Addressed(game.player2, payload)
      ensures game.TestWin() ==> (outcome.Pass? <==> CanSettle(game))
      ensures outcome.Fail? ==> outcome == Fail(NullDereference)
      ensures game.TestWin() && CanSettle(game) ==>
        && eloUpdates == old(eloUpdates) + [EloPair(game, scores)]
        && sent == old(sent) + Addressed(game.player1, payload) + Addressed(game.player2, payload) + EndDeliveries(game, scores)
      ensures game.TestWin() && !CanSettle(game) ==>
        && eloUpdates == old(eloUpdates)
        && sent == old(sent) + Addressed(game.player1, payload) + Addressed(game.player2, payload)
    {
      SendMessage(game.player1, payload);
      SendMessage(game.player2, payload);
      outcome := Pass;
      if game.TestWin() {
        outcome := HandleGameEnd(game, scores);
      }
    }

    /** Replaces each seat's user by the database's user for its token,
        first seat then second, sends each seat the opponent's name and sets
        the server's started flag. A missing seat is a null dereference where
        the source reaches it: a missing first seat before anything changes,
        a missing second seat after the first seat's user is replaced. An
        unknown token fails once both seats are looked up, with nothing sent. */
    method StartGame(game: Game, users: map<string, User>) returns (outcome: Outcome<ServerError>)
      requires UsersByToken(users)
      modifies this`started, this`sent, game.player1, game.player2
      ensures outcome.Pass? <==>
        old(game.player1) != null && old(game.player2) != null &&
        old(game.player1.user.token) in users && old(game.player2.user.token) in users
      ensures old(game.player1) == null || old(game.player2) == null ==> outcome == Fail(NullDereference)
      ensures old(game.IsFull()) && outcome.Fail? ==> outcome == Fail(UnknownUser)
      ensures old(game.player1) != null ==> game.player1.user == Reloaded(users, old(game.player1.user))
      ensures old(game.player1) != null && old(game.player2) != null ==>
        game.player2.user == Reloaded(users, old(game.player2.user))
      ensures old(game.player1) == null && old(game.player2) != null ==>
        game.player2.user == old(game.player2.user)
      ensures outcome.Fail? ==> started == old(started) && sent == old(sent)
      ensures outcome.Pass? ==> started && sent == old(sent) + StartDeliveries(game)
    {
      var p1 := game.player1;
      if p1 == null {
        return Fail(NullDereference);
      }
      var known1 := p1.user.token in users;
      if known1 {
        p1.user := users[p1.user.token];
      }
      var p2 := game.player2;
      if p2 == null {
        return Fail(NullDereference);
      }
      var known2 := p2.user.token in users;
      if known2 {
        p2.user := users[p2.user.token];
      }
      if !known1 || !known2 {
        return Fail(UnknownUser);
      }
      var startP1 := TextFrame(StartMessage(game.id, p2.user.name));
      var startP2 := TextFrame(StartMessage(game.id, p1.user.name));
      started := true;
      SendMessage(p1, startP1);
      SendMessage(p2, startP2);
      outcome := Pass;
    }

    /** The whole effect of routing the found game's response `r`, from
        the state before to the state after: the frames of RouteFrames are
        written; a broadcast that ends a game which cannot be settled fails
        there with the response still the interpreter's text; otherwise the
        data part is the answer, and a full game on a server that has not
        started one is started, its start messages after the routed frames.
        The Elo pair of a settled game is recorded. The seats stay the same,
        and their users change only when the game is started. */
    twostate predicate Routed(client: Client, response: string, r: Response, game: Game,
                              users: map<string, User>, scores: (int, int),
                              new outcome: Outcome<ServerError>, responseOut: string)
      reads this, game, game.player1, game.player2
    {
      var fails := BroadcastFails(r, game);
      var starts := !fails && game.IsFull() && !old(started);
      && game.player1 == old(game.player1) && game.player2 == old(game.player2)
      && responseOut == (if fails then response else r.data)
      && eloUpdates == old(eloUpdates) + old(SettledPair(r, game, scores))
      && sent == old(sent) + RouteFrames(client, r, game, scores)
                 + (if starts && outcome.Pass? then StartDeliveries(game) else [])
      && (!starts ==>
            && outcome == (if fails then Fail(NullDereference) else Pass)
            && started == old(started)
            && (game.player1 != null ==> game.player1.user == old(game.player1.user))
            && (game.player2 != null ==> game.player2.user == old(game.player2.user)))
      && (starts ==>
            && (outcome.Pass? <==> old(game.player1.user.token) in users && old(game.player2.user.token) in users)
            && (outcome.Fail? ==> outcome == Fail(UnknownUser) && started == old(started))
            && (outcome.Pass? ==> started)
            && game.player1.user == Reloaded(users, old(game.player1.user))
            && game.player2.user == Reloaded(users, old(game.player2.user)))
    }

    /** Routes the interpreter's `response` for `client`: "Send" to the
        client only, "Broadcast" to both seats of the game it names (settling
        the game if it ended), any other kind to nobody; answers the data
        part; then starts the game when it is full and the server has not
        started one. A response that cannot be split or names no game fails
        before anything changes, with the response still the interpreter's
        text. */
    method TreatMessage(client: Client, response: string, games: map<int, Game>,
                        users: map<string, User>, scores: (int, int))
      returns (outcome: Outcome<ServerError>, responseOut: string)
      requires UsersByToken(users)
      modifies this`started, this`sent, this`eloUpdates, Seats(games)
      ensures ParseResponse(response).Failure? ==>
        outcome == Fail(ParseResponse(response).error) && responseOut == response
      ensures ParseResponse(response).Success? && ParseResponse(response).value.gameId !in games ==>
        outcome == Fail(UnknownGame) && responseOut == response
      ensures ParseResponse(response).Failure? || ParseResponse(response).value.gameId !in games ==>
        && sent == old(sent) && started == old(started) && eloUpdates == old(eloUpdates)
        && forall g :: g in games.Values ==>
             && (g.player1 != null ==> g.player1.user == old(g.player1.user))
             && (g.player2 != null ==> g.player2.user == old(g.player2.user))
      ensures ParseResponse(response).Success? && ParseResponse(response).value.gameId in games ==>
        var r := ParseResponse(response).value;
        Routed(client, response, r, games[r.gameId], users, scores, outcome, responseOut)
    {
      responseOut := response;
      var parsed := ParseResponse(response);
      if parsed.Failure? {
        return Fail(parsed.error), responseOut;
      }
      var r := parsed.value;
      if r.gameId !in games {
        return Fail(UnknownGame), responseOut;
      }
      var game := games[r.gameId];
      assert game in games.Values;
      outcome, responseOut := Route(client, response, r, game, users, scores);
    }

    /** The part of TreatMessage after the game is found. */
    method Route(client: Client, response: string, r: Response, game: Game,
                 users: map<string, User>, scores: (int, int))
      returns (outcome: Outcome<ServerError>, responseOut: string)
      requires UsersByToken(users)
      modifies this`started, this`sent, this`eloUpdates, game.player1, game.player2
      ensures Routed(client, response, r, game, users, scores, outcome, responseOut)
    {
      responseOut := response;
      outcome := Dispatch(client, r, game, scores);
      if outcome.Fail? {
        return;
      }
      responseOut := r.data;
      if game.IsFull() && !started {
        outcome := StartGame(game, users);
      }
    }

    /** Sends the frames of a "Send" or "Broadcast" response, settling the
        game when a broadcast ends it. */
    method Dispatch(client: Client, r: Response, game: Game, scores: (int, int))
      returns (outcome: Outcome<ServerError>)
      modifies this`sent, this`eloUpdates
      ensures outcome == (if BroadcastFails(r, game) then Fail(NullDereference) else Pass)
      ensures sent == old(sent) + RouteFrames(client, r, game, scores)
      ensures eloUpdates == old(eloUpdates) + SettledPair(r, game, scores)
    {
      var frame := TextFrame(r.data);
      outcome := Pass;
      if r.kind == "Send" {
        SendMessage(client, frame);
      } else if r.kind == "Broadcast" {
        outcome := BroadcastMessage(game, frame, scores);
      }
    }

    /** Empties every seat `client` holds across the registry (the first
        seat when it is there, otherwise the second), sends it a close frame
        with `code`, ends the communication and clears the server's started
        flag. Games stay registered; nothing else in them changes. Each id
        names its own game, as game creation keeps it. */
    method DisconnectClient(client: Client, games: map<int, Game>, code: int) returns (endOfCommunication: bool)
      requires Registry.DistinctGames(games)
      modifies this`started, this`sent, games.Values`player1, games.Values`player2
      ensures endOfCommunication && !started
      ensures sent == old(sent) + [Delivery(client, CloseFrame(code))]
      ensures forall k :: k in games ==>
        && games[k].player1 == (if old(games[k].player1) == client then null else old(games[k].player1))
        && games[k].player2 == (if old(games[k].player1) != client && old(games[k].player2) == client then null else old(games[k].player2))
      ensures forall k :: k in games ==>
        && games[k].currentTurn == old(games[k].currentTurn) && games[k].started == old(games[k].started)
        && games[k].forwarded == old(games[k].forwarded) && games[k].hasTimerManager == old(games[k].hasTimerManager)
    {
      var remaining: set<int> := games.Keys;
      while |remaining| > 0
        invariant remaining <= games.Keys
        invariant forall k :: k in games && k !in remaining ==>
          && games[k].player1 == (if old(games[k].player1) == client then null else old(games[k].player1))
          && games[k].player2 == (if old(games[k].player1) != client && old(games[k].player2) == client then null else old(games[k].player2))
        invariant forall k :: k in remaining ==>
          games[k].player1 == old(games[k].player1) && games[k].player2 == old(games[k].player2)
        invariant sent == old(sent) && started == old(started)
        decreases |remaining|
      {
        EmptyWithoutMembers(remaining);
        var id :| id in remaining;
        var game := games[id];
        if game.player1 == client {
          game.player1 := null;
        } else if game.player2 == client {
          game.player2 := null;
        }
        remaining := remaining - {id};
      }
      SendMessage(client, CloseFrame(code));
      endOfCommunication := true;
      started := false;
    }
  }

  /** A "Send" response for a game with both seats empty reaches the
      invoking client only, with the data part, and requests no Elo update. */
  method SendScenario(client: Client, data: string, id: int)
    returns (sent: seq<Delivery>, eloUpdates: seq<(User, User)>)
    ensures sent == [Delivery(client, TextFrame(data))] && eloUpdates == []
  {
    var server := new Server();
    var game := new Game(9, "c", 0);
    var r := Response("Send", data, id);
    SendRouting(client, r, game, (0, 0));
    var _, _ := server.Route(client, "Send_" + data, r, game, map[], (0, 0));
    SendRouting(client, r, game, (0, 0));
    sent, eloUpdates := server.sent, server.eloUpdates;
  }

  /** With the first seat's token unknown and the second's known, the
      second seat's user is still replaced before the start fails, and
      nothing is sent. */
  method UnknownFirstTokenScenario(p1: Client, p2: Client, known: User)
    returns (outcome: Outcome<ServerError>, second: User, sent: seq<Delivery>)
    requires p1 != p2 && p1.user.token != known.token && p2.user.token == known.token
    modifies p1, p2
    ensures outcome == Fail(UnknownUser) && second == known && sent == []
  {
    var server := new Server();
    var game := new Game(9, "c", 0);
    game.AddPlayer(p1);
    game.AddPlayer(p2);
    outcome := server.StartGame(game, map[known.token := known]);
    second, sent := p2.user, server.sent;
  }
}
