/** The live game grid (GridComponent): the clocks as minutes and seconds,
    the capture counters seen from the player's side, the board snapshot,
    and the size the template lays the intersections out from. */
module Grid {
  import opened Wrappers
  import opened Text
  import opened BoardView

  /** Math.trunc(a / b): the quotient rounded toward zero. */
  function TruncQuotient(a: int, b: int): int
    requires b > 0
  {
    if a >= 0 then a / b else -((-a) / b)
  }

  /** JavaScript's % on integers: the remainder takes the dividend's sign.
      It is what is left of the dividend once the quotient rounded toward
      zero is taken off, so it lies strictly between -b and b, on the
      dividend's side of zero. */
  function JsRem(a: int, b: int): (r: int)
    requires b > 0
    ensures r == a - b * TruncQuotient(a, b)
    ensures a >= 0 ==> 0 <= r < b
    ensures a < 0 ==> -b < r <= 0
    ensures a >= 0 ==> r == a % b
  {
    if a >= 0 then a % b else -((-a) % b)
  }

  /** A number of milliseconds as "MM:SS": whole seconds (rounded down),
      whole minutes of those, the seconds left over, each written in decimal
      and padded with '0' to two characters. NaN gives "NaN:NaN". */
  function TimerText(ms: Num): (r: string)
    ensures r == "NaN:NaN" <==> ms.NaN?
  {
    match ms
      case NaN => "NaN:NaN"
      case Int(v) =>
        var totalSeconds := v / 1000;   // Math.floor(ms / 1000): Dafny's / rounds down for a positive divisor
        var minutes := totalSeconds / 60;
        var seconds := JsRem(totalSeconds, 60);
        var text := PadStart(IntToString(minutes), 2, '0') + ":" + PadStart(IntToString(seconds), 2, '0');
        PaddedIntLead(minutes);
        assert text[0] == PadStart(IntToString(minutes), 2, '0')[0] && "NaN:NaN"[0] == 'N';
        text
  }

  /** A zero-padded integer starts with a digit or a minus sign. */
  lemma PaddedIntLead(i: int)
    ensures var p := PadStart(IntToString(i), 2, '0'); |p| >= 2 && (IsDigit(p[0]) || p[0] == '-')
  {
    var s := IntToString(i);
    var p := PadStart(s, 2, '0');
    if |s| >= 2 {
      assert p == s && s[0] in s;
      IntToStringChars(i, s[0]);
    }
  }

  /** msToTimer: the text of a millisecond count through Number(); the
      "NaN:NaN" text exactly when the count is no number. */
  function MsToTimer(ms: string): (r: string)
    ensures r == "NaN:NaN" <==> NumberOf(ms).NaN?
  {
    TimerText(NumberOf(ms))
  }

  /** Two-digit zero padding of a natural number reads back as that number. */
  lemma PaddedReadsBack(n: nat)
    ensures ParseNat(PadStart(NatToString(n), 2, '0')) == Some(n)
    ensures ':' !in PadStart(NatToString(n), 2, '0')
  {
    PaddedDigits(NatToString(n));
    DigitsValueOfNatToString(n);
  }

  /** A zero-padded digit string is a digit string of the same value. */
  lemma PaddedDigits(s: string)
    requires AllDigits(s)
    ensures ParseNat(PadStart(s, 2, '0')) == Some(DigitsValue(s))
    ensures ':' !in PadStart(s, 2, '0')
  {
    var p := PadStart(s, 2, '0');
    PadStartZerosKeepsValue(s, 2);
    assert |p| >= 2;
  }

  /** The timer of a non-negative count is minutes, a colon and seconds: the
      minutes are the whole minutes of the whole seconds (at least two
      digits, more for an hour and a half or longer), the seconds the rest,
      always below 60 and written with exactly two digits. */
  lemma MsToTimerParts(ms: nat)
    ensures var parts := Split(MsToTimer(IntToString(ms)), ":");
      && |parts| == 2
      && ParseNat(parts[0]) == Some(ms / 1000 / 60) && |parts[0]| >= 2
      && ParseNat(parts[1]) == Some(ms / 1000 % 60) && |parts[1]| == 2
      && ms / 1000 % 60 < 60
  {
    NumberOfIntToString(ms);
    var minutes, seconds := ms / 1000 / 60, ms / 1000 % 60;
    PaddedReadsBack(minutes);
    PaddedReadsBack(seconds);
    ShortNatToString(seconds);
    SplitPair(PadStart(NatToString(minutes), 2, '0'), PadStart(NatToString(seconds), 2, '0'), ":");
  }

  /** Less than a second shows "00:00". */
  lemma UnderOneSecond(ms: nat)
    requires ms < 1000
    ensures MsToTimer(IntToString(ms)) == "00:00"
  {
    NumberOfIntToString(ms);
    ZeroTimer(ms);
  }

  lemma ZeroTimer(v: int)
    requires 0 <= v < 1000
    ensures TimerText(Int(v)) == "00:00"
  {
    assert v / 1000 == 0 / 1000;
    SameSeconds(v, 0);
    TimerOfZero();
  }

  lemma TimerOfZero()
    ensures TimerText(Int(0)) == "00:00"
  {
    assert 0 / 1000 == 0 && 0 / 60 == 0 && JsRem(0, 60) == 0;
    ZeroText();
    PaddedZero();
  }

  lemma ZeroText()
    ensures IntToString(0) == "0"
  {
  }

  lemma PaddedZero()
    ensures PadStart("0", 2, '0') == "00"
  {
  }

  /** The timer only depends on the whole seconds. */
  lemma SameSeconds(v: int, w: int)
    requires v / 1000 == w / 1000
    ensures TimerText(Int(v)) == TimerText(Int(w))
  {
  }

  /** The timer of a count whose minutes and seconds are known. */
  lemma TimerOfParts(v: int, minutes: int, seconds: int)
    requires v / 1000 / 60 == minutes && JsRem(v / 1000, 60) == seconds
    ensures TimerText(Int(v)) == PadStart(IntToString(minutes), 2, '0') + ":" + PadStart(IntToString(seconds), 2, '0')
  {
  }

  lemma HundredText()
    ensures PadStart(IntToString(100), 2, '0') + ":" + PadStart(IntToString(0), 2, '0') == "100:00"
  {
    assert NatToString(10) == "10";
    assert IntToString(100) == "100";
    ZeroText();
    PaddedZero();
  }

  lemma NegativeParts()
    ensures -61000 / 1000 / 60 == -2 && JsRem(-61000 / 1000, 60) == -1
  {
    assert -61000 / 1000 == -61;
    assert -61 / 60 == -2;
  }

  lemma NegativeTexts()
    ensures PadStart(IntToString(-2), 2, '0') + ":" + PadStart(IntToString(-1), 2, '0') == "-2:-1"
  {
    assert IntToString(-2) == "-2" && IntToString(-1) == "-1";
    assert PadStart("-2", 2, '0') == "-2" && PadStart("-1", 2, '0') == "-1";
  }

  /** The minutes are not cut to two digits: 100 minutes show as "100:00". */
  lemma HundredMinutes()
    ensures TimerText(Int(6000000)) == "100:00"
  {
    assert 6000000 / 1000 == 6000 && 6000 / 60 == 100 && JsRem(6000, 60) == 0;
    TimerOfParts(6000000, 100, 0);
    HundredText();
  }

  /** Under JavaScript's %, a negative count keeps a negative remainder:
      -61 seconds show as "-2:-1". */
  lemma NegativeCount()
    ensures TimerText(Int(-61000)) == "-2:-1"
  {
    NegativeParts();
    TimerOfParts(-61000, -2, -1);
    NegativeTexts();
  }

  /** A text that is no number shows "NaN:NaN". */
  lemma NotANumber()
    ensures MsToTimer("1:00") == "NaN:NaN"
  {
    assert !IsDigit("1:00"[1]);
  }

  /** The two capture counts from "{a};{b}" for a player of colour
      `playerColor`: a black player's own count is field 1 and the
      opponent's field 0, swapped for any other colour; a missing field
      reads "undefined". */
  function CaptureFields(captures: string, playerColor: string): (r: (string, string))
    ensures ';' !in r.0 && ';' !in r.1
  {
    SplitPiecesLack(captures, ';');
    var parts := Split(captures, ";");
    if playerColor == "black" then (Field(parts, 1), Field(parts, 0)) else (Field(parts, 0), Field(parts, 1))
  }

  /** With the counts written as "{black};{white}", the black player is shown
      the second count and the white player the first, and each side's is
      the other side's opponent count. */
  lemma CaptureFieldsRoundTrip(black: int, white: int, playerColor: string)
    ensures var r := CaptureFields(IntToString(black) + ";" + IntToString(white), playerColor);
      && (playerColor == "black" ==> r == (IntToString(white), IntToString(black)))
      && (playerColor != "black" ==> r == (IntToString(black), IntToString(white)))
  {
    if ';' in IntToString(black) { IntToStringChars(black, ';'); }
    if ';' in IntToString(white) { IntToStringChars(white, ';'); }
    SplitPair(IntToString(black), IntToString(white), ";");
  }

  /** A captures text without ";" has no second field. */
  lemma CaptureFieldsWithoutSeparator(captures: string)
    requires ';' !in captures
    ensures CaptureFields(captures, "black") == ("undefined", captures)
  {
    IndexOfFree(captures, ";");
  }

  class GridView {
    /** The size route parameter through Number(). */
    var size: Num
    /** The intersections of the page. */
    const stones: StoneCells
    var playerCapturesText: string
    var opponentCapturesText: string
    var playerTimerText: string
    var opponentTimerText: string

    constructor (stones: StoneCells)
      ensures this.stones == stones && size == Int(0)
    {
      this.stones := stones;
      size := Int(0);
      playerCapturesText, opponentCapturesText := "", "";
      playerTimerText, opponentTimerText := "", "";
    }

    /** Reads the size from the route (ngOnInit). */
    method OnInit(sizeParam: string)
      modifies this`size
      ensures size == NumberOf(sizeParam)
    {
      size := NumberOf(sizeParam);
    }

    /** The largest coordinate: one below the size, NaN for a size that
        is no number. */
    function GetSize(): (r: Num)
      reads this
      ensures r.NaN? <==> size.NaN?
      ensures size.Int? ==> r == Int(size.value - 1)
    {
      NumAdd(size, -1)
    }

    /** Writes both clocks from the two players' millisecond counts. */
    method UpdateTimers(playerMs: int, opponentMs: int)
      modifies this`playerTimerText, this`opponentTimerText
      ensures playerTimerText == MsToTimer(IntToString(playerMs))
      ensures opponentTimerText == MsToTimer(IntToString(opponentMs))
    {
      playerTimerText := MsToTimer(IntToString(playerMs));
      opponentTimerText := MsToTimer(IntToString(opponentMs));
    }

    /** Writes both capture counters, "Prises : " and the count. */
    method UpdateCaptures(captures: string, playerColor: string)
      modifies this`playerCapturesText, this`opponentCapturesText
      ensures opponentCapturesText == "Prises : " + CaptureFields(captures, playerColor).1
      ensures playerCapturesText == "Prises : " + CaptureFields(captures, playerColor).0
    {
      var playerCaptures, opponentCaptures := CaptureFields(captures, playerColor).0, CaptureFields(captures, playerColor).1;
      opponentCapturesText := "Prises : " + opponentCaptures;
      playerCapturesText := "Prises : " + playerCaptures;
    }

    /** Decodes a "\r\n"-separated snapshot onto the page. */
    method UpdateBoard(board: string) returns (ok: bool)
      modifies stones
      ensures Applied(stones.styles, ok) == DecodeSnapshot(old(stones.styles), board, "\r\n")
    {
      ok := stones.Decode(board, "\r\n");
    }

    /** The observer callback: the clocks when their containers exist, the
        board when the page has its container, and the capture counters when
        theirs exist and the captures text is not empty. A TypeError while
        decoding the board ends the callback before the counters. The
        values the game reports are parameters. */
    method Update(timersShown: bool, boardShown: bool, capturesShown: bool,
                  playerMs: int, opponentMs: int, board: string, captures: string, playerColor: string)
      returns (ok: bool)
      modifies this`playerTimerText, this`opponentTimerText, this`playerCapturesText, this`opponentCapturesText, stones
      ensures timersShown ==> playerTimerText == MsToTimer(IntToString(playerMs)) && opponentTimerText == MsToTimer(IntToString(opponentMs))
      ensures !timersShown ==> playerTimerText == old(playerTimerText) && opponentTimerText == old(opponentTimerText)
      ensures boardShown ==> Applied(stones.styles, ok) == DecodeSnapshot(old(stones.styles), board, "\r\n")
      ensures !boardShown ==> ok && stones.styles == old(stones.styles)
      ensures ok && capturesShown && captures != "" ==>
        playerCapturesText == "Prises : " + CaptureFields(captures, playerColor).0 &&
        opponentCapturesText == "Prises : " + CaptureFields(captures, playerColor).1
      ensures !(ok && capturesShown && captures != "") ==>
        playerCapturesText == old(playerCapturesText) && opponentCapturesText == old(opponentCapturesText)
    {
      if timersShown {
        UpdateTimers(playerMs, opponentMs);
      }
      ok := true;
      if boardShown {
        ok := UpdateBoard(board);
        if !ok { return; }
      }
      if capturesShown && captures != "" {
        UpdateCaptures(captures, playerColor);
      }
    }
  }

  /** A 19-line board read from its route names coordinates 0 to 18. */
  method GetSizeScenario(stones: StoneCells) returns (largest: Num)
    ensures largest == Int(18)
  {
    var g := new GridView(stones);
    NumberOfIntToString(19);
    assert IntToString(19) == "19";
    g.OnInit("19");
    largest := g.GetSize();
  }
}
