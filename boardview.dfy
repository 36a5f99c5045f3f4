/** The board snapshot as the clients paint it: the live grid and the replay
    screen both split the snapshot into lines, ignore the header line, read
    each other line as "x,y,colour", and restyle the stone element whose id
    is "x-y". The page's stone elements are a map from element id to the
    inline style the decoders write. */
module BoardView {
  import opened Wrappers
  import opened Text
  import opened Goban

  /** The inline style properties the decoders write on a stone element. */
  datatype Style = Style(background: string, border: string, borderRadius: string, boxSizing: string)

  /** The colour map: the fill for a stone colour name, none for any other
      name (the ko marker included). */
  function ColorFill(name: string): (r: Option<string>)
    ensures r.Some? <==> name in {"White", "Black", "Empty"}
  {
    if name == "White" then Some("white")
    else if name == "Black" then Some("black")
    else if name == "Empty" then Some("transparent")
    else None
  }

  /** The round stone look every decoded cell gets back first. */
  function DiscardKo(s: Style): (r: Style)
    ensures r.border == "none" && r.borderRadius == "50%"
    ensures r.background == s.background && r.boxSizing == s.boxSizing
  {
    s.(border := "none", borderRadius := "50%")
  }

  /** The ko marker: a square red outline on an empty intersection. */
  function DrawKo(s: Style): (r: Style)
    ensures r.borderRadius == "0" && r.border == "5px solid #A7001E"
    ensures r.boxSizing == "border-box" && r.background == "transparent"
  {
    s.(borderRadius := "0", border := "5px solid #A7001E", boxSizing := "border-box", background := "transparent")
  }

  /** The id of the stone element at column text `x` and row text `y`. */
  function CellId(x: string, y: string): string
  {
    x + "-" + y
  }

  /** The cells after decoding, and whether decoding got to the end (false:
      a TypeError on a missing element stopped it). */
  datatype Applied = Applied(cells: map<string, Style>, ok: bool)

  /** One line "x,y,colour": the cell loses any ko marker, then takes the
      colour's fill, or the ko marker for "Ko"; any other colour leaves the
      fill. Missing fields read as "undefined". A missing element is skipped
      by the ko reset but is a TypeError once a fill or the marker is due. */
  function ApplyLine(cells: map<string, Style>, line: string): (r: Applied)
    ensures r.cells.Keys == cells.Keys
    ensures var parts := Split(line, ",");
      var id, color := CellId(Field(parts, 0), Field(parts, 1)), Field(parts, 2);
      && (r.ok <==> id in cells || (ColorFill(color).None? && color != "Ko"))
      && (forall other :: other in cells && other != id ==> r.cells[other] == cells[other])
      && (id in cells && ColorFill(color).Some? ==> r.cells[id] == DiscardKo(cells[id]).(background := ColorFill(color).value))
      && (id in cells && color == "Ko" ==> r.cells[id] == DrawKo(DiscardKo(cells[id])))
      && (id in cells && ColorFill(color).None? && color != "Ko" ==> r.cells[id] == DiscardKo(cells[id]))
  {
    var parts := Split(line, ",");
    var id, color := CellId(Field(parts, 0), Field(parts, 1)), Field(parts, 2);
    if id !in cells then Applied(cells, ColorFill(color).None? && color != "Ko")
    else
      var cleared := DiscardKo(cells[id]);
      match ColorFill(color)
        case Some(fill) => Applied(cells[id := cleared.(background := fill)], true)
        case None => Applied(cells[id := if color == "Ko" then DrawKo(cleared) else cleared], true)
  }

  /** The lines applied in order; the first failing line stops the rest. */
  function ApplyLines(cells: map<string, Style>, lines: seq<string>): (r: Applied)
    ensures r.cells.Keys == cells.Keys
    decreases |lines|
  {
    if |lines| == 0 then Applied(cells, true)
    else
      var before := ApplyLines(cells, lines[..|lines| - 1]);
      if !before.ok then before else ApplyLine(before.cells, lines[|lines| - 1])
  }

  /** One more line: applied when every earlier line was. */
  lemma ApplyLinesSnoc(cells: map<string, Style>, lines: seq<string>, line: string)
    ensures ApplyLines(cells, lines + [line]) ==
      if ApplyLines(cells, lines).ok then ApplyLine(ApplyLines(cells, lines).cells, line) else ApplyLines(cells, lines)
  {
    assert (lines + [line])[..|lines|] == lines;
  }

  /** Line `i` of the decoder's loop extends the lines applied so far. */
  lemma DecodeStep(cells: map<string, Style>, lines: seq<string>, i: nat)
    requires 1 <= i < |lines|
    ensures ApplyLines(cells, lines[1..i + 1]) ==
      if ApplyLines(cells, lines[1..i]).ok then ApplyLine(ApplyLines(cells, lines[1..i]).cells, lines[i])
      else ApplyLines(cells, lines[1..i])
  {
    assert lines[1..i + 1] == lines[1..i] + [lines[i]];
    ApplyLinesSnoc(cells, lines[1..i], lines[i]);
  }

  /** When line `i` fails, the decoder's result is final. */
  lemma DecodeStops(cells: map<string, Style>, lines: seq<string>, i: nat)
    requires 1 <= i < |lines| && !ApplyLines(cells, lines[1..i + 1]).ok
    ensures ApplyLines(cells, lines[1..]) == ApplyLines(cells, lines[1..i + 1])
  {
    assert lines[1..] == lines[1..i + 1] + lines[i + 1..];
    ApplyLinesStop(cells, lines[1..i + 1], lines[i + 1..]);
  }

  /** A snapshot decoded with line separator `sep`: its header line is skipped. */
  function DecodeSnapshot(cells: map<string, Style>, board: string, sep: string): (r: Applied)
    requires |sep| > 0
    ensures r.cells.Keys == cells.Keys
  {
    ApplyLines(cells, Split(board, sep)[1..])
  }

  /** A snapshot that stops on a missing cell keeps what it painted before it:
      nothing after the failing line is applied. */
  lemma {:induction false} ApplyLinesStop(cells: map<string, Style>, lines: seq<string>, more: seq<string>)
    requires !ApplyLines(cells, lines).ok
    ensures ApplyLines(cells, lines + more) == ApplyLines(cells, lines)
    decreases |more|
  {
    var all := lines + more;
    if |more| == 0 {
      assert all == lines;
    } else {
      assert all[..|all| - 1] == lines + more[..|more| - 1];
      ApplyLinesStop(cells, lines, more[..|more| - 1]);
      assert ApplyLines(cells, all) == ApplyLines(cells, all[..|all| - 1]);
    }
  }

  // ---------------------------------------------------------------------
  // Reference encoder: the snapshot format the decoders expect
  // ---------------------------------------------------------------------

  /** What a snapshot line can say about an intersection. */
  datatype Mark = Colored(color: StoneColor) | KoMark

  function MarkName(m: Mark): string
  {
    match m
      case Colored(c) => (match c case White => "White" case Black => "Black" case Empty => "Empty")
      case KoMark => "Ko"
  }

  /** The fill the colour map gives each stone colour. */
  function Fill(c: StoneColor): string
  {
    match c
      case White => "white"
      case Black => "black"
      case Empty => "transparent"
  }

  /** An intersection of a snapshot and what it shows. */
  datatype Placed = Placed(x: nat, y: nat, mark: Mark)

  function IdOf(p: Placed): string
  {
    CellId(NatToString(p.x), NatToString(p.y))
  }

  function LineOf(p: Placed): string
  {
    NatToString(p.x) + "," + NatToString(p.y) + "," + MarkName(p.mark)
  }

  function Lines(placed: seq<Placed>): (r: seq<string>)
    ensures |r| == |placed|
    ensures forall i :: 0 <= i < |placed| ==> r[i] == LineOf(placed[i])
  {
    seq(|placed|, i requires 0 <= i < |placed| => LineOf(placed[i]))
  }

  /** A snapshot: a header line, then one line per placed intersection. */
  function EncodeSnapshot(header: string, placed: seq<Placed>, sep: string): string
  {
    Join([header] + Lines(placed), sep)
  }

  /** The style a decoded mark gives a cell. */
  function Painted(s: Style, m: Mark): Style
  {
    match m
      case Colored(c) => DiscardKo(s).(background := Fill(c))
      case KoMark => DrawKo(DiscardKo(s))
  }

  predicate AllPresent(cells: map<string, Style>, placed: seq<Placed>)
  {
    forall i :: 0 <= i < |placed| ==> IdOf(placed[i]) in cells
  }

  /** Every intersection painted in turn. */
  function PaintAll(cells: map<string, Style>, placed: seq<Placed>): (r: map<string, Style>)
    requires AllPresent(cells, placed)
    ensures r.Keys == cells.Keys
    decreases |placed|
  {
    if |placed| == 0 then cells
    else
      var before := PaintAll(cells, placed[..|placed| - 1]);
      var p := placed[|placed| - 1];
      before[IdOf(p) := Painted(before[IdOf(p)], p.mark)]
  }

  /** The colour map agrees with the stone colours' names; "Ko" has no fill. */
  lemma ColorFillOfNames(c: StoneColor)
    ensures ColorFill(MarkName(Colored(c))) == Some(Fill(c))
    ensures ColorFill(MarkName(KoMark)) == None
  {
  }

  lemma NoCommaInNames(m: Mark, x: nat)
    ensures ',' !in MarkName(m) && ',' !in NatToString(x)
  {
  }

  /** A line of the reference encoder splits into its three fields. */
  lemma SplitLineOf(p: Placed)
    ensures Split(LineOf(p), ",") == [NatToString(p.x), NatToString(p.y), MarkName(p.mark)]
  {
    var xs, ys, name := NatToString(p.x), NatToString(p.y), MarkName(p.mark);
    NoCommaInNames(p.mark, p.x);
    NoCommaInNames(p.mark, p.y);
    JoinPair(ys, name, ",");
    assert [xs, ys, name][1..] == [ys, name];
    assert Join([xs, ys, name], ",") == LineOf(p);
    SplitJoin([xs, ys, name], ",");
  }

  /** A line of the reference encoder paints exactly its cell. */
  lemma ApplyLineOfPlaced(cells: map<string, Style>, p: Placed)
    requires IdOf(p) in cells
    ensures ApplyLine(cells, LineOf(p)) == Applied(cells[IdOf(p) := Painted(cells[IdOf(p)], p.mark)], true)
  {
    SplitLineOf(p);
    var parts := Split(LineOf(p), ",");
    assert Field(parts, 0) == NatToString(p.x) && Field(parts, 1) == NatToString(p.y);
    assert Field(parts, 2) == MarkName(p.mark);
    match p.mark
      case Colored(c) => ColorFillOfNames(c);
      case KoMark =>
  }

  /** The lines of the reference encoder are all applied. */
  lemma {:induction false} ApplyLinesOfPlaced(cells: map<string, Style>, placed: seq<Placed>)
    requires AllPresent(cells, placed)
    ensures ApplyLines(cells, Lines(placed)) == Applied(PaintAll(cells, placed), true)
    decreases |placed|
  {
    if |placed| > 0 {
      var prefix := placed[..|placed| - 1];
      assert Lines(placed)[..|placed| - 1] == Lines(prefix);
      ApplyLinesOfPlaced(cells, prefix);
      ApplyLineOfPlaced(PaintAll(cells, prefix), placed[|placed| - 1]);
    }
  }

  /** Distinct coordinates have distinct element ids. */
  lemma IdOfInjective(p: Placed, q: Placed)
    requires IdOf(p) == IdOf(q)
    ensures p.x == q.x && p.y == q.y
  {
    NotInNatToString(p.x, '-'); NotInNatToString(p.y, '-');
    NotInNatToString(q.x, '-'); NotInNatToString(q.y, '-');
    SplitPair(NatToString(p.x), NatToString(p.y), "-");
    SplitPair(NatToString(q.x), NatToString(q.y), "-");
    ParseNatOfNatToString(p.x); ParseNatOfNatToString(q.x);
    ParseNatOfNatToString(p.y); ParseNatOfNatToString(q.y);
  }

  predicate DistinctCoordinates(placed: seq<Placed>)
  {
    forall i, j :: 0 <= i < j < |placed| ==> (placed[i].x, placed[i].y) != (placed[j].x, placed[j].y)
  }

  /** A cell no intersection names keeps its style. */
  lemma {:induction false} PaintAllOther(cells: map<string, Style>, placed: seq<Placed>, id: string)
    requires AllPresent(cells, placed) && id in cells
    requires forall i :: 0 <= i < |placed| ==> IdOf(placed[i]) != id
    ensures PaintAll(cells, placed)[id] == cells[id]
    decreases |placed|
  {
    if |placed| > 0 {
      PaintAllOther(cells, placed[..|placed| - 1], id);
    }
  }

  /** With distinct coordinates, the cell of intersection `i` shows its own
      mark over its old style. */
  lemma {:induction false} PaintAllAt(cells: map<string, Style>, placed: seq<Placed>, i: nat)
    requires AllPresent(cells, placed) && DistinctCoordinates(placed) && i < |placed|
    ensures PaintAll(cells, placed)[IdOf(placed[i])] == Painted(cells[IdOf(placed[i])], placed[i].mark)
    decreases |placed|
  {
    var n := |placed| - 1;
    var prefix := placed[..n];
    if i == n {
      forall j | 0 <= j < n
        ensures IdOf(prefix[j]) != IdOf(placed[n])
      {
        if IdOf(placed[j]) == IdOf(placed[n]) {
          IdOfInjective(placed[j], placed[n]);
        }
      }
      PaintAllOther(cells, prefix, IdOf(placed[n]));
    } else {
      if IdOf(placed[i]) == IdOf(placed[n]) {
        IdOfInjective(placed[i], placed[n]);
      }
      PaintAllAt(cells, prefix, i);
    }
  }

  /** With distinct coordinates, each intersection's cell shows its own mark
      over its old style, and every other cell keeps its style. */
  lemma PaintAllEffect(cells: map<string, Style>, placed: seq<Placed>)
    requires AllPresent(cells, placed) && DistinctCoordinates(placed)
    ensures forall i :: 0 <= i < |placed| ==>
      PaintAll(cells, placed)[IdOf(placed[i])] == Painted(cells[IdOf(placed[i])], placed[i].mark)
    ensures forall id :: id in cells && (forall i :: 0 <= i < |placed| ==> IdOf(placed[i]) != id) ==>
      PaintAll(cells, placed)[id] == cells[id]
  {
    forall i | 0 <= i < |placed|
      ensures PaintAll(cells, placed)[IdOf(placed[i])] == Painted(cells[IdOf(placed[i])], placed[i].mark)
    {
      PaintAllAt(cells, placed, i);
    }
    forall id | id in cells && (forall i :: 0 <= i < |placed| ==> IdOf(placed[i]) != id)
      ensures PaintAll(cells, placed)[id] == cells[id]
    {
      PaintAllOther(cells, placed, id);
    }
  }

  /** The lines of a snapshot hold no separator character. */
  lemma NoSeparatorInLines(placed: seq<Placed>, sep: string)
    requires sep == "\r\n" || sep == "!"
    ensures forall i :: 0 <= i < |placed| ==> sep[0] !in Lines(placed)[i]
  {
    forall i | 0 <= i < |placed| ensures sep[0] !in Lines(placed)[i] {
      var p := placed[i];
      assert sep[0] !in NatToString(p.x) && sep[0] !in NatToString(p.y) && sep[0] !in MarkName(p.mark);
      assert Lines(placed)[i] == NatToString(p.x) + "," + NatToString(p.y) + "," + MarkName(p.mark);
    }
  }

  /** Decoding a snapshot of distinct, present intersections paints each of
      them with its mark and leaves every other cell as it was, whether the
      lines are separated by "\r\n" (live grid) or "!" (replay). */
  lemma DecodeEncoded(cells: map<string, Style>, header: string, placed: seq<Placed>, sep: string)
    requires sep == "\r\n" || sep == "!"
    requires sep[0] !in header
    requires AllPresent(cells, placed) && DistinctCoordinates(placed)
    ensures DecodeSnapshot(cells, EncodeSnapshot(header, placed, sep), sep) == Applied(PaintAll(cells, placed), true)
    ensures forall i :: 0 <= i < |placed| ==>
      PaintAll(cells, placed)[IdOf(placed[i])] == Painted(cells[IdOf(placed[i])], placed[i].mark)
    ensures forall id :: id in cells && (forall i :: 0 <= i < |placed| ==> IdOf(placed[i]) != id) ==>
      PaintAll(cells, placed)[id] == cells[id]
  {
    var pieces := [header] + Lines(placed);
    NoSeparatorInLines(placed, sep);
    assert forall i :: 0 <= i < |pieces| ==> sep[0] !in pieces[i] by {
      forall i | 0 <= i < |pieces| ensures sep[0] !in pieces[i] {
        if i > 0 { assert pieces[i] == Lines(placed)[i - 1]; }
      }
    }
    SplitJoin(pieces, sep);
    assert Split(EncodeSnapshot(header, placed, sep), sep)[1..] == Lines(placed);
    ApplyLinesOfPlaced(cells, placed);
    PaintAllEffect(cells, placed);
  }

  /** The page's stone elements, restyled in place by the decoders. */
  class StoneCells {
    var styles: map<string, Style>

    constructor (styles: map<string, Style>)
      ensures this.styles == styles
    {
      this.styles := styles;
    }

    /** Restyles the element one "x,y,colour" line names (the decoders' loop
        body: discardKo, then the fill or drawKo). */
    method PaintLine(line: string) returns (ok: bool)
      modifies this
      ensures Applied(styles, ok) == ApplyLine(old(styles), line)
    {
      var stoneData := Split(line, ",");
      var x, y, color := Field(stoneData, 0), Field(stoneData, 1), Field(stoneData, 2);
      var id := CellId(x, y);
      if id in styles {
        styles := styles[id := DiscardKo(styles[id])];
      }
      var fill := ColorFill(color);
      if fill.Some? {
        if id !in styles { return false; }
        styles := styles[id := styles[id].(background := fill.value)];
      } else if color == "Ko" {
        if id !in styles { return false; }
        styles := styles[id := DrawKo(styles[id])];
      }
      ok := true;
    }

    /** Splits `board` on `sep` and paints lines 1.. in order, stopping at
        the first TypeError. */
    method Decode(board: string, sep: string) returns (ok: bool)
      requires |sep| > 0
      modifies this
      ensures Applied(styles, ok) == DecodeSnapshot(old(styles), board, sep)
    {
      var lines := Split(board, sep);
      ghost var initial := styles;
      ok := true;
      var i := 1;
      while i < |lines|
        invariant 1 <= i <= |lines|
        invariant Applied(styles, true) == ApplyLines(initial, lines[1..i])
      {
        DecodeStep(initial, lines, i);
        ok := PaintLine(lines[i]);
        if !ok {
          DecodeStops(initial, lines, i);
          return;
        }
        i := i + 1;
      }
      assert lines[1..i] == lines[1..];
    }
  }
}
