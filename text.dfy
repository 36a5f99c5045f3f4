/** String handling shared by the server and the two client screens:
    splitting on a separator (C#'s String.Split and TypeScript's
    String.prototype.split keep every piece, empty ones included), decimal
    formatting of integers (Int32.ToString, Number.prototype.toString) and
    the parses that read it back (Convert.ToInt16/ToInt32, Number). */
module Text {
  import opened Wrappers

  // ---------------------------------------------------------------------
  // Searching and splitting
  // ---------------------------------------------------------------------

  /** `sep` occurs in `s` starting at index `k`. */
  predicate OccursAt(s: string, sep: string, k: int)
  {
    0 <= k && k + |sep| <= |s| && s[k..k + |sep|] == sep
  }

  lemma OccursAtTail(s: string, sep: string, k: int)
    requires |s| > 0 && 1 <= k
    ensures OccursAt(s, sep, k) <==> OccursAt(s[1..], sep, k - 1)
  {
    if k + |sep| <= |s| {
      assert s[k..k + |sep|] == s[1..][k - 1..k - 1 + |sep|];
    }
  }

  /** Index of the leftmost occurrence of `sep` in `s`, or -1 when there is none. */
  function IndexOf(s: string, sep: string): (k: int)
    requires |sep| > 0
    ensures k == -1 || OccursAt(s, sep, k)
    ensures forall j :: 0 <= j && (k == -1 || j < k) ==> !OccursAt(s, sep, j)
    decreases |s|
  {
    if |s| < |sep| then -1
    else if s[..|sep|] == sep then 0
    else
      var k := IndexOf(s[1..], sep);
      assert forall j :: 1 <= j ==> (OccursAt(s, sep, j) <==> OccursAt(s[1..], sep, j - 1)) by {
        forall j | 1 <= j ensures OccursAt(s, sep, j) <==> OccursAt(s[1..], sep, j - 1) {
          OccursAtTail(s, sep, j);
        }
      }
      assert !OccursAt(s, sep, 0) by { assert s[0..|sep|] == s[..|sep|]; }
      if k == -1 then -1 else k + 1
  }

  /** The pieces of `s` between the occurrences of `sep`, left to right. */
  function Split(s: string, sep: string): (parts: seq<string>)
    requires |sep| > 0
    ensures |parts| >= 1
    decreases |s|
  {
    var k := IndexOf(s, sep);
    if k == -1 then [s] else [s[..k]] + Split(s[k + |sep|..], sep)
  }

  /** The pieces glued back together with `sep` between neighbours. */
  function Join(parts: seq<string>, sep: string): string
    decreases |parts|
  {
    if |parts| == 0 then ""
    else if |parts| == 1 then parts[0]
    else parts[0] + sep + Join(parts[1..], sep)
  }

  /** The piece at index `i`, or "undefined" when there is none: the text an
      out-of-range index of a TypeScript array yields once interpolated into a
      string or used as a property key. */
  function Field(parts: seq<string>, i: nat): (r: string)
    ensures i < |parts| ==> r == parts[i]
    ensures i >= |parts| ==> r == "undefined"
  {
    if i < |parts| then parts[i] else "undefined"
  }

  /** Splitting loses nothing: gluing the pieces back yields the input. */
  lemma {:induction false} JoinSplit(s: string, sep: string)
    requires |sep| > 0
    ensures Join(Split(s, sep), sep) == s
    decreases |s|
  {
    var k := IndexOf(s, sep);
    if k != -1 {
      var head, rest := s[..k], s[k + |sep|..];
      assert s == head + sep + rest by {
        assert s[k..k + |sep|] == sep;
        assert s == s[..k] + s[k..k + |sep|] + s[k + |sep|..];
      }
      JoinSplit(rest, sep);
      var tail := Split(rest, sep);
      assert Split(s, sep) == [head] + tail;
      assert ([head] + tail)[1..] == tail;
      assert Join([head] + tail, sep) == head + sep + Join(tail, sep);
    }
  }

  /** An occurrence inside a prefix is an occurrence in the whole string. */
  lemma OccursInPrefix(s: string, sep: string, k: nat, j: int)
    requires k <= |s| && OccursAt(s[..k], sep, j)
    ensures OccursAt(s, sep, j)
  {
    assert s[..k][j..j + |sep|] == s[j..j + |sep|];
  }

  /** The text before the leftmost separator holds no separator. */
  lemma HeadFree(s: string, sep: string)
    requires |sep| > 0 && IndexOf(s, sep) != -1
    ensures IndexOf(s[..IndexOf(s, sep)], sep) == -1
  {
    var k := IndexOf(s, sep);
    forall j | OccursAt(s[..k], sep, j) ensures OccursAt(s, sep, j) && j < k {
      OccursInPrefix(s, sep, k, j);
    }
  }

  /** No piece contains the separator. */
  lemma {:induction false} SplitPiecesFree(s: string, sep: string)
    requires |sep| > 0
    ensures forall i :: 0 <= i < |Split(s, sep)| ==> IndexOf(Split(s, sep)[i], sep) == -1
    decreases |s|
  {
    var k := IndexOf(s, sep);
    var parts := Split(s, sep);
    if k == -1 {
      assert parts == [s];
    } else {
      var rest := s[k + |sep|..];
      var tail := Split(rest, sep);
      assert parts == [s[..k]] + tail;
      forall i | 0 <= i < |parts| ensures IndexOf(parts[i], sep) == -1 {
        if i == 0 {
          HeadFree(s, sep);
        } else {
          SplitPiecesFree(rest, sep);
          assert parts[i] == tail[i - 1];
        }
      }
    }
  }

  /** A position not holding the separator's first character starts no
      occurrence of it. */
  lemma NotOccursAt(s: string, sep: string, j: int)
    requires |sep| > 0 && (0 <= j < |s| ==> s[j] != sep[0])
    ensures !OccursAt(s, sep, j)
  {
    if 0 <= j && j + |sep| <= |s| {
      assert s[j..j + |sep|][0] == s[j];
    }
  }

  /** A piece free of the separator's first character is where the first
      separator begins. */
  lemma IndexOfAfterFreePiece(p: string, sep: string, rest: string)
    requires |sep| > 0 && sep[0] !in p
    ensures IndexOf(p + sep + rest, sep) == |p|
  {
    var s := p + sep + rest;
    assert s[|p|..|p| + |sep|] == sep;
    assert OccursAt(s, sep, |p|);
    forall j | 0 <= j < |p| ensures !OccursAt(s, sep, j) {
      assert s[j] == p[j];
      NotOccursAt(s, sep, j);
    }
  }

  /** A string free of the separator's first character holds no separator. */
  lemma IndexOfFree(p: string, sep: string)
    requires |sep| > 0 && sep[0] !in p
    ensures IndexOf(p, sep) == -1
  {
    forall j | 0 <= j < |p| ensures !OccursAt(p, sep, j) {
      NotOccursAt(p, sep, j);
    }
  }

  /** Split on a one-character separator: no piece holds that character. */
  lemma SplitPiecesLack(s: string, c: char)
    ensures forall i :: 0 <= i < |Split(s, [c])| ==> c !in Split(s, [c])[i]
  {
    SplitPiecesFree(s, [c]);
    forall i | 0 <= i < |Split(s, [c])| ensures c !in Split(s, [c])[i] {
      var p := Split(s, [c])[i];
      if c in p {
        var j :| 0 <= j < |p| && p[j] == c;
        assert p[j..j + 1] == [c];
        assert OccursAt(p, [c], j);
      }
    }
  }

  /** Splitting `p + sep + rest`, with no separator character in `p`, gives
      `p` and then the pieces of `rest`. */
  lemma SplitAfterFreePiece(p: string, sep: string, rest: string)
    requires |sep| > 0 && sep[0] !in p
    ensures Split(p + sep + rest, sep) == [p] + Split(rest, sep)
  {
    var s := p + sep + rest;
    IndexOfAfterFreePiece(p, sep, rest);
    assert s[..|p|] == p;
    assert s[|p| + |sep|..] == rest;
  }

  /** The first piece of `p + sep + rest` is `p` when `p` holds no separator
      character; what follows may contain anything. */
  lemma SplitFirst(p: string, sep: string, rest: string)
    requires |sep| > 0 && sep[0] !in p
    ensures Split(p + sep + rest, sep)[0] == p
  {
    SplitAfterFreePiece(p, sep, rest);
  }

  /** Splitting undoes joining when no piece holds the separator's first
      character (then every separator found is one that was inserted). */
  lemma {:induction false} SplitJoin(parts: seq<string>, sep: string)
    requires |sep| > 0 && |parts| >= 1
    requires forall i :: 0 <= i < |parts| ==> sep[0] !in parts[i]
    ensures Split(Join(parts, sep), sep) == parts
    decreases |parts|
  {
    if |parts| == 1 {
      IndexOfFree(parts[0], sep);
    } else {
      var head, tail := parts[0], parts[1..];
      assert Join(parts, sep) == head + sep + Join(tail, sep);
      SplitAfterFreePiece(head, sep, Join(tail, sep));
      assert forall i :: 0 <= i < |tail| ==> sep[0] !in tail[i] by {
        forall i | 0 <= i < |tail| ensures sep[0] !in tail[i] {
          assert tail[i] == parts[i + 1];
        }
      }
      SplitJoin(tail, sep);
      assert parts == [head] + tail;
    }
  }

  /** Two pieces joined: the first, the separator, the second. */
  lemma JoinPair(a: string, b: string, sep: string)
    ensures Join([a, b], sep) == a + sep + b
  {
    assert [a, b][1..] == [b];
  }

  /** Two pieces free of the separator's first character split back apart. */
  lemma SplitPair(a: string, b: string, sep: string)
    requires |sep| > 0 && sep[0] !in a && sep[0] !in b
    ensures Split(a + sep + b, sep) == [a, b]
  {
    JoinPair(a, b, sep);
    SplitJoin([a, b], sep);
  }

  /** `p` is a prefix of `s`. */
  predicate StartsWith(s: string, p: string)
  {
    |p| <= |s| && s[..|p|] == p
  }

  /** Appending to a text keeps every prefix it had. */
  lemma StartsWithAppend(s: string, p: string, more: string)
    requires StartsWith(s, p)
    ensures StartsWith(s + more, p)
  {
    assert (s + more)[..|p|] == s[..|p|];
  }

  // ---------------------------------------------------------------------
  // Decimal integers
  // ---------------------------------------------------------------------

  predicate IsDigit(c: char)
  {
    '0' <= c <= '9'
  }

  predicate AllDigits(s: string)
  {
    forall i :: 0 <= i < |s| ==> IsDigit(s[i])
  }

  function DigitChar(d: nat): (c: char)
    requires d < 10
    ensures IsDigit(c) && (c as int) - ('0' as int) == d
  {
    (d + '0' as int) as char
  }

  function DigitValue(c: char): (d: nat)
    requires IsDigit(c)
    ensures d < 10
  {
    (c as int) - ('0' as int)
  }

  /** Shortest decimal form of `n`, with no leading zero. */
  function NatToString(n: nat): (s: string)
    ensures |s| >= 1 && AllDigits(s)
    ensures n >= 10 ==> s[0] != '0'
    decreases n
  {
    if n < 10 then [DigitChar(n)] else NatToString(n / 10) + [DigitChar(n % 10)]
  }

  /** Int32.ToString and Number.prototype.toString on an integer value. */
  function IntToString(i: int): (s: string)
    ensures |s| >= 1
    ensures i >= 0 ==> s == NatToString(i)
    ensures i < 0 ==> s == "-" + NatToString(-i)
  {
    if i < 0 then "-" + NatToString(-i) else NatToString(i)
  }

  /** A formatted natural number holds no character but digits. */
  lemma NotInNatToString(n: nat, c: char)
    requires !IsDigit(c)
    ensures c !in NatToString(n)
  {
  }

  /** A formatted integer holds only digits and a minus sign. */
  lemma IntToStringChars(i: int, c: char)
    requires c in IntToString(i)
    ensures IsDigit(c) || c == '-'
  {
    var s := IntToString(i);
    var k :| 0 <= k < |s| && s[k] == c;
    if i < 0 {
      assert k == 0 || s[k] == NatToString(-i)[k - 1];
    }
  }

  /** C#'s Boolean.ToString, used when a flag is interpolated into a message. */
  function BoolToString(b: bool): (s: string)
    ensures b ==> s == "True"
    ensures !b ==> s == "False"
  {
    if b then "True" else "False"
  }

  /** The value a string of digits denotes, read left to right. */
  function DigitsValue(s: string): nat
    requires AllDigits(s)
    decreases |s|
  {
    if |s| == 0 then 0 else 10 * DigitsValue(s[..|s| - 1]) + DigitValue(s[|s| - 1])
  }

  /** A non-empty run of decimal digits, leading zeros allowed. */
  function ParseNat(s: string): (r: Option<nat>)
    ensures r.Some? <==> |s| >= 1 && AllDigits(s)
  {
    if |s| >= 1 && AllDigits(s) then Some(DigitsValue(s)) else None
  }

  /** An optional '-' or '+' followed by a non-empty run of digits. */
  function ParseSigned(s: string): (r: Option<int>)
    ensures |s| >= 1 && AllDigits(s) ==> r == Some(DigitsValue(s) as int)
    ensures r.Some? ==> |s| >= 1
  {
    if |s| >= 1 && s[0] == '-' then
      (match ParseNat(s[1..]) case Some(n) => Some(-(n as int)) case None => None)
    else if |s| >= 1 && s[0] == '+' then
      (match ParseNat(s[1..]) case Some(n) => Some(n as int) case None => None)
    else
      (match ParseNat(s) case Some(n) => Some(n as int) case None => None)
  }

  /** The white space .NET's integer parsing skips around a number:
      tab, line feed, vertical tab, form feed, carriage return and space. */
  predicate IsWhite(c: char)
  {
    c == ' ' || '\t' <= c <= '\r'
  }

  predicate AllWhite(s: string)
  {
    forall i :: 0 <= i < |s| ==> IsWhite(s[i])
  }

  /** `s` without its leading white space. */
  function TrimStart(s: string): (r: string)
    ensures |r| <= |s| && r == s[|s| - |r|..]
    ensures AllWhite(s[..|s| - |r|])
    ensures |r| > 0 ==> !IsWhite(r[0])
  {
    if |s| > 0 && IsWhite(s[0]) then
      var t := TrimStart(s[1..]);
      var k := |s| - |t|;
      assert t == s[k..];
      assert forall i :: 1 <= i < k ==> s[i] == s[1..][..|s| - 1 - |t|][i - 1];
      t
    else s
  }

  /** `s` without its trailing white space. */
  function TrimEnd(s: string): (r: string)
    ensures |r| <= |s| && r == s[..|r|]
    ensures AllWhite(s[|r|..])
    ensures |r| > 0 ==> !IsWhite(r[|r| - 1])
  {
    if |s| > 0 && IsWhite(s[|s| - 1]) then
      var t := TrimEnd(s[..|s| - 1]);
      assert t == s[..|t|];
      assert forall i :: |t| <= i < |s| - 1 ==> s[i] == s[..|s| - 1][|t|..][i - |t|];
      t
    else s
  }

  /** `s` without white space at either end. */
  function TrimWhite(s: string): string
  {
    TrimEnd(TrimStart(s))
  }

  /** Leading white space in front of a text that starts otherwise is
      exactly what TrimStart removes. */
  lemma {:induction false} TrimStartOfPadded(left: string, t: string)
    requires AllWhite(left) && (|t| > 0 ==> !IsWhite(t[0]))
    ensures TrimStart(left + t) == t
    decreases |left|
  {
    if |left| > 0 {
      assert (left + t)[1..] == left[1..] + t;
      TrimStartOfPadded(left[1..], t);
    } else {
      assert left + t == t;
    }
  }

  /** Trailing white space behind a text that ends otherwise is exactly
      what TrimEnd removes. */
  lemma {:induction false} TrimEndOfPadded(t: string, right: string)
    requires AllWhite(right) && (|t| > 0 ==> !IsWhite(t[|t| - 1]))
    ensures TrimEnd(t + right) == t
    decreases |right|
  {
    if |right| > 0 {
      assert (t + right)[..|t + right| - 1] == t + right[..|right| - 1];
      TrimEndOfPadded(t, right[..|right| - 1]);
    } else {
      assert t + right == t;
    }
  }

  /** White space on both sides of a non-empty text with non-white ends is
      trimmed away, and nothing else. */
  lemma TrimWhiteOfPadded(left: string, t: string, right: string)
    requires AllWhite(left) && AllWhite(right)
    requires |t| > 0 && !IsWhite(t[0]) && !IsWhite(t[|t| - 1])
    ensures TrimWhite(left + t + right) == t
  {
    assert left + t + right == left + (t + right);
    assert (t + right)[0] == t[0];
    TrimStartOfPadded(left, t + right);
    TrimEndOfPadded(t, right);
  }

  /** Convert.ToInt16 / Convert.ToInt32 (NumberStyles.Integer): white space
      around an optional sign followed by digits, in the range [lo, hi] (a
      FormatException or an OverflowException otherwise). */
  function ParseBounded(s: string, lo: int, hi: int): (r: Option<int>)
    ensures r.Some? ==> lo <= r.value <= hi
    ensures r.Some? ==> r == ParseSigned(TrimWhite(s))
    ensures ParseSigned(TrimWhite(s)).Some? && lo <= ParseSigned(TrimWhite(s)).value <= hi ==> r == ParseSigned(TrimWhite(s))
  {
    var signed := ParseSigned(TrimWhite(s));
    if signed.Some? && lo <= signed.value <= hi then signed else None
  }

  /** A JavaScript number as far as the clients use one: an integer, or NaN. */
  datatype Num = Int(value: int) | NaN

  /** Number(s) for the strings the clients convert: the empty string is 0,
      an optional sign and decimal digits is that integer, anything else NaN. */
  function NumberOf(s: string): (r: Num)
    ensures s == "" ==> r == Int(0)
    ensures s != "" ==> (r.Int? <==> ParseSigned(s).Some?)
    ensures r.Int? && s != "" ==> r.value == ParseSigned(s).value
  {
    if s == "" then Int(0)
    else match ParseSigned(s)
      case Some(n) => Int(n)
      case None => NaN
  }

  const Int16Min: int := -32768
  const Int16Max: int := 32767
  const Int32Min: int := -2147483648
  const Int32Max: int := 2147483647

  /** Reading the decimal form of a natural number gives it back. */
  lemma {:induction false} DigitsValueOfNatToString(n: nat)
    ensures DigitsValue(NatToString(n)) == n
    decreases n
  {
    if n >= 10 {
      var s := NatToString(n);
      DigitsValueOfNatToString(n / 10);
      assert s[..|s| - 1] == NatToString(n / 10);
    }
  }

  lemma ParseNatOfNatToString(n: nat)
    ensures ParseNat(NatToString(n)) == Some(n)
  {
    DigitsValueOfNatToString(n);
  }

  /** Decimal round trip for every integer in range: the reads applied to
      the server's and the clients' numbers give those numbers back. */
  lemma ParseSignedOfIntToString(i: int)
    ensures ParseSigned(IntToString(i)) == Some(i)
  {
    if i < 0 {
      var digits := NatToString(-i);
      var s := "-" + digits;
      assert s[0] == '-' && s[1..] == digits;
      ParseNatOfNatToString(-i);
      assert ParseSigned(s) == Some(-(-i));
    } else {
      var s := NatToString(i);
      assert IsDigit(s[0]);
      ParseNatOfNatToString(i);
      assert ParseSigned(s) == Some(i);
    }
  }

  /** A formatted integer starts and ends with a digit or a minus sign,
      never with white space. */
  lemma IntToStringEnds(i: int)
    ensures var s := IntToString(i); |s| > 0 && !IsWhite(s[0]) && !IsWhite(s[|s| - 1])
  {
    var s := IntToString(i);
    assert s[0] in s && s[|s| - 1] in s;
    IntToStringChars(i, s[0]);
    IntToStringChars(i, s[|s| - 1]);
  }

  /** The decimal form of an integer in range reads back, with any white
      space around it. */
  lemma ParseBoundedOfPadded(i: int, lo: int, hi: int, left: string, right: string)
    requires lo <= i <= hi
    requires AllWhite(left) && AllWhite(right)
    ensures ParseBounded(left + IntToString(i) + right, lo, hi) == Some(i)
  {
    IntToStringEnds(i);
    TrimWhiteOfPadded(left, IntToString(i), right);
    ParseSignedOfIntToString(i);
  }

  lemma ParseBoundedOfIntToString(i: int, lo: int, hi: int)
    requires lo <= i <= hi
    ensures ParseBounded(IntToString(i), lo, hi) == Some(i)
  {
    var s := IntToString(i);
    IntToStringEnds(i);
    assert TrimStart(s) == s && TrimEnd(s) == s;
    ParseSignedOfIntToString(i);
  }

  /** Adding an integer to a JavaScript number: NaN stays NaN. */
  function NumAdd(n: Num, k: int): (r: Num)
    ensures r.NaN? <==> n.NaN?
    ensures n.Int? ==> r.value == n.value + k
  {
    match n
      case Int(v) => Int(v + k)
      case NaN => NaN
  }

  /** Below 100 a number has at most two digits. */
  lemma ShortNatToString(n: nat)
    requires n < 100
    ensures |NatToString(n)| <= 2
  {
    if n >= 10 {
      assert NatToString(n) == NatToString(n / 10) + [DigitChar(n % 10)];
    }
  }

  /** Number() reads the decimal form of every integer back. */
  lemma NumberOfIntToString(i: int)
    ensures NumberOf(IntToString(i)) == Int(i)
  {
    ParseSignedOfIntToString(i);
  }


  /** Leading zeros do not change the value of a digit string. */
  lemma {:induction false} DigitsValueLeadingZero(s: string)
    requires AllDigits(s)
    ensures AllDigits("0" + s) && DigitsValue("0" + s) == DigitsValue(s)
    decreases |s|
  {
    if |s| > 0 {
      var t := "0" + s;
      assert t[..|t| - 1] == "0" + s[..|s| - 1];
      DigitsValueLeadingZero(s[..|s| - 1]);
    } else {
      assert DigitsValue("0") == 10 * DigitsValue("") + 0;
    }
  }

  /** String.prototype.padStart(width, c): `c` repeated on the left until the
      string is `width` long; a string already that long is kept as it is. */
  function PadStart(s: string, width: nat, c: char): (r: string)
    ensures |r| == if |s| >= width then |s| else width
    ensures r[|r| - |s|..] == s
    ensures forall i :: 0 <= i < |r| - |s| ==> r[i] == c
    decreases width - |s|
  {
    if |s| >= width then s else PadStart([c] + s, width, c)
  }

  /** Zero-padding keeps the value of a digit string. */
  lemma {:induction false} PadStartZerosKeepsValue(s: string, width: nat)
    requires AllDigits(s)
    ensures AllDigits(PadStart(s, width, '0'))
    ensures DigitsValue(PadStart(s, width, '0')) == DigitsValue(s)
    decreases width - |s|
  {
    if |s| < width {
      DigitsValueLeadingZero(s);
      assert [('0' as char)] + s == "0" + s;
      PadStartZerosKeepsValue("0" + s, width);
    }
  }
}
