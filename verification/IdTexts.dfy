/** Which texts the readers of id lists take, and what they read in them, stated on characters. */
module IdTexts {
  import opened Schema
  import opened IdList

  const DIGITS := "0123456789"
  const WHITE_SPACE := " \t\n\r\U{b}\U{c}"

  predicate Blank(w: string) { forall c | c in w :: c in WHITE_SPACE }

  predicate Decimals(s: string) { s != "" && forall c | c in s :: c in DIGITS }

  /** Digits grouped by single underscores. */
  predicate Grouped(s: string) {
    && s != "" && s[0] != '_' && s[|s| - 1] != '_'
    && (forall c | c in s :: c in DIGITS || c == '_')
    && (forall k | 0 <= k < |s| - 1 :: !(s[k] == '_' && s[k + 1] == '_'))
  }

  /** A text `int` reads: an optional sign and grouped digits, with white space around. */
  ghost predicate Readable(s: string, w: string, sign: string, body: string, v: string) {
    s == w + sign + body + v && Blank(w) && Blank(v) && sign in {"", "+", "-"} && Grouped(body)
  }

  lemma Characters(c: char)
    ensures IsDigit(c) <==> c in DIGITS
    ensures IsSpace(c) <==> c in WHITE_SPACE
    ensures c in DIGITS ==> c !in WHITE_SPACE && c !in "+-_,"
    ensures c in WHITE_SPACE ==> c !in "+-_,"
  {
    if c in DIGITS { var k :| 0 <= k < |DIGITS| && DIGITS[k] == c; }
    if IsDigit(c) { assert DIGITS[c as int - '0' as int] == c; }
    if c in WHITE_SPACE { var k :| 0 <= k < |WHITE_SPACE| && WHITE_SPACE[k] == c; }
    if IsSpace(c) {
      assert WHITE_SPACE[0] == ' ' && WHITE_SPACE[1] == '\t' && WHITE_SPACE[2] == '\n' && WHITE_SPACE[3] == '\r';
      assert WHITE_SPACE[4] == '\U{b}' && WHITE_SPACE[5] == '\U{c}';
    }
  }

  lemma DecimalsAreDigits(s: string)
    ensures Decimals(s) <==> AllDigits(s)
  {
    forall c { Characters(c); }
    assert forall k | 0 <= k < |s| :: s[k] in s;
  }

  /* White space. */

  /** Nothing to strip at either end. */
  predicate Tight(t: string) { t == "" || (!IsSpace(t[0]) && !IsSpace(t[|t| - 1])) }

  lemma {:induction false} StripParts(s: string) returns (w: string, v: string)
    ensures s == w + Strip(s) + v && Blank(w) && Blank(v) && Tight(Strip(s))
    decreases |s|
  {
    if s == "" {
      w, v := "", "";
    } else if IsSpace(s[0]) {
      Characters(s[0]);
      w, v := StripParts(s[1..]);
      w := [s[0]] + w;
    } else if IsSpace(s[|s| - 1]) {
      Characters(s[|s| - 1]);
      w, v := StripParts(s[..|s| - 1]);
      v := v + [s[|s| - 1]];
    } else {
      w, v := "", "";
    }
  }

  lemma {:induction false} StripPadded(w: string, t: string, v: string)
    requires Blank(w) && Blank(v) && t != "" && Tight(t)
    ensures Strip(w + t + v) == t
    decreases |w| + |v|
  {
    var s := w + t + v;
    if w != "" {
      assert s[0] == w[0] && s[1..] == w[1..] + t + v;
      Characters(w[0]);
      StripPadded(w[1..], t, v);
    } else if v != "" {
      assert s[0] == t[0] && s[|s| - 1] == v[|v| - 1] && s[..|s| - 1] == w + t + v[..|v| - 1];
      Characters(v[|v| - 1]);
      StripPadded(w, t, v[..|v| - 1]);
    } else {
      assert s == t;
    }
  }

  /* Digits in groups. */

  lemma {:induction false} NumeralIsGrouped(s: string)
    ensures IsNumeral(s) <==> Grouped(s)
    decreases |s|
  {
    if s == "" {
    } else {
      Characters(s[0]);
      NumeralIsGrouped(s[1..]);
      if |s| > 1 {
        Characters(s[1]);
        NumeralIsGrouped(s[2..]);
        GroupedTail(s);
      }
    }
  }

  lemma GroupedTail(s: string)
    requires |s| > 1
    ensures Grouped(s) <==> s[0] in DIGITS && (Grouped(s[1..]) || (s[1] == '_' && Grouped(s[2..])))
  {
  }

  lemma {:induction false} DigitsOfConcat(x: string, y: string)
    ensures DigitsOf(x + y) == DigitsOf(x) + DigitsOf(y)
  {
    if x == "" {
      assert x + y == y;
    } else {
      assert (x + y)[0] == x[0] && (x + y)[1..] == x[1..] + y;
      DigitsOfConcat(x[1..], y);
    }
  }

  /* What `int` reads. */

  /** The parts of a text that reads, and how its value comes from them. */
  lemma PartsRead(s: string, w: string, sign: string, body: string, v: string)
    requires Readable(s, w, sign, body, v)
    ensures ReadUnsigned(body).Some?
    ensures ParseInt(s) == Some(if sign == "-" then -ReadUnsigned(body).value else ReadUnsigned(body).value)
  {
    var t := sign + body;
    NumeralIsGrouped(body);
    Characters(body[0]);
    Characters(body[|body| - 1]);
    Characters('+');
    Characters('-');
    assert t[|t| - 1] == body[|body| - 1] && t[0] == (if sign == "" then body[0] else sign[0]);
    assert s == w + t + v;
    StripPadded(w, t, v);
    assert sign != "" ==> t[1..] == body;
    assert sign == "" ==> t == body;
  }

  lemma Regrouped(w: string, sign: string, body: string, v: string)
    ensures w + (sign + body) + v == w + sign + body + v
  {
  }

  lemma SignOf(s: string) returns (sign: string, body: string)
    requires ParseInt(s).Some?
    ensures Strip(s) == sign + body && sign in {"", "+", "-"} && Grouped(body)
  {
    var t := Strip(s);
    if t != "" && (t[0] == '-' || t[0] == '+') { sign, body := [t[0]], t[1..]; } else { sign, body := "", t; }
    NumeralIsGrouped(body);
  }

  /** A text that reads comes apart. */
  lemma PartsOf(s: string) returns (w: string, sign: string, body: string, v: string)
    requires ParseInt(s).Some?
    ensures Readable(s, w, sign, body, v)
  {
    w, v := StripParts(s);
    sign, body := SignOf(s);
    Regrouped(w, sign, body, v);
  }

  /** `int` reads a text if and only if it is an optional sign and digits grouped by single underscores, with white
      space around. */
  lemma ReadsExactly(s: string)
    ensures ParseInt(s).Some? <==> exists w, sign, body, v :: Readable(s, w, sign, body, v)
  {
    if ParseInt(s).Some? { var w, sign, body, v := PartsOf(s); }
    if w, sign, body, v :| Readable(s, w, sign, body, v) { PartsRead(s, w, sign, body, v); }
  }

  lemma StripBlank(s: string)
    requires Blank(s)
    ensures Strip(s) == ""
  {
    var w, v := StripParts(s);
    if Strip(s) != "" {
      assert Strip(s)[0] in s;
      Characters(Strip(s)[0]);
    }
  }

  /** White space around a text makes no difference. */
  lemma WhiteSpaceIsIgnored(w: string, s: string, v: string)
    requires Blank(w) && Blank(v)
    ensures ParseInt(w + s + v) == ParseInt(s)
  {
    var a, b := StripParts(s);
    assert w + s + v == (w + a) + Strip(s) + (b + v);
    if Strip(s) == "" {
      StripBlank(w + s + v);
    } else {
      StripPadded(w + a, Strip(s), b + v);
    }
  }

  lemma SignedRead(sign: string, body: string)
    requires sign in {"", "+", "-"} && Grouped(body)
    ensures ReadUnsigned(body).Some?
    ensures ParseInt(sign + body) == Some(if sign == "-" then -ReadUnsigned(body).value else ReadUnsigned(body).value)
  {
    assert "" + sign + body + "" == sign + body;
    PartsRead(sign + body, "", sign, body, "");
  }

  /** A plus sign makes no difference, and a minus sign gives the opposite number. */
  lemma SignsRead(body: string)
    requires Grouped(body)
    ensures ParseInt(body).Some? && ParseInt("+" + body) == ParseInt(body)
    ensures ParseInt("-" + body) == Some(-ParseInt(body).value)
  {
    assert "" + body == body;
    SignedRead("", body);
    SignedRead("+", body);
    SignedRead("-", body);
  }

  lemma DigitsAroundUnderscore(x: string, y: string)
    ensures DigitsOf(x + "_" + y) == DigitsOf(x + y)
  {
    DigitsOfConcat(x, y);
    DigitsOfConcat(x + "_", y);
    DigitsOfConcat(x, "_");
    assert DigitsOf("_") == "" by { assert "_"[1..] == ""; }
  }

  lemma GroupsJoin(x: string, y: string)
    requires Grouped(x) && Grouped(y)
    ensures Grouped(x + "_" + y) && Grouped(x + y)
  {
  }

  lemma SameDigitsReadSame(a: string, b: string)
    requires Grouped(a) && Grouped(b) && DigitsOf(a) == DigitsOf(b)
    ensures ParseInt(a).Some? && ParseInt(a) == ParseInt(b)
  {
    NumeralIsGrouped(a);
    NumeralIsGrouped(b);
    assert "" + a == a && "" + b == b;
    SignedRead("", a);
    SignedRead("", b);
  }

  /** Neither does an underscore between two groups. */
  lemma UnderscoreIsIgnored(x: string, y: string)
    requires Grouped(x) && Grouped(y)
    ensures ParseInt(x + "_" + y).Some? && ParseInt(x + "_" + y) == ParseInt(x + y)
  {
    GroupsJoin(x, y);
    DigitsAroundUnderscore(x, y);
    SameDigitsReadSame(x + "_" + y, x + y);
  }

  /** Digits are read in base ten: one digit is its place in the alphabet of digits, and one more digit at the end
      counts once, what precedes it ten times. */
  lemma DigitsReadInBaseTen(s: string, c: char)
    requires Decimals(s) && c in DIGITS
    ensures ParseInt([c]).Some? && 0 <= ParseInt([c]).value < 10 && DIGITS[ParseInt([c]).value] == c
    ensures ParseInt(s).Some? && ParseInt(s + [c]) == Some(10 * ParseInt(s).value + ParseInt([c]).value)
  {
    assert IsDigit(c) by { Characters(c); }
    assert AllDigits(s) by { DecimalsAreDigits(s); }
    OneMoreDigit(s, c);
    OneDigit(c);
  }

  lemma OneDigit(c: char)
    requires IsDigit(c)
    ensures ParseInt([c]) == Some(c as int - '0' as int)
    ensures DIGITS[c as int - '0' as int] == c
  {
    ParseDigits([c]);
    assert [c][..0] == "";
  }

  lemma OneMoreDigit(s: string, c: char)
    requires AllDigits(s) && IsDigit(c)
    ensures ParseInt(s) == Some(DigitsValue(s))
    ensures ParseInt(s + [c]) == Some(10 * DigitsValue(s) + (c as int - '0' as int))
  {
    ParseDigits(s);
    ParseDigits(s + [c]);
    assert (s + [c])[..|s|] == s;
  }

  /* Lists. */

  predicate CommaFree(s: string) { ',' !in s }

  function JoinTexts(texts: seq<string>): string
    requires texts != []
  {
    if |texts| == 1 then texts[0] else texts[0] + "," + JoinTexts(texts[1..])
  }

  lemma {:induction false} SplitJoined(texts: seq<string>)
    requires texts != [] && forall t | t in texts :: CommaFree(t)
    ensures Split(JoinTexts(texts)) == texts
  {
    assert CommaFree(texts[0]);
    SplitPiece(texts[0]);
    if |texts| > 1 {
      SplitConcat(texts[0], JoinTexts(texts[1..]));
      SplitJoined(texts[1..]);
    }
  }

  lemma JoinWithHead(c: char, pieces: seq<string>)
    requires pieces != []
    ensures JoinTexts([[c] + pieces[0]] + pieces[1..]) == [c] + JoinTexts(pieces)
  {
    var longer := [[c] + pieces[0]] + pieces[1..];
    assert longer[1..] == pieces[1..];
    if |pieces| > 1 {
      assert [c] + pieces[0] + "," + JoinTexts(pieces[1..]) == [c] + (pieces[0] + "," + JoinTexts(pieces[1..]));
    }
  }

  /** Every text is the join of comma-free texts, and splitting finds them. */
  lemma {:induction false} SplitFindsParts(s: string)
    ensures JoinTexts(Split(s)) == s
    ensures forall t | t in Split(s) :: CommaFree(t)
  {
    if s == "" {
    } else {
      var rest := Split(s[1..]);
      SplitFindsParts(s[1..]);
      assert CommaFree(rest[0]);
      if s[0] == ',' {
        assert ([""] + rest)[1..] == rest;
      } else {
        JoinWithHead(s[0], rest);
      }
      assert [s[0]] + s[1..] == s;
    }
  }

  /** `ns` is what `ParseInt` reads in each of the texts, in order. */
  ghost predicate ReadsEach(texts: seq<string>, ns: seq<int>) {
    |ns| == |texts| && forall k | 0 <= k < |texts| :: ParseInt(texts[k]) == Some(ns[k])
  }

  lemma {:induction false} ParsedEach(pieces: seq<string>, ns: seq<int>)
    ensures ParseAll(pieces) == Some(ns) <==> ReadsEach(pieces, ns)
    decreases |pieces|
  {
    if pieces == [] || ns == [] {
    } else {
      assert ns == [ns[0]] + ns[1..];
      ParsedEach(pieces[1..], ns[1..]);
      assert ReadsEach(pieces, ns) <==> ParseInt(pieces[0]) == Some(ns[0]) && ReadsEach(pieces[1..], ns[1..]) by {
        if ParseInt(pieces[0]) == Some(ns[0]) && ReadsEach(pieces[1..], ns[1..]) {
          assert forall k | 1 <= k < |pieces| :: pieces[k] == pieces[1..][k - 1] && ns[k] == ns[1..][k - 1];
        }
      }
    }
  }

  /** A list reads as numbers if and only if the texts between its commas do, one by one and in order. */
  lemma StrictReadsExactly(texts: seq<string>, ns: seq<int>)
    requires texts != [] && forall t | t in texts :: CommaFree(t)
    ensures StrictIds(JoinTexts(texts)) == Some(ns) <==> ReadsEach(texts, ns)
  {
    SplitJoined(texts);
    ParsedEach(texts, ns);
  }

  /** The basket reader keeps a text between commas if and only if it is all digits: no sign, no white space, no
      underscore. */
  lemma LenientReadsExactly(t: string)
    requires CommaFree(t)
    ensures if Decimals(t) then ParseInt(t).Some? && LenientIds(t) == [ParseInt(t).value] else LenientIds(t) == []
  {
    SplitPiece(t);
    ReadCons(t, []);
    DecimalsAreDigits(t);
    if Decimals(t) { ParseDigits(t); }
  }

  /** A number as a client may write it: in decimal, with white space around. */
  ghost predicate Writes(t: string, n: int) {
    exists w, v :: Blank(w) && Blank(v) && t == w + Decimal(n) + v
  }

  lemma WrittenIsRead(t: string, n: int)
    requires Writes(t, n)
    ensures ParseInt(t) == Some(n) && CommaFree(t) && t != ""
  {
    var w, v :| Blank(w) && Blank(v) && t == w + Decimal(n) + v;
    ParseDecimal(n);
    WhiteSpaceIsIgnored(w, Decimal(n), v);
    Characters(',');
  }

  lemma AllWrittenAreRead(texts: seq<string>, ns: seq<int>)
    requires |texts| == |ns| && forall k | 0 <= k < |ns| :: Writes(texts[k], ns[k])
    ensures ReadsEach(texts, ns) && forall t | t in texts :: CommaFree(t) && t != ""
  {
    forall k | 0 <= k < |ns|
      ensures ParseInt(texts[k]) == Some(ns[k]) && CommaFree(texts[k]) && texts[k] != ""
    {
      WrittenIsRead(texts[k], ns[k]);
    }
  }

  /** However each number of a list is padded, the contact reader reads the list back. */
  lemma PaddedListRoundTrip(texts: seq<string>, ns: seq<int>)
    requires |texts| == |ns| > 0 && forall k | 0 <= k < |ns| :: Writes(texts[k], ns[k])
    ensures JoinTexts(texts) != "" && StrictIds(JoinTexts(texts)) == Some(ns)
  {
    AllWrittenAreRead(texts, ns);
    StrictReadsExactly(texts, ns);
    assert texts[0] in texts;
  }
}
