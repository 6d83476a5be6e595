/** The comma-separated id lists of the delete requests (backend/views.py): the contact handler reads every
    piece with `int`, the basket handler keeps the pieces that `isdigit`. Texts are ASCII. */
module IdList {
  import opened Schema

  predicate IsDigit(c: char) { '0' <= c <= '9' }

  /** `str.isdigit` */
  predicate AllDigits(s: string) { s != "" && forall k | 0 <= k < |s| :: IsDigit(s[k]) }

  /** What `int` strips from an ASCII text. */
  predicate IsSpace(c: char) { c == ' ' || '\t' <= c <= '\r' }

  function Strip(s: string): string {
    if s == "" then s
    else if IsSpace(s[0]) then Strip(s[1..])
    else if IsSpace(s[|s| - 1]) then Strip(s[..|s| - 1])
    else s
  }

  function DigitsValue(s: string): nat
    requires forall k | 0 <= k < |s| :: IsDigit(s[k])
  {
    if s == "" then 0 else
      assert IsDigit(s[|s| - 1]);
      10 * DigitsValue(s[..|s| - 1]) + (s[|s| - 1] as int - '0' as int)
  }

  /** Digits, possibly grouped by single underscores. */
  predicate IsNumeral(s: string) {
    && s != "" && IsDigit(s[0])
    && (|s| == 1 || IsNumeral(s[1..]) || (s[1] == '_' && IsNumeral(s[2..])))
  }

  function DigitsOf(s: string): (r: string)
    ensures forall k | 0 <= k < |r| :: IsDigit(r[k])
  {
    if s == "" then "" else if IsDigit(s[0]) then [s[0]] + DigitsOf(s[1..]) else DigitsOf(s[1..])
  }

  function ReadUnsigned(body: string): Option<int> {
    if IsNumeral(body) then Some(DigitsValue(DigitsOf(body))) else None
  }

  /** `int(s)`; None stands for ValueError. */
  function ParseInt(s: string): Option<int> {
    var t := Strip(s);
    var signed := t != "" && (t[0] == '-' || t[0] == '+');
    match ReadUnsigned(if signed then t[1..] else t)
    case None => None
    case Some(n) => Some(if signed && t[0] == '-' then -n else n)
  }

  /** `s.split(',')` */
  function Split(s: string): (pieces: seq<string>)
    ensures pieces != []
  {
    if s == "" then [""]
    else if s[0] == ',' then [""] + Split(s[1..])
    else var rest := Split(s[1..]); [[s[0]] + rest[0]] + rest[1..]
  }

  /** `[int(item) for item in pieces]` */
  function ParseAll(pieces: seq<string>): Option<seq<int>> {
    if pieces == [] then Some([])
    else
      var first, rest := ParseInt(pieces[0]), ParseAll(pieces[1..]);
      if first.None? || rest.None? then None else Some([first.value] + rest.value)
  }

  function Kept(piece: string): seq<int> { if AllDigits(piece) then [DigitsValue(piece)] else [] }

  /** `[int(x) for x in pieces if x.isdigit()]` */
  function KeepDigits(pieces: seq<string>): seq<int> {
    if pieces == [] then [] else Kept(pieces[0]) + KeepDigits(pieces[1..])
  }

  function StrictIds(s: string): Option<seq<int>> { ParseAll(Split(s)) }

  function LenientIds(s: string): seq<int> { KeepDigits(Split(s)) }

  /* How a client writes a list of numbers. */

  function Digit(d: nat): char
    requires d < 10
  {
    '0' + d as char
  }

  function Numeral(n: nat): (s: string)
    ensures AllDigits(s) && DigitsValue(s) == n
  {
    if n < 10 then [Digit(n)] else
      var s := Numeral(n / 10) + [Digit(n % 10)];
      assert s[..|s| - 1] == Numeral(n / 10);
      s
  }

  function Decimal(n: int): string { if n < 0 then "-" + Numeral(-n) else Numeral(n) }

  function Join(ns: seq<int>): string
    requires ns != []
  {
    if |ns| == 1 then Decimal(ns[0]) else Decimal(ns[0]) + "," + Join(ns[1..])
  }

  function Naturals(ns: seq<int>): seq<int> {
    if ns == [] then [] else (if ns[0] >= 0 then [ns[0]] else []) + Naturals(ns[1..])
  }

  lemma {:induction false} SplitPiece(s: string)
    requires ',' !in s
    ensures Split(s) == [s]
  {
    if s == "" {
    } else {
      SplitPiece(s[1..]);
      assert [s[0]] + s[1..] == s;
    }
  }

  lemma {:induction false} SplitConcat(s: string, t: string)
    ensures Split(s + "," + t) == Split(s) + Split(t)
  {
    var whole := s + "," + t;
    if s == "" {
      assert whole[0] == ',' && whole[1..] == t;
    } else {
      assert whole[0] == s[0] && whole[1..] == s[1..] + "," + t;
      SplitConcat(s[1..], t);
      HeadOfConcat(Split(s[1..]), Split(t));
    }
  }

  lemma HeadOfConcat<T>(a: seq<T>, b: seq<T>)
    requires a != []
    ensures (a + b)[0] == a[0] && (a + b)[1..] == a[1..] + b
    ensures forall x :: [x] + (a + b) == ([x] + a) + b
    ensures forall x :: [x] + (a[1..] + b) == ([x] + a[1..]) + b
  {
  }

  /** Reading a list piece by piece. */
  lemma ReadCons(piece: string, pieces: seq<string>)
    ensures ParseAll([piece] + pieces) ==
            if ParseInt(piece).None? || ParseAll(pieces).None? then None
            else Some([ParseInt(piece).value] + ParseAll(pieces).value)
    ensures KeepDigits([piece] + pieces) == Kept(piece) + KeepDigits(pieces)
  {
    assert ([piece] + pieces)[1..] == pieces;
  }

  lemma Associative(a: seq<int>, b: seq<int>, c: seq<int>)
    ensures a + (b + c) == a + b + c
  {
  }

  lemma {:induction false} KeepDigitsConcat(a: seq<string>, b: seq<string>)
    ensures KeepDigits(a + b) == KeepDigits(a) + KeepDigits(b)
  {
    if a == [] {
      assert a + b == b;
    } else {
      HeadOfConcat(a, b);
      KeepDigitsConcat(a[1..], b);
      Associative(Kept(a[0]), KeepDigits(a[1..]), KeepDigits(b));
    }
  }

  /** The basket reader takes lists apart at commas, whatever is in them. */
  lemma LenientHomomorphism(s: string, t: string)
    ensures LenientIds(s + "," + t) == LenientIds(s) + LenientIds(t)
  {
    SplitConcat(s, t);
    KeepDigitsConcat(Split(s), Split(t));
  }

  lemma {:induction false} DigitsKept(s: string)
    requires forall k | 0 <= k < |s| :: IsDigit(s[k])
    ensures DigitsOf(s) == s && (s != "" ==> IsNumeral(s))
  {
    if s == "" {
    } else {
      DigitsKept(s[1..]);
    }
  }

  lemma ReadDigits(s: string)
    requires AllDigits(s)
    ensures ReadUnsigned(s) == Some(DigitsValue(s))
  {
    DigitsKept(s);
  }

  lemma ParseDigits(s: string)
    requires AllDigits(s)
    ensures ParseInt(s) == Some(DigitsValue(s))
  {
    ReadDigits(s);
  }

  /** Digits with a leading minus sign hold nothing to strip, no comma, and are not all digits. */
  lemma ParseNegative(t: string)
    requires |t| > 1 && t[0] == '-' && AllDigits(t[1..])
    ensures ParseInt(t) == Some(-(DigitsValue(t[1..]) as int))
    ensures !AllDigits(t) && ',' !in t
  {
    assert forall k | 1 <= k < |t| :: t[k] == t[1..][k - 1];
    ReadDigits(t[1..]);
  }

  lemma ParseDecimal(n: int)
    ensures ParseInt(Decimal(n)) == Some(n)
    ensures ',' !in Decimal(n)
    ensures AllDigits(Decimal(n)) <==> n >= 0
    ensures n >= 0 ==> DigitsValue(Decimal(n)) == n
  {
    if n < 0 { ParseNegative(Decimal(n)); } else { ParseDigits(Numeral(n)); }
  }

  lemma SplitJoin(ns: seq<int>)
    requires |ns| > 1
    ensures Split(Join(ns)) == [Decimal(ns[0])] + Split(Join(ns[1..]))
  {
    ParseDecimal(ns[0]);
    SplitPiece(Decimal(ns[0]));
    SplitConcat(Decimal(ns[0]), Join(ns[1..]));
  }

  /** A list of numbers, written in decimal and joined by commas, is read back whole by the contact handler,
      and without its negative numbers by the basket handler. */
  lemma {:induction false} IdListRoundTrip(ns: seq<int>)
    requires ns != []
    ensures StrictIds(Join(ns)) == Some(ns)
    ensures LenientIds(Join(ns)) == Naturals(ns)
  {
    assert ns == [ns[0]] + ns[1..];
    ParseDecimal(ns[0]);
    if |ns| == 1 {
      SplitPiece(Decimal(ns[0]));
      ReadCons(Decimal(ns[0]), []);
    } else {
      SplitJoin(ns);
      ReadCons(Decimal(ns[0]), Split(Join(ns[1..])));
      IdListRoundTrip(ns[1..]);
    }
  }

  lemma {:induction false} DigitPiecesAgree(pieces: seq<string>)
    requires forall p | p in pieces :: AllDigits(p)
    ensures ParseAll(pieces) == Some(KeepDigits(pieces))
  {
    if pieces == [] {
    } else {
      ParseDigits(pieces[0]);
      DigitPiecesAgree(pieces[1..]);
    }
  }

  lemma {:induction false} Lengths(pieces: seq<string>)
    ensures ParseAll(pieces).Some? ==> |ParseAll(pieces).value| == |pieces|
    ensures |KeepDigits(pieces)| <= |pieces|
    ensures |KeepDigits(pieces)| == |pieces| ==> forall p | p in pieces :: AllDigits(p)
  {
    if pieces == [] {
    } else {
      Lengths(pieces[1..]);
    }
  }

  /** The two readers agree exactly on the texts whose pieces are all digits. */
  lemma ReadersAgreeExactlyOnDigits(s: string)
    ensures StrictIds(s) == Some(LenientIds(s)) <==> forall p | p in Split(s) :: AllDigits(p)
  {
    Lengths(Split(s));
    if forall p | p in Split(s) :: AllDigits(p) { DigitPiecesAgree(Split(s)); }
  }
}
