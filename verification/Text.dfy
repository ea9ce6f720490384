/** The string operations the wire formats are read with, and what they recover from rendered text. */
module Text {
  import opened Basics

  // ----- searching and splitting -----

  function IndexOf(s: string, d: string): Option<nat> {
    if d <= s then Some(0)
    else if s == "" then None
    else
      match IndexOf(s[1..], d)
      case None => None
      case Some(i) => Some(i + 1)
  }

  lemma {:induction false} IndexOfFits(s: string, d: string)
    ensures IndexOf(s, d).Some? ==> IndexOf(s, d).value + |d| <= |s|
  {
    if !(d <= s) && s != "" {
      IndexOfFits(s[1..], d);
    }
  }

  /** `s.split(d)`: the pieces between the occurrences of `d`, found from the left. */
  function Split(s: string, d: string): seq<string>
    requires d != ""
    decreases |s|
  {
    IndexOfFits(s, d);
    match IndexOf(s, d)
    case None => [s]
    case Some(i) => [s[..i]] + Split(s[i + |d|..], d)
  }

  function Join(pieces: seq<string>, d: string): string
    requires pieces != []
  {
    if |pieces| == 1 then pieces[0] else pieces[0] + d + Join(pieces[1..], d)
  }

  /** In `piece + d` the first occurrence of `d` is the one at the end. */
  ghost predicate EndsAtFirst(piece: string, d: string) {
    piece == "" || (!(d <= piece + d) && EndsAtFirst(piece[1..], d))
  }

  lemma {:induction false} IndexAfterPiece(piece: string, d: string, rest: string)
    requires EndsAtFirst(piece, d)
    ensures IndexOf(piece + d + rest, d) == Some(|piece|)
  {
    var s := piece + d + rest;
    if piece == "" {
      assert s == d + rest;
    } else {
      assert s[..|d|] == (piece + d)[..|d|];
      assert s[1..] == piece[1..] + d + rest;
      IndexAfterPiece(piece[1..], d, rest);
    }
  }

  lemma SplitOnce(first: string, d: string, rest: string)
    requires d != "" && IndexOf(first + d + rest, d) == Some(|first|)
    ensures Split(first + d + rest, d) == [first] + Split(rest, d)
  {
    var s := first + d + rest;
    assert s[..|first|] == first && s[|first| + |d|..] == rest;
  }

  /** Splitting undoes joining, when the separator occurs nowhere but where it was put. */
  lemma {:induction false} SplitJoin(pieces: seq<string>, d: string)
    requires pieces != [] && d != ""
    requires forall i :: 0 <= i < |pieces| - 1 ==> EndsAtFirst(pieces[i], d)
    requires IndexOf(pieces[|pieces| - 1], d).None?
    ensures Split(Join(pieces, d), d) == pieces
  {
    if |pieces| > 1 {
      var first, rest := pieces[0], Join(pieces[1..], d);
      SplitJoin(pieces[1..], d);
      IndexAfterPiece(first, d, rest);
      SplitOnce(first, d, rest);
      hide Split;
      assert Join(pieces, d) == first + d + rest;
    }
  }

  // ----- lines -----

  function StripCr(s: string): string {
    if s != "" && s[|s| - 1] == '\r' then s[..|s| - 1] else s
  }

  /** `s.lines()`: lines end at a newline, with or without a carriage return before it. */
  function Lines(s: string): seq<string>
    decreases |s|
  {
    if s == "" then []
    else
      match IndexOf(s, "\n")
      case None => [s]
      case Some(i) =>
        IndexOfFits(s, "\n");
        [StripCr(s[..i])] + Lines(s[i + 1..])
  }

  function JoinLines(ls: seq<string>): string {
    if ls == [] then "" else ls[0] + "\r\n" + JoinLines(ls[1..])
  }

  lemma {:induction false} NewlineAfter(line: string)
    requires '\n' !in line
    ensures EndsAtFirst(line, "\n")
  {
    if line != "" {
      assert line[0] in line && forall c :: c in line[1..] ==> c in line;
      assert (line + "\n")[0] == line[0];
      NewlineAfter(line[1..]);
    }
  }

  lemma LineThen(line: string, rest: string)
    requires '\n' !in line
    ensures Lines(line + "\r\n" + rest) == [line] + Lines(rest)
  {
    var body := line + "\r";
    NewlineAfter(body);
    IndexAfterPiece(body, "\n", rest);
    var s := line + "\r\n" + rest;
    assert s == body + "\n" + rest;
    assert s[..|body|] == body && s[|body| + 1..] == rest;
    assert StripCr(body) == line;
  }

  lemma JoinNext(ls: seq<string>, tail: string)
    requires ls != []
    ensures JoinLines(ls) + tail == ls[0] + "\r\n" + (JoinLines(ls[1..]) + tail)
  {
  }

  lemma CleanTail(ls: seq<string>)
    requires ls != [] && forall l :: l in ls ==> '\n' !in l
    ensures '\n' !in ls[0] && forall l :: l in ls[1..] ==> '\n' !in l
  {
    assert ls[0] in ls && forall l :: l in ls[1..] ==> l in ls;
  }

  lemma {:induction false} LinesOfJoin(ls: seq<string>, tail: string)
    requires forall l :: l in ls ==> '\n' !in l
    ensures Lines(JoinLines(ls) + tail) == ls + Lines(tail)
  {
    hide Lines;
    if ls == [] {
      assert JoinLines(ls) + tail == tail && ls + Lines(tail) == Lines(tail);
    } else {
      CleanTail(ls);
      JoinNext(ls, tail);
      hide JoinLines;
      var rest := JoinLines(ls[1..]) + tail;
      LinesOfJoin(ls[1..], tail);
      LineThen(ls[0], rest);
      Regroup(ls, Lines(tail));
    }
  }

  lemma Regroup(ls: seq<string>, more: seq<string>)
    requires ls != []
    ensures [ls[0]] + (ls[1..] + more) == ls + more
  {
  }

  // ----- blanks -----

  predicate IsSpace(c: char) {
    c == ' ' || c == '\t' || c == '\n' || c == '\r' || c == '\U{000B}' || c == '\U{000C}'
  }

  function TrimStart(s: string): string {
    if s != "" && IsSpace(s[0]) then TrimStart(s[1..]) else s
  }

  function TrimEnd(s: string): string {
    if s != "" && IsSpace(s[|s| - 1]) then TrimEnd(s[..|s| - 1]) else s
  }

  function Trim(s: string): string {
    TrimEnd(TrimStart(s))
  }

  lemma {:induction false} TrimEndPadding(core: string, pad: string)
    requires core != "" && !IsSpace(core[|core| - 1]) && forall c :: c in pad ==> IsSpace(c)
    ensures TrimEnd(core + pad) == core
  {
    if pad == "" {
      assert core + pad == core;
    } else {
      var s := core + pad;
      assert s[|s| - 1] == pad[|pad| - 1];
      assert s[..|s| - 1] == core + pad[..|pad| - 1];
      TrimEndPadding(core, pad[..|pad| - 1]);
    }
  }

  /** The text up to the first blank. */
  function FirstWord(s: string): string {
    if s == "" || IsSpace(s[0]) then "" else [s[0]] + FirstWord(s[1..])
  }

  lemma {:induction false} FirstWordThen(word: string, rest: string)
    requires (forall c :: c in word ==> !IsSpace(c)) && (rest == "" || IsSpace(rest[0]))
    ensures FirstWord(word + rest) == word
  {
    if word == "" {
      assert word + rest == rest;
    } else {
      assert word[0] in word && forall c :: c in word[1..] ==> c in word;
      assert (word + rest)[1..] == word[1..] + rest;
      FirstWordThen(word[1..], rest);
    }
  }

  lemma {:induction false} FirstWordFits(s: string)
    ensures FirstWord(s) <= s
  {
    if s != "" && !IsSpace(s[0]) {
      FirstWordFits(s[1..]);
    }
  }

  /** `s.split_whitespace().nth(1)`, or the empty string. */
  function SecondWord(s: string): string {
    var t := TrimStart(s);
    FirstWordFits(t);
    FirstWord(TrimStart(t[|FirstWord(t)|..]))
  }

  // ----- numbers -----

  predicate IsDigit(c: char) {
    '0' <= c <= '9'
  }

  function Digit(n: nat): char
    requires n < 10
  {
    '0' + n as char
  }

  function Decimal(n: nat): string {
    if n < 10 then [Digit(n)] else Decimal(n / 10) + [Digit(n % 10)]
  }

  predicate AllDigits(s: string) {
    forall i :: 0 <= i < |s| ==> IsDigit(s[i])
  }

  function DecimalValue(s: string): nat
    requires AllDigits(s)
  {
    if s == "" then 0
    else DecimalValue(s[..|s| - 1]) * 10 + (s[|s| - 1] as int - '0' as int)
  }

  lemma {:induction false} DecimalRoundTrip(n: nat)
    ensures Decimal(n) != "" && AllDigits(Decimal(n)) && DecimalValue(Decimal(n)) == n
  {
    if n < 10 {
      assert Decimal(n)[..0] == "";
    } else {
      DecimalRoundTrip(n / 10);
      var s := Decimal(n);
      assert s[..|s| - 1] == Decimal(n / 10);
    }
  }

  /** The longest run of digits at the end. */
  function TrailingDigits(s: string): string {
    if s == "" || !IsDigit(s[|s| - 1]) then "" else TrailingDigits(s[..|s| - 1]) + [s[|s| - 1]]
  }

  lemma {:induction false} TrailingDigitsAfter(prefix: string, digits: string)
    requires AllDigits(digits) && (prefix == "" || !IsDigit(prefix[|prefix| - 1]))
    ensures TrailingDigits(prefix + digits) == digits
  {
    if digits == "" {
      assert prefix + digits == prefix;
    } else {
      var s, front, last := prefix + digits, digits[..|digits| - 1], digits[|digits| - 1];
      assert s[|s| - 1] == last && s[..|s| - 1] == prefix + front;
      TrailingDigitsAfter(prefix, front);
      assert TrailingDigits(s) == TrailingDigits(prefix + front) + [last];
      hide TrailingDigits;
      assert front + [last] == digits;
    }
  }

  /** `s.parse()` for an unsigned type of `bound` values: an optional plus sign, then digits. */
  function ParseUnsigned(s: string, bound: nat): Option<nat> {
    var digits := if s != "" && s[0] == '+' then s[1..] else s;
    if digits != "" && AllDigits(digits) && DecimalValue(digits) < bound then Some(DecimalValue(digits)) else None
  }

  lemma ParseDecimal(n: nat, bound: nat)
    requires n < bound
    ensures ParseUnsigned(Decimal(n), bound) == Some(n)
  {
    DecimalRoundTrip(n);
    assert IsDigit(Decimal(n)[0]);
  }

  function ToLower(c: char): char {
    if 'A' <= c <= 'Z' then 'a' + (c - 'A') else c
  }

  predicate EqualsIgnoreCase(a: string, b: string) {
    |a| == |b| && forall i :: 0 <= i < |a| ==> ToLower(a[i]) == ToLower(b[i])
  }

  /** `s.trim_end_matches(c)` */
  function TrimEndChar(s: string, c: char): string {
    if s != "" && s[|s| - 1] == c then TrimEndChar(s[..|s| - 1], c) else s
  }

  lemma {:induction false} TrimEndCharAfter(core: string, c: char, tail: string)
    requires (forall i :: 0 <= i < |tail| ==> tail[i] == c) && core != "" && core[|core| - 1] != c
    ensures TrimEndChar(core + tail, c) == core
  {
    if tail == "" {
      assert core + tail == core;
    } else {
      var s := core + tail;
      assert s[|s| - 1] == tail[|tail| - 1];
      assert s[..|s| - 1] == core + tail[..|tail| - 1];
      TrimEndCharAfter(core, c, tail[..|tail| - 1]);
    }
  }
}
