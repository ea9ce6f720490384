/**
 The body of a batch request: every sub-request is a part of a multipart/mixed message, tagged with its
 number. A reader that follows section 5.1 of RFC 2046 gets the sub-requests back, in order and under
 their numbers.
 */
module BatchRequest {
  import opened Basics
  import opened Text
  import opened BatchReply

  const CRLF := "\r\n"

  function TypeLine(): string {
    "Content-Type: application/http"
  }

  function EncodingLine(): string {
    "Content-Transfer-Encoding: binary"
  }

  function IdLine(i: nat): string {
    "Content-ID: " + Decimal(i)
  }

  /** The header lines of part `i`, up to the blank line. */
  function Head(i: nat): string {
    TypeLine() + (CRLF + (EncodingLine() + (CRLF + IdLine(i))))
  }

  /** What stands between two delimiters. */
  function Piece(i: nat, request: string): string {
    CRLF + Head(i) + (CRLF + CRLF) + (request + CRLF + CRLF)
  }

  /** Part `i` behind its delimiter, with the line break that belongs to the next. */
  function Tagged(boundary: string, i: nat, request: string): string {
    "--" + boundary + Piece(i, request) + CRLF
  }

  function PartsFrom(boundary: string, requests: seq<string>, i: nat): string
    requires i <= |requests|
    decreases |requests| - i
  {
    if i == |requests| then "" else Tagged(boundary, i, requests[i]) + PartsFrom(boundary, requests, i + 1)
  }

  function Closing(boundary: string): string {
    "--" + boundary + "--" + CRLF
  }

  /** The body, part after part. */
  method Body(boundary: string, requests: seq<string>) returns (out: string)
    ensures out == PartsFrom(boundary, requests, 0) + Closing(boundary)
  {
    hide Tagged, Closing;
    out := "";
    for i := 0 to |requests|
      invariant out + PartsFrom(boundary, requests, i) == PartsFrom(boundary, requests, 0)
    {
      Rejoin(out, Tagged(boundary, i, requests[i]), PartsFrom(boundary, requests, i + 1));
      out := out + Tagged(boundary, i, requests[i]);
    }
    out := out + Closing(boundary);
  }

  lemma Rejoin(a: string, b: string, c: string)
    ensures a + b + c == a + (b + c)
  {
  }

  // ----- reading a multipart message -----

  /** A line break and the delimiter end a part; the first delimiter needs no line break before it. */
  function Pieces(text: string, boundary: string): seq<string> {
    Split(CRLF + text, CRLF + "--" + boundary)
  }

  /** The number a part is tagged with, and its content behind the blank line. */
  function ReadPiece(piece: string): Option<(Option<nat>, string)> {
    IndexOfFits(piece, CRLF + CRLF);
    match IndexOf(piece, CRLF + CRLF)
    case None => None
    case Some(n) => Some((IdIn(Lines(piece[..n])), piece[n + 4..]))
  }

  function IdIn(ls: seq<string>): Option<nat> {
    if ls == [] then None
    else if IsContentId(Trim(ls[0])) then TaggedId(Trim(ls[0]))
    else IdIn(ls[1..])
  }

  // ----- a body is read back exactly -----

  function AllPieces(requests: seq<string>, i: nat): seq<string>
    requires i <= |requests|
    decreases |requests| - i
  {
    if i == |requests| then ["--" + CRLF] else [Piece(i, requests[i])] + AllPieces(requests, i + 1)
  }

  lemma {:induction false} PiecesAt(requests: seq<string>, i: nat, k: nat)
    requires i <= k <= |requests|
    ensures |AllPieces(requests, i)| == |requests| - i + 1
    ensures AllPieces(requests, i)[k - i] == if k < |requests| then Piece(k, requests[k]) else "--" + CRLF
    decreases |requests| - i
  {
    hide Piece;
    if i < |requests| {
      PiecesAt(requests, i + 1, if k == i then k + 1 else k);
    }
  }

  /** The body is its pieces joined by the delimiter, which is a line break, two hyphens and the boundary. */
  lemma {:induction false} BodyJoins(boundary: string, requests: seq<string>, i: nat)
    requires i <= |requests|
    ensures AllPieces(requests, i) != []
    ensures var d := CRLF + "--" + boundary;
            d + Join(AllPieces(requests, i), d) == CRLF + (PartsFrom(boundary, requests, i) + Closing(boundary))
    decreases |requests| - i
  {
    hide Piece;
    var d := CRLF + "--" + boundary;
    if i < |requests| {
      BodyJoins(boundary, requests, i + 1);
      var rest, all := AllPieces(requests, i + 1), AllPieces(requests, i);
      assert all[0] == Piece(i, requests[i]) && all[1..] == rest;
      JoinTail(all, d);
      hide Join, AllPieces;
      PieceJoins(boundary, Piece(i, requests[i]), Join(rest, d), PartsFrom(boundary, requests, i + 1) + Closing(boundary));
      Rejoin(Tagged(boundary, i, requests[i]), PartsFrom(boundary, requests, i + 1), Closing(boundary));
    } else {
      assert Join(["--" + CRLF], d) == "--" + CRLF;
    }
  }

  lemma PieceJoins(boundary: string, piece: string, rest: string, tail: string)
    requires var d := CRLF + "--" + boundary; d + rest == CRLF + tail
    ensures var d := CRLF + "--" + boundary; d + (piece + d + rest) == CRLF + ("--" + boundary + piece + CRLF + tail)
  {
    var d := CRLF + "--" + boundary;
    assert d + (piece + d + rest) == d + piece + (d + rest);
    assert d + piece + (CRLF + tail) == CRLF + ("--" + boundary + piece + CRLF + tail);
  }

  /** The delimiter occurs in no part. */
  ghost predicate Clean(boundary: string, requests: seq<string>) {
    && boundary != ""
    && forall i :: 0 <= i < |requests| ==> EndsAtFirst(Piece(i, requests[i]), CRLF + "--" + boundary)
  }

  lemma ClosingIsClean(boundary: string, requests: seq<string>)
    requires Clean(boundary, requests)
    ensures IndexOf("--" + CRLF, CRLF + "--" + boundary).None?
  {
    IndexOfFits("--" + CRLF, CRLF + "--" + boundary);
  }

  lemma PiecesAreClean(boundary: string, requests: seq<string>, i: nat)
    requires Clean(boundary, requests) && i < |requests|
    ensures |AllPieces(requests, 0)| == |requests| + 1
    ensures EndsAtFirst(AllPieces(requests, 0)[i], CRLF + "--" + boundary)
  {
    hide Piece, EndsAtFirst;
    PiecesAt(requests, 0, i);
  }

  lemma AllClean(boundary: string, requests: seq<string>, all: seq<string>)
    requires Clean(boundary, requests) && all == [""] + AllPieces(requests, 0)
    ensures |all| == |requests| + 2 && all[|requests| + 1] == "--" + CRLF
    ensures forall i :: 0 <= i < |all| - 1 ==> EndsAtFirst(all[i], CRLF + "--" + boundary)
  {
    var d, pieces := CRLF + "--" + boundary, AllPieces(requests, 0);
    assert EndsAtFirst("", d);
    hide AllPieces, EndsAtFirst, Clean, Piece;
    PiecesAt(requests, 0, |requests|);
    assert |all| == |pieces| + 1 && all[0] == "" && all[|requests| + 1] == pieces[|requests|];
    forall i | 0 <= i < |all| - 1 ensures EndsAtFirst(all[i], d) {
      if i > 0 {
        assert all[i] == pieces[i - 1];
        PiecesAreClean(boundary, requests, i - 1);
      }
    }
  }

  lemma BodySplits(boundary: string, requests: seq<string>)
    requires Clean(boundary, requests)
    ensures Pieces(PartsFrom(boundary, requests, 0) + Closing(boundary), boundary) == [""] + AllPieces(requests, 0)
  {
    hide Join, PartsFrom, AllPieces, IndexOf, EndsAtFirst, Piece, Closing, Clean, Split;
    var d := CRLF + "--" + boundary;
    var all := [""] + AllPieces(requests, 0);
    AllClean(boundary, requests, all);
    ClosingIsClean(boundary, requests);
    SplitJoin(all, d);
    JoinTail(all, d);
    assert all[1..] == AllPieces(requests, 0) && "" + d == d;
    BodyJoins(boundary, requests, 0);
  }

  // ----- one part -----

  lemma {:induction false} LineBefore(line: string, tail: string)
    requires (forall i :: 0 <= i < |line| ==> line[i] != '\r') && EndsAtFirst(tail, CRLF + CRLF)
    ensures EndsAtFirst(line + tail, CRLF + CRLF)
  {
    if line == "" {
      assert line + tail == tail;
    } else {
      assert (line + tail + (CRLF + CRLF))[0] == line[0];
      assert (line + tail)[1..] == line[1..] + tail;
      LineBefore(line[1..], tail);
    }
  }

  lemma BreakBefore(tail: string)
    requires tail != "" && tail[0] != '\r' && EndsAtFirst(tail, CRLF + CRLF)
    ensures EndsAtFirst(CRLF + tail, CRLF + CRLF)
  {
    var s := CRLF + tail;
    assert (s + (CRLF + CRLF))[2] == tail[0];
    assert s[1..] == "\n" + tail;
    assert (s[1..] + (CRLF + CRLF))[0] == '\n';
    assert s[1..][1..] == tail;
  }

  lemma DecimalNoBreak(n: nat)
    ensures Decimal(n) != "" && forall i :: 0 <= i < |Decimal(n)| ==> IsDigit(Decimal(n)[i])
  {
    DecimalRoundTrip(n);
  }

  /** A header line of its own, before the rest of the header. */
  lemma LineEnds(line: string, tail: string)
    requires line != "" && (forall i :: 0 <= i < |line| ==> line[i] != '\r') && EndsAtFirst(tail, CRLF + CRLF)
    ensures EndsAtFirst(CRLF + (line + tail), CRLF + CRLF)
  {
    LineBefore(line, tail);
    BreakBefore(line + tail);
  }

  lemma PlainLines(i: nat)
    ensures TypeLine() != "" && forall k :: 0 <= k < |TypeLine()| ==> TypeLine()[k] != '\r' && TypeLine()[k] != '\n'
    ensures EncodingLine() != ""
    ensures forall k :: 0 <= k < |EncodingLine()| ==> EncodingLine()[k] != '\r' && EncodingLine()[k] != '\n'
    ensures IdLine(i) != "" && forall k :: 0 <= k < |IdLine(i)| ==> IdLine(i)[k] != '\r' && IdLine(i)[k] != '\n'
  {
    DecimalNoBreak(i);
  }

  /** The first blank line of a part is the one behind its header. */
  lemma HeadEnds(i: nat)
    ensures EndsAtFirst(CRLF + Head(i), CRLF + CRLF)
  {
    PlainLines(i);
    assert EndsAtFirst("", CRLF + CRLF);
    hide TypeLine, EncodingLine, IdLine, EndsAtFirst;
    assert IdLine(i) + "" == IdLine(i);
    LineEnds(IdLine(i), "");
    LineEnds(EncodingLine(), CRLF + IdLine(i));
    LineEnds(TypeLine(), CRLF + (EncodingLine() + (CRLF + IdLine(i))));
  }

  /** A header whose name has another length than Content-ID is not one. */
  lemma OtherHeader(name: string, value: string)
    requires name != "" && |name| != |"content-id"| && forall i :: 0 <= i < |name| ==> name[i] != ':'
    requires value != "" && !IsSpace(name[0]) && !IsSpace(value[|value| - 1])
    ensures !IsContentId(Trim(name + ":" + value))
  {
    var line := name + ":" + value;
    NoColon(name);
    IndexAfterPiece(name, ":", value);
    IndexOfFits(line, ":");
    assert line[..|name|] == name;
    assert line[0] == name[0] && line[|line| - 1] == value[|value| - 1] && line + "" == line;
    hide IndexOf;
    TrimCore(line, "");
  }

  lemma TypeIsOther()
    ensures !IsContentId(Trim(TypeLine()))
  {
    assert TypeLine() == "Content-Type" + ":" + " application/http";
    hide IsContentId, Trim, TypeLine;
    OtherHeader("Content-Type", " application/http");
  }

  lemma EncodingIsOther()
    ensures !IsContentId(Trim(EncodingLine()))
  {
    assert EncodingLine() == "Content-Transfer-Encoding" + ":" + " binary";
    hide IsContentId, Trim, EncodingLine;
    OtherHeader("Content-Transfer-Encoding", " binary");
  }

  lemma BlankIsOther()
    ensures !IsContentId(Trim(""))
  {
    assert IndexOf("", ":").None?;
  }

  lemma IdLineRead(i: nat)
    requires i < USIZE
    ensures IsContentId(Trim(IdLine(i))) && TaggedId(Trim(IdLine(i))) == Some(i)
  {
    hide Trim, IsContentId, TaggedId, ParseUnsigned, TrailingDigits;
    var digits := Decimal(i);
    DecimalIsClean(i);
    DecimalRoundTrip(i);
    assert IdLine(i) == "Content-ID" + ":" + (" " + digits);
    assert IdLine(i)[0] == 'C' && IdLine(i)[|IdLine(i)| - 1] == digits[|digits| - 1];
    assert IdLine(i) + "" == IdLine(i);
    TrimCore(IdLine(i), "");
    HeaderRead("Content-ID", " " + digits);
    var value := " " + digits;
    assert value[|value| - 1] == digits[|digits| - 1] && TrimEndChar(value, '>') == value;
    TrailingDigitsAfter(" ", digits);
    ParseDecimal(i, USIZE);
  }

  lemma LastLine(line: string)
    requires line != "" && forall k :: 0 <= k < |line| ==> line[k] != '\n'
    ensures Lines(line) == [line]
  {
    NoNewline(line);
  }

  lemma {:induction false} NoNewline(s: string)
    requires forall k :: 0 <= k < |s| ==> s[k] != '\n'
    ensures IndexOf(s, "\n").None?
  {
    if s != "" {
      assert s[0] != "\n"[0];
      NoNewline(s[1..]);
    }
  }

  lemma HeadLines(i: nat)
    ensures Lines(CRLF + Head(i)) == ["", TypeLine(), EncodingLine(), IdLine(i)]
  {
    PlainLines(i);
    hide TypeLine, EncodingLine, IdLine, Lines;
    LastLine(IdLine(i));
    LineThen(EncodingLine(), IdLine(i));
    LineThen(TypeLine(), EncodingLine() + "\r\n" + IdLine(i));
    LineThen("", TypeLine() + "\r\n" + (EncodingLine() + "\r\n" + IdLine(i)));
    assert CRLF + Head(i) == "" + "\r\n" + (TypeLine() + "\r\n" + (EncodingLine() + "\r\n" + IdLine(i)));
  }

  lemma HeadId(i: nat)
    requires i < USIZE
    ensures IdIn(Lines(CRLF + Head(i))) == Some(i)
  {
    HeadLines(i);
    BlankIsOther();
    TypeIsOther();
    EncodingIsOther();
    IdLineRead(i);
    hide IsContentId, Trim, TaggedId, TypeLine, EncodingLine, IdLine, Lines, Head;
    var ls := ["", TypeLine(), EncodingLine(), IdLine(i)];
    assert ls[1..] == [TypeLine(), EncodingLine(), IdLine(i)];
    assert ls[1..][1..] == [EncodingLine(), IdLine(i)];
    assert ls[1..][1..][1..] == [IdLine(i)];
    assert IdIn([IdLine(i)]) == Some(i);
    assert IdIn(ls[1..][1..]) == Some(i);
    assert IdIn(ls[1..]) == Some(i);
  }

  lemma PieceRead(i: nat, request: string)
    requires i < USIZE
    ensures ReadPiece(Piece(i, request)) == Some((Some(i), request + CRLF + CRLF))
  {
    HeadEnds(i);
    HeadId(i);
    var head, content := CRLF + Head(i), request + CRLF + CRLF;
    var piece := Piece(i, request);
    IndexAfterPiece(head, CRLF + CRLF, content);
    assert piece == head + (CRLF + CRLF) + content;
    assert piece[..|head|] == head && piece[|head| + 4..] == content;
    hide IndexOf, IdIn, Head, Lines;
  }

  /** A reader of multipart messages finds, between preamble and closing, exactly the requests: the i-th part
      is tagged with i, and its content is the i-th request ended by the blank line that HTTP asks for. */
  lemma RequestsReadBack(boundary: string, requests: seq<string>, i: nat)
    requires Clean(boundary, requests) && i < |requests| <= USIZE
    ensures var pieces := Pieces(PartsFrom(boundary, requests, 0) + Closing(boundary), boundary);
            && |pieces| == |requests| + 2
            && pieces[0] == "" && pieces[|requests| + 1] == "--" + CRLF
            && ReadPiece(pieces[i + 1]) == Some((Some(i), requests[i] + CRLF + CRLF))
  {
    BodySplits(boundary, requests);
    PiecesAt(requests, 0, i);
    PiecesAt(requests, 0, |requests|);
    PieceRead(i, requests[i]);
    hide Piece, PartsFrom, Closing, AllPieces, Clean, ReadPiece, Pieces;
  }
}
