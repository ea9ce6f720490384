/**
 Batch requests and replies as multipart/mixed (section 5.1 of RFC 2046), as GCS and Azure use them.

 A reply may tag each part with the number of the request it answers, and list the parts in any order.
 */
module BatchReply {
  import opened Basics
  import opened Text

  const USIZE: nat := 0x1_0000_0000_0000_0000
  const U16: nat := 0x1_0000

  /** The number of the request that a part answers, if it says, and its status. */
  type Status = (Option<nat>, nat)

  // ----- reading a reply -----

  /** `line.split_once(':')` */
  function BeforeColon(line: string): Option<string> {
    IndexOfFits(line, ":");
    match IndexOf(line, ":")
    case None => None
    case Some(i) => Some(line[..i])
  }

  predicate IsContentId(line: string) {
    BeforeColon(line).Some? && EqualsIgnoreCase(BeforeColon(line).value, "content-id")
  }

  /** The number at the end of a header's value, in angle brackets or not. */
  function TaggedId(line: string): Option<nat>
    requires BeforeColon(line).Some?
  {
    IndexOfFits(line, ":");
    ParseUnsigned(TrailingDigits(TrimEndChar(line[|BeforeColon(line).value| + 1..], '>')), USIZE)
  }

  /** Scan the lines of one part for its content id and, behind it, its status line. */
  function Scan(ls: seq<string>, id: Option<nat>): (Option<nat>, Option<nat>) {
    if ls == [] then (id, None)
    else
      var line := Trim(ls[0]);
      var seen := if IsContentId(line) then TaggedId(line) else id;
      if "HTTP/" <= line then (seen, ParseUnsigned(SecondWord(line), U16))
      else Scan(ls[1..], seen)
  }

  function Collect(parts: seq<string>): seq<Status> {
    if parts == [] then []
    else
      var (id, status) := Scan(Lines(parts[0]), None);
      if status.Some? then [(id, status.value)] + Collect(parts[1..]) else Collect(parts[1..])
  }

  function Delimiter(ls: seq<string>): Option<string> {
    if ls == [] then None
    else if "--" <= TrimEnd(ls[0]) then Some(TrimEnd(ls[0]))
    else Delimiter(ls[1..])
  }

  lemma {:induction false} DelimiterStarts(ls: seq<string>)
    ensures Delimiter(ls).Some? ==> "--" <= Delimiter(ls).value
  {
    if ls != [] && !("--" <= TrimEnd(ls[0])) {
      DelimiterStarts(ls[1..]);
    }
  }

  function Statuses(text: string): seq<Status> {
    DelimiterStarts(Lines(text));
    match Delimiter(Lines(text))
    case None => []
    case Some(d) => Collect(Split(text, d)[1..])
  }

  /** The loops of the parser compute `Statuses`. */
  method ReadStatuses(text: string) returns (out: seq<Status>)
    ensures out == Statuses(text)
  {
    hide Lines, Trim, TrimEnd, EqualsIgnoreCase, TaggedId, SecondWord, ParseUnsigned;
    DelimiterStarts(Lines(text));
    var ls := Lines(text);
    var n := 0;
    while n < |ls| && !("--" <= TrimEnd(ls[n]))
      invariant 0 <= n <= |ls|
      invariant Delimiter(ls) == Delimiter(ls[n..])
    {
      n := n + 1;
    }
    if n == |ls| {
      return [];
    }
    var delimiter := TrimEnd(ls[n]);
    var parts := Split(text, delimiter);
    out := [];
    for p := 1 to |parts|
      invariant out + Collect(parts[p..]) == Collect(parts[1..])
    {
      var lines := Lines(parts[p]);
      var id: Option<nat> := None;
      var status: Option<nat> := None;
      var k := 0;
      var found := false;
      while k < |lines| && !found
        invariant 0 <= k <= |lines|
        invariant Scan(lines, None) == if found then (id, status) else Scan(lines[k..], id)
        invariant !found ==> status.None?
        decreases |lines| - k, !found
      {
        var line := Trim(lines[k]);
        if IsContentId(line) {
          id := TaggedId(line);
        }
        if "HTTP/" <= line {
          status := ParseUnsigned(SecondWord(line), U16);
          found := true;
        }
        k := k + 1;
      }
      assert lines[k..] == [] || found;
      assert parts[p..][0] == parts[p] && parts[p..][1..] == parts[p + 1..];
      if status.Some? {
        out := out + [(id, status.value)];
      }
    }
  }

  // ----- rendering a reply -----

  /** A content id; the number may be wrapped (`<response-7>`). */
  datatype Tag = Tag(name: string, lead: string, id: nat, close: string)

  /** One part: header lines around its content id, if it has one, its status line, and whatever follows.
      Lines may be padded with blanks. */
  datatype Part = Part(before: seq<string>, tag: Option<Tag>, between: seq<string>, version: string, status: nat,
                       reason: string, pad: string, rest: string)

  function IdValue(t: Tag): string {
    t.lead + Decimal(t.id) + t.close
  }

  function IdCore(t: Tag): string {
    t.name + ":" + IdValue(t)
  }

  function TagLines(p: Part): seq<string> {
    if p.tag.Some? then [IdCore(p.tag.value) + p.pad] else []
  }

  /** The number that a part says it answers for. */
  function Id(p: Part): Option<nat> {
    if p.tag.Some? then Some(p.tag.value.id) else None
  }

  function Protocol(p: Part): string {
    "HTTP/" + p.version
  }

  function StatusCore(p: Part): string {
    Protocol(p) + " " + Decimal(p.status) + p.reason
  }

  function PartLines(p: Part): seq<string> {
    [p.pad] + p.before + TagLines(p) + p.between + [StatusCore(p) + p.pad]
  }

  /** The reply for `parts`; each is behind a delimiter, the last delimiter closes the message. */
  function Render(preamble: seq<string>, boundary: string, parts: seq<Part>): string {
    Join(Pieces(preamble, parts), "--" + boundary)
  }

  function Pieces(preamble: seq<string>, parts: seq<Part>): seq<string> {
    [JoinLines(preamble)] + Texts(parts) + ["--\r\n"]
  }

  function Texts(parts: seq<Part>): seq<string> {
    if parts == [] then [] else [JoinLines(PartLines(parts[0])) + parts[0].rest] + Texts(parts[1..])
  }

  function Answers(parts: seq<Part>): seq<Status> {
    if parts == [] then [] else [(Id(parts[0]), parts[0].status)] + Answers(parts[1..])
  }

  predicate Blank(s: string) {
    forall i :: 0 <= i < |s| ==> IsSpace(s[i]) && s[i] != '\n'
  }

  /** A header line that says nothing about content ids or status. */
  predicate PlainLine(line: string) {
    '\n' !in line && !IsContentId(Trim(line)) && !("HTTP/" <= Trim(line))
  }

  predicate WellFormedTag(t: Tag) {
    && EqualsIgnoreCase(t.name, "content-id")
    && '\n' !in t.lead && (t.lead == "" || !IsDigit(t.lead[|t.lead| - 1]))
    && (forall i :: 0 <= i < |t.close| ==> t.close[i] == '>')
    && t.id < USIZE
  }

  ghost predicate WellFormed(p: Part) {
    && (forall i :: 0 <= i < |p.before| ==> PlainLine(p.before[i]))
    && (forall i :: 0 <= i < |p.between| ==> PlainLine(p.between[i]))
    && (p.tag.Some? ==> WellFormedTag(p.tag.value))
    && (forall i :: 0 <= i < |p.version| ==> !IsSpace(p.version[i]))
    && (p.reason == "" || (IsSpace(p.reason[0]) && !IsSpace(p.reason[|p.reason| - 1]) && '\n' !in p.reason))
    && Blank(p.pad)
    && p.status < U16
  }

  /** The delimiter occurs nowhere but where it was put, and no preamble line looks like one. */
  ghost predicate Delimits(preamble: seq<string>, boundary: string, parts: seq<Part>) {
    && boundary != "" && '\n' !in boundary && !IsSpace(boundary[|boundary| - 1])
    && (forall i :: 0 <= i < |preamble| ==> '\n' !in preamble[i] && !("--" <= TrimEnd(preamble[i])))
    && var pieces := Pieces(preamble, parts);
       && (forall i :: 0 <= i < |pieces| - 1 ==> EndsAtFirst(pieces[i], "--" + boundary))
       && IndexOf(pieces[|pieces| - 1], "--" + boundary).None?
  }

  // ----- a reply is read back exactly -----

  lemma {:induction false} NoColon(s: string)
    requires forall i :: 0 <= i < |s| ==> s[i] != ':'
    ensures EndsAtFirst(s, ":")
  {
    if s != "" {
      assert (s + ":")[0] == s[0];
      NoColon(s[1..]);
    }
  }

  lemma NameIsClean(name: string)
    requires EqualsIgnoreCase(name, "content-id")
    ensures forall i :: 0 <= i < |name| ==> name[i] != ':' && name[i] != '\n'
    ensures name != "" && name[0] != 'H' && !IsSpace(name[0])
  {
    forall i | 0 <= i < |name| ensures name[i] != ':' && name[i] != '\n' {
      assert ToLower(name[i]) == ToLower("content-id"[i]);
    }
    assert ToLower(name[0]) == ToLower("content-id"[0]);
  }

  /** A header named Content-ID is recognised whatever its case, and the number is looked for in its value. */
  lemma HeaderRead(name: string, value: string)
    requires EqualsIgnoreCase(name, "content-id")
    ensures var line := name + ":" + value;
            && IsContentId(line) && !("HTTP/" <= line)
            && TaggedId(line) == ParseUnsigned(TrailingDigits(TrimEndChar(value, '>')), USIZE)
  {
    hide EqualsIgnoreCase, ParseUnsigned, TrailingDigits, TrimEndChar;
    var line := name + ":" + value;
    NameIsClean(name);
    NoColon(name);
    IndexAfterPiece(name, ":", value);
    assert line[..|name|] == name && line[|name| + 1..] == value && line[0] == name[0];
  }

  lemma ValueRead(t: Tag)
    requires WellFormedTag(t)
    ensures ParseUnsigned(TrailingDigits(TrimEndChar(IdValue(t), '>')), USIZE) == Some(t.id)
  {
    hide EqualsIgnoreCase;
    var digits := Decimal(t.id);
    var front := t.lead + digits;
    DecimalRoundTrip(t.id);
    assert front[|front| - 1] == digits[|digits| - 1];
    TrimEndCharAfter(front, '>', t.close);
    TrailingDigitsAfter(t.lead, digits);
    ParseDecimal(t.id, USIZE);
  }

  lemma TrimCore(core: string, pad: string)
    requires core != "" && !IsSpace(core[0]) && !IsSpace(core[|core| - 1]) && Blank(pad)
    ensures Trim(core + pad) == core
  {
    assert forall c :: c in pad ==> IsSpace(c);
    assert (core + pad)[0] == core[0];
    TrimEndPadding(core, pad);
  }

  lemma DecimalIsClean(n: nat)
    ensures Decimal(n) != "" && forall i :: 0 <= i < |Decimal(n)| ==> !IsSpace(Decimal(n)[i])
  {
    DecimalRoundTrip(n);
  }

  lemma IdLineTrims(t: Tag, pad: string)
    requires WellFormedTag(t) && Blank(pad)
    ensures Trim(IdCore(t) + pad) == IdCore(t) && '\n' !in IdCore(t) + pad
  {
    hide EqualsIgnoreCase, Trim, Decimal;
    var core, digits := IdCore(t), Decimal(t.id);
    NameIsClean(t.name);
    DecimalIsClean(t.id);
    assert core[0] == t.name[0];
    assert core[|core| - 1] == if t.close == "" then digits[|digits| - 1] else t.close[|t.close| - 1];
    TrimCore(core, pad);
    assert '\n' !in t.name && '\n' !in digits && '\n' !in t.close && '\n' !in pad;
  }

  /** The content-id line of a part is recognised, and gives the part's number. */
  lemma IdLineRead(t: Tag, pad: string)
    requires WellFormedTag(t) && Blank(pad)
    ensures Trim(IdCore(t) + pad) == IdCore(t) && '\n' !in IdCore(t) + pad
    ensures IsContentId(IdCore(t)) && TaggedId(IdCore(t)) == Some(t.id) && !("HTTP/" <= IdCore(t))
  {
    IdLineTrims(t, pad);
    ValueRead(t);
    assert EqualsIgnoreCase(t.name, "content-id");
    hide EqualsIgnoreCase, IsContentId, TaggedId, WellFormedTag, Trim, IdValue;
    HeaderRead(t.name, IdValue(t));
  }

  lemma SecondWordOf(word: string, second: string, rest: string)
    requires word != "" && second != ""
    requires forall i :: 0 <= i < |word| ==> !IsSpace(word[i])
    requires forall i :: 0 <= i < |second| ==> !IsSpace(second[i])
    requires rest == "" || IsSpace(rest[0])
    ensures SecondWord(word + " " + second + rest) == second
  {
    var tail := " " + second + rest;
    var line := word + " " + second + rest;
    assert line == word + tail;
    assert TrimStart(line) == line by {
      assert line[0] == word[0];
    }
    FirstWordThen(word, tail);
    assert line[|word|..] == tail;
    assert TrimStart(tail) == second + rest by {
      assert tail[1..] == second + rest;
      assert (second + rest)[0] == second[0];
    }
    FirstWordThen(second, rest);
    hide FirstWord, TrimStart;
  }

  lemma StatusLineTrims(p: Part)
    requires WellFormed(p)
    ensures Trim(StatusCore(p) + p.pad) == StatusCore(p) && '\n' !in StatusCore(p) + p.pad
    ensures "HTTP/" <= StatusCore(p)
  {
    hide PlainLine, EqualsIgnoreCase, Trim, Decimal;
    var core, digits := StatusCore(p), Decimal(p.status);
    DecimalIsClean(p.status);
    assert core[..5] == "HTTP/";
    assert core[0] == 'H';
    assert core[|core| - 1] == if p.reason == "" then digits[|digits| - 1] else p.reason[|p.reason| - 1];
    TrimCore(core, p.pad);
    assert '\n' !in p.version && '\n' !in digits && '\n' !in p.pad;
  }

  lemma StatusLineRead(p: Part)
    requires WellFormed(p)
    ensures Trim(StatusCore(p) + p.pad) == StatusCore(p) && '\n' !in StatusCore(p) + p.pad
    ensures "HTTP/" <= StatusCore(p) && !IsContentId(StatusCore(p))
    ensures ParseUnsigned(SecondWord(StatusCore(p)), U16) == Some(p.status)
  {
    hide PlainLine, EqualsIgnoreCase, IsContentId, Trim, Decimal, SecondWord, ParseUnsigned;
    StatusLineTrims(p);
    NotContentId(StatusCore(p));
    DecimalIsClean(p.status);
    assert forall i :: 0 <= i < |Protocol(p)| ==> !IsSpace(Protocol(p)[i]);
    SecondWordOf(Protocol(p), Decimal(p.status), p.reason);
    ParseDecimal(p.status, U16);
  }

  lemma NotContentId(line: string)
    requires line != "" && line[0] == 'H'
    ensures !IsContentId(line)
  {
    IndexOfFits(line, ":");
    assert "content-id"[0] == 'c';
  }

  lemma {:induction false} ScanPlain(plain: seq<string>, rest: seq<string>, id: Option<nat>)
    requires forall i :: 0 <= i < |plain| ==> PlainLine(plain[i])
    ensures Scan(plain + rest, id) == Scan(rest, id)
  {
    if plain == [] {
      assert plain + rest == rest;
    } else {
      assert (plain + rest)[1..] == plain[1..] + rest;
      ScanPlain(plain[1..], rest, id);
    }
  }

  lemma {:induction false} TrimStartBlank(s: string)
    requires Blank(s)
    ensures TrimStart(s) == ""
  {
    if s != "" {
      TrimStartBlank(s[1..]);
    }
  }

  lemma BlankIsPlain(s: string)
    requires Blank(s)
    ensures PlainLine(s)
  {
    TrimStartBlank(s);
  }

  lemma PartLinesClean(p: Part, l: string)
    requires WellFormed(p) && l in PartLines(p)
    ensures '\n' !in l
  {
    hide IdCore, StatusCore, Trim, IsContentId, WellFormedTag, Blank;
    if p.tag.Some? {
      IdLineRead(p.tag.value, p.pad);
    }
    StatusLineRead(p);
    BlankIsPlain(p.pad);
    assert l in p.before ==> PlainLine(l);
    assert l in p.between ==> PlainLine(l);
    hide WellFormed;
  }

  lemma ScanIdLine(line: string, rest: seq<string>, id: Option<nat>, n: nat)
    requires IsContentId(Trim(line)) && TaggedId(Trim(line)) == Some(n) && !("HTTP/" <= Trim(line))
    ensures Scan([line] + rest, id) == Scan(rest, Some(n))
  {
    hide IsContentId, TaggedId, Trim, SecondWord, ParseUnsigned;
    assert ([line] + rest)[1..] == rest;
  }

  lemma ScanTag(p: Part, rest: seq<string>)
    requires WellFormed(p)
    ensures Scan(TagLines(p) + rest, None) == Scan(rest, Id(p))
  {
    hide IsContentId, TaggedId, Trim, IdCore, WellFormedTag, Blank, Scan;
    if p.tag.Some? {
      IdLineRead(p.tag.value, p.pad);
      ScanIdLine(IdCore(p.tag.value) + p.pad, rest, None, p.tag.value.id);
    } else {
      assert TagLines(p) + rest == rest;
    }
  }

  lemma ScanStatusLine(line: string, rest: seq<string>, id: Option<nat>, n: nat)
    requires "HTTP/" <= Trim(line) && !IsContentId(Trim(line)) && ParseUnsigned(SecondWord(Trim(line)), U16) == Some(n)
    ensures Scan([line] + rest, id) == (id, Some(n))
  {
    hide IsContentId, TaggedId, Trim, SecondWord, ParseUnsigned;
  }

  lemma ScanPart(p: Part, tail: seq<string>)
    requires WellFormed(p)
    ensures Scan(PartLines(p) + tail, None) == (Id(p), Some(p.status))
  {
    hide IsContentId, TaggedId, SecondWord, Trim, IdCore, StatusCore, EqualsIgnoreCase, PlainLine, Blank, ParseUnsigned, Scan;
    var statusLine := StatusCore(p) + p.pad;
    var atStatus := [statusLine] + tail;
    var atId := TagLines(p) + (p.between + atStatus);
    BlankIsPlain(p.pad);
    ScanPlain([p.pad], p.before + atId, None);
    ScanPlain(p.before, atId, None);
    ScanTag(p, p.between + atStatus);
    ScanPlain(p.between, atStatus, Id(p));
    StatusLineRead(p);
    ScanStatusLine(statusLine, tail, Id(p), p.status);
    hide WellFormed, TagLines, Id;
    assert PartLines(p) + tail == [p.pad] + (p.before + atId);
  }

  lemma PartRead(p: Part)
    requires WellFormed(p)
    ensures Scan(Lines(JoinLines(PartLines(p)) + p.rest), None) == (Id(p), Some(p.status))
  {
    forall l | l in PartLines(p) ensures '\n' !in l {
      PartLinesClean(p, l);
    }
    hide WellFormed, PartLines, Scan;
    LinesOfJoin(PartLines(p), p.rest);
    ScanPart(p, Lines(p.rest));
  }

  lemma {:induction false} CollectConcat(a: seq<string>, b: seq<string>)
    ensures Collect(a + b) == Collect(a) + Collect(b)
  {
    if a == [] {
      assert a + b == b;
    } else {
      assert (a + b)[1..] == a[1..] + b;
      CollectConcat(a[1..], b);
    }
  }

  lemma {:induction false} CollectTexts(parts: seq<Part>)
    requires forall i :: 0 <= i < |parts| ==> WellFormed(parts[i])
    ensures Collect(Texts(parts)) == Answers(parts)
  {
    if parts != [] {
      PartRead(parts[0]);
      CollectTexts(parts[1..]);
    }
  }

  lemma ClosingSaysNothing()
    ensures Collect(["--\r\n"]) == []
  {
    LineThen("--", "");
    assert "--" + "\r\n" + "" == "--\r\n";
    assert Lines("--\r\n") == ["--"];
    assert Trim("--") == "--";
    assert IndexOf("--", ":").None? by {
      assert IndexOf("--"[1..], ":").None? by {
        assert "--"[1..] == "-" && "-"[1..] == "";
      }
    }
    assert ["--"][1..] == [];
    assert Scan(["--"], None) == (None, None);
    assert ["--\r\n"][1..] == [];
  }

  lemma {:induction false} DelimiterAfter(preamble: seq<string>, rest: seq<string>)
    requires forall i :: 0 <= i < |preamble| ==> !("--" <= TrimEnd(preamble[i]))
    ensures Delimiter(preamble + rest) == Delimiter(rest)
  {
    if preamble == [] {
      assert preamble + rest == rest;
    } else {
      assert (preamble + rest)[1..] == preamble[1..] + rest;
      DelimiterAfter(preamble[1..], rest);
    }
  }

  lemma JoinTail(pieces: seq<string>, d: string)
    requires |pieces| > 1
    ensures Join(pieces, d) == pieces[0] + d + Join(pieces[1..], d)
  {
  }

  /** A reply begins with its preamble, then the first delimiter on a line of its own. */
  function Behind(boundary: string, parts: seq<Part>): string
    requires parts != []
  {
    JoinLines(PartLines(parts[0])[1..]) + parts[0].rest
      + ("--" + boundary) + Join(Texts(parts[1..]) + ["--\r\n"], "--" + boundary)
  }

  lemma FirstPart(p: Part)
    ensures PartLines(p) != []
    ensures JoinLines(PartLines(p)) + p.rest == p.pad + "\r\n" + (JoinLines(PartLines(p)[1..]) + p.rest)
  {
    assert PartLines(p)[0] == p.pad;
  }

  lemma Regroup(before: string, d: string, pad: string, body: string, rest: string)
    ensures before + d + ((pad + "\r\n" + body) + d + rest) == before + (d + pad + "\r\n" + (body + d + rest))
  {
  }

  lemma RenderStarts(preamble: seq<string>, boundary: string, parts: seq<Part>)
    requires parts != []
    ensures Render(preamble, boundary, parts)
              == JoinLines(preamble) + ("--" + boundary + parts[0].pad + "\r\n" + Behind(boundary, parts))
  {
    hide PartLines, JoinLines, Join;
    var d := "--" + boundary;
    var pieces := Pieces(preamble, parts);
    var after, behind := pieces[1..], Texts(parts[1..]) + ["--\r\n"];
    var p := parts[0];
    var first := JoinLines(PartLines(p)) + p.rest;
    assert after == [first] + behind && after[1..] == behind;
    assert pieces[0] == JoinLines(preamble) && Render(preamble, boundary, parts) == Join(pieces, d);
    FirstPart(p);
    var body := JoinLines(PartLines(p)[1..]) + p.rest;
    assert Behind(boundary, parts) == body + d + Join(behind, d);
    JoinTail(pieces, d);
    JoinTail(after, d);
    hide Texts, Render, Behind, Pieces;
    Regroup(JoinLines(preamble), d, p.pad, body, Join(behind, d));
  }

  /** The first line that looks like a delimiter is the delimiter. */
  lemma DelimiterFound(preamble: seq<string>, boundary: string, parts: seq<Part>)
    requires parts != [] && WellFormed(parts[0]) && Delimits(preamble, boundary, parts)
    ensures Delimiter(Lines(Render(preamble, boundary, parts))) == Some("--" + boundary)
  {
    var d := "--" + boundary;
    var pad := parts[0].pad;
    assert '\n' !in d + pad && !IsSpace(d[|d| - 1]) && forall c :: c in pad ==> IsSpace(c);
    assert forall l :: l in preamble ==> '\n' !in l;
    assert forall i :: 0 <= i < |preamble| ==> !("--" <= TrimEnd(preamble[i]));
    hide Delimits, WellFormed, Behind, JoinLines, Lines;
    RenderStarts(preamble, boundary, parts);
    var more := Behind(boundary, parts);
    LinesOfJoin(preamble, d + pad + "\r\n" + more);
    LineThen(d + pad, more);
    TrimEndPadding(d, pad);
    DelimiterAfter(preamble, [d + pad] + Lines(more));
  }

  lemma RenderSplits(preamble: seq<string>, boundary: string, parts: seq<Part>)
    requires Delimits(preamble, boundary, parts)
    ensures Split(Render(preamble, boundary, parts), "--" + boundary)[1..] == Texts(parts) + ["--\r\n"]
  {
    hide EndsAtFirst, IndexOf, Join, Texts;
    var pieces := Pieces(preamble, parts);
    SplitJoin(pieces, "--" + boundary);
    hide Delimits;
    assert pieces[1..] == Texts(parts) + ["--\r\n"];
  }

  /** Whatever the order of the parts, the reply gives back exactly their numbers and statuses. */
  lemma RoundTrip(preamble: seq<string>, boundary: string, parts: seq<Part>)
    requires parts != [] && (forall i :: 0 <= i < |parts| ==> WellFormed(parts[i]))
    requires Delimits(preamble, boundary, parts)
    ensures Statuses(Render(preamble, boundary, parts)) == Answers(parts)
  {
    hide Delimits, WellFormed, Texts, Collect, Split, Delimiter, Lines, Render;
    DelimiterFound(preamble, boundary, parts);
    RenderSplits(preamble, boundary, parts);
    CollectConcat(Texts(parts), ["--\r\n"]);
    CollectTexts(parts);
    ClosingSaysNothing();
  }
}
