/** Object keys, prefixes, and which keys a request path can name. */
module KeyPaths {
  import opened Basics
  import opened Text

  type Key = string

  // ----- which keys -----

  function TrimSlashes(s: string): string {
    TrimEndChar(TrimStartChar(s, '/'), '/')
  }

  function TrimStartChar(s: string, c: char): string {
    if s != "" && s[0] == c then TrimStartChar(s[1..], c) else s
  }

  /** The key prefix that selects everything below `prefix`; empty for the root. */
  function SearchPrefix(prefix: string): string {
    var key := TrimSlashes(prefix);
    if key == "" then "" else key + "/"
  }

  predicate IsSlashes(s: string) {
    forall i :: 0 <= i < |s| ==> s[i] == '/'
  }

  /** A path without the slashes around it. */
  predicate IsCore(core: string) {
    core != "" && core[0] != '/' && core[|core| - 1] != '/'
  }

  /** The path is the core with any number of slashes before and behind it. */
  ghost predicate WrittenAs(prefix: string, core: string) {
    exists a, b :: IsSlashes(a) && IsSlashes(b) && prefix == a + core + b
  }

  /** The path denotes what lies below `core`, or the root if it is slashes only. */
  ghost predicate Denotes(prefix: string, core: string) {
    if core == "" then IsSlashes(prefix) else IsCore(core) && WrittenAs(prefix, core)
  }

  /** What every key below it begins with. */
  function Below(core: string): string {
    if core == "" then "" else core + "/"
  }

  lemma {:induction false} TrimStartAfter(a: string, rest: string)
    requires IsSlashes(a) && (rest == "" || rest[0] != '/')
    ensures TrimStartChar(a + rest, '/') == rest
  {
    if a == "" {
      assert a + rest == rest;
    } else {
      assert (a + rest)[1..] == a[1..] + rest;
      TrimStartAfter(a[1..], rest);
    }
  }

  /** What is searched for a path is its core and one slash, however many slashes stand around it. */
  lemma SearchesCore(prefix: string, core: string)
    requires IsCore(core) && WrittenAs(prefix, core)
    ensures TrimSlashes(prefix) == core && SearchPrefix(prefix) == core + "/"
  {
    var a, b :| IsSlashes(a) && IsSlashes(b) && prefix == a + core + b;
    assert prefix == a + (core + b) && (core + b)[0] == core[0];
    TrimStartAfter(a, core + b);
    TrimEndCharAfter(core, '/', b);
  }

  lemma {:induction false} StripEnd(s: string) returns (core: string, b: string)
    requires !IsSlashes(s)
    ensures s == core + b && IsSlashes(b) && core != "" && core[|core| - 1] != '/'
  {
    core, b := s, "";
    if s[|s| - 1] == '/' {
      var front := s[..|s| - 1];
      core, b := StripEnd(front);
      b := b + "/";
      assert s == front + "/";
    }
  }

  lemma {:induction false} CoreExists(prefix: string) returns (core: string)
    requires !IsSlashes(prefix)
    ensures IsCore(core) && WrittenAs(prefix, core)
    decreases |prefix|
  {
    if prefix[0] == '/' {
      core := CoreExists(prefix[1..]);
      var a, b :| IsSlashes(a) && IsSlashes(b) && prefix[1..] == a + core + b;
      assert prefix == ("/" + a) + core + b;
      assert IsSlashes("/" + a);
    } else {
      var b;
      core, b := StripEnd(prefix);
      assert core[0] == prefix[0] && prefix == "" + core + b;
      assert IsSlashes("");
    }
  }

  /** Every path denotes something, and it is that which is searched: all for a path of slashes only, otherwise
      what begins with its core and one slash, however many slashes stand around the core. */
  lemma SearchesBelow(prefix: string)
    ensures Denotes(prefix, TrimSlashes(prefix))
    ensures forall core :: Denotes(prefix, core) ==> TrimSlashes(prefix) == core && SearchPrefix(prefix) == Below(core)
  {
    if IsSlashes(prefix) {
      assert prefix + "" == prefix;
      TrimStartAfter(prefix, "");
    } else {
      var core := CoreExists(prefix);
      SearchesCore(prefix, core);
    }
    forall core | Denotes(prefix, core) && core != "" ensures TrimSlashes(prefix) == core && SearchPrefix(prefix) == core + "/" {
      SearchesCore(prefix, core);
    }
    hide TrimSlashes;
  }

  predicate IsPathBreaking(c: char) {
    c == '\\' || c == '%' || c == '?' || c == '#' || c == '\t' || c == '\r' || c == '\n'
  }

  /** Whether `key` lies under `search` and can be sent as a request path as it is. */
  predicate PlainKey(key: Key, search: string) {
    && search <= key
    && var rel := key[|search|..];
       && (forall i :: 0 <= i < |rel| ==> !IsPathBreaking(rel[i]))
       && (forall segment :: segment in Split(rel, "/") ==> segment != "." && segment != "..")
  }

  // ----- what a URL makes of a key -----

  /** Blanks and control characters, which a URL parser trims at the end of its input. */
  predicate IsEdge(c: char) {
    c <= ' '
  }

  function TrimEdge(s: string): string {
    if s != "" && IsEdge(s[|s| - 1]) then TrimEdge(s[..|s| - 1]) else s
  }

  /** A URL parser drops these wherever they are. */
  predicate IsKept(c: char) {
    c != '\t' && c != '\r' && c != '\n'
  }

  /** The path ends where the query or the fragment begins. */
  function UpToQuery(s: string): string {
    if s == "" || s[0] == '?' || s[0] == '#' then "" else [s[0]] + UpToQuery(s[1..])
  }

  function Slashed(s: string): string {
    if s == "" then "" else [if s[0] == '\\' then '/' else s[0]] + Slashed(s[1..])
  }

  /** The path text that a parser takes from a URL which ends with `s`, or goes on with a query behind it. */
  function PathText(s: string, atEnd: bool): string {
    Slashed(UpToQuery(Filter(if atEnd then TrimEdge(s) else s, IsKept)))
  }

  predicate IsDot(segment: string) {
    segment == "." || segment == "%2e" || segment == "%2E"
  }

  predicate IsDotDot(segment: string) {
    |segment| >= 2
    && ((segment[0] == '.' && IsDot(segment[1..])) || (|segment| >= 4 && IsDot(segment[..3]) && IsDot(segment[3..])))
  }

  /** Removing dot segments (section 5.2.4 of RFC 3986), behind the segments `done`: a single dot is dropped, two
      drop the segment before, and either leaves an empty segment if it is the last. */
  function Resolve(segments: seq<string>, done: seq<string>): seq<string> {
    if segments == [] then done
    else
      var last := if |segments| == 1 then [""] else [];
      if IsDot(segments[0]) then Resolve(segments[1..], done + last)
      else if IsDotDot(segments[0]) then Resolve(segments[1..], (if done == [] then [] else done[..|done| - 1]) + last)
      else Resolve(segments[1..], done + [segments[0]])
  }

  /** The request for `s`, behind the segments `above`, names those segments and then exactly `s`. */
  predicate NamesItself(s: string, above: seq<string>, atEnd: bool) {
    PathText(s, atEnd) == s && Resolve(Split(s, "/"), above) == above + Split(s, "/")
  }

  lemma {:induction false} DroppingShortens(s: string)
    ensures |Filter(s, IsKept)| <= |s|
    ensures |Filter(s, IsKept)| == |s| <==> forall i :: 0 <= i < |s| ==> IsKept(s[i])
  {
    if s != "" {
      DroppingShortens(s[1..]);
      assert forall i :: 0 < i < |s| ==> s[i] == s[1..][i - 1];
    }
  }

  lemma {:induction false} CuttingShortens(s: string)
    ensures |UpToQuery(s)| <= |s|
    ensures |UpToQuery(s)| == |s| <==> forall i :: 0 <= i < |s| ==> s[i] != '?' && s[i] != '#'
    ensures |UpToQuery(s)| == |s| ==> UpToQuery(s) == s
  {
    if s != "" {
      CuttingShortens(s[1..]);
      assert forall i :: 0 < i < |s| ==> s[i] == s[1..][i - 1];
    }
  }

  lemma {:induction false} SlashingKeeps(s: string)
    ensures |Slashed(s)| == |s|
    ensures Slashed(s) == s <==> forall i :: 0 <= i < |s| ==> s[i] != '\\'
  {
    if s != "" {
      SlashingKeeps(s[1..]);
      assert forall i :: 0 < i < |s| ==> s[i] == s[1..][i - 1];
      assert Slashed(s)[1..] == Slashed(s[1..]);
    }
  }

  lemma {:induction false} TrimmingShortens(s: string)
    ensures |TrimEdge(s)| <= |s| && (TrimEdge(s) == s <==> s == "" || !IsEdge(s[|s| - 1]))
    ensures |TrimEdge(s)| == |s| ==> TrimEdge(s) == s
  {
    if s != "" && IsEdge(s[|s| - 1]) {
      TrimmingShortens(s[..|s| - 1]);
      assert |TrimEdge(s)| < |s|;
    }
  }

  /** The characters that a parser reads as something else. */
  predicate Rewritten(c: char) {
    IsPathBreaking(c) && c != '%'
  }

  predicate EndsInEdge(s: string) {
    s != "" && IsEdge(s[|s| - 1])
  }

  lemma TextExactly(s: string, atEnd: bool)
    ensures PathText(s, atEnd) == s <==> (forall i :: 0 <= i < |s| ==> !Rewritten(s[i])) && !(atEnd && EndsInEdge(s))
  {
    var trimmed := if atEnd then TrimEdge(s) else s;
    var kept := Filter(trimmed, IsKept);
    TrimmingShortens(s);
    DroppingShortens(trimmed);
    CuttingShortens(kept);
    SlashingKeeps(UpToQuery(kept));
    hide TrimEdge, UpToQuery, Slashed;
    if forall i :: 0 <= i < |s| ==> IsKept(s[i]) {
      FilterAll(s, IsKept);
    }
    hide Filter;
    if PathText(s, atEnd) == s {
      assert trimmed == s && kept == s && UpToQuery(s) == s;
    }
  }

  lemma {:induction false} ResolveBound(segments: seq<string>, done: seq<string>)
    ensures |Resolve(segments, done)| <= |done| + |segments|
  {
    if segments != [] {
      var last := if |segments| == 1 then [""] else [];
      var s := segments[0];
      var next := if IsDot(s) then done + last
                  else if IsDotDot(s) then (if done == [] then [] else done[..|done| - 1]) + last
                  else done + [s];
      ResolveBound(segments[1..], next);
    }
  }

  /** Resolving leaves segments alone exactly if none of them is a dot segment. */
  lemma {:induction false} ResolvesExactly(segments: seq<string>, done: seq<string>)
    ensures Resolve(segments, done) == done + segments <==>
              forall i :: 0 <= i < |segments| ==> !IsDot(segments[i]) && !IsDotDot(segments[i])
  {
    if segments == [] {
      assert done + segments == done;
    } else {
      var s, rest := segments[0], segments[1..];
      assert forall i :: 0 < i < |segments| ==> segments[i] == rest[i - 1];
      if IsDot(s) || IsDotDot(s) {
        DotSegmentShows(segments, done);
      } else {
        ResolvesExactly(rest, done + [s]);
        assert done + [s] + rest == done + segments;
      }
    }
  }

  lemma DotSegmentShows(segments: seq<string>, done: seq<string>)
    requires segments != [] && (IsDot(segments[0]) || IsDotDot(segments[0]))
    ensures Resolve(segments, done) != done + segments
  {
    var s, rest := segments[0], segments[1..];
    if rest == [] {
      assert Resolve(rest, done + [""]) == done + [""];
      assert (done + segments)[|done|] == s;
    } else {
      var popped := if done == [] then [] else done[..|done| - 1];
      ResolveBound(rest, done + []);
      ResolveBound(rest, popped + []);
    }
  }

  /** Dots count as dots when they are escaped, in either case. */
  lemma EscapedDots()
    ensures IsDot("%2e") && IsDot("%2E")
    ensures IsDotDot("..") && IsDotDot(".%2e") && IsDotDot("%2E.") && IsDotDot("%2e%2E")
    ensures !IsDotDot("...") && !IsDotDot("a.") && !IsDot("%2")
  {
    assert ".."[1..] == "." && ".%2e"[1..] == "%2e" && "..."[1..] == "..";
    assert "%2E."[..3] == "%2E" && "%2E."[3..] == "." && "%2e%2E"[..3] == "%2e" && "%2e%2E"[3..] == "%2E";
  }

  /** A last segment of one dot leaves an empty one; of two, it takes the segment before with it. */
  lemma {:induction false} LastDots(front: seq<string>, done: seq<string>)
    requires forall i :: 0 <= i < |front| ==> !IsDot(front[i]) && !IsDotDot(front[i])
    ensures Resolve(front + ["."], done) == done + front + [""]
    ensures front != [] ==> Resolve(front + [".."], done) == done + front[..|front| - 1] + [""]
    decreases |front|
  {
    if front == [] {
      assert [] + ["."] == ["."] && ["."][1..] == [];
    } else {
      var s, rest := front[0], front[1..];
      assert (front + ["."])[1..] == rest + ["."] && (front + [".."])[1..] == rest + [".."];
      LastDots(rest, done + [s]);
      assert done + [s] + rest == done + front;
      if rest == [] {
        assert rest + [".."] == [".."] && [".."][1..] == [] && (done + [s])[..|done|] == done;
        assert IsDotDot("..") by {
          assert ".."[1..] == ".";
        }
        assert Resolve([".."], done + [s]) == Resolve([], done + [""]);
        assert done + front[..0] + [""] == done + [""];
      } else {
        assert done + [s] + rest[..|rest| - 1] == done + front[..|front| - 1];
      }
    }
  }

  /** A plain key lies under the prefix, and a URL names what was listed and nothing else, exactly unless the
      URL ends with the key and the key with a blank or a control character. */
  lemma PlainKeyIsAddressable(key: Key, search: string, above: seq<string>, atEnd: bool)
    requires PlainKey(key, search)
    ensures search <= key
    ensures NamesItself(key[|search|..], above, atEnd) <==> !(atEnd && EndsInEdge(key[|search|..]))
  {
    var rel := key[|search|..];
    TextExactly(rel, atEnd);
    PlainHasNoDots(rel);
    ResolvesExactly(Split(rel, "/"), above);
    hide Resolve, PathText, Split;
  }

  /** A key under the prefix that has no percent sign is skipped only if its URL would name something else. */
  lemma SkippedWithReason(key: Key, search: string, above: seq<string>, atEnd: bool)
    requires search <= key && '%' !in key && !PlainKey(key, search)
    ensures !NamesItself(key[|search|..], above, atEnd)
  {
    var rel := key[|search|..];
    TextExactly(rel, atEnd);
    ResolvesExactly(Split(rel, "/"), above);
    hide Resolve, PathText, Split;
    if segment :| segment in Split(rel, "/") && (segment == "." || segment == "..") {
      var i :| 0 <= i < |Split(rel, "/")| && Split(rel, "/")[i] == segment;
      assert IsDot(segment) || IsDotDot(segment);
    } else {
      var i :| 0 <= i < |rel| && IsPathBreaking(rel[i]);
      assert rel[i] == key[|search| + i];
      assert Rewritten(rel[i]);
    }
  }

  lemma PieceWithin(s: string, segment: string)
    requires segment in Split(s, "/") && '%' !in s
    ensures '%' !in segment
    decreases |s|
  {
    IndexOfFits(s, "/");
    match IndexOf(s, "/")
    case None => assert Split(s, "/") == [s];
    case Some(i) =>
      if segment != s[..i] {
        PieceWithin(s[i + 1..], segment);
      }
  }

  lemma NoEscapeNoDot(segment: string)
    requires '%' !in segment && segment != "." && segment != ".."
    ensures !IsDot(segment) && !IsDotDot(segment)
  {
    assert "%2e"[0] == '%' && "%2E"[0] == '%';
  }

  lemma PlainHasNoDots(rel: string)
    requires forall i :: 0 <= i < |rel| ==> !IsPathBreaking(rel[i])
    requires forall segment :: segment in Split(rel, "/") ==> segment != "." && segment != ".."
    ensures forall i :: 0 <= i < |Split(rel, "/")| ==> !IsDot(Split(rel, "/")[i]) && !IsDotDot(Split(rel, "/")[i])
  {
    forall i | 0 <= i < |Split(rel, "/")| ensures !IsDot(Split(rel, "/")[i]) && !IsDotDot(Split(rel, "/")[i]) {
      var segment := Split(rel, "/")[i];
      assert '%' !in rel;
      PieceWithin(rel, segment);
      NoEscapeNoDot(segment);
    }
  }
}
