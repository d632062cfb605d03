/** Finding the first private-key block in PEM text (RFC 7468 section 2). */
module Pem {
  import opened Wrappers

  // ----- Text

  /** The characters with the Unicode White_Space property. */
  predicate IsWhitespace(c: char) {
    var n := c as int;
    || 0x09 <= n <= 0x0D || n in {0x20, 0x85, 0xA0, 0x1680, 0x2028, 0x2029, 0x202F, 0x205F, 0x3000}
    || 0x2000 <= n <= 0x200A
  }

  function TrimStart(s: string): (r: string)
    ensures forall c :: c in r ==> c in s
    decreases |s|
  {
    if s != "" && IsWhitespace(s[0]) then TrimStart(s[1..]) else s
  }

  function TrimEnd(s: string): (r: string)
    ensures forall c :: c in r ==> c in s
    decreases |s|
  {
    if s != "" && IsWhitespace(s[|s| - 1]) then TrimEnd(s[..|s| - 1]) else s
  }

  function Trim(s: string): string {
    TrimEnd(TrimStart(s))
  }

  function StripPrefix(s: string, prefix: string): Option<string> {
    if prefix <= s then Some(s[|prefix|..]) else None
  }

  function StripSuffix(s: string, suffix: string): Option<string> {
    if |suffix| <= |s| && s[|s| - |suffix|..] == suffix then Some(s[..|s| - |suffix|]) else None
  }

  function StripCr(line: string): string {
    if line != "" && line[|line| - 1] == '\r' then line[..|line| - 1] else line
  }

  function NewlineAt(s: string): (k: nat)
    ensures k <= |s| && '\n' !in s[..k] && (k < |s| ==> s[k] == '\n')
    decreases |s|
  {
    if s == "" || s[0] == '\n' then 0
    else
      var k := NewlineAt(s[1..]);
      assert s[..k + 1] == [s[0]] + s[1..][..k];
      k + 1
  }

  /** `str::lines`: each line ends at a newline, an optional carriage return before it removed too. */
  function Lines(text: string): (ls: seq<string>)
    ensures forall l :: l in ls ==> '\n' !in l
    decreases |text|
  {
    if text == "" then []
    else
      var k := NewlineAt(text);
      if k == |text| then assert text[..k] == text; [text] else [StripCr(text[..k])] + Lines(text[k + 1..])
  }

  function Unlines(ls: seq<string>): string
    decreases |ls|
  {
    if ls == [] then "" else ls[0] + "\n" + Unlines(ls[1..])
  }

  // ----- Markers

  datatype Mark = Begin(name: string) | End(name: string) | Plain

  function Between(trimmed: string, prefix: string): Option<string> {
    match StripPrefix(trimmed, prefix)
    case None => None
    case Some(rest) => StripSuffix(rest, "-----")
  }

  function MarkOf(line: string): Mark {
    var trimmed := Trim(line);
    match Between(trimmed, "-----BEGIN ")
    case Some(name) => Begin(name)
    case None =>
      match Between(trimmed, "-----END ")
      case Some(name) => End(name)
      case None => Plain
  }

  const ACCEPTED: seq<string> := ["PRIVATE KEY", "EC PRIVATE KEY", "RSA PRIVATE KEY"]

  function BeginLine(name: string): string {
    "-----BEGIN " + name + "-----"
  }

  function EndLine(name: string): string {
    "-----END " + name + "-----"
  }

  function Marks(lines: seq<string>): (marks: seq<Mark>)
    ensures |marks| == |lines| && forall i :: 0 <= i < |lines| ==> marks[i] == MarkOf(lines[i])
  {
    if lines == [] then [] else [MarkOf(lines[0])] + Marks(lines[1..])
  }

  // ----- What is extracted

  /** A BEGIN and an END with the same accepted name, and no marker between. */
  ghost predicate IsBlock(accepted: seq<string>, marks: seq<Mark>, b: nat, e: nat) {
    && b < e < |marks|
    && marks[b].Begin? && marks[e] == End(marks[b].name)
    && marks[b].name in accepted
    && PlainBetween(marks, b + 1, e)
  }

  ghost predicate PlainBetween(marks: seq<Mark>, lo: nat, hi: nat)
    requires hi <= |marks|
  {
    forall k :: lo <= k < hi ==> marks[k].Plain?
  }

  ghost predicate NoBlockBefore(accepted: seq<string>, marks: seq<Mark>, hi: nat) {
    forall b: nat, e: nat :: e < hi ==> !IsBlock(accepted, marks, b, e)
  }

  function Wrap(first: string, body: seq<string>, last: string): string {
    first + "\n" + Unlines(body) + last + "\n"
  }

  function Render(name: string, body: seq<string>): string {
    Wrap(BeginLine(name), body, EndLine(name))
  }

  /** `block` is the block that ends first, with exactly the lines between its markers. */
  ghost predicate Extracts(accepted: seq<string>, lines: seq<string>, b: nat, e: nat, block: string) {
    && IsBlock(accepted, Marks(lines), b, e) && NoBlockBefore(accepted, Marks(lines), e)
    && block == Render(Marks(lines)[b].name, lines[b + 1..e])
  }

  datatype PemError = NoMatchingBlock

  lemma {:induction false} UnlinesAppend(ls: seq<string>, line: string)
    ensures Unlines(ls + [line]) == Unlines(ls) + line + "\n"
    decreases |ls|
  {
    if ls == [] {
      assert [line][1..] == [];
    } else {
      UnlinesAppend(ls[1..], line);
      assert (ls + [line])[1..] == ls[1..] + [line];
    }
  }

  /** After the marks before `i`: `last` is the latest that is not plain (-1: none), and no block ended. */
  ghost predicate Scanned(accepted: seq<string>, marks: seq<Mark>, i: nat, last: int)
    requires i <= |marks|
  {
    && -1 <= last < i
    && PlainBetween(marks, last + 1, i)
    && (last >= 0 ==> !marks[last].Plain?)
    && NoBlockBefore(accepted, marks, i)
  }

  /** An open BEGIN gives the current name, and the lines since it the current body. */
  ghost predicate Open(
    marks: seq<Mark>, lines: seq<string>, i: nat, last: int, currentName: Option<string>, currentBody: string)
    requires -1 <= last < i <= |lines| == |marks|
  {
    match currentName
    case Some(name) => last >= 0 && marks[last] == Begin(name) && currentBody == Unlines(lines[last + 1..i])
    case None => last < 0 || marks[last].End?
  }

  lemma ScanNonEnd(accepted: seq<string>, marks: seq<Mark>, i: nat, last: int)
    requires i < |marks| && Scanned(accepted, marks, i, last) && !marks[i].End?
    ensures Scanned(accepted, marks, i + 1, if marks[i].Plain? then last else i)
  {}

  lemma ScanEnd(accepted: seq<string>, marks: seq<Mark>, i: nat, last: int)
    requires i < |marks| && Scanned(accepted, marks, i, last) && marks[i].End?
    requires last >= 0 && marks[last] == Begin(marks[i].name) ==> marks[i].name !in accepted
    ensures Scanned(accepted, marks, i + 1, i)
  {
    forall b: nat | IsBlock(accepted, marks, b, i) ensures b == last {}
  }

  lemma SliceGrows<T>(s: seq<T>, lo: nat, i: nat)
    requires lo <= i < |s|
    ensures s[lo..i + 1] == s[lo..i] + [s[i]]
  {}

  lemma BodyGrows(lines: seq<string>, lo: nat, i: nat, body: string)
    requires lo <= i < |lines| && body == Unlines(lines[lo..i])
    ensures body + lines[i] + "\n" == Unlines(lines[lo..i + 1])
  {
    UnlinesAppend(lines[lo..i], lines[i]);
    SliceGrows(lines, lo, i);
  }

  lemma NothingYet(lines: seq<string>, i: nat)
    requires i < |lines|
    ensures Unlines(lines[i + 1..i + 1]) == ""
  {
    assert lines[i + 1..i + 1] == [];
  }

  datatype Found = Found(name: string, body: string)

  /** One pass over the lines, each with its classification, keeping the open name and its body so far. */
  method Scan(accepted: seq<string>, marks: seq<Mark>, lines: seq<string>)
    returns (r: Option<Found>, ghost b: nat, ghost e: nat)
    requires |marks| == |lines|
    ensures r.Some? ==> IsBlock(accepted, marks, b, e) && NoBlockBefore(accepted, marks, e)
    ensures r.Some? ==> r.value == Found(marks[b].name, Unlines(lines[b + 1..e]))
    ensures r.None? ==> NoBlockBefore(accepted, marks, |lines|)
  {
    var currentName: Option<string> := None;
    var currentBody := "";
    ghost var last := -1;
    b, e := 0, 0;
    for i := 0 to |lines|
      invariant Scanned(accepted, marks, i, last)
      invariant Open(marks, lines, i, last, currentName, currentBody)
    {
      match marks[i] {
        case Begin(name) =>
          ScanNonEnd(accepted, marks, i, last);
          NothingYet(lines, i);
          currentName, currentBody, last := Some(name), "", i;
        case End(name) =>
          if currentName == Some(name) && name in accepted {
            b, e := last, i;
            return Some(Found(name, currentBody)), b, e;
          }
          ScanEnd(accepted, marks, i, last);
          currentName, currentBody, last := None, "", i;
        case Plain =>
          ScanNonEnd(accepted, marks, i, last);
          if currentName.Some? {
            BodyGrows(lines, last + 1, i, currentBody);
            currentBody := currentBody + lines[i] + "\n";
          }
      }
    }
    r := None;
  }

  /** The scanner returns the block that ends first, body lines verbatim; it fails exactly if there is none. */
  method ExtractPrivateKey(text: string) returns (r: Result<string, PemError>)
    ensures r.Success? ==> exists b, e :: Extracts(ACCEPTED, Lines(text), b, e, r.value)
    ensures r.Failure? ==> NoBlockBefore(ACCEPTED, Marks(Lines(text)), |Lines(text)|)
  {
    var lines := Lines(text);
    var found;
    ghost var b, e;
    found, b, e := Scan(ACCEPTED, Marks(lines), lines);
    match found {
      case Some(f) =>
        r := Success(BeginLine(f.name) + "\n" + f.body + EndLine(f.name) + "\n");
        assert Extracts(ACCEPTED, lines, b, e, r.value);
      case None =>
        r := Failure(NoMatchingBlock);
    }
  }

  lemma FirstBlockIsUnique(accepted: seq<string>, marks: seq<Mark>, b: nat, e: nat, b': nat, e': nat)
    requires IsBlock(accepted, marks, b, e) && NoBlockBefore(accepted, marks, e)
    requires IsBlock(accepted, marks, b', e') && NoBlockBefore(accepted, marks, e')
    ensures b == b' && e == e'
  {
    assert e == e';
  }

  /** At most one answer. */
  lemma ExtractionIsUnique(
    accepted: seq<string>, lines: seq<string>, b: nat, e: nat, block: string, b': nat, e': nat, block': string)
    requires Extracts(accepted, lines, b, e, block) && Extracts(accepted, lines, b', e', block')
    ensures b == b' && e == e' && block == block'
  {
    FirstBlockIsUnique(accepted, Marks(lines), b, e, b', e');
  }

  // ----- Extracting again

  lemma {:induction false} TrimStartAppend(s: string, c: char)
    requires IsWhitespace(c)
    ensures TrimStart(s + [c]) == if TrimStart(s) == "" then "" else TrimStart(s) + [c]
    decreases |s|
  {
    if s == "" {
      assert [c][1..] == "";
    } else if IsWhitespace(s[0]) {
      TrimStartAppend(s[1..], c);
      assert (s + [c])[1..] == s[1..] + [c];
    }
  }

  lemma TrimIgnoresCr(line: string)
    ensures Trim(StripCr(line)) == Trim(line)
  {
    var s := StripCr(line);
    if s != line {
      TrimStartAppend(s, '\r');
      assert line == s + "\r";
      var t := TrimStart(s);
      if t != "" { assert (t + "\r")[..|t|] == t; }
    }
  }

  lemma TrimKeeps(s: string)
    requires s != "" && !IsWhitespace(s[0]) && !IsWhitespace(s[|s| - 1])
    ensures Trim(s) == s
  {}

  lemma MarkersAreMarks(name: string)
    ensures MarkOf(BeginLine(name)) == Begin(name)
    ensures MarkOf(EndLine(name)) == End(name)
  {
    TrimKeeps(BeginLine(name));
    TrimKeeps(EndLine(name));
    assert BeginLine(name)[11..] == name + "-----";
    assert EndLine(name)[9..] == name + "-----";
    assert (name + "-----")[|name|..] == "-----" && (name + "-----")[..|name|] == name;
    assert EndLine(name)[5] == 'E' && "-----BEGIN "[5] == 'B';
  }

  lemma NewlineAtEnd(line: string, rest: string)
    requires '\n' !in line
    ensures NewlineAt(line + "\n" + rest) == |line|
  {
    var s := line + "\n" + rest;
    var k := NewlineAt(s);
    assert forall i :: 0 <= i < |line| ==> s[i] == line[i] && line[i] in line;
    assert s[|line|] == '\n';
    assert forall i :: 0 <= i < k ==> s[i] == s[..k][i] && s[i] in s[..k];
  }

  predicate Blank(s: string) {
    forall i :: 0 <= i < |s| ==> IsWhitespace(s[i])
  }

  lemma {:induction false} TrimStartSplits(s: string) returns (pre: string)
    ensures Blank(pre) && s == pre + TrimStart(s)
    ensures TrimStart(s) != "" ==> !IsWhitespace(TrimStart(s)[0])
    decreases |s|
  {
    pre := "";
    if s != "" && IsWhitespace(s[0]) {
      var rest := TrimStartSplits(s[1..]);
      pre := [s[0]] + rest;
      assert s == [s[0]] + s[1..];
    }
  }

  lemma {:induction false} TrimEndSplits(s: string) returns (post: string)
    ensures Blank(post) && s == TrimEnd(s) + post
    ensures TrimEnd(s) != "" ==> !IsWhitespace(TrimEnd(s)[|TrimEnd(s)| - 1]) && TrimEnd(s)[0] == s[0]
    decreases |s|
  {
    post := "";
    if s != "" && IsWhitespace(s[|s| - 1]) {
      var front := s[..|s| - 1];
      var rest := TrimEndSplits(front);
      post := rest + [s[|s| - 1]];
      assert s == front + [s[|s| - 1]];
    }
  }

  lemma {:induction false} TrimStartDrops(pre: string, s: string)
    requires Blank(pre) && s != "" && !IsWhitespace(s[0])
    ensures TrimStart(pre + s) == s
    decreases |pre|
  {
    if pre == "" {
      assert pre + s == s;
    } else {
      assert (pre + s)[1..] == pre[1..] + s;
      TrimStartDrops(pre[1..], s);
    }
  }

  lemma {:induction false} TrimEndDrops(s: string, post: string)
    requires Blank(post) && s != "" && !IsWhitespace(s[|s| - 1])
    ensures TrimEnd(s + post) == s
    decreases |post|
  {
    if post == "" {
      assert s + post == s;
    } else {
      assert (s + post)[..|s + post| - 1] == s + post[..|post| - 1];
      TrimEndDrops(s, post[..|post| - 1]);
    }
  }

  /** The line is this marker, with white space around it at most. */
  ghost predicate IsMarker(line: string, marker: string) {
    exists pre, post :: Blank(pre) && Blank(post) && line == pre + marker + post
  }

  lemma TrimmedIff(line: string, marker: string)
    requires marker != "" && !IsWhitespace(marker[0]) && !IsWhitespace(marker[|marker| - 1])
    ensures Trim(line) == marker <==> IsMarker(line, marker)
  {
    var pre := TrimStartSplits(line);
    var post := TrimEndSplits(TrimStart(line));
    assert line == pre + Trim(line) + post;
    if IsMarker(line, marker) {
      var x, y :| Blank(x) && Blank(y) && line == x + marker + y;
      assert line == x + (marker + y);
      TrimStartDrops(x, marker + y);
      TrimEndDrops(marker, y);
    }
  }

  lemma TrimmedMark(line: string)
    ensures MarkOf(line).Begin? ==> Trim(line) == BeginLine(MarkOf(line).name)
    ensures MarkOf(line).End? ==> Trim(line) == EndLine(MarkOf(line).name)
  {
  }

  lemma MarkOfTrimmed(line: string, other: string)
    requires Trim(line) == Trim(other)
    ensures MarkOf(line) == MarkOf(other)
  {}

  /** Exactly which lines are markers. */
  lemma MarkIff(line: string, name: string)
    ensures MarkOf(line) == Begin(name) <==> IsMarker(line, "-----BEGIN " + name + "-----")
    ensures MarkOf(line) == End(name) <==> IsMarker(line, "-----END " + name + "-----")
  {
    MarkersAreMarks(name);
    TrimmedMark(line);
    TrimKeeps(BeginLine(name));
    TrimKeeps(EndLine(name));
    TrimmedIff(line, BeginLine(name));
    TrimmedIff(line, EndLine(name));
    if Trim(line) == BeginLine(name) { MarkOfTrimmed(line, BeginLine(name)); }
    if Trim(line) == EndLine(name) { MarkOfTrimmed(line, EndLine(name)); }
  }

  lemma AcceptedIff(name: string)
    ensures name in ACCEPTED <==> name == "PRIVATE KEY" || name == "EC PRIVATE KEY" || name == "RSA PRIVATE KEY"
  {}

  function StripAll(ls: seq<string>): (r: seq<string>)
    ensures |r| == |ls| && forall i :: 0 <= i < |ls| ==> r[i] == StripCr(ls[i])
  {
    if ls == [] then [] else [StripCr(ls[0])] + StripAll(ls[1..])
  }

  ghost predicate OneLiners(ls: seq<string>) {
    forall i :: 0 <= i < |ls| ==> '\n' !in ls[i]
  }

  lemma NoNewline(tail: string)
    requires '\n' !in tail
    ensures Lines(tail) == if tail == "" then [] else [tail]
  {
    forall i | 0 <= i < |tail| ensures tail[i] != '\n' {
      assert tail[i] in tail;
    }
  }

  /** Every text is some whole lines and a rest; a rest that is not empty is a line too, and keeps its carriage return. */
  lemma {:induction false} LinesOfText(ls: seq<string>, tail: string)
    requires OneLiners(ls) && '\n' !in tail
    ensures Lines(Unlines(ls) + tail) == StripAll(ls) + if tail == "" then [] else [tail]
    decreases |ls|
  {
    if ls == [] {
      assert Unlines(ls) + tail == tail;
      NoNewline(tail);
    } else {
      var rest := Unlines(ls[1..]) + tail;
      NewlineAtEnd(ls[0], rest);
      var text := ls[0] + "\n" + rest;
      assert Unlines(ls) + tail == text;
      assert text[..|ls[0]|] == ls[0] && text[|ls[0]| + 1..] == rest;
      LinesOfText(ls[1..], tail);
    }
  }

  lemma LinesOfUnlines(ls: seq<string>)
    requires OneLiners(ls)
    ensures Lines(Unlines(ls)) == StripAll(ls)
  {
    LinesOfText(ls, "");
    assert Unlines(ls) + "" == Unlines(ls);
  }

  lemma {:induction false} UnlinesInjective(x: seq<string>, y: seq<string>)
    requires OneLiners(x) && OneLiners(y) && |x| == |y| && Unlines(x) == Unlines(y)
    ensures x == y
    decreases |x|
  {
    if x != [] {
      var u, v := Unlines(x[1..]), Unlines(y[1..]);
      NewlineAtEnd(x[0], u);
      NewlineAtEnd(y[0], v);
      var n := |x[0]|;
      assert (x[0] + "\n" + u)[..n] == x[0] && (y[0] + "\n" + v)[..n] == y[0];
      assert (x[0] + "\n" + u)[n + 1..] == u && (y[0] + "\n" + v)[n + 1..] == v;
      UnlinesInjective(x[1..], y[1..]);
      assert x == [x[0]] + x[1..] && y == [y[0]] + y[1..];
    }
  }

  lemma NameIsClean(line: string)
    requires '\n' !in line && MarkOf(line).Begin?
    ensures '\n' !in MarkOf(line).name
  {}

  lemma Bracketed(first: string, body: seq<string>, last: string)
    ensures Unlines([first] + body + [last]) == Wrap(first, body, last)
  {
    UnlinesAppend([first] + body, last);
    assert ([first] + body)[1..] == body;
  }

  lemma StripAllParts(first: string, body: seq<string>, last: string)
    requires StripCr(first) == first && StripCr(last) == last
    ensures StripAll([first] + body + [last]) == [first] + StripAll(body) + [last]
  {}

  lemma MarkerLinesAreClean(name: string)
    requires '\n' !in name
    ensures '\n' !in BeginLine(name) && '\n' !in EndLine(name)
    ensures StripCr(BeginLine(name)) == BeginLine(name) && StripCr(EndLine(name)) == EndLine(name)
  {}

  lemma LinesOfWrap(first: string, body: seq<string>, last: string)
    requires '\n' !in first && StripCr(first) == first && '\n' !in last && StripCr(last) == last && OneLiners(body)
    ensures Lines(Wrap(first, body, last)) == [first] + StripAll(body) + [last]
  {
    Bracketed(first, body, last);
    LinesOfUnlines([first] + body + [last]);
    StripAllParts(first, body, last);
  }

  lemma BracketIsFirst(accepted: seq<string>, marks: seq<Mark>, name: string)
    requires |marks| >= 2 && marks[0] == Begin(name) && marks[|marks| - 1] == End(name) && name in accepted
    requires PlainBetween(marks, 1, |marks| - 1)
    ensures IsBlock(accepted, marks, 0, |marks| - 1) && NoBlockBefore(accepted, marks, |marks| - 1)
  {}

  lemma BlockWithin(accepted: seq<string>, name: string, first: string, body: seq<string>, last: string)
    requires name in accepted && MarkOf(first) == Begin(name) && MarkOf(last) == End(name)
    requires forall i :: 0 <= i < |body| ==> MarkOf(body[i]).Plain?
    ensures var lines := [first] + body + [last];
            && IsBlock(accepted, Marks(lines), 0, |body| + 1) && NoBlockBefore(accepted, Marks(lines), |body| + 1)
            && lines[1..|body| + 1] == body && Marks(lines)[0].name == name
  {
    var lines := [first] + body + [last];
    assert lines[0] == first && lines[|body| + 1] == last;
    assert forall k :: 1 <= k < |body| + 1 ==> lines[k] == body[k - 1];
    BracketIsFirst(accepted, Marks(lines), name);
  }

  lemma WrapInjective(first: string, x: seq<string>, y: seq<string>, last: string)
    requires OneLiners(x) && OneLiners(y) && |x| == |y|
    ensures Wrap(first, x, last) == Wrap(first, y, last) <==> x == y
  {
    if Wrap(first, x, last) == Wrap(first, y, last) {
      var r := Wrap(first, x, last);
      var lo, hi := |first| + 1, |r| - |last| - 1;
      assert r[lo..hi] == Unlines(x);
      assert r[lo..hi] == Unlines(y);
      UnlinesInjective(x, y);
    }
  }

  lemma StrippedStayPlain(lines: seq<string>)
    requires forall i :: 0 <= i < |lines| ==> MarkOf(lines[i]).Plain?
    ensures forall i :: 0 <= i < |lines| ==> MarkOf(StripAll(lines)[i]).Plain?
  {
    forall i | 0 <= i < |lines| ensures MarkOf(StripAll(lines)[i]).Plain? { TrimIgnoresCr(lines[i]); }
  }

  lemma StripSliceIff(lines: seq<string>, lo: nat, hi: nat)
    requires lo <= hi <= |lines|
    ensures StripAll(lines[lo..hi]) == lines[lo..hi] <==> forall k :: lo <= k < hi ==> StripCr(lines[k]) == lines[k]
  {
    var body := lines[lo..hi];
    assert forall k :: lo <= k < hi ==> body[k - lo] == lines[k];
  }

  lemma StrippedWrapIff(first: string, lines: seq<string>, lo: nat, hi: nat, last: string)
    requires OneLiners(lines) && lo <= hi <= |lines|
    ensures Wrap(first, StripAll(lines[lo..hi]), last) == Wrap(first, lines[lo..hi], last) <==>
            forall k :: lo <= k < hi ==> StripCr(lines[k]) == lines[k]
  {
    WrapInjective(first, StripAll(lines[lo..hi]), lines[lo..hi], last);
    StripSliceIff(lines, lo, hi);
  }

  lemma WrapExtracts(accepted: seq<string>, name: string, first: string, body: seq<string>, last: string)
    requires name in accepted && MarkOf(first) == Begin(name) && MarkOf(last) == End(name)
    requires '\n' !in first && StripCr(first) == first && '\n' !in last && StripCr(last) == last && OneLiners(body)
    requires forall i :: 0 <= i < |body| ==> MarkOf(body[i]).Plain?
    ensures Extracts(accepted, Lines(Wrap(first, body, last)), 0, |body| + 1, Render(name, StripAll(body)))
  {
    LinesOfWrap(first, body, last);
    StrippedStayPlain(body);
    BlockWithin(accepted, name, first, StripAll(body), last);
  }

  lemma RenderedExtracts(accepted: seq<string>, name: string, body: seq<string>)
    requires name in accepted && '\n' !in name && OneLiners(body)
    requires forall i :: 0 <= i < |body| ==> MarkOf(body[i]).Plain?
    ensures Extracts(accepted, Lines(Render(name, body)), 0, |body| + 1, Render(name, StripAll(body)))
  {
    MarkersAreMarks(name);
    MarkerLinesAreClean(name);
    WrapExtracts(accepted, name, BeginLine(name), body, EndLine(name));
  }

  lemma BodyIsPlain(accepted: seq<string>, lines: seq<string>, b: nat, e: nat)
    requires IsBlock(accepted, Marks(lines), b, e)
    ensures var body := lines[b + 1..e];
            forall i :: 0 <= i < |body| ==> MarkOf(body[i]).Plain?
  {
    var body := lines[b + 1..e];
    assert forall i :: 0 <= i < |body| ==> body[i] == lines[b + 1 + i] && MarkOf(body[i]) == Marks(lines)[b + 1 + i];
  }

  /** What a second extraction returns, from an extracted block. */
  function Second(lines: seq<string>, b: nat, e: nat): string
    requires b < e <= |lines| && MarkOf(lines[b]).Begin?
  {
    Render(MarkOf(lines[b]).name, StripAll(lines[b + 1..e]))
  }

  lemma SecondIsSameIff(lines: seq<string>, b: nat, e: nat, block: string)
    requires OneLiners(lines) && b < e <= |lines| && MarkOf(lines[b]).Begin?
    requires block == Render(MarkOf(lines[b]).name, lines[b + 1..e])
    ensures Second(lines, b, e) == block <==> forall k :: b < k < e ==> StripCr(lines[k]) == lines[k]
  {
    var name := MarkOf(lines[b]).name;
    StrippedWrapIff(BeginLine(name), lines, b + 1, e, EndLine(name));
  }

  lemma BlockParts(accepted: seq<string>, lines: seq<string>, b: nat, e: nat, block: string)
    returns (name: string, body: seq<string>)
    requires OneLiners(lines) && Extracts(accepted, lines, b, e, block)
    ensures b < e < |lines| && MarkOf(lines[b]) == Begin(name) && body == lines[b + 1..e]
    ensures name in accepted && '\n' !in name && OneLiners(body)
    ensures forall i :: 0 <= i < |body| ==> MarkOf(body[i]).Plain?
    ensures block == Render(name, body) && e - b == |body| + 1
    ensures Second(lines, b, e) == Render(name, StripAll(body))
  {
    name, body := Marks(lines)[b].name, lines[b + 1..e];
    NameIsClean(lines[b]);
    BodyIsPlain(accepted, lines, b, e);
  }

  lemma ExtractsAgain(accepted: seq<string>, lines: seq<string>, b: nat, e: nat, block: string)
    requires OneLiners(lines) && Extracts(accepted, lines, b, e, block)
    ensures Extracts(accepted, Lines(block), 0, e - b, Second(lines, b, e))
  {
    var name, body := BlockParts(accepted, lines, b, e, block);
    RenderedExtracts(accepted, name, body);
  }

  lemma SecondIsFirstIff(accepted: seq<string>, lines: seq<string>, b: nat, e: nat, block: string)
    requires OneLiners(lines) && Extracts(accepted, lines, b, e, block)
    ensures Second(lines, b, e) == block <==> forall k :: b < k < e ==> StripCr(lines[k]) == lines[k]
  {
    var _, _ := BlockParts(accepted, lines, b, e, block);
    SecondIsSameIff(lines, b, e, block);
  }

  /**
   A block extracted is a block to extract again, in the same place; the second extraction gives the
   first back unchanged exactly when no body line still ends in a carriage return.
   */
  lemma ExtractAgainIff(accepted: seq<string>, lines: seq<string>, b: nat, e: nat, block: string)
    requires OneLiners(lines) && Extracts(accepted, lines, b, e, block)
    ensures Extracts(accepted, Lines(block), 0, e - b, Second(lines, b, e))
    ensures Second(lines, b, e) == block <==> forall k :: b < k < e ==> StripCr(lines[k]) == lines[k]
  {
    ExtractsAgain(accepted, lines, b, e, block);
    SecondIsFirstIff(accepted, lines, b, e, block);
  }

  lemma NotAPrefix(marker: string, text: string)
    requires marker != "" && marker[0] !in text
    ensures !(marker <= text)
  {}

  lemma NoDashIsPlain(line: string)
    requires '-' !in line
    ensures MarkOf(line).Plain?
  {
    var trimmed := Trim(line);
    assert '-' !in trimmed;
    NotAPrefix("-----BEGIN ", trimmed);
    NotAPrefix("-----END ", trimmed);
  }

  /** One body line, extracted once: it loses a carriage return. */
  lemma OneLineExtracts(accepted: seq<string>, name: string, line: string)
    requires name in accepted && '\n' !in name && '\n' !in line && '-' !in line
    ensures Extracts(accepted, Lines(Render(name, [line])), 0, 2, Render(name, [StripCr(line)]))
  {
    NoDashIsPlain(line);
    RenderedExtracts(accepted, name, [line]);
    assert StripAll([line]) == [StripCr(line)];
  }

  /** So extraction is not idempotent: a line written with two carriage returns loses one each time. */
  lemma SecondCanDiffer(accepted: seq<string>, name: string) returns (text: string, first: string, second: string)
    requires name in accepted && '\n' !in name
    ensures Extracts(accepted, Lines(text), 0, 2, first) && Extracts(accepted, Lines(first), 0, 2, second)
    ensures first != second
  {
    var line, bare := "x\r\r", "x\r";
    text, first, second := Render(name, [line]), Render(name, [bare]), Render(name, [StripCr(bare)]);
    assert StripCr(line) == bare;
    OneLineExtracts(accepted, name, line);
    OneLineExtracts(accepted, name, bare);
    WrapInjective(BeginLine(name), [bare], [StripCr(bare)], EndLine(name));
  }
}
