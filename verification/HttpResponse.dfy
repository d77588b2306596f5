/** The response side of an HTTP/1.1 request: HTTPRequest.hpp reads it piece by piece as recv returns it. */
module HttpResponse {
  import opened Arithmetic
  import opened Bytes
  import opened Wrappers

  type Text = seq<Byte>

  const CR: Byte := 13
  const LF: Byte := 10
  const SPACE: Byte := 32
  const TAB: Byte := 9
  const COLON: Byte := 58
  /** unsigned long has 64 bits, as on most 64-bit systems but Windows. */
  const ULONG: nat := 0x1_0000_0000_0000_0000

  function Ascii(s: string): Text {
    if s == "" then [] else [(s[0] as int) % 256] + Ascii(s[1..])
  }

  // std::stoul and std::stoi.

  datatype Failure = InvalidHeader | UnsupportedEncoding | InvalidChunk | NotANumber | NumberTooBig

  datatype Result<T> = Value(value: T) | Failed(failure: Failure)

  function Digit(c: Byte): nat {
    if 48 <= c < 58 then c - 48 else if 97 <= c < 123 then c - 87 else if 65 <= c < 91 then c - 55 else 99
  }

  function DigitCount(s: Text, base: nat): nat { if s == [] || Digit(s[0]) >= base then 0 else 1 + DigitCount(s[1..], base) }

  function Number(s: Text, base: nat): nat {
    if s == [] then 0 else Number(s[..|s| - 1], base) * base + Digit(s[|s| - 1])
  }

  predicate IsSpace(c: Byte) { c == SPACE || TAB <= c <= CR }

  function SkipSpaces(s: Text): Text { if s != [] && IsSpace(s[0]) then SkipSpaces(s[1..]) else s }

  /** The sign and the magnitude that strtol finds at the front of s. */
  function Scanned(s: Text, base: nat): Option<(bool, nat)> {
    var t := SkipSpaces(s);
    var negative := t != [] && t[0] == 45;
    var u := if t != [] && (t[0] == 45 || t[0] == 43) then t[1..] else t;
    var hex := base == 16 && |u| >= 3 && u[0] == 48 && (u[1] == 120 || u[1] == 88) && Digit(u[2]) < 16;
    var v := if hex then u[2..] else u;
    var n := DigitCount(v, base);
    if n == 0 then None else DigitsWithin(v, base); Some((negative, Number(v[..n], base)))
  }

  lemma {:induction false} DigitsWithin(s: Text, base: nat)
    ensures DigitCount(s, base) <= |s| && forall i :: 0 <= i < DigitCount(s, base) ==> Digit(s[i]) < base
  {
    if s != [] && Digit(s[0]) < base { DigitsWithin(s[1..], base); }
  }

  function Stoul(s: Text, base: nat): Result<nat> {
    match Scanned(s, base)
    case None => Failed(NotANumber)
    case Some((negative, n)) =>
      if n >= ULONG then Failed(NumberTooBig) else Value(if negative && n > 0 then ULONG - n else n)
  }

  function Stoi(s: Text): Result<int> {
    match Scanned(s, 10)
    case None => Failed(NotANumber)
    case Some((negative, n)) =>
      var m: int := n;
      if m > 0x7fff_ffff + (if negative then 1 else 0) then Failed(NumberTooBig) else Value(if negative then -m else m)
  }

  // Searching.

  function Find(s: Text, c: Byte): (i: nat)
    ensures i <= |s| && (i < |s| ==> s[i] == c)
  {
    if s == [] || s[0] == c then 0 else 1 + Find(s[1..], c)
  }

  predicate CrlfAt(s: Text, i: nat) { i + 2 <= |s| && s[i] == CR && s[i + 1] == LF }

  /** std::search for a CRLF. */
  function FindCrlf(s: Text): (i: nat)
    ensures i <= |s| && (i < |s| ==> CrlfAt(s, i)) && forall j :: 0 <= j < i ==> !CrlfAt(s, j)
  {
    if s == [] || CrlfAt(s, 0) then 0 else
      var i := FindCrlf(s[1..]);
      assert forall j :: 1 <= j < |s| ==> (CrlfAt(s, j) <==> CrlfAt(s[1..], j - 1));
      1 + i
  }

  // The parser.

  datatype Response = Response(status: int, description: Text, headers: seq<Text>, body: Text)

  datatype Phase = ParsingStatusLine | ParsingHeaders | ParsingBody

  datatype Outcome = Reading | Returned | Thrown(failure: Failure)

  datatype Parser = Parser(phase: Phase, response: Response, data: Text, contentLength: Option<nat>, chunked: bool,
                           expectedChunkSize: nat, removeCrlfAfterChunk: bool, outcome: Outcome)

  function Initial(): Parser {
    Parser(ParsingStatusLine, Response(0, [], [], []), [], None, false, 0, false, Reading)
  }

  function Throw(p: Parser, failure: Failure): Parser { p.(outcome := Thrown(failure)) }

  function StatusLine(p: Parser, line: Text): Parser {
    var q := p.(phase := ParsingHeaders);
    var i := Find(line, SPACE);
    if i == |line| then q else
      var rest := line[i + 1..];
      var j := Find(rest, SPACE);
      match Stoi(rest[..j])
      case Failed(failure) => Throw(q, failure)
      case Value(status) =>
        q.(response := q.response.(status := status, description := if j < |rest| then rest[j + 1..] else q.response.description))
  }

  function ToLower(s: Text): Text {
    if s == [] then [] else [if 65 <= s[0] < 91 then s[0] + 32 else s[0]] + ToLower(s[1..])
  }

  predicate IsBlank(c: Byte) { c == SPACE || c == TAB }

  function TrimLeft(s: Text): Text { if s != [] && IsBlank(s[0]) then TrimLeft(s[1..]) else s }

  function TrimRight(s: Text): Text { if s != [] && IsBlank(s[|s| - 1]) then TrimRight(s[..|s| - 1]) else s }

  function HeaderLine(p: Parser, line: Text): Parser {
    var q := p.(response := p.response.(headers := p.response.headers + [line]));
    var i := Find(line, COLON);
    if i == |line| then Throw(q, InvalidHeader) else
      var name, value := ToLower(line[..i]), TrimRight(TrimLeft(line[i + 1..]));
      if name == Ascii("content-length") then
        match Stoul(value, 10)
        case Failed(failure) => Throw(q, failure)
        case Value(n) => q.(contentLength := Some(n))
      else if name == Ascii("transfer-encoding") then
        if value == Ascii("chunked") then q.(chunked := true) else Throw(q, UnsupportedEncoding)
      else q
  }

  /** A line of the header section. */
  function HeadLine(p: Parser, line: Text): Parser {
    if line == [] then p.(phase := ParsingBody)
    else if p.phase == ParsingStatusLine then StatusLine(p, line)
    else HeaderLine(p, line)
  }

  function ChunkLine(p: Parser, line: Text): Parser {
    match Stoul(line, 16)
    case Failed(failure) => Throw(p, failure)
    case Value(n) => p.(expectedChunkSize := n, outcome := if n == 0 then Returned else p.outcome)
  }

  /** The parser waits for the end of a line. */
  predicate InLine(p: Parser) {
    p.phase != ParsingBody || (p.chunked && p.expectedChunkSize == 0 && !p.removeCrlfAfterChunk)
  }

  function LineDone(p: Parser, line: Text): Parser {
    if p.phase != ParsingBody then HeadLine(p, line) else ChunkLine(p, line)
  }

  /** A body of known length is complete. */
  function Finish(p: Parser): Parser {
    if p.outcome == Reading && p.phase == ParsingBody && !p.chunked && p.contentLength.Some? && |p.response.body| >= p.contentLength.value
    then p.(outcome := Returned) else p
  }

  function AddToBody(p: Parser, bytes: Text): Parser { p.(response := p.response.(body := p.response.body + bytes)) }

  /** One byte more: the parser as it would be if every byte came alone. */
  function Take(p: Parser, c: Byte): Parser {
    var d := p.data + [c];
    if InLine(p) then
      if |d| >= 2 && CrlfAt(d, |d| - 2) then Finish(LineDone(p.(data := []), d[..|d| - 2])) else p.(data := d)
    else if !p.chunked then Finish(AddToBody(p, [c]))
    else if p.expectedChunkSize > 0 then
      AddToBody(p, [c]).(expectedChunkSize := p.expectedChunkSize - 1, removeCrlfAfterChunk := p.expectedChunkSize == 1)
    else if |d| < 2 then p.(data := d)
    else if d == [CR, LF] then p.(removeCrlfAfterChunk := false, data := [])
    else Throw(p, InvalidChunk)
  }

  /** The parser after s, and the bytes of s that it has not read because it was through. */
  function Run(p: Parser, s: Text): (Parser, Text)
    decreases |s|
  {
    if p.outcome != Reading || s == [] then (p, s) else Run(Take(p, s[0]), s[1..])
  }

  lemma {:induction false} RunJoined(p: Parser, a: Text, b: Text)
    ensures var (q, rest) := Run(p, a); Run(p, a + b) == if q.outcome == Reading then Run(q, b) else (q, rest + b)
    decreases |a|
  {
    hide Take;
    if p.outcome == Reading && a != [] {
      RunJoined(Take(p, a[0]), a[1..], b);
      assert (a + b)[1..] == a[1..] + b;
    } else if a == [] {
      assert a + b == b;
    }
  }

  // The program's parser works on whole pieces; what is left in data, it reads again from its first byte.

  /** What the bytes in p.data come to when they are read one by one. */
  function Reread(p: Parser): (Parser, Text) { Run(Finish(p.(data := [])), p.data) }

  /** Nothing in data can be read before more comes. */
  ghost predicate Waiting(p: Parser) {
    && p.outcome == Reading
    && (InLine(p) ==> FindCrlf(p.data) == |p.data|)
    && (!InLine(p) && !p.chunked ==> p.data == [] && Finish(p) == p)
    && (!InLine(p) && p.chunked ==> |p.data| < 2 && (p.expectedChunkSize > 0 ==> p.data == []))
    && (p.expectedChunkSize > 0 ==> !p.removeCrlfAfterChunk && p.chunked && p.phase == ParsingBody)
    && (p.removeCrlfAfterChunk ==> p.chunked && p.phase == ParsingBody)
  }

  /** Without a CRLF the bytes of a line collect in data. */
  lemma {:induction false} RunNoLine(p: Parser, d: Text, k: nat)
    requires p.outcome == Reading && InLine(p) && FindCrlf(d) == |d| && k <= |d|
    ensures Run(p.(data := d[..k]), d[k..]) == (p.(data := d), [])
    decreases |d| - k
  {
    hide LineDone, Finish;
    if k < |d| {
      var next := d[..k] + [d[k]];
      assert next == d[..k + 1] && d[k..][1..] == d[k + 1..];
      assert |next| >= 2 ==> (CrlfAt(next, |next| - 2) ==> CrlfAt(d, |next| - 2));
      assert forall j :: 0 <= j < |d| ==> !CrlfAt(d, j);
      RunNoLine(p, d, k + 1);
    } else {
      assert d[..k] == d;
    }
  }

  lemma TakeLine(p: Parser, a: Text)
    requires p.outcome == Reading && InLine(p) && a != [] && a[|a| - 1] == CR
    ensures Take(p.(data := a), LF) == Finish(LineDone(p.(data := []), a[..|a| - 1]))
  {
    hide LineDone, Finish;
    var d := a + [LF];
    assert CrlfAt(d, |d| - 2) && d[..|d| - 2] == a[..|a| - 1];
  }

  lemma RunToLineEnd(p: Parser, a: Text, b: Text)
    requires p.outcome == Reading && InLine(p) && FindCrlf(a) == |a| > 0 && a[|a| - 1] == CR && b != [] && b[0] == LF
    ensures Run(p.(data := []), a + b) == Run(Finish(LineDone(p.(data := []), a[..|a| - 1])), b[1..])
  {
    RunNoLine(p, a, 0);
    assert a[..0] == [] && a[0..] == a;
    hide Run, Take, InLine, LineDone, Finish, FindCrlf;
    RunJoined(p.(data := []), a, b);
    RunTake(p.(data := a), b);
    TakeLine(p, a);
  }

  /** With one, the line is handled, and the bytes behind it come next. */
  lemma RunLine(p: Parser, d: Text, i: nat)
    requires p.outcome == Reading && InLine(p) && i == FindCrlf(d) < |d|
    ensures Run(p.(data := []), d) == Run(Finish(LineDone(p.(data := []), d[..i])), d[i + 2..])
  {
    var a, b := d[..i + 1], d[i + 1..];
    NoCrlfYet(d, i);
    hide Run, Take, InLine, LineDone, Finish, FindCrlf;
    assert d == a + b && a[..|a| - 1] == d[..i] && b[1..] == d[i + 2..];
    RunToLineEnd(p, a, b);
  }

  lemma RunTake(p: Parser, s: Text)
    requires p.outcome == Reading && s != []
    ensures Run(p, s) == Run(Take(p, s[0]), s[1..])
  {
  }

  lemma NoCrlfYet(d: Text, i: nat)
    requires i == FindCrlf(d) < |d|
    ensures FindCrlf(d[..i + 1]) == i + 1 && d[i] == CR && d[i + 1] == LF && i + 2 <= |d|
  {
    var a := d[..i + 1];
    assert forall j :: 0 <= j < |a| ==> (CrlfAt(a, j) ==> CrlfAt(d, j));
  }

  lemma {:induction false} RunChunk(p: Parser, d: Text)
    requires p.outcome == Reading && p.phase == ParsingBody && p.chunked && p.expectedChunkSize > 0 && !p.removeCrlfAfterChunk
    ensures var n := if p.expectedChunkSize < |d| then p.expectedChunkSize else |d|;
      Run(p, d) == Run(AddToBody(p, d[..n]).(expectedChunkSize := p.expectedChunkSize - n,
                                             removeCrlfAfterChunk := n == p.expectedChunkSize), d[n..])
    decreases |d|
  {
    hide LineDone, Finish, CrlfAt;
    if d == [] {
      assert p.response.body + [] == p.response.body;
    } else if p.expectedChunkSize == 1 {
      assert d[..1] == [d[0]];
    } else {
      var q := Take(p, d[0]);
      RunChunk(q, d[1..]);
      var n := if p.expectedChunkSize < |d| then p.expectedChunkSize else |d|;
      assert [d[0]] + d[1..][..n - 1] == d[..n] && d[1..][n - 1..] == d[n..];
      assert q.response.body + d[1..][..n - 1] == p.response.body + d[..n];
    }
  }

  lemma TakeBody(p: Parser, c: Byte)
    requires p.outcome == Reading && p.phase == ParsingBody && !p.chunked
    ensures Take(p, c) == Finish(AddToBody(p, [c]))
  {
  }

  lemma AddTwice(p: Parser, a: Text, b: Text)
    ensures AddToBody(AddToBody(p, a), b) == AddToBody(p, a + b) && AddToBody(p, []) == p
  {
    assert p.response.body + a + b == p.response.body + (a + b) && p.response.body + [] == p.response.body;
  }

  lemma FinishMore(p: Parser, a: Text, b: Text)
    requires Finish(AddToBody(p, a)) != AddToBody(p, a)
    ensures Finish(AddToBody(p, a + b)).outcome == Finish(AddToBody(p, a)).outcome
  {
  }

  /** A body that is not chunked. */
  lemma {:induction false} RunBody(p: Parser, d: Text)
    requires p.outcome == Reading && p.phase == ParsingBody && !p.chunked && Finish(p) == p
    ensures var (q, rest) := Run(p, d);
      && |rest| <= |d| && rest == d[|d| - |rest|..] && q == Finish(AddToBody(p, d[..|d| - |rest|]))
      && (q.outcome == Reading ==> rest == [])
      && q.outcome == Finish(AddToBody(p, d)).outcome
    decreases |d|
  {
    AddTwice(p, [], []);
    if d != [] {
      var q := AddToBody(p, [d[0]]);
      TakeBody(p, d[0]);
      assert [d[0]] + d[1..] == d;
      if Finish(q) == q {
        RunBody(q, d[1..]);
        var rest := Run(q, d[1..]).1;
        AddTwice(p, [d[0]], d[1..][..|d| - 1 - |rest|]);
        AddTwice(p, [d[0]], d[1..]);
        assert [d[0]] + d[1..][..|d| - 1 - |rest|] == d[..|d| - |rest|];
      } else {
        assert d[..1] == [d[0]];
        FinishMore(p, [d[0]], d[1..]);
      }
    }
  }

  /** Reading what has been waiting together with a new piece is reading the piece. */
  lemma PieceIsRead(p: Parser, piece: Text)
    requires Waiting(p)
    ensures Reread(p.(data := p.data + piece)) == Run(p, piece)
  {
    var start := p.(data := []);
    assert p.data[..0] == [] && p.data[0..] == p.data;
    assert Finish(start) == start;
    if InLine(p) {
      RunNoLine(p, p.data, 0);
    } else if p.data != [] {
      assert p.data[1..] == [] && start.data + [p.data[0]] == p.data;
      assert Take(start, p.data[0]) == p;
    }
    assert Run(start, p.data) == (p, []);
    hide Run, Take;
    RunJoined(start, p.data, piece);
  }

  lemma StatusDataApart(p: Parser, line: Text, data: Text)
    ensures StatusLine(p.(data := []), line) == StatusLine(p.(data := data), line).(data := [])
    ensures StatusLine(p.(data := data), line).data == data
  {
    hide Stoi, Find;
  }

  lemma HeaderDataApart(p: Parser, line: Text, data: Text)
    ensures HeaderLine(p.(data := []), line) == HeaderLine(p.(data := data), line).(data := [])
    ensures HeaderLine(p.(data := data), line).data == data
  {
    hide Ascii, ToLower, TrimLeft, TrimRight, Stoul, Find;
  }

  lemma DataApart(p: Parser, line: Text, data: Text)
    ensures LineDone(p.(data := []), line) == LineDone(p.(data := data), line).(data := [])
    ensures LineDone(p.(data := data), line).data == data
  {
    StatusDataApart(p, line, data);
    HeaderDataApart(p, line, data);
    hide StatusLine, HeaderLine, Stoul;
  }

  /** p is where reading p0's data has come to; of an exception only its cause is left. */
  ghost predicate Follows(p: Parser, p0: Parser) {
    if p.outcome.Thrown? then Reread(p0).0.outcome == p.outcome else Reread(p) == Reread(p0)
  }

  /** A line is taken out of data. */
  lemma LineFollows(p: Parser, q: Parser)
    requires p.outcome == Reading && InLine(p) && FindCrlf(p.data) < |p.data|
    requires var i := FindCrlf(p.data); q == LineDone(p.(data := p.data[i + 2..]), p.data[..i])
    ensures Follows(q, p)
  {
    var i := FindCrlf(p.data);
    DataApart(p, p.data[..i], p.data[i + 2..]);
    assert Finish(p.(data := [])) == p.(data := []);
    hide LineDone, FindCrlf, Take;
    RunLine(p, p.data, i);
  }

  lemma FollowsOn(p: Parser, q: Parser, r: Parser)
    requires Follows(q, p) && Follows(r, q) && !q.outcome.Thrown?
    ensures Follows(r, p)
  {
  }

  /** The loop over the lines of the header section. */
  method ReadLines(p0: Parser) returns (p: Parser)
    requires p0.outcome == Reading && p0.phase != ParsingBody
    ensures Follows(p, p0) && p.outcome != Returned
    ensures p.outcome == Reading ==> p.phase == ParsingBody || FindCrlf(p.data) == |p.data|
    ensures p.expectedChunkSize == p0.expectedChunkSize && p.removeCrlfAfterChunk == p0.removeCrlfAfterChunk
  {
    hide Follows, StatusLine, HeaderLine;
    p := p0;
    FollowsItself(p);
    while true
      invariant p.outcome == Reading && p.phase != ParsingBody && Follows(p, p0)
      invariant p.expectedChunkSize == p0.expectedChunkSize && p.removeCrlfAfterChunk == p0.removeCrlfAfterChunk
      decreases |p.data|
    {
      var i := FindCrlf(p.data);
      if i == |p.data| { break; }
      var line := p.data[..i];
      ghost var before := p;
      p := p.(data := p.data[i + 2..]);
      HeadLineKeeps(p, line);
      LineFollows(before, LineDone(p, line));
      FollowsOn(p0, before, LineDone(p, line));
      if line == [] {
        p := p.(phase := ParsingBody);
        break;
      } else if p.phase == ParsingStatusLine {
        p := StatusLine(p, line);
      } else {
        p := HeaderLine(p, line);
      }
      if p.outcome.Thrown? { break; }
    }
  }

  lemma FollowsItself(p: Parser)
    requires p.outcome == Reading
    ensures Follows(p, p)
  {
  }

  lemma HeadLineKeeps(p: Parser, line: Text)
    requires p.outcome == Reading && p.phase != ParsingBody
    ensures var q := LineDone(p, line);
      && q.data == p.data && q.expectedChunkSize == p.expectedChunkSize && q.removeCrlfAfterChunk == p.removeCrlfAfterChunk
      && q.outcome != Returned && (line != [] ==> q.phase == ParsingHeaders)
  {
    hide Ascii, ToLower, TrimLeft, TrimRight, Stoul, Stoi, Find;
    if p.phase == ParsingStatusLine { StatusLineKeeps(p, line); }
  }

  lemma StatusLineKeeps(p: Parser, line: Text)
    requires p.outcome == Reading
    ensures var q := StatusLine(p, line);
      && q.data == p.data && q.expectedChunkSize == p.expectedChunkSize && q.removeCrlfAfterChunk == p.removeCrlfAfterChunk
      && q.outcome != Returned && q.phase == ParsingHeaders
  {
    hide Stoi, Find;
  }

  /** The loop over the chunks of a body. */
  method ReadChunks(p0: Parser) returns (p: Parser)
    requires p0.outcome == Reading && p0.phase == ParsingBody && p0.chunked
    requires p0.expectedChunkSize > 0 ==> !p0.removeCrlfAfterChunk
    ensures Follows(p, p0) && (p.outcome == Reading ==> Waiting(p))
    ensures p.phase == ParsingBody && p.chunked
  {
    hide Follows, Reread;
    p := p0;
    FollowsItself(p);
    while true
      invariant p.outcome == Reading && p.phase == ParsingBody && p.chunked && Follows(p, p0)
      invariant p.expectedChunkSize > 0 ==> !p.removeCrlfAfterChunk
      decreases |p.data|
    {
      ghost var before := p;
      if p.expectedChunkSize > 0 {
        var toWrite := if p.expectedChunkSize < |p.data| then p.expectedChunkSize else |p.data|;
        p := AddToBody(p, p.data[..toWrite]);
        p := p.(data := p.data[toWrite..], expectedChunkSize := p.expectedChunkSize - toWrite);
        if p.expectedChunkSize == 0 { p := p.(removeCrlfAfterChunk := true); }
        ChunkFollows(before, p);
        FollowsOn(p0, before, p);
        if p.data == [] { break; }
      } else {
        if p.removeCrlfAfterChunk {
          if |p.data| < 2 { break; }
          if p.data[..2] != [CR, LF] {
            BadChunkFollows(p);
            p := Throw(p, InvalidChunk);
            FollowsOn(p0, before, p);
            return;
          }
          CrlfFollows(p);
          p := p.(removeCrlfAfterChunk := false, data := p.data[2..]);
          FollowsOn(p0, before, p);
        }
        var i := FindCrlf(p.data);
        if i == |p.data| { break; }
        var line := p.data[..i];
        ghost var from := p;
        p := ChunkLine(p.(data := p.data[i + 2..]), line);
        LineFollows(from, p);
        FollowsOn(p0, from, p);
        if p.outcome != Reading { return; }
      }
    }
  }

  lemma ChunkFollows(p: Parser, q: Parser)
    requires p.outcome == Reading && p.phase == ParsingBody && p.chunked && p.expectedChunkSize > 0 && !p.removeCrlfAfterChunk
    requires var n := if p.expectedChunkSize < |p.data| then p.expectedChunkSize else |p.data|;
      q == AddToBody(p, p.data[..n]).(data := p.data[n..], expectedChunkSize := p.expectedChunkSize - n,
                                      removeCrlfAfterChunk := n == p.expectedChunkSize)
    ensures Follows(q, p)
  {
    RunChunk(p.(data := []), p.data);
  }

  lemma CrlfFollows(p: Parser)
    requires p.outcome == Reading && p.phase == ParsingBody && p.chunked && p.expectedChunkSize == 0 && p.removeCrlfAfterChunk
    requires |p.data| >= 2 && p.data[..2] == [CR, LF]
    ensures Follows(p.(removeCrlfAfterChunk := false, data := p.data[2..]), p)
  {
    TwoBytes(p);
  }

  lemma BadChunkFollows(p: Parser)
    requires p.outcome == Reading && p.phase == ParsingBody && p.chunked && p.expectedChunkSize == 0 && p.removeCrlfAfterChunk
    requires |p.data| >= 2 && p.data[..2] != [CR, LF]
    ensures Follows(Throw(p, InvalidChunk), p)
  {
    TwoBytes(p);
  }

  lemma TwoBytes(p: Parser)
    requires p.outcome == Reading && p.phase == ParsingBody && p.chunked && p.expectedChunkSize == 0 && p.removeCrlfAfterChunk
    requires |p.data| >= 2
    ensures var start, d := p.(data := []), p.data[..2];
      Run(start, p.data) == Run(if d == [CR, LF] then start.(removeCrlfAfterChunk := false)
                                else Throw(start.(data := [p.data[0]]), InvalidChunk), p.data[2..])
  {
    var start := p.(data := []);
    var one := start.(data := [p.data[0]]);
    assert start.data + [p.data[0]] == [p.data[0]];
    assert Take(start, p.data[0]) == one;
    assert one.data + [p.data[1]] == p.data[..2] && p.data[1..][1..] == p.data[2..];
  }

  /** What the program makes of a body of known length when the piece that completes it goes on: it keeps the whole piece. */
  function WithExtra(p: Parser, rest: Text): Response {
    p.response.(body := p.response.body + if p.chunked then [] else rest)
  }

  /** One turn of the reading loop. */
  method ReadPiece(p0: Parser, piece: Text) returns (p: Parser)
    requires Waiting(p0)
    ensures var (q, rest) := Run(p0, piece);
      && p.outcome == q.outcome
      && (p.outcome == Reading ==> p == q && Waiting(p))
      && (p.outcome == Returned ==> p.response == WithExtra(q, rest))
  {
    hide Run, FindCrlf, LineDone;
    p := p0.(data := p0.data + piece);
    PieceIsRead(p0, piece);
    ghost var start := p;
    FollowsItself(p);
    if p.phase != ParsingBody {
      p := ReadLines(p);
      if p.outcome.Thrown? { return; }
    }
    if p.phase == ParsingBody {
      if p.chunked {
        ghost var before := p;
        p := ReadChunks(p);
        FollowsOn(start, before, p);
        if p.outcome == Returned { ReturnedIsRead(p); }
      } else {
        PlainBody(p);
        p := AddToBody(p, p.data).(data := []);
        if p.contentLength.Some? && |p.response.body| >= p.contentLength.value { p := p.(outcome := Returned); }
      }
    }
    if p.outcome == Reading { WaitingIsRead(p); }
  }

  lemma WaitingIsRead(p: Parser)
    requires Waiting(p)
    ensures Reread(p) == (p, [])
  {
    PieceIsRead(p, []);
    assert p.data + [] == p.data;
  }

  lemma ReturnedIsRead(p: Parser)
    requires p.outcome == Returned
    ensures Reread(p) == (p.(data := []), p.data)
  {
  }

  lemma ThroughIsThrough(p: Parser, s: Text)
    requires p.outcome != Reading
    ensures Run(p, s) == (p, s)
  {
  }

  /** A body that is not chunked is read at once, with what follows it. */
  lemma PlainBody(p: Parser)
    requires p.outcome == Reading && p.phase == ParsingBody && !p.chunked
    ensures var (q, rest) := Reread(p);
      var all := AddToBody(p, p.data).(data := []);
      && q.outcome == Finish(all).outcome && !q.chunked && (q.outcome == Reading || q.outcome == Returned)
      && all.response == WithExtra(q, rest)
      && (q.outcome == Reading ==> rest == [] && q == all)
  {
    hide Run, LineDone;
    var start := p.(data := []);
    if Finish(start) != start {
      ThroughIsThrough(Finish(start), p.data);
    } else {
      RunBody(start, p.data);
      var rest := Run(start, p.data).1;
      assert p.response.body + p.data[..|p.data| - |rest|] + p.data[|p.data| - |rest|..] == p.response.body + p.data;
    }
  }

  function Joined(pieces: seq<Text>): Text { if pieces == [] then [] else pieces[0] + Joined(pieces[1..]) }

  /** What a known-length body gets too much when the response comes in these pieces. */
  function Extra(p: Parser, pieces: seq<Text>): Text
    decreases |pieces|
  {
    if pieces == [] || p.outcome != Reading then [] else
      var (q, rest) := Run(p, pieces[0]);
      if q.outcome == Reading then Extra(q, pieces[1..])
      else if q.outcome == Returned && !q.chunked then rest else []
  }

  /** The response of the bytes read one by one, and what these pieces add to it. */
  function Given(pieces: seq<Text>): Response {
    var q := Run(Initial(), Joined(pieces)).0;
    q.response.(body := q.response.body + Extra(Initial(), pieces))
  }

  /** The reading loop: what recv returns until the response is complete, an exception is thrown, or the peer closes. */
  method ReadResponse(pieces: seq<Text>) returns (outcome: Outcome, response: Response)
    ensures var q := Run(Initial(), Joined(pieces)).0;
      && outcome == q.outcome
      && (!outcome.Thrown? ==> response == Given(pieces))
  {
    hide Run, Waiting;
    var p := Initial();
    StartsWaiting();
    var i := 0;
    assert pieces[0..] == pieces;
    ghost var all := Run(Initial(), Joined(pieces)).0;
    while i < |pieces|
      invariant i <= |pieces| && Waiting(p) && p.outcome == Reading
      invariant Run(p, Joined(pieces[i..])).0 == all && Extra(p, pieces[i..]) == Extra(Initial(), pieces)
    {
      var piece := pieces[i];
      assert pieces[i..][1..] == pieces[i + 1..];
      RunJoined(p, piece, Joined(pieces[i + 1..]));
      p := ReadPiece(p, piece);
      if p.outcome != Reading { return p.outcome, p.response; }
      i := i + 1;
    }
    NothingMore(p);
    assert p.response.body + [] == p.response.body;
    return p.outcome, p.response;
  }

  lemma StartsWaiting()
    ensures Waiting(Initial())
  {
  }

  lemma NothingMore(p: Parser)
    ensures Run(p, []) == (p, [])
  {
  }

  // How the bytes are cut into pieces.

  /** Too much can only come from what follows the response. */
  lemma {:induction false} ExtraFollows(p: Parser, pieces: seq<Text>)
    requires p.outcome == Reading
    ensures var (q, rest) := Run(p, Joined(pieces));
      Extra(p, pieces) <= rest && (Extra(p, pieces) != [] ==> q.outcome == Returned && !q.chunked)
    decreases |pieces|
  {
    if pieces != [] {
      var (q, rest) := Run(p, pieces[0]);
      hide Take;
      RunJoined(p, pieces[0], Joined(pieces[1..]));
      if q.outcome == Reading { ExtraFollows(q, pieces[1..]); }
    }
  }

  lemma Cuts(a: Text, b: Text)
    ensures Joined([a]) == a && Joined([a, b]) == a + b
    ensures var (q, rest) := Run(Initial(), a);
      && Extra(Initial(), [a]) == (if q.outcome == Returned && !q.chunked then rest else [])
      && (q.outcome != Reading ==> Extra(Initial(), [a, b]) == Extra(Initial(), [a]))
  {
    assert a + [] == a && b + [] == b;
    assert [a][1..] == [] && [a, b][1..] == [b] && [b][1..] == [];
    hide Run;
  }

  lemma {:induction false} RunReadPart(p: Parser, s: Text)
    ensures var rest := Run(p, s).1; |rest| <= |s| && s[|s| - |rest|..] == rest
    ensures var (q, rest) := Run(p, s); Run(p, s[..|s| - |rest|]) == (q, [])
    decreases |s|
  {
    hide Take;
    if p.outcome == Reading && s != [] {
      RunReadPart(Take(p, s[0]), s[1..]);
      var n := |s| - |Run(p, s).1|;
      assert s[..n] != [] && s[..n][0] == s[0] && s[..n][1..] == s[1..][..n - 1];
    }
  }

  /** Two ways of cutting s never give different responses exactly when the response is chunked, or has nothing behind it. */
  lemma CutsAgreeExactly(s: Text)
    ensures var (q, rest) := Run(Initial(), s);
      (forall pieces, pieces' :: Joined(pieces) == s && Joined(pieces') == s ==> Given(pieces) == Given(pieces'))
        <==> q.outcome != Returned || q.chunked || rest == []
  {
    var (q, rest) := Run(Initial(), s);
    hide Take, Extra, Run, Joined;
    if q.outcome != Returned || q.chunked || rest == [] {
      forall pieces, pieces' | Joined(pieces) == s && Joined(pieces') == s ensures Given(pieces) == Given(pieces') {
        ExtraFollows(Initial(), pieces);
        ExtraFollows(Initial(), pieces');
      }
    } else {
      RunReadPart(Initial(), s);
      var a := s[..|s| - |rest|];
      CutsDiffer(a, rest);
      assert a + rest == s;
      Cuts(s, []);
      var one, two := [s], [a, rest];
      assert Joined(one) == s && Joined(two) == s && |Given(one).body| > |Given(two).body|;
    }
  }

  /** What is sent behind a complete response of known length becomes part of it when both come together, and not otherwise. */
  lemma CutsDiffer(a: Text, b: Text)
    requires var (q, rest) := Run(Initial(), a); q.outcome == Returned && !q.chunked && rest == []
    ensures Joined([a, b]) == Joined([a + b])
    ensures Given([a + b]).body == Given([a, b]).body + b
  {
    Cuts(a, b);
    Cuts(a + b, []);
    RunJoined(Initial(), a, b);
    var q := Run(Initial(), a).0;
    assert q.response.body + [] + b == q.response.body + b && [] + b == b;
  }

  // Numbers as they are written.

  /** c is the digit d; both cases of a letter are allowed. */
  predicate IsDigit(c: Byte, d: nat) {
    if d < 10 then c == 48 + d else d < 16 && (c == 97 + (d - 10) || c == 65 + (d - 10))
  }

  /** s is n in this base, with leading zeros or without. */
  predicate Spells(s: Text, n: nat, base: nat)
    requires base >= 2
    decreases |s|
  {
    && s != [] && IsDigit(s[|s| - 1], n % base)
    && if |s| == 1 then n < base else Spells(s[..|s| - 1], n / base, base)
  }

  /** Every number can be written. */
  function Numeral(n: nat, base: nat): (s: Text)
    requires 2 <= base <= 16
    ensures Spells(s, n, base)
    decreases n
  {
    var d := n % base;
    var digit := if d < 10 then 48 + d else 87 + d;
    if n < base then [digit] else
      var high := Numeral(n / base, base);
      assert (high + [digit])[..|high|] == high;
      high + [digit]
  }

  predicate AllDigits(s: Text, base: nat) { s != [] && forall i :: 0 <= i < |s| ==> Digit(s[i]) < base }

  /** What is written as n, and nothing else, has the value n. */
  lemma {:induction false} SpelledNumber(s: Text, n: nat, base: nat)
    requires 2 <= base <= 16
    ensures Spells(s, n, base) <==> AllDigits(s, base) && Number(s, base) == n
    decreases |s|
  {
    if s != [] {
      var high, c := s[..|s| - 1], s[|s| - 1];
      DigitIs(c, n % base);
      AllDigitsLast(s, base);
      LastDigit(Number(high, base), Digit(c), n, base);
      hide IsDigit, Digit, AllDigits;
      if |s| > 1 {
        SpelledNumber(high, n / base, base);
      } else {
        assert Number(high, base) == 0;
      }
    }
  }

  lemma DigitIs(c: Byte, d: nat)
    requires d < 16
    ensures IsDigit(c, d) <==> Digit(c) == d
  {
  }

  lemma AllDigitsLast(s: Text, base: nat)
    requires s != []
    ensures AllDigits(s, base) <==> (|s| > 1 ==> AllDigits(s[..|s| - 1], base)) && Digit(s[|s| - 1]) < base
  {
    hide Digit;
    var high := s[..|s| - 1];
    if (|s| > 1 ==> AllDigits(high, base)) && Digit(s[|s| - 1]) < base {
      forall i | 0 <= i < |s| ensures Digit(s[i]) < base { if i < |s| - 1 { assert high[i] == s[i]; } }
    }
    if AllDigits(s, base) {
      forall i | 0 <= i < |high| ensures Digit(high[i]) < base { assert high[i] == s[i]; }
    }
  }

  lemma LastDigit(high: nat, d: nat, n: nat, base: nat)
    requires base > 0
    ensures d < base ==> (high * base + d == n <==> high == n / base && d == n % base)
    ensures n % base < base && (n < base <==> n / base == 0)
  {
    assert n == n / base * base + n % base;
    if d < base && high * base + d == n { ModIs(n, base, high, d); }
    if n < base { ModIs(n, base, 0, n); }
    if n / base == 0 { assert n == 0 * base + n % base; }
  }

  // A chunked body, as section 4.1 of RFC 7230 has it.

  /** size is in hexadecimal digits; an extension starts with a semicolon. */
  datatype Chunk = Chunk(size: Text, extension: Text, data: Text)

  ghost predicate IsExtension(s: Text) { (s != [] ==> s[0] == 59) && forall i :: 0 <= i < |s| ==> s[i] != CR }

  ghost predicate IsChunk(c: Chunk) {
    Spells(c.size, |c.data|, 16) && 0 < |c.data| < ULONG && IsExtension(c.extension)
  }

  function Crlf(): Text { [CR, LF] }

  function Encoded(chunks: seq<Chunk>): Text {
    if chunks == [] then [] else
      chunks[0].size + chunks[0].extension + Crlf() + chunks[0].data + Crlf() + Encoded(chunks[1..])
  }

  function Content(chunks: seq<Chunk>): Text { if chunks == [] then [] else chunks[0].data + Content(chunks[1..]) }

  lemma {:induction false} DigitsThen(a: Text, b: Text, base: nat)
    requires (forall i :: 0 <= i < |a| ==> Digit(a[i]) < base) && (b != [] ==> Digit(b[0]) >= base)
    ensures DigitCount(a + b, base) == |a|
  {
    if a == [] {
      assert a + b == b;
    } else {
      DigitsThen(a[1..], b, base);
      assert (a + b)[1..] == a[1..] + b;
    }
  }

  lemma SizeIsRead(size: Text, n: nat, extension: Text)
    requires Spells(size, n, 16) && IsExtension(extension)
    ensures Stoul(size + extension, 16) == if n < ULONG then Value(n) else Failed(NumberTooBig)
  {
    var s := size + extension;
    SpelledNumber(size, n, 16);
    DigitsThen(size, extension, 16);
    assert s[0] == size[0] && s[..|size|] == size;
    assert SkipSpaces(s) == s;
    if |s| >= 2 { assert s[1] == if |size| >= 2 then size[1] else extension[0]; }
  }

  ghost predicate NoCrlf(s: Text) { forall i :: 0 <= i < |s| ==> !CrlfAt(s, i) }

  lemma LineIsFound(line: Text, rest: Text)
    requires NoCrlf(line)
    ensures FindCrlf(line + Crlf() + rest) == |line|
  {
    var d := line + Crlf() + rest;
    assert CrlfAt(d, |line|);
    assert forall i :: 0 <= i < |line| ==> d[i] == line[i];
    forall i | 0 <= i < |line| ensures !CrlfAt(d, i) { assert !CrlfAt(line, i); }
    assert FindCrlf(d) >= |line|;
  }

  lemma HexHasNoCr(size: Text, n: nat, extension: Text)
    requires Spells(size, n, 16) && IsExtension(extension)
    ensures forall i :: 0 <= i < |size + extension| ==> (size + extension)[i] != CR
  {
    SpelledNumber(size, n, 16);
    forall i | 0 <= i < |size| ensures size[i] != CR { assert Digit(size[i]) < 16; }
  }

  /** Between two chunks. */
  ghost predicate AtChunk(p: Parser) {
    p.outcome == Reading && p.phase == ParsingBody && p.chunked && p.expectedChunkSize == 0 && !p.removeCrlfAfterChunk && p.data == []
  }

  lemma SizeLine(p: Parser, size: Text, n: nat, extension: Text, rest: Text)
    requires AtChunk(p) && Spells(size, n, 16) && IsExtension(extension) && n < ULONG
    ensures Run(p, size + extension + Crlf() + rest)
        == Run(p.(expectedChunkSize := n, outcome := if n == 0 then Returned else Reading), rest)
  {
    var line := size + extension;
    var d := line + Crlf() + rest;
    HexHasNoCr(size, n, extension);
    assert NoCrlf(line);
    LineIsFound(line, rest);
    SizeIsRead(size, n, extension);
    hide Stoul, FindCrlf, Spells, Run, Take;
    RunLine(p, d, |line|);
    assert d[..|line|] == line && d[|line| + 2..] == rest && p.(data := []) == p;
  }

  lemma ChunkIsRead(p: Parser, c: Chunk, rest: Text)
    requires AtChunk(p) && IsChunk(c)
    ensures Run(p, c.size + c.extension + Crlf() + c.data + Crlf() + rest) == Run(AddToBody(p, c.data), rest)
  {
    hide Spells, Run, Take, IsExtension;
    var behind := c.data + Crlf() + rest;
    assert c.size + c.extension + Crlf() + c.data + Crlf() + rest == c.size + c.extension + Crlf() + behind;
    SizeLine(p, c.size, |c.data|, c.extension, behind);
    var q := p.(expectedChunkSize := |c.data|);
    RunChunk(q, behind);
    assert behind[..|c.data|] == c.data && behind[|c.data|..] == Crlf() + rest;
    var r := AddToBody(p, c.data).(removeCrlfAfterChunk := true, data := Crlf() + rest);
    TwoBytes(r);
    assert r.data[..2] == Crlf() && r.data[2..] == rest;
  }

  /** However many chunks, with whatever sizes, leading zeros and extensions: the body is the data of the chunks, and nothing
      behind the last chunk's line is read. */
  lemma {:induction false} ChunkedIsRead(p: Parser, chunks: seq<Chunk>, size: Text, extension: Text, rest: Text)
    requires AtChunk(p) && forall i :: 0 <= i < |chunks| ==> IsChunk(chunks[i])
    requires Spells(size, 0, 16) && IsExtension(extension)
    ensures Run(p, Encoded(chunks) + (size + extension + Crlf() + rest))
      == (AddToBody(p, Content(chunks)).(outcome := Returned), rest)
    decreases |chunks|
  {
    hide Spells, Take, IsExtension;
    var last := size + extension + Crlf() + rest;
    if chunks == [] {
      assert Encoded(chunks) + last == last;
      SizeLine(p, size, 0, extension, rest);
      assert p.response.body + [] == p.response.body;
    } else {
      var c, more := chunks[0], Encoded(chunks[1..]) + last;
      assert Encoded(chunks) + last == c.size + c.extension + Crlf() + c.data + Crlf() + more;
      ChunkIsRead(p, c, more);
      ChunkedIsRead(AddToBody(p, c.data), chunks[1..], size, extension, rest);
      AddTwice(p, c.data, Content(chunks[1..]));
    }
  }

  // A whole response.

  /** before and after are the blanks around the value. */
  datatype Header = Header(name: Text, before: Text, value: Text, after: Text)

  function Line(h: Header): Text { h.name + [COLON] + h.before + h.value + h.after }

  predicate SameLetter(c: Byte, l: char) { c == l as int || ('a' <= l <= 'z' && c == l as int - 32) }

  /** The header has this name, in capitals or not. */
  predicate Named(h: Header, name: string) { |h.name| == |name| && forall i :: 0 <= i < |name| ==> SameLetter(h.name[i], name[i]) }

  predicate Is(s: Text, t: string) { |s| == |t| && forall i :: 0 <= i < |t| ==> s[i] == t[i] as int }

  predicate Blank(c: Byte) { c == ' ' as int || c == '\t' as int }

  predicate AllBlank(s: Text) { forall i :: 0 <= i < |s| ==> Blank(s[i]) }

  ghost predicate IsHeader(h: Header) {
    && COLON !in h.name && AllBlank(h.before) && AllBlank(h.after) && NoCrlf(Line(h))
    && (h.value != [] ==> !Blank(h.value[0]) && !Blank(h.value[|h.value| - 1]))
  }

  /** The program knows what the header means for the body. */
  predicate Understood(h: Header) {
    && (Named(h, "content-length") ==> Stoul(h.value, 10).Value?)
    && (Named(h, "transfer-encoding") ==> Is(h.value, "chunked"))
  }

  lemma {:induction false} TrimmedLeft(a: Text, b: Text)
    requires AllBlank(a) && (b != [] ==> !Blank(b[0]))
    ensures TrimLeft(a + b) == b
  {
    if a == [] {
      assert a + b == b;
    } else {
      TrimmedLeft(a[1..], b);
      assert (a + b)[1..] == a[1..] + b;
    }
  }

  lemma {:induction false} TrimmedRight(a: Text, b: Text)
    requires AllBlank(b) && (a != [] ==> !Blank(a[|a| - 1]))
    ensures TrimRight(a + b) == a
    decreases |b|
  {
    if b == [] {
      assert a + b == a;
    } else {
      TrimmedRight(a, b[..|b| - 1]);
      assert (a + b)[..|a + b| - 1] == a + b[..|b| - 1];
    }
  }

  lemma Trimmed(h: Header)
    requires IsHeader(h)
    ensures TrimRight(TrimLeft(h.before + h.value + h.after)) == h.value
  {
    if h.value == [] {
      var blanks := h.before + h.after;
      assert h.before + h.value + h.after == blanks && blanks + [] == blanks && AllBlank(blanks);
      TrimmedLeft(blanks, []);
    } else {
      assert h.before + h.value + h.after == h.before + (h.value + h.after);
      TrimmedLeft(h.before, h.value + h.after);
      TrimmedRight(h.value, h.after);
    }
  }

  lemma {:induction false} FoundAt(a: Text, c: Byte, b: Text)
    requires c !in a
    ensures Find(a + [c] + b, c) == |a|
  {
    if a != [] {
      FoundAt(a[1..], c, b);
      assert (a + [c] + b)[1..] == a[1..] + [c] + b;
    }
  }

  function LengthAfter(h: Header, length: Option<nat>): Option<nat> {
    if Named(h, "content-length") && Stoul(h.value, 10).Value? then Some(Stoul(h.value, 10).value) else length
  }

  function WithHeader(p: Parser, h: Header): Parser {
    p.(response := p.response.(headers := p.response.headers + [Line(h)]), contentLength := LengthAfter(h, p.contentLength),
       chunked := p.chunked || Named(h, "transfer-encoding"))
  }

  lemma {:induction false} AsciiAt(s: string)
    ensures |Ascii(s)| == |s| && forall i :: 0 <= i < |s| ==> Ascii(s)[i] == (s[i] as int) % 256
  {
    if s != "" { AsciiAt(s[1..]); }
  }

  lemma {:induction false} LowerAt(s: Text)
    ensures |ToLower(s)| == |s| && forall i :: 0 <= i < |s| ==> ToLower(s)[i] == if 65 <= s[i] < 91 then s[i] + 32 else s[i]
  {
    if s != [] { LowerAt(s[1..]); }
  }

  predicate IsLower(s: string) { forall i :: 0 <= i < |s| ==> s[i] as int < 128 && !('A' <= s[i] <= 'Z') }

  /** The program's comparison of a name with one in small letters. */
  lemma NamedIs(h: Header, name: string)
    requires IsLower(name)
    ensures Named(h, name) <==> ToLower(h.name) == Ascii(name)
  {
    hide Ascii, ToLower;
    AsciiAt(name);
    LowerAt(h.name);
    if Named(h, name) {
      forall i | 0 <= i < |name| ensures ToLower(h.name)[i] == Ascii(name)[i] { assert SameLetter(h.name[i], name[i]); }
    }
    if ToLower(h.name) == Ascii(name) {
      forall i | 0 <= i < |name| ensures SameLetter(h.name[i], name[i]) { assert ToLower(h.name)[i] == Ascii(name)[i]; }
    }
  }

  lemma IsAscii(s: Text, t: string)
    requires IsLower(t)
    ensures Is(s, t) <==> s == Ascii(t)
  {
    hide Ascii;
    AsciiAt(t);
    if Is(s, t) {
      forall i | 0 <= i < |t| ensures s[i] == Ascii(t)[i] { assert s[i] == t[i] as int; }
    }
  }

  lemma NamesAreLower()
    ensures IsLower("content-length") && IsLower("transfer-encoding") && IsLower("chunked")
  {
  }

  lemma HeaderParts(h: Header)
    requires IsHeader(h)
    ensures var line, i := Line(h), |h.name|;
      Find(line, COLON) == i < |line| && line[..i] == h.name && TrimRight(TrimLeft(line[i + 1..])) == h.value
  {
    var line, value := Line(h), h.before + h.value + h.after;
    assert line == h.name + [COLON] + value;
    FoundAt(h.name, COLON, value);
    assert line[..|h.name|] == h.name && line[|h.name| + 1..] == value;
    hide Find, TrimLeft, TrimRight;
    Trimmed(h);
  }

  lemma HeaderIsRead(p: Parser, h: Header)
    requires IsHeader(h) && Understood(h)
    ensures HeaderLine(p, Line(h)) == WithHeader(p, h)
  {
    hide Ascii, ToLower, TrimLeft, TrimRight, Stoul, Find, IsHeader, Line, IsLower, Is;
    HeaderParts(h);
    NamesAreLower();
    NamedIs(h, "content-length");
    NamedIs(h, "transfer-encoding");
    IsAscii(h.value, "chunked");
    assert |"content-length"| != |"transfer-encoding"|;
  }

  function Lines(headers: seq<Header>): seq<Text> { if headers == [] then [] else [Line(headers[0])] + Lines(headers[1..]) }

  function HeaderSection(headers: seq<Header>): Text {
    if headers == [] then Crlf() else Line(headers[0]) + Crlf() + HeaderSection(headers[1..])
  }

  ghost predicate AreHeaders(headers: seq<Header>) { forall i :: 0 <= i < |headers| ==> IsHeader(headers[i]) && Understood(headers[i]) }

  predicate IsChunked(headers: seq<Header>) { headers != [] && (Named(headers[0], "transfer-encoding") || IsChunked(headers[1..])) }

  /** The last length given counts. */
  function Length(headers: seq<Header>, length: Option<nat>): Option<nat> {
    if headers == [] then length else Length(headers[1..], LengthAfter(headers[0], length))
  }

  /** The last header about it says that the body has n bytes. */
  predicate SaysLength(headers: seq<Header>, n: nat) {
    exists k :: 0 <= k < |headers| && Named(headers[k], "content-length") && Spells(headers[k].value, n, 10)
      && forall l :: k < l < |headers| ==> !Named(headers[l], "content-length")
  }

  predicate SaysNoLength(headers: seq<Header>) { forall k :: 0 <= k < |headers| ==> !Named(headers[k], "content-length") }

  lemma {:induction false} NoLength(headers: seq<Header>, length: Option<nat>)
    requires SaysNoLength(headers)
    ensures Length(headers, length) == length
  {
    hide Named;
    if headers != [] { NoLength(headers[1..], length); }
  }

  lemma {:induction false} LengthIs(headers: seq<Header>, length: Option<nat>, n: nat)
    requires AreHeaders(headers) && SaysLength(headers, n)
    ensures Length(headers, length) == Some(n) && n < ULONG
  {
    hide Named, IsHeader, Spells, Stoul;
    var k :| 0 <= k < |headers| && Named(headers[k], "content-length") && Spells(headers[k].value, n, 10)
      && forall l :: k < l < |headers| ==> !Named(headers[l], "content-length");
    if k > 0 {
      assert headers[1..][k - 1] == headers[k];
      LengthIs(headers[1..], LengthAfter(headers[0], length), n);
    } else {
      DecimalIsRead(headers[0].value, n);
      assert Understood(headers[0]);
      NoLength(headers[1..], LengthAfter(headers[0], length));
    }
  }

  lemma LineIsRead(p: Parser, line: Text, rest: Text)
    requires p.outcome == Reading && InLine(p) && p.data == [] && NoCrlf(line)
    ensures Run(p, line + Crlf() + rest) == Run(Finish(LineDone(p, line)), rest)
  {
    var d := line + Crlf() + rest;
    LineIsFound(line, rest);
    hide FindCrlf, Run, Take, LineDone, Finish;
    RunLine(p, d, |line|);
    assert d[..|line|] == line && d[|line| + 2..] == rest && p.(data := []) == p;
  }

  /** The parser behind the header section. */
  function AfterHeaders(p: Parser, headers: seq<Header>): Parser {
    p.(phase := ParsingBody, response := p.response.(headers := p.response.headers + Lines(headers)),
       contentLength := Length(headers, p.contentLength), chunked := p.chunked || IsChunked(headers))
  }

  lemma HeaderIsLine(h: Header)
    requires IsHeader(h)
    ensures NoCrlf(Line(h)) && Line(h) != []
  {
  }

  lemma OneHeader(p: Parser, h: Header, rest: Text)
    requires p.outcome == Reading && p.phase == ParsingHeaders && p.data == [] && IsHeader(h) && Understood(h)
    ensures Run(p, Line(h) + Crlf() + rest) == Run(WithHeader(p, h), rest)
  {
    HeaderIsLine(h);
    hide Run, Take, IsHeader, Understood, Named, Stoul, HeaderLine, Line, LengthAfter;
    LineIsRead(p, Line(h), rest);
    HeaderIsRead(p, h);
  }

  lemma NoHeaders(p: Parser, rest: Text)
    requires p.outcome == Reading && p.phase == ParsingHeaders && p.data == []
    ensures Run(p, Crlf() + rest) == Run(Finish(AfterHeaders(p, [])), rest)
  {
    hide Run, Take, HeaderLine, StatusLine, Finish;
    assert [] + Crlf() + rest == Crlf() + rest && p.response.headers + [] == p.response.headers;
    LineIsRead(p, [], rest);
  }

  lemma OneMore(p: Parser, headers: seq<Header>)
    requires headers != []
    ensures AfterHeaders(WithHeader(p, headers[0]), headers[1..]) == AfterHeaders(p, headers)
  {
    hide Named, LengthAfter, Line;
    var h, more := headers[0], Lines(headers[1..]);
    assert Lines(headers) == [Line(h)] + more;
    assert p.response.headers + [Line(h)] + more == p.response.headers + ([Line(h)] + more);
  }

  lemma {:induction false} HeadersAreRead(p: Parser, headers: seq<Header>, rest: Text)
    requires p.outcome == Reading && p.phase == ParsingHeaders && p.data == [] && AreHeaders(headers)
    ensures Run(p, HeaderSection(headers) + rest) == Run(Finish(AfterHeaders(p, headers)), rest)
    decreases |headers|
  {
    hide Run, Finish, IsHeader, Understood, Named, Line, LengthAfter, AfterHeaders;
    if headers == [] {
      NoHeaders(p, rest);
    } else {
      var h, more := headers[0], HeaderSection(headers[1..]) + rest;
      assert HeaderSection(headers) + rest == Line(h) + Crlf() + more;
      OneHeader(p, h, more);
      HeadersAreRead(WithHeader(p, h), headers[1..], rest);
      OneMore(p, headers);
    }
  }

  /** code is the status as it is written. */
  datatype Head = Head(version: Text, code: Text, status: nat, description: Text, headers: seq<Header>)

  function FirstLine(h: Head): Text { h.version + [SPACE] + h.code + [SPACE] + h.description }

  function HeadBytes(h: Head): Text { FirstLine(h) + Crlf() + HeaderSection(h.headers) }

  ghost predicate IsHead(h: Head) {
    && SPACE !in h.version && Spells(h.code, h.status, 10) && h.status < 0x8000_0000 && NoCrlf(FirstLine(h))
    && AreHeaders(h.headers)
  }

  lemma DecimalIsRead(s: Text, n: nat)
    requires Spells(s, n, 10)
    ensures Stoi(s) == if n < 0x8000_0000 then Value(n) else Failed(NumberTooBig)
    ensures Stoul(s, 10) == if n < ULONG then Value(n) else Failed(NumberTooBig)
    ensures SPACE !in s
  {
    SpelledNumber(s, n, 10);
    hide Spells;
    DigitsThen(s, [], 10);
    assert s + [] == s && s[..|s|] == s;
    assert SkipSpaces(s) == s;
  }

  /** The parser behind the status line. */
  function AfterFirstLine(h: Head): Parser {
    Initial().(phase := ParsingHeaders, response := Response(h.status, h.description, [], []))
  }

  lemma StatusLineIsRead(h: Head)
    requires IsHead(h)
    ensures FirstLine(h) != [] && StatusLine(Initial(), FirstLine(h)) == AfterFirstLine(h)
  {
    var line, behind := FirstLine(h), h.code + [SPACE] + h.description;
    DecimalIsRead(h.code, h.status);
    assert line == h.version + [SPACE] + behind;
    FoundAt(h.version, SPACE, behind);
    assert line[|h.version| + 1..] == behind;
    FoundAt(h.code, SPACE, h.description);
    assert behind[..|h.code|] == h.code && behind[|h.code| + 1..] == h.description;
    hide Find, Stoi, Spells;
  }

  lemma FirstLineIsRead(h: Head, rest: Text)
    requires IsHead(h)
    ensures Run(Initial(), FirstLine(h) + Crlf() + rest) == Run(AfterFirstLine(h), rest)
  {
    hide Run, Take, StatusLine, HeaderLine, FirstLine, NoCrlf, AreHeaders, Spells;
    StatusLineIsRead(h);
    LineIsRead(Initial(), FirstLine(h), rest);
  }

  /** The parser behind the head. */
  function AfterHead(h: Head): Parser {
    Parser(ParsingBody, Response(h.status, h.description, Lines(h.headers), []), [], Length(h.headers, None),
           IsChunked(h.headers), 0, false, Reading)
  }

  lemma HeadersComplete(h: Head)
    ensures AfterHeaders(AfterFirstLine(h), h.headers) == AfterHead(h)
  {
    assert [] + Lines(h.headers) == Lines(h.headers);
    hide Lines, Length, IsChunked;
  }

  lemma HeadIsRead(h: Head, rest: Text)
    requires IsHead(h)
    ensures Run(Initial(), HeadBytes(h) + rest) == Run(Finish(AfterHead(h)), rest)
  {
    var behind := HeaderSection(h.headers) + rest;
    hide Run, AreHeaders, HeaderSection, FirstLine, AfterHeaders, AfterHead, Finish;
    assert HeadBytes(h) + rest == FirstLine(h) + Crlf() + behind;
    FirstLineIsRead(h, behind);
    HeadersAreRead(AfterFirstLine(h), h.headers, rest);
    HeadersComplete(h);
  }

  /** The chunks, and the size and the extension of the last one, which is empty. */
  datatype ChunkedBody = ChunkedBody(chunks: seq<Chunk>, size: Text, extension: Text)

  ghost predicate IsChunkedBody(b: ChunkedBody) {
    (forall i :: 0 <= i < |b.chunks| ==> IsChunk(b.chunks[i])) && Spells(b.size, 0, 16) && IsExtension(b.extension)
  }

  function BodyBytes(b: ChunkedBody, rest: Text): Text { Encoded(b.chunks) + (b.size + b.extension + Crlf() + rest) }

  /** The reading loop on a chunked response, however its bytes are cut into pieces, and whatever follows it. */
  method ReadChunked(pieces: seq<Text>, ghost head: Head, ghost body: ChunkedBody, ghost rest: Text)
    returns (outcome: Outcome, response: Response)
    requires IsHead(head) && IsChunked(head.headers) && IsChunkedBody(body)
    requires Joined(pieces) == HeadBytes(head) + BodyBytes(body, rest)
    ensures outcome == Returned
    ensures response == Response(head.status, head.description, Lines(head.headers), Content(body.chunks))
  {
    hide Run, Extra, IsHead, Spells, IsExtension, IsChunk, Lines, IsChunked, HeadBytes, Encoded, Content, Joined, Length;
    outcome, response := ReadResponse(pieces);
    HeadIsRead(head, BodyBytes(body, rest));
    ChunkedIsRead(AfterHead(head), body.chunks, body.size, body.extension, rest);
    ExtraFollows(Initial(), pieces);
    assert [] + Content(body.chunks) == Content(body.chunks);
  }

  lemma HasHeaders(h: Head)
    requires IsHead(h)
    ensures AreHeaders(h.headers)
  {
  }

  lemma WholeBody(p: Parser, body: Text)
    requires p.outcome == Reading && p.phase == ParsingBody && !p.chunked && p.contentLength == Some(|body|) && p.response.body == []
    requires body != []
    ensures Run(p, body) == (AddToBody(p, body).(outcome := Returned), [])
  {
    hide Run;
    RunBody(p, body);
    var k := |body| - |Run(p, body).1|;
    assert [] + body == body && [] + body[..k] == body[..k];
    assert k == |body| ==> body[..k] == body && body[k..] == [];
  }

  lemma BodyIsRead(p: Parser, body: Text, rest: Text)
    requires p.outcome == Reading && p.phase == ParsingBody && !p.chunked && p.contentLength == Some(|body|) && p.response.body == []
    ensures Run(Finish(p), body + rest) == (AddToBody(p, body).(outcome := Returned), rest)
  {
    if body == [] {
      assert body + rest == rest && AddToBody(p, body) == p;
    } else {
      WholeBody(p, body);
      hide Run;
      RunJoined(p, body, rest);
      assert [] + rest == rest;
    }
  }

  lemma KnownLengthIsRead(head: Head, body: Text, rest: Text)
    requires IsHead(head) && !IsChunked(head.headers) && SaysLength(head.headers, |body|)
    ensures Run(Initial(), HeadBytes(head) + (body + rest)) == (AddToBody(AfterHead(head), body).(outcome := Returned), rest)
    ensures AddToBody(AfterHead(head), body).response == Response(head.status, head.description, Lines(head.headers), body)
  {
    hide Run, IsHead, Lines, IsChunked, HeadBytes, SaysLength, Length;
    HasHeaders(head);
    LengthIs(head.headers, None, |body|);
    HeadIsRead(head, body + rest);
    BodyIsRead(AfterHead(head), body, rest);
    assert [] + body == body;
  }

  /** The reading loop on a response of known length: extra is what has come together with its end. */
  method ReadKnownLength(pieces: seq<Text>, ghost head: Head, ghost body: Text, ghost rest: Text)
    returns (outcome: Outcome, response: Response, ghost extra: Text)
    requires IsHead(head) && !IsChunked(head.headers) && SaysLength(head.headers, |body|)
    requires Joined(pieces) == HeadBytes(head) + (body + rest)
    ensures outcome == Returned && extra <= rest
    ensures response == Response(head.status, head.description, Lines(head.headers), body + extra)
  {
    hide Run, Extra, IsHead, Spells, SaysLength, SaysNoLength, Lines, IsChunked, HeadBytes, Joined, Length;
    outcome, response := ReadResponse(pieces);
    extra := Extra(Initial(), pieces);
    KnownLengthIsRead(head, body, rest);
    ExtraFollows(Initial(), pieces);
  }

  /** The reading loop on a response that says neither: it is complete when the other side closes. */
  method ReadUntilClosed(pieces: seq<Text>, ghost head: Head, ghost body: Text) returns (outcome: Outcome, response: Response)
    requires IsHead(head) && !IsChunked(head.headers) && SaysNoLength(head.headers)
    requires Joined(pieces) == HeadBytes(head) + body
    ensures outcome == Reading
    ensures response == Response(head.status, head.description, Lines(head.headers), body)
  {
    hide Run, Extra, IsHead, Spells, SaysLength, SaysNoLength, Lines, IsChunked, HeadBytes, Joined, Length;
    outcome, response := ReadResponse(pieces);
    NoLength(head.headers, None);
    HeadIsRead(head, body);
    EndlessBody(AfterHead(head), body);
    ExtraFollows(Initial(), pieces);
    assert [] + body == body && body + [] == body;
  }

  lemma EndlessBody(p: Parser, body: Text)
    requires p.outcome == Reading && p.phase == ParsingBody && !p.chunked && p.contentLength == None
    ensures Run(Finish(p), body) == (AddToBody(p, body), [])
  {
    hide Run;
    RunBody(p, body);
    assert body[..|body|] == body;
  }

  // What is refused.

  lemma {:induction false} NotFoundIn(s: Text, c: Byte)
    requires c !in s
    ensures Find(s, c) == |s|
  {
    if s != [] { NotFoundIn(s[1..], c); }
  }

  lemma NoColonIsRefused(p: Parser, line: Text, rest: Text)
    requires p.outcome == Reading && p.phase == ParsingHeaders && p.data == []
    requires line != [] && NoCrlf(line) && COLON !in line
    ensures Run(p, line + Crlf() + rest).0.outcome == Thrown(InvalidHeader)
  {
    NotFoundIn(line, COLON);
    hide Take, Find, NoCrlf;
    LineIsRead(p, line, rest);
  }

  /** chunked is the only transfer encoding. */
  lemma EncodingIsRefused(p: Parser, h: Header, rest: Text)
    requires p.outcome == Reading && p.phase == ParsingHeaders && p.data == []
    requires IsHeader(h) && Named(h, "transfer-encoding") && !Is(h.value, "chunked")
    ensures Run(p, Line(h) + Crlf() + rest).0.outcome == Thrown(UnsupportedEncoding)
  {
    HeaderIsLine(h);
    EncodingThrows(p, h);
    hide Take, HeaderLine, Line, IsHeader, Named, Is;
    LineIsRead(p, Line(h), rest);
  }

  lemma EncodingThrows(p: Parser, h: Header)
    requires IsHeader(h) && Named(h, "transfer-encoding") && !Is(h.value, "chunked")
    ensures HeaderLine(p, Line(h)).outcome == Thrown(UnsupportedEncoding)
  {
    hide Ascii, ToLower, TrimLeft, TrimRight, Stoul, Find, IsHeader, Line, IsLower, Is;
    HeaderParts(h);
    NamesAreLower();
    NamedIs(h, "content-length");
    NamedIs(h, "transfer-encoding");
    IsAscii(h.value, "chunked");
    assert |"content-length"| != |"transfer-encoding"|;
  }

  /** A chunk's data are longer than its size says, or shorter. */
  lemma ChunkEndIsRefused(p: Parser, c: Chunk, a: Byte, b: Byte, rest: Text)
    requires AtChunk(p) && IsChunk(c) && [a, b] != Crlf()
    ensures Run(p, c.size + c.extension + Crlf() + c.data + [a, b] + rest).0.outcome == Thrown(InvalidChunk)
  {
    hide Spells, Take, IsExtension;
    var behind := c.data + [a, b] + rest;
    assert c.size + c.extension + Crlf() + c.data + [a, b] + rest == c.size + c.extension + Crlf() + behind;
    SizeLine(p, c.size, |c.data|, c.extension, behind);
    RunChunk(p.(expectedChunkSize := |c.data|), behind);
    assert behind[..|c.data|] == c.data && behind[|c.data|..] == [a, b] + rest;
    var r := AddToBody(p, c.data).(removeCrlfAfterChunk := true, data := [a, b] + rest);
    TwoBytes(r);
    assert r.data[..2] == [a, b];
  }

  // An example: the head "HTTP/1.1 200 OK" with "Content-Length: 1".

  const ExampleHead := Head(Ascii("HTTP/1.1"), Ascii("200"), 200, Ascii("OK"), [Header(Ascii("Content-Length"), [SPACE], Ascii("1"), [])])

  /** Nothing in it is a control character. */
  predicate Plain(s: Text) { forall c :: c in s ==> c >= SPACE }

  lemma AsciiPlain(s: string)
    requires forall i :: 0 <= i < |s| ==> 32 <= s[i] as int < 128
    ensures Plain(Ascii(s)) && |Ascii(s)| == |s| && forall i :: 0 <= i < |s| ==> Ascii(s)[i] == s[i] as int
  {
    hide Ascii;
    AsciiAt(s);
  }

  lemma WithoutCr(s: Text)
    requires forall c :: c in s ==> c != CR
    ensures NoCrlf(s)
  {
    forall i | 0 <= i < |s| ensures !CrlfAt(s, i) { assert s[i] in s; }
  }

  lemma ExampleHeader()
    ensures var hs := ExampleHead.headers; AreHeaders(hs) && !IsChunked(hs) && SaysLength(hs, 1)
  {
    hide Ascii, Stoul;
    AsciiPlain("Content-Length");
    AsciiPlain("1");
    var h := ExampleHead.headers[0];
    assert |"Content-Length"| == 14 && |"content-length"| == 14 && |"transfer-encoding"| == 17;
    assert Named(h, "content-length") && !Named(h, "transfer-encoding");
    assert Spells(h.value, 1, 10);
    DecimalIsRead(h.value, 1);
    assert COLON !in h.name;
    assert forall c :: c in Line(h) ==> c != CR;
    WithoutCr(Line(h));
    assert ExampleHead.headers[1..] == [];
  }

  lemma ExampleIsHead()
    ensures IsHead(ExampleHead)
  {
    hide Ascii, AreHeaders;
    ExampleHeader();
    AsciiPlain("HTTP/1.1");
    AsciiPlain("200");
    AsciiPlain("OK");
    var code := Ascii("200");
    assert |code| == 3 && code == [50, 48, 48] && code[..2] == [50, 48] && code[..2][..1] == [50];
    assert Spells([50], 2, 10) && Spells(code[..2], 20, 10) && Spells(code, 200, 10);
    assert SPACE !in ExampleHead.version;
    assert forall c :: c in FirstLine(ExampleHead) ==> c != CR;
    WithoutCr(FirstLine(ExampleHead));
  }

  /** Behind the body "x" comes a "y" that is not part of it: sent apart it is not read, sent along it is. */
  lemma OneByteTooMuch(x: Byte, y: Byte)
    ensures var a := HeadBytes(ExampleHead) + [x];
      Given([a, [y]]).body == [x] && Given([a + [y]]).body == [x, y]
  {
    var a := HeadBytes(ExampleHead) + [x];
    hide Run, Extra, Given, Joined, HeadBytes, IsChunked, SaysLength, IsHead, ExampleHead, AfterHead, AddToBody;
    ExampleHeader();
    ExampleIsHead();
    KnownLengthIsRead(ExampleHead, [x], []);
    AfterHeadPlain(ExampleHead, [x]);
    assert [x] + [] == [x];
    CutsDiffer(a, [y]);
    GivenApart(a, [y]);
  }

  lemma AfterHeadPlain(head: Head, body: Text)
    requires !IsChunked(head.headers)
    ensures !AddToBody(AfterHead(head), body).chunked
  {
    hide IsChunked;
  }

  lemma GivenApart(a: Text, b: Text)
    requires var (q, rest) := Run(Initial(), a); q.outcome == Returned && !q.chunked && rest == []
    ensures Given([a, b]).body == Run(Initial(), a).0.response.body
  {
    Cuts(a, b);
    RunJoined(Initial(), a, b);
    var q := Run(Initial(), a).0;
    assert q.response.body + [] == q.response.body;
    hide Run;
  }

  // The same with "Transfer-Encoding: chunked".

  const ChunkedHead := ExampleHead.(headers := [Header(Ascii("Transfer-Encoding"), [SPACE], Ascii("chunked"), [])])

  lemma ChunkedExample(x: Byte)
    ensures IsHead(ChunkedHead) && IsChunked(ChunkedHead.headers)
    ensures IsChunkedBody(ChunkedBody([Chunk(Numeral(1, 16), [], [x])], Numeral(0, 16), []))
  {
    hide Ascii, Stoul, Spells, FirstLine, Numeral;
    ExampleIsHead();
    SameFirstLine();
    AsciiPlain("Transfer-Encoding");
    AsciiPlain("chunked");
    var h := ChunkedHead.headers[0];
    assert |"Transfer-Encoding"| == 17 && |"content-length"| == 14 && |"transfer-encoding"| == 17 && |"chunked"| == 7;
    assert Named(h, "transfer-encoding") && !Named(h, "content-length");
    assert Is(h.value, "chunked");
    assert COLON !in h.name;
    assert forall c :: c in Line(h) ==> c != CR;
    WithoutCr(Line(h));
  }

  lemma SameFirstLine()
    ensures FirstLine(ChunkedHead) == FirstLine(ExampleHead)
  {
  }
}
