/** What the HTTP readers make of a request, from the text its sender wrote. */
module HttpText {
  import opened Wrappers
  import opened Text
  import opened HttpRead

  datatype Header = Header(name: string, value: string)

  /** Lines with carriage return and line feed between them. */
  function CrLf(lines: seq<string>): string
    requires lines != []
  {
    if |lines| == 1 then lines[0] else lines[0] + "\r\n" + CrLf(lines[1..])
  }

  function HeaderLine(h: Header): string {
    h.name + ":" + h.value
  }

  function HeaderLines(headers: seq<Header>): (lines: seq<string>)
    ensures |lines| == |headers| && forall i | 0 <= i < |headers| :: lines[i] == HeaderLine(headers[i])
  {
    seq(|headers|, i requires 0 <= i < |headers| => HeaderLine(headers[i]))
  }

  /** Request line and headers as they are sent. */
  function HeadText(method_: string, path: string, version: string, headers: seq<Header>): string {
    CrLf([method_ + " " + path + " " + version] + HeaderLines(headers))
  }

  predicate Word(s: string) {
    s != [] && forall i | 0 <= i < |s| :: !IsWhitespace(s[i])
  }

  predicate OneLine(s: string) {
    '\r' !in s && '\n' !in s
  }

  predicate Sendable(h: Header) {
    OneLine(h.name) && OneLine(h.value) && ':' !in h.name
  }

  // ---- lines ----

  /** The pieces between the line feeds of a text of lines. */
  function Pieces(lines: seq<string>): (p: seq<string>)
    requires lines != []
    ensures |p| == |lines|
  {
    seq(|lines| - 1, i requires 0 <= i < |lines| - 1 => lines[i] + ['\r']) + [lines[|lines| - 1]]
  }

  lemma {:induction false} CrLfIsJoin(lines: seq<string>)
    requires lines != []
    ensures CrLf(lines) == Join(Pieces(lines), ['\n'])
  {
    if |lines| > 1 {
      CrLfIsJoin(lines[1..]);
      var p := Pieces(lines);
      assert p[0] == lines[0] + ['\r'] && p[1..] == Pieces(lines[1..]);
      assert lines[0] + "\r\n" == (lines[0] + ['\r']) + ['\n'];
      hide Pieces;
    } else {
      assert Pieces(lines) == [lines[0]];
    }
  }

  lemma LinesFromPieces(text: string, lines: seq<string>)
    requires lines != [] && lines[|lines| - 1] != [] && Split(text, '\n') == Pieces(lines)
    ensures Lines(text) == lines
  {
    hide Split;
    var n, p := |lines| - 1, Pieces(lines);
    forall i | 0 <= i < n ensures DropCr(p[i]) == lines[i] {
      assert p[i] == lines[i] + ['\r'];
    }
    assert Lines(text) == lines[..n] + [lines[n]];
  }

  lemma PiecesAreClean(lines: seq<string>, q: string)
    requires lines != [] && q in Pieces(lines) && forall i | 0 <= i < |lines| :: OneLine(lines[i])
    ensures '\n' !in q
  {
    var i :| 0 <= i < |lines| && Pieces(lines)[i] == q;
    assert OneLine(lines[i]);
  }

  lemma LinesOfCrLf(lines: seq<string>)
    requires lines != [] && lines[|lines| - 1] != []
    requires forall i | 0 <= i < |lines| :: OneLine(lines[i])
    ensures Lines(CrLf(lines)) == lines
  {
    hide Split, Join, CrLf, Lines, OneLine, Pieces;
    CrLfIsJoin(lines);
    forall q | q in Pieces(lines) ensures '\n' !in q {
      PiecesAreClean(lines, q);
    }
    SplitJoin(Pieces(lines), '\n');
    LinesFromPieces(CrLf(lines), lines);
  }

  // ---- the request line ----

  lemma {:induction false} FirstWordIs(word: string, rest: string)
    requires Word(word) && (rest == [] || IsWhitespace(rest[0]))
    ensures FirstWord(word + rest) == word
  {
    var s := word + rest;
    if |word| == 1 {
      assert s[1..] == rest;
    } else {
      assert s[1..] == word[1..] + rest;
      FirstWordIs(word[1..], rest);
    }
  }

  lemma WordsStep(word: string, rest: string)
    requires Word(word) && (rest == [] || IsWhitespace(rest[0]))
    ensures Words(word + rest) == [word] + Words(rest)
  {
    var s := word + rest;
    assert s[0] == word[0];
    assert TrimStart(s) == s;
    FirstWordIs(word, rest);
    assert s[|word|..] == rest;
  }

  lemma WordsAfterSpace(rest: string)
    ensures Words([' '] + rest) == Words(rest)
  {
    SpaceIsTrimmed(rest);
    hide TrimStart, FirstWord;
  }

  lemma SpaceIsTrimmed(rest: string)
    ensures TrimStart([' '] + rest) == TrimStart(rest)
  {
    assert ([' '] + rest)[1..] == rest;
  }

  lemma SpaceFirst(rest: string)
    ensures " " + rest == [' '] + rest && ([' '] + rest) != [] && IsWhitespace(([' '] + rest)[0])
  {
  }

  lemma Regroup(a: string, x: string, b: string, y: string, c: string)
    ensures a + x + b + y + c == a + (x + (b + (y + c)))
  {
  }

  lemma ThreeWords(a: string, b: string, c: string)
    requires Word(a) && Word(b) && Word(c)
    ensures Words(a + " " + b + " " + c) == [a, b, c]
  {
    hide Words, Word, IsWhitespace;
    Regroup(a, " ", b, " ", c);
    SpaceFirst(c);
    SpaceFirst(b + (" " + c));
    WordsStep(a, " " + (b + (" " + c)));
    WordsAfterSpace(b + (" " + c));
    WordsStep(b, " " + c);
    WordsAfterSpace(c);
    assert c + [] == c;
    WordsStep(c, []);
    NoWords();
  }

  lemma NoWords()
    ensures Words([]) == []
  {
  }

  // ---- the header map ----

  function HeaderKey(h: Header): string {
    Lower(Trim(h.name))
  }

  predicate Sent(headers: seq<Header>, key: string) {
    exists i | 0 <= i < |headers| :: HeaderKey(headers[i]) == key
  }

  predicate LastOfItsName(headers: seq<Header>, i: nat) {
    i < |headers| && forall j | i < j < |headers| :: HeaderKey(headers[j]) != HeaderKey(headers[i])
  }

  /** Exactly the headers sent, each with the trimmed value of the last of its name. */
  ghost predicate Maps(m: map<string, string>, headers: seq<Header>) {
    && (forall key :: key in m <==> Sent(headers, key))
    && forall i: nat | LastOfItsName(headers, i) ::
         HeaderKey(headers[i]) in m && m[HeaderKey(headers[i])] == Trim(headers[i].value)
  }

  lemma {:induction false} HeaderMapMaps(headers: seq<Header>)
    requires forall i | 0 <= i < |headers| :: Sendable(headers[i])
    ensures Maps(HeaderMap(HeaderLines(headers)), headers)
  {
    hide Trim, Lower;
    if headers != [] {
      var n := |headers| - 1;
      HeaderMapMaps(headers[..n]);
      assert HeaderLines(headers)[..n] == HeaderLines(headers[..n]);
      SplitOnceFirst(headers[n].name, headers[n].value, ':');
      assert HeaderLines(headers)[n] == headers[n].name + [':'] + headers[n].value;
      MapOneMore(HeaderMap(HeaderLines(headers[..n])), headers);
    }
  }

  lemma SentOneMore(headers: seq<Header>, key: string)
    requires headers != []
    ensures Sent(headers, key) <==> Sent(headers[..|headers| - 1], key) || key == HeaderKey(headers[|headers| - 1])
  {
    hide HeaderKey;
    var n := |headers| - 1;
    if Sent(headers[..n], key) {
      var i :| 0 <= i < n && HeaderKey(headers[..n][i]) == key;
      assert HeaderKey(headers[i]) == key;
    }
    if Sent(headers, key) {
      var i :| 0 <= i < |headers| && HeaderKey(headers[i]) == key;
      assert i < n ==> HeaderKey(headers[..n][i]) == key;
    }
  }

  lemma LastOneMore(headers: seq<Header>, i: nat)
    requires LastOfItsName(headers, i) && i < |headers| - 1
    ensures LastOfItsName(headers[..|headers| - 1], i) && HeaderKey(headers[i]) != HeaderKey(headers[|headers| - 1])
  {
    hide HeaderKey;
    var front := headers[..|headers| - 1];
    forall j | i < j < |front| ensures HeaderKey(front[j]) != HeaderKey(front[i]) {
      assert front[j] == headers[j];
    }
  }

  lemma MapOneMore(m: map<string, string>, headers: seq<Header>)
    requires headers != [] && Maps(m, headers[..|headers| - 1])
    ensures var last := headers[|headers| - 1]; Maps(m[HeaderKey(last) := Trim(last.value)], headers)
  {
    hide HeaderKey, Trim, Sent, LastOfItsName;
    var n := |headers| - 1;
    var m' := m[HeaderKey(headers[n]) := Trim(headers[n].value)];
    forall key ensures key in m' <==> Sent(headers, key) {
      SentOneMore(headers, key);
    }
    forall i: nat | LastOfItsName(headers, i)
      ensures i < |headers| && HeaderKey(headers[i]) in m' && m'[HeaderKey(headers[i])] == Trim(headers[i].value)
    {
      InRange(headers, i);
      if i < n {
        LastOneMore(headers, i);
        assert headers[..n][i] == headers[i];
      }
    }
  }

  lemma InRange(headers: seq<Header>, i: nat)
    requires LastOfItsName(headers, i)
    ensures i < |headers|
  {
  }

  // ---- the whole head ----

  lemma WrittenLines(method_: string, path: string, version: string, headers: seq<Header>)
    requires Word(method_) && Word(path) && Word(version)
    requires forall i | 0 <= i < |headers| :: Sendable(headers[i])
    ensures Lines(HeadText(method_, path, version, headers)) == [method_ + " " + path + " " + version] + HeaderLines(headers)
  {
    var first := method_ + " " + path + " " + version;
    var lines := [first] + HeaderLines(headers);
    assert OneLine(first) by {
      WordsAreOneLine(method_);
      WordsAreOneLine(path);
      WordsAreOneLine(version);
    }
    forall i | 0 <= i < |lines| ensures OneLine(lines[i]) && lines[i] != [] {
      if i > 0 {
        assert lines[i] == HeaderLine(headers[i - 1]) && Sendable(headers[i - 1]);
      }
    }
    LinesOfCrLf(lines);
  }

  lemma WordsAreOneLine(s: string)
    requires Word(s)
    ensures OneLine(s)
  {
    assert IsWhitespace('\r') && IsWhitespace('\n');
  }

  /**
   A request whose head reads as it was written has the method and path of its first line, and of every header name,
   in any case and with any space around it, the trimmed value that was sent last.
   */
  lemma WrittenRequestIsRead(input: Bytes, decode: Bytes -> string, end: nat, method_: string, path: string,
                             version: string, headers: seq<Header>)
    requires end <= |input| && FindHeaderEnd(input) == Some(end)
    requires decode(input[..end]) == HeadText(method_, path, version, headers)
    requires Word(method_) && Word(path) && Word(version)
    requires forall i | 0 <= i < |headers| :: Sendable(headers[i])
    ensures var r := GatewayRequest(input, decode);
            r.Ok? && r.value.method_ == method_ && r.value.path == path && Maps(r.value.headers, headers)
  {
    WrittenLines(method_, path, version, headers);
    ThreeWords(method_, path, version);
    HeaderMapMaps(headers);
    var lines := HeadLines(input, end, decode);
    assert lines[1..] == HeaderLines(headers);
    hide FindHeaderEnd, Lines, Words, HeaderMap, HeaderLines, GatewayLength, GatewayBody, HeadText, Maps, Word, Sendable;
  }

  /** A first line of fewer than two words is no request, and says which is missing. */
  lemma ShortRequestLines(input: Bytes, decode: Bytes -> string, end: nat, line: string)
    requires end <= |input| && FindHeaderEnd(input) == Some(end) && decode(input[..end]) == line && OneLine(line)
    ensures line == [] ==> GatewayRequest(input, decode) == Err(MissingRequestLine)
    ensures line != [] && AllWhitespace(line) ==> GatewayRequest(input, decode) == Err(MissingMethod)
    ensures Word(line) ==> GatewayRequest(input, decode) == Err(MissingPath)
  {
    if line != [] {
      LinesOfCrLf([line]);
      assert CrLf([line]) == line;
      if Word(line) {
        assert line + [] == line;
        WordsStep(line, []);
        NoWords();
      }
    } else {
      assert Lines([]) == [];
    }
    hide FindHeaderEnd, HeaderMap, GatewayLength, GatewayBody;
  }

  // ---- the body ----

  /** A decimal number below 2^64, with or without a plus sign, is read as that number, a larger one as none. */
  lemma UsizeOfDecimal(n: nat)
    ensures n <= 18446744073709551615 ==> ParseUsize(Decimal(n)) == ParseUsize("+" + Decimal(n)) == Some(n)
    ensures n > 18446744073709551615 ==> ParseUsize(Decimal(n)) == ParseUsize("+" + Decimal(n)) == None
  {
    ValueOfDecimal(n);
    var digits := Decimal(n);
    assert IsDigit(digits[0]);
    assert ("+" + digits)[1..] == digits;
    hide Decimal, Value;
  }

  /** Nothing but digits after an optional plus sign is a number. */
  lemma OnlyDigitsAreNumbers(s: string)
    ensures ParseUsize(s).Some? ==>
              var digits := if s != [] && s[0] == '+' then s[1..] else s;
              digits != [] && AllDigits(digits) && ParseUsize(s) == Some(Value(digits))
  {
  }

  lemma {:induction false} FirstNumberAt(lines: seq<string>, k: nat)
    requires k < |lines| && LengthNumber(lines[k]).Some? && forall i | 0 <= i < k :: LengthNumber(lines[i]).None?
    ensures FirstNumber(lines) == LengthNumber(lines[k])
  {
    hide LengthNumber;
    if k > 0 {
      assert LengthNumber(lines[0]).None?;
      FirstNumberAt(lines[1..], k - 1);
    }
  }

  lemma {:induction false} FirstSpelledAt(lines: seq<string>, k: nat)
    requires k < |lines| && Spelled(lines[k]) && forall i | 0 <= i < k :: !Spelled(lines[i])
    ensures FirstSpelled(lines) == k
  {
    hide Spelled;
    if k > 0 {
      assert !Spelled(lines[0]);
      FirstSpelledAt(lines[1..], k - 1);
    }
  }

  /** The request line is no length header. */
  lemma RequestLineHasNoLength(method_: string, rest: string)
    requires ':' !in method_
    ensures LengthValue(method_ + " " + rest).None?
  {
    var line := method_ + " " + rest;
    var pair := SplitOnce(line, ':');
    if pair.Some? {
      var name := pair.value.0;
      assert line[|method_|] == ' ' && line[|name|] == ':';
      assert forall i | 0 <= i < |method_| :: line[i] == method_[i];
      assert |name| > |method_| && name[|method_|] == ' ';
      SpaceInName(name, |method_|);
    }
  }

  lemma SpaceInName(name: string, i: nat)
    requires i < |name| && name[i] == ' '
    ensures Lower(name) != "content-length"
  {
    assert Lower(name)[i] == ' ';
    assert ' ' !in "content-length";
  }

  lemma HeaderLength(h: Header)
    requires ':' !in h.name
    ensures LengthValue(HeaderLine(h)) == if Lower(h.name) == "content-length" then Some(h.value) else None
  {
    assert HeaderLine(h) == h.name + [':'] + h.value;
    SplitOnceFirst(h.name, h.value, ':');
    hide Lower;
  }

  /** Header `k` is the first length header and announces `n` bytes. */
  predicate Announces(headers: seq<Header>, k: nat, n: nat) {
    && k < |headers| && Lower(headers[k].name) == "content-length" && Trim(headers[k].value) == Decimal(n)
    && n <= 18446744073709551615
    && forall i | 0 <= i < k :: Lower(headers[i].name) != "content-length"
  }

  lemma AnnouncedLengths(first: string, headers: seq<Header>, k: nat, n: nat)
    requires LengthValue(first).None? && Announces(headers, k, n)
    requires forall i | 0 <= i < |headers| :: Sendable(headers[i])
    ensures GatewayLength([first] + HeaderLines(headers)) == n
    ensures headers[k].name in {"Content-Length", "content-length"} ==> ServerLength([first] + HeaderLines(headers)) == Ok(n)
  {
    var lines := [first] + HeaderLines(headers);
    UsizeOfDecimal(n);
    hide Lower, Trim, Decimal, ParseUsize, LengthValue, HeaderLine, FirstNumber, FirstSpelled, GatewayLength, ServerLength;
    forall i | 0 <= i <= k ensures i < k + 1 && LengthValue(lines[i]).None? {
      if i > 0 {
        HeaderLength(headers[i - 1]);
      }
    }
    HeaderLength(headers[k]);
    assert lines[k + 1] == HeaderLine(headers[k]);
    FirstNumberAt(lines, k + 1);
    GatewayTakesFirstNumber(lines);
    if headers[k].name in {"Content-Length", "content-length"} {
      SpelledHeader(headers[k]);
      forall i | 0 <= i <= k ensures !Spelled(lines[i]) {
        if Spelled(lines[i]) {
          SpelledIsLength(lines[i]);
        }
      }
      hide Spelled;
      FirstSpelledAt(lines, k + 1);
      ServerTakesFirstSpelled(lines);
    }
  }

  lemma SpelledHeader(h: Header)
    requires h.name == "Content-Length" || h.name == "content-length"
    ensures Spelled(HeaderLine(h))
  {
    assert HeaderLine(h)[..15] == h.name + ":";
    assert "Content-Length" + ":" == "Content-Length:" && "content-length" + ":" == "content-length:";
  }

  /** CR LF CR LF. */
  predicate BlankLineAt(input: Bytes, i: nat) {
    i + 4 <= |input| && input[i] == 13 && input[i + 1] == 10 && input[i + 2] == 13 && input[i + 3] == 10
  }

  /** The bytes of a request: head, blank line, body, with no blank line any earlier. */
  predicate Wire(input: Bytes, head: Bytes, body: Bytes) {
    input == head + [13, 10, 13, 10] + body && forall i | 0 <= i < |head| :: !BlankLineAt(input, i)
  }

  lemma BlankLines(input: Bytes, i: nat)
    ensures BlankLineAt(input, i) <==> EndsAt(input, i)
  {
    if i + 4 <= |input| {
      assert input[i..i + 4] == [input[i], input[i + 1], input[i + 2], input[i + 3]];
    }
  }

  lemma WireEnds(input: Bytes, head: Bytes, body: Bytes)
    requires Wire(input, head, body)
    ensures FindHeaderEnd(input) == Some(|head|) && input[..|head|] == head && input[|head| + 4..] == body
  {
    assert BlankLineAt(input, |head|);
    BlankLines(input, |head|);
    forall i | 0 <= i < |head| ensures !EndsAt(input, i) {
      BlankLines(input, i);
    }
    hide BlankLineAt, EndsAt;
  }

  /** Input that closes without a blank line is refused by both readers. */
  lemma NoBlankLineNoRequest(input: Bytes, decode: Bytes -> string)
    requires forall i: nat :: !BlankLineAt(input, i)
    ensures GatewayRequest(input, decode) == Err(Malformed) && ServerRequest(input, decode) == Err(EndedInHead)
  {
    var end := FindHeaderEnd(input);
    if end.Some? {
      BlankLines(input, end.value);
    }
    hide BlankLineAt, FindHeaderEnd;
  }

  lemma WrittenLengths(input: Bytes, decode: Bytes -> string, end: nat, method_: string, path: string, version: string,
                       headers: seq<Header>, k: nat, n: nat)
    requires end <= |input| && decode(input[..end]) == HeadText(method_, path, version, headers)
    requires Word(method_) && Word(path) && Word(version) && ':' !in method_
    requires forall i | 0 <= i < |headers| :: Sendable(headers[i])
    requires Announces(headers, k, n)
    ensures GatewayLength(HeadLines(input, end, decode)) == n
    ensures headers[k].name in {"Content-Length", "content-length"} ==> ServerLength(HeadLines(input, end, decode)) == Ok(n)
  {
    hide Lines, HeadText, Word, Announces, GatewayLength, ServerLength, LengthValue, Lower, Trim;
    WrittenLines(method_, path, version, headers);
    Regroup(method_, " ", path, " ", version);
    RequestLineHasNoLength(method_, path + (" " + version));
    assert method_ + " " + (path + (" " + version)) == method_ + (" " + (path + (" " + version)));
    AnnouncedLengths(method_ + " " + path + " " + version, headers, k, n);
  }

  lemma BodySlices(input: Bytes, head: Bytes, body: Bytes)
    requires Wire(input, head, body)
    ensures GatewayBody(input, |head| + 4, |body|) == body && |head| + 4 <= |input| && Take(input[|head| + 4..], |body|) == body
  {
    assert input[|head| + 4..|head| + 4 + |body|] == body && input[|head| + 4..] == body;
    hide BlankLineAt;
  }

  /**
   A written request whose first length header announces its body is read with that body by the gateway, and with
   head and body by the server too when that header is in one of the two spellings the server knows.
   */
  lemma WrittenBodyIsRead(input: Bytes, head: Bytes, body: Bytes, decode: Bytes -> string, method_: string, path: string,
                          version: string, headers: seq<Header>, k: nat)
    requires Wire(input, head, body) && decode(head) == HeadText(method_, path, version, headers)
    requires Word(method_) && Word(path) && Word(version) && ':' !in method_
    requires forall i | 0 <= i < |headers| :: Sendable(headers[i])
    requires Announces(headers, k, |body|)
    ensures GatewayRequest(input, decode).Ok? && GatewayRequest(input, decode).value.body == body
    ensures headers[k].name in {"Content-Length", "content-length"} ==> ServerRequest(input, decode) == Ok((head, body))
  {
    WireEnds(input, head, body);
    BodySlices(input, head, body);
    hide FindHeaderEnd, HeadText, Word, Sendable, Announces, Maps, Wire, GatewayRequest, ServerRequest, HeadLines,
         GatewayLength, ServerLength, GatewayBody, Take, Complete;
    WrittenRequestIsRead(input, decode, |head|, method_, path, version, headers);
    WrittenLengths(input, decode, |head|, method_, path, version, headers, k, |body|);
    GatewayKeepsBody(input, decode, |head|);
    ServerKeepsBody(input, decode, |head|);
  }
}
