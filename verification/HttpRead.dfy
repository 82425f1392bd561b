/**
 Two incremental readers of HTTP/1.1 requests: the gateway's, which drops an incomplete body, and the server
 runtime's, which keeps what came. Input arrives as a list of reads; the end of the list is the peer's close.
 */
module HttpRead {
  import opened Wrappers
  import opened Text

  newtype byte = x: int | 0 <= x < 256

  type Bytes = seq<byte>

  const HEAD_END: Bytes := [13, 10, 13, 10]
  const MAX_USIZE: nat := 0xFFFF_FFFF_FFFF_FFFF

  datatype ReadError = Malformed | MissingRequestLine | MissingMethod | MissingPath | EndedInHead | InvalidLength

  datatype HttpRequest = HttpRequest(method_: string, path: string, headers: map<string, string>, body: Bytes)

  // ---- where the head ends ----

  predicate EndsAt(buffer: Bytes, i: int) {
    0 <= i <= |buffer| - 4 && buffer[i..i + 4] == HEAD_END
  }

  /** `find_header_end`: the first window equal to CR LF CR LF. */
  function FindHeaderEnd(buffer: Bytes): (r: Option<nat>)
    ensures r.Some? ==> EndsAt(buffer, r.value) && forall i | 0 <= i < r.value :: !EndsAt(buffer, i)
    ensures r.None? ==> forall i :: !EndsAt(buffer, i)
  {
    FirstEnd(buffer, 0)
  }

  function FirstEnd(buffer: Bytes, from: nat): (r: Option<nat>)
    requires from <= |buffer|
    ensures r.Some? ==> EndsAt(buffer, r.value) && forall i | from <= i < r.value :: !EndsAt(buffer, i)
    ensures r.None? ==> forall i | from <= i :: !EndsAt(buffer, i)
    decreases |buffer| - from
  {
    if EndsAt(buffer, from) then Some(from) else if from == |buffer| then None else FirstEnd(buffer, from + 1)
  }

  /** More input moves no head end that was found, even one that a read boundary cuts in two. */
  lemma HeaderEndStays(a: Bytes, b: Bytes)
    requires FindHeaderEnd(a).Some?
    ensures FindHeaderEnd(a + b) == FindHeaderEnd(a)
  {
    var end := FindHeaderEnd(a).value;
    assert (a + b)[end..end + 4] == a[end..end + 4];
    assert EndsAt(a + b, end);
    forall i | 0 <= i < end ensures !EndsAt(a + b, i) {
      assert (a + b)[i..i + 4] == a[i..i + 4];
      assert !EndsAt(a, i);
    }
  }

  // ---- header text ----

  function DropCr(line: string): string {
    if line != [] && line[|line| - 1] == '\r' then line[..|line| - 1] else line
  }

  /** `str::lines`: pieces ended by a line feed, a carriage return before it dropped, no empty last piece. */
  function Lines(text: string): seq<string> {
    var pieces := Split(text, '\n');
    var last := pieces[|pieces| - 1];
    seq(|pieces| - 1, i requires 0 <= i < |pieces| - 1 => DropCr(pieces[i])) + (if last == [] then [] else [last])
  }

  /** `line.split_once(':')` */
  function SplitOnce(line: string, c: char): (r: Option<(string, string)>)
    ensures r.Some? ==> c !in r.value.0 && line == r.value.0 + [c] + r.value.1
    ensures r.None? ==> c !in line
  {
    if line == [] then None
    else if line[0] == c then Some(([], line[1..]))
    else
      match SplitOnce(line[1..], c)
      case None => None
      case Some(pair) => Some(([line[0]] + pair.0, pair.1))
  }

  /** `parse::<usize>()`: an optional plus sign and at least one digit, in 64 bits. */
  function ParseUsize(s: string): Option<nat> {
    var digits := if s != [] && s[0] == '+' then s[1..] else s;
    if digits == [] || !AllDigits(digits) || Value(digits) > MAX_USIZE then None else Some(Value(digits))
  }

  // ---- the two readings of the length header ----

  /** The value of a line that the gateway takes for a length header: its name in any case. */
  function LengthValue(line: string): Option<string> {
    match SplitOnce(line, ':')
    case Some(pair) => if Lower(pair.0) == "content-length" then Some(pair.1) else None
    case None => None
  }

  /** The gateway takes the first length header that is a number, and 0 without one. */
  function GatewayLength(lines: seq<string>): nat {
    if lines == [] then 0
    else
      var value := LengthValue(lines[0]);
      if value.Some? && ParseUsize(Trim(value.value)).Some? then ParseUsize(Trim(value.value)).value
      else GatewayLength(lines[1..])
  }

  /** The two spellings the server looks for. */
  predicate Spelled(line: string) {
    StartsWith(line, "Content-Length:") || StartsWith(line, "content-length:")
  }

  /** The server takes the first header in one of its two spellings, and fails if that is no number. */
  function ServerLength(lines: seq<string>): Result<nat, ReadError> {
    if lines == [] then Ok(0)
    else if Spelled(lines[0]) then
      var value := ParseUsize(Trim(lines[0][15..]));
      if value.Some? then Ok(value.value) else Err(InvalidLength)
    else ServerLength(lines[1..])
  }

  // ---- the gateway's reader ----

  function Words(line: string): seq<string>
    decreases |line|
  {
    var rest := TrimStart(line);
    if rest == [] then []
    else var word := FirstWord(rest); [word] + Words(rest[|word|..])
  }

  function FirstWord(s: string): (word: string)
    ensures |word| <= |s| && (s != [] && !IsWhitespace(s[0]) ==> |word| > 0)
  {
    if s == [] || IsWhitespace(s[0]) then [] else [s[0]] + FirstWord(s[1..])
  }

  function HeaderMap(lines: seq<string>): map<string, string> {
    if lines == [] then map[]
    else
      var n := |lines| - 1;
      match SplitOnce(lines[n], ':')
      case None => HeaderMap(lines[..n])
      case Some(pair) => HeaderMap(lines[..n])[Lower(Trim(pair.0)) := Trim(pair.1)]
  }

  /** Request line and headers, with the body still to be cut. */
  function ParseHead(lines: seq<string>): Result<HttpRequest, ReadError> {
    if lines == [] then Err(MissingRequestLine)
    else
      var words := Words(lines[0]);
      if |words| == 0 then Err(MissingMethod)
      else if |words| == 1 then Err(MissingPath)
      else Ok(HttpRequest(words[0], words[1], HeaderMap(lines[1..]), []))
  }

  function HeadLines(input: Bytes, end: nat, decode: Bytes -> string): seq<string>
    requires end <= |input|
  {
    Lines(decode(input[..end]))
  }

  /** The request in everything the peer sent. */
  function GatewayRequest(input: Bytes, decode: Bytes -> string): Result<HttpRequest, ReadError> {
    match FindHeaderEnd(input)
    case None => Err(Malformed)
    case Some(end) =>
      match ParseHead(HeadLines(input, end, decode))
      case Err(e) => Err(e)
      case Ok(request) =>
        var length := GatewayLength(HeadLines(input, end, decode));
        Ok(request.(body := GatewayBody(input, end + 4, length)))
  }

  /** All of the announced body, or nothing. */
  function GatewayBody(input: Bytes, start: nat, length: nat): Bytes {
    if |input| >= start + length then input[start..start + length] else []
  }

  /** The head is complete and the body has the length it announces. */
  predicate Complete(input: Bytes, decode: Bytes -> string) {
    match FindHeaderEnd(input)
    case None => false
    case Some(end) => |input| >= end + 4 + GatewayLength(HeadLines(input, end, decode))
  }

  /** What comes after a complete request changes nothing. */
  lemma CompleteIsFinal(a: Bytes, b: Bytes, decode: Bytes -> string)
    requires Complete(a, decode)
    ensures GatewayRequest(a + b, decode) == GatewayRequest(a, decode)
  {
    var end := FindHeaderEnd(a).value;
    SameHead(a, b, decode);
    hide FindHeaderEnd, HeadLines, GatewayLength, ParseHead;
    BodyStays(a, b, end + 4, GatewayLength(HeadLines(a, end, decode)));
    hide GatewayBody;
  }

  lemma BodyStays(a: Bytes, b: Bytes, start: nat, length: nat)
    requires |a| >= start + length
    ensures GatewayBody(a + b, start, length) == GatewayBody(a, start, length)
  {
    assert (a + b)[start..start + length] == a[start..start + length];
  }

  predicate NonEmpty(received: seq<Bytes>) {
    forall i | 0 <= i < |received| :: received[i] != []
  }

  /**
   The gateway's `read_http_request`: the result depends only on the bytes, never on how reads split them,
   and no read is made once the request is complete.
   */
  method ReadGatewayRequest(received: seq<Bytes>, decode: Bytes -> string)
    returns (r: Result<HttpRequest, ReadError>, used: nat)
    requires NonEmpty(received)
    ensures r == GatewayRequest(Concat(received), decode)
    ensures used <= |received| && (used < |received| ==> Complete(Concat(received[..used]), decode))
    ensures forall k | 0 <= k < used :: !Complete(Concat(received[..k]), decode)
  {
    hide Complete, FindHeaderEnd, GatewayLength, ParseHead, Lines, Concat, GatewayRequest;
    var buffer: Bytes := [];
    var headerEnd: Option<nat> := None;
    var contentLength := 0;
    used := 0;
    assert Concat(received[..0]) == [] && !Complete([], decode) by {
      NothingIsIncomplete(received, decode);
    }
    while used < |received|
      invariant used <= |received| && buffer == Concat(received[..used])
      invariant headerEnd == FindHeaderEnd(buffer)
      invariant headerEnd.Some? ==> contentLength == GatewayLength(HeadLines(buffer, headerEnd.value, decode))
      invariant forall k | 0 <= k <= used :: !Complete(Concat(received[..k]), decode)
    {
      ConcatNext(received, used);
      ghost var before := buffer;
      buffer := buffer + received[used];
      used := used + 1;
      if headerEnd.None? {
        headerEnd := FindHeaderEnd(buffer);
        if headerEnd.Some? {
          contentLength := GatewayLength(HeadLines(buffer, headerEnd.value, decode));
        }
      } else {
        HeaderEndStays(before, received[used - 1]);
        assert buffer[..headerEnd.value] == before[..headerEnd.value];
      }
      CompleteIff(buffer, decode);
      if headerEnd.Some? && |buffer| >= headerEnd.value + 4 + contentLength {
        break;
      }
    }
    ConcatCut(received, used);
    if used < |received| || Complete(buffer, decode) {
      CompleteIsFinal(buffer, Concat(received[used..]), decode);
    } else {
      assert received[..used] == received;
    }
    r := CutRequest(buffer, headerEnd, contentLength, decode);
  }

  method CutRequest(buffer: Bytes, headerEnd: Option<nat>, contentLength: nat, decode: Bytes -> string)
    returns (r: Result<HttpRequest, ReadError>)
    requires headerEnd == FindHeaderEnd(buffer)
    requires headerEnd.Some? ==> contentLength == GatewayLength(HeadLines(buffer, headerEnd.value, decode))
    ensures r == GatewayRequest(buffer, decode)
  {
    hide FindHeaderEnd, GatewayLength, ParseHead, Lines;
    if headerEnd.None? {
      return Err(Malformed);
    }
    var head := ParseHead(HeadLines(buffer, headerEnd.value, decode));
    if head.Err? {
      return head;
    }
    var bodyStart := headerEnd.value + 4;
    var bodyEnd := bodyStart + contentLength;
    return Ok(head.value.(body := if |buffer| >= bodyEnd then buffer[bodyStart..bodyEnd] else []));
  }

  lemma NothingIsIncomplete(received: seq<Bytes>, decode: Bytes -> string)
    ensures Concat(received[..0]) == [] && !Complete([], decode) && FindHeaderEnd([]) == None
  {
  }

  lemma CompleteIff(buffer: Bytes, decode: Bytes -> string)
    ensures Complete(buffer, decode) <==>
            var end := FindHeaderEnd(buffer);
            end.Some? && |buffer| >= end.value + 4 + GatewayLength(HeadLines(buffer, end.value, decode))
  {
    hide FindHeaderEnd, GatewayLength, Lines;
  }

  // ---- the server's reader ----

  function Take(s: Bytes, n: nat): Bytes {
    if |s| <= n then s else s[..n]
  }

  /** Raw head and body in everything the peer sent; a body cut short is kept as far as it came. */
  function ServerRequest(input: Bytes, decode: Bytes -> string): Result<(Bytes, Bytes), ReadError> {
    match FindHeaderEnd(input)
    case None => Err(EndedInHead)
    case Some(end) =>
      match ServerLength(HeadLines(input, end, decode))
      case Err(e) => Err(e)
      case Ok(length) => Ok((input[..end], Take(input[end + 4..], length)))
  }

  lemma SameHead(a: Bytes, b: Bytes, decode: Bytes -> string)
    requires FindHeaderEnd(a).Some?
    ensures FindHeaderEnd(a + b) == FindHeaderEnd(a)
    ensures var end := FindHeaderEnd(a).value;
            HeadLines(a + b, end, decode) == HeadLines(a, end, decode) && (a + b)[end + 4..] == a[end + 4..] + b
  {
    HeaderEndStays(a, b);
    var end := FindHeaderEnd(a).value;
    assert (a + b)[..end] == a[..end];
  }

  /** The server's `read_http_request`: first the head, then as much more as the announced body needs. */
  method ReadServerRequest(received: seq<Bytes>, decode: Bytes -> string) returns (r: Result<(Bytes, Bytes), ReadError>)
    requires NonEmpty(received)
    ensures r == ServerRequest(Concat(received), decode)
  {
    hide FindHeaderEnd, ServerLength, Lines, Concat, Take;
    ghost var input := Concat(received);
    var buffer: Bytes := [];
    var headerEnd: Option<nat> := None;
    var used := 0;
    NothingIsIncomplete(received, decode);
    while headerEnd.None?
      invariant used <= |received| && buffer == Concat(received[..used])
      invariant headerEnd == FindHeaderEnd(buffer)
      decreases |received| - used, headerEnd.None?
    {
      if used == |received| {
        assert received[..used] == received;
        return Err(EndedInHead);
      }
      ConcatNext(received, used);
      buffer := buffer + received[used];
      used := used + 1;
      headerEnd := FindHeaderEnd(buffer);
    }
    var end := headerEnd.value;
    ConcatCut(received, used);
    SameHead(buffer, Concat(received[used..]), decode);
    var headers, body := buffer[..end], buffer[end + 4..];
    assert input[..end] == headers;
    var contentLength := ServerLength(HeadLines(buffer, end, decode));
    if contentLength.Err? {
      return Err(contentLength.error);
    }
    assert input[end + 4..] == body + Concat(received[used..]);
    while |body| < contentLength.value && used < |received|
      invariant used <= |received| && input[end + 4..] == body + Concat(received[used..])
    {
      ConcatFirst(received, used);
      Associate(body, received[used], Concat(received[used + 1..]));
      body := body + received[used];
      used := used + 1;
    }
    TakeEnough(body, received, used, contentLength.value);
    return Ok((headers, if |body| > contentLength.value then body[..contentLength.value] else body));
  }

  lemma ConcatFirst(received: seq<Bytes>, n: nat)
    requires n < |received|
    ensures Concat(received[n..]) == received[n] + Concat(received[n + 1..])
  {
    ConcatCut(received[n..], 1);
    assert received[n..][..1] == [received[n]] && received[n..][1..] == received[n + 1..];
    assert Concat([received[n]]) == received[n];
  }

  lemma TakeEnough(body: Bytes, received: seq<Bytes>, used: nat, length: nat)
    requires used <= |received| && (|body| < length ==> used == |received|)
    ensures Take(body + Concat(received[used..]), length) == if |body| > length then body[..length] else body
  {
    var all := body + Concat(received[used..]);
    if |body| < length {
      assert received[used..] == [];
      assert all == body;
    } else {
      assert all[..length] == body[..length];
      assert |body| == length ==> body[..length] == body;
    }
  }

  // ---- when the two agree ----

  /** The first line the gateway takes for a length header. */
  function FirstLength(lines: seq<string>): Option<string> {
    if lines == [] then None
    else if LengthValue(lines[0]).Some? then LengthValue(lines[0])
    else FirstLength(lines[1..])
  }

  /** Every length header is in one of the two spellings and the first of them is a number. */
  predicate PlainLengths(lines: seq<string>) {
    && (forall line | line in lines :: LengthValue(line).Some? ==> Spelled(line))
    && (FirstLength(lines).Some? ==> ParseUsize(Trim(FirstLength(lines).value)).Some?)
  }

  lemma {:induction false} SplitOnceFirst(head: string, tail: string, c: char)
    requires c !in head
    ensures SplitOnce(head + [c] + tail, c) == Some((head, tail))
  {
    var whole := head + [c] + tail;
    if head == [] {
      assert whole[1..] == tail;
    } else {
      SplitOnceFirst(head[1..], tail, c);
      assert whole[1..] == head[1..] + [c] + tail;
      assert [head[0]] + head[1..] == head;
    }
  }

  lemma NamedLine(line: string, name: string)
    requires ':' !in name && Lower(name) == "content-length" && StartsWith(line, name + [':'])
    ensures LengthValue(line) == Some(line[|name| + 1..])
  {
    var value := line[|name| + 1..];
    assert line == name + [':'] + value;
    SplitOnceFirst(name, value, ':');
    hide Lower;
  }

  lemma Spellings()
    ensures "Content-Length" + [':'] == "Content-Length:" && "content-length" + [':'] == "content-length:"
    ensures Lower("Content-Length") == "content-length" && Lower("content-length") == "content-length"
    ensures ':' !in "Content-Length" && ':' !in "content-length"
  {
  }

  lemma SpelledIsLength(line: string)
    requires Spelled(line)
    ensures LengthValue(line) == Some(line[15..])
  {
    Spellings();
    hide LengthValue, Lower;
    var upper, lower := "Content-Length", "content-length";
    if StartsWith(line, "Content-Length:") {
      NamedLine(line, upper);
    } else {
      NamedLine(line, lower);
    }
  }

  /** What a line says as a length header for the gateway, if it is a number. */
  function LengthNumber(line: string): Option<nat> {
    match LengthValue(line)
    case Some(value) => ParseUsize(Trim(value))
    case None => None
  }

  /** The first length header that is a number, in whatever spelling. */
  function FirstNumber(lines: seq<string>): Option<nat> {
    if lines == [] then None
    else if LengthNumber(lines[0]).Some? then LengthNumber(lines[0])
    else FirstNumber(lines[1..])
  }

  /** The number of the first line in one of the two spellings, or of lines in all. */
  function FirstSpelled(lines: seq<string>): (k: nat)
    ensures k <= |lines| && forall i | 0 <= i < k :: !Spelled(lines[i])
    ensures k < |lines| ==> Spelled(lines[k])
  {
    if lines == [] || Spelled(lines[0]) then 0 else 1 + FirstSpelled(lines[1..])
  }

  /**
   Read off the header lines: no number in a third spelling stands before the first header in one of the two
   spellings and says otherwise than that header, which is a number itself; without such a header it says 0.
   */
  predicate LengthsAgree(lines: seq<string>) {
    var k := FirstSpelled(lines);
    var ahead := FirstNumber(lines[..k]);
    if k == |lines| then ahead.None? || ahead == Some(0)
    else LengthNumber(lines[k]).Some? && (ahead.None? || ahead == LengthNumber(lines[k]))
  }

  lemma {:induction false} FirstNumberAhead(lines: seq<string>, k: nat)
    requires k <= |lines|
    ensures FirstNumber(lines) == if FirstNumber(lines[..k]).Some? then FirstNumber(lines[..k]) else FirstNumber(lines[k..])
  {
    hide LengthNumber;
    if k > 0 {
      FirstNumberAhead(lines[1..], k - 1);
      assert lines[..k][1..] == lines[1..][..k - 1];
      assert lines[k..] == lines[1..][k - 1..];
    }
  }

  lemma {:induction false} GatewayTakesFirstNumber(lines: seq<string>)
    ensures GatewayLength(lines) == match FirstNumber(lines) case Some(n) => n case None => 0
  {
    hide LengthValue, ParseUsize, Trim;
    if lines != [] {
      GatewayTakesFirstNumber(lines[1..]);
    }
  }

  lemma {:induction false} ServerTakesFirstSpelled(lines: seq<string>)
    ensures var k := FirstSpelled(lines);
            ServerLength(lines) ==
            if k == |lines| then Ok(0)
            else match LengthNumber(lines[k]) case Some(n) => Ok(n) case None => Err(InvalidLength)
  {
    hide Spelled, LengthValue, ParseUsize, Trim;
    if lines != [] {
      if Spelled(lines[0]) {
        SpelledIsLength(lines[0]);
      } else {
        ServerTakesFirstSpelled(lines[1..]);
      }
    }
  }

  /** For any header lines, the two readers expect the same number of bytes exactly when `LengthsAgree`. */
  lemma LengthsAgreeIff(lines: seq<string>)
    ensures ServerLength(lines) == Ok(GatewayLength(lines)) <==> LengthsAgree(lines)
  {
    var k := FirstSpelled(lines);
    ServerTakesFirstSpelled(lines);
    GatewayTakesFirstNumber(lines);
    FirstNumberAhead(lines, k);
    hide LengthNumber, GatewayLength, ServerLength, FirstSpelled;
  }

  lemma {:induction false} NoLengthAhead(lines: seq<string>, k: nat)
    requires k <= |lines| && forall i | 0 <= i < k :: LengthValue(lines[i]).None?
    ensures FirstNumber(lines[..k]).None? && FirstLength(lines) == FirstLength(lines[k..])
  {
    hide LengthValue;
    if k > 0 {
      NoLengthAhead(lines[1..], k - 1);
      assert lines[..k][1..] == lines[1..][..k - 1];
      assert lines[k..] == lines[1..][k - 1..];
    }
  }

  /** With plain length headers, or none, the two readers expect the same number of bytes. */
  lemma PlainLengthsAgree(lines: seq<string>)
    requires PlainLengths(lines)
    ensures ServerLength(lines) == Ok(GatewayLength(lines))
  {
    hide Spelled, LengthValue, ParseUsize, Trim, ServerLength, GatewayLength;
    var k := FirstSpelled(lines);
    NoLengthAhead(lines, k);
    if k < |lines| {
      SpelledIsLength(lines[k]);
    }
    LengthsAgreeIff(lines);
  }

  /**
   Of header lines without either spelling the server takes the body to be empty, while the gateway still finds
   the first number in a third spelling, capitals say.
   */
  lemma OtherSpellingsAreMissed(front: seq<string>, name: string, value: string, back: seq<string>, length: nat)
    requires Lower(name) == "content-length" && name != "Content-Length" && name != "content-length"
    requires ParseUsize(Trim(value)) == Some(length) && FirstNumber(front).None?
    requires forall line | line in front + back :: !Spelled(line)
    ensures GatewayLength(front + [name + [':'] + value] + back) == length
    ensures ServerLength(front + [name + [':'] + value] + back) == Ok(0)
  {
    hide ParseUsize, Trim, Lower;
    var line := name + [':'] + value;
    var lines := front + [line] + back;
    assert ':' !in name by {
      NoColon(name);
    }
    SplitOnceFirst(name, value, ':');
    assert !Spelled(line) by {
      NoColon(name);
      assert line[..15] == name + [':'];
      SpellingsEndInColon(name);
    }
    assert LengthNumber(line) == Some(length);
    hide Spelled, LengthNumber;
    forall i | 0 <= i < |lines| ensures !Spelled(lines[i]) {
      assert lines[i] in front + back || lines[i] == line;
    }
    ServerTakesFirstSpelled(lines);
    GatewayTakesFirstNumber(lines);
    FirstNumberAhead(lines, |front|);
    assert lines[..|front|] == front && lines[|front|..][0] == line;
  }

  lemma SpellingsEndInColon(name: string)
    requires name != "Content-Length" && name != "content-length"
    ensures name + [':'] != "Content-Length:" && name + [':'] != "content-length:"
  {
    assert (name + [':'])[..|name|] == name;
    assert "Content-Length:"[..14] == "Content-Length" && "content-length:"[..14] == "content-length";
  }

  lemma NoColon(name: string)
    requires Lower(name) == "content-length"
    ensures ':' !in name && |name| == 14
  {
    forall i | 0 <= i < |name| ensures name[i] != ':' {
      assert LowerChar(name[i]) == "content-length"[i];
    }
  }

  /** The part of `came` bytes the gateway keeps of a body of `length`, and the part the server keeps. */
  function GatewayKeeps(came: nat, length: nat): nat {
    if came >= length then length else 0
  }

  function ServerKeeps(came: nat, length: nat): nat {
    if came <= length then came else length
  }

  lemma KeptBodies(input: Bytes, start: nat, g: nat, s: nat)
    requires start <= |input|
    ensures GatewayBody(input, start, g) == Take(input[start..], s) <==>
            GatewayKeeps(|input| - start, g) == ServerKeeps(|input| - start, s)
  {
    var came := |input| - start;
    assert GatewayBody(input, start, g) == input[start..start + GatewayKeeps(came, g)];
    assert Take(input[start..], s) == input[start..start + ServerKeeps(came, s)];
  }

  lemma GatewayKeepsBody(input: Bytes, decode: Bytes -> string, end: nat)
    requires FindHeaderEnd(input) == Some(end)
    ensures end + 4 <= |input|
    ensures var g := GatewayLength(HeadLines(input, end, decode));
            && (Complete(input, decode) <==> |input| >= end + 4 + g)
            && (GatewayRequest(input, decode).Ok? ==>
                  GatewayRequest(input, decode).value.body == GatewayBody(input, end + 4, g))
  {
    assert EndsAt(input, end);
    hide FindHeaderEnd, ParseHead, HeadLines, GatewayLength, GatewayBody;
  }

  lemma ServerKeepsBody(input: Bytes, decode: Bytes -> string, end: nat)
    requires FindHeaderEnd(input) == Some(end)
    ensures end + 4 <= |input|
    ensures ServerRequest(input, decode) ==
            match ServerLength(HeadLines(input, end, decode))
            case Err(e) => Err(e)
            case Ok(s) => Ok((input[..end], Take(input[end + 4..], s)))
  {
    assert EndsAt(input, end);
    hide FindHeaderEnd, HeadLines, ServerLength, Take;
  }

  /** The gateway takes the bytes for a request whose head ends at `end`. */
  predicate Taken(input: Bytes, decode: Bytes -> string, end: nat) {
    end <= |input| && FindHeaderEnd(input) == Some(end) && GatewayRequest(input, decode).Ok?
  }

  /**
   Any bytes the gateway takes for a request: the server refuses them exactly when its first header in one of the
   two spellings is no number; otherwise the bodies are the same if and only if the readers keep equally many of
   the bytes that came after the head.
   */
  lemma BodiesAgreeIff(input: Bytes, decode: Bytes -> string, end: nat)
    requires Taken(input, decode, end)
    ensures end + 4 <= |input|
    ensures var (lines, came) := (HeadLines(input, end, decode), |input| - end - 4);
            match ServerLength(lines)
            case Err(e) => ServerRequest(input, decode) == Err(e)
            case Ok(s) =>
              && ServerRequest(input, decode).Ok?
              && (GatewayRequest(input, decode).value.body == ServerRequest(input, decode).value.1 <==>
                  GatewayKeeps(came, GatewayLength(lines)) == ServerKeeps(came, s))
  {
    GatewayKeepsBody(input, decode, end);
    ServerKeepsBody(input, decode, end);
    hide FindHeaderEnd, ParseHead, HeadLines, GatewayLength, ServerLength, GatewayBody, Take, GatewayRequest, Complete,
         ServerRequest, GatewayKeeps, ServerKeeps;
    var lines := HeadLines(input, end, decode);
    if ServerLength(lines).Ok? {
      KeptBodies(input, end + 4, GatewayLength(lines), ServerLength(lines).value);
    }
  }

  /** When the readers expect the same length, the bodies are the same exactly when the body came in full or not at all. */
  lemma AgreedBodiesIff(input: Bytes, decode: Bytes -> string, end: nat)
    requires Taken(input, decode, end) && LengthsAgree(HeadLines(input, end, decode))
    ensures ServerRequest(input, decode).Ok?
    ensures GatewayRequest(input, decode).value.body == ServerRequest(input, decode).value.1 <==>
            |input| == end + 4 || Complete(input, decode)
  {
    GatewayKeepsBody(input, decode, end);
    hide FindHeaderEnd, ParseHead, HeadLines, GatewayLength, ServerLength, GatewayBody, Take, GatewayRequest,
         ServerRequest, Complete, LengthsAgree;
    LengthsAgreeIff(HeadLines(input, end, decode));
    BodiesAgreeIff(input, decode, end);
  }
}
