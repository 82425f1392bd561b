/**
 String helpers the Rust and TypeScript code takes from its standard libraries: decimal printing
 (`format!("{}")`, `format!("{:04}")`), trimming, ASCII case folding, splitting and joining.
 */
module Text {

  // ---- decimal numbers ----

  function Digit(d: nat): (c: char)
    requires d < 10
    ensures IsDigit(c) && DigitValue(c) == d
  {
    (48 + d) as char
  }

  predicate IsDigit(c: char) {
    '0' <= c <= '9'
  }

  function DigitValue(c: char): nat
    requires IsDigit(c)
  {
    c as int - 48
  }

  predicate AllDigits(s: string) {
    forall i | 0 <= i < |s| :: IsDigit(s[i])
  }

  /** The number a digit string denotes; leading zeros do not matter. */
  function Value(s: string): nat
    requires AllDigits(s)
  {
    if s == [] then 0 else Value(s[..|s| - 1]) * 10 + DigitValue(s[|s| - 1])
  }

  function Decimal(n: nat): (s: string)
    ensures s != [] && AllDigits(s)
    ensures s[0] == '0' ==> n == 0 && s == "0"
  {
    if n < 10 then [Digit(n)] else Decimal(n / 10) + [Digit(n % 10)]
  }

  function Zeros(k: nat): (s: string)
    ensures |s| == k && AllDigits(s)
  {
    seq(k, _ => '0')
  }

  /** `format!("{:04}")`: zero padded on the left to at least four digits. */
  function Pad4(n: nat): (s: string)
    ensures AllDigits(s) && |s| >= 4
    ensures |s| > 4 ==> s[0] != '0'
  {
    var digits := Decimal(n);
    if |digits| < 4 then Zeros(4 - |digits|) + digits else digits
  }

  lemma {:induction false} ValueOfDecimal(n: nat)
    ensures Value(Decimal(n)) == n
  {
    var s := Decimal(n);
    if n >= 10 {
      ValueOfDecimal(n / 10);
      assert s[..|s| - 1] == Decimal(n / 10);
    } else {
      assert s[..|s| - 1] == [];
      assert Value(s[..|s| - 1]) == 0;
    }
  }

  lemma {:induction false} ValueIgnoresZeros(k: nat, s: string)
    requires AllDigits(s)
    ensures Value(Zeros(k) + s) == Value(s)
  {
    var t := Zeros(k) + s;
    if s != [] {
      assert t[..|t| - 1] == Zeros(k) + s[..|s| - 1];
      ValueIgnoresZeros(k, s[..|s| - 1]);
    } else if k > 0 {
      assert t[..|t| - 1] == Zeros(k - 1) + [];
      ValueIgnoresZeros(k - 1, []);
    }
  }

  lemma ValueOfPad4(n: nat)
    ensures Value(Pad4(n)) == n
  {
    ValueOfDecimal(n);
    if |Decimal(n)| < 4 {
      ValueIgnoresZeros(4 - |Decimal(n)|, Decimal(n));
    }
  }

  lemma DecimalInjective(m: nat, n: nat)
    requires Decimal(m) == Decimal(n)
    ensures m == n
  {
    ValueOfDecimal(m);
    ValueOfDecimal(n);
  }

  lemma Pad4Injective(m: nat, n: nat)
    requires Pad4(m) == Pad4(n)
    ensures m == n
  {
    ValueOfPad4(m);
    ValueOfPad4(n);
  }

  /**
   An identifier that ends in `-` and a decimal number determines that number, whatever stands in
   front: a decimal holds no `-`, so the last `-` marks where it starts.
   */
  lemma DashedSuffixInjective(a: string, m: nat, b: string, n: nat)
    requires a + "-" + Decimal(m) == b + "-" + Decimal(n)
    ensures a == b && m == n
  {
    var s := a + "-" + Decimal(m);
    assert s[|a|] == '-' && forall i | |a| < i < |s| :: IsDigit(s[i]);
    assert s[|b|] == '-' && forall i | |b| < i < |s| :: IsDigit(s[i]);
    assert |a| == |b|;
    assert s[..|a|] == a && s[..|b|] == b;
    assert s[|a| + 1..] == Decimal(m) && s[|b| + 1..] == Decimal(n);
    DecimalInjective(m, n);
  }

  // ---- trimming and ASCII case ----

  /** `char::is_whitespace`: the Unicode White_Space property. */
  predicate IsWhitespace(c: char) {
    || 9 <= c as int <= 13
    || c as int in {0x20, 0x85, 0xA0, 0x1680, 0x2028, 0x2029, 0x202F, 0x205F, 0x3000}
    || 0x2000 <= c as int <= 0x200A
  }

  predicate AllWhitespace(s: string) {
    forall i | 0 <= i < |s| :: IsWhitespace(s[i])
  }

  function TrimStart(s: string): (r: string)
    ensures |r| <= |s| && r == s[|s| - |r|..] && forall i | 0 <= i < |s| - |r| :: IsWhitespace(s[i])
    ensures r == [] || !IsWhitespace(r[0])
  {
    if s != [] && IsWhitespace(s[0]) then TrimStart(s[1..]) else s
  }

  function TrimEnd(s: string): (r: string)
    ensures |r| <= |s| && r == s[..|r|] && forall i | |r| <= i < |s| :: IsWhitespace(s[i])
    ensures r == [] || !IsWhitespace(r[|r| - 1])
  {
    if s != [] && IsWhitespace(s[|s| - 1]) then TrimEnd(s[..|s| - 1]) else s
  }

  predicate Trimmed(s: string) {
    s == [] || (!IsWhitespace(s[0]) && !IsWhitespace(s[|s| - 1]))
  }

  function Trim(s: string): (r: string)
    ensures Trimmed(r)
    ensures Trimmed(s) ==> r == s
  {
    TrimEnd(TrimStart(s))
  }

  lemma StartCut(s: string) returns (front: string)
    ensures s == front + TrimStart(s) && AllWhitespace(front)
  {
    front := s[..|s| - |TrimStart(s)|];
    hide AllWhitespace;
  }

  lemma EndCut(s: string) returns (back: string)
    ensures s == TrimEnd(s) + back && AllWhitespace(back)
  {
    back := s[|TrimEnd(s)|..];
    hide AllWhitespace;
  }

  /** Trimming takes off white space only, and all of it at both ends. */
  lemma TrimCuts(s: string) returns (front: string, back: string)
    ensures s == front + Trim(s) + back && AllWhitespace(front) && AllWhitespace(back)
  {
    front := StartCut(s);
    back := EndCut(TrimStart(s));
    var trimmed := Trim(s);
    hide TrimStart, TrimEnd, AllWhitespace;
    assert front + (trimmed + back) == front + trimmed + back;
  }

  lemma TrimOfPadded(front: string, t: string, back: string)
    requires AllWhitespace(front) && AllWhitespace(back) && Trimmed(t) && t != []
    ensures Trim(front + t + back) == t
  {
    hide TrimStart, TrimEnd;
    TrimStartOfPadded(front, t + back);
    assert front + (t + back) == front + t + back;
    TrimEndOfPadded(t, back);
  }

  lemma {:induction false} TrimStartOfPadded(front: string, t: string)
    requires AllWhitespace(front) && t != [] && !IsWhitespace(t[0])
    ensures TrimStart(front + t) == t
  {
    if front == [] {
      assert front + t == t;
    } else {
      assert front[0] == (front + t)[0];
      assert (front + t)[1..] == front[1..] + t;
      TrimStartOfPadded(front[1..], t);
    }
  }

  lemma {:induction false} TrimEndOfPadded(t: string, back: string)
    requires AllWhitespace(back) && t != [] && !IsWhitespace(t[|t| - 1])
    ensures TrimEnd(t + back) == t
  {
    var s := t + back;
    if back == [] {
      assert s == t;
    } else {
      var n := |back| - 1;
      assert s[|s| - 1] == back[n];
      assert s[..|s| - 1] == t + back[..n];
      TrimEndOfPadded(t, back[..n]);
    }
  }

  lemma TrimOfBlank(s: string)
    requires AllWhitespace(s)
    ensures Trim(s) == []
  {
  }

  lemma BlankIff(s: string)
    ensures Trim(s) == [] <==> AllWhitespace(s)
  {
    if AllWhitespace(s) {
      TrimOfBlank(s);
    }
    var front, back := TrimCuts(s);
    hide Trim;
    if Trim(s) == [] {
      assert s == front + back;
    }
  }

  function LowerChar(c: char): (l: char)
    ensures IsWhitespace(l) <==> IsWhitespace(c)
    ensures LowerFixed(l)
  {
    if 'A' <= c <= 'Z' then (c as int + 32) as char else c
  }

  predicate LowerFixed(c: char) {
    !('A' <= c <= 'Z')
  }

  /** `to_ascii_lowercase` */
  function Lower(s: string): (r: string)
    ensures |r| == |s| && forall i | 0 <= i < |s| :: r[i] == LowerChar(s[i])
  {
    seq(|s|, i requires 0 <= i < |s| => LowerChar(s[i]))
  }

  /** The letters from A to Z become those from a to z in order, and nothing else changes. */
  lemma LowerLetters()
    ensures LowerChar('A') == 'a' && LowerChar('Z') == 'z'
    ensures forall c, d | 'A' <= c < d <= 'Z' :: LowerChar(c) < LowerChar(d)
    ensures forall c | c < 'A' || 'Z' < c :: LowerChar(c) == c
  {
  }

  /** Trimming and then lower-casing a second time changes nothing. */
  lemma TrimLowerIdempotent(s: string)
    ensures Lower(Trim(Lower(Trim(s)))) == Lower(Trim(s))
  {
    hide Trim, Lower, LowerChar;
    var n := Lower(Trim(s));
    assert Trimmed(n);
    LowerTwice(Trim(s));
  }

  lemma LowerTwice(s: string)
    ensures Lower(Lower(s)) == Lower(s)
  {
    hide LowerChar, Lower;
    var n := Lower(s);
    forall i | 0 <= i < |n| ensures Lower(n)[i] == n[i] {
      LowerCharTwice(s[i]);
    }
  }

  lemma LowerCharTwice(c: char)
    ensures LowerChar(LowerChar(c)) == LowerChar(c)
  {
  }

  /** `str::len`: the number of bytes of the UTF-8 form. */
  function ByteLength(s: string): nat {
    if s == [] then 0
    else
      var c := s[0] as int;
      (if c < 0x80 then 1 else if c < 0x800 then 2 else if c < 0x10000 then 3 else 4) + ByteLength(s[1..])
  }

  lemma {:induction false} ByteLengthOfConcat(a: string, b: string)
    ensures ByteLength(a + b) == ByteLength(a) + ByteLength(b)
  {
    if a == [] {
      assert a + b == b;
    } else {
      assert (a + b)[1..] == a[1..] + b;
      ByteLengthOfConcat(a[1..], b);
    }
  }

  /** One byte for ASCII, two, three and four from U+0080, U+0800 and U+10000 on. */
  lemma ByteLengthOfOne(c: char)
    ensures c as int <= 0x7F ==> ByteLength([c]) == 1
    ensures 0x80 <= c as int <= 0x7FF ==> ByteLength([c]) == 2
    ensures 0x800 <= c as int <= 0xFFFF ==> ByteLength([c]) == 3
    ensures 0x10000 <= c as int ==> ByteLength([c]) == 4
  {
    assert [c][1..] == [];
  }

  // ---- prefixes and suffixes ----

  predicate StartsWith(s: string, prefix: string) {
    |s| >= |prefix| && s[..|prefix|] == prefix
  }

  predicate EndsWith(s: string, suffix: string) {
    |s| >= |suffix| && s[|s| - |suffix|..] == suffix
  }

  /** `trim_start_matches`: the pattern is dropped from the front as often as it stands there. */
  function TrimStartMatches(s: string, pattern: string): string
    requires pattern != []
  {
    if StartsWith(s, pattern) then TrimStartMatches(s[|pattern|..], pattern) else s
  }

  function TrimEndMatches(s: string, pattern: string): string
    requires pattern != []
  {
    if EndsWith(s, pattern) then TrimEndMatches(s[..|s| - |pattern|], pattern) else s
  }

  // ---- chunked input ----

  lemma Associate<T>(a: seq<T>, b: seq<T>, c: seq<T>)
    ensures (a + b) + c == a + (b + c)
  {
  }

  /** Everything a sequence of reads delivers. */
  function Concat<T>(chunks: seq<seq<T>>): seq<T> {
    if chunks == [] then [] else Concat(chunks[..|chunks| - 1]) + chunks[|chunks| - 1]
  }

  /** One more read. */
  lemma ConcatNext<T>(chunks: seq<seq<T>>, n: nat)
    requires n < |chunks|
    ensures Concat(chunks[..n + 1]) == Concat(chunks[..n]) + chunks[n]
  {
    assert chunks[..n + 1][..n] == chunks[..n];
  }

  lemma {:induction false} ConcatCut<T>(chunks: seq<seq<T>>, n: nat)
    requires n <= |chunks|
    ensures Concat(chunks) == Concat(chunks[..n]) + Concat(chunks[n..])
    decreases |chunks| - n
  {
    var last := |chunks| - 1;
    if n == |chunks| {
      assert chunks[..n] == chunks && Concat(chunks[n..]) == [];
    } else {
      ConcatCut(chunks[..last], n);
      assert chunks[..last][..n] == chunks[..n];
      assert chunks[..last][n..] == chunks[n..][..last - n];
      assert chunks[n..][last - n] == chunks[last];
    }
  }

  // ---- splitting and joining ----

  /** `str::split(c)` / `String.split(c)`: never empty. */
  function Split(s: string, c: char): (parts: seq<string>)
    ensures parts != []
  {
    if s == [] then [[]]
    else if s[0] == c then [[]] + Split(s[1..], c)
    else var rest := Split(s[1..], c); [[s[0]] + rest[0]] + rest[1..]
  }

  /** `join` with a separator. */
  function Join(parts: seq<string>, sep: string): string {
    if parts == [] then []
    else if |parts| == 1 then parts[0]
    else parts[0] + sep + Join(parts[1..], sep)
  }

  lemma {:induction false} JoinSplit(s: string, c: char)
    ensures Join(Split(s, c), [c]) == s
  {
    if s != [] {
      JoinSplit(s[1..], c);
      var rest := Split(s[1..], c);
      if s[0] == c {
        assert ([[]] + rest)[1..] == rest;
      } else if |rest| > 1 {
        assert ([[s[0]] + rest[0]] + rest[1..])[1..] == rest[1..];
      }
    }
  }

  /** A string without the separator is one piece; otherwise the first separator cuts it. */
  lemma {:induction false} SplitFirst(head: string, tail: string, c: char)
    requires c !in head
    ensures Split(head, c) == [head]
    ensures Split(head + [c] + tail, c) == [head] + Split(tail, c)
  {
    var whole := head + [c] + tail;
    if head == [] {
      assert whole[1..] == tail;
    } else {
      SplitFirst(head[1..], tail, c);
      assert whole[1..] == head[1..] + [c] + tail;
      assert [head[0]] + head[1..] == head;
    }
  }

  /** The pieces of a split hold no separator. */
  lemma {:induction false} SplitPiecesClean(s: string, c: char)
    ensures forall p | p in Split(s, c) :: c !in p
  {
    if s != [] {
      SplitPiecesClean(s[1..], c);
      var rest := Split(s[1..], c);
      assert forall p | p in rest :: c !in p;
      assert rest[0] in rest;
    }
  }

  lemma {:induction false} SplitJoin(parts: seq<string>, c: char)
    requires parts != []
    requires forall p | p in parts :: c !in p
    ensures Split(Join(parts, [c]), c) == parts
  {
    assert parts[0] in parts;
    if |parts| == 1 {
      SplitFirst(parts[0], [], c);
    } else {
      SplitJoin(parts[1..], c);
      SplitFirst(parts[0], Join(parts[1..], [c]), c);
    }
  }
}
