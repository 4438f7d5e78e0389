/** The text operations of Rust's standard library that the unit relies on:
    trimming, splitting, line iteration and decimal integers. */
module Text {
  import opened Wrappers

  // --- searching ---

  predicate StartsWith(s: string, prefix: string) { prefix <= s }

  predicate EndsWith(s: string, suffix: string) {
    |suffix| <= |s| && s[|s| - |suffix|..] == suffix
  }

  predicate Contains(s: string, sub: string) {
    exists i | 0 <= i <= |s| - |sub| :: s[i..][..|sub|] == sub
  }

  /** Position of the first `c`, or the length of `s` when there is none. */
  function IndexOf(s: string, c: char): (i: nat)
    ensures i <= |s| && forall k | 0 <= k < i :: s[k] != c
    ensures i < |s| ==> s[i] == c
  {
    if s == "" || s[0] == c then 0 else
      var rest := s[1..];
      assert forall k | 0 < k < |s| :: s[k] == rest[k - 1];
      1 + IndexOf(rest, c)
  }

  // --- trimming ---

  /** Characters with the Unicode White_Space property. */
  predicate IsSpace(c: char) {
    '\t' <= c <= '\r' || c == ' ' || c == '\U{85}' || c == '\U{A0}' || c == '\U{1680}'
    || '\U{2000}' <= c <= '\U{200A}' || c == '\U{2028}' || c == '\U{2029}' || c == '\U{202F}'
    || c == '\U{205F}' || c == '\U{3000}'
  }

  predicate IsQuote(c: char) { c == '"' }

  function TrimStart(p: char -> bool, s: string): (r: string)
    ensures |r| <= |s| && (r != "" ==> !p(r[0]))
  {
    if s != "" && p(s[0]) then TrimStart(p, s[1..]) else s
  }

  function TrimEnd(p: char -> bool, s: string): (r: string)
    ensures r <= s && (r != "" ==> !p(r[|r| - 1]))
  {
    if s != "" && p(s[|s| - 1]) then TrimEnd(p, s[..|s| - 1]) else s
  }

  function TrimBy(p: char -> bool, s: string): string { TrimEnd(p, TrimStart(p, s)) }

  function Trim(s: string): string { TrimBy(IsSpace, s) }

  /** A text is its own trimming exactly when neither end is to be removed. */
  lemma TrimFixed(p: char -> bool, s: string)
    ensures TrimBy(p, s) == s <==> s == "" || (!p(s[0]) && !p(s[|s| - 1]))
  {
  }

  /** Trimming leaves nothing exactly when everything is to be removed. */
  lemma {:induction false} TrimEmpty(p: char -> bool, s: string)
    ensures TrimBy(p, s) == "" <==> forall c | c in s :: p(c)
  {
    if s != "" && p(s[0]) {
      TrimEmpty(p, s[1..]);
      assert s == [s[0]] + s[1..];
    } else if s != "" {
      KeepsFirst(p, s);
    }
  }

  lemma {:induction false} TrimStartKeeps(p: char -> bool, s: string, c: char)
    requires c in s && !p(c)
    ensures c in TrimStart(p, s)
  {
    if p(s[0]) {
      assert s == [s[0]] + s[1..];
      TrimStartKeeps(p, s[1..], c);
    }
  }

  lemma {:induction false} TrimEndKeeps(p: char -> bool, s: string, c: char)
    requires c in s && !p(c)
    ensures c in TrimEnd(p, s)
  {
    if p(s[|s| - 1]) {
      assert s == s[..|s| - 1] + [s[|s| - 1]];
      TrimEndKeeps(p, s[..|s| - 1], c);
    }
  }

  /** Trimming removes no character that is not to be removed. */
  lemma TrimKeeps(p: char -> bool, s: string, c: char)
    requires c in s && !p(c)
    ensures c in TrimBy(p, s)
  {
    TrimStartKeeps(p, s, c);
    TrimEndKeeps(p, TrimStart(p, s), c);
  }

  lemma {:induction false} KeepsFirst(p: char -> bool, s: string)
    requires s != "" && !p(s[0])
    ensures TrimEnd(p, s) != ""
  {
    if p(s[|s| - 1]) {
      KeepsFirst(p, s[..|s| - 1]);
    }
  }

  lemma {:induction false} TrimStartBefore(p: char -> bool, s: string, c: char)
    requires p(c)
    ensures TrimStart(p, s + [c]) == if TrimStart(p, s) == "" then "" else TrimStart(p, s) + [c]
  {
    if s != "" && p(s[0]) {
      TrimStartBefore(p, s[1..], c);
      assert (s + [c])[1..] == s[1..] + [c];
    } else if s == "" {
      assert (s + [c])[1..] == "";
    }
  }

  /** A removable character appended to a text makes no difference to its trimming. */
  lemma TrimIgnoresTail(p: char -> bool, s: string, c: char)
    requires p(c)
    ensures TrimBy(p, s + [c]) == TrimBy(p, s)
  {
    TrimStartBefore(p, s, c);
    var t := TrimStart(p, s);
    assert (t + [c])[..|t|] == t;
  }

  /** The ASCII characters that are trimmed. */
  lemma AsciiSpace(c: char)
    requires c < '\U{80}'
    ensures IsSpace(c) <==> c == ' ' || c == '\t' || c == '\n' || c == '\U{B}' || c == '\U{C}' || c == '\r'
  {
  }

  lemma TrimNewline(s: string)
    ensures Trim(s + "\n") == Trim(s)
  {
    TrimIgnoresTail(IsSpace, s, '\n');
    assert s + "\n" == s + ['\n'];
  }

  // --- splitting and joining ---

  function Split(s: string, c: char): (parts: seq<string>)
    ensures |parts| >= 1
    ensures forall i | 0 <= i < |parts| :: c !in parts[i]
  {
    if s == "" then [""]
    else if s[0] == c then [""] + Split(s[1..], c)
    else
      var rest := Split(s[1..], c);
      [[s[0]] + rest[0]] + rest[1..]
  }

  function Join(parts: seq<string>, c: char): string
    requires |parts| >= 1
  {
    if |parts| == 1 then parts[0] else parts[0] + [c] + Join(parts[1..], c)
  }

  lemma {:induction false} JoinSnoc(parts: seq<string>, last: string, c: char)
    requires |parts| >= 1
    ensures Join(parts + [last], c) == Join(parts, c) + [c] + last
  {
    if |parts| == 1 {
      assert (parts + [last])[1..] == [last];
    } else {
      JoinSnoc(parts[1..], last, c);
      assert (parts + [last])[1..] == parts[1..] + [last];
    }
  }

  lemma {:induction false} SplitHead(a: string, c: char, rest: string)
    requires c !in a
    ensures Split(a + [c] + rest, c) == [a] + Split(rest, c)
  {
    if a == "" {
      assert a + [c] + rest == [c] + rest;
    } else {
      SplitHead(a[1..], c, rest);
      assert (a + [c] + rest)[1..] == a[1..] + [c] + rest;
      assert [a[0]] + a[1..] == a;
    }
  }

  lemma {:induction false} SplitWhole(a: string, c: char)
    requires c !in a
    ensures Split(a, c) == [a]
  {
    if a != "" {
      SplitWhole(a[1..], c);
      assert [a[0]] + a[1..] == a;
    }
  }

  /** Splitting undoes joining for parts free of the separator. */
  lemma {:induction false} SplitJoin(parts: seq<string>, c: char)
    requires |parts| >= 1
    requires forall i | 0 <= i < |parts| :: c !in parts[i]
    ensures Split(Join(parts, c), c) == parts
  {
    if |parts| == 1 {
      SplitWhole(parts[0], c);
    } else {
      SplitHead(parts[0], c, Join(parts[1..], c));
      SplitJoin(parts[1..], c);
    }
  }

  /** Joining undoes splitting, for every text. */
  lemma {:induction false} JoinSplit(s: string, c: char)
    ensures Join(Split(s, c), c) == s
  {
    if s != "" {
      JoinSplit(s[1..], c);
      var rest := Split(s[1..], c);
      if s[0] == c {
        assert Split(s, c)[1..] == rest;
      } else {
        assert Split(s, c)[1..] == rest[1..];
        assert s == [s[0]] + s[1..];
      }
    }
  }

  // --- lines ---

  function StripReturn(line: string): string {
    if line != "" && line[|line| - 1] == '\r' then line[..|line| - 1] else line
  }

  /** The lines of a text: each ends at a line feed, with one carriage return before it
      removed; what follows the last line feed is a line of its own unless it is empty. */
  function Lines(s: string): seq<string>
    decreases |s|
  {
    if s == "" then []
    else
      var i := IndexOf(s, '\n');
      if i == |s| then [s] else [StripReturn(s[..i])] + Lines(s[i + 1..])
  }

  lemma LinesHead(line: string, rest: string)
    requires '\n' !in line
    ensures Lines(line + "\r\n" + rest) == [line] + Lines(rest)
  {
    var s := line + "\r\n" + rest;
    var i := IndexOf(s, '\n');
    assert s[|line| + 1] == '\n' && forall k | 0 <= k < |line| + 1 :: s[k] != '\n';
    assert s[..i] == line + "\r";
    assert s[i + 1..] == rest;
  }

  /** A line that ends at a bare line feed is kept as it is. */
  lemma LinesHeadBare(line: string, rest: string)
    requires '\n' !in line && (line == "" || line[|line| - 1] != '\r')
    ensures Lines(line + "\n" + rest) == [line] + Lines(rest)
  {
    var s := line + "\n" + rest;
    var i := IndexOf(s, '\n');
    assert s[|line|] == '\n' && forall k | 0 <= k < |line| :: s[k] != '\n';
    assert s[..i] == line;
    assert s[i + 1..] == rest;
  }

  // --- decimal integers ---

  predicate IsDigit(c: char) { '0' <= c <= '9' }

  function DigitChar(d: nat): (c: char)
    requires d < 10
    ensures IsDigit(c) && c as int - '0' as int == d
  {
    ('0' as int + d) as char
  }

  predicate AllDigits(s: string) { forall i | 0 <= i < |s| :: IsDigit(s[i]) }

  function Digits(n: nat): (s: string)
    ensures |s| >= 1 && AllDigits(s)
  {
    if n < 10 then [DigitChar(n)] else Digits(n / 10) + [DigitChar(n % 10)]
  }

  function Value(s: string): nat
    requires AllDigits(s)
  {
    if s == "" then 0
    else Value(s[..|s| - 1]) * 10 + (s[|s| - 1] as int - '0' as int)
  }

  /** How an integer is printed. */
  function Show(n: int): (s: string)
    ensures |s| >= 1
    ensures forall i | 0 <= i < |s| :: IsDigit(s[i]) || s[i] == '-'
  {
    if n < 0 then "-" + Digits(-n) else Digits(n)
  }

  function ParseMagnitude(s: string): Option<int> {
    if s != "" && AllDigits(s) then Some(Value(s)) else None
  }

  /** Parses a decimal integer of a type with range `lo..=hi`: an optional sign (a minus only
      for a signed type), at least one digit, nothing else, and a value in range. */
  function ParseInt(s: string, lo: int, hi: int): Option<int> {
    var negative := s != "" && s[0] == '-' && lo < 0;
    var signed := negative || (s != "" && s[0] == '+');
    match ParseMagnitude(if signed then s[1..] else s)
    case None => None
    case Some(v) =>
      var n := if negative then -v else v;
      if lo <= n <= hi then Some(n) else None
  }

  const I32_MIN := -0x8000_0000
  const I32_MAX := 0x7FFF_FFFF

  predicate IsI32(n: int) { I32_MIN <= n <= I32_MAX }

  function ParseI32(s: string): (r: Option<int>)
    ensures r.Some? ==> IsI32(r.value)
  {
    ParseInt(s, I32_MIN, I32_MAX)
  }

  lemma {:induction false} ValueOfDigits(n: nat)
    ensures Value(Digits(n)) == n
  {
    if n >= 10 {
      ValueOfDigits(n / 10);
      var s := Digits(n);
      assert s[..|s| - 1] == Digits(n / 10);
    } else {
      assert Digits(n)[..0] == "";
    }
  }

  /** Printing an integer and parsing it for a type whose range holds it gives the integer back. */
  lemma ParseShown(n: int, lo: int, hi: int)
    requires lo <= n <= hi
    ensures ParseInt(Show(n), lo, hi) == Some(n)
  {
    if n < 0 {
      ValueOfDigits(-n);
      assert Show(n)[1..] == Digits(-n);
    } else {
      ValueOfDigits(n);
      assert Show(n) == Digits(n);
    }
  }

  /** A number that the type does not hold is refused, the minus sign of an unsigned type included. */
  lemma OutOfRange(n: int, lo: int, hi: int)
    requires lo <= 0 <= hi && !(lo <= n <= hi)
    ensures ParseInt(Show(n), lo, hi) == None
  {
    if n < 0 {
      ValueOfDigits(-n);
      assert Show(n)[1..] == Digits(-n);
      assert !AllDigits(Show(n)) by { assert Show(n)[0] == '-'; }
    } else {
      ValueOfDigits(n);
      assert Show(n) == Digits(n);
    }
  }

  /** A plus sign is allowed. */
  lemma PlusIsRead(n: nat, lo: int, hi: int)
    requires lo <= n <= hi
    ensures ParseInt("+" + Show(n), lo, hi) == Some(n)
  {
    ValueOfDigits(n);
    assert ("+" + Show(n))[1..] == Digits(n);
  }

  /** What is read is digits after at most one sign. */
  lemma ReadIsDigits(s: string, lo: int, hi: int)
    requires ParseInt(s, lo, hi).Some?
    ensures lo <= ParseInt(s, lo, hi).value <= hi
    ensures s != "" && forall i | 0 <= i < |s| :: '0' <= s[i] <= '9' || (i == 0 && |s| > 1 && (s[0] == '+' || (s[0] == '-' && lo < 0)))
  {
    if s != "" && !('0' <= s[0] <= '9') {
      assert forall i | 0 < i < |s| :: s[1..][i - 1] == s[i];
    }
  }

  /** The digits are decimal: the value of a text is ten times that of all but its last digit, plus
      that digit, and twelve hundred and thirty-four is printed so. */
  lemma DecimalExample()
    ensures Show(1234) == "1234" && Show(-90) == "-90" && Show(0) == "0"
  {
    assert Digits(1) == "1" && Digits(9) == "9";
    assert Digits(12) == "12" && Digits(90) == "90";
    assert Digits(123) == "123";
    assert Digits(1234) == "1234";
  }

  lemma ParseShow(n: int)
    requires IsI32(n)
    ensures ParseI32(Show(n)) == Some(n)
  {
    ParseShown(n, I32_MIN, I32_MAX);
  }

  /** Division by ten, truncating toward zero as Rust's `/` does. */
  function Tenth(a: int): (q: int)
    ensures (if a < 0 then -a else a) - 10 < 10 * (if q < 0 then -q else q) <= (if a < 0 then -a else a)
    ensures q != 0 ==> (q < 0 <==> a < 0)
  {
    if a < 0 then -((-a) / 10) else a / 10
  }
}
