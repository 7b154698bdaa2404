/** The C text primitives the readers are built on: decimal numbers, sscanf of an
    unsigned number, strtok_r, fgets, strrchr and strstr. Strings hold no NUL. */
module Text {
  import opened Words
  import opened Types

  predicate IsDigit(c: char) {
    '0' <= c <= '9'
  }

  function Digit(d: nat): char
    requires d < 10
  {
    '0' + d as char
  }

  /** Decimal rendering, without leading zeros. */
  function Dec(n: nat): string {
    if n < 10 then [Digit(n)] else Dec(n / 10) + [Digit(n % 10)]
  }

  function DigitsValue(s: string): nat
    requires forall c | c in s :: IsDigit(c)
  {
    if s == [] then 0
    else
      assert IsDigit(s[|s| - 1]);
      10 * DigitsValue(s[..|s| - 1]) + (s[|s| - 1] as int - '0' as int)
  }

  /** Length of the longest leading run of digits. */
  function DigitRun(s: string): (n: nat)
    ensures n <= |s| && forall c | c in s[..n] :: IsDigit(c)
    ensures n < |s| ==> !IsDigit(s[n])
  {
    if s == [] || !IsDigit(s[0]) then 0
    else
      var n := 1 + DigitRun(s[1..]);
      assert s[..n] == [s[0]] + s[1..][..n - 1];
      n
  }

  predicate IsSpace(c: char) {
    c == ' ' || c == '\t' || c == '\n' || c == '\r' || c == '\U{000B}' || c == '\U{000C}'
  }

  function SkipSpaces(s: string): string {
    if s != [] && IsSpace(s[0]) then SkipSpaces(s[1..]) else s
  }

  /** strtoul and sscanf(.., "%llu"): white space, an optional sign and at least one
      digit, saturating at the largest value; None when there is no digit. */
  function ScanUnsigned(text: string): Option<u64> {
    var s := SkipSpaces(text);
    var body := if s != [] && (s[0] == '-' || s[0] == '+') then s[1..] else s;
    var n := DigitRun(body);
    if n == 0 then None
    else
      var v: int := DigitsValue(body[..n]);
      Some(if v >= TWO64 then TWO64 - 1 else if s[0] == '-' then Wrap64(-v) else v)
  }

  /** atoi and atol: 0 when there is no digit. Values beyond the type are not modelled. */
  function Atoi(text: string): int {
    var s := SkipSpaces(text);
    var body := if s != [] && (s[0] == '-' || s[0] == '+') then s[1..] else s;
    var v: int := DigitsValue(body[..DigitRun(body)]);
    if s != [] && s[0] == '-' then -v else v
  }

  /** An unsigned number stored in a pid_t: the low 32 bits, read as a signed int. */
  function AsPid(v: u64): int {
    var low := v % TWO32;
    if low < TWO32 / 2 then low else low - TWO32
  }

  /** The stored number is congruent to the scanned one, and the one itself if it is an int. */
  lemma PidStored(v: u64)
    ensures -(TWO32 / 2) <= AsPid(v) < TWO32 / 2 && (v - AsPid(v)) % TWO32 == 0
    ensures v < TWO32 / 2 ==> AsPid(v) == v
  {
  }

  /** strtoul into a pid_t; 0, which is no pid, when there is no number. */
  function ParsePid(text: string): int {
    match ScanUnsigned(text)
    case None => 0
    case Some(v) => AsPid(v)
  }

  lemma {:induction false} DecIsDigits(n: nat)
    ensures |Dec(n)| > 0
    ensures forall c | c in Dec(n) :: IsDigit(c)
    ensures DigitsValue(Dec(n)) == n
  {
    if n < 10 {
    } else {
      DecIsDigits(n / 10);
      assert Dec(n)[..|Dec(n)| - 1] == Dec(n / 10);
    }
  }

  function Pow10(k: nat): nat {
    if k == 0 then 1 else 10 * Pow10(k - 1)
  }

  lemma {:induction false} DecLength(n: nat, k: nat)
    requires k > 0 && n < Pow10(k)
    ensures |Dec(n)| <= k
  {
    if n < 10 {
    } else {
      DecLength(n / 10, k - 1);
    }
  }

  lemma DecLength64(v: u64)
    ensures |Dec(v)| <= 20
  {
    assert Pow10(10) == 10000000000;
    assert Pow10(20) == 100000000000000000000;
    DecLength(v, 20);
  }

  lemma {:induction false} SpacesSkipped(before: string, rest: string)
    requires forall c | c in before :: c in " \t\n\r\U{000B}\U{000C}"
    requires rest == [] || rest[0] !in " \t\n\r\U{000B}\U{000C}"
    ensures SkipSpaces(before + rest) == rest
  {
    if before == [] {
      assert before + rest == rest;
    } else {
      assert before[0] in before && (before + rest)[1..] == before[1..] + rest;
      SpacesSkipped(before[1..], rest);
    }
  }

  /** A rendered number is the longest run of digits, up to the first other character. */
  lemma RunOfDec(n: nat, after: string)
    requires after != [] ==> after[0] < '0' || '9' < after[0]
    ensures var s := Dec(n) + after;
            DigitRun(s) == |Dec(n)| && s[..DigitRun(s)] == Dec(n) && '0' <= s[0] <= '9'
  {
    hide Dec, DigitRun;
    DecIsDigits(n);
    var s := Dec(n) + after;
    var m := DigitRun(s);
    forall i | 0 <= i < m
      ensures IsDigit(s[i])
    {
      assert s[..m][i] in s[..m];
    }
    forall i | 0 <= i < |Dec(n)|
      ensures IsDigit(s[i])
    {
      assert s[i] in Dec(n);
    }
    assert s[..|Dec(n)|] == Dec(n);
  }

  /** Text that starts with a digit, behind white space and a sign. */
  lemma SignedText(before: string, s: string)
    requires forall c | c in before :: c in " \t\n\r\U{000B}\U{000C}"
    requires s != [] && '0' <= s[0] <= '9'
    ensures SkipSpaces(before + s) == s
    ensures SkipSpaces(before + "+" + s) == "+" + s && ("+" + s)[1..] == s
    ensures SkipSpaces(before + "-" + s) == "-" + s && ("-" + s)[1..] == s
  {
    hide SkipSpaces;
    SpacesSkipped(before, s);
    SpacesSkipped(before, "+" + s);
    SpacesSkipped(before, "-" + s);
    assert before + "+" + s == before + ("+" + s) && before + "-" + s == before + ("-" + s);
  }

  function Saturated(v: nat): u64 {
    if v < TWO64 then v else TWO64 - 1
  }

  /** What the scan makes of text whose spaces are followed by `s`. */
  lemma ScanIs(text: string, s: string)
    requires SkipSpaces(text) == s && s != []
    ensures s[0] != '-' && s[0] != '+' && DigitRun(s) > 0 ==>
              ScanUnsigned(text) == Some(Saturated(DigitsValue(s[..DigitRun(s)])))
    ensures s[0] == '+' && DigitRun(s[1..]) > 0 ==>
              ScanUnsigned(text) == Some(Saturated(DigitsValue(s[1..][..DigitRun(s[1..])])))
    ensures s[0] == '-' && DigitRun(s[1..]) > 0 ==>
              var v: int := DigitsValue(s[1..][..DigitRun(s[1..])]);
              ScanUnsigned(text) == Some(if v < TWO64 then Wrap64(-v) else TWO64 - 1)
  {
    hide DigitsValue, Wrap64, SkipSpaces, DigitRun;
  }

  lemma ScanSigned(before: string, s: string)
    requires forall c | c in before :: c in " \t\n\r\U{000B}\U{000C}"
    requires s != [] && '0' <= s[0] <= '9' && DigitRun(s) > 0
    ensures var v: int := DigitsValue(s[..DigitRun(s)]);
            && ScanUnsigned(before + s) == Some(Saturated(v))
            && ScanUnsigned(before + "+" + s) == Some(Saturated(v))
            && ScanUnsigned(before + "-" + s) == Some(if v < TWO64 then Wrap64(-v) else TWO64 - 1)
  {
    hide DigitsValue, Wrap64, SkipSpaces, ScanUnsigned, DigitRun, Saturated;
    SignedText(before, s);
    ScanIs(before + s, s);
    ScanIs(before + "+" + s, "+" + s);
    ScanIs(before + "-" + s, "-" + s);
  }

  /** What atoi makes of text that starts with no space. */
  lemma AtoiIs(s: string)
    requires SkipSpaces(s) == s && s != []
    ensures s[0] != '-' && s[0] != '+' ==> Atoi(s) == DigitsValue(s[..DigitRun(s)])
    ensures s[0] == '-' ==> Atoi(s) == 0 - DigitsValue(s[1..][..DigitRun(s[1..])]) as int
  {
    hide DigitsValue, SkipSpaces, DigitRun;
  }

  lemma AtoiSigned(s: string)
    requires s != [] && '0' <= s[0] <= '9'
    ensures var v: int := DigitsValue(s[..DigitRun(s)]); Atoi(s) == v && Atoi("-" + s) == -v
  {
    hide DigitsValue, SkipSpaces, DigitRun, Atoi;
    SignedText("", s);
    assert "" + s == s && "" + "-" + s == "-" + s;
    AtoiIs(s);
    AtoiIs("-" + s);
  }

  /** A number is scanned behind white space and a sign, up to the first character that
      is no digit. It saturates; a minus sign negates it modulo 2^64. */
  lemma ScanNumber(before: string, n: nat, after: string)
    requires forall c | c in before :: c in " \t\n\r\U{000B}\U{000C}"
    requires after != [] ==> after[0] < '0' || '9' < after[0]
    ensures ScanUnsigned(before + Dec(n) + after) == Some(if n < TWO64 then n else TWO64 - 1)
    ensures ScanUnsigned(before + "+" + Dec(n) + after) == Some(if n < TWO64 then n else TWO64 - 1)
    ensures ScanUnsigned(before + "-" + Dec(n) + after) == Some(if n < TWO64 then Wrap64(0 - n as int) else TWO64 - 1)
  {
    hide Dec, ScanUnsigned, DigitsValue, Wrap64, DigitRun;
    DecIsDigits(n);
    RunOfDec(n, after);
    var s := Dec(n) + after;
    ScanSigned(before, s);
    assert before + Dec(n) + after == before + s;
    assert before + "+" + Dec(n) + after == before + "+" + s;
    assert before + "-" + Dec(n) + after == before + "-" + s;
  }

  /** Without a digit there is no number, and atoi gives 0. */
  lemma NoNumber(before: string, s: string)
    requires forall c | c in before :: c in " \t\n\r\U{000B}\U{000C}"
    requires s != [] ==> s[0] !in " \t\n\r\U{000B}\U{000C}+-0123456789"
    ensures ScanUnsigned(before + s) == None && Atoi(before + s) == 0
  {
    hide SkipSpaces;
    SpacesSkipped(before, s);
    assert DigitRun(s) == 0 && s[..0] == [];
  }

  /** Scanning undoes rendering. */
  lemma ScanDec(v: u64)
    ensures ScanUnsigned(Dec(v)) == Some(v)
  {
    hide Dec, ScanUnsigned;
    ScanNumber("", v, "");
    assert "" + Dec(v) + "" == Dec(v);
  }

  /** Leading zeros do not change a value. */
  lemma {:induction false} LeadingZero(s: string)
    requires forall c | c in s :: IsDigit(c)
    ensures DigitsValue("0" + s) == DigitsValue(s)
  {
    if s == [] {
      assert "0" + s == "0" && "0"[..0] == [];
      assert DigitsValue("0"[..0]) == 0;
    } else {
      assert ("0" + s)[..|s|] == "0" + s[..|s| - 1];
      LeadingZero(s[..|s| - 1]);
    }
  }

  lemma RunAfterZero(s: string)
    ensures DigitRun("0" + s) == 1 + DigitRun(s)
  {
    assert ("0" + s)[1..] == s;
  }

  /** atoi of a rendered int, with or without a leading zero or a minus sign, up to the
      first other character. */
  lemma AtoiDec(n: nat, after: string)
    requires n < TWO32 / 2
    requires after != [] ==> after[0] < '0' || '9' < after[0]
    ensures Atoi(Dec(n) + after) == n
    ensures Atoi("0" + Dec(n) + after) == n
    ensures Atoi("-" + Dec(n) + after) == 0 - n as int
  {
    hide Dec, DigitsValue, DigitRun, Atoi;
    DecIsDigits(n);
    RunOfDec(n, after);
    var s := Dec(n) + after;
    AtoiSigned(s);
    AtoiSigned("0" + s);
    RunAfterZero(s);
    LeadingZero(Dec(n));
    assert ("0" + s)[..|Dec(n)| + 1] == "0" + Dec(n);
    assert "0" + Dec(n) + after == "0" + s && "-" + Dec(n) + after == "-" + s;
  }

  /** strrchr: index of the last occurrence, or -1. */
  function LastIndex(s: string, c: char): (i: int)
    ensures -1 <= i < |s|
    ensures i >= 0 ==> s[i] == c
    ensures forall k | i < k < |s| :: s[k] != c
  {
    if s == [] then -1
    else if s[|s| - 1] == c then |s| - 1
    else LastIndex(s[..|s| - 1], c)
  }

  /** strstr(s, word) != NULL */
  predicate Contains(s: string, word: string) {
    word <= s || (s != [] && Contains(s[1..], word))
  }

  /** That is, exactly if the word starts at some index. */
  lemma {:induction false} ContainsIs(s: string, word: string)
    ensures Contains(s, word) <==> exists k :: 0 <= k <= |s| && word <= s[k..]
  {
    if s == [] {
      assert s[0..] == s;
    } else {
      ContainsIs(s[1..], word);
      assert s[0..] == s;
      if Contains(s[1..], word) {
        var k :| 0 <= k <= |s[1..]| && word <= s[1..][k..];
        assert s[k + 1..] == s[1..][k..];
      }
      if exists k :: 0 <= k <= |s| && word <= s[k..] {
        var k :| 0 <= k <= |s| && word <= s[k..];
        assert k > 0 ==> s[k..] == s[1..][k - 1..];
      }
    }
  }

  /** strstr: the rest of `s` from the first occurrence of `word` on, or "". */
  function Strstr(s: string, word: string): (r: string)
    ensures Contains(s, word) ==> word <= r
  {
    if word <= s || s == [] then s else Strstr(s[1..], word)
  }

  /** strstr finds the first occurrence. */
  lemma {:induction false} StrstrAt(s: string, word: string, k: nat)
    requires k <= |s| && word <= s[k..] && forall j | 0 <= j < k :: !(word <= s[j..])
    ensures Contains(s, word) && Strstr(s, word) == s[k..]
  {
    assert s[0..] == s;
    if k == 0 {
    } else {
      assert forall j | 0 <= j < k - 1 :: s[1..][j..] == s[j + 1..];
      assert s[1..][k - 1..] == s[k..];
      StrstrAt(s[1..], word, k - 1);
    }
  }

  lemma {:induction false} ContainsAt(s: string, word: string, k: nat)
    requires k <= |s| && word <= s[k..]
    ensures Contains(s, word)
  {
    if k > 0 {
      assert s[1..][k - 1..] == s[k..];
      ContainsAt(s[1..], word, k - 1);
    } else {
      assert s[0..] == s;
    }
  }

  lemma {:induction false} ContainsMore(s: string, more: string, word: string)
    requires Contains(s, word)
    ensures Contains(s + more, word)
  {
    if word <= s {
      assert word <= s + more;
    } else {
      assert (s + more)[1..] == s[1..] + more;
      ContainsMore(s[1..], more, word);
    }
  }

  /** A word whose last character occurs only once in it cannot start inside of text
      that does not contain it, even if the word itself follows. */
  lemma NoOverlap(start: string, word: string, after: string, k: nat)
    requires !Contains(start, word) && k < |start|
    requires word != [] && forall j | 0 <= j < |word| - 1 :: word[j] != word[|word| - 1]
    ensures !(word <= (start + word + after)[k..])
  {
    hide Contains;
    var s, last := start + word + after, |word| - 1;
    if k + last < |start| {
      assert s[k..][..|word|] == start[k..][..|word|];
      if word <= start[k..] {
        ContainsAt(start, word, k);
        assert false;
      }
    } else {
      assert s[k..][last] == word[k + last - |start|];
    }
  }

  predicate IsDelim(c: char) {
    c == ' ' || c == '\t' || c == '\r' || c == '\n'
  }

  function SkipDelims(s: string): (r: string)
    ensures |r| <= |s|
    ensures r == [] || !IsDelim(r[0])
  {
    if s != [] && IsDelim(s[0]) then SkipDelims(s[1..]) else s
  }

  /** Length of the leading run of non-delimiters. */
  function TokenRun(s: string): (n: nat)
    ensures n <= |s|
    ensures s != [] && !IsDelim(s[0]) ==> n > 0
  {
    if s == [] || IsDelim(s[0]) then 0 else 1 + TokenRun(s[1..])
  }

  /** strtok_r: the next token, if any, and where the scan goes on; the
      delimiter that ended the token is overwritten, hence skipped. */
  function Strtok(s: string): (r: Option<(string, string)>)
    ensures r.Some? ==> |r.value.1| < |s|
  {
    var t := SkipDelims(s);
    if t == [] then None
    else
      var n := TokenRun(t);
      Some((t[..n], if n < |t| then t[n + 1..] else []))
  }

  function Tokens(s: string): seq<string>
    decreases |s|
  {
    match Strtok(s)
    case None => []
    case Some(p) => [p.0] + Tokens(p.1)
  }

  lemma {:induction false} TokenRunPrefix(a: string, c: char, b: string)
    requires forall x | x in a :: !IsDelim(x)
    requires IsDelim(c)
    ensures TokenRun(a + [c] + b) == |a|
  {
    if a == [] {
    } else {
      assert (a + [c] + b)[1..] == a[1..] + [c] + b;
      TokenRunPrefix(a[1..], c, b);
    }
  }

  lemma TokensCons(a: string, c: char, b: string)
    requires a != [] && forall x | x in a :: x !in " \t\r\n"
    requires c in " \t\r\n"
    ensures Tokens(a + [c] + b) == [a] + Tokens(b)
  {
    var s := a + [c] + b;
    assert !IsDelim(s[0]) by { assert a[0] in a; }
    TokenRunPrefix(a, c, b);
    assert s[..|a|] == a && s[|a| + 1..] == b;
  }

  lemma {:induction false} WholeRun(s: string)
    requires forall x | x in s :: x !in " \t\r\n"
    ensures TokenRun(s) == |s|
  {
    if s == [] {
    } else {
      assert s[0] in s;
      WholeRun(s[1..]);
    }
  }

  /** Further separators make no difference. */
  lemma SeparatorSkipped(c: char, s: string)
    requires c in " \t\r\n"
    ensures Tokens([c] + s) == Tokens(s)
  {
    hide TokenRun;
    assert ([c] + s)[1..] == s;
    assert SkipDelims([c] + s) == SkipDelims(s);
    assert Strtok([c] + s) == Strtok(s);
  }

  /** A last token needs none. */
  lemma LastToken(s: string)
    requires s != [] && forall x | x in s :: x !in " \t\r\n"
    ensures Tokens(s) == [s]
  {
    hide TokenRun;
    WholeRun(s);
    assert s[0] in s;
    assert SkipDelims(s) == s && s[..|s|] == s;
    assert Strtok(s) == Some((s, [])) && Strtok([]) == None;
  }

  /** fgets(buf, limit + 1): up to and including a newline, at most `limit` characters. */
  function LineLen(text: string, limit: nat): (n: nat)
    ensures n <= |text| && n <= limit
    ensures text != [] && limit > 0 ==> n > 0
  {
    if text == [] || limit == 0 then 0
    else if text[0] == '\n' then 1
    else 1 + LineLen(text[1..], limit - 1)
  }

  lemma {:induction false} LineLenLine(line: string, rest: string, limit: nat)
    requires |line| < limit && '\n' !in line
    ensures LineLen(line + "\n" + rest, limit) == |line| + 1
  {
    if line == [] {
    } else {
      assert (line + "\n" + rest)[1..] == line[1..] + "\n" + rest;
      LineLenLine(line[1..], rest, limit - 1);
    }
  }

  /** A line ends behind its first newline, or at the limit, or at the end of the file,
      whichever comes first. */
  lemma {:induction false} LineLenIs(text: string, limit: nat)
    ensures var n := LineLen(text, limit);
            && (forall k | 0 <= k < n - 1 :: text[k] != '\n')
            && (n == limit || n == |text| || (n > 0 && text[n - 1] == '\n'))
  {
    if text == [] || limit == 0 || text[0] == '\n' {
    } else {
      LineLenIs(text[1..], limit - 1);
      var n := LineLen(text, limit);
      forall k | 0 <= k < n - 1
        ensures text[k] != '\n'
      {
        if k > 0 {
          assert text[k] == text[1..][k - 1];
        }
      }
    }
  }
}
