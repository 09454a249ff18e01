/** Byte strings and the library routines the HTTP code is built on: searching, trimming,
    ASCII case folding, decimal printing and `strtol`.  A byte is a `char`; only the
    C-locale classes of the ASCII range are ever consulted. */
module Text {

  datatype Option<+T> = None | Some(value: T)

  const CRLF: string := "\r\n"

  /** The largest and smallest values of the 64-bit `long` that `strtol` returns. */
  const LONG_MAX: int := 0x7fff_ffff_ffff_ffff
  const LONG_MIN: int := -0x8000_0000_0000_0000

  // ---------------------------------------------------------------------------------
  // Line ends
  // ---------------------------------------------------------------------------------

  predicate CrlfAt(s: string, k: nat) {
    k + 1 < |s| && s[k] == '\r' && s[k + 1] == '\n'
  }

  /** `s` holds no complete line end. A lone CR or LF is allowed. */
  ghost predicate NoCrlf(s: string) {
    forall k: nat :: !CrlfAt(s, k)
  }

  function FindCrlfFrom(s: string, i: nat): (r: Option<nat>)
    ensures r.Some? ==> i <= r.value && CrlfAt(s, r.value) && forall k: nat :: i <= k < r.value ==> !CrlfAt(s, k)
    ensures r.None? ==> forall k: nat :: i <= k ==> !CrlfAt(s, k)
    decreases |s| - i
  {
    if i + 1 >= |s| then None
    else if CrlfAt(s, i) then Some(i)
    else FindCrlfFrom(s, i + 1)
  }

  /** The position of the first line end, as `find("\r\n")` reports it. */
  function FindCrlf(s: string): (r: Option<nat>)
    ensures r.Some? ==> CrlfAt(s, r.value) && forall k: nat :: k < r.value ==> !CrlfAt(s, k)
    ensures r.None? <==> NoCrlf(s)
  {
    FindCrlfFrom(s, 0)
  }

  /** Bytes that arrive later never move a line end that has been found. */
  lemma FindCrlfStable(s: string, more: string)
    requires FindCrlf(s).Some?
    ensures FindCrlf(s + more) == FindCrlf(s)
  {
    var i := FindCrlf(s).value;
    assert CrlfAt(s + more, i);
    forall k: nat | k < i
      ensures !CrlfAt(s + more, k)
    {
      assert !CrlfAt(s, k);
    }
  }

  /** A line without a line end inside is found again when it is terminated. */
  lemma FindCrlfAfterLine(line: string, rest: string)
    requires NoCrlf(line)
    ensures FindCrlf(line + CRLF + rest) == Some(|line|)
  {
    var s := line + CRLF + rest;
    assert CrlfAt(s, |line|);
    forall k: nat | k < |line|
      ensures !CrlfAt(s, k)
    {
      assert !CrlfAt(line, k);
    }
  }

  lemma NoCrlfSlice(s: string, i: nat, j: nat)
    requires NoCrlf(s) && i <= j <= |s|
    ensures NoCrlf(s[i..j])
  {
    forall k: nat
      ensures !CrlfAt(s[i..j], k)
    {
      assert !CrlfAt(s, i + k);
    }
  }

  /** Joining with a separator that starts with neither CR nor LF and ends with neither
      cannot create a line end at the seam. */
  lemma NoCrlfJoin(a: string, sep: string, b: string)
    requires NoCrlf(a) && NoCrlf(sep) && NoCrlf(b)
    requires |sep| > 0 && sep[0] != '\n' && sep[|sep| - 1] != '\r'
    ensures NoCrlf(a + sep + b)
  {
    var s := a + sep + b;
    forall k: nat
      ensures !CrlfAt(s, k)
    {
      assert !CrlfAt(a, k);
      if k >= |a| { assert !CrlfAt(sep, k - |a|); }
      if k >= |a| + |sep| { assert !CrlfAt(b, k - |a| - |sep|); }
    }
  }

  // ---------------------------------------------------------------------------------
  // Single characters
  // ---------------------------------------------------------------------------------

  /** The position of the first `c` at or after `i`, as `find(c, i)` reports it. */
  function FindChar(s: string, c: char, i: nat): (r: Option<nat>)
    ensures r.Some? ==> i <= r.value < |s| && s[r.value] == c && forall k :: i <= k < r.value ==> s[k] != c
    ensures r.None? ==> forall k :: i <= k < |s| ==> s[k] != c
    decreases |s| - i
  {
    if i >= |s| then None
    else if s[i] == c then Some(i)
    else FindChar(s, c, i + 1)
  }

  lemma FindCharAt(a: string, c: char, b: string, i: nat)
    requires i <= |a| && forall k :: i <= k < |a| ==> a[k] != c
    ensures FindChar(a + [c] + b, c, i) == Some(|a|)
  {
    assert (a + [c] + b)[|a|] == c;
  }

  /** `isspace` in the C locale. */
  predicate IsSpace(c: char) {
    c == ' ' || c == '\t' || c == '\n' || c == 11 as char || c == 12 as char || c == '\r'
  }

  /** `tolower` in the C locale. */
  function ToLower(c: char): char {
    if 'A' <= c <= 'Z' then c + 32 as char else c
  }

  function Lower(s: string): (r: string)
    ensures |r| == |s|
  {
    seq(|s|, i requires 0 <= i < |s| => ToLower(s[i]))
  }

  predicate MatchAt(s: string, sub: string, i: nat) {
    i + |sub| <= |s| && s[i..i + |sub|] == sub
  }

  predicate Contains(s: string, sub: string) {
    exists i :: 0 <= i <= |s| && MatchAt(s, sub, i)
  }

  lemma NoCloseInKeepAlive()
    ensures !Contains("keep-alive", "close")
  {
    forall i | 0 <= i <= |"keep-alive"|
      ensures !MatchAt("keep-alive", "close", i)
    {
      if i + 5 <= 10 {
        assert "keep-alive"[i..i + 5][0] == "keep-alive"[i] != 'c';
      }
    }
  }

  /** The part of a string that a C function sees: everything before the first NUL. */
  function CString(s: string): string {
    match FindChar(s, 0 as char, 0)
    case Some(i) => s[..i]
    case None => s
  }

  // ---------------------------------------------------------------------------------
  // Trimming
  // ---------------------------------------------------------------------------------

  ghost predicate AllSpace(s: string) {
    forall c :: c in s ==> IsSpace(c)
  }

  /** Neither end is white space. */
  predicate IsTrimmed(s: string) {
    s == "" || (!IsSpace(s[0]) && !IsSpace(s[|s| - 1]))
  }

  function TrimStart(s: string): string {
    if s != "" && IsSpace(s[0]) then TrimStart(s[1..]) else s
  }

  function TrimEnd(s: string): string {
    if s != "" && IsSpace(s[|s| - 1]) then TrimEnd(s[..|s| - 1]) else s
  }

  /** `s` without the white space at its two ends. */
  function Trimmed(s: string): string {
    TrimEnd(TrimStart(s))
  }

  lemma {:induction false} TrimStartSkips(a: string, t: string)
    requires AllSpace(a)
    ensures TrimStart(a + t) == TrimStart(t)
  {
    if a == "" {
      assert a + t == t;
    } else {
      assert a[0] in a && (a + t)[1..] == a[1..] + t;
      TrimStartSkips(a[1..], t);
    }
  }

  lemma {:induction false} TrimEndSkips(t: string, b: string)
    requires AllSpace(b)
    ensures TrimEnd(t + b) == TrimEnd(t)
  {
    if b == "" {
      assert t + b == t;
    } else {
      assert b[|b| - 1] in b && (t + b)[..|t + b| - 1] == t + b[..|b| - 1];
      TrimEndSkips(t, b[..|b| - 1]);
    }
  }

  lemma {:induction false} TrimEndResult(s: string) returns (k: nat)
    ensures k <= |s| && TrimEnd(s) == s[..k] && AllSpace(s[k..])
    ensures k > 0 ==> !IsSpace(s[k - 1])
  {
    if s != "" && IsSpace(s[|s| - 1]) {
      k := TrimEndResult(s[..|s| - 1]);
      assert s[k..] == s[..|s| - 1][k..] + [s[|s| - 1]];
    } else {
      k := |s|;
    }
  }

  lemma {:induction false} TrimStartResult(s: string) returns (k: nat)
    ensures k <= |s| && TrimStart(s) == s[k..] && AllSpace(s[..k])
    ensures k < |s| ==> !IsSpace(s[k])
  {
    if s != "" && IsSpace(s[0]) {
      var j := TrimStartResult(s[1..]);
      k := j + 1;
      assert s[..k] == [s[0]] + s[1..][..j];
    } else {
      k := 0;
    }
  }

  /** Existence: the trimmed string is the slice between two runs of white space. */
  lemma TrimmedIsSlice(s: string) returns (i: nat, j: nat)
    ensures i <= j <= |s| && Trimmed(s) == s[i..j] && IsTrimmed(s[i..j])
    ensures AllSpace(s[..i]) && AllSpace(s[j..])
  {
    i := TrimStartResult(s);
    var k := TrimEndResult(s[i..]);
    j := i + k;
    assert s[i..][..k] == s[i..j];
    assert s[i..][k..] == s[j..];
  }

  /** Uniqueness: any slice with trimmed ends between two runs of white space is the result. */
  lemma TrimmedUnique(a: string, t: string, b: string)
    requires AllSpace(a) && AllSpace(b) && IsTrimmed(t)
    ensures Trimmed(a + t + b) == t
  {
    assert a + t + b == a + (t + b);
    TrimStartSkips(a, t + b);
    if t == "" {
      assert t + b == b + "";
      TrimStartSkips(b, "");
    } else {
      assert TrimStart(t + b) == t + b;
      TrimEndSkips(t, b);
    }
  }

  /** `trim`: two cursors close in on the trimmed slice. */
  method Trim(s: string) returns (t: string)
    ensures t == Trimmed(s)
  {
    var start, end := 0, |s|;
    while start < end && IsSpace(s[start])
      invariant start <= end && AllSpace(s[..start])
    {
      assert s[..start + 1] == s[..start] + [s[start]];
      start := start + 1;
    }
    while end > start && IsSpace(s[end - 1])
      invariant start <= end <= |s| && AllSpace(s[end..])
      invariant start < end ==> !IsSpace(s[start])
      decreases end
    {
      assert s[end - 1..] == [s[end - 1]] + s[end..];
      end := end - 1;
    }
    t := s[start..end];
    assert s == s[..start] + t + s[end..];
    TrimmedUnique(s[..start], t, s[end..]);
  }

  // ---------------------------------------------------------------------------------
  // Numbers
  // ---------------------------------------------------------------------------------

  predicate IsDigit(c: char) {
    '0' <= c <= '9'
  }

  ghost predicate AllDigits(s: string) {
    forall c :: c in s ==> IsDigit(c)
  }

  /** `std::to_string` of a non-negative number. */
  function Decimal(n: nat): string {
    if n < 10 then [('0' as int + n) as char]
    else Decimal(n / 10) + [('0' as int + n % 10) as char]
  }

  /** `std::to_string` of any number. */
  function SignedDecimal(i: int): string {
    if i < 0 then "-" + Decimal(-i) else Decimal(i)
  }

  /** The value of `acc` followed by the leading digits of `s`. */
  function DigitsValue(s: string, acc: nat): nat {
    if s == "" || !IsDigit(s[0]) then acc
    else DigitsValue(s[1..], 10 * acc + (s[0] as int - '0' as int))
  }

  datatype Number = NoNumber | Number(value: int)

  function Clamp(v: int): int {
    if v > LONG_MAX then LONG_MAX else if v < LONG_MIN then LONG_MIN else v
  }

  /** `strtol(s, &end, 10)`: white space, a sign, digits, saturating at the ends of `long`.
      `NoNumber` is the case in which `end` is left at the start. */
  function Strtol(s: string): Number {
    var t := TrimStart(s);
    var negative := t != "" && t[0] == '-';
    var digits := if t != "" && (t[0] == '-' || t[0] == '+') then t[1..] else t;
    if digits == "" || !IsDigit(digits[0]) then NoNumber
    else
      var v: int := DigitsValue(digits, 0);
      Number(Clamp(if negative then -v else v))
  }

  /** `static_cast<int>` of a `long`. */
  function ToInt32(v: int): int {
    (v + 0x8000_0000) % 0x1_0000_0000 - 0x8000_0000
  }

  lemma {:induction false} DecimalDigits(n: nat)
    ensures AllDigits(Decimal(n)) && Decimal(n) != ""
  {
    if n >= 10 {
      DecimalDigits(n / 10);
    }
  }

  /** A printed number has no leading zero. */
  lemma {:induction false} DecimalCanonical(n: nat)
    ensures Decimal(n) != "" && (n > 0 ==> Decimal(n)[0] != '0')
  {
    if n >= 10 {
      DecimalCanonical(n / 10);
    }
  }

  lemma {:induction false} DigitsValueSplit(a: string, b: string, acc: nat)
    requires AllDigits(a)
    ensures DigitsValue(a + b, acc) == DigitsValue(b, DigitsValue(a, acc))
  {
    if a == "" {
      assert a + b == b;
    } else {
      assert a[0] in a && (a + b)[1..] == a[1..] + b;
      DigitsValueSplit(a[1..], b, 10 * acc + (a[0] as int - '0' as int));
    }
  }

  lemma {:induction false} DecimalValue(n: nat)
    ensures DigitsValue(Decimal(n), 0) == n
  {
    if n < 10 {
      assert Decimal(n)[1..] == "";
    } else {
      var last := [('0' as int + n % 10) as char];
      DecimalDigits(n / 10);
      DigitsValueSplit(Decimal(n / 10), last, 0);
      DecimalValue(n / 10);
      assert last[1..] == "";
    }
  }

  /** Reading back a printed number gives the number, up to saturation. */
  lemma StrtolOfDecimal(i: int)
    ensures Strtol(SignedDecimal(i)) == Number(Clamp(i))
  {
    var d := Decimal(if i < 0 then -i else i);
    DecimalDigits(if i < 0 then -i else i);
    DecimalValue(if i < 0 then -i else i);
    assert d[0] in d;
    if i < 0 {
      assert SignedDecimal(i)[1..] == d;
    }
  }

  lemma SignedDecimalChars(i: int)
    ensures SignedDecimal(i) != ""
    ensures forall c :: c in SignedDecimal(i) ==> IsDigit(c) || c == '-'
  {
    DecimalDigits(if i < 0 then -i else i);
  }
}
