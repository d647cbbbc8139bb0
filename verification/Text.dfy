/** The string facts the engine relies on: blank IDs, decimal rendering and
    parsing, and the byte order that breaks ties between record IDs. */
module Text {
  import opened Wrappers

  // ----- whitespace -----

  /** unicode.IsSpace, which strings.TrimSpace uses. */
  predicate IsSpace(c: char) {
    c == ' ' || ('\t' <= c <= '\r') || c == '\U{0085}' || c == '\U{00A0}' || c == '\U{1680}' ||
    ('\U{2000}' <= c <= '\U{200A}') || c == '\U{2028}' || c == '\U{2029}' || c == '\U{202F}' ||
    c == '\U{205F}' || c == '\U{3000}'
  }

  function TrimLeft(s: string): string {
    if s != "" && IsSpace(s[0]) then TrimLeft(s[1..]) else s
  }

  function TrimRight(s: string): string {
    if s != "" && IsSpace(s[|s| - 1]) then TrimRight(s[..|s| - 1]) else s
  }

  function Trim(s: string): string {
    TrimRight(TrimLeft(s))
  }

  /** Nothing is left after trimming; see TrimmedToNothing. */
  predicate Blank(s: string) {
    forall i :: 0 <= i < |s| ==> IsSpace(s[i])
  }

  function FirstNonEmpty(a: string, b: string): string {
    if !Blank(a) then a else if !Blank(b) then b else ""
  }

  /** A string is blank exactly when strings.TrimSpace leaves nothing of it. */
  lemma {:induction false} TrimmedToNothing(s: string)
    ensures Trim(s) == "" <==> Blank(s)
  {
    if s != "" {
      if IsSpace(s[0]) {
        TrimmedToNothing(s[1..]);
        assert s == [s[0]] + s[1..];
      } else {
        TrimRightKeeps(s);
      }
    }
  }

  lemma {:induction false} TrimRightKeeps(s: string)
    requires s != "" && !IsSpace(s[0])
    ensures TrimRight(s) != ""
  {
    if IsSpace(s[|s| - 1]) {
      TrimRightKeeps(s[..|s| - 1]);
    }
  }

  // ----- decimal numbers -----

  function DigitChar(d: nat): char
    requires d < 10
  {
    '0' + d as char
  }

  predicate IsDigit(c: char) {
    '0' <= c <= '9'
  }

  /** strconv.Itoa / %d for a non-negative number. */
  function Decimal(n: nat): string {
    if n < 10 then [DigitChar(n)] else Decimal(n / 10) + [DigitChar(n % 10)]
  }

  function Zeros(k: nat): string {
    seq(k, _ => '0')
  }

  /** fmt's %06d. */
  function Pad6(n: nat): string {
    var d := Decimal(n);
    if |d| < 6 then Zeros(6 - |d|) + d else d
  }

  predicate AllDigits(s: string) {
    forall i :: 0 <= i < |s| ==> IsDigit(s[i])
  }

  function NumberOf(s: string): nat
    requires AllDigits(s)
  {
    if s == "" then 0 else 10 * NumberOf(s[..|s| - 1]) + (s[|s| - 1] - '0') as nat
  }

  /** strconv.ParseUint(s, 10, 64), without the 64-bit range check. */
  function ParseUint(s: string): Option<nat> {
    if s != "" && AllDigits(s) then Some(NumberOf(s)) else None
  }

  lemma {:induction false} DecimalRoundTrip(n: nat)
    ensures Decimal(n) != "" && AllDigits(Decimal(n)) && NumberOf(Decimal(n)) == n
  {
    if n >= 10 {
      DecimalRoundTrip(n / 10);
      assert Decimal(n)[..|Decimal(n)| - 1] == Decimal(n / 10);
    }
  }

  lemma {:induction false} LeadingZeros(k: nat, s: string)
    requires AllDigits(s)
    ensures AllDigits(Zeros(k) + s) && NumberOf(Zeros(k) + s) == NumberOf(s)
    decreases |s|, k
  {
    var t := Zeros(k) + s;
    if s != "" {
      LeadingZeros(k, s[..|s| - 1]);
      assert t[..|t| - 1] == Zeros(k) + s[..|s| - 1];
    } else if k > 0 {
      LeadingZeros(k - 1, s);
      assert t[..|t| - 1] == Zeros(k - 1) + s;
    }
  }

  lemma Pad6RoundTrip(n: nat)
    ensures ParseUint(Pad6(n)) == Some(n)
  {
    DecimalRoundTrip(n);
    var d := Decimal(n);
    if |d| < 6 {
      LeadingZeros(6 - |d|, d);
    }
  }

  // ----- byte order -----

  /** Go's string comparison, from one position on. */
  predicate LessFrom(a: string, b: string, i: nat)
    decreases |b| - i
  {
    i < |b| && (i >= |a| || a[i] < b[i] || (a[i] == b[i] && LessFrom(a, b, i + 1)))
  }

  predicate Less(a: string, b: string) {
    LessFrom(a, b, 0)
  }

  lemma {:induction false} IrreflexiveFrom(a: string, i: nat)
    ensures !LessFrom(a, a, i)
    decreases |a| - i
  {
    if i < |a| {
      IrreflexiveFrom(a, i + 1);
    }
  }

  lemma {:induction false} TransitiveFrom(a: string, b: string, c: string, i: nat)
    requires LessFrom(a, b, i) && LessFrom(b, c, i)
    ensures LessFrom(a, c, i)
    decreases |c| - i
  {
    if i < |a| && a[i] == b[i] && b[i] == c[i] {
      TransitiveFrom(a, b, c, i + 1);
    }
  }

  lemma {:induction false} TotalFrom(a: string, b: string, i: nat)
    requires i <= |a| && i <= |b| && a[..i] == b[..i]
    ensures a == b || LessFrom(a, b, i) || LessFrom(b, a, i)
    decreases |a| - i
  {
    if i < |a| && i < |b| && a[i] == b[i] {
      assert a[..i + 1] == a[..i] + [a[i]] && b[..i + 1] == b[..i] + [b[i]];
      TotalFrom(a, b, i + 1);
    } else if i == |a| == |b| {
      assert a == a[..i] && b == b[..i];
    }
  }

  lemma LessIrreflexive(a: string)
    ensures !Less(a, a)
  {
    IrreflexiveFrom(a, 0);
  }

  lemma LessTransitive(a: string, b: string, c: string)
    requires Less(a, b) && Less(b, c)
    ensures Less(a, c)
  {
    TransitiveFrom(a, b, c, 0);
  }

  lemma LessTotal(a: string, b: string)
    ensures a == b || Less(a, b) || Less(b, a)
  {
    TotalFrom(a, b, 0);
  }

  // ----- splitting -----

  /** There is one way to cut a text at the first occurrence of a separator. */
  lemma SplitUnique(sep: char, x: string, r: string, y: string, s: string)
    requires sep !in x && sep !in y && x + [sep] + r == y + [sep] + s
    ensures x == y && r == s
  {
    var whole := x + [sep] + r;
    assert whole[|x|] == sep && whole[|y|] == sep;
    assert forall i :: 0 <= i < |x| ==> whole[i] == x[i] && x[i] in x;
    assert forall i :: 0 <= i < |y| ==> whole[i] == y[i] && y[i] in y;
    assert |x| == |y|;
    assert x == whole[..|x|] == y;
    assert r == whole[|x| + 1..] == s;
  }

  lemma DecimalWithout(n: nat, c: char)
    requires !IsDigit(c)
    ensures c !in Decimal(n)
  {
    DecimalRoundTrip(n);
  }

  lemma DecimalInjective(m: nat, n: nat)
    requires Decimal(m) == Decimal(n)
    ensures m == n
  {
    DecimalRoundTrip(m);
    DecimalRoundTrip(n);
  }
}
