// The string functions of Go's standard library that the operator calls, over
// sequences of code points, with the facts about them that the proofs need.
module GoText {
  import opened Wrappers

  newtype byte = b: int | 0 <= b < 256

  // ---------- searching ----------

  ghost predicate OccursAt(s: string, sep: string, i: int) {
    0 <= i <= i + |sep| <= |s| && s[i..i + |sep|] == sep
  }

  ghost predicate Contains(s: string, sep: string) {
    exists i: int :: OccursAt(s, sep, i)
  }

  // strings.Index: the first position at which sep occurs in s.
  function IndexOf(s: string, sep: string): (r: Option<nat>)
    ensures r.Some? ==> OccursAt(s, sep, r.value) && forall j :: OccursAt(s, sep, j) ==> r.value <= j
    ensures r.None? ==> !Contains(s, sep)
  {
    IndexFrom(s, sep, 0)
  }

  function IndexFrom(s: string, sep: string, i: nat): (r: Option<nat>)
    ensures r.Some? ==> OccursAt(s, sep, r.value) && forall j :: i <= j && OccursAt(s, sep, j) ==> r.value <= j
    ensures r.None? ==> forall j :: i <= j ==> !OccursAt(s, sep, j)
    decreases |s| - i
  {
    if i + |sep| > |s| then None
    else if s[i..i + |sep|] == sep then Some(i)
    else IndexFrom(s, sep, i + 1)
  }

  predicate HasPrefix(s: string, p: string) {
    p <= s
  }

  predicate HasSuffix(s: string, p: string) {
    |p| <= |s| && s[|s| - |p|..] == p
  }

  function TrimPrefix(s: string, p: string): string {
    if p <= s then s[|p|..] else s
  }

  // strings.Split(s, "/")[0] and the like: the text before the first c.
  function Before(s: string, c: char): (r: string)
    ensures c !in r && r <= s
    ensures |r| < |s| ==> s[|r|] == c
  {
    if s == "" || s[0] == c then "" else [s[0]] + Before(s[1..], c)
  }

  lemma {:induction false} BeforeOfJoin(a: string, c: char, b: string)
    requires c !in a
    ensures Before(a + [c] + b, c) == a
    ensures Before(a, c) == a
  {
    if a != "" {
      BeforeOfJoin(a[1..], c, b);
      assert (a + [c] + b)[1..] == a[1..] + [c] + b;
    }
  }

  // The text before the last c, if there is one.
  function LastIndex(s: string, c: char): (r: Option<nat>)
    ensures r.Some? ==> r.value < |s| && s[r.value] == c && c !in s[r.value + 1..]
    ensures r.None? ==> c !in s
  {
    if s == "" then None
    else if s[|s| - 1] == c then Some(|s| - 1)
    else
      var r := LastIndex(s[..|s| - 1], c);
      assert s == s[..|s| - 1] + [s[|s| - 1]];
      assert r.Some? ==> s[r.value + 1..] == s[..|s| - 1][r.value + 1..] + [s[|s| - 1]];
      r
  }

  lemma {:induction false} LastIndexOfJoin(a: string, c: char, b: string)
    requires c !in b
    ensures LastIndex(a + [c] + b, c) == Some(|a|)
  {
    var s := a + [c] + b;
    if b != "" {
      LastIndexOfJoin(a, c, b[..|b| - 1]);
      assert s[..|s| - 1] == a + [c] + b[..|b| - 1];
      assert s[|s| - 1] == b[|b| - 1];
    }
  }

  // The texts before and after the last c.
  function CutLast(s: string, c: char): Option<(string, string)> {
    match LastIndex(s, c)
    case Some(k) => Some((s[..k], s[k + 1..]))
    case None => None
  }

  lemma CutLastOfJoin(a: string, c: char, b: string)
    requires c !in b
    ensures CutLast(a + [c] + b, c) == Some((a, b))
  {
    LastIndexOfJoin(a, c, b);
    assert (a + [c] + b)[..|a|] == a && (a + [c] + b)[|a| + 1..] == b;
  }

  // ---------- white space ----------

  // unicode.IsSpace.
  predicate IsSpace(c: char) {
    || '\t' <= c <= '\r' || c == ' ' || c == '\U{85}' || c == '\U{A0}' || c == '\U{1680}'
    || '\U{2000}' <= c <= '\U{200A}' || c == '\U{2028}' || c == '\U{2029}' || c == '\U{202F}'
    || c == '\U{205F}' || c == '\U{3000}'
  }

  function TrimLeft(s: string): (r: string)
    ensures |r| <= |s|
  {
    if s != "" && IsSpace(s[0]) then TrimLeft(s[1..]) else s
  }

  function TrimRight(s: string): (r: string)
    ensures |r| <= |s|
  {
    if s != "" && IsSpace(s[|s| - 1]) then TrimRight(s[..|s| - 1]) else s
  }

  // strings.TrimSpace.
  function TrimSpace(s: string): (r: string)
    ensures |r| <= |s|
  {
    TrimRight(TrimLeft(s))
  }

  // The code points with the Unicode property White_Space.
  lemma SpacesAre(c: char)
    ensures IsSpace(c) <==>
      || c in "\t\n\U{0B}\U{0C}\r \U{85}\U{A0}\U{1680}\U{2028}\U{2029}\U{202F}\U{205F}\U{3000}"
      || c in "\U{2000}\U{2001}\U{2002}\U{2003}\U{2004}\U{2005}\U{2006}\U{2007}\U{2008}\U{2009}\U{200A}"
  {
    if '\U{2000}' <= c <= '\U{200A}' {
      var spaces := "\U{2000}\U{2001}\U{2002}\U{2003}\U{2004}\U{2005}\U{2006}\U{2007}\U{2008}\U{2009}\U{200A}";
      assert c == spaces[c as int - 0x2000];
    }
    if '\t' <= c <= '\r' {
      assert c == "\t\n\U{0B}\U{0C}\r"[c as int - 9];
    }
  }

  ghost predicate AllSpace(s: string) {
    forall i :: 0 <= i < |s| ==> IsSpace(s[i])
  }

  lemma {:induction false} TrimLeftIs(s: string)
    ensures exists a :: s == a + TrimLeft(s) && AllSpace(a)
    ensures TrimLeft(s) != "" ==> !IsSpace(TrimLeft(s)[0])
  {
    if s != "" && IsSpace(s[0]) {
      TrimLeftIs(s[1..]);
      var a :| s[1..] == a + TrimLeft(s[1..]) && AllSpace(a);
      assert s == ([s[0]] + a) + TrimLeft(s);
    } else {
      assert s == "" + TrimLeft(s);
    }
  }

  lemma {:induction false} TrimRightIs(s: string)
    ensures TrimRight(s) <= s && AllSpace(s[|TrimRight(s)|..])
    ensures TrimRight(s) != "" ==> !IsSpace(TrimRight(s)[|TrimRight(s)| - 1])
  {
    if s != "" && IsSpace(s[|s| - 1]) {
      var n := |s| - 1;
      TrimRightIs(s[..n]);
      assert s == s[..n] + [s[n]];
      assert forall i :: 0 <= i < n - |TrimRight(s)| ==> s[|TrimRight(s)|..][i] == s[..n][|TrimRight(s)|..][i];
    }
  }

  // Trimming cuts white space off both ends, all of it and nothing else.
  lemma TrimSpaceIs(s: string)
    ensures exists a, b :: s == a + TrimSpace(s) + b && AllSpace(a) && AllSpace(b)
    ensures TrimSpace(s) != "" ==> !IsSpace(TrimSpace(s)[0]) && !IsSpace(TrimSpace(s)[|TrimSpace(s)| - 1])
  {
    hide TrimLeft, TrimRight, IsSpace;
    var l := TrimLeft(s);
    TrimLeftIs(s);
    TrimRightIs(l);
    var a :| s == a + l && AllSpace(a);
    assert l == TrimSpace(s) + l[|TrimSpace(s)|..];
    assert s == a + TrimSpace(s) + l[|TrimSpace(s)|..];
  }

  // ---------- case folding ----------

  // The representative of c in its simple folding orbit, for the orbits that
  // meet ASCII: besides the two cases of a letter, KELVIN SIGN folds with k
  // and LATIN SMALL LETTER LONG S with s.
  function Fold(c: char): char {
    if 'A' <= c <= 'Z' then (c as int + 32) as char
    else if c == '\U{212A}' then 'k'
    else if c == '\U{17F}' then 's'
    else c
  }

  // strings.EqualFold when at least one side is an ASCII text.
  predicate EqualFold(a: string, b: string) {
    |a| == |b| && forall i :: 0 <= i < |a| ==> Fold(a[i]) == Fold(b[i])
  }

  // A text equals a lower-case ASCII text under folding if each character is
  // the same, its capital, or the one other character that folds with it.
  lemma EqualFoldIs(a: string, b: string)
    requires forall i :: 0 <= i < |b| ==> b[i] < '\U{80}' && !('A' <= b[i] <= 'Z')
    ensures EqualFold(a, b) <==>
      && |a| == |b|
      && forall i :: 0 <= i < |b| ==>
           || a[i] == b[i]
           || ('a' <= b[i] <= 'z' && a[i] as int + 32 == b[i] as int)
           || (b[i] == 'k' && a[i] == '\U{212A}')
           || (b[i] == 's' && a[i] == '\U{17F}')
  {
    if |a| == |b| {
      forall i | 0 <= i < |b|
        ensures Fold(a[i]) == Fold(b[i]) <==>
          || a[i] == b[i]
          || ('a' <= b[i] <= 'z' && a[i] as int + 32 == b[i] as int)
          || (b[i] == 'k' && a[i] == '\U{212A}')
          || (b[i] == 's' && a[i] == '\U{17F}')
      {
        FoldsLike(a[i], b[i]);
      }
    }
  }

  lemma FoldsLike(x: char, y: char)
    requires y < '\U{80}' && !('A' <= y <= 'Z')
    ensures Fold(x) == Fold(y) <==>
      || x == y || ('a' <= y <= 'z' && x as int + 32 == y as int)
      || (y == 'k' && x == '\U{212A}') || (y == 's' && x == '\U{17F}')
  {
    if 'A' <= x <= 'Z' {
      assert Fold(x) as int == x as int + 32;
    }
  }

  // ---------- decimal numerals ----------

  function Digit(d: nat): char
    requires d < 10
  {
    (d + '0' as int) as char
  }

  // fmt's %d of a non-negative number.
  function Decimal(n: nat): (s: string)
    ensures s != "" && forall c :: c in s ==> '0' <= c <= '9'
  {
    if n < 10 then [Digit(n)] else Decimal(n / 10) + [Digit(n % 10)]
  }

  function ParseDecimal(s: string): nat {
    if s == "" then 0
    else
      var c := s[|s| - 1];
      10 * ParseDecimal(s[..|s| - 1]) + if '0' <= c <= '9' then c as int - '0' as int else 0
  }

  lemma {:induction false} DecimalRoundTrip(n: nat)
    ensures ParseDecimal(Decimal(n)) == n
  {
    if n < 10 {
      assert Decimal(n)[..0] == "";
    } else {
      DecimalRoundTrip(n / 10);
      assert Decimal(n)[..|Decimal(n)| - 1] == Decimal(n / 10);
    }
  }

  // The numeral is that of base ten: its last digit, after the numeral of the
  // rest if there is a rest.
  lemma DecimalIs(n: nat)
    ensures Decimal(n) == (if n < 10 then "" else Decimal(n / 10)) + ["0123456789"[n % 10]]
  {
    DigitIs(n % 10);
  }

  lemma DigitIs(d: nat)
    requires d < 10
    ensures Digit(d) == "0123456789"[d]
  {
  }

  // ---------- base 16 ----------

  function HexDigit(d: int): char
    requires 0 <= d < 16
  {
    if d < 10 then (d + '0' as int) as char else (d - 10 + 'a' as int) as char
  }

  // fmt's %x of a byte string: two lower-case digits per byte (base 16 of
  // section 8 of RFC 4648, in lower case).
  function Hex(bytes: seq<byte>): (s: string)
    ensures |s| == 2 * |bytes|
  {
    if bytes == [] then ""
    else [HexDigit(bytes[0] as int / 16), HexDigit(bytes[0] as int % 16)] + Hex(bytes[1..])
  }

  lemma HexDigitIs(d: int)
    requires 0 <= d < 16
    ensures HexDigit(d) == "0123456789abcdef"[d]
  {
  }

  // Digit by digit: the upper half of each byte, then the lower half.
  lemma {:induction false} HexIs(bytes: seq<byte>, i: nat)
    requires i < |bytes|
    ensures Hex(bytes)[2 * i] == "0123456789abcdef"[bytes[i] as int / 16]
    ensures Hex(bytes)[2 * i + 1] == "0123456789abcdef"[bytes[i] as int % 16]
  {
    if i > 0 {
      HexIs(bytes[1..], i - 1);
      assert Hex(bytes)[2..] == Hex(bytes[1..]);
    } else {
      HexDigitIs(bytes[0] as int / 16);
      HexDigitIs(bytes[0] as int % 16);
    }
  }

  lemma HexDigitInjective(a: int, b: int)
    requires 0 <= a < 16 && 0 <= b < 16
    ensures Fold(HexDigit(a)) == Fold(HexDigit(b)) <==> a == b
  {
  }

  // Base 16 stays injective when letter case is ignored.
  lemma {:induction false} HexInjective(a: seq<byte>, b: seq<byte>)
    ensures EqualFold(Hex(a), Hex(b)) <==> a == b
  {
    if EqualFold(Hex(a), Hex(b)) && a != [] {
      assert |a| == |b|;
      assert Hex(a)[2..] == Hex(a[1..]) && Hex(b)[2..] == Hex(b[1..]);
      HexInjective(a[1..], b[1..]);
      var x, y := a[0] as int, b[0] as int;
      assert Hex(a)[0] == HexDigit(x / 16) && Hex(b)[0] == HexDigit(y / 16);
      assert Hex(a)[1] == HexDigit(x % 16) && Hex(b)[1] == HexDigit(y % 16);
      HexDigitInjective(x / 16, y / 16);
      HexDigitInjective(x % 16, y % 16);
      assert forall i :: 0 <= i < |Hex(a[1..])| ==> Hex(a[1..])[i] == Hex(a)[i + 2] && Hex(b[1..])[i] == Hex(b)[i + 2];
      assert a == [a[0]] + a[1..] && b == [b[0]] + b[1..];
    }
  }

  // EqualFold is transitive through its middle text.
  lemma EqualFoldThrough(a: string, b: string, c: string)
    requires EqualFold(a, b)
    ensures EqualFold(a, c) <==> EqualFold(b, c)
  {
  }
}
