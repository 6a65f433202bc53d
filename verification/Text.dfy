/** String operations shared by the models: splitting, joining, decimal text. */
module Text {

  datatype Option<+T> = None | Some(value: T)

  /** The pieces of `s` between occurrences of `c` (never empty: "" has one empty piece). */
  function Split(s: string, c: char): (r: seq<string>)
    ensures |r| >= 1
    ensures forall p :: p in r ==> c !in p
  {
    if s == "" then [""]
    else
      var rest := Split(s[1..], c);
      if s[0] == c then [""] + rest else [[s[0]] + rest[0]] + rest[1..]
  }

  function Join(parts: seq<string>, c: char): string {
    if |parts| == 0 then ""
    else if |parts| == 1 then parts[0]
    else parts[0] + [c] + Join(parts[1..], c)
  }

  lemma {:induction false} SplitPiece(a: string, b: string, c: char)
    requires c !in a
    ensures Split(a, c) == [a]
    ensures Split(a + [c] + b, c) == [a] + Split(b, c)
  {
    if a == "" {
      assert a + [c] + b == [c] + b;
      assert ([c] + b)[1..] == b;
    } else {
      SplitPiece(a[1..], b, c);
      assert a == [a[0]] + a[1..];
      assert (a + [c] + b)[1..] == a[1..] + [c] + b;
    }
  }

  /** Splitting undoes joining. */
  lemma {:induction false} SplitOfJoin(parts: seq<string>, c: char)
    requires |parts| >= 1
    requires forall p :: p in parts ==> c !in p
    ensures Split(Join(parts, c), c) == parts
  {
    assert parts[0] in parts;
    if |parts| == 1 {
      SplitPiece(parts[0], "", c);
    } else {
      assert forall p :: p in parts[1..] ==> p in parts;
      SplitOfJoin(parts[1..], c);
      SplitPiece(parts[0], Join(parts[1..], c), c);
    }
  }

  /** Joining undoes splitting. */
  lemma {:induction false} JoinOfSplit(s: string, c: char)
    ensures Join(Split(s, c), c) == s
  {
    hide Join;
    if s == "" {
      JoinOne("", c);
    } else {
      JoinOfSplit(s[1..], c);
      var rest := Split(s[1..], c);
      hide Split;
      if s[0] == c { JoinEmptyFirst(rest, c); } else { JoinLongerFirst(s[0], rest, c); }
      assert s == [s[0]] + s[1..];
    }
  }

  lemma JoinOne(part: string, c: char)
    ensures Join([part], c) == part
  {
  }

  lemma JoinEmptyFirst(rest: seq<string>, c: char)
    requires rest != []
    ensures Join([""] + rest, c) == [c] + Join(rest, c)
  {
    assert ([""] + rest)[1..] == rest;
  }

  lemma JoinLongerFirst(x: char, rest: seq<string>, c: char)
    requires rest != []
    ensures Join([[x] + rest[0]] + rest[1..], c) == [x] + Join(rest, c)
  {
    assert ([[x] + rest[0]] + rest[1..])[1..] == rest[1..];
    if |rest| > 1 {
      Prepended(x, rest[0], [c], Join(rest[1..], c));
    }
  }

  lemma Prepended(x: char, a: string, b: string, d: string)
    ensures [x] + a + b + d == [x] + (a + b + d)
  {
  }

  lemma {:induction false} JoinSnoc(parts: seq<string>, last: string, c: char)
    requires parts != []
    ensures Join(parts + [last], c) == Join(parts, c) + [c] + last
  {
    if |parts| == 1 {
      assert (parts + [last])[1..] == [last];
    } else {
      JoinSnoc(parts[1..], last, c);
      assert (parts + [last])[1..] == parts[1..] + [last];
    }
  }

  /** A character that is neither in a piece nor the separator is not in the joined text. */
  lemma {:induction false} JoinAvoids(parts: seq<string>, c: char, x: char)
    requires x != c
    requires forall p :: p in parts ==> x !in p
    ensures x !in Join(parts, c)
  {
    if |parts| > 0 {
      assert parts[0] in parts;
      if |parts| > 1 {
        assert forall p :: p in parts[1..] ==> p in parts;
        JoinAvoids(parts[1..], c, x);
      }
    }
  }

  /** A text splits in only one way at the last occurrence of a character. */
  lemma TailAfterLast(a: string, b: string, x: string, y: string, c: char)
    requires c !in x && c !in y && a + [c] + x == b + [c] + y
    ensures a == b && x == y
  {
    var s := a + [c] + x;
    LastOccurrence(a, x, c);
    LastOccurrence(b, y, c);
    assert |a| == |b|;
    assert a == s[..|a|] && b == s[..|b|] && x == s[|a| + 1..] && y == s[|b| + 1..];
  }

  lemma LastOccurrence(a: string, x: string, c: char)
    requires c !in x
    ensures (a + [c] + x)[|a|] == c
    ensures forall i :: |a| < i < |a + [c] + x| ==> (a + [c] + x)[i] != c
  {
    forall i | |a| < i < |a + [c] + x| ensures (a + [c] + x)[i] != c {
      assert (a + [c] + x)[i] == x[i - |a| - 1];
    }
  }

  predicate IsDigit(c: char) { '0' <= c <= '9' }

  function DigitChar(d: nat): (c: char)
    requires d < 10
    ensures IsDigit(c)
  {
    ['0', '1', '2', '3', '4', '5', '6', '7', '8', '9'][d]
  }

  /** Decimal text of a natural number, without leading zeros. */
  function NatText(n: nat): (r: string)
    ensures |r| >= 1
    ensures forall c :: c in r ==> IsDigit(c)
  {
    if n < 10 then [DigitChar(n)] else NatText(n / 10) + [DigitChar(n % 10)]
  }

  /** A character that is not a digit counts as zero. */
  function DigitValue(c: char): (d: nat)
    ensures d < 10
  {
    if IsDigit(c) then c as int - '0' as int else 0
  }

  /** Value of a string of decimal digits. */
  function DecimalValue(s: string): nat {
    if s == "" then 0 else 10 * DecimalValue(s[..|s| - 1]) + DigitValue(s[|s| - 1])
  }

  lemma {:induction false} DecimalRoundTrip(n: nat)
    ensures DecimalValue(NatText(n)) == n
  {
    var t := NatText(n);
    if n < 10 {
      assert t[..0] == "";
    } else {
      DecimalRoundTrip(n / 10);
      assert t[..|t| - 1] == NatText(n / 10);
    }
  }

  function IntText(n: int): (r: string)
    ensures |r| >= 1
    ensures forall c :: c in r ==> IsDigit(c) || c == '-'
  {
    if n < 0 then "-" + NatText(-n) else NatText(n)
  }

  /** White space as `String.prototype.trim` sees it. */
  predicate IsSpace(c: char) {
    || '\t' <= c <= '\r' || c == ' ' || c == '\U{A0}' || c == '\U{1680}'
    || '\U{2000}' <= c <= '\U{200A}' || c == '\U{2028}' || c == '\U{2029}'
    || c == '\U{202F}' || c == '\U{205F}' || c == '\U{3000}' || c == '\U{FEFF}'
  }

  /** Tabs, line ends, the spaces of Unicode, and the byte order mark. */
  lemma WhiteSpaceCodes(c: char)
    ensures
      var code := c as int;
      IsSpace(c) <==>
        9 <= code <= 13 || 8192 <= code <= 8202 ||
          code in {32, 160, 5760, 8232, 8233, 8239, 8287, 12288, 65279}
  {
  }

  function TrimStart(s: string): (r: string)
    ensures r != "" ==> !IsSpace(r[0])
    ensures |r| <= |s| && r == s[|s| - |r|..]
    ensures forall i :: 0 <= i < |s| - |r| ==> IsSpace(s[i])
  {
    if s != "" && IsSpace(s[0]) then TrimStart(s[1..]) else s
  }

  function TrimEnd(s: string): (r: string)
    ensures r <= s
    ensures r != "" ==> !IsSpace(r[|r| - 1])
    ensures forall i :: |r| <= i < |s| ==> IsSpace(s[i])
  {
    if s != "" && IsSpace(s[|s| - 1]) then TrimEnd(s[..|s| - 1]) else s
  }

  function Trim(s: string): string { TrimEnd(TrimStart(s)) }

  /** Text with no blank at either end is its own trimming. */
  lemma TrimmedAlready(s: string)
    requires s != "" ==> !IsSpace(s[0]) && !IsSpace(s[|s| - 1])
    ensures Trim(s) == s
  {
  }

  predicate StartsWith(s: string, prefix: string) { prefix <= s }
}
