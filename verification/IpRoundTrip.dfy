/**
 * Which texts are accepted as addresses, with which value; and that every
 * address, printed in any of the forms of RFC 4291, section 2.2, is read back.
 */
module IpRoundTrip {
  import opened Text
  import opened Bits
  import opened IpAddress

  // ---- Texts made of groups --------------------------------------------------------

  ghost predicate AllHextets(gs: seq<string>) { forall g :: g in gs ==> HextetText(g) }

  function FullText(gs: seq<string>): string { Join(gs, ':') }

  /** `head::tail`. */
  function ElidedText(head: seq<string>, tail: seq<string>): string { Join(head, ':') + "::" + Join(tail, ':') }

  /** No colon at either end and no two in a row. */
  ghost predicate Compact(s: string) {
    && (s != "" ==> s[0] != ':' && s[|s| - 1] != ':')
    && (forall i :: 0 <= i < |s| - 1 ==> s[i] != ':' || s[i + 1] != ':')
  }

  /** Pieces that joining with colons keeps apart. */
  ghost predicate AllPieces(ps: seq<string>) { forall p :: p in ps ==> p != "" && ':' !in p }

  lemma {:induction false} JoinOfPiecesIsCompact(ps: seq<string>)
    requires AllPieces(ps)
    ensures Compact(Join(ps, ':')) && (ps != [] ==> Join(ps, ':') != "")
  {
    if ps != [] {
      var p := ps[0];
      assert p in ps && forall i :: 0 <= i < |p| ==> p[i] in p;
      if |ps| > 1 {
        assert AllPieces(ps[1..]) by { assert forall x :: x in ps[1..] ==> x in ps; }
        JoinOfPiecesIsCompact(ps[1..]);
        CompactJoin(p, Join(ps[1..], ':'));
      }
    }
  }

  lemma {:induction false} JoinIsCompact(gs: seq<string>)
    requires AllHextets(gs)
    ensures Compact(Join(gs, ':')) && (gs != [] ==> Join(gs, ':') != "")
    ensures forall c :: c in Join(gs, ':') ==> IsHex(c) || c == ':'
  {
    HextetsArePieces(gs);
    JoinOfPiecesIsCompact(gs);
    if gs != [] {
      assert HextetText(gs[0]);
      if |gs| > 1 {
        assert AllHextets(gs[1..]) by { assert forall x :: x in gs[1..] ==> x in gs; }
        JoinIsCompact(gs[1..]);
      }
    }
  }

  lemma HextetsArePieces(gs: seq<string>)
    requires AllHextets(gs)
    ensures AllPieces(gs)
  {
    forall g | g in gs ensures g != "" && ':' !in g { HextetHasNoColon(g); }
  }

  lemma CompactJoin(a: string, b: string)
    requires Compact(a) && Compact(b) && a != "" && b != ""
    ensures Compact(a + [':'] + b)
  {
    var s := a + [':'] + b;
    forall i | 0 <= i < |s| - 1 ensures s[i] != ':' || s[i + 1] != ':' {
      if i < |a| - 1 {
        assert s[i] == a[i] && s[i + 1] == a[i + 1];
      } else if i > |a| {
        assert s[i] == b[i - |a| - 1] && s[i + 1] == b[i - |a|];
      }
    }
  }

  /** The leftmost "::" after a text without one, and not ending in a colon, is where it was put. */
  lemma {:induction false} SplitsAtDouble(a: string, b: string)
    requires a != "" ==> a[|a| - 1] != ':'
    requires forall i :: 0 <= i < |a| - 1 ==> a[i] != ':' || a[i + 1] != ':'
    ensures SplitDouble(a) == [a]
    ensures SplitDouble(a + "::" + b) == [a] + SplitDouble(b)
  {
    var s := a + "::" + b;
    if a == "" {
      assert s[2..] == b;
    } else {
      SplitsAtDouble(a[1..], b);
      assert s[1..] == a[1..] + "::" + b;
      assert [a[0]] + a[1..] == a;
      assert s[0] == a[0] && (|a| > 1 ==> s[1] == a[1]);
    }
  }

  lemma HextetHasNoColon(g: string)
    requires HextetText(g)
    ensures ':' !in g
  {
  }

  lemma PiecesOfJoin(ps: seq<string>)
    requires AllPieces(ps)
    ensures Pieces(Join(ps, ':')) == ps
  {
    JoinOfPiecesIsCompact(ps);
    if ps != [] { SplitOfJoin(ps, ':'); }
  }

  lemma FullGroups(gs: seq<string>)
    requires AllHextets(gs) && |gs| == 8
    ensures Groups(FullText(gs)) == Some(gs)
  {
    JoinIsCompact(gs);
    HextetsArePieces(gs);
    PiecesOfJoin(gs);
    SplitsAtDouble(FullText(gs), "");
    hide SplitDouble, Pieces, Join, AllHextets;
  }

  lemma ElidedChars(a: string, b: string)
    requires forall c :: c in a ==> IsHex(c) || c == ':'
    requires forall c :: c in b ==> IsHex(c) || c == ':'
    ensures AddressChars(a + "::" + b)
  {
  }

  lemma HalvesAre(head: seq<string>, tail: seq<string>)
    requires AllHextets(head) && AllHextets(tail)
    ensures SplitDouble(ElidedText(head, tail)) == [Join(head, ':'), Join(tail, ':')]
    ensures AddressChars(ElidedText(head, tail))
  {
    JoinIsCompact(head);
    JoinIsCompact(tail);
    hide SplitDouble, Join, HextetText, AddressChars;
    var a, b := Join(head, ':'), Join(tail, ':');
    SplitsAtDouble(a, b);
    SplitsAtDouble(b, "");
    ElidedChars(a, b);
  }

  lemma ElidedGroups(head: seq<string>, tail: seq<string>)
    requires AllHextets(head) && AllHextets(tail) && |head| + |tail| <= 8
    ensures Groups(ElidedText(head, tail)) == Some(head + Zeros(8 - |head| - |tail|) + tail)
  {
    HalvesAre(head, tail);
    HextetsArePieces(head);
    HextetsArePieces(tail);
    PiecesOfJoin(head);
    PiecesOfJoin(tail);
    hide SplitDouble, Pieces, Join, AllHextets, Zeros, ElidedText, AddressChars;
  }

  lemma ZerosAreHextets(n: nat)
    ensures AllHextets(Zeros(n))
  {
  }

  /** Eight groups written out are read as their positional value. */
  lemma FullReads(gs: seq<string>)
    requires AllHextets(gs) && |gs| == 8
    ensures Plain(FullText(gs)) == Some(Positional(HextetValues(gs), 0x1_0000))
  {
    FullGroups(gs);
    hide Groups, HextetText, HextetValues, Positional, FullText;
  }

  /** Groups around a "::" are read with zeros in the gap. */
  lemma ElidedReads(head: seq<string>, tail: seq<string>)
    requires AllHextets(head) && AllHextets(tail) && |head| + |tail| <= 8
    ensures Plain(ElidedText(head, tail)) ==
      Some(Positional(HextetValues(head + Zeros(8 - |head| - |tail|) + tail), 0x1_0000))
  {
    ElidedGroups(head, tail);
    ZerosAreHextets(8 - |head| - |tail|);
    hide Groups, HextetText, HextetValues, Positional, ElidedText, Zeros;
  }

  // ---- What an octet looks like ----------------------------------------------------

  function Padding(n: nat): string { seq(n, i => '0') }

  lemma {:induction false} ZeroIsPadding(t: string)
    requires (forall c :: c in t ==> IsDigit(c)) && DecimalValue(t) == 0
    ensures t == Padding(|t|)
  {
    if t != "" {
      var front := t[..|t| - 1];
      assert forall c :: c in front ==> c in t;
      ZeroIsPadding(front);
      assert t[|t| - 1] in t && t == front + [t[|t| - 1]];
    }
  }

  lemma LastDigit(t: string)
    requires t != "" && forall c :: c in t ==> IsDigit(c)
    ensures
      var last := t[|t| - 1];
      DecimalValue(t) == 10 * DecimalValue(t[..|t| - 1]) + DigitValue(last) && last == DigitChar(DigitValue(last))
    ensures DecimalValue("") == 0
  {
    hide DigitChar, DigitValue;
    assert t[|t| - 1] in t;
    DigitOfItsValue(t[|t| - 1]);
  }

  lemma DigitOfItsValue(c: char)
    requires IsDigit(c)
    ensures DigitChar(DigitValue(c)) == c
  {
    var d := DigitValue(c);
    assert c as int == '0' as int + d;
    match d
    case 0 => case 1 => case 2 => case 3 => case 4 => case 5 => case 6 => case 7 => case 8 => case _ =>
  }

  lemma NatTextSnoc(front: nat, d: nat)
    requires d < 10
    ensures NatText(10 * front + d) == (if front == 0 then "" else NatText(front)) + [DigitChar(d)]
  {
    var n := 10 * front + d;
    assert n / 10 == front && n % 10 == d;
  }

  lemma PaddingSnoc(k: nat, n: string, last: string)
    ensures Padding(k) + n + last == Padding(k) + (n + last)
  {
  }

  /** Digits are the number they read as, padded with zeros. */
  lemma {:induction false} DigitsArePadded(t: string)
    requires t != "" && forall c :: c in t ==> IsDigit(c)
    ensures
      var n := NatText(DecimalValue(t));
      |n| <= |t| && t == Padding(|t| - |n|) + n
  {
    hide DecimalValue, NatText, DigitChar, IsDigit, Padding;
    var front, last := t[..|t| - 1], t[|t| - 1];
    assert t == front + [last] && forall c :: c in front ==> c in t;
    LastDigit(t);
    NatTextSnoc(DecimalValue(front), DigitValue(last));
    if DecimalValue(front) == 0 {
      ZeroIsPadding(front);
    } else {
      DigitsArePadded(front);
      PaddingSnoc(|front| - |NatText(DecimalValue(front))|, NatText(DecimalValue(front)), [last]);
    }
  }

  /** An octet is a number up to 255 in at most three digits, zeros in front allowed. */
  lemma OctetForms(t: string)
    ensures OctetText(t) <==>
      |t| <= 3 && exists n: nat :: n <= 255 && |NatText(n)| <= |t| && t == Padding(|t| - |NatText(n)|) + NatText(n)
  {
    if OctetText(t) { DigitsArePadded(t); }
    forall n: nat | n <= 255 && |NatText(n)| <= |t| <= 3 && t == Padding(|t| - |NatText(n)|) + NatText(n)
      ensures OctetText(t)
    {
      PaddedReads(|t| - |NatText(n)|, n);
    }
  }

  lemma {:induction false} PaddedReads(k: nat, n: nat)
    ensures DecimalValue(Padding(k) + NatText(n)) == n
    ensures forall c :: c in Padding(k) + NatText(n) ==> IsDigit(c)
  {
    DecimalRoundTrip(n);
    PaddingAddsNothing(k, NatText(n));
  }

  lemma {:induction false} PaddingAddsNothing(k: nat, t: string)
    ensures DecimalValue(Padding(k) + t) == DecimalValue(t)
    decreases |t|, k
  {
    if t == "" {
      if k > 0 {
        PaddingAddsNothing(k - 1, t);
        assert (Padding(k) + t)[..k - 1] == Padding(k - 1) + t;
      }
    } else {
      PaddingAddsNothing(k, t[..|t| - 1]);
      assert (Padding(k) + t)[..k + |t| - 1] == Padding(k) + t[..|t| - 1];
    }
  }

  // ---- Exactly these texts ---------------------------------------------------------

  lemma ShortIsWhole(s: string)
    requires |s| < 2
    ensures SplitDouble(s) == [s]
  {
  }

  lemma SplitHere(s: string)
    requires |s| >= 2 && s[0] == ':' && s[1] == ':'
    ensures SplitDouble(s) == [""] + SplitDouble(s[2..])
  {
  }

  lemma DoubleHere(s: string)
    requires |s| >= 2 && s[0] == ':' && s[1] == ':'
    ensures SplitDouble(s) == [""] + SplitDouble(s[2..]) && s == "::" + s[2..]
  {
    hide SplitDouble;
    SplitHere(s);
    var t := "::" + s[2..];
    assert |t| == |s|;
    forall k | 0 <= k < |s| ensures t[k] == s[k] { }
  }

  lemma DoubleLater(s: string)
    requires |s| >= 2 && (s[0] != ':' || s[1] != ':')
    ensures
      var rest := SplitDouble(s[1..]);
      SplitDouble(s) == [[s[0]] + rest[0]] + rest[1..] && s == [s[0]] + s[1..]
  {
  }

  lemma {:induction false} DoubleParts(s: string)
    ensures |SplitDouble(s)| == 1 ==> SplitDouble(s)[0] == s
    ensures |SplitDouble(s)| == 2 ==> s == SplitDouble(s)[0] + "::" + SplitDouble(s)[1]
    decreases |s|
  {
    hide SplitDouble;
    if |s| < 2 {
      ShortIsWhole(s);
    } else if s[0] == ':' && s[1] == ':' {
      DoubleParts(s[2..]);
      DoubleHere(s);
    } else {
      DoubleParts(s[1..]);
      DoubleLater(s);
    }
  }

  lemma JoinOfPieces(half: string)
    ensures Join(Pieces(half), ':') == half
  {
    if half != "" { JoinOfSplit(half, ':'); }
  }

  /**
   * A text without a dotted quad is accepted only if it is eight groups, or groups
   * around one "::"; its value is then the positional value of the groups, with
   * zeros for the gap, and it is below 2^128.
   */
  lemma AcceptedShape(text: string) returns (head: seq<string>, tail: seq<string>, elided: bool)
    requires Plain(text).Some?
    ensures AllHextets(head) && AllHextets(tail) && |head| + |tail| <= 8
    ensures if elided then text == ElidedText(head, tail) else text == FullText(head) && |head| == 8 && tail == []
    ensures Plain(text) == Some(Positional(HextetValues(head + Zeros(8 - |head| - |tail|) + tail), 0x1_0000))
    ensures Plain(text).value < Pow2(128)
  {
    var halves := SplitDouble(text);
    var groups := Groups(text).value;
    DoubleParts(text);
    head, tail, elided := Pieces(halves[0]), [], |halves| == 2;
    JoinOfPieces(halves[0]);
    if elided {
      tail := Pieces(halves[1]);
      JoinOfPieces(halves[1]);
    }
    assert groups == head + Zeros(8 - |head| - |tail|) + tail;
    forall g | g in head || g in tail ensures HextetText(g) { assert g in groups; }
    HextetValuesBound(groups);
    hide SplitDouble, Pieces, HextetValues, Positional, Zeros, HextetText, Pow2;
  }

  lemma {:induction false} HextetValuesAt(gs: seq<string>)
    ensures |HextetValues(gs)| == |gs| && forall i :: 0 <= i < |gs| ==> HextetValues(gs)[i] == HexValue(gs[i])
  {
    hide HexValue;
    if gs != [] { HextetValuesAt(gs[..|gs| - 1]); }
  }

  lemma {:induction false} OctetValuesAt(gs: seq<string>)
    ensures |OctetValues(gs)| == |gs| && forall i :: 0 <= i < |gs| ==> OctetValues(gs)[i] == DecimalValue(gs[i])
  {
    hide DecimalValue;
    if gs != [] { OctetValuesAt(gs[..|gs| - 1]); }
  }

  /** Digits of `bits` bits each make a number of that many bits in all. */
  lemma {:induction false} PositionalBound(vs: seq<nat>, bits: nat)
    requires forall i :: 0 <= i < |vs| ==> vs[i] < Pow2(bits)
    ensures Positional(vs, Pow2(bits)) < Pow2(bits * |vs|)
  {
    hide Pow2;
    if vs == [] {
      PowersStart(bits);
    } else {
      var n := |vs| - 1;
      PositionalBound(vs[..n], bits);
      PowersGrow(bits, n);
      var p := Positional(vs[..n], Pow2(bits));
      assert Positional(vs, Pow2(bits)) == p * Pow2(bits) + vs[n];
      hide Positional;
      Multiples(p, Pow2(bits * n), Pow2(bits));
    }
  }

  lemma PowersStart(bits: nat)
    ensures Pow2(bits * 0) == 1
  {
  }

  lemma PowersGrow(bits: nat, n: nat)
    ensures Pow2(bits * (n + 1)) == Pow2(bits * n) * Pow2(bits)
  {
    assert bits * (n + 1) == bits * n + bits;
    Pow2Add(bits * n, bits);
    hide Pow2;
  }

  lemma HextetValuesBound(gs: seq<string>)
    requires AllHextets(gs)
    ensures Positional(HextetValues(gs), 0x1_0000) < Pow2(16 * |gs|)
  {
    HextetValuesAt(gs);
    Pow2Steps();
    hide Pow2, HexValue, Positional, HextetValues, HextetText;
    forall i | 0 <= i < |gs| ensures HextetValues(gs)[i] < Pow2(16) {
      assert gs[i] in gs;
      HextetBound(gs[i]);
    }
    PositionalBound(HextetValues(gs), 16);
  }

  lemma OctetValuesBound(parts: seq<string>)
    requires forall p :: p in parts ==> OctetText(p)
    ensures Positional(OctetValues(parts), 256) < Pow2(8 * |parts|)
  {
    OctetValuesAt(parts);
    Pow2Steps();
    hide Pow2, DecimalValue, Positional, OctetValues, Digits1To3;
    forall i | 0 <= i < |parts| ensures OctetValues(parts)[i] < Pow2(8) {
      assert parts[i] in parts && OctetText(parts[i]);
    }
    PositionalBound(OctetValues(parts), 8);
  }

  /** An IPv4 text is accepted exactly when it is four octets, and its value is then positional and below 2^32. */
  lemma Ipv4Accepts(value: string)
    ensures Ipv4(value).Some? <==>
      exists parts :: |parts| == 4 && value == Join(parts, '.') && forall p :: p in parts ==> OctetText(p)
    ensures Ipv4(value).Some? ==> Ipv4(value).value < Pow2(32)
  {
    JoinOfSplit(value, '.');
    if Ipv4(value).Some? {
      var parts := Split(value, '.');
      OctetValuesBound(parts);
      assert |parts| == 4 && value == Join(parts, '.') && forall p :: p in parts ==> OctetText(p);
    }
    if parts :| |parts| == 4 && value == Join(parts, '.') && forall p :: p in parts ==> OctetText(p) {
      QuadReads(parts);
    }
  }

  lemma QuadReads(parts: seq<string>)
    requires |parts| == 4 && forall p :: p in parts ==> OctetText(p)
    ensures Split(Join(parts, '.'), '.') == parts
    ensures Ipv4(Join(parts, '.')) == Some(Positional(OctetValues(parts), 256))
  {
    forall p | p in parts ensures '.' !in p { OctetHasNoDot(p); }
    SplitOfJoin(parts, '.');
    hide Split, Join, OctetValues, Positional, OctetText;
  }

  lemma OctetHasNoDot(p: string)
    requires OctetText(p)
    ensures '.' !in p && ':' !in p
  {
    hide DecimalValue;
  }

  // ---- Dotted quads at the end -----------------------------------------------------

  lemma {:induction false} LastColonAt(a: string, b: string)
    requires ':' !in b
    ensures LastColon(a + [':'] + b) == Some(|a|)
  {
    var s := a + [':'] + b;
    if b != "" {
      LastColonAt(a, b[..|b| - 1]);
      assert s[..|s| - 1] == a + [':'] + b[..|b| - 1];
    }
  }

  lemma {:induction false} LineStartOfOneLine(s: string)
    requires forall c :: c in s ==> !EndsLine(c)
    ensures LineStart(s) == 0
  {
    if s != "" { LineStartOfOneLine(s[..|s| - 1]); }
  }

  lemma QuadIsShaped(parts: seq<string>)
    requires |parts| == 4 && forall p :: p in parts ==> OctetText(p)
    ensures QuadShaped(Join(parts, '.')) && ':' !in Join(parts, '.')
  {
    QuadReads(parts);
    forall p | p in parts ensures ':' !in p { OctetHasNoDot(p); }
    JoinAvoids(parts, '.', ':');
    hide Split, Join, DecimalValue;
  }

  /** A quad after a colon is found, with everything before it when that is one line. */
  lemma QuadTailFound(before: string, parts: seq<string>)
    requires |parts| == 4 && forall p :: p in parts ==> OctetText(p)
    requires forall c :: c in before ==> !EndsLine(c)
    ensures QuadTail(before + [':'] + Join(parts, '.')) == Some((before + [':'], Join(parts, '.')))
  {
    var quad := Join(parts, '.');
    QuadIsShaped(parts);
    LastColonAt(before, quad);
    LineStartOfOneLine(before);
    var text := before + [':'] + quad;
    hide LastColon, LineStart, QuadShaped, Join, OctetText;
    assert text[|before| + 1..] == quad && text[..|before|] == before && text[0..|before| + 1] == before + [':'];
  }

  function HighHalf(v4: nat): nat { And(Shr(v4, 16), 0xffff) }

  function LowHalf(v4: nat): nat { And(v4, 0xffff) }

  lemma LowSixteen(n: nat)
    ensures And(n, 0xffff) == n % 0x1_0000
  {
    Pow2Steps();
    AndLowMask(n, 16);
    hide Pow2, And;
  }

  lemma HalvesOf(v4: nat)
    requires v4 < Pow2(32)
    ensures HighHalf(v4) == v4 / 0x1_0000 < 0x1_0000 && LowHalf(v4) == v4 % 0x1_0000
  {
    Pow2Steps();
    hide And, Pow2;
    LowSixteen(Shr(v4, 16));
    LowSixteen(v4);
    assert Shr(v4, 16) == v4 / 0x1_0000;
    SmallHalf(v4);
  }

  lemma SmallHalf(v: nat)
    requires v < 0x1_0000_0000
    ensures (v / 0x1_0000) % 0x1_0000 == v / 0x1_0000 < 0x1_0000
  {
  }

  /** `toString(16)` of a 16-bit number is a group of that value. */
  lemma {:induction false} HexTextReads(n: nat, digits: nat)
    requires n < Pow2(4 * digits) && digits >= 1
    ensures HexValue(HexText(n)) == n && |HexText(n)| <= digits
  {
    var t := HexText(n);
    if n < 16 {
      assert t[..0] == "";
      assert HexValue(t) == HexDigitValue(t[0]);
    } else {
      Pow2Of4();
      if digits > 1 { Pow2Add(4 * (digits - 1), 4); }
      assert digits > 1;
      hide Pow2;
      HexTextReads(n / 16, digits - 1);
      assert t[..|t| - 1] == HexText(n / 16);
    }
  }

  lemma HexTextIsHextet(n: nat)
    requires n < 0x1_0000
    ensures HextetText(HexText(n)) && HexValue(HexText(n)) == n
  {
    Pow2Steps();
    hide Pow2;
    HexTextReads(n, 4);
  }

  /** The quad of `parts` as two groups. */
  function QuadGroups(parts: seq<string>): seq<string> {
    var v4 := Positional(OctetValues(parts), 256);
    [HexText(HighHalf(v4)), HexText(LowHalf(v4))]
  }

  lemma QuadGroupsAreHextets(parts: seq<string>)
    requires |parts| == 4 && forall p :: p in parts ==> OctetText(p)
    ensures AllHextets(QuadGroups(parts))
    ensures Positional(HextetValues(QuadGroups(parts)), 0x1_0000) == Positional(OctetValues(parts), 256)
    ensures HextetValues(QuadGroups(parts)) ==
      [Positional(OctetValues(parts), 256) / 0x1_0000, Positional(OctetValues(parts), 256) % 0x1_0000]
  {
    hide OctetText, OctetValues, Pow2, HighHalf, LowHalf, HexText, HexValue;
    OctetValuesBound(parts);
    var v4 := Positional(OctetValues(parts), 256);
    HalvesOf(v4);
    var high, low := HighHalf(v4), LowHalf(v4);
    HexTextIsHextet(high);
    HexTextIsHextet(low);
    TwoGroups(HexText(high), HexText(low));
  }

  lemma TwoGroups(a: string, b: string)
    ensures HextetValues([a, b]) == [HexValue(a), HexValue(b)]
    ensures Positional(HextetValues([a, b]), 0x1_0000) == HexValue(a) * 0x1_0000 + HexValue(b)
  {
    assert [a, b][..1] == [a] && [a][..0] == [];
    assert HextetValues([a]) == [HexValue(a)];
    PositionalSnoc([HexValue(a)], HexValue(b), 0x1_0000);
    PositionalSnoc([], HexValue(a), 0x1_0000);
  }

  /** A quad in place of the last two groups is read as those two groups. */
  lemma QuadStandsForTwoGroups(before: string, parts: seq<string>)
    requires |parts| == 4 && forall p :: p in parts ==> OctetText(p)
    requires forall c :: c in before ==> IsHex(c) || c == ':'
    ensures Ipv6(before + [':'] + Join(parts, '.')) == Plain(before + [':'] + Join(QuadGroups(parts), ':'))
  {
    forall c | c in before ensures !EndsLine(c) { assert IsHex(c) || c == ':'; }
    QuadTailFound(before, parts);
    QuadReads(parts);
    WithoutQuadText(before, parts);
    hide QuadTail, Plain, Ipv4, Join, WithoutQuad, OctetText, Positional, OctetValues, QuadGroups;
  }

  lemma WithoutQuadText(before: string, parts: seq<string>)
    ensures WithoutQuad(before + [':'], Positional(OctetValues(parts), 256)) ==
      before + [':'] + Join(QuadGroups(parts), ':')
  {
    var v4 := Positional(OctetValues(parts), 256);
    var high, low := HexText(HighHalf(v4)), HexText(LowHalf(v4));
    assert Join([high, low], ':') == high + [':'] + low by { assert [high, low][1..] == [low]; }
    hide HexText, Positional, And, Shr, Join, OctetValues;
    assert WithoutQuad(before + [':'], v4) == before + [':'] + (high + [':'] + low);
  }

  lemma {:induction false} JoinAppend(a: seq<string>, b: seq<string>, c: char)
    requires a != [] && b != []
    ensures Join(a + b, c) == Join(a, c) + [c] + Join(b, c)
  {
    if |a| == 1 {
      assert (a + b)[1..] == b;
    } else {
      JoinAppend(a[1..], b, c);
      assert (a + b)[1..] == a[1..] + b;
    }
  }

  /** Six groups and a quad. */
  lemma MixedFullReads(gs: seq<string>, parts: seq<string>)
    requires AllHextets(gs) && |gs| == 6
    requires |parts| == 4 && forall p :: p in parts ==> OctetText(p)
    ensures Ipv6(Join(gs, ':') + [':'] + Join(parts, '.')) ==
      Some(Positional(HextetValues(gs + QuadGroups(parts)), 0x1_0000))
  {
    JoinIsCompact(gs);
    QuadStandsForTwoGroups(Join(gs, ':'), parts);
    QuadGroupsAreHextets(parts);
    hide QuadGroups, OctetText, HextetText, Plain, Ipv6, HextetValues, OctetValues, Positional;
    JoinAppend(gs, QuadGroups(parts), ':');
    assert |QuadGroups(parts)| == 2 by { TwoQuadGroups(parts); }
    FullReads(gs + QuadGroups(parts));
  }

  lemma TwoQuadGroups(parts: seq<string>)
    ensures |QuadGroups(parts)| == 2
  {
    hide Positional, OctetValues, HexText;
  }

  /** What stands before the colon of a quad that ends an elided address. */
  function BeforeQuad(head: seq<string>, tail: seq<string>): string {
    if tail == [] then Join(head, ':') + [':'] else Join(head, ':') + "::" + Join(tail, ':')
  }

  lemma BeforeQuadChars(head: seq<string>, tail: seq<string>)
    requires AllHextets(head) && AllHextets(tail)
    ensures forall c :: c in BeforeQuad(head, tail) ==> IsHex(c) || c == ':'
  {
    JoinIsCompact(head);
    JoinIsCompact(tail);
    hide Join, HextetText;
  }

  lemma MixedText(head: seq<string>, tail: seq<string>, quad: string)
    ensures Join(head, ':') + "::" + Join(tail + [quad], ':') == BeforeQuad(head, tail) + [':'] + quad
  {
    if tail == [] {
      assert tail + [quad] == [quad];
      assert Join([quad], ':') == quad;
    } else {
      JoinSnoc(tail, quad, ':');
    }
  }

  lemma MixedGroupsText(head: seq<string>, tail: seq<string>, groups: seq<string>)
    requires groups != []
    ensures ElidedText(head, tail + groups) == BeforeQuad(head, tail) + [':'] + Join(groups, ':')
  {
    if tail == [] {
      assert tail + groups == groups;
    } else {
      JoinAppend(tail, groups, ':');
    }
  }

  lemma HextetsAppend(a: seq<string>, b: seq<string>)
    requires AllHextets(a) && AllHextets(b)
    ensures AllHextets(a + b)
  {
  }

  /** The mixed text as a text of groups. */
  lemma MixedIsElided(head: seq<string>, tail: seq<string>, parts: seq<string>)
    requires AllHextets(head) && AllHextets(tail)
    requires |parts| == 4 && forall p :: p in parts ==> OctetText(p)
    ensures Ipv6(Join(head, ':') + "::" + Join(tail + [Join(parts, '.')], ':')) ==
      Plain(ElidedText(head, tail + QuadGroups(parts)))
  {
    TwoQuadGroups(parts);
    hide *;
    BeforeQuadChars(head, tail);
    QuadStandsForTwoGroups(BeforeQuad(head, tail), parts);
    MixedText(head, tail, Join(parts, '.'));
    MixedGroupsText(head, tail, QuadGroups(parts));
  }

  /** Groups, "::", groups and a quad. */
  lemma MixedElidedReads(head: seq<string>, tail: seq<string>, parts: seq<string>)
    requires AllHextets(head) && AllHextets(tail) && |head| + |tail| <= 6
    requires |parts| == 4 && forall p :: p in parts ==> OctetText(p)
    ensures Ipv6(Join(head, ':') + "::" + Join(tail + [Join(parts, '.')], ':')) ==
      Some(Positional(HextetValues(head + Zeros(6 - |head| - |tail|) + (tail + QuadGroups(parts))), 0x1_0000))
  {
    hide *;
    var groups := QuadGroups(parts);
    QuadGroupsAreHextets(parts);
    TwoQuadGroups(parts);
    MixedIsElided(head, tail, parts);
    HextetsAppend(tail, groups);
    ElidedReads(head, tail + groups);
    assert 8 - |head| - |tail + groups| == 6 - |head| - |tail|;
  }

  // ---- Printing --------------------------------------------------------------------

  /** The `count` digits of `v` in base `base`, most significant first. */
  function DigitsOf(v: nat, base: nat, count: nat): (r: seq<nat>)
    requires base >= 1
    ensures |r| == count
  {
    if count == 0 then [] else DigitsOf(Quotient(v, base), base, count - 1) + [v % base]
  }

  lemma SplitOff(v: nat, base: nat, m: nat, count: nat) returns (q: nat, r: nat)
    requires base >= 1 && v < m * base
    ensures q < m && r < base && v == q * base + r
    ensures DigitsOf(v, base, count + 1) == DigitsOf(q, base, count) + [r]
  {
    q, r := Quotient(v, base), v % base;
    assert v == q * base + r;
    hide Quotient;
    InBlock(v, q, base);
    Multiples(m, q, base);
  }

  ghost predicate MakesUp(ds: seq<nat>, base: nat, v: nat) {
    Positional(ds, base) == v && forall i :: 0 <= i < |ds| ==> ds[i] < base
  }

  lemma NoDigits(v: nat, base: nat)
    requires base >= 1
    ensures DigitsOf(v, base, 0) == [] && MakesUp([], base, 0)
  {
  }

  lemma OneDigitMore(front: seq<nat>, q: nat, r: nat, base: nat, v: nat)
    requires MakesUp(front, base, q) && r < base && v == q * base + r
    ensures MakesUp(front + [r], base, v)
  {
    PositionalSnoc(front, r, base);
    hide Positional;
  }

  /** The digits of a number of `bits * count` bits, in base 2^bits, make the number. */
  lemma {:induction false} DigitsMake(v: nat, bits: nat, count: nat)
    requires v < Pow2(bits * count)
    ensures MakesUp(DigitsOf(v, Pow2(bits), count), Pow2(bits), v)
  {
    hide Pow2, DigitsOf, MakesUp;
    var base := Pow2(bits);
    if count == 0 {
      PowersStart(bits);
      NoDigits(v, base);
    } else {
      var n := count - 1;
      PowersGrow(bits, n);
      var q, r := SplitOff(v, base, Pow2(bits * n), n);
      DigitsMake(q, bits, n);
      OneDigitMore(DigitsOf(q, base, n), q, r, base, v);
    }
  }

  lemma HextetsOfValue(v: nat, count: nat)
    requires v < Pow2(16 * count)
    ensures Positional(DigitsOf(v, 0x1_0000, count), 0x1_0000) == v
    ensures forall d :: d in DigitsOf(v, 0x1_0000, count) ==> d < 0x1_0000
  {
    Pow2Steps();
    hide Pow2, DigitsOf, Positional;
    DigitsMake(v, 16, count);
  }

  lemma OctetsOfValue(v: nat, count: nat)
    requires v < Pow2(8 * count)
    ensures Positional(DigitsOf(v, 256, count), 256) == v
    ensures forall d :: d in DigitsOf(v, 256, count) ==> d < 256
  {
    Pow2Steps();
    hide Pow2, DigitsOf, Positional;
    DigitsMake(v, 8, count);
  }

  function HexTexts(ds: seq<nat>): seq<string> { seq(|ds|, i requires 0 <= i < |ds| => HexText(ds[i])) }

  function NatTexts(ds: seq<nat>): seq<string> { seq(|ds|, i requires 0 <= i < |ds| => NatText(ds[i])) }

  lemma HexTextsRead(ds: seq<nat>)
    requires forall d :: d in ds ==> d < 0x1_0000
    ensures |HexTexts(ds)| == |ds| && AllHextets(HexTexts(ds)) && HextetValues(HexTexts(ds)) == ds
  {
    hide HextetText, HexText, HexValue, HextetValues;
    var ts := HexTexts(ds);
    HextetValuesAt(ts);
    forall i | 0 <= i < |ds| ensures HextetText(ts[i]) && HexValue(ts[i]) == ds[i] {
      assert ds[i] in ds;
      HexTextIsHextet(ds[i]);
    }
  }

  lemma OctetTextOf(n: nat)
    requires n < 256
    ensures OctetText(NatText(n)) && DecimalValue(NatText(n)) == n
  {
    DecimalRoundTrip(n);
    if n >= 10 {
      assert |NatText(n)| == |NatText(n / 10)| + 1;
      if n >= 100 { assert |NatText(n / 10)| == |NatText(n / 100)| + 1; }
    }
    hide DecimalValue;
  }

  lemma NatTextsRead(ds: seq<nat>)
    requires forall d :: d in ds ==> d < 256
    ensures |NatTexts(ds)| == |ds| && (forall p :: p in NatTexts(ds) ==> OctetText(p)) &&
      OctetValues(NatTexts(ds)) == ds
  {
    hide OctetText, NatText, DecimalValue, OctetValues;
    var ts := NatTexts(ds);
    OctetValuesAt(ts);
    forall i | 0 <= i < |ds| ensures OctetText(ts[i]) && DecimalValue(ts[i]) == ds[i] {
      assert ds[i] in ds;
      OctetTextOf(ds[i]);
    }
  }

  function Hextets(v: nat): seq<nat> { DigitsOf(v, 0x1_0000, 8) }

  function PrintQuad(v: nat): string { Join(NatTexts(DigitsOf(v, 256, 4)), '.') }

  function PrintFull(v: nat): string { FullText(HexTexts(Hextets(v))) }

  /** Groups `i` to `j`, which must be zero, are elided. */
  function PrintElided(v: nat, i: nat, j: nat): string
    requires i <= j <= 8
  {
    ElidedText(HexTexts(Hextets(v)[..i]), HexTexts(Hextets(v)[j..]))
  }

  /** As `PrintElided`, with the low 32 bits as a dotted quad. */
  function PrintMixed(v: nat, i: nat, j: nat): string
    requires i <= j <= 6
  {
    Join(HexTexts(Hextets(v)[..i]), ':') + "::"
      + Join(HexTexts(Hextets(v)[j..6]) + [PrintQuad(v % 0x1_0000_0000)], ':')
  }

  /** Six groups and the low 32 bits as a dotted quad. */
  function PrintMixedFull(v: nat): string {
    Join(HexTexts(Hextets(v)[..6]), ':') + [':'] + PrintQuad(v % 0x1_0000_0000)
  }

  ghost predicate ZeroRun(v: nat, i: nat, j: nat) {
    i <= j <= 8 && forall k :: i <= k < j ==> Hextets(v)[k] == 0
  }

  /** The groups of a printed address, with the zeros put back. */
  lemma GapFilled(ds: seq<nat>, i: nat, j: nat)
    requires i <= j <= |ds| && forall k :: i <= k < j ==> ds[k] == 0
    ensures HexTexts(ds[..i]) + Zeros(j - i) + HexTexts(ds[j..]) == HexTexts(ds)
  {
    assert HexText(0) == "0";
    hide HexText;
    var filled := HexTexts(ds[..i]) + Zeros(j - i) + HexTexts(ds[j..]);
    assert |filled| == |ds|;
    forall k | 0 <= k < |ds| ensures filled[k] == HexText(ds[k]) {
      if k >= j { assert filled[k] == HexTexts(ds[j..])[k - j]; }
    }
  }

  lemma SliceTexts(ds: seq<nat>, i: nat, j: nat)
    requires i <= j <= |ds| && forall d :: d in ds ==> d < 0x1_0000
    ensures |HexTexts(ds[i..j])| == j - i && AllHextets(HexTexts(ds[i..j])) &&
      HextetValues(HexTexts(ds[i..j])) == ds[i..j]
  {
    assert forall d :: d in ds[i..j] ==> d in ds;
    HexTextsRead(ds[i..j]);
  }

  /** Eight hextets are read back. */
  lemma FullRoundTrip(v: nat)
    requires v < Pow2(128)
    ensures Ipv6(PrintFull(v)) == Some(v)
  {
    HextetsOfValue(v, 8);
    HexTextsRead(Hextets(v));
    hide Pow2, DigitsOf, HexTexts, HextetText, HextetValues, Positional, Plain, Ipv4, WithoutQuad;
    FullReads(HexTexts(Hextets(v)));
    GroupsHaveNoQuad(HexTexts(Hextets(v)), []);
  }

  lemma OutsideRun(ds: seq<nat>, i: nat, j: nat)
    requires |ds| == 8 && i <= j <= 8 && forall d :: d in ds ==> d < 0x1_0000
    ensures |HexTexts(ds[..i])| == i && AllHextets(HexTexts(ds[..i]))
    ensures |HexTexts(ds[j..])| == 8 - j && AllHextets(HexTexts(ds[j..]))
  {
    assert ds[0..i] == ds[..i] && ds[j..8] == ds[j..];
    SliceTexts(ds, 0, i);
    SliceTexts(ds, j, 8);
  }

  /** Hextets with any run of zeros elided are read back. */
  lemma ElidedRoundTrip(v: nat, i: nat, j: nat)
    requires v < Pow2(128) && ZeroRun(v, i, j)
    ensures Ipv6(PrintElided(v, i, j)) == Some(v)
  {
    hide Pow2, DigitsOf, HexTexts, HextetText, HextetValues, Positional, Plain, Ipv4, WithoutQuad, Zeros, ElidedText;
    hide AllHextets, QuadTail;
    HextetsOfValue(v, 8);
    var ds := Hextets(v);
    HexTextsRead(ds);
    OutsideRun(ds, i, j);
    GapFilled(ds, i, j);
    ElidedReads(HexTexts(ds[..i]), HexTexts(ds[j..]));
    GroupsHaveNoQuad(HexTexts(ds[..i]), HexTexts(ds[j..]));
    assert 8 - i - (8 - j) == j - i;
  }

  /** A text of groups has no dot, so no dotted quad is found in it. */
  lemma GroupsHaveNoQuad(head: seq<string>, tail: seq<string>)
    requires AllHextets(head) && AllHextets(tail)
    ensures QuadTail(FullText(head)).None? && QuadTail(ElidedText(head, tail)).None?
  {
    JoinIsCompact(head);
    JoinIsCompact(tail);
    NoDotNoQuad(FullText(head));
    NoDotNoQuad(ElidedText(head, tail));
  }

  lemma NoDotNoQuad(text: string)
    requires forall c :: c in text ==> IsHex(c) || c == ':'
    ensures QuadTail(text).None?
  {
    if LastColon(text).Some? {
      var rest := text[LastColon(text).value + 1..];
      assert '.' !in rest by {
        assert forall c :: c in rest ==> c in text;
      }
      SplitPiece(rest, "", '.');
    }
  }

  // ---- Quads at the end of printed addresses ---------------------------------------

  lemma LowHextets(v: nat)
    ensures |Hextets(v)| == 8
    ensures Hextets(v)[6] == (v % 0x1_0000_0000) / 0x1_0000 && Hextets(v)[7] == (v % 0x1_0000_0000) % 0x1_0000
  {
    var ds := DigitsOf(v, 0x1_0000, 8);
    var q := Quotient(v, 0x1_0000);
    assert ds == DigitsOf(q, 0x1_0000, 7) + [v % 0x1_0000];
    assert DigitsOf(q, 0x1_0000, 7) == DigitsOf(Quotient(q, 0x1_0000), 0x1_0000, 6) + [q % 0x1_0000];
    hide DigitsOf;
    LowWord(v);
  }

  lemma LowWord(v: nat)
    ensures (v % 0x1_0000_0000) % 0x1_0000 == v % 0x1_0000
    ensures (v % 0x1_0000_0000) / 0x1_0000 == (v / 0x1_0000) % 0x1_0000
  {
    var a, b, c := v / 0x1_0000_0000, (v / 0x1_0000) % 0x1_0000, v % 0x1_0000;
    assert v == a * 0x1_0000_0000 + b * 0x1_0000 + c;
  }

  function LowQuad(v: nat): seq<string> { NatTexts(DigitsOf(v % 0x1_0000_0000, 256, 4)) }

  lemma LowQuadReads(v: nat)
    ensures |LowQuad(v)| == 4 && (forall p :: p in LowQuad(v) ==> OctetText(p))
    ensures Positional(OctetValues(LowQuad(v)), 256) == v % 0x1_0000_0000
  {
    Pow2Steps();
    OctetsOfValue(v % 0x1_0000_0000, 4);
    hide Pow2, DigitsOf, OctetText, OctetValues, Positional, NatTexts;
    NatTextsRead(DigitsOf(v % 0x1_0000_0000, 256, 4));
  }

  /** Six groups of `v` and its low quad have the value of `v`. */
  lemma MixedValue(v: nat)
    requires v < Pow2(128)
    ensures Positional(HextetValues(HexTexts(Hextets(v)[..6]) + QuadGroups(LowQuad(v))), 0x1_0000) == v
  {
    hide Pow2, DigitsOf, OctetText, OctetValues, Positional, LowQuad, HexText, HexValue;
    HextetsOfValue(v, 8);
    LowHextets(v);
    LowQuadReads(v);
    QuadGroupsAreHextets(LowQuad(v));
    var ds := Hextets(v);
    SliceTexts(ds, 0, 6);
    assert ds[0..6] == ds[..6];
    var six, two := HexTexts(ds[..6]), QuadGroups(LowQuad(v));
    hide Hextets, HexTexts, QuadGroups, HextetText;
    HextetValuesSplit(six, two);
    hide HextetValues;
    assert ds == ds[..6] + [ds[6], ds[7]];
  }

  lemma {:induction false} HextetValuesSplit(a: seq<string>, b: seq<string>)
    ensures HextetValues(a + b) == HextetValues(a) + HextetValues(b)
  {
    hide HexValue;
    if b == [] {
      assert a + b == a;
    } else {
      var n := |b| - 1;
      HextetValuesSplit(a, b[..n]);
      assert (a + b)[..|a + b| - 1] == a + b[..n];
    }
  }

  /** Six hextets and a dotted quad are read back. */
  lemma MixedFullRoundTrip(v: nat)
    requires v < Pow2(128)
    ensures Ipv6(PrintMixedFull(v)) == Some(v)
  {
    MixedValue(v);
    LowQuadReads(v);
    SixTexts(v);
    hide Pow2, Hextets, OctetText, OctetValues, Positional, HextetValues, HexTexts, Ipv6, Join, AllHextets, DigitsOf;
    hide NatTexts, QuadGroups;
    assert PrintQuad(v % 0x1_0000_0000) == Join(LowQuad(v), '.');
    hide LowQuad;
    MixedFullReads(HexTexts(Hextets(v)[..6]), LowQuad(v));
  }

  lemma SixTexts(v: nat)
    requires v < Pow2(128)
    ensures |HexTexts(Hextets(v)[..6])| == 6 && AllHextets(HexTexts(Hextets(v)[..6]))
  {
    HextetsOfValue(v, 8);
    hide DigitsOf, Pow2;
    SliceTexts(Hextets(v), 0, 6);
    assert Hextets(v)[0..6] == Hextets(v)[..6];
  }

  lemma MixedSlices(v: nat, i: nat, j: nat)
    requires v < Pow2(128) && ZeroRun(v, i, j) && j <= 6
    ensures
      var head, tail := HexTexts(Hextets(v)[..i]), HexTexts(Hextets(v)[j..6]);
      && |head| == i && |tail| == 6 - j && AllHextets(head) && AllHextets(tail)
      && head + Zeros(j - i) + tail == HexTexts(Hextets(v)[..6])
  {
    hide Pow2, HextetText, DigitsOf, HexText, AllHextets, HextetValues;
    HextetsOfValue(v, 8);
    var ds := Hextets(v);
    hide Hextets;
    var six := ds[..6];
    SliceTexts(ds, 0, i);
    SliceTexts(ds, j, 6);
    assert ds[0..i] == ds[..i] == six[..i] && ds[j..6] == six[j..];
    GapFilled(six, i, j);
  }

  lemma ZeroRunBounds(v: nat, i: nat, j: nat)
    requires ZeroRun(v, i, j)
    ensures i <= j <= 8
  {
    hide Hextets;
  }

  /** Hextets with any run of zeros elided and a dotted quad at the end are read back. */
  lemma MixedRoundTrip(v: nat, i: nat, j: nat)
    requires v < Pow2(128) && ZeroRun(v, i, j) && j <= 6
    ensures Ipv6(PrintMixed(v, i, j)) == Some(v)
  {
    hide Pow2, Hextets, OctetText, OctetValues, Positional, HextetValues, HexTexts, Ipv6, Join, DigitsOf, NatTexts;
    hide QuadGroups;
    hide Zeros, AllHextets, ZeroRun;
    ZeroRunBounds(v, i, j);
    LowHextets(v);
    MixedSlices(v, i, j);
    MixedValue(v);
    LowQuadReads(v);
    var head, tail := HexTexts(Hextets(v)[..i]), HexTexts(Hextets(v)[j..6]);
    assert PrintQuad(v % 0x1_0000_0000) == Join(LowQuad(v), '.');
    hide LowQuad;
    MixedElidedReads(head, tail, LowQuad(v));
    assert 6 - i - (6 - j) == j - i;
    assert head + Zeros(j - i) + (tail + QuadGroups(LowQuad(v))) ==
      (head + Zeros(j - i) + tail) + QuadGroups(LowQuad(v));
  }

  /** A dotted quad is read back. */
  lemma QuadRoundTrip(v: nat)
    requires v < Pow2(32)
    ensures Ipv4(PrintQuad(v)) == Some(v)
  {
    Pow2Steps();
    OctetsOfValue(v, 4);
    hide Pow2, DigitsOf, OctetText, OctetValues, Positional, NatTexts, Ipv4;
    NatTextsRead(DigitsOf(v, 256, 4));
    QuadReads(NatTexts(DigitsOf(v, 256, 4)));
  }

  // ---- The whole parser ------------------------------------------------------------

  ghost predicate AddressText(t: string) {
    t != "" && forall c :: c in t ==> IsHex(c) || c == ':' || c == '.'
  }

  lemma AddressTextIsTrimmed(t: string)
    requires AddressText(t)
    ensures Trim(t) == t
  {
    assert t[0] in t && t[|t| - 1] in t;
    TrimmedAlready(t);
  }

  /** White space around an address is ignored; a colon decides which version it is. */
  lemma ParseIpOf(t: string)
    requires AddressText(t)
    ensures ParseIp(t) == if ':' in t then Widen(Ipv6(t), 128) else Widen(Ipv4(t), 32)
  {
    AddressTextIsTrimmed(t);
    hide Ipv4, Ipv6;
  }

  /** Every value accepted fits its version: below 2^32 or below 2^128. */
  lemma ParsedFits(t: string)
    requires ParseIp(t).Some?
    ensures ParseIp(t).value.bits == 32 || ParseIp(t).value.bits == 128
    ensures ParseIp(t).value.value < Pow2(ParseIp(t).value.bits)
  {
    var trimmed := Trim(t);
    if ':' in trimmed {
      Ipv6Fits(trimmed);
    } else {
      Ipv4Accepts(trimmed);
    }
    hide Ipv4, Ipv6, Pow2, Trim;
  }

  lemma Ipv6Fits(t: string)
    requires Ipv6(t).Some?
    ensures Ipv6(t).value < Pow2(128)
  {
    hide Plain, Ipv4, QuadTail, WithoutQuad, Pow2;
    match QuadTail(t)
    case None => var _, _, _ := AcceptedShape(t);
    case Some((before, quad)) => var _, _, _ := AcceptedShape(WithoutQuad(before, Ipv4(quad).value));
  }
}
