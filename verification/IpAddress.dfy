/**
 * Text of IPv4 and IPv6 addresses as the gateway reads it
 * (backend/src/api-gateway/ip-allowlist.ts; the forms are those of RFC 4291, section 2.2).
 */
module IpAddress {
  import opened Text
  import opened Bits

  /** Digits in base `base`, most significant first. */
  function Positional(vs: seq<nat>, base: nat): nat {
    if vs == [] then 0 else Positional(vs[..|vs| - 1], base) * base + vs[|vs| - 1]
  }

  // ---- IPv4 ------------------------------------------------------------------------

  predicate Digits1To3(t: string) { 1 <= |t| <= 3 && forall c :: c in t ==> IsDigit(c) }

  predicate OctetText(t: string) { Digits1To3(t) && DecimalValue(t) <= 255 }

  function OctetValues(parts: seq<string>): seq<nat> {
    if parts == [] then [] else OctetValues(parts[..|parts| - 1]) + [DecimalValue(parts[|parts| - 1])]
  }

  /** The value of a dotted quad. */
  function Ipv4(value: string): Option<nat> {
    var parts := Split(value, '.');
    if |parts| == 4 then CombinedOctets(parts) else None
  }

  function CombinedOctets(parts: seq<string>): Option<nat> {
    if forall p :: p in parts ==> OctetText(p) then Some(Positional(OctetValues(parts), 256)) else None
  }

  lemma PositionalSnoc(vs: seq<nat>, v: nat, base: nat)
    ensures Positional(vs + [v], base) == Positional(vs, base) * base + v
  {
    assert (vs + [v])[..|vs|] == vs;
  }

  /** Shifting left and or-ing the next digit is one step of the positional value. */
  lemma AppendDigit(result: nat, digit: nat)
    ensures digit < 0x100 ==> Or(Shl(result, 8), digit) == result * 0x100 + digit
    ensures digit < 0x1_0000 ==> Or(Shl(result, 16), digit) == result * 0x1_0000 + digit
  {
    Pow2Steps();
    hide Pow2, Or;
    if digit < 0x100 { OrIsAppend(result, digit, 8); }
    if digit < 0x1_0000 { OrIsAppend(result, digit, 16); }
  }

  method ParseIpv4(value: string) returns (r: Option<nat>)
    ensures r == Ipv4(value)
  {
    hide CombinedOctets;
    var parts := Split(value, '.');
    if |parts| != 4 { return None; }
    r := CombineOctets(parts);
  }

  method CombineOctets(parts: seq<string>) returns (r: Option<nat>)
    ensures r == CombinedOctets(parts)
  {
    NoOctets();
    assert parts[..0] == [];
    hide Or, Shl, DecimalValue, OctetValues, Positional, OctetText;
    var result := 0;
    for k := 0 to |parts|
      invariant forall i :: 0 <= i < k ==> OctetText(parts[i])
      invariant result == Positional(OctetValues(parts[..k]), 256)
    {
      var part := parts[k];
      if !OctetText(part) {
        assert part in parts;
        return None;
      }
      AppendOctet(parts, k, result);
      result := Or(Shl(result, 8), DecimalValue(part));
    }
    assert parts[..|parts|] == parts;
    return Some(result);
  }

  lemma AppendOctet(parts: seq<string>, k: nat, result: nat)
    requires k < |parts| && OctetText(parts[k]) && result == Positional(OctetValues(parts[..k]), 256)
    ensures Or(Shl(result, 8), DecimalValue(parts[k])) == Positional(OctetValues(parts[..k + 1]), 256)
  {
    hide Or, Shl, DecimalValue, OctetValues, Positional, Digits1To3;
    AppendDigit(result, DecimalValue(parts[k]));
    OctetSnoc(parts, k);
  }

  lemma NoOctets()
    ensures Positional(OctetValues([]), 256) == 0
  {
  }

  lemma OctetSnoc(parts: seq<string>, k: nat)
    requires k < |parts|
    ensures Positional(OctetValues(parts[..k + 1]), 256) ==
      Positional(OctetValues(parts[..k]), 256) * 256 + DecimalValue(parts[k])
  {
    assert parts[..k + 1][..k] == parts[..k];
    PositionalSnoc(OctetValues(parts[..k]), DecimalValue(parts[k]), 256);
  }

  // ---- IPv6 ------------------------------------------------------------------------

  predicate IsHex(c: char) { IsDigit(c) || 'a' <= c <= 'f' || 'A' <= c <= 'F' }

  /** A character that is not a hexadecimal digit counts as zero. */
  function HexDigitValue(c: char): (d: nat)
    ensures d < 16
  {
    if IsDigit(c) then c as int - '0' as int
    else if 'a' <= c <= 'f' then c as int - 'a' as int + 10
    else if 'A' <= c <= 'F' then c as int - 'A' as int + 10
    else 0
  }

  function HexValue(t: string): nat {
    if t == "" then 0 else HexValue(t[..|t| - 1]) * 16 + HexDigitValue(t[|t| - 1])
  }

  function HexDigit(d: nat): (c: char)
    requires d < 16
    ensures IsHex(c) && HexDigitValue(c) == d
  {
    ['0', '1', '2', '3', '4', '5', '6', '7', '8', '9', 'a', 'b', 'c', 'd', 'e', 'f'][d]
  }

  /** `toString(16)`. */
  function HexText(n: nat): (r: string)
    ensures |r| >= 1
    ensures forall c :: c in r ==> IsHex(c)
  {
    if n < 16 then [HexDigit(n)] else HexText(n / 16) + [HexDigit(n % 16)]
  }

  predicate HextetText(t: string) { 1 <= |t| <= 4 && forall c :: c in t ==> IsHex(c) }

  /** Characters `.` does not match in a regular expression. */
  predicate EndsLine(c: char) { c == '\n' || c == '\r' || c == '\U{2028}' || c == '\U{2029}' }

  /** Position after the last line terminator. */
  function LineStart(s: string): (p: nat)
    ensures p <= |s|
    ensures forall i :: p <= i < |s| ==> !EndsLine(s[i])
    ensures p > 0 ==> EndsLine(s[p - 1])
  {
    if s == "" then 0
    else if EndsLine(s[|s| - 1]) then |s|
    else LineStart(s[..|s| - 1])
  }

  function LastColon(s: string): (r: Option<nat>)
    ensures r.Some? ==> r.value < |s| && s[r.value] == ':' && forall i :: r.value < i < |s| ==> s[i] != ':'
    ensures r.None? ==> ':' !in s
  {
    if s == "" then None
    else if s[|s| - 1] == ':' then Some(|s| - 1)
    else LastColon(s[..|s| - 1])
  }

  predicate QuadShaped(s: string) {
    var parts := Split(s, '.');
    |parts| == 4 && forall p :: p in parts ==> Digits1To3(p)
  }

  /**
   * The match of `(.*:)(quad)$`: what precedes the quad, through its colon, and
   * the quad. The pattern is not anchored on the left, so the first part starts
   * after the last line terminator before that colon.
   */
  function QuadTail(text: string): Option<(string, string)> {
    match LastColon(text)
    case None => None
    case Some(c) =>
      if QuadShaped(text[c + 1..]) then Some((text[LineStart(text[..c])..c + 1], text[c + 1..])) else None
  }

  /** Splits at every "::", scanning from the left. */
  function SplitDouble(s: string): (r: seq<string>)
    ensures |r| >= 1
  {
    if |s| < 2 then [s]
    else if s[0] == ':' && s[1] == ':' then [""] + SplitDouble(s[2..])
    else
      var rest := SplitDouble(s[1..]);
      [[s[0]] + rest[0]] + rest[1..]
  }

  function Pieces(half: string): seq<string> { if half == "" then [] else Split(half, ':') }

  function Zeros(n: nat): seq<string> { seq(n, i => "0") }

  predicate AddressChars(text: string) { text != "" && forall c :: c in text ==> IsHex(c) || c == ':' }

  /** The eight groups of an address without a dotted quad. */
  function Groups(text: string): Option<seq<string>> {
    if !AddressChars(text) then None
    else
      var halves := SplitDouble(text);
      var head := Pieces(halves[0]);
      if |halves| == 1 then (if |head| == 8 then Some(head) else None)
      else if |halves| > 2 then None
      else
        var tail := Pieces(halves[1]);
        if |head| + |tail| > 8 then None else Some(head + Zeros(8 - |head| - |tail|) + tail)
  }

  function HextetValues(groups: seq<string>): seq<nat> {
    if groups == [] then [] else HextetValues(groups[..|groups| - 1]) + [HexValue(groups[|groups| - 1])]
  }

  /** The value of an address in groups only. */
  function Plain(text: string): Option<nat> {
    match Groups(text)
    case None => None
    case Some(groups) => Combined(groups)
  }

  function Combined(groups: seq<string>): Option<nat> {
    if forall g :: g in groups ==> HextetText(g) then Some(Positional(HextetValues(groups), 0x1_0000)) else None
  }

  /** The quad rewritten as two groups. */
  function WithoutQuad(before: string, v4: nat): string {
    before + HexText(And(Shr(v4, 16), 0xffff)) + ":" + HexText(And(v4, 0xffff))
  }

  function Ipv6(value: string): Option<nat> {
    match QuadTail(value)
    case None => Plain(value)
    case Some((before, quad)) =>
      match Ipv4(quad)
      case None => None
      case Some(v4) => Plain(WithoutQuad(before, v4))
  }

  lemma {:induction false} HexValueBound(t: string)
    ensures HexValue(t) < Pow2(4 * |t|)
  {
    if t != "" {
      HexValueBound(t[..|t| - 1]);
      Pow2Add(4 * (|t| - 1), 4);
      Pow2Of4();
      hide Pow2;
    }
  }

  lemma HextetBound(t: string)
    requires HextetText(t)
    ensures HexValue(t) < 0x1_0000
  {
    hide Pow2, HexValue;
    HexValueBound(t);
    Pow2Grows(4 * |t|, 16);
    Pow2Steps();
  }

  method Combine(groups: seq<string>) returns (r: Option<nat>)
    ensures r == Combined(groups)
  {
    hide Or, Shl, HexValue, HextetValues, Positional, HextetText;
    NoHextets();
    assert groups[..0] == [];
    var result := 0;
    for k := 0 to |groups|
      invariant forall i :: 0 <= i < k ==> HextetText(groups[i])
      invariant result == Positional(HextetValues(groups[..k]), 0x1_0000)
    {
      var group := groups[k];
      if !HextetText(group) {
        assert group in groups;
        return None;
      }
      AppendHextet(groups, k, result);
      result := Or(Shl(result, 16), HexValue(group));
    }
    assert groups[..|groups|] == groups;
    return Some(result);
  }

  lemma AppendHextet(groups: seq<string>, k: nat, result: nat)
    requires k < |groups| && HextetText(groups[k]) && result == Positional(HextetValues(groups[..k]), 0x1_0000)
    ensures Or(Shl(result, 16), HexValue(groups[k])) == Positional(HextetValues(groups[..k + 1]), 0x1_0000)
  {
    hide Or, Shl, HexValue, HextetValues, Positional, HextetText;
    HextetBound(groups[k]);
    AppendDigit(result, HexValue(groups[k]));
    HextetSnoc(groups, k);
  }

  lemma NoHextets()
    ensures Positional(HextetValues([]), 0x1_0000) == 0
  {
  }

  lemma HextetSnoc(groups: seq<string>, k: nat)
    requires k < |groups|
    ensures Positional(HextetValues(groups[..k + 1]), 0x1_0000) ==
      Positional(HextetValues(groups[..k]), 0x1_0000) * 0x1_0000 + HexValue(groups[k])
  {
    assert groups[..k + 1][..k] == groups[..k];
    PositionalSnoc(HextetValues(groups[..k]), HexValue(groups[k]), 0x1_0000);
  }

  method ParseIpv6(value: string) returns (r: Option<nat>)
    ensures r == Ipv6(value)
  {
    hide Ipv4, QuadTail, WithoutQuad;
    hide Groups, Combined;
    var text := value;
    var tail := QuadTail(value);
    if tail.Some? {
      var v4 := ParseIpv4(tail.value.1);
      if v4.None? { return None; }
      text := WithoutQuad(tail.value.0, v4.value);
    }
    var groups := Groups(text);
    if groups.None? { return None; }
    r := Combine(groups.value);
  }

  // ---- Either version --------------------------------------------------------------

  datatype ParsedIp = ParsedIp(value: nat, bits: nat)

  function Widen(v: Option<nat>, bits: nat): Option<ParsedIp> {
    match v case None => None case Some(value) => Some(ParsedIp(value, bits))
  }

  function ParseIp(value: string): Option<ParsedIp> {
    var trimmed := Trim(value);
    if trimmed == "" then None
    else if ':' in trimmed then Widen(Ipv6(trimmed), 128)
    else Widen(Ipv4(trimmed), 32)
  }
}
