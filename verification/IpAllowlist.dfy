/**
 * Matching a caller's address against an allowlist
 * (backend/src/api-gateway/ip-allowlist.ts; blocks are those of RFC 4632, section 3.1).
 */
module IpAllowlist {
  import opened Text
  import opened Bits
  import opened IpAddress
  import opened IpRoundTrip

  function Mask(bits: nat, prefix: nat): nat
    requires prefix <= bits
  {
    Shl(Pow2(prefix) - 1, bits - prefix)
  }

  /** The comparison of a CIDR entry, with its early answer for an empty prefix. */
  predicate MaskMatch(ip: nat, network: nat, bits: nat, prefix: nat)
    requires prefix <= bits
  {
    prefix == 0 || And(ip, Mask(bits, prefix)) == And(network, Mask(bits, prefix))
  }

  /** Position of the first slash. */
  function FirstSlash(s: string): (r: Option<nat>)
    ensures r.Some? ==> r.value < |s| && s[r.value] == '/' && '/' !in s[..r.value]
    ensures r.None? ==> '/' !in s
  {
    if s == "" then None
    else if s[0] == '/' then Some(0)
    else
      match FirstSlash(s[1..])
      case None => None
      case Some(i) =>
        assert s[..i + 1] == [s[0]] + s[1..][..i];
        Some(i + 1)
  }

  /** True when the address falls inside the entry, exact or CIDR. */
  predicate MatchesEntry(ip: ParsedIp, entry: string) {
    var trimmed := Trim(entry);
    if trimmed == "" then false
    else match FirstSlash(trimmed)
      case None => ParseIp(trimmed) == Some(ip)
      case Some(slash) =>
        var network := ParseIp(trimmed[..slash]);
        var prefixText := trimmed[slash + 1..];
        network.Some? && network.value.bits == ip.bits && Digits1To3(prefixText)
          && DecimalValue(prefixText) <= ip.bits
          && MaskMatch(ip.value, network.value.value, ip.bits, DecimalValue(prefixText))
  }

  /** An empty list allows every caller; otherwise the caller must be readable and match an entry. */
  method IsIpAllowed(ip: Option<string>, allowlist: Option<seq<string>>) returns (allowed: bool)
    ensures allowed <==> Allowed(ip, if allowlist.None? then [] else allowlist.value)
  {
    hide MatchesEntry, ParseIp, Trim;
    var list := if allowlist.None? then [] else allowlist.value;
    var entries: seq<string> := [];
    for k := 0 to |list|
      invariant forall e :: e in entries <==> exists i :: 0 <= i < k && Trim(list[i]) == e && e != ""
    {
      var entry := Trim(list[k]);
      if entry != "" { entries := entries + [entry]; }
    }
    if entries == [] {
      assert forall e :: e in list ==> Trim(e) == "" by {
        forall e | e in list ensures Trim(e) == "" {
          var i :| 0 <= i < |list| && list[i] == e;
          assert Trim(e) !in entries;
        }
      }
      return true;
    }
    assert exists e :: e in list && Trim(e) != "" by { assert entries[0] in entries; }
    if ip.None? || ip.value == "" { return false; }
    var parsed := ParseIp(ip.value);
    if parsed.None? { return false; }
    for k := 0 to |entries|
      invariant forall i :: 0 <= i < k ==> !MatchesEntry(parsed.value, entries[i])
    {
      if MatchesEntry(parsed.value, entries[k]) {
        assert entries[k] in entries;
        var i :| 0 <= i < |list| && Trim(list[i]) == entries[k];
        TrimTwice(parsed.value, list[i]);
        assert list[i] in list;
        return true;
      }
    }
    forall e | e in list ensures !MatchesEntry(parsed.value, e) {
      TrimTwice(parsed.value, e);
      if Trim(e) != "" { assert Trim(e) in entries; }
    }
    return false;
  }

  /** The rule, entry by entry. */
  ghost predicate Allowed(ip: Option<string>, list: seq<string>) {
    || (forall e :: e in list ==> Trim(e) == "")
    || (ip.Some? && ip.value != "" && ParseIp(ip.value).Some?
        && exists e :: e in list && MatchesEntry(ParseIp(ip.value).value, e))
  }

  lemma {:induction false} TrimEndKeepsHead(s: string)
    requires s != "" && !IsSpace(s[0])
    ensures TrimEnd(s) != "" && TrimEnd(s)[0] == s[0]
  {
    if IsSpace(s[|s| - 1]) { TrimEndKeepsHead(s[..|s| - 1]); }
  }

  lemma TrimIdempotent(s: string)
    ensures Trim(Trim(s)) == Trim(s)
  {
    var t := TrimStart(s);
    if t != "" {
      TrimEndKeepsHead(t);
    }
    TrimmedAlready(Trim(s));
  }

  /** Trimming an entry before matching it changes nothing; a blank entry matches nobody. */
  lemma TrimTwice(ip: ParsedIp, entry: string)
    ensures MatchesEntry(ip, Trim(entry)) == MatchesEntry(ip, entry)
    ensures Trim(entry) == "" ==> !MatchesEntry(ip, entry)
  {
    TrimIdempotent(entry);
    hide Trim, ParseIp, MaskMatch, FirstSlash, DecimalValue;
  }

  // ---- What a mask compares --------------------------------------------------------

  /** The mask test is equality of the two addresses without their host bits. */
  lemma MaskTestIsQuotientTest(ip: nat, network: nat, bits: nat, prefix: nat)
    requires prefix <= bits && ip < Pow2(bits) && network < Pow2(bits)
    ensures MaskMatch(ip, network, bits, prefix) <==> ip / Pow2(bits - prefix) == network / Pow2(bits - prefix)
  {
    if prefix == 0 {
      SmallRemainder(ip, Pow2(bits));
      SmallRemainder(network, Pow2(bits));
    } else {
      PrefixMask(ip, bits, prefix);
      PrefixMask(network, bits, prefix);
      ShlInjective(Shr(ip, bits - prefix), Shr(network, bits - prefix), bits - prefix);
      hide And, Pow2, Shl;
    }
  }

  function BlockBase(network: nat, bits: nat, prefix: nat): nat
    requires prefix <= bits
  {
    Shl(Shr(network, bits - prefix), bits - prefix)
  }

  lemma BaseIsMultiple(network: nat, bits: nat, prefix: nat)
    requires prefix <= bits
    ensures BlockBase(network, bits, prefix) == Quotient(network, Pow2(bits - prefix)) * Pow2(bits - prefix)
  {
  }

  /** An entry denotes the 2^(bits - prefix) consecutive addresses from its base. */
  lemma EntryIsBlock(ip: nat, network: nat, bits: nat, prefix: nat)
    requires prefix <= bits && ip < Pow2(bits) && network < Pow2(bits)
    ensures MaskMatch(ip, network, bits, prefix) <==>
      BlockBase(network, bits, prefix) <= ip < BlockBase(network, bits, prefix) + Pow2(bits - prefix)
  {
    var size := Pow2(bits - prefix);
    MaskTestIsQuotientTest(ip, network, bits, prefix);
    BaseIsMultiple(network, bits, prefix);
    assert ip / size == Quotient(ip, size) && network / size == Quotient(network, size);
    hide Pow2, MaskMatch, BlockBase, Quotient;
    InBlock(ip, Quotient(network, size), size);
  }

  /** The block of an entry is aligned to its own size and does not leave the address space. */
  lemma BlockIsAligned(network: nat, bits: nat, prefix: nat)
    requires prefix <= bits && network < Pow2(bits)
    ensures BlockBase(network, bits, prefix) % Pow2(bits - prefix) == 0
    ensures BlockBase(network, bits, prefix) + Pow2(bits - prefix) <= Pow2(bits)
  {
    var size := Pow2(bits - prefix);
    BaseIsMultiple(network, bits, prefix);
    Pow2Add(bits - prefix, prefix);
    var q := Quotient(network, size);
    QuotientUnique(q * size, size, q, 0);
    hide Pow2, BlockBase;
    QuotientBound(network, size, Pow2(prefix));
    hide Quotient;
    Multiples(q, Pow2(prefix), size);
  }

  /** A longer prefix of the same network is contained in every shorter one. */
  lemma PrefixesNest(ip: nat, network: nat, bits: nat, shorter: nat, longer: nat)
    requires shorter <= longer <= bits && ip < Pow2(bits) && network < Pow2(bits)
    requires MaskMatch(ip, network, bits, longer)
    ensures MaskMatch(ip, network, bits, shorter)
  {
    hide Pow2, MaskMatch;
    MaskTestIsQuotientTest(ip, network, bits, longer);
    MaskTestIsQuotientTest(ip, network, bits, shorter);
    var d, e := Pow2(bits - longer), Pow2(longer - shorter);
    Pow2Add(bits - longer, longer - shorter);
    DivideTwice(ip, d, e);
    DivideTwice(network, d, e);
  }

  lemma DivideTwice(a: nat, d: nat, e: nat)
    requires d >= 1 && e >= 1
    ensures d * e >= 1 && a / (d * e) == Quotient(Quotient(a, d), e)
  {
    AtLeastOne(d, e);
    var q := Quotient(a, d);
    var p := Quotient(q, e);
    InBlock(a, q, d);
    InBlock(q, p, e);
    hide Quotient;
    Regroup(a, q, p, d, e);
    InBlock(a, p, d * e);
    assert Quotient(a, d * e) == p;
    QuotientIs(a, d * e);
  }

  lemma QuotientIs(a: nat, d: nat)
    requires d >= 1
    ensures Quotient(a, d) == a / d
  {
  }

  lemma Regroup(a: nat, q: nat, p: nat, d: nat, e: nat)
    requires d >= 1 && e >= 1
    requires q * d <= a < q * d + d && p * e <= q < p * e + e
    ensures p * (d * e) <= a < p * (d * e) + d * e
  {
    var k := q - p * e;
    assert q * d == p * (d * e) + k * d by { assert q == p * e + k; }
    Multiples(k, e, d);
  }

  /** A full-width prefix is an exact match. */
  lemma FullPrefixIsExact(ip: nat, network: nat, bits: nat)
    requires ip < Pow2(bits) && network < Pow2(bits)
    ensures MaskMatch(ip, network, bits, bits) <==> ip == network
  {
    MaskTestIsQuotientTest(ip, network, bits, bits);
    assert Pow2(0) == 1;
    hide Pow2, MaskMatch;
  }

  // ---- What an entry means ---------------------------------------------------------

  /** A prefix written with one to three digits reads as itself. */
  lemma PrefixTextReads(prefix: nat)
    requires prefix <= 128
    ensures Digits1To3(NatText(prefix)) && DecimalValue(NatText(prefix)) == prefix
  {
    OctetTextOf(prefix);
    hide NatText, DecimalValue;
  }

  lemma {:induction false} SlashFound(a: string, b: string)
    requires '/' !in a
    ensures FirstSlash(a + ['/'] + b) == Some(|a|)
  {
    var s := a + ['/'] + b;
    if a != "" {
      SlashFound(a[1..], b);
      assert s[1..] == a[1..] + ['/'] + b;
    }
  }

  /** A slashed entry needs a readable address of the caller's version and a prefix no wider than it. */
  lemma MatchesSlashed(ip: ParsedIp, address: string, prefixText: string)
    requires '/' !in address && Trim(address + ['/'] + prefixText) == address + ['/'] + prefixText
    ensures MatchesEntry(ip, address + ['/'] + prefixText) <==>
      && ParseIp(address).Some? && ParseIp(address).value.bits == ip.bits
      && Digits1To3(prefixText) && DecimalValue(prefixText) <= ip.bits
      && MaskMatch(ip.value, ParseIp(address).value.value, ip.bits, DecimalValue(prefixText))
  {
    var entry := address + ['/'] + prefixText;
    SlashFound(address, prefixText);
    assert entry[..|address|] == address && entry[|address| + 1..] == prefixText;
    hide ParseIp, Trim, FirstSlash, MaskMatch, DecimalValue, Digits1To3;
  }

  /**
   * The entry `address/prefix` lets a parsed caller in exactly when both are of
   * the same version and the caller is in the aligned block of the address.
   */
  lemma CidrEntryMeans(ip: ParsedIp, address: string, prefix: nat)
    requires AddressText(address) && ParseIp(address).Some? && prefix <= ParseIp(address).value.bits
    requires ip.value < Pow2(ip.bits)
    ensures
      var network := ParseIp(address).value;
      MatchesEntry(ip, address + ['/'] + NatText(prefix)) <==>
        && network.bits == ip.bits
        && BlockBase(network.value, ip.bits, prefix) <= ip.value
        && ip.value < BlockBase(network.value, ip.bits, prefix) + Pow2(ip.bits - prefix)
  {
    hide *;
    var network := ParseIp(address).value;
    ParsedFits(address);
    PrefixTextReads(prefix);
    EntryIsTrimmed(address, NatText(prefix));
    AddressHasNoSlash(address);
    MatchesSlashed(ip, address, NatText(prefix));
    if network.bits == ip.bits { EntryIsBlock(ip.value, network.value, ip.bits, prefix); }
  }

  lemma AddressHasNoSlash(address: string)
    requires AddressText(address)
    ensures '/' !in address
  {
  }

  lemma EntryIsTrimmed(address: string, prefixText: string)
    requires AddressText(address) && Digits1To3(prefixText)
    ensures Trim(address + ['/'] + prefixText) == address + ['/'] + prefixText
  {
    var entry := address + ['/'] + prefixText;
    assert entry[0] == address[0] && address[0] in address;
    assert entry[|entry| - 1] == prefixText[|prefixText| - 1] && prefixText[|prefixText| - 1] in prefixText;
    TrimmedAlready(entry);
  }

  /** An entry without a slash lets in exactly the address it spells. */
  lemma ExactEntryMeans(ip: ParsedIp, address: string)
    requires AddressText(address)
    ensures MatchesEntry(ip, address) <==> ParseIp(address) == Some(ip)
  {
    AddressIsTrimmed(address);
    AddressHasNoSlash(address);
    hide ParseIp, Trim;
    assert FirstSlash(address).None?;
  }

  lemma AddressIsTrimmed(address: string)
    requires AddressText(address)
    ensures Trim(address) == address
  {
    AddressTextIsTrimmed(address);
  }

  // ---- What a list means -----------------------------------------------------------

  /** An entry as an operator writes it: one address, or an address and a prefix. */
  datatype Network = Network(address: string, prefix: Option<nat>)

  function EntryText(n: Network): string {
    if n.prefix.Some? then n.address + ['/'] + NatText(n.prefix.value) else n.address
  }

  ghost predicate Readable(n: Network) {
    && AddressText(n.address) && ParseIp(n.address).Some?
    && (n.prefix.Some? ==> n.prefix.value <= ParseIp(n.address).value.bits)
  }

  /** The caller is of its version and in its aligned block, which without a prefix is the one address. */
  ghost predicate Holds(n: Network, ip: ParsedIp)
    requires Readable(n)
  {
    var network := ParseIp(n.address).value;
    var prefix := if n.prefix.Some? then n.prefix.value else network.bits;
    var base := BlockBase(network.value, network.bits, prefix);
    network.bits == ip.bits && base <= ip.value < base + Pow2(network.bits - prefix)
  }

  lemma FullBlock(ip: nat, network: nat, bits: nat)
    requires ip < Pow2(bits) && network < Pow2(bits)
    ensures BlockBase(network, bits, bits) <= ip < BlockBase(network, bits, bits) + Pow2(bits - bits) <==> ip == network
  {
    hide Pow2, MaskMatch, BlockBase;
    FullPrefixIsExact(ip, network, bits);
    EntryIsBlock(ip, network, bits, bits);
  }

  lemma EntryMeans(n: Network, ip: ParsedIp)
    requires Readable(n) && ip.value < Pow2(ip.bits)
    ensures MatchesEntry(ip, EntryText(n)) <==> Holds(n, ip)
  {
    hide Pow2, ParseIp, MatchesEntry, BlockBase, AddressText, NatText;
    var network := ParseIp(n.address).value;
    ParsedFits(n.address);
    if n.prefix.Some? {
      CidrEntryMeans(ip, n.address, n.prefix.value);
    } else {
      ExactEntryMeans(ip, n.address);
      if network.bits == ip.bits { FullBlock(ip.value, network.value, ip.bits); }
    }
  }

  lemma NotBlank(n: Network)
    requires Readable(n)
    ensures Trim(EntryText(n)) != ""
  {
    hide ParseIp, Trim, NatText, Digits1To3, DecimalValue;
    AddressIsTrimmed(n.address);
    if n.prefix.Some? {
      ParsedFits(n.address);
      PrefixTextReads(n.prefix.value);
      EntryIsTrimmed(n.address, NatText(n.prefix.value));
    }
  }

  function Texts(networks: seq<Network>): seq<string> {
    seq(|networks|, i requires 0 <= i < |networks| => EntryText(networks[i]))
  }

  lemma NoAddress()
    ensures ParseIp("").None?
  {
  }

  lemma TextsAre(networks: seq<Network>, e: string)
    ensures e in Texts(networks) <==> exists n :: n in networks && EntryText(n) == e
  {
    hide EntryText;
    var texts := Texts(networks);
    if e in texts {
      var i :| 0 <= i < |texts| && texts[i] == e;
      assert networks[i] in networks;
    }
    if n :| n in networks && EntryText(n) == e {
      var i :| 0 <= i < |networks| && networks[i] == n;
      assert texts[i] in texts;
    }
  }

  /** Some entry matches exactly when some block holds the caller. */
  lemma SomeEntryMatches(networks: seq<Network>, ip: ParsedIp)
    requires (forall n :: n in networks ==> Readable(n)) && ip.value < Pow2(ip.bits)
    ensures (exists e :: e in Texts(networks) && MatchesEntry(ip, e)) <==> exists n :: n in networks && Holds(n, ip)
  {
    hide *;
    forall e ensures e in Texts(networks) <==> exists n :: n in networks && EntryText(n) == e { TextsAre(networks, e); }
    forall n | n in networks ensures MatchesEntry(ip, EntryText(n)) <==> Holds(n, ip) { EntryMeans(n, ip); }
  }

  lemma NotAllBlank(networks: seq<Network>)
    requires networks != [] && Readable(networks[0])
    ensures exists e :: e in Texts(networks) && Trim(e) != ""
  {
    hide *;
    NotBlank(networks[0]);
    TextsAre(networks, EntryText(networks[0]));
  }

  lemma NoTexts()
    ensures Texts([]) == []
  {
  }

  /**
   * A list of readable entries admits exactly the readable callers in the union of
   * their blocks; only the empty list admits everyone.
   */
  lemma AllowedExactlyInBlocks(caller: Option<string>, networks: seq<Network>)
    requires forall n :: n in networks ==> Readable(n)
    ensures Allowed(caller, Texts(networks)) <==>
      || networks == []
      || (caller.Some? && ParseIp(caller.value).Some?
          && exists n :: n in networks && Holds(n, ParseIp(caller.value).value))
  {
    hide ParseIp, MatchesEntry, Holds, Readable, Trim, Texts, Pow2;
    NoAddress();
    NoTexts();
    if networks != [] { NotAllBlank(networks); }
    if caller.Some? && ParseIp(caller.value).Some? {
      ParsedFits(caller.value);
      SomeEntryMatches(networks, ParseIp(caller.value).value);
    }
  }
}
