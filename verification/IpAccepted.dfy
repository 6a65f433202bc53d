/**
 * Which texts the IPv6 parser accepts, all of them; and which of these are not
 * spelled as RFC 4291, section 2.2, has it.
 */
module IpAccepted {
  import opened Text
  import opened IpAddress
  import opened IpRoundTrip

  // ---- Spellings -------------------------------------------------------------------

  /** Groups, perhaps a "::" and more groups, perhaps a dotted quad at the end. */
  datatype Spelling = Spelling(head: seq<string>, elided: bool, tail: seq<string>, quad: Option<seq<string>>)

  ghost predicate IsQuad(parts: seq<string>) { |parts| == 4 && forall p :: p in parts ==> OctetText(p) }

  /** The quad as a last piece between colons. */
  function QuadPiece(quad: Option<seq<string>>): seq<string> { if quad.Some? then [Join(quad.value, '.')] else [] }

  /** The quad as the groups it stands for. */
  function AsGroups(quad: Option<seq<string>>): seq<string> { if quad.Some? then QuadGroups(quad.value) else [] }

  /** Groups written, a quad counting as two. */
  function Written(a: Spelling): nat { |a.head| + |a.tail| + if a.quad.Some? then 2 else 0 }

  function TextOf(a: Spelling): string {
    if a.elided then ElidedText(a.head, a.tail + QuadPiece(a.quad)) else FullText(a.head + QuadPiece(a.quad))
  }

  /** What the parser takes: eight groups, or at most eight around a "::". */
  ghost predicate Taken(a: Spelling) {
    && AllHextets(a.head) && AllHextets(a.tail) && (a.quad.Some? ==> IsQuad(a.quad.value))
    && (if a.elided then Written(a) <= 8 else a.tail == [] && Written(a) == 8)
  }

  /** What RFC 4291 allows: there "::" stands for one group or more. */
  ghost predicate PerRfc(a: Spelling) { Taken(a) && (a.elided ==> Written(a) <= 7) }

  function GroupsOf(a: Spelling): seq<string>
    requires Written(a) <= 8
  {
    a.head + Zeros(8 - Written(a)) + (a.tail + AsGroups(a.quad))
  }

  function ValueOf(a: Spelling): nat
    requires Written(a) <= 8
  {
    Positional(HextetValues(GroupsOf(a)), 0x1_0000)
  }

  /** Text the parser drops: only in front of an address that ends in a quad, and up to a line terminator. */
  predicate Dropped(junk: string, a: Spelling) { junk == "" || (a.quad.Some? && EndsLine(junk[|junk| - 1])) }

  // ---- Every spelling is read ------------------------------------------------------

  lemma LineStartAfter(junk: string, line: string)
    requires junk != "" ==> EndsLine(junk[|junk| - 1])
    requires forall c :: c in line ==> !EndsLine(c)
    ensures LineStart(junk + line) == |junk|
  {
    var s := junk + line;
    assert forall i :: |junk| <= i < |s| ==> s[i] in line;
    if junk != "" { assert s[|junk| - 1] == junk[|junk| - 1]; }
    hide LineStart;
  }

  lemma QuadTailAfter(junk: string, before: string, parts: seq<string>)
    requires IsQuad(parts) && (junk != "" ==> EndsLine(junk[|junk| - 1]))
    requires forall c :: c in before ==> !EndsLine(c)
    ensures QuadTail(junk + before + [':'] + Join(parts, '.')) == Some((before + [':'], Join(parts, '.')))
  {
    hide LastColon, LineStart, QuadShaped, Join, OctetText;
    var quad := Join(parts, '.');
    var longer := junk + before;
    QuadIsShaped(parts);
    LastColonAt(longer, quad);
    LineStartAfter(junk, before);
    var text := longer + [':'] + quad;
    assert text[|longer| + 1..] == quad && text[..|longer|] == longer;
    assert text[|junk|..|longer| + 1] == before + [':'];
  }

  /** What stands before a line terminator ahead of an address that ends in a quad changes nothing. */
  lemma LineBreakDropped(junk: string, before: string, parts: seq<string>)
    requires IsQuad(parts) && (junk != "" ==> EndsLine(junk[|junk| - 1]))
    requires forall c :: c in before ==> !EndsLine(c)
    ensures Ipv6(junk + before + [':'] + Join(parts, '.')) == Ipv6(before + [':'] + Join(parts, '.'))
  {
    QuadTailFound(before, parts);
    QuadTailAfter(junk, before, parts);
    hide QuadTail, Join, OctetText, Plain, WithoutQuad, Ipv4;
  }

  /** What stands before the last colon of a spelling with a quad. */
  function BeforeLast(a: Spelling): string {
    if a.elided then BeforeQuad(a.head, a.tail) else Join(a.head, ':')
  }

  lemma QuadIsLast(a: Spelling)
    requires Taken(a) && a.quad.Some?
    ensures TextOf(a) == BeforeLast(a) + [':'] + Join(a.quad.value, '.')
    ensures forall c :: c in BeforeLast(a) ==> IsHex(c) || c == ':'
  {
    var quad := Join(a.quad.value, '.');
    BeforeQuadChars(a.head, a.tail);
    JoinIsCompact(a.head);
    MixedText(a.head, a.tail, quad);
    if !a.elided { JoinSnoc(a.head, quad, ':'); }
    hide Join, BeforeQuad, AllHextets, IsQuad;
  }

  lemma GroupsRead(a: Spelling)
    requires Taken(a) && a.quad.None?
    ensures Ipv6(TextOf(a)) == Some(ValueOf(a))
  {
    hide Plain, FullText, ElidedText, Positional, HextetValues, AllHextets, Zeros;
    GroupsHaveNoQuad(a.head, a.tail);
    assert a.head + [] == a.head && a.tail + [] == a.tail;
    if a.elided {
      ElidedReads(a.head, a.tail);
    } else {
      FullReads(a.head);
      assert Zeros(0) == [] && a.head + [] + [] == a.head by { NoZeros(); }
    }
  }

  lemma NoZeros()
    ensures Zeros(0) == []
  {
  }

  lemma QuadsRead(a: Spelling)
    requires Taken(a) && a.quad.Some?
    ensures Ipv6(TextOf(a)) == Some(ValueOf(a))
  {
    hide Plain, Ipv6, Positional, HextetValues, AllHextets, OctetText, Zeros, QuadGroups, Join;
    var parts := a.quad.value;
    if a.elided {
      MixedElidedReads(a.head, a.tail, parts);
    } else {
      QuadIsLast(a);
      MixedFullReads(a.head, parts);
      NoZeros();
      assert a.head + [] + ([] + QuadGroups(parts)) == a.head + QuadGroups(parts);
    }
  }

  /** A spelling is read as the value of its groups, with anything that is dropped in front of it. */
  lemma SpellingReads(junk: string, a: Spelling)
    requires Taken(a) && Dropped(junk, a)
    ensures Ipv6(junk + TextOf(a)) == Some(ValueOf(a))
  {
    hide Ipv6, TextOf, ValueOf, BeforeLast, IsQuad, AllHextets;
    if a.quad.None? {
      GroupsRead(a);
      assert junk + TextOf(a) == TextOf(a);
    } else {
      QuadsRead(a);
      QuadIsLast(a);
      var before, quad := BeforeLast(a), Join(a.quad.value, '.');
      assert forall c :: c in before ==> !EndsLine(c);
      LineBreakDropped(junk, before, a.quad.value);
      assert junk + (before + [':'] + quad) == junk + before + [':'] + quad;
    }
  }

  // ---- Nothing else is -------------------------------------------------------------

  /** The last colon follows another one. */
  predicate EndsDoubled(t: string) {
    LastColon(t).Some? && LastColon(t).value > 0 && t[LastColon(t).value - 1] == ':'
  }

  lemma ShortTailEndsDoubled(head: seq<string>, tail: seq<string>)
    requires |tail| < 2 && AllHextets(tail)
    ensures EndsDoubled(ElidedText(head, tail))
  {
    var a, last := Join(head, ':') + [':'], if tail == [] then "" else tail[0];
    if tail == [] { assert Join(tail, ':') == ""; } else { HextetHasNoColon(tail[0]); }
    assert ElidedText(head, tail) == a + [':'] + last;
    hide LastColon, Join, ElidedText, HextetText;
    LastColonAt(a, last);
  }

  lemma GroupsEndApart(x: string, high: string, low: string)
    requires HextetText(high) && HextetText(low)
    ensures !EndsDoubled(x + [':'] + high + [':'] + low)
  {
    HextetHasNoColon(high);
    HextetHasNoColon(low);
    hide LastColon;
    LastColonAt(x + [':'] + high, low);
    assert high[|high| - 1] in high;
  }

  /** Two groups at the very end of an elided text come after the "::". */
  lemma EnoughTail(head: seq<string>, tail: seq<string>, x: string, high: string, low: string)
    requires AllHextets(tail) && HextetText(high) && HextetText(low)
    requires ElidedText(head, tail) == x + [':'] + high + [':'] + low
    ensures |tail| >= 2
  {
    hide *;
    GroupsEndApart(x, high, low);
    if |tail| < 2 { ShortTailEndsDoubled(head, tail); }
  }

  lemma LastTwo(p: string, x: string, g: string, h: string, high: string, low: string)
    requires ':' !in g && ':' !in h && ':' !in high && ':' !in low
    requires p + [':'] + (g + [':'] + h) == x + [':'] + high + [':'] + low
    ensures p == x && g == high && h == low
  {
    assert p + [':'] + (g + [':'] + h) == (p + [':'] + g) + [':'] + h;
    TailAfterLast(p + [':'] + g, x + [':'] + high, h, low, ':');
    TailAfterLast(p, x, g, high, ':');
  }

  lemma TwoJoined(g: string, h: string)
    ensures Join([g, h], ':') == g + [':'] + h
  {
    assert [g, h][1..] == [h];
    assert Join([h], ':') == h;
  }

  lemma LastTwoGroups(gs: seq<string>) returns (front: seq<string>, g: string, h: string)
    requires AllHextets(gs) && |gs| >= 2
    ensures gs == front + [g, h] && AllHextets(front) && ':' !in g && ':' !in h
  {
    var n := |gs| - 2;
    front, g, h := gs[..n], gs[n], gs[n + 1];
    assert forall x :: x in front ==> x in gs;
    assert g in gs && h in gs;
    HextetHasNoColon(g);
    HextetHasNoColon(h);
    hide HextetText;
  }

  /** The same, for groups around a "::". */
  lemma ElidedEndsIn(head: seq<string>, tail: seq<string>, x: string, high: string, low: string)
    returns (front: seq<string>)
    requires AllHextets(tail) && HextetText(high) && HextetText(low)
    requires ElidedText(head, tail) == x + [':'] + high + [':'] + low
    ensures tail == front + [high, low] && AllHextets(front) && x == BeforeQuad(head, front)
  {
    HextetHasNoColon(high);
    HextetHasNoColon(low);
    EnoughTail(head, tail, x, high, low);
    hide *;
    var g, h: string;
    front, g, h := LastTwoGroups(tail);
    MixedGroupsText(head, front, [g, h]);
    TwoJoined(g, h);
    LastTwo(BeforeQuad(head, front), x, g, h, high, low);
  }

  /** The same, for eight groups. */
  lemma FullEndsIn(gs: seq<string>, x: string, high: string, low: string) returns (front: seq<string>)
    requires AllHextets(gs) && |gs| == 8 && HextetText(high) && HextetText(low)
    requires FullText(gs) == x + [':'] + high + [':'] + low
    ensures gs == front + [high, low] && AllHextets(front) && x == Join(front, ':')
  {
    HextetHasNoColon(high);
    HextetHasNoColon(low);
    hide AllHextets, HextetText, Join;
    var g, h: string;
    front, g, h := LastTwoGroups(gs);
    JoinAppend(front, [g, h], ':');
    TwoJoined(g, h);
    LastTwo(Join(front, ':'), x, g, h, high, low);
  }

  /** A text of groups that ends in two given groups ends in them as groups. */
  lemma EndsInGroups(x: string, high: string, low: string) returns (head: seq<string>, tail: seq<string>, elided: bool)
    requires HextetText(high) && HextetText(low) && Plain(x + [':'] + high + [':'] + low).Some?
    ensures AllHextets(head) && AllHextets(tail)
    ensures x == (if elided then BeforeQuad(head, tail) else Join(head, ':'))
    ensures if elided then |head| + |tail| <= 6 else |head| == 6 && tail == []
    ensures Plain(x + [':'] + high + [':'] + low) ==
      Some(Positional(HextetValues(head + Zeros(6 - |head| - |tail|) + (tail + [high, low])), 0x1_0000))
  {
    NoGroups();
    NoZeros();
    hide *;
    var text := x + [':'] + high + [':'] + low;
    var front, back, split := AcceptedShape(text);
    elided := split;
    if elided {
      tail := ElidedEndsIn(front, back, x, high, low);
      head := front;
      assert 8 - |front| - |back| == 6 - |head| - |tail|;
    } else {
      head := FullEndsIn(front, x, high, low);
      tail := [];
      assert front + Zeros(0) + [] == head + Zeros(0) + ([] + [high, low]);
    }
  }

  lemma NoGroups()
    ensures AllHextets([])
  {
  }

  lemma QuadTailIs(t: string) returns (junk: string, before: string)
    requires QuadTail(t).Some?
    ensures QuadTail(t).value.0 == before + [':'] && t == junk + before + [':'] + QuadTail(t).value.1
    ensures junk == "" || EndsLine(junk[|junk| - 1])
  {
    hide QuadShaped;
    var c := LastColon(t).value;
    var start := LineStart(t[..c]);
    junk, before := t[..start], t[start..c];
    assert t[start..c + 1] == before + [':'];
    assert t == junk + before + [':'] + t[c + 1..];
    if start > 0 { assert junk[|junk| - 1] == t[..c][start - 1]; }
  }

  lemma AcceptedQuad(quad: string) returns (parts: seq<string>)
    requires Ipv4(quad).Some?
    ensures IsQuad(parts) && quad == Join(parts, '.') && Ipv4(quad) == Some(Positional(OctetValues(parts), 256))
  {
    parts := Split(quad, '.');
    JoinOfSplit(quad, '.');
    hide OctetText, OctetValues, Positional, Split, Join;
  }

  lemma QuadTextIs(before: string, parts: seq<string>)
    requires IsQuad(parts)
    ensures |QuadGroups(parts)| == 2 && HextetText(QuadGroups(parts)[0]) && HextetText(QuadGroups(parts)[1])
    ensures WithoutQuad(before + [':'], Positional(OctetValues(parts), 256)) ==
      before + [':'] + QuadGroups(parts)[0] + [':'] + QuadGroups(parts)[1]
  {
    TwoQuadGroups(parts);
    QuadGroupsAreHextets(parts);
    hide QuadGroups, HextetText, WithoutQuad, Positional, OctetValues, OctetText;
    var g := QuadGroups(parts);
    assert g[0] in g && g[1] in g;
    WithoutQuadText(before, parts);
    assert g == [g[0], g[1]];
    TwoJoined(g[0], g[1]);
    assert before + [':'] + (g[0] + [':'] + g[1]) == before + [':'] + g[0] + [':'] + g[1];
  }

  lemma AcceptedHasQuad(t: string)
    requires Ipv6(t).Some? && QuadTail(t).Some?
    ensures Ipv4(QuadTail(t).value.1).Some?
  {
    hide QuadTail, Ipv4, Plain, WithoutQuad;
  }

  /** With its quad read, the text is read as two groups in the quad's place. */
  lemma ReadAsGroups(t: string, before: string, parts: seq<string>)
    requires QuadTail(t) == Some((before + [':'], Join(parts, '.'))) && IsQuad(parts)
    requires Ipv4(Join(parts, '.')) == Some(Positional(OctetValues(parts), 256))
    ensures |QuadGroups(parts)| == 2 && HextetText(QuadGroups(parts)[0]) && HextetText(QuadGroups(parts)[1])
    ensures Ipv6(t) == Plain(before + [':'] + QuadGroups(parts)[0] + [':'] + QuadGroups(parts)[1])
  {
    hide QuadTail, Ipv4, Plain, WithoutQuad, QuadGroups, HextetText, Positional, OctetValues, Join, IsQuad;
    QuadTextIs(before, parts);
  }

  /** A text accepted with a quad is a spelling with that quad, after anything up to a line terminator. */
  lemma AcceptedWithQuad(t: string) returns (junk: string, a: Spelling)
    requires Ipv6(t).Some? && QuadTail(t).Some?
    ensures Taken(a) && Dropped(junk, a) && t == junk + TextOf(a) && Ipv6(t) == Some(ValueOf(a))
  {
    hide QuadTail, Ipv4, Plain, WithoutQuad, QuadGroups, OctetText, AllHextets, HextetText, Positional, HextetValues;
    hide OctetValues, Join, Ipv6, IsQuad, TextOf, BeforeQuad, Zeros;
    AcceptedHasQuad(t);
    var before: string;
    junk, before := QuadTailIs(t);
    var parts := AcceptedQuad(QuadTail(t).value.1);
    ReadAsGroups(t, before, parts);
    var g := QuadGroups(parts);
    var head, tail, elided := EndsInGroups(before, g[0], g[1]);
    assert g == [g[0], g[1]];
    a := Spelling(head, elided, tail, Some(parts));
    QuadIsLast(a);
    InFront(junk, before, Join(parts, '.'));
  }

  lemma InFront(junk: string, before: string, quad: string)
    ensures junk + (before + [':'] + quad) == junk + before + [':'] + quad
  {
  }

  lemma GroupsAlone(a: Spelling)
    requires a.quad.None? && |a.head| + |a.tail| <= 8
    ensures Written(a) == |a.head| + |a.tail|
    ensures GroupsOf(a) == a.head + Zeros(8 - |a.head| - |a.tail|) + a.tail
    ensures TextOf(a) == if a.elided then ElidedText(a.head, a.tail) else FullText(a.head)
  {
    hide ElidedText, FullText, Zeros;
    assert a.head + [] == a.head && a.tail + [] == a.tail;
  }

  lemma ReadPlain(t: string)
    requires QuadTail(t).None?
    ensures Ipv6(t) == Plain(t)
  {
    hide Plain, QuadTail;
  }

  lemma AcceptedWithoutQuad(t: string) returns (a: Spelling)
    requires Ipv6(t).Some? && QuadTail(t).None?
    ensures Taken(a) && a.quad.None? && t == TextOf(a) && Ipv6(t) == Some(ValueOf(a))
  {
    hide Plain, QuadTail, AllHextets, Positional, HextetValues, ElidedText, FullText, Zeros, Ipv6, TextOf, Written;
    hide GroupsOf;
    ReadPlain(t);
    var head, tail, elided := AcceptedShape(t);
    a := Spelling(head, elided, tail, None);
    GroupsAlone(a);
  }

  /**
   * Every accepted text is a spelling, after anything up to a line terminator when
   * the spelling ends in a quad; its value is that of the groups.
   */
  lemma AcceptedSpelling(t: string) returns (junk: string, a: Spelling)
    requires Ipv6(t).Some?
    ensures Taken(a) && Dropped(junk, a) && t == junk + TextOf(a) && Ipv6(t) == Some(ValueOf(a))
  {
    hide Ipv6, QuadTail, TextOf, ValueOf, Taken;
    if QuadTail(t).Some? {
      junk, a := AcceptedWithQuad(t);
    } else {
      junk := "";
      a := AcceptedWithoutQuad(t);
      assert "" + TextOf(a) == TextOf(a);
    }
  }

  ghost predicate Spells(t: string, junk: string, a: Spelling) { Taken(a) && Dropped(junk, a) && t == junk + TextOf(a) }

  /** The parser accepts exactly the spellings, with what it drops in front of them. */
  lemma AcceptedExactly(t: string)
    ensures Ipv6(t).Some? <==> exists junk, a :: Spells(t, junk, a)
  {
    hide Ipv6, TextOf, ValueOf, Taken, Dropped;
    if Ipv6(t).Some? {
      var junk, a := AcceptedSpelling(t);
      assert Spells(t, junk, a);
    }
    if junk, a :| Spells(t, junk, a) { SpellingReads(junk, a); }
  }

  // ---- Which of these the RFC does not have ----------------------------------------

  /** The text is one line. */
  ghost predicate OneLine(t: string) { forall c :: c in t ==> !EndsLine(c) }

  /** Pieces between single colons on both sides of "::", a piece with a dot counting twice. */
  predicate GapHoldsGroups(t: string) {
    var halves := SplitDouble(t);
    |halves| == 2 ==> |Pieces(halves[0])| + |Pieces(halves[1])| + (if '.' in t then 1 else 0) <= 7
  }

  lemma PiecesOfSpelling(a: Spelling)
    requires Taken(a)
    ensures AllPieces(a.head + QuadPiece(a.quad)) && AllPieces(a.head) && AllPieces(a.tail + QuadPiece(a.quad))
  {
    HextetsArePieces(a.head);
    HextetsArePieces(a.tail);
    if a.quad.Some? { QuadIsPiece(a.quad.value); }
    hide AllHextets, IsQuad, Join, Taken;
  }

  lemma QuadIsPiece(parts: seq<string>)
    requires IsQuad(parts)
    ensures Join(parts, '.') != "" && ':' !in Join(parts, '.') && '.' in Join(parts, '.')
    ensures forall c :: c in Join(parts, '.') ==> IsDigit(c) || c == '.'
  {
    QuadIsShaped(parts);
    hide QuadShaped, DecimalValue;
    assert Join(parts, '.') == parts[0] + ['.'] + Join(parts[1..], '.');
    JoinChars(parts);
  }

  lemma {:induction false} JoinChars(parts: seq<string>)
    requires forall p :: p in parts ==> OctetText(p)
    ensures forall c :: c in Join(parts, '.') ==> IsDigit(c) || c == '.'
  {
    hide DecimalValue;
    if |parts| > 0 {
      assert OctetText(parts[0]);
      if |parts| > 1 {
        assert forall p :: p in parts[1..] ==> p in parts;
        JoinChars(parts[1..]);
      }
    }
  }

  lemma SpellingChars(a: Spelling)
    requires Taken(a)
    ensures forall c :: c in TextOf(a) ==> IsHex(c) || c == ':' || c == '.'
    ensures '.' in TextOf(a) <==> a.quad.Some?
    ensures ':' in TextOf(a) && TextOf(a) != ""
  {
    hide AllHextets, IsQuad, Join, BeforeLast;
    if a.quad.Some? {
      QuadIsLast(a);
      QuadIsPiece(a.quad.value);
      hide TextOf;
      assert TextOf(a)[|BeforeLast(a)|] == ':';
    } else {
      assert a.head + [] == a.head && a.tail + [] == a.tail;
      JoinIsCompact(a.head);
      JoinIsCompact(a.tail);
      if a.elided {
        assert TextOf(a)[|Join(a.head, ':')|] == ':';
      } else {
        ColonInFull(a.head);
      }
    }
  }

  lemma ColonInFull(gs: seq<string>)
    requires |gs| == 8
    ensures ':' in Join(gs, ':')
  {
    assert Join(gs, ':')[|gs[0]|] == ':';
  }

  lemma SpellingSplits(a: Spelling)
    requires Taken(a)
    ensures SplitDouble(TextOf(a)) ==
      if a.elided then [Join(a.head, ':'), Join(a.tail + QuadPiece(a.quad), ':')] else [TextOf(a)]
  {
    PiecesOfSpelling(a);
    var back := Join(a.tail + QuadPiece(a.quad), ':');
    if a.elided {
      JoinOfPiecesIsCompact(a.head);
      JoinOfPiecesIsCompact(a.tail + QuadPiece(a.quad));
    } else {
      JoinOfPiecesIsCompact(a.head + QuadPiece(a.quad));
    }
    hide SplitDouble, Join, QuadPiece, AllPieces, Taken;
    if a.elided {
      SplitsAtDouble(Join(a.head, ':'), back);
      SplitsAtDouble(back, "");
    } else {
      SplitsAtDouble(TextOf(a), "");
    }
  }

  /** On one line, the condition on the text is the one on the spelling. */
  lemma GapIs(a: Spelling)
    requires Taken(a)
    ensures GapHoldsGroups(TextOf(a)) <==> (a.elided ==> Written(a) <= 7)
  {
    SpellingSplits(a);
    SpellingChars(a);
    PiecesOfSpelling(a);
    PiecesOfJoin(a.head);
    PiecesOfJoin(a.tail + QuadPiece(a.quad));
    hide SplitDouble, Join, Pieces, TextOf, AllPieces, Taken;
  }

  lemma OneLineFront(junk: string, rest: string)
    requires OneLine(junk + rest) && junk != ""
    ensures !EndsLine(junk[|junk| - 1])
  {
    assert (junk + rest)[|junk| - 1] == junk[|junk| - 1];
  }

  /**
   * An accepted text is spelled as the RFC has it exactly when it holds no line
   * terminator and its "::", if any, stands for at least one group.
   */
  lemma AcceptedPerRfc(t: string)
    requires Ipv6(t).Some?
    ensures (exists a :: PerRfc(a) && t == TextOf(a)) <==> OneLine(t) && GapHoldsGroups(t)
  {
    hide Ipv6, TextOf, ValueOf, Written, GapHoldsGroups, Taken;
    if a :| PerRfc(a) && t == TextOf(a) {
      SpellingChars(a);
      GapIs(a);
    }
    if OneLine(t) && GapHoldsGroups(t) {
      var junk, a := AcceptedSpelling(t);
      if junk != "" { OneLineFront(junk, TextOf(a)); }
      assert "" + TextOf(a) == TextOf(a);
      assert t == TextOf(a);
      GapIs(a);
      assert PerRfc(a);
    }
  }

  /** The whole parser takes every RFC spelling, with the value of its groups. */
  lemma RfcSpellingParses(a: Spelling)
    requires PerRfc(a)
    ensures ParseIp(TextOf(a)) == Some(ParsedIp(ValueOf(a), 128))
  {
    SpellingChars(a);
    assert "" + TextOf(a) == TextOf(a);
    hide Ipv6, TextOf, ValueOf, Written, Taken;
    SpellingReads("", a);
    ParseIpOf(TextOf(a));
  }

  const ONE_TO_FOUR := Spelling([], true, [], Some(["1", "2", "3", "4"]))

  const NO_GAP := Spelling(["1", "2", "3", "4"], true, ["5", "6", "7", "8"], None)

  lemma DigitIsPiece(t: string)
    requires |t| == 1 && IsDigit(t[0])
    ensures OctetText(t) && HextetText(t)
  {
    assert t[..0] == "" && DecimalValue("") == 0;
  }

  lemma OneToFourIsTaken()
    ensures Taken(ONE_TO_FOUR) && TextOf(ONE_TO_FOUR) == "::1.2.3.4"
  {
    var parts := ["1", "2", "3", "4"];
    forall p | p in parts ensures OctetText(p) { DigitIsPiece(p); }
    hide OctetText;
    assert Join([], ':') == "";
    assert parts[1..] == ["2", "3", "4"] && parts[1..][1..] == ["3", "4"] && parts[1..][1..][1..] == ["4"];
    assert Join(["4"], '.') == "4" && Join(["3", "4"], '.') == "3.4";
    assert Join(parts, '.') == "1.2.3.4";
    assert [] + [Join(parts, '.')] == ["1.2.3.4"];
  }

  lemma NoGapIsTaken()
    ensures Taken(NO_GAP) && TextOf(NO_GAP) == "1:2:3:4::5:6:7:8"
  {
    hide HextetText, Join;
    var head, tail := ["1", "2", "3", "4"], ["5", "6", "7", "8"];
    forall g | g in head || g in tail ensures HextetText(g) { DigitIsPiece(g); }
    FourJoined(head);
    FourJoined(tail);
    assert Join(head, ':') == "1:2:3:4";
    assert Join(tail, ':') == "5:6:7:8";
    assert tail + [] == tail;
  }

  lemma FourJoined(g: seq<string>)
    requires |g| == 4
    ensures Join(g, ':') == g[0] + [':'] + (g[1] + [':'] + (g[2] + [':'] + g[3]))
  {
    assert g[1..] == [g[1], g[2], g[3]] && g[1..][1..] == [g[2], g[3]];
    TwoJoined(g[2], g[3]);
    assert Join(g[1..], ':') == g[1] + [':'] + Join([g[2], g[3]], ':');
  }

  /** Accepted as `::1.2.3.4`, though no RFC spelling. */
  lemma TextBeforeALineBreakIsAccepted()
    ensures
      var t := "junk\n::1.2.3.4";
      && ParseIp(t).Some? && ParseIp(t) == ParseIp("::1.2.3.4")
      && !exists a :: PerRfc(a) && t == TextOf(a)
  {
    hide Ipv6, TextOf, ValueOf, Taken, PerRfc, Dropped, OneLine, GapHoldsGroups, ParseIp;
    OneToFourIsTaken();
    OneToFourIsPerRfc();
    RfcSpellingParses(ONE_TO_FOUR);
    JunkIsDropped();
    JunkIsNotOneLine();
    SpellingReads("junk\n", ONE_TO_FOUR);
    var t := "junk\n" + TextOf(ONE_TO_FOUR);
    assert t == "junk\n::1.2.3.4";
    AcceptedPerRfc(t);
    JunkIsNotTrimmed(ValueOf(ONE_TO_FOUR));
  }

  lemma OneToFourIsPerRfc()
    ensures Taken(ONE_TO_FOUR) ==> PerRfc(ONE_TO_FOUR)
  {
    hide Taken;
  }

  lemma JunkIsDropped()
    ensures Dropped("junk\n", ONE_TO_FOUR)
  {
  }

  lemma JunkIsNotOneLine()
    ensures !OneLine("junk\n::1.2.3.4")
  {
    assert EndsLine("junk\n::1.2.3.4"[4]);
  }

  lemma JunkIsNotTrimmed(v: nat)
    requires Ipv6("junk\n::1.2.3.4") == Some(v)
    ensures ParseIp("junk\n::1.2.3.4") == Some(ParsedIp(v, 128))
  {
    hide Ipv6, Ipv4, Trim;
    var t := "junk\n::1.2.3.4";
    TrimmedAlready(t);
    assert t[5] == ':';
  }

  /** Accepted, though its "::" stands for no group and so it is no RFC spelling. */
  lemma EmptyGapIsAccepted()
    ensures
      var t := "1:2:3:4::5:6:7:8";
      ParseIp(t).Some? && !exists a :: PerRfc(a) && t == TextOf(a)
  {
    hide Ipv6, TextOf, ValueOf, Taken, OneLine, GapHoldsGroups;
    var t := TextOf(NO_GAP);
    NoGapIsTaken();
    SpellingReads("", NO_GAP);
    assert "" + t == t;
    SpellingChars(NO_GAP);
    GapIs(NO_GAP);
    ParseIpOf(t);
    AcceptedPerRfc(t);
  }
}
