/**
 * Screening of operator-supplied strings before they are written into an engine
 * configuration file (backend/src/configuration/config-value-safety.ts).
 */
module ConfigValueSafety {
  import opened Text

  const MAX_CONFIG_VALUE_LENGTH := 512

  datatype Reason = TooLong | LineBreak | ControlCharacter | DoubleQuote | Backslash | LeadingHash | IncludeWord

  datatype Problem = Problem(field: string, reason: Reason)

  /** C0 controls, DEL and the C1 range. */
  predicate IsControl(c: char) {
    var code := c as int;
    code < 0x20 || code == 0x7f || (0x80 <= code <= 0x9f)
  }

  ghost predicate ControlFree(s: string) { forall c :: c in s ==> !IsControl(c) }

  function LowerChar(c: char): char {
    if 'A' <= c <= 'Z' then (c as int + 32) as char else c
  }

  /** The word "include", in any case, starts at position `i`. */
  predicate IncludeAt(s: string, i: nat) {
    && i + 7 <= |s|
    && LowerChar(s[i]) == 'i' && LowerChar(s[i + 1]) == 'n' && LowerChar(s[i + 2]) == 'c'
    && LowerChar(s[i + 3]) == 'l' && LowerChar(s[i + 4]) == 'u' && LowerChar(s[i + 5]) == 'd'
    && LowerChar(s[i + 6]) == 'e'
  }

  predicate MentionsInclude(s: string) {
    exists i :: 0 <= i < |s| && IncludeAt(s, i)
  }

  predicate IncludeLetter(c: char) { LowerChar(c) in {'i', 'n', 'c', 'l', 'u', 'd', 'e'} }

  /** What the screening promises about a value it lets through. */
  ghost predicate Acceptable(v: string) {
    && |v| <= MAX_CONFIG_VALUE_LENGTH
    && ControlFree(v) && '"' !in v && '\\' !in v
    && !StartsWith(TrimStart(v), "#")
    && !MentionsInclude(v)
  }

  method HasControlCharacter(value: string) returns (r: bool)
    ensures r <==> !ControlFree(value)
  {
    for index := 0 to |value|
      invariant forall k :: 0 <= k < index ==> !IsControl(value[k])
    {
      if IsControl(value[index]) { return true; }
    }
    return false;
  }

  /** What each reason says about a value. */
  ghost predicate Applies(reason: Reason, v: string) {
    match reason
    case TooLong => |v| > MAX_CONFIG_VALUE_LENGTH
    case LineBreak => '\n' in v || '\r' in v
    case ControlCharacter => !ControlFree(v)
    case DoubleQuote => '"' in v
    case Backslash => '\\' in v
    case LeadingHash => StartsWith(TrimStart(v), "#")
    case IncludeWord => MentionsInclude(v)
  }

  function Rank(reason: Reason): nat {
    match reason
    case TooLong => 0 case LineBreak => 1 case ControlCharacter => 2 case DoubleQuote => 3
    case Backslash => 4 case LeadingHash => 5 case IncludeWord => 6
  }

  /** The reason applies, and none that is tested before it does. */
  ghost predicate FirstReason(reason: Reason, v: string) {
    Applies(reason, v) && forall q :: Rank(q) < Rank(reason) ==> !Applies(q, v)
  }

  /** Refuses exactly the values that are not acceptable, for the first reason that applies. */
  method DescribeConfigValueProblem(field: string, value: string) returns (r: Option<Problem>)
    ensures r.None? <==> Acceptable(value)
    ensures r.None? ==> |value| <= 512 && forall c :: c in value ==>
      c != '"' && c != '\\' && 32 <= c as int && !(127 <= c as int < 160)
    ensures r.Some? ==> r.value.field == field && FirstReason(r.value.reason, value)
  {
    if |value| > MAX_CONFIG_VALUE_LENGTH { return Some(Problem(field, TooLong)); }
    var control := HasControlCharacter(value);
    if control {
      return Some(Problem(field, if '\r' in value || '\n' in value then LineBreak else ControlCharacter));
    }
    if '"' in value { return Some(Problem(field, DoubleQuote)); }
    if '\\' in value { return Some(Problem(field, Backslash)); }
    if StartsWith(TrimStart(value), "#") { return Some(Problem(field, LeadingHash)); }
    if MentionsInclude(value) { return Some(Problem(field, IncludeWord)); }
    return None;
  }

  /** An absent or empty value is skipped. */
  ghost predicate Screened(v: Option<string>) { v.None? || v.value == "" || Acceptable(v.value) }

  /** The fields that are refused, with their values. */
  ghost function Offending(entries: seq<(string, Option<string>)>): seq<(string, string)> {
    if entries == [] then []
    else
      var n := |entries| - 1;
      Offending(entries[..n]) + (if Screened(entries[n].1) then [] else [(entries[n].0, entries[n].1.value)])
  }

  lemma {:induction false} OffendingEmpty(entries: seq<(string, Option<string>)>)
    ensures Offending(entries) == [] <==> forall e :: e in entries ==> Screened(e.1)
  {
    if entries != [] {
      var n := |entries| - 1;
      OffendingEmpty(entries[..n]);
      assert entries == entries[..n] + [entries[n]];
    }
  }

  /** One problem per offending field, in field order, each with the first reason that applies. */
  method CollectConfigValueProblems(entries: seq<(string, Option<string>)>) returns (problems: seq<Problem>)
    ensures |problems| == |Offending(entries)|
    ensures forall i :: 0 <= i < |problems| ==>
      problems[i].field == Offending(entries)[i].0 && FirstReason(problems[i].reason, Offending(entries)[i].1)
    ensures problems == [] <==> forall e :: e in entries ==> Screened(e.1)
  {
    hide FirstReason, Acceptable;
    problems := [];
    for k := 0 to |entries|
      invariant |problems| == |Offending(entries[..k])|
      invariant forall i :: 0 <= i < |problems| ==>
        problems[i].field == Offending(entries[..k])[i].0 &&
          FirstReason(problems[i].reason, Offending(entries[..k])[i].1)
    {
      assert entries[..k + 1][..k] == entries[..k];
      var value := entries[k].1;
      if value.Some? && value.value != "" {
        var problem := DescribeConfigValueProblem(entries[k].0, value.value);
        if problem.Some? { problems := problems + [problem.value]; }
      }
    }
    assert entries[..|entries|] == entries;
    OffendingEmpty(entries);
  }

  // ---- "include" and concatenation -------------------------------------------------

  lemma NoMentionWithoutI(s: string)
    requires forall c :: c in s ==> LowerChar(c) != 'i'
    ensures !MentionsInclude(s)
  {
  }

  lemma IncludeMoved(s: string, i: nat, t: string, k: nat)
    requires IncludeAt(s, i) && k + 7 <= |t| && t[k..k + 7] == s[i..i + 7]
    ensures MentionsInclude(t)
  {
    var there, here := t[k..k + 7], s[i..i + 7];
    forall d | 0 <= d < 7 ensures there[d] == t[k + d] && here[d] == s[i + d] { }
    assert there[0] == here[0] && there[1] == here[1] && there[2] == here[2] && there[3] == here[3] &&
      there[4] == here[4] && there[5] == here[5] && there[6] == here[6];
    assert IncludeAt(t, k);
  }

  lemma IncludeAvoids(s: string, i: nat, k: nat)
    requires IncludeAt(s, i) && k < |s| && !IncludeLetter(s[k])
    ensures i + 7 <= |s| && (k < i || i + 7 <= k)
  {
  }

  lemma MentionCarried(a: string, c: char, b: string)
    requires MentionsInclude(a) || MentionsInclude(b)
    ensures MentionsInclude(a + [c] + b)
  {
    var s := a + [c] + b;
    if MentionsInclude(a) {
      var i :| 0 <= i < |a| && IncludeAt(a, i);
      assert s[i..i + 7] == a[i..i + 7];
      IncludeMoved(a, i, s, i);
    } else {
      var i :| 0 <= i < |b| && IncludeAt(b, i);
      var k := |a| + 1 + i;
      assert s[k..k + 7] == b[i..i + 7];
      IncludeMoved(b, i, s, k);
    }
  }

  lemma MentionOnOneSide(a: string, c: char, b: string)
    requires !IncludeLetter(c) && MentionsInclude(a + [c] + b)
    ensures MentionsInclude(a) || MentionsInclude(b)
  {
    hide IncludeLetter;
    var s := a + [c] + b;
    var i :| 0 <= i < |s| && IncludeAt(s, i);
    assert s[|a|] == c;
    hide IncludeAt, MentionsInclude;
    IncludeAvoids(s, i, |a|);
    if i < |a| {
      assert a[i..i + 7] == s[i..i + 7];
      IncludeMoved(s, i, a, i);
    } else {
      var k := i - |a| - 1;
      assert b[k..k + 7] == s[i..i + 7];
      IncludeMoved(s, i, b, k);
    }
  }

  /** A character outside the word cannot help to form it across a join. */
  lemma MentionAcross(a: string, c: char, b: string)
    requires !IncludeLetter(c)
    ensures MentionsInclude(a + [c] + b) <==> MentionsInclude(a) || MentionsInclude(b)
  {
    hide IncludeLetter, MentionsInclude;
    if MentionsInclude(a + [c] + b) { MentionOnOneSide(a, c, b); }
    if MentionsInclude(a) || MentionsInclude(b) { MentionCarried(a, c, b); }
  }

  lemma {:induction false} MentionInJoin(parts: seq<string>, c: char)
    requires !IncludeLetter(c)
    ensures MentionsInclude(Join(parts, c)) <==> exists p :: p in parts && MentionsInclude(p)
  {
    if |parts| == 0 {
    } else if |parts| == 1 {
      assert parts[0] in parts;
    } else {
      MentionInJoin(parts[1..], c);
      MentionAcross(parts[0], c, Join(parts[1..], c));
      assert parts == [parts[0]] + parts[1..];
      assert forall p :: p in parts <==> p == parts[0] || p in parts[1..];
    }
  }
}
