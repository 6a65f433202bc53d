/**
 * `secret://namespace/name` references and the environment variables that back
 * them (backend/src/configuration/secret-resolver.service.ts).
 */
module SecretResolver {
  import opened Text

  const PREFIX := "secret://"

  predicate IsReference(value: string) { StartsWith(value, PREFIX) && |value| > |PREFIX| }

  predicate IsUpper(c: char) { 'A' <= c <= 'Z' }

  predicate IsNameChar(c: char) { IsUpper(c) || IsDigit(c) }

  /**
   * Upper-casing of one character. The non-ASCII characters listed are the ones
   * whose upper case contains an ASCII letter; every other one stays outside
   * `[A-Z0-9]`, which is all the name mapping looks at.
   */
  function UpperChar(c: char): string {
    if 'a' <= c <= 'z' then [(c as int - 32) as char]
    else match c
      case '\U{DF}' => "SS" case '\U{131}' => "I" case '\U{149}' => "\U{2BC}N" case '\U{17F}' => "S"
      case '\U{1F0}' => "J\U{30C}" case '\U{1E96}' => "H\U{331}" case '\U{1E97}' => "T\U{308}"
      case '\U{1E98}' => "W\U{30A}" case '\U{1E99}' => "Y\U{30A}" case '\U{1E9A}' => "A\U{2BE}"
      case '\U{FB00}' => "FF" case '\U{FB01}' => "FI" case '\U{FB02}' => "FL" case '\U{FB03}' => "FFI"
      case '\U{FB04}' => "FFL" case '\U{FB05}' => "ST" case '\U{FB06}' => "ST"
      case _ => [c]
  }

  function ToUpper(s: string): string {
    if s == "" then "" else UpperChar(s[0]) + ToUpper(s[1..])
  }

  function SkipPunctuation(s: string): (r: string)
    ensures |r| <= |s|
    ensures r == "" || IsNameChar(r[0])
  {
    if s != "" && !IsNameChar(s[0]) then SkipPunctuation(s[1..]) else s
  }

  /** Every run of characters outside `[A-Z0-9]` becomes one underscore. */
  function Collapse(s: string): string
    decreases |s|
  {
    if s == "" then ""
    else if IsNameChar(s[0]) then [s[0]] + Collapse(s[1..])
    else "_" + Collapse(SkipPunctuation(s[1..]))
  }

  function StripLeft(s: string): (r: string)
    ensures |r| <= |s| && r == s[|s| - |r|..]
    ensures r == "" || r[0] != '_'
  {
    if s != "" && s[0] == '_' then StripLeft(s[1..]) else s
  }

  function StripRight(s: string): (r: string)
    ensures r <= s
    ensures r == "" || r[|r| - 1] != '_'
  {
    if s != "" && s[|s| - 1] == '_' then StripRight(s[..|s| - 1]) else s
  }

  predicate LegalIdentifier(n: string) {
    n != "" && IsUpper(n[0]) && forall c :: c in n ==> IsNameChar(c) || c == '_'
  }

  /** `secret://kamex/admin-password` becomes `KAMEX_ADMIN_PASSWORD`; None when no legal name results. */
  function EnvName(reference: string): Option<string> {
    if !IsReference(reference) then None
    else
      var name := StripRight(StripLeft(Collapse(ToUpper(reference[|PREFIX|..]))));
      if LegalIdentifier(name) then Some(name) else None
  }

  /** The `${NAME}` token written into the rendered file. */
  function Placeholder(reference: string): string {
    match EnvName(reference)
    case Some(name) => "${" + name + "}"
    case None => ""
  }

  /** No doubled underscore anywhere. */
  ghost predicate SingleUnderscores(n: string) {
    forall i :: 0 <= i < |n| - 1 ==> !(n[i] == '_' && n[i + 1] == '_')
  }

  /** The shape of every environment name: legal, no leading, trailing or doubled underscore. */
  ghost predicate WellShaped(n: string) {
    LegalIdentifier(n) && n[|n| - 1] != '_' && SingleUnderscores(n)
  }

  lemma {:induction false} CollapseShape(s: string)
    ensures forall c :: c in Collapse(s) ==> IsNameChar(c) || c == '_'
    ensures SingleUnderscores(Collapse(s))
    ensures s != "" && IsNameChar(s[0]) ==> Collapse(s) != "" && Collapse(s)[0] == s[0]
    decreases |s|
  {
    if s == "" {
    } else if IsNameChar(s[0]) {
      CollapseShape(s[1..]);
    } else {
      CollapseShape(SkipPunctuation(s[1..]));
    }
  }

  /** Every name produced is well shaped. */
  lemma EnvNameShape(reference: string)
    requires EnvName(reference).Some?
    ensures WellShaped(EnvName(reference).value)
  {
    hide Collapse, ToUpper, StripLeft, StripRight, SingleUnderscores, LegalIdentifier;
    var body := reference[|PREFIX|..];
    CollapseShape(ToUpper(body));
    StripKeepsShape(Collapse(ToUpper(body)));
    assert EnvName(reference).value == StripRight(StripLeft(Collapse(ToUpper(body))));
    hide EnvName;
    assert EnvName(reference).value != "" by { LegalIsNotEmpty(EnvName(reference).value); }
  }

  lemma LegalIsNotEmpty(n: string)
    requires LegalIdentifier(n)
    ensures n != ""
  {
  }

  lemma StripKeepsShape(s: string)
    requires SingleUnderscores(s)
    ensures
      var n := StripRight(StripLeft(s));
      SingleUnderscores(n) && (n != "" ==> n[|n| - 1] != '_')
  {
    var left := StripLeft(s);
    var n := StripRight(left);
    hide StripLeft, StripRight;
    forall i | 0 <= i < |n| - 1 ensures !(n[i] == '_' && n[i + 1] == '_') {
      assert n[i] == s[|s| - |left| + i] && n[i + 1] == s[|s| - |left| + i + 1];
    }
  }

  lemma {:induction false} CollapseOfName(n: string)
    requires forall c :: c in n ==> IsNameChar(c) || c == '_'
    requires SingleUnderscores(n) && n != "" && n[|n| - 1] != '_'
    ensures Collapse(n) == n
  {
    if IsNameChar(n[0]) {
      if |n| > 1 { CollapseOfName(n[1..]); }
    } else {
      CollapseOfName(n[1..]);
      assert IsNameChar(n[1]);
      assert SkipPunctuation(n[1..]) == n[1..];
    }
  }

  lemma {:induction false} UpperOfName(n: string)
    requires forall c :: c in n ==> IsNameChar(c) || c == '_'
    ensures ToUpper(n) == n
  {
    if n != "" {
      UpperOfName(n[1..]);
      assert n[0] in n && UpperChar(n[0]) == [n[0]];
    }
  }

  lemma StripsNothing(n: string)
    requires n != "" && n[0] != '_' && n[|n| - 1] != '_'
    ensures StripRight(StripLeft(n)) == n
  {
  }

  lemma Prefixed(n: string)
    requires n != ""
    ensures IsReference(PREFIX + n) && (PREFIX + n)[|PREFIX|..] == n
  {
  }

  /** Every well-shaped name is produced, by the reference that spells it: the image is exactly these names. */
  lemma EnvNameOnto(n: string)
    requires WellShaped(n)
    ensures EnvName(PREFIX + n) == Some(n)
  {
    hide ToUpper, Collapse, UpperChar, StripLeft, StripRight, IsReference, SingleUnderscores;
    UpperOfName(n);
    CollapseOfName(n);
    StripsNothing(n);
    Prefixed(n);
  }

  // ---- Names, spelled out ----------------------------------------------------------

  /** The maximal runs of `[A-Z0-9]`. */
  function Runs(s: string): (r: seq<string>)
    ensures s != "" && IsNameChar(s[0]) ==> r != []
  {
    if s == "" then []
    else
      var rest := Runs(s[1..]);
      if !IsNameChar(s[0]) then rest
      else if |s| > 1 && IsNameChar(s[1]) then [[s[0]] + rest[0]] + rest[1..]
      else [[s[0]]] + rest
  }

  predicate NameChars(p: string) { p != "" && forall c :: c in p ==> IsNameChar(c) }

  lemma {:induction false} RunsAreNames(s: string)
    ensures forall p :: p in Runs(s) ==> NameChars(p)
  {
    if s != "" {
      var rest := Runs(s[1..]);
      RunsAreNames(s[1..]);
      if IsNameChar(s[0]) && |s| > 1 && IsNameChar(s[1]) {
        assert rest[0] in rest && NameChars([s[0]] + rest[0]);
        assert forall p :: p in Runs(s) ==> p == [s[0]] + rest[0] || p in rest;
      }
    }
  }

  lemma {:induction false} Skipped(s: string)
    ensures Runs(SkipPunctuation(s)) == Runs(s)
    ensures SkipPunctuation(s) == s[|s| - |SkipPunctuation(s)|..]
  {
    if s != "" && !IsNameChar(s[0]) { Skipped(s[1..]); }
  }

  lemma {:induction false} NoRuns(s: string)
    requires Runs(s) == []
    ensures forall c :: c in s ==> !IsNameChar(c)
  {
    if s != "" {
      NoRuns(s[1..]);
      assert s == [s[0]] + s[1..];
    }
  }

  /** An underscore where a string begins or ends outside the runs. */
  function Edge(c: char): string { if IsNameChar(c) then "" else "_" }

  lemma CollapseStep(s: string)
    requires s != ""
    ensures Collapse(s) ==
      if IsNameChar(s[0]) then [s[0]] + Collapse(s[1..]) else "_" + Collapse(SkipPunctuation(s[1..]))
  {
    hide SkipPunctuation;
  }

  lemma RunsStep(s: string)
    requires s != ""
    ensures !IsNameChar(s[0]) ==> Runs(s) == Runs(s[1..])
    ensures IsNameChar(s[0]) && |s| > 1 && IsNameChar(s[1]) ==>
      Runs(s[1..]) != [] && Runs(s) == [[s[0]] + Runs(s[1..])[0]] + Runs(s[1..])[1..]
    ensures IsNameChar(s[0]) && !(|s| > 1 && IsNameChar(s[1])) ==> Runs(s) == [[s[0]]] + Runs(s[1..])
  {
    hide IsNameChar;
    if |s| > 1 { assert s[1] == s[1..][0]; }
  }

  /** What collapsing leaves: the runs, an underscore between any two, and one at each end that is outside them. */
  ghost predicate IsCollapsed(s: string) {
    if Runs(s) == [] then Collapse(s) == if s == "" then "" else "_"
    else s != "" && Collapse(s) == Edge(s[0]) + (Join(Runs(s), '_') + Edge(s[|s| - 1]))
  }

  lemma {:induction false} CollapsedIsRuns(s: string)
    ensures IsCollapsed(s)
    decreases |s|
  {
    hide IsCollapsed, Collapse, Runs, SkipPunctuation, IsNameChar;
    if s == "" {
      NothingCollapsed();
    } else if !IsNameChar(s[0]) {
      CollapsedIsRuns(SkipPunctuation(s[1..]));
      AfterPunctuation(s);
    } else {
      CollapsedIsRuns(s[1..]);
      FirstOfRun(s);
    }
  }

  lemma NothingCollapsed()
    ensures IsCollapsed("") && Runs("") == [] && Collapse("") == ""
  {
  }

  lemma SameEnd(s: string, t: string)
    requires t != "" && |t| <= |s| && t == s[|s| - |t|..]
    ensures s != "" && t[|t| - 1] == s[|s| - 1]
  {
  }

  lemma LeadingDropped(all: string, rest: string, edge: string, x: string)
    requires all == "_" + rest && rest == edge + x && edge == ""
    ensures all == "_" + x
  {
  }

  lemma OnlyUnderscore(all: string, rest: string)
    requires all == "_" + rest && rest == ""
    ensures all == "_"
  {
  }

  lemma EdgeIs(c: char)
    ensures Edge(c) == if IsNameChar(c) then "" else "_"
  {
  }

  lemma AfterPunctuation(s: string)
    requires s != "" && !IsNameChar(s[0]) && IsCollapsed(SkipPunctuation(s[1..]))
    ensures IsCollapsed(s)
  {
    hide Collapse, Runs, SkipPunctuation, Join, IsNameChar, Edge;
    var t := SkipPunctuation(s[1..]);
    Skipped(s[1..]);
    CollapseStep(s);
    RunsStep(s);
    if t == "" {
      NothingCollapsed();
      OnlyUnderscore(Collapse(s), Collapse(t));
    } else {
      SameEnd(s[1..], t);
      SameEnd(s, s[1..]);
      EdgeIs(s[0]);
      EdgeIs(t[0]);
      LeadingDropped(Collapse(s), Collapse(t), Edge(t[0]), Join(Runs(t), '_') + Edge(t[|t| - 1]));
    }
  }

  lemma FirstOfRun(s: string)
    requires s != "" && IsNameChar(s[0]) && IsCollapsed(s[1..])
    ensures IsCollapsed(s)
  {
    hide Collapse, Runs, Join, IsNameChar;
    var x, t := s[0], s[1..];
    CollapseStep(s);
    RunsStep(s);
    NothingCollapsed();
    JoinOne([x], '_');
    if Runs(t) == [] {
      NoRuns(t);
      if t != "" { assert s[|s| - 1] == t[|t| - 1] && t[|t| - 1] in t; }
      assert [[x]] + [] == [[x]];
    } else {
      assert t != "" && s[|s| - 1] == t[|t| - 1] && s[1] == t[0];
      var j, e := Join(Runs(t), '_'), Edge(t[|t| - 1]);
      if IsNameChar(s[1]) { JoinLongerFirst(x, Runs(t), '_'); } else { JoinTwo([x], Runs(t), '_'); }
      Regrouped([x], Edge(t[0]), j, e);
    }
  }

  lemma Regrouped(x: string, edge: string, j: string, e: string)
    ensures x + (edge + (j + e)) == (x + edge + j) + e && x + "" == x && "" + (x + e) == x + e
  {
  }

  lemma JoinTwo(first: string, rest: seq<string>, c: char)
    requires rest != []
    ensures Join([first] + rest, c) == first + [c] + Join(rest, c)
  {
    assert ([first] + rest)[1..] == rest;
  }

  lemma {:induction false} JoinedEnds(runs: seq<string>)
    requires runs != [] && forall p :: p in runs ==> NameChars(p)
    ensures
      var j := Join(runs, '_');
      j != "" && IsNameChar(j[0]) && IsNameChar(j[|j| - 1]) && forall c :: c in j ==> IsNameChar(c) || c == '_'
  {
    assert runs[0] in runs && runs[0][0] in runs[0] && runs[0][|runs[0]| - 1] in runs[0];
    if |runs| > 1 {
      assert forall p :: p in runs[1..] ==> p in runs;
      JoinedEnds(runs[1..]);
      var rest := Join(runs[1..], '_');
      hide Join;
      JoinTwo(runs[0], runs[1..], '_');
      assert runs == [runs[0]] + runs[1..];
      assert (runs[0] + ['_'] + rest)[|runs[0]| + |rest|] == rest[|rest| - 1];
    }
  }

  lemma LeftStripped(t: string, before: char)
    requires t != "" && t[0] != '_'
    ensures StripLeft(Edge(before) + t) == t
  {
    assert StripLeft(t) == t;
    if !IsNameChar(before) { assert ("_" + t)[1..] == t; } else { assert "" + t == t; }
  }

  lemma RightStripped(j: string, after: char)
    requires j != "" && j[|j| - 1] != '_'
    ensures StripRight(j + Edge(after)) == j
  {
    assert StripRight(j) == j;
    if !IsNameChar(after) { assert (j + "_")[..|j|] == j; } else { assert j + "" == j; }
  }

  lemma BothStripped(j: string, before: char, after: char)
    requires j != "" && IsNameChar(j[0]) && IsNameChar(j[|j| - 1])
    ensures StripRight(StripLeft(Edge(before) + (j + Edge(after)))) == j
  {
    hide StripLeft, StripRight, Edge;
    RightStripped(j, after);
    assert (j + Edge(after))[0] == j[0];
    LeftStripped(j + Edge(after), before);
  }

  lemma StrippedIsRuns(u: string)
    ensures StripRight(StripLeft(Collapse(u))) == Join(Runs(u), '_')
  {
    hide Collapse, StripLeft, StripRight, Runs, Edge, Join, NameChars, IsNameChar;
    NothingLeft();
    CollapsedIsRuns(u);
    if Runs(u) != [] {
      RunsAreNames(u);
      JoinedEnds(Runs(u));
      BothStripped(Join(Runs(u), '_'), u[0], u[|u| - 1]);
    }
  }

  lemma LegalIfLetterFirst(runs: seq<string>)
    requires forall p :: p in runs ==> NameChars(p)
    ensures
      var name := Join(runs, '_');
      LegalIdentifier(name) <==> name != "" && 'A' <= name[0] <= 'Z'
  {
    hide NameChars, Join, IsNameChar, LegalIdentifier;
    if runs == [] {
      NothingJoined(runs);
    } else {
      JoinedEnds(runs);
      LegalMeans(Join(runs, '_'));
    }
  }

  lemma NothingJoined(runs: seq<string>)
    requires runs == []
    ensures Join(runs, '_') == "" && !LegalIdentifier(Join(runs, '_'))
  {
  }

  lemma LegalMeans(n: string)
    requires n != "" && forall c :: c in n ==> IsNameChar(c) || c == '_'
    ensures LegalIdentifier(n) <==> 'A' <= n[0] <= 'Z'
  {
  }

  /**
   * The environment variable of a reference: the runs of letters and digits of its upper-cased
   * path, joined by single underscores, if that begins with a letter; otherwise there is none.
   */
  lemma EnvNameIsItsRuns(path: string)
    ensures
      var name := Join(Runs(ToUpper(path)), '_');
      EnvName(PREFIX + path) == if name != "" && 'A' <= name[0] <= 'Z' then Some(name) else None
  {
    hide ToUpper, Collapse, StripLeft, StripRight, Runs, Join, NameChars, IsReference, LegalIdentifier;
    RunsAreNames(ToUpper(path));
    LegalIfLetterFirst(Runs(ToUpper(path)));
    if path == "" {
      NothingLeft();
      NothingToName();
    } else {
      Prefixed(path);
      StrippedIsRuns(ToUpper(path));
    }
  }

  lemma NothingToName()
    ensures Runs(ToUpper("")) == [] && EnvName(PREFIX + "").None?
  {
  }

  lemma NothingLeft()
    ensures StripRight(StripLeft("")) == "" && StripRight(StripLeft("_")) == "" && Join([], '_') == ""
  {
    assert "_"[1..] == "";
  }

  /** In ASCII, upper-casing changes the lower-case letters and nothing else. */
  lemma {:induction false} UpperInAscii(s: string)
    requires forall c :: c in s ==> c < '\U{80}'
    ensures |ToUpper(s)| == |s|
    ensures forall i :: 0 <= i < |s| ==>
      ToUpper(s)[i] == if 'a' <= s[i] <= 'z' then 'A' + (s[i] - 'a') else s[i]
  {
    hide UpperChar;
    if s != "" {
      assert s[0] in s && forall c :: c in s[1..] ==> c in s;
      UpperInAscii(s[1..]);
      OneUpper(s[0]);
      assert forall i :: 1 <= i < |s| ==> s[i] == s[1..][i - 1];
    }
  }

  lemma OneUpper(c: char)
    requires c < '\U{80}'
    ensures UpperChar(c) == [if 'a' <= c <= 'z' then 'A' + (c - 'a') else c]
  {
  }

  datatype Resolution =
    | Resolvable
    | MissingSecret(references: seq<string>, envNames: seq<string>)
    | InvalidReference(reference: string)

  /** The variable is present and not empty. */
  predicate IsSet(env: map<string, string>, name: string) { name in env && env[name] != "" }

  ghost predicate Backed(env: map<string, string>, reference: string) {
    EnvName(reference).Some? && IsSet(env, EnvName(reference).value)
  }

  /** Succeeds exactly when every reference is valid and backed; otherwise names all the missing ones. */
  method AssertResolvable(env: map<string, string>, references: seq<string>) returns (r: Resolution)
    ensures r.Resolvable? <==> forall ref :: ref in references ==> Backed(env, ref)
    ensures r.Resolvable? ==> forall ref :: ref in references ==>
      EnvName(ref).Some? && EnvName(ref).value in env && env[EnvName(ref).value] != ""
    ensures r.MissingSecret? ==>
      forall i :: 0 <= i < |r.envNames| ==> r.envNames[i] !in env || env[r.envNames[i]] == ""
    ensures r.InvalidReference? <==> exists ref :: ref in references && EnvName(ref).None?
    ensures r.MissingSecret? ==>
      && |r.references| == |r.envNames|
      && (forall ref :: ref in r.references <==> ref in references && !Backed(env, ref))
      && (forall i :: 0 <= i < |r.references| ==> EnvName(r.references[i]) == Some(r.envNames[i]))
  {
    hide EnvName;
    var missingRefs: seq<string> := [];
    var missingNames: seq<string> := [];
    for k := 0 to |references|
      invariant |missingRefs| == |missingNames|
      invariant forall i :: 0 <= i < k ==> EnvName(references[i]).Some?
      invariant forall i :: 0 <= i < |missingRefs| ==> EnvName(missingRefs[i]) == Some(missingNames[i])
      invariant forall i :: 0 <= i < |missingRefs| ==> !IsSet(env, missingNames[i])
      invariant forall ref :: ref in missingRefs ==> ref in references && !Backed(env, ref)
      invariant forall i :: 0 <= i < k ==> references[i] in missingRefs || Backed(env, references[i])
    {
      var ref := references[k];
      assert ref in references;
      var name := EnvName(ref);
      if name.None? {
        assert !Backed(env, ref);
        return InvalidReference(ref);
      }
      assert Backed(env, ref) <==> IsSet(env, name.value);
      if !IsSet(env, name.value) {
        missingRefs := missingRefs + [ref];
        missingNames := missingNames + [name.value];
      }
    }
    if missingRefs == [] { return Resolvable; }
    assert missingRefs[0] in missingRefs;
    return MissingSecret(missingRefs, missingNames);
  }
}
