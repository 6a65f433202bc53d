/**
 * The line syntax of a rendered engine configuration, a reference reader for it,
 * and the exact condition under which reading gives back what was written.
 */
module ConfigSyntax {
  import opened Text
  import opened ConfigDirectives

  /**
   * How a value is written: bare by `push`, in quotes and escaped by `quoted`, or
   * bare as the `${NAME}` token that stands for a secret reference.
   */
  datatype Form = Bare | Quoted | Token

  /** One intended directive. */
  datatype Entry = Entry(key: Word, form: Form, text: string)

  /** One intended group: the blank and comment lines before it, its name, its directives. */
  datatype Section = Section(preamble: Preamble, name: GroupName, entries: seq<Entry>)

  // ---- Writing ---------------------------------------------------------------------

  function ReplaceChar(s: string, c: char, sub: string): string {
    if s == "" then "" else (if s[0] == c then sub else [s[0]]) + ReplaceChar(s[1..], c, sub)
  }

  /** Backslash first, then quote, as two passes. */
  function Escape(v: string): string {
    ReplaceChar(ReplaceChar(v, '\\', "\\\\"), '"', "\\\"")
  }

  function Written(e: Entry): string {
    match e.form
    case Quoted => "\"" + Escape(e.text) + "\""
    case _ => e.text
  }

  function Assignment(key: string, value: string): string { key + " = " + value }

  function EntryLine(e: Entry): string { Assignment(e.key, Written(e)) }

  function EntryLines(es: seq<Entry>): seq<string> { seq(|es|, i requires 0 <= i < |es| => EntryLine(es[i])) }

  function HeaderLine(s: Section): string { Assignment("group", GroupText(s.name)) }

  function Comment(words: seq<string>): string { Join(words, ' ') }

  /** The notice above the file has no blank line before it; every later group has one. */
  function PreambleLines(p: Preamble): seq<string> {
    var ws := NoticeWords(p);
    (if p == FileNotice then [] else [""]) + seq(|ws|, i requires 0 <= i < |ws| => Comment(ws[i]))
  }

  function SectionLines(s: Section): seq<string> {
    PreambleLines(s.preamble) + [HeaderLine(s)] + EntryLines(s.entries)
  }

  function Lines(ss: seq<Section>): seq<string> {
    if ss == [] then [] else Lines(ss[..|ss| - 1]) + SectionLines(ss[|ss| - 1])
  }

  /** The file: every line ended by a newline. */
  function FileText(lines: seq<string>): string { Join(lines, '\n') + "\n" }

  // ---- Reading ---------------------------------------------------------------------

  datatype Group = Group(name: string, directives: seq<(string, string)>)

  /** Splits at the first " = ". */
  function SplitAssignment(s: string): Option<(string, string)> {
    if |s| < 3 then None
    else if s[0] == ' ' && s[1] == '=' && s[2] == ' ' then Some(("", s[3..]))
    else match SplitAssignment(s[1..])
      case None => None
      case Some((k, v)) => Some(([s[0]] + k, v))
  }

  /** The rest of a quoted value after its opening quote. */
  function Unquote(s: string): Option<string> {
    if s == "" then None
    else if s[0] == '"' then (if |s| == 1 then Some("") else None)
    else if s[0] == '\\' then
      if |s| < 2 then None
      else match Unquote(s[2..])
        case None => None
        case Some(r) => Some([s[1]] + r)
    else match Unquote(s[1..])
      case None => None
      case Some(r) => Some([s[0]] + r)
  }

  function ReadValue(t: string): Option<string> {
    if t != "" && t[0] == '"' then Unquote(t[1..]) else Some(t)
  }

  predicate Ignored(line: string) { line == "" || line[0] == '#' }

  /** Adds a directive to the group being read. */
  function AddDirective(done: seq<Group>, key: string, value: string): seq<Group>
    requires done != []
  {
    var last := done[|done| - 1];
    done[..|done| - 1] + [Group(last.name, last.directives + [(key, value)])]
  }

  function ReadLine(line: string, done: seq<Group>): Option<seq<Group>> {
    if Ignored(line) then Some(done)
    else match SplitAssignment(line)
      case None => None
      case Some((key, text)) =>
        match ReadValue(text)
        case None => None
        case Some(value) =>
          if key == "group" then Some(done + [Group(value, [])])
          else if done == [] then None
          else Some(AddDirective(done, key, value))
  }

  /** Reads lines in order, on top of the groups read so far. */
  function ReadLines(lines: seq<string>, done: seq<Group>): Option<seq<Group>> {
    if lines == [] then Some(done)
    else match ReadLines(lines[..|lines| - 1], done)
      case None => None
      case Some(groups) => ReadLine(lines[|lines| - 1], groups)
  }

  function ReadFile(content: string): Option<seq<Group>> { ReadLines(Split(content, '\n'), []) }

  // ---- What reading should give back -----------------------------------------------

  function Pairs(es: seq<Entry>): seq<(string, string)> {
    seq(|es|, i requires 0 <= i < |es| => (es[i].key, es[i].text))
  }

  function Meaning(s: Section): Group { Group(GroupText(s.name), Pairs(s.entries)) }

  function Meanings(ss: seq<Section>): seq<Group> { seq(|ss|, i requires 0 <= i < |ss| => Meaning(ss[i])) }

  /** The value survives being written: one line, and not mistaken for a quoted value. */
  ghost predicate Survives(e: Entry) {
    '\n' !in e.text && (e.form != Quoted ==> !StartsWith(e.text, "\""))
  }

  ghost predicate AllSurvive(ss: seq<Section>) {
    forall s :: s in ss ==> forall e :: e in s.entries ==> Survives(e)
  }

  // ---- Escaping --------------------------------------------------------------------

  lemma Associates(a: string, b: string, c: string)
    ensures (a + b) + c == a + (b + c)
  {
  }

  lemma ReplaceCons(x: char, s: string, c: char, sub: string)
    ensures ReplaceChar([x] + s, c, sub) == (if x == c then sub else [x]) + ReplaceChar(s, c, sub)
  {
    assert ([x] + s)[1..] == s;
  }

  lemma {:induction false} ReplaceAppend(a: string, b: string, c: char, sub: string)
    ensures ReplaceChar(a + b, c, sub) == ReplaceChar(a, c, sub) + ReplaceChar(b, c, sub)
  {
    if |a| == 0 {
      assert a + b == b;
      assert ReplaceChar(a, c, sub) == [];
    } else {
      hide ReplaceChar;
      var x, rest := a[0], a[1..];
      assert a == [x] + rest && a + b == [x] + (rest + b);
      ReplaceCons(x, rest, c, sub);
      ReplaceCons(x, rest + b, c, sub);
      ReplaceAppend(rest, b, c, sub);
      Associates(if x == c then sub else [x], ReplaceChar(rest, c, sub), ReplaceChar(b, c, sub));
    }
  }

  lemma ReplaceOne(x: char, c: char, sub: string)
    ensures ReplaceChar([x], c, sub) == if x == c then sub else [x]
  {
    assert [x][1..] == "";
    assert ReplaceChar("", c, sub) == "";
    assert sub + "" == sub && [x] + "" == [x];
  }

  lemma EscapeOne(x: char)
    ensures Escape([x]) == if x == '"' || x == '\\' then ['\\', x] else [x]
  {
    ReplaceOne(x, '\\', "\\\\");
    ReplaceOne('\\', '"', "\\\"");
    ReplaceOne(x, '"', "\\\"");
    ReplaceAppend(['\\'], ['\\'], '"', "\\\"");
    hide ReplaceChar;
    assert "\\\\" == ['\\'] + ['\\'];
  }

  lemma EscapeStep(v: string)
    requires v != ""
    ensures Escape(v) == (if v[0] == '"' || v[0] == '\\' then ['\\', v[0]] else [v[0]]) + Escape(v[1..])
  {
    hide ReplaceChar;
    assert v == [v[0]] + v[1..];
    ReplaceAppend([v[0]], v[1..], '\\', "\\\\");
    ReplaceAppend(ReplaceChar([v[0]], '\\', "\\\\"), ReplaceChar(v[1..], '\\', "\\\\"), '"', "\\\"");
    EscapeOne(v[0]);
  }

  /** Reading a quoted value undoes escaping, for every value. */
  lemma {:induction false} UnquoteOfEscape(v: string)
    ensures Unquote(Escape(v) + "\"") == Some(v)
  {
    if v != "" {
      EscapeStep(v);
      UnquoteOfEscape(v[1..]);
      var rest := Escape(v[1..]) + "\"";
      hide Escape;
      var s := Escape(v) + "\"";
      if v[0] == '"' || v[0] == '\\' {
        assert s == ['\\', v[0]] + rest;
        assert s[2..] == rest;
      } else {
        assert s == [v[0]] + rest;
        assert s[1..] == rest;
      }
      assert [v[0]] + v[1..] == v;
    }
  }

  lemma {:induction false} EscapeAddsNoNewline(v: string)
    ensures '\n' in Escape(v) <==> '\n' in v
  {
    if v != "" {
      EscapeStep(v);
      EscapeAddsNoNewline(v[1..]);
      hide Escape;
    }
  }

  lemma {:induction false} EscapeOfPlain(v: string)
    requires '"' !in v && '\\' !in v
    ensures Escape(v) == v
  {
    if v != "" {
      EscapeStep(v);
      EscapeOfPlain(v[1..]);
      hide Escape;
    }
  }

  lemma {:induction false} UnquoteShrinks(s: string)
    ensures Unquote(s).Some? ==> |Unquote(s).value| < |s|
    ensures Unquote(s).Some? && '\n' !in s ==> '\n' !in Unquote(s).value
    decreases |s|
  {
    if s == "" || s[0] == '"' {
    } else if s[0] == '\\' {
      if |s| >= 2 { UnquoteShrinks(s[2..]); }
    } else {
      UnquoteShrinks(s[1..]);
    }
  }

  /** A directive on one line is read back as written exactly when its value survives. */
  lemma ReadsBack(e: Entry)
    requires '\n' !in e.text
    ensures ReadValue(Written(e)) == Some(e.text) <==> Survives(e)
  {
    match e.form
    case Quoted =>
      UnquoteOfEscape(e.text);
      assert Written(e)[1..] == Escape(e.text) + "\"";
    case _ =>
      if e.text != "" && e.text[0] == '"' { UnquoteShrinks(e.text[1..]); }
  }

  // ---- One line --------------------------------------------------------------------

  lemma {:induction false} SplitsAtKey(key: string, value: string)
    requires ' ' !in key
    ensures SplitAssignment(Assignment(key, value)) == Some((key, value))
  {
    var s := Assignment(key, value);
    if key == "" {
      assert s == " = " + value;
    } else {
      assert s[1..] == Assignment(key[1..], value);
      SplitsAtKey(key[1..], value);
      assert [key[0]] + key[1..] == key;
    }
  }

  lemma EntryLineReads(e: Entry, done: seq<Group>)
    requires done != []
    ensures ReadLine(EntryLine(e), done) ==
      match ReadValue(Written(e))
      case None => None
      case Some(value) => Some(AddDirective(done, e.key, value))
  {
    WordIsPlain(e.key);
    hide Written;
    SplitsAtKey(e.key, Written(e));
  }

  lemma HeaderReads(s: Section, done: seq<Group>)
    ensures ReadLine(HeaderLine(s), done) == Some(done + [Group(GroupText(s.name), [])])
  {
    GroupIsPlain(s.name);
    hide GroupText;
    SplitsAtKey("group", GroupText(s.name));
  }

  lemma EntryLineNewline(e: Entry)
    ensures '\n' in EntryLine(e) <==> '\n' in e.text
  {
    WordIsPlain(e.key);
    hide Escape;
    EscapeAddsNoNewline(e.text);
  }

  // ---- Many lines ------------------------------------------------------------------

  lemma {:induction false} ReadAppend(a: seq<string>, b: seq<string>, done: seq<Group>)
    ensures ReadLines(a + b, done) ==
      match ReadLines(a, done) case None => None case Some(groups) => ReadLines(b, groups)
  {
    if b == [] {
      assert a + b == a;
    } else {
      var n := |b| - 1;
      ReadAppend(a, b[..n], done);
      assert (a + b)[..|a + b| - 1] == a + b[..n];
    }
  }

  lemma {:induction false} ReadIgnored(lines: seq<string>, done: seq<Group>)
    requires forall l :: l in lines ==> Ignored(l)
    ensures ReadLines(lines, done) == Some(done)
  {
    if lines != [] { ReadIgnored(lines[..|lines| - 1], done); }
  }

  /** The pairs a reader gets from the lines of `es`. */
  function ReadPairs(es: seq<Entry>): Option<seq<(string, string)>> {
    if es == [] then Some([])
    else
      var e := es[|es| - 1];
      match ReadPairs(es[..|es| - 1])
      case None => None
      case Some(ps) =>
        match ReadValue(Written(e))
        case None => None
        case Some(value) => Some(ps + [(e.key, value)])
  }

  lemma ReadLinesSnoc(lines: seq<string>, line: string, done: seq<Group>)
    ensures ReadLines(lines + [line], done) ==
      match ReadLines(lines, done) case None => None case Some(groups) => ReadLine(line, groups)
  {
    assert (lines + [line])[..|lines|] == lines;
    hide ReadLine;
  }

  lemma ReadPairsSnoc(es: seq<Entry>, e: Entry)
    ensures ReadPairs(es + [e]) ==
      match ReadPairs(es)
      case None => None
      case Some(ps) =>
        match ReadValue(Written(e)) case None => None case Some(value) => Some(ps + [(e.key, value)])
  {
    assert (es + [e])[..|es|] == es;
    hide ReadValue, Written;
  }

  lemma EntryLinesSnoc(es: seq<Entry>, e: Entry)
    ensures EntryLines(es + [e]) == EntryLines(es) + [EntryLine(e)]
  {
    hide EntryLine;
  }

  lemma NothingRead(done: seq<Group>)
    ensures ReadLines(EntryLines([]), done) == Some(done) && ReadPairs([]) == Some([])
  {
  }

  lemma AddedToLast(before: seq<Group>, g: Group, key: string, value: string)
    ensures AddDirective(before + [g], key, value) == before + [g.(directives := g.directives + [(key, value)])]
  {
    assert (before + [g])[..|before|] == before;
  }

  lemma {:induction false} EntriesRead(es: seq<Entry>, before: seq<Group>, name: string)
    ensures ReadLines(EntryLines(es), before + [Group(name, [])]) ==
      match ReadPairs(es) case None => None case Some(ps) => Some(before + [Group(name, ps)])
  {
    hide ReadLines, ReadPairs, EntryLines, EntryLine, ReadLine, Written, ReadValue, AddDirective;
    var done := before + [Group(name, [])];
    if es == [] {
      NothingRead(done);
    } else {
      var front, e := es[..|es| - 1], es[|es| - 1];
      assert es == front + [e];
      EntriesRead(front, before, name);
      EntryLinesSnoc(front, e);
      ReadLinesSnoc(EntryLines(front), EntryLine(e), done);
      ReadPairsSnoc(front, e);
      if ReadPairs(front).Some? {
        var g := Group(name, ReadPairs(front).value);
        EntryLineReads(e, before + [g]);
        if ReadValue(Written(e)).Some? { AddedToLast(before, g, e.key, ReadValue(Written(e)).value); }
      }
    }
  }

  lemma {:induction false} ReadPairsAt(es: seq<Entry>)
    ensures ReadPairs(es).Some? ==>
      && |ReadPairs(es).value| == |es|
      && forall i :: 0 <= i < |es| ==>
        ReadPairs(es).value[i].0 == es[i].key && ReadValue(Written(es[i])) == Some(ReadPairs(es).value[i].1)
    ensures (forall i :: 0 <= i < |es| ==> ReadValue(Written(es[i])).Some?) ==> ReadPairs(es).Some?
  {
    hide Written, ReadValue;
    if es != [] { ReadPairsAt(es[..|es| - 1]); }
  }

  /** A reader gets the intended pairs exactly when every value survives. */
  lemma PairsReadBack(es: seq<Entry>)
    requires forall e :: e in es ==> '\n' !in e.text
    ensures ReadPairs(es) == Some(Pairs(es)) <==> forall e :: e in es ==> Survives(e)
    ensures ReadPairs(es).Some? ==> |ReadPairs(es).value| == |es|
  {
    hide Written, ReadValue, Survives, ReadPairs;
    ReadPairsAt(es);
    forall i | 0 <= i < |es| ensures ReadValue(Written(es[i])) == Some(es[i].text) <==> Survives(es[i]) {
      assert es[i] in es;
      ReadsBack(es[i]);
    }
    assert forall i :: 0 <= i < |es| ==> Pairs(es)[i] == (es[i].key, es[i].text);
    if forall e :: e in es ==> Survives(e) {
      assert ReadPairs(es).value == Pairs(es);
    }
    if ReadPairs(es) == Some(Pairs(es)) {
      forall e | e in es ensures Survives(e) {
        var i :| 0 <= i < |es| && es[i] == e;
      }
    }
  }

  // ---- Groups and whole files ------------------------------------------------------

  lemma WordsIgnored(ws: seq<string>)
    requires PlainWords(ws)
    ensures Ignored(Comment(ws)) && '\n' !in Comment(ws)
  {
    forall w | w in ws ensures '\n' !in w {
      assert ws == [ws[0]] + ws[1..];
    }
    hide PlainWord;
    JoinAvoids(ws, ' ', '\n');
    assert Comment(ws)[0] == '#';
  }

  lemma PreambleIgnored(p: Preamble)
    ensures forall l :: l in PreambleLines(p) ==> Ignored(l) && '\n' !in l
  {
    NoticesPlain(p);
    hide NoticeWords, PlainWords, Comment;
    forall ws | ws in NoticeWords(p) ensures Ignored(Comment(ws)) && '\n' !in Comment(ws) { WordsIgnored(ws); }
  }

  lemma SectionReads(s: Section, done: seq<Group>)
    ensures ReadLines(SectionLines(s), done) ==
      match ReadPairs(s.entries)
      case None => None
      case Some(ps) => Some(done + [Group(GroupText(s.name), ps)])
  {
    hide ReadLine, EntryLines, ReadPairs, PreambleLines;
    var preamble := PreambleLines(s.preamble);
    var head := preamble + [HeaderLine(s)];
    PreambleIgnored(s.preamble);
    ReadIgnored(preamble, done);
    HeaderReads(s, done);
    assert head[..|head| - 1] == preamble;
    ReadAppend(head, EntryLines(s.entries), done);
    EntriesRead(s.entries, done, GroupText(s.name));
  }

  function ReadSections(ss: seq<Section>): Option<seq<Group>> {
    if ss == [] then Some([])
    else
      var s := ss[|ss| - 1];
      match ReadSections(ss[..|ss| - 1])
      case None => None
      case Some(groups) =>
        match ReadPairs(s.entries)
        case None => None
        case Some(ps) => Some(groups + [Group(GroupText(s.name), ps)])
  }

  lemma {:induction false} LinesRead(ss: seq<Section>)
    ensures ReadLines(Lines(ss), []) == ReadSections(ss)
  {
    if ss != [] {
      var n := |ss| - 1;
      LinesRead(ss[..n]);
      hide SectionLines, ReadPairs;
      ReadAppend(Lines(ss[..n]), SectionLines(ss[n]), []);
      if ReadSections(ss[..n]).Some? {
        SectionReads(ss[n], ReadSections(ss[..n]).value);
      }
    }
  }

  ghost predicate NoNewlines(ss: seq<Section>) {
    forall s :: s in ss ==> forall e :: e in s.entries ==> '\n' !in e.text
  }

  lemma {:induction false} SectionsReadBack(ss: seq<Section>)
    requires NoNewlines(ss)
    ensures ReadSections(ss) == Some(Meanings(ss)) <==> AllSurvive(ss)
    ensures ReadSections(ss).Some? ==> |ReadSections(ss).value| == |ss|
  {
    if ss == [] {
      assert Meanings(ss) == [];
    } else {
      var n := |ss| - 1;
      var s := ss[n];
      assert ss == ss[..n] + [s];
      hide ReadPairs, Pairs, Survives;
      assert AllSurvive(ss) <==> AllSurvive(ss[..n]) && (forall e :: e in s.entries ==> Survives(e));
      assert Meanings(ss) == Meanings(ss[..n]) + [Meaning(s)];
      hide Meanings, AllSurvive;
      SectionsReadBack(ss[..n]);
      PairsReadBack(s.entries);
      if ReadSections(ss) == Some(Meanings(ss)) {
        assert ReadSections(ss).value[..n] == Meanings(ss)[..n];
        assert ReadSections(ss).value[n] == Meanings(ss)[n];
      }
    }
  }

  lemma {:induction false} LineOrigin(ss: seq<Section>, l: string) returns (s: Section)
    requires l in Lines(ss)
    ensures s in ss && l in SectionLines(s)
  {
    hide SectionLines;
    var n := |ss| - 1;
    if l in SectionLines(ss[n]) {
      s := ss[n];
    } else {
      s := LineOrigin(ss[..n], l);
    }
  }

  lemma {:induction false} LineIsWritten(ss: seq<Section>, s: Section, l: string)
    requires s in ss && l in SectionLines(s)
    ensures l in Lines(ss)
  {
    hide SectionLines;
    var n := |ss| - 1;
    if s != ss[n] {
      assert ss == ss[..n] + [ss[n]];
      LineIsWritten(ss[..n], s, l);
    }
  }

  lemma EntryLineOrigin(es: seq<Entry>, l: string)
    ensures l in EntryLines(es) <==> exists e :: e in es && l == EntryLine(e)
  {
    hide EntryLine;
    if l in EntryLines(es) {
      var i :| 0 <= i < |EntryLines(es)| && EntryLines(es)[i] == l;
      assert es[i] in es;
    }
    if exists e :: e in es && l == EntryLine(e) {
      var e :| e in es && l == EntryLine(e);
      var i :| 0 <= i < |es| && es[i] == e;
      assert EntryLines(es)[i] == l;
    }
  }

  lemma SectionHasNoNewline(s: Section, l: string)
    requires l in SectionLines(s) && forall e :: e in s.entries ==> '\n' !in e.text
    ensures '\n' !in l
  {
    EntryLineOrigin(s.entries, l);
    PreambleIgnored(s.preamble);
    hide EntryLine, HeaderLine, EntryLines, PreambleLines;
    if l in EntryLines(s.entries) {
      var e :| e in s.entries && l == EntryLine(e);
      EntryLineNewline(e);
    } else if l == HeaderLine(s) {
      HeaderHasNoNewline(s);
    }
  }

  lemma HeaderHasNoNewline(s: Section)
    ensures '\n' !in HeaderLine(s)
  {
    GroupIsPlain(s.name);
    hide GroupText;
  }

  lemma LinesHaveNoNewline(ss: seq<Section>)
    requires NoNewlines(ss)
    ensures forall l :: l in Lines(ss) ==> '\n' !in l
  {
    hide SectionLines, Lines;
    forall l | l in Lines(ss) ensures '\n' !in l {
      var s := LineOrigin(ss, l);
      SectionHasNoNewline(s, l);
    }
  }

  lemma FileLines(lines: seq<string>)
    requires lines != [] && forall l :: l in lines ==> '\n' !in l
    ensures Split(FileText(lines), '\n') == lines + [""]
  {
    JoinSnoc(lines, "", '\n');
    assert FileText(lines) == Join(lines + [""], '\n');
    SplitOfJoin(lines + [""], '\n');
  }

  // ---- A reader never sees a newline inside a value --------------------------------

  ghost predicate OneLine(groups: seq<Group>) {
    forall g :: g in groups ==> forall d :: d in g.directives ==> '\n' !in d.1
  }

  lemma {:induction false} SplitAssignmentParts(s: string)
    ensures SplitAssignment(s).Some? ==> forall c :: c in SplitAssignment(s).value.1 ==> c in s
  {
    if |s| >= 3 && !(s[0] == ' ' && s[1] == '=' && s[2] == ' ') { SplitAssignmentParts(s[1..]); }
  }

  lemma ReadLineOneLine(line: string, done: seq<Group>)
    requires '\n' !in line && OneLine(done)
    ensures ReadLine(line, done).Some? ==> OneLine(ReadLine(line, done).value)
  {
    SplitAssignmentParts(line);
    if SplitAssignment(line).Some? {
      var text := SplitAssignment(line).value.1;
      if text != "" { UnquoteShrinks(text[1..]); }
      assert ReadValue(text).Some? ==> '\n' !in ReadValue(text).value;
      hide ReadValue, SplitAssignment;
    }
  }

  lemma {:induction false} ReadLinesOneLine(lines: seq<string>, done: seq<Group>)
    requires OneLine(done) && forall l :: l in lines ==> '\n' !in l
    ensures ReadLines(lines, done).Some? ==> OneLine(ReadLines(lines, done).value)
  {
    if lines != [] {
      var n := |lines| - 1;
      ReadLinesOneLine(lines[..n], done);
      hide ReadLine;
      if ReadLines(lines[..n], done).Some? { ReadLineOneLine(lines[n], ReadLines(lines[..n], done).value); }
    }
  }

  /**
   * Reading the written file gives back exactly the intended groups and
   * directives if and only if every value survives: no newline in any value, no
   * bare value that begins like a quoted one.
   */
  lemma RoundTrip(ss: seq<Section>)
    requires ss != []
    ensures ReadFile(FileText(Lines(ss))) == Some(Meanings(ss)) <==> AllSurvive(ss)
  {
    var content := FileText(Lines(ss));
    if ReadFile(content) == Some(Meanings(ss)) {
      ReadLinesOneLine(Split(content, '\n'), []);
      MeaningsOneLine(ss);
    }
    assert AllSurvive(ss) ==> NoNewlines(ss);
    if NoNewlines(ss) {
      LinesHaveNoNewline(ss);
      LinesNonEmpty(ss);
      FileLines(Lines(ss));
      ReadAppend(Lines(ss), [""], []);
      LinesRead(ss);
      SectionsReadBack(ss);
      hide Lines, AllSurvive, Meanings, ReadSections, Split;
      assert forall groups: seq<Group> :: ReadLines([""], groups) == Some(groups) by {
        forall groups: seq<Group> ensures ReadLines([""], groups) == Some(groups) { ReadIgnored([""], groups); }
      }
    }
  }

  lemma LinesNonEmpty(ss: seq<Section>)
    requires ss != []
    ensures Lines(ss) != []
  {
  }

  lemma MeaningsOneLine(ss: seq<Section>)
    requires OneLine(Meanings(ss))
    ensures NoNewlines(ss)
  {
    forall s, e | s in ss && e in s.entries ensures '\n' !in e.text {
      var i :| 0 <= i < |ss| && ss[i] == s;
      var j :| 0 <= j < |s.entries| && s.entries[j] == e;
      assert Meanings(ss)[i] == Meaning(s) && Meaning(s) in Meanings(ss);
      assert Pairs(s.entries)[j] == (e.key, e.text);
      assert Pairs(s.entries)[j] in Meaning(s).directives;
    }
  }
}
