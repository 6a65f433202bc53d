/**
 * The theorems about a rendered configuration file: what it reads back to, what
 * no line of it contains, and which secrets it names.
 */
module ConfigTheorems {
  import opened Text
  import opened Sorting
  import opened ConfigValueSafety
  import opened SecretResolver
  import opened ConfigModel
  import opened ConfigDirectives
  import opened ConfigSyntax
  import opened ConfigRenderer
  import opened ConfigRoundTrip

  // ---- The whole file --------------------------------------------------------------

  ghost predicate SectionsOk(ss: seq<Section>, ok: Test) { forall s :: s in ss ==> AllOk(s.entries, ok) }

  lemma SectionsAppend(a: seq<Section>, b: seq<Section>, ok: Test)
    ensures SectionsOk(a + b, ok) <==> SectionsOk(a, ok) && SectionsOk(b, ok)
  {
    hide AllOk;
    assert forall s :: s in a ==> s in a + b;
    assert forall s :: s in b ==> s in a + b;
  }

  lemma SectionsSingle(s: Section, ok: Test)
    ensures SectionsOk([s], ok) <==> AllOk(s.entries, ok)
  {
    hide AllOk;
    assert s in [s];
  }

  lemma {:induction false} EnabledMembers(ss: seq<EngineSmsc>)
    ensures forall s :: s in Enabled(ss) <==> s in ss && s.enabled
  {
    if ss != [] {
      EnabledMembers(ss[..|ss| - 1]);
      assert ss == ss[..|ss| - 1] + [ss[|ss| - 1]];
    }
  }

  ghost predicate SmscClear(s: EngineSmsc, ok: Test) { SmscFieldsOk(s, ok) && SmscSecretsOk(s, ok) }

  lemma {:induction false} SmscSectionsOk(ss: seq<EngineSmsc>, ok: Test)
    requires PassesHarmless(ok) && forall s :: s in ss ==> SmscScreened(s) && RoutingValid(s) && s.enabled
    ensures SectionsOk(SmscSections(ss), ok) <==> forall s :: s in ss ==> SmscClear(s, ok)
  {
    hide SmscScreened, RoutingValid, SmscFieldsOk, SmscSecretsOk, AllOk, SmscSection, PassesHarmless;
    if ss != [] {
      var n := |ss| - 1;
      assert ss == ss[..n] + [ss[n]];
      SmscSectionsOk(ss[..n], ok);
      SmscOk(ss[n], ok);
      SectionsAppend(SmscSections(ss[..n]), [SmscSection(ss[n])], ok);
      SectionsSingle(SmscSection(ss[n]), ok);
      hide SectionsOk;
    }
  }

  lemma {:induction false} UserSectionsOk(us: seq<EngineSendsmsUser>, ok: Test)
    requires PassesHarmless(ok) && forall u :: u in us ==> UserScreened(u)
    ensures SectionsOk(UserSections(us), ok) <==> forall u :: u in us ==> ok(Token, Placeholder(u.passwordSecretRef))
  {
    hide UserScreened, Placeholder, AllOk, UserSection, PassesHarmless;
    if us != [] {
      var n := |us| - 1;
      assert us == us[..n] + [us[n]];
      UserSectionsOk(us[..n], ok);
      UserOk(us[n], ok);
      SectionsAppend(UserSections(us[..n]), [UserSection(us[n])], ok);
      SectionsSingle(UserSection(us[n]), ok);
      hide SectionsOk;
    }
  }

  lemma {:induction false} ServiceSectionsOk(ss: seq<EngineSmsService>, ok: Test)
    requires PassesHarmless(ok) && forall s :: s in ss ==> ServiceScreened(s)
    ensures SectionsOk(ServiceSections(ss), ok) <==> forall s :: s in ss ==> AliasesOk(s, ok)
  {
    hide ServiceScreened, AliasesOk, AllOk, ServiceSection, PassesHarmless;
    if ss != [] {
      var n := |ss| - 1;
      assert ss == ss[..n] + [ss[n]];
      ServiceSectionsOk(ss[..n], ok);
      ServiceOk(ss[n], ok);
      SectionsAppend(ServiceSections(ss[..n]), [ServiceSection(ss[n])], ok);
      SectionsSingle(ServiceSection(ss[n]), ok);
      hide SectionsOk;
    }
  }

  lemma BoxSectionsOk(m: EngineConfiguration, ok: Test)
    requires PassesHarmless(ok) && (m.smsbox.Some? ==> SmsboxScreened(m.smsbox.value))
    ensures SectionsOk(BoxSections(m), ok)
  {
    hide SmsboxScreened, AllOk, SmsboxSection;
    if m.smsbox.Some? { SmsboxOk(m.smsbox.value, m.logLevel, ok); }
  }

  lemma StoreSectionsOk(m: EngineConfiguration, ok: Test)
    requires PassesHarmless(ok) && SqlboxValid(m)
    ensures SectionsOk(StoreSections(m), ok) <==> SqlboxFieldsOk(m, ok) && SqlboxTokensOk(m, ok) && DlrFieldsOk(m, ok)
  {
    hide AllOk, SqlboxEntries, DlrEntries, EnvToken, OkIfPresent, IsEnvVariable, PassesHarmless;
    var box := if m.sqlbox.None? || !m.sqlbox.value.enabled then [] else [SqlboxSection(m.sqlbox.value)];
    var store := if DbBacked(m) then [DlrSection(m.dlrStorage.value)] else [];
    SectionsAppend(box, store, ok);
    if box != [] {
      SqlboxOk(m.sqlbox.value, ok);
      SectionsSingle(SqlboxSection(m.sqlbox.value), ok);
    }
    if DbBacked(m) {
      DlrOk(m.dlrStorage.value, ok);
      SectionsSingle(DlrSection(m.dlrStorage.value), ok);
    }
  }

  lemma OrderedLinks(m: EngineConfiguration, le: Collation)
    ensures forall s :: s in SmscsInOrder(m, le) <==> s in m.smsc && s.enabled
  {
    EnabledMembers(m.smsc);
    SortIsPermutation(Enabled(m.smsc), ById(le));
  }

  lemma LinksOk(m: EngineConfiguration, le: Collation, ok: Test)
    requires PassesHarmless(ok) && forall s :: s in m.smsc ==> SmscScreened(s) && RoutingValid(s)
    ensures SectionsOk(SmscSections(SmscsInOrder(m, le)), ok) <==>
      (forall s :: s in m.smsc ==> SmscFieldsOk(s, ok)) && (forall s :: s in m.smsc ==> SmscSecretsOk(s, ok))
  {
    OrderedLinks(m, le);
    hide SmscScreened, RoutingValid, AllOk, PassesHarmless, SmscsInOrder, SectionsOk;
    SmscSectionsOk(SmscsInOrder(m, le), ok);
  }

  /** The file passes a test exactly when its unscreened fields and its tokens do. */
  lemma FileOk(m: EngineConfiguration, le: Collation, ok: Test)
    requires ValidModel(m) && PassesHarmless(ok)
    ensures SectionsOk(Sections(m, le), ok) <==> UnscreenedFieldsOk(m, ok) && TokensOk(m, ok)
  {
    hide BoxesValid, CoreValid, DistinctIds, AttributesValid, ConnectionValid, RoutingValid, SqlboxValid;
    hide PassesHarmless, CoreSection, SmscSections, BoxSections, UserSections, ServiceSections, StoreSections, Sections;
    hide SmscScreened, UserScreened, ServiceScreened, SmsboxScreened, AllOk, SectionsOk, Placeholder, StatusRef;
    hide SmscFieldsOk, SmscSecretsOk, AliasesOk, SqlboxFieldsOk, SqlboxTokensOk, DlrFieldsOk;
    CoreIsOk(m, ok);
    LinksOk(m, le, ok);
    BoxSectionsOk(m, ok);
    SortIsPermutation(m.sendsmsUsers, ByUsername(le));
    UserSectionsOk(UsersInOrder(m, le), ok);
    SortIsPermutation(m.smsServices, ByKeyword(le));
    ServiceSectionsOk(ServicesInOrder(m, le), ok);
    StoreSectionsOk(m, ok);
    PartsOk(m, le, ok);
  }

  lemma CoreIsOk(m: EngineConfiguration, ok: Test)
    requires PassesHarmless(ok)
    ensures SectionsOk([CoreSection(m)], ok) <==>
      ok(Token, Placeholder(m.adminSecretRef)) && ok(Token, Placeholder(StatusRef(m)))
  {
    hide AllOk, Placeholder, StatusRef, CoreEntries, SectionsOk;
    CoreOk(m, ok);
    SectionsSingle(CoreSection(m), ok);
  }

  lemma PartsOk(m: EngineConfiguration, le: Collation, ok: Test)
    ensures SectionsOk(Sections(m, le), ok) <==>
      && SectionsOk([CoreSection(m)], ok) && SectionsOk(SmscSections(SmscsInOrder(m, le)), ok)
      && SectionsOk(BoxSections(m), ok) && SectionsOk(UserSections(UsersInOrder(m, le)), ok)
      && SectionsOk(ServiceSections(ServicesInOrder(m, le)), ok) && SectionsOk(StoreSections(m), ok)
  {
    hide SectionsOk, CoreSection, SmscSections, BoxSections, UserSections, ServiceSections, StoreSections, SmscsInOrder;
    hide UsersInOrder, ServicesInOrder;
    var a := [CoreSection(m)];
    var b := a + SmscSections(SmscsInOrder(m, le));
    var c := b + BoxSections(m);
    var d := c + UserSections(UsersInOrder(m, le));
    var e := d + ServiceSections(ServicesInOrder(m, le));
    SectionsAppend(a, SmscSections(SmscsInOrder(m, le)), ok);
    SectionsAppend(b, BoxSections(m), ok);
    SectionsAppend(c, UserSections(UsersInOrder(m, le)), ok);
    SectionsAppend(d, ServiceSections(ServicesInOrder(m, le)), ok);
    SectionsAppend(e, StoreSections(m), ok);
  }

  // ---- Reading the file back -------------------------------------------------------

  /** One line, not beginning like a quoted value. */
  predicate Tame(t: string) { '\n' !in t && !StartsWith(t, "\"") }

  function TameTest(): Test { (f, t) => f == Quoted || Tame(t) }

  function AnyTest(): Test { (f, t) => true }

  lemma TamePassesHarmless()
    ensures PassesHarmless(TameTest())
  {
    hide MentionsInclude;
    forall f: Form, t: string | f != Token && Harmless(t) ensures TameTest()(f, t) {
      if StartsWith(t, "\"") { assert t[0] in t; }
    }
  }

  /** The condition on the unscreened fields, in the caller's terms. */
  ghost predicate UnscreenedFieldsTame(m: EngineConfiguration) { UnscreenedFieldsOk(m, TameTest()) }

  lemma NameTokenTame(name: string)
    requires forall c :: c in name ==> IsNameChar(c) || c == '_'
    ensures Tame(EnvToken(name))
  {
    assert EnvToken(name)[0] == '$';
  }

  lemma PlaceholderTame(ref: string)
    ensures Tame(Placeholder(ref))
  {
    match EnvName(ref)
    case Some(name) =>
      EnvNameShape(ref);
      hide EnvName;
      NameTokenTame(name);
      assert Placeholder(ref) == EnvToken(name);
    case None =>
      hide EnvName;
      assert Placeholder(ref) == "";
  }

  lemma SqlboxTokensTame(m: EngineConfiguration)
    requires SqlboxValid(m)
    ensures SqlboxTokensOk(m, TameTest())
  {
    if m.sqlbox.Some? && m.sqlbox.value.enabled {
      NameTokenTame(m.sqlbox.value.usernameEnv);
      NameTokenTame(m.sqlbox.value.passwordEnv);
    }
    hide EnvToken, Tame;
  }

  lemma TokensTame(m: EngineConfiguration)
    requires SqlboxValid(m)
    ensures TokensOk(m, TameTest())
  {
    SqlboxTokensTame(m);
    hide Placeholder, EnvToken, Tame, StatusRef, SqlboxValid, SqlboxTokensOk;
    PlaceholderTame(m.adminSecretRef);
    PlaceholderTame(StatusRef(m));
    forall s | s in m.smsc ensures SmscSecretsOk(s, TameTest()) {
      if !Missing(s.usernameSecretRef) { PlaceholderTame(s.usernameSecretRef.value); }
      if !Missing(s.passwordSecretRef) { PlaceholderTame(s.passwordSecretRef.value); }
    }
    hide SmscSecretsOk;
    forall u | u in m.sendsmsUsers ensures TameTest()(Token, Placeholder(u.passwordSecretRef)) {
      PlaceholderTame(u.passwordSecretRef);
    }
  }

  lemma AnyPasses(m: EngineConfiguration)
    ensures UnscreenedFieldsOk(m, AnyTest()) && TokensOk(m, AnyTest())
  {
    hide Placeholder, EnvToken, StatusRef, Join;
  }

  lemma QuotedAreHarmless(m: EngineConfiguration, le: Collation)
    requires ValidModel(m)
    ensures SectionsOk(Sections(m, le), AnyTest())
  {
    hide *;
    AnyPasses(m);
    AnyPassesHarmless();
    FileOk(m, le, AnyTest());
  }

  lemma AnyPassesHarmless()
    ensures PassesHarmless(AnyTest())
  {
    hide Harmless;
  }

  lemma SurvivesIffTame(ss: seq<Section>)
    requires SectionsOk(ss, AnyTest())
    ensures AllSurvive(ss) <==> SectionsOk(ss, TameTest())
  {
    hide MentionsInclude;
    forall s, e | s in ss && e in s.entries
      ensures (Survives(e) <==> TameTest()(e.form, e.text)) && (e.form == Quoted ==> Harmless(e.text))
    {
      assert AllOk(s.entries, AnyTest());
    }
    hide Survives, Harmless, TameTest;
  }

  /**
   * The file rendered from a valid model reads back to exactly the intended
   * groups and directives if and only if its unscreened fields are tame; so with
   * them tame no value can start a new directive.
   */
  lemma RenderedFileReadsBack(m: EngineConfiguration, le: Collation)
    requires ValidModel(m)
    ensures ReadFile(Content(m, le)) == Some(Meanings(Sections(m, le))) <==> UnscreenedFieldsTame(m)
  {
    hide SectionsOk, UnscreenedFieldsOk, TokensOk, TameTest, AnyTest, PassesHarmless, SqlboxValid, Sections, AllSurvive;
    hide CoreValid, DistinctIds, SmscValid, BoxesValid, ValuesScreened, Meanings, Lines, FileText, ReadFile;
    TamePassesHarmless();
    TokensTame(m);
    QuotedAreHarmless(m, le);
    FileOk(m, le, TameTest());
    NotEmpty(m, le);
    SurvivesIffTame(Sections(m, le));
    RoundTrip(Sections(m, le));
  }

  lemma NotEmpty(m: EngineConfiguration, le: Collation)
    ensures Sections(m, le) != []
  {
    hide CoreSection, SmscSections, BoxSections, UserSections, ServiceSections, StoreSections;
  }

  // ---- "include" -------------------------------------------------------------------

  function QuietTest(): Test { (f, t) => !MentionsInclude(t) }

  lemma EntryMentions(e: Entry)
    requires e.form == Quoted ==> Harmless(e.text)
    ensures MentionsInclude(EntryLine(e)) <==> MentionsInclude(e.text)
  {
    WordIsPlain(e.key);
    PlainWordNoMention(e.key);
    var key, value := e.key, Written(e);
    assert EntryLine(e) == (key + [' '] + "=") + [' '] + value;
    if e.form == Quoted {
      EscapeOfPlain(e.text);
      assert value == ("" + ['"'] + e.text) + ['"'] + "";
    }
    hide MentionsInclude, Written;
    assert !MentionsInclude("") && !MentionsInclude("=") by { NoShortMention(); }
    MentionAcross(key, ' ', "=");
    MentionAcross(key + [' '] + "=", ' ', value);
    if e.form == Quoted {
      MentionAcross("", '"', e.text);
      MentionAcross("" + ['"'] + e.text, '"', "");
    }
  }

  lemma NoShortMention()
    ensures !MentionsInclude("") && !MentionsInclude("=") && !MentionsInclude("#") && !MentionsInclude("group")
  {
  }

  lemma HeaderQuiet(s: Section)
    ensures !MentionsInclude(HeaderLine(s))
  {
    GroupIsPlain(s.name);
    PlainWordNoMention(GroupText(s.name));
    assert HeaderLine(s) == ("group" + [' '] + "=") + [' '] + GroupText(s.name);
    hide MentionsInclude, GroupText;
    NoShortMention();
    MentionAcross("group", ' ', "=");
    MentionAcross("group" + [' '] + "=", ' ', GroupText(s.name));
  }

  lemma PreambleQuiet(p: Preamble)
    ensures forall l :: l in PreambleLines(p) ==> !MentionsInclude(l)
  {
    NoticesPlain(p);
    NoShortMention();
    hide NoticeWords, MentionsInclude, PlainWord;
    forall ws | ws in NoticeWords(p) ensures !MentionsInclude(Comment(ws)) {
      assert ws == [ws[0]] + ws[1..];
      forall w | w in ws ensures !MentionsInclude(w) {
        if w in ws[1..] { PlainWordNoMention(w); }
      }
      MentionInJoin(ws, ' ');
    }
  }

  lemma SectionQuiet(s: Section)
    requires AllOk(s.entries, AnyTest())
    ensures (forall l :: l in SectionLines(s) ==> !MentionsInclude(l)) <==> AllOk(s.entries, QuietTest())
  {
    hide MentionsInclude, EntryLine, HeaderLine, PreambleLines, Harmless;
    hide EntryLines;
    PreambleQuiet(s.preamble);
    HeaderQuiet(s);
    forall e | e in s.entries ensures MentionsInclude(EntryLine(e)) <==> MentionsInclude(e.text) { EntryMentions(e); }
    forall l ensures l in EntryLines(s.entries) <==> exists e :: e in s.entries && l == EntryLine(e) {
      EntryLineOrigin(s.entries, l);
    }
    if forall l :: l in SectionLines(s) ==> !MentionsInclude(l) {
      forall e | e in s.entries ensures !MentionsInclude(e.text) {
        assert EntryLine(e) in EntryLines(s.entries);
        assert EntryLine(e) in SectionLines(s);
      }
    }
  }

  lemma LinesQuiet(ss: seq<Section>)
    requires SectionsOk(ss, AnyTest())
    ensures (forall l :: l in Lines(ss) ==> !MentionsInclude(l)) <==> SectionsOk(ss, QuietTest())
  {
    hide Lines, SectionLines, MentionsInclude, AllOk;
    forall s | s in ss
      ensures (forall l :: l in SectionLines(s) ==> !MentionsInclude(l)) <==> AllOk(s.entries, QuietTest())
    {
      SectionQuiet(s);
    }
    if SectionsOk(ss, QuietTest()) {
      forall l | l in Lines(ss) ensures !MentionsInclude(l) { var s := LineOrigin(ss, l); }
    }
    if forall l :: l in Lines(ss) ==> !MentionsInclude(l) {
      forall s, l | s in ss && l in SectionLines(s) ensures !MentionsInclude(l) { LineIsWritten(ss, s, l); }
    }
  }

  /**
   * No line of the file rendered from a valid model contains "include", in any
   * case, if and only if no unscreened field and no `${NAME}` token does.
   */
  lemma NoIncludeLine(m: EngineConfiguration, le: Collation)
    requires ValidModel(m)
    ensures (forall l :: l in Lines(Sections(m, le)) ==> !MentionsInclude(l)) <==>
      UnscreenedFieldsOk(m, QuietTest()) && TokensOk(m, QuietTest())
  {
    hide *;
    QuotedAreHarmless(m, le);
    QuietPassesHarmless();
    FileOk(m, le, QuietTest());
    LinesQuiet(Sections(m, le));
  }

  lemma QuietPassesHarmless()
    ensures PassesHarmless(QuietTest())
  {
    hide MentionsInclude;
  }

  // ---- Secrets ---------------------------------------------------------------------

  ghost predicate LinkUses(s: EngineSmsc, ref: string) {
    s.usernameSecretRef == Some(ref) || s.passwordSecretRef == Some(ref)
  }

  /** A reference whose token the file contains. */
  ghost predicate RenderedRef(m: EngineConfiguration, ref: string) {
    || ref == m.adminSecretRef || ref == StatusRef(m)
    || (ref != "" && exists s :: s in m.smsc && RendersLogin(s) && LinkUses(s, ref))
    || (exists u :: u in m.sendsmsUsers && u.passwordSecretRef == ref)
  }

  ghost predicate EmittedToken(ss: seq<Section>, t: string) {
    exists s :: s in ss && exists e :: e in s.entries && e.form == Token && e.text == t
  }

  function NotTokenTest(t: string): Test { (f, x) => f != Token || x != t }

  lemma NotTokenMeans(ss: seq<Section>, t: string)
    requires SectionsOk(ss, AnyTest())
    ensures SectionsOk(ss, NotTokenTest(t)) <==> !EmittedToken(ss, t)
  {
    hide Harmless;
    forall s, e | s in ss && e in s.entries ensures e.form == Quoted ==> Harmless(e.text) {
      assert AllOk(s.entries, AnyTest());
    }
  }

  lemma TokensAvoid(m: EngineConfiguration, t: string)
    ensures TokensOk(m, NotTokenTest(t)) <==> forall ref :: RenderedRef(m, ref) ==> Placeholder(ref) != t
  {
    hide Placeholder, StatusRef, EnvToken;
    if TokensOk(m, NotTokenTest(t)) {
      forall ref | RenderedRef(m, ref) ensures Placeholder(ref) != t {
        if ref != "" && exists s :: s in m.smsc && RendersLogin(s) && LinkUses(s, ref) {
          var s :| s in m.smsc && RendersLogin(s) && LinkUses(s, ref);
          assert SmscSecretsOk(s, NotTokenTest(t));
        }
      }
    }
    if forall ref :: RenderedRef(m, ref) ==> Placeholder(ref) != t {
      assert RenderedRef(m, m.adminSecretRef) && RenderedRef(m, StatusRef(m));
      forall s | s in m.smsc ensures SmscSecretsOk(s, NotTokenTest(t)) {
        if RendersLogin(s) {
          if !Missing(s.usernameSecretRef) {
            assert LinkUses(s, s.usernameSecretRef.value);
            assert RenderedRef(m, s.usernameSecretRef.value);
          }
          if !Missing(s.passwordSecretRef) {
            assert LinkUses(s, s.passwordSecretRef.value);
            assert RenderedRef(m, s.passwordSecretRef.value);
          }
        }
      }
      forall u | u in m.sendsmsUsers ensures NotTokenTest(t)(Token, Placeholder(u.passwordSecretRef)) {
        assert RenderedRef(m, u.passwordSecretRef);
      }
    }
  }

  /** The secret tokens of the file are exactly the placeholders of the rendered references. */
  lemma TokensAreReferences(m: EngineConfiguration, le: Collation, t: string)
    requires ValidModel(m)
    ensures EmittedToken(Sections(m, le), t) <==> exists ref :: RenderedRef(m, ref) && Placeholder(ref) == t
  {
    UnscreenedAreNotTokens(m, t);
    hide *;
    FileOk(m, le, NotTokenTest(t));
    QuotedAreHarmless(m, le);
    NotTokenMeans(Sections(m, le), t);
    TokensAvoid(m, t);
  }

  lemma UnscreenedAreNotTokens(m: EngineConfiguration, t: string)
    ensures UnscreenedFieldsOk(m, NotTokenTest(t)) && PassesHarmless(NotTokenTest(t))
  {
    hide Harmless, Join;
  }

  lemma {:induction false} SmscReferencesAre(ss: seq<EngineSmsc>, ref: string)
    ensures ref in SmscReferences(ss) <==>
      StartsWith(ref, PREFIX) && exists s :: s in ss && s.enabled && LinkUses(s, ref)
  {
    if ss != [] {
      var n := |ss| - 1;
      SmscReferencesAre(ss[..n], ref);
      assert ss == ss[..n] + [ss[n]];
      LinkReferencesAre(ss[n], ref);
      hide RefIfSecret, LinkUses;
    }
  }

  lemma LinkReferencesAre(s: EngineSmsc, ref: string)
    ensures ref in RefIfSecret(s.usernameSecretRef) + RefIfSecret(s.passwordSecretRef) <==>
      StartsWith(ref, PREFIX) && LinkUses(s, ref)
  {
  }

  lemma {:induction false} UserReferencesAre(us: seq<EngineSendsmsUser>, ref: string)
    ensures ref in UserReferences(us) <==> StartsWith(ref, PREFIX) && exists u :: u in us && u.passwordSecretRef == ref
  {
    if us != [] {
      var n := |us| - 1;
      UserReferencesAre(us[..n], ref);
      assert us == us[..n] + [us[n]];
    }
  }

  lemma {:induction false} NamesAre(references: seq<string>, name: string)
    ensures name in NamesOf(references) <==> exists ref :: ref in references && EnvName(ref) == Some(name)
  {
    hide EnvName;
    if references != [] {
      var n := |references| - 1;
      NamesAre(references[..n], name);
      assert references == references[..n] + [references[n]];
    }
  }

  lemma RequiredAre(m: EngineConfiguration, name: string)
    ensures name in RequiredSecrets(m) <==> exists ref :: ref in SecretReferences(m) && EnvName(ref) == Some(name)
  {
    hide EnvName, SecretReferences, NamesOf;
    var names := NamesOf(SecretReferences(m));
    NamesAre(SecretReferences(m), name);
    SortIsPermutation(Dedup(names), LexLe);
  }

  lemma RequiredShaped(m: EngineConfiguration, name: string)
    requires name in RequiredSecrets(m)
    ensures WellShaped(name)
  {
    RequiredAre(m, name);
    hide EnvName, SecretReferences, RequiredSecrets, WellShaped;
    var ref :| ref in SecretReferences(m) && EnvName(ref) == Some(name);
    EnvNameShape(ref);
  }

  /** Sorting a duplicate-free list keeps it duplicate-free. */
  lemma SortedNames(names: seq<string>)
    requires Distinct(names)
    ensures Sorted(Sort(names, LexLe), LexLe) && Distinct(Sort(names, LexLe))
  {
    LexIsTotalOrder();
    hide LexLe;
    assert Orders(LexLe, names);
    SortSorts(names, LexLe);
    SortIsPermutation(names, LexLe);
    DistinctMultiset(names);
    var r := Sort(names, LexLe);
    hide Sort;
    forall i, j | 0 <= i < j < |r| ensures r[i] != r[j] {
      if r[i] == r[j] { RepeatedTwice(r, i, j); }
    }
  }

  /** The report is sorted and free of repetition, and every name on it is well shaped. */
  lemma RequiredSecretsCanonical(m: EngineConfiguration)
    ensures Sorted(RequiredSecrets(m), LexLe) && Distinct(RequiredSecrets(m))
    ensures forall name :: name in RequiredSecrets(m) ==> WellShaped(name)
  {
    hide SecretReferences, NamesOf, WellShaped, Sorted, Distinct, LexLe;
    SortedNames(Dedup(NamesOf(SecretReferences(m))));
    forall name | name in RequiredSecrets(m) ensures WellShaped(name) { RequiredShaped(m, name); }
  }

  lemma RepeatedTwice(s: seq<string>, i: int, j: int)
    requires 0 <= i < j < |s| && s[i] == s[j]
    ensures multiset(s)[s[i]] >= 2
  {
    assert s == s[..j] + [s[j]] + s[j + 1..];
    assert s[..j][i] == s[i] && s[i] in s[..j];
    assert multiset(s) == multiset(s[..j]) + multiset{s[j]} + multiset(s[j + 1..]);
  }

  /** A reference to a login that only a link of another kind than SMPP or HTTP carries. */
  ghost predicate UnrenderedRef(m: EngineConfiguration, ref: string) {
    !RenderedRef(m, ref) && exists s :: s in m.smsc && s.enabled && LinkUses(s, ref)
  }

  lemma LinkPrefix(s: EngineSmsc, ref: string)
    requires ConnectionValid(s) && LinkUses(s, ref) && ref != ""
    ensures StartsWith(ref, PREFIX)
  {
  }

  lemma RenderedPrefix(m: EngineConfiguration, ref: string)
    requires ValidModel(m) && m.statusSecretRef != Some("") && RenderedRef(m, ref)
    ensures StartsWith(ref, PREFIX)
  {
    hide ValuesScreened, ConnectionValid, AttributesValid, RoutingValid, SqlboxValid, DistinctIds, LinkUses;
    hide SecretReferences;
    if ref != m.adminSecretRef && ref != StatusRef(m) {
      if u :| u in m.sendsmsUsers && u.passwordSecretRef == ref {
        assert UserValid(u);
      } else {
        var s :| s in m.smsc && RendersLogin(s) && LinkUses(s, ref);
        assert SmscValid(s);
        LinkPrefix(s, ref);
      }
    }
  }

  lemma ReferencesAre(m: EngineConfiguration, ref: string)
    requires ValidModel(m) && m.statusSecretRef != Some("")
    ensures ref in SecretReferences(m) <==> RenderedRef(m, ref) || (StartsWith(ref, PREFIX) && UnrenderedRef(m, ref))
  {
    hide ValidModel, SmscReferences, UserReferences, StatusRef, LinkUses;
    SmscReferencesAre(m.smsc, ref);
    UserReferencesAre(m.sendsmsUsers, ref);
    if RenderedRef(m, ref) { RenderedPrefix(m, ref); }
    assert StartsWith(ref, PREFIX) ==> ref != "";
  }

  lemma EmittedAre(m: EngineConfiguration, le: Collation, name: string)
    requires ValidModel(m)
    ensures EmittedToken(Sections(m, le), EnvToken(name)) <==>
      exists ref :: RenderedRef(m, ref) && EnvName(ref) == Some(name)
  {
    hide *;
    TokensAreReferences(m, le, EnvToken(name));
    forall ref ensures Placeholder(ref) == EnvToken(name) <==> EnvName(ref) == Some(name) { TokenNames(ref, name); }
  }

  /**
   * Every secret token in the file is named in the report. What the report names
   * beyond the file comes from the unused credentials of an enabled link that
   * renders no login.
   */
  lemma EveryTokenIsRequired(m: EngineConfiguration, le: Collation, name: string)
    requires ValidModel(m) && m.statusSecretRef != Some("")
    ensures EmittedToken(Sections(m, le), EnvToken(name)) ==> name in RequiredSecrets(m)
    ensures name in RequiredSecrets(m) && !EmittedToken(Sections(m, le), EnvToken(name)) ==>
      exists ref :: UnrenderedRef(m, ref) && EnvName(ref) == Some(name)
  {
    hide *;
    EmittedAre(m, le, name);
    RequiredAre(m, name);
    forall ref ensures ref in SecretReferences(m) <==>
      RenderedRef(m, ref) || (StartsWith(ref, PREFIX) && UnrenderedRef(m, ref)) {
      ReferencesAre(m, ref);
    }
  }

  lemma TokenNames(ref: string, name: string)
    ensures Placeholder(ref) == EnvToken(name) <==> EnvName(ref) == Some(name)
  {
    hide EnvName;
    if EnvName(ref).Some? {
      var n := EnvName(ref).value;
      assert EnvToken(n)[2..|EnvToken(n)| - 1] == n;
      assert EnvToken(name)[2..|EnvToken(name)| - 1] == name;
    }
  }

  /** In strict mode, generation can only succeed when every reported variable is set. */
  lemma StrictMeansAllSet(m: EngineConfiguration, env: map<string, string>)
    requires ValidModel(m)
    ensures SecretsBacked(m, env) <==> forall name :: name in RequiredSecrets(m) ==> IsSet(env, name)
  {
    hide ValidModel, RequiredSecrets, SecretReferences, EnvName, IsSet;
    NamesExist(m);
    forall name ensures name in RequiredSecrets(m) <==>
      exists ref :: ref in SecretReferences(m) && EnvName(ref) == Some(name) {
      RequiredAre(m, name);
    }
    if forall name :: name in RequiredSecrets(m) ==> IsSet(env, name) {
      forall ref | ref in SecretReferences(m) ensures Backed(env, ref) {
        assert EnvName(ref).value in RequiredSecrets(m);
      }
    }
  }
}
