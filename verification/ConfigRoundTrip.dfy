/**
 * What a rendered file means to its reader: exactly when it reads back to the
 * intended groups and directives, and exactly when a line mentions "include".
 */
module ConfigRoundTrip {
  import opened Text
  import opened ConfigValueSafety
  import opened SecretResolver
  import opened ConfigModel
  import opened ConfigDirectives
  import opened ConfigSyntax
  import opened ConfigRenderer

  /** A property of written values, which may look at how they are written. */
  type Test = (Form, string) -> bool

  /** One line, no quote or backslash, no "include": harmless wherever it is written. */
  ghost predicate Harmless(t: string) { '\n' !in t && '"' !in t && '\\' !in t && !MentionsInclude(t) }

  ghost predicate PassesHarmless(ok: Test) { forall f, t :: f != Token && Harmless(t) ==> ok(f, t) }

  /** Every value passes, and the quoted ones need no escaping. */
  ghost predicate AllOk(es: seq<Entry>, ok: Test) {
    forall e :: e in es ==> ok(e.form, e.text) && (e.form == Quoted ==> Harmless(e.text))
  }

  // ---- Fields that reach the file unscreened ---------------------------------------

  predicate RendersLogin(s: EngineSmsc) { s.enabled && (s.kind == Smpp || s.kind == Http) }

  ghost predicate OkIfPresent(v: Option<string>, ok: Test) { Missing(v) || ok(Bare, v.value) }

  ghost predicate SmscFieldsOk(s: EngineSmsc, ok: Test) {
    RendersLogin(s) && Missing(s.usernameSecretRef) ==> OkIfPresent(s.username, ok)
  }

  ghost predicate AliasesOk(s: EngineSmsService, ok: Test) {
    s.aliases == [] || OkIfPresent(Some(Join(s.aliases, ';')), ok)
  }

  ghost predicate SqlboxFieldsOk(m: EngineConfiguration, ok: Test) {
    m.sqlbox.Some? && m.sqlbox.value.enabled ==> ok(Bare, m.sqlbox.value.host) && ok(Bare, m.sqlbox.value.database)
  }

  ghost predicate DlrFieldsOk(m: EngineConfiguration, ok: Test) {
    DbBacked(m) ==> OkIfPresent(m.dlrStorage.value.connectionId, ok) && OkIfPresent(m.dlrStorage.value.table, ok)
  }

  /**
   * The fields validation does not screen: the literal login name of an enabled
   * SMPP or HTTP link, the aliases of a service, the SQLBox host and database,
   * and the connection and table of a database-backed delivery report store.
   */
  ghost predicate UnscreenedFieldsOk(m: EngineConfiguration, ok: Test) {
    && (forall s :: s in m.smsc ==> SmscFieldsOk(s, ok))
    && (forall s :: s in m.smsServices ==> AliasesOk(s, ok))
    && SqlboxFieldsOk(m, ok) && DlrFieldsOk(m, ok)
  }

  ghost predicate SecretOk(ref: Option<string>, ok: Test) { Missing(ref) || ok(Token, Placeholder(ref.value)) }

  ghost predicate SmscSecretsOk(s: EngineSmsc, ok: Test) {
    RendersLogin(s) ==> SecretOk(s.usernameSecretRef, ok) && SecretOk(s.passwordSecretRef, ok)
  }

  ghost predicate SqlboxTokensOk(m: EngineConfiguration, ok: Test) {
    m.sqlbox.Some? && m.sqlbox.value.enabled ==>
      ok(Bare, EnvToken(m.sqlbox.value.usernameEnv)) && ok(Bare, EnvToken(m.sqlbox.value.passwordEnv))
  }

  /** The `${NAME}` tokens the file contains. */
  ghost predicate TokensOk(m: EngineConfiguration, ok: Test) {
    && ok(Token, Placeholder(m.adminSecretRef)) && ok(Token, Placeholder(StatusRef(m)))
    && (forall s :: s in m.smsc ==> SmscSecretsOk(s, ok))
    && (forall u :: u in m.sendsmsUsers ==> ok(Token, Placeholder(u.passwordSecretRef)))
    && SqlboxTokensOk(m, ok)
  }

  // ---- Harmless values -------------------------------------------------------------

  lemma AcceptableIsHarmless(t: string)
    requires Acceptable(t)
    ensures Harmless(t)
  {
    hide MentionsInclude, TrimStart;
    assert IsControl('\n');
  }

  lemma ScreenedIsHarmless(v: Option<string>)
    requires Screened(v) && !Missing(v)
    ensures Harmless(v.value)
  {
    hide Acceptable;
    AcceptableIsHarmless(v.value);
  }

  lemma PlainWordNoMention(t: string)
    requires PlainWord(t)
    ensures !MentionsInclude(t)
  {
  }

  lemma DigitsAreHarmless(t: string)
    requires forall c :: c in t ==> IsDigit(c) || c == '-' || c == '.'
    ensures Harmless(t)
  {
    NoMentionWithoutI(t);
    hide MentionsInclude;
  }

  lemma {:induction false} FractionIsDigits(n: nat, scale: nat)
    ensures forall c :: c in FractionText(n, scale) ==> IsDigit(c)
  {
    if scale != 0 { FractionIsDigits(n / 10, scale - 1); }
  }

  lemma DecimalIsHarmless(d: Decimal)
    ensures Harmless(DecimalText(d))
  {
    var n: nat := if d.unscaled < 0 then -d.unscaled else d.unscaled;
    FractionIsDigits(n, d.scale);
    hide FractionText, NatText;
    DigitsAreHarmless(DecimalText(d));
  }

  lemma {:induction false} JoinIsHarmless(list: seq<string>)
    requires forall e :: e in list ==> Harmless(e)
    ensures Harmless(Join(list, ';'))
  {
    hide MentionsInclude;
    JoinAvoids(list, ';', '\n');
    JoinAvoids(list, ';', '"');
    JoinAvoids(list, ';', '\\');
    MentionInJoin(list, ';');
  }

  lemma WordIsHarmless(w: Word)
    ensures Harmless(w)
  {
    WordIsPlain(w);
    PlainWordNoMention(w);
    hide MentionsInclude, PlainWord;
  }

  lemma LacksU(t: string)
    requires forall c :: c in t ==> LowerChar(c) != 'u'
    ensures !MentionsInclude(t)
  {
  }

  lemma KindsHarmless(k: SmscKind)
    ensures Harmless(KindText(k))
  {
  }

  lemma StoresHarmless(k: DlrStorageKind)
    ensures Harmless(DlrText(k))
  {
    match k
    case Internal => LacksU("internal"); hide MentionsInclude;
    case _ =>
  }

  lemma FlagsHarmless()
    ensures Harmless("true") && Harmless("false") && Harmless("")
  {
  }

  // ---- One kind of directive -------------------------------------------------------

  /** Each kind of directive passes the test exactly when its own text does. */
  ghost predicate Rules(ok: Test) {
    && (forall a, b :: AllOk(a + b, ok) <==> AllOk(a, ok) && AllOk(b, ok))
    && AllOk([], ok)
    && (forall k: Word, v :: AllOk(Str(k, v), ok) <==> OkIfPresent(v, ok))
    && (forall k: Word, v :: Missing(v) || Harmless(v.value) ==> AllOk(Quo(k, v), ok))
    && (forall k: Word, w: Word :: AllOk(Fixed(k, w), ok))
    && (forall k: Word, v :: AllOk(Num(k, v), ok))
    && (forall k: Word, v :: AllOk(Dec(k, v), ok))
    && (forall k: Word, v :: AllOk(Flag(k, v), ok))
    && (forall k: Word, r :: AllOk(Secret(k, r), ok) <==> ok(Token, Placeholder(r)))
  }

  lemma AppendRule(a: seq<Entry>, b: seq<Entry>, ok: Test)
    ensures AllOk(a + b, ok) <==> AllOk(a, ok) && AllOk(b, ok)
  {
    assert forall e :: e in a ==> e in a + b;
    assert forall e :: e in b ==> e in a + b;
  }

  lemma SingleRule(e: Entry, ok: Test)
    ensures AllOk([e], ok) <==> ok(e.form, e.text) && (e.form == Quoted ==> Harmless(e.text))
  {
    assert e in [e];
  }

  lemma AtomRules(ok: Test)
    requires PassesHarmless(ok)
    ensures Rules(ok)
  {
    hide Harmless;
    forall a, b ensures AllOk(a + b, ok) <==> AllOk(a, ok) && AllOk(b, ok) { AppendRule(a, b, ok); }
    forall k: Word, v ensures AllOk(Str(k, v), ok) <==> OkIfPresent(v, ok) {
      if !Missing(v) { SingleRule(Entry(k, Bare, v.value), ok); }
    }
    forall k: Word, v | Missing(v) || Harmless(v.value) ensures AllOk(Quo(k, v), ok) {
      if !Missing(v) { SingleRule(Entry(k, Quoted, v.value), ok); }
    }
    forall k: Word, w: Word ensures AllOk(Fixed(k, w), ok) {
      WordIsHarmless(w);
      SingleRule(Entry(k, Bare, w), ok);
    }
    forall k: Word, v ensures AllOk(Num(k, v), ok) {
      if v.Some? { DigitsAreHarmless(IntText(v.value)); }
    }
    forall k: Word, v ensures AllOk(Dec(k, v), ok) {
      if v.Some? { DecimalIsHarmless(v.value); }
    }
    FlagsHarmless();
    forall k: Word, r ensures AllOk(Secret(k, r), ok) <==> ok(Token, Placeholder(r)) {
      SingleRule(Entry(k, Token, Placeholder(r)), ok);
    }
  }

  lemma ScreenedOk(v: Option<string>, ok: Test)
    requires Screened(v) && PassesHarmless(ok)
    ensures OkIfPresent(v, ok) && (Missing(v) || Harmless(v.value))
  {
    hide Screened, Harmless;
    if !Missing(v) { ScreenedIsHarmless(v); }
  }

  lemma ListOk(k: Word, list: seq<string>, ok: Test)
    requires Rules(ok) && ListScreened(list) && forall e :: e in list ==> e != ""
    ensures AllOk(List(k, list), ok)
  {
    forall e | e in list ensures Harmless(e) {
      hide Screened, Harmless;
      ScreenedIsHarmless(Some(e));
    }
    hide Harmless, Screened, AllOk;
    JoinIsHarmless(list);
  }

  // ---- One kind of group -----------------------------------------------------------

  lemma CoreOk(m: EngineConfiguration, ok: Test)
    requires PassesHarmless(ok)
    ensures AllOk(CoreEntries(m), ok) <==>
      ok(Token, Placeholder(m.adminSecretRef)) && ok(Token, Placeholder(StatusRef(m)))
  {
    hide AllOk, Harmless, Placeholder, StatusRef, Str, Num, Secret, DlrText, Fixed;
    AtomRules(ok);
    if m.dlrStorage.Some? { StoresHarmless(m.dlrStorage.value.kind); }
  }

  lemma LinkOk(s: EngineSmsc, ok: Test)
    requires PassesHarmless(ok) && Screened(Some(s.id)) && Screened(s.host)
    ensures AllOk(LinkEntries(s), ok)
  {
    hide AllOk, Harmless, Screened, Str, Num, KindText;
    AtomRules(ok);
    KindsHarmless(s.kind);
    ScreenedOk(Some(s.id), ok);
    ScreenedOk(s.host, ok);
  }

  lemma CommonOk(s: EngineSmsc, ok: Test)
    requires PassesHarmless(ok) && Screened(s.altCharset)
    ensures AllOk(CommonEntries(s), ok)
  {
    AtomRules(ok);
    ScreenedOk(s.altCharset, ok);
    hide AllOk, Harmless, Screened, Str, Num, Dec;
  }

  lemma BlankIsInvalid()
    ensures !RoutingEntryValid("")
  {
  }

  lemma RoutingOk(s: EngineSmsc, ok: Test)
    requires PassesHarmless(ok) && RoutingValid(s) && forall list :: list in RoutingLists(s) ==> ListScreened(list)
    ensures AllOk(RoutingEntries(s), ok)
  {
    AtomRules(ok);
    BlankIsInvalid();
    var lists := RoutingLists(s);
    hide AllOk, Harmless, Screened, RoutingEntryValid, List;
    forall k: Word, i | 0 <= i < 6 ensures AllOk(List(k, lists[i]), ok) {
      assert lists[i] in lists && RoutingListValid(lists[i]);
      ListOk(k, lists[i], ok);
    }
    hide Rules, RoutingLists, ListScreened, RoutingValid;
    assert lists == [ListOf(s.allowedSmscIds), ListOf(s.deniedSmscIds), ListOf(s.preferredSmscIds),
      ListOf(s.allowedPrefixes), ListOf(s.deniedPrefixes), ListOf(s.preferredPrefixes)] by { RoutingListsAre(s); }
    hide ListOf;
    SixAppend(List(ALLOWED_SMSC_ID, lists[0]), List(DENIED_SMSC_ID, lists[1]), List(PREFERRED_SMSC_ID, lists[2]),
      List(ALLOWED_PREFIX, lists[3]), List(DENIED_PREFIX, lists[4]), List(PREFERRED_PREFIX, lists[5]), ok);
  }

  lemma RoutingListsAre(s: EngineSmsc)
    ensures RoutingLists(s) == [ListOf(s.allowedSmscIds), ListOf(s.deniedSmscIds), ListOf(s.preferredSmscIds),
      ListOf(s.allowedPrefixes), ListOf(s.deniedPrefixes), ListOf(s.preferredPrefixes)]
  {
  }

  lemma SixAppend(a: seq<Entry>, b: seq<Entry>, c: seq<Entry>, d: seq<Entry>, e: seq<Entry>, f: seq<Entry>, ok: Test)
    requires AllOk(a, ok) && AllOk(b, ok) && AllOk(c, ok) && AllOk(d, ok) && AllOk(e, ok) && AllOk(f, ok)
    ensures AllOk(a + b + c + d + e + f, ok)
  {
    hide AllOk;
    AppendRule(a, b, ok);
    AppendRule(a + b, c, ok);
    AppendRule(a + b + c, d, ok);
    AppendRule(a + b + c + d, e, ok);
    AppendRule(a + b + c + d + e, f, ok);
  }

  lemma LoginRule(k: Word, k': Word, s: EngineSmsc, ok: Test)
    requires Rules(ok)
    ensures AllOk(SecretOr(k, s.usernameSecretRef, s.username), ok) && AllOk(SecretIf(k', s.passwordSecretRef), ok) <==>
      && (Missing(s.usernameSecretRef) ==> OkIfPresent(s.username, ok))
      && SecretOk(s.usernameSecretRef, ok) && SecretOk(s.passwordSecretRef, ok)
  {
    hide AllOk, Harmless, Placeholder, Str, Secret;
  }

  lemma SystemTypeOk(v: Option<string>, ok: Test)
    requires PassesHarmless(ok) && Screened(v)
    ensures AllOk(SystemTypeEntry(v), ok)
  {
    hide AllOk, Harmless, Screened, Str;
    AtomRules(ok);
    ScreenedOk(v, ok);
    FlagsHarmless();
    SingleRule(Entry(SYSTEM_TYPE, Quoted, ""), ok);
  }

  lemma SmppOk(s: EngineSmsc, ok: Test)
    requires PassesHarmless(ok) && Screened(s.systemType) && Screened(s.addressRange)
    ensures AllOk(SmppEntries(s), ok) <==>
      && (Missing(s.usernameSecretRef) ==> OkIfPresent(s.username, ok))
      && SecretOk(s.usernameSecretRef, ok) && SecretOk(s.passwordSecretRef, ok)
  {
    hide AllOk, Harmless, SmppBindEntries, SmppNumberingEntries, SmppTuningEntries, SmppSwitchEntries;
    hide SecretOk, OkIfPresent, Screened;
    var bindMode := if s.bindMode.None? then Transceiver else s.bindMode.value;
    SmppBindOk(s, bindMode, ok);
    SmppNumberingOk(s, ok);
    SmppTuningOk(s, ok);
    SmppSwitchOk(s, ok);
    AppendRule(SmppBindEntries(s, bindMode), SmppNumberingEntries(s), ok);
    var front := SmppBindEntries(s, bindMode) + SmppNumberingEntries(s);
    AppendRule(front, SmppTuningEntries(s), ok);
    AppendRule(front + SmppTuningEntries(s), SmppSwitchEntries(s), ok);
  }

  lemma SmppNumberingOk(s: EngineSmsc, ok: Test)
    requires PassesHarmless(ok)
    ensures AllOk(SmppNumberingEntries(s), ok)
  {
    hide AllOk, Harmless, Num;
    hide SOURCE_ADDR_TON, SOURCE_ADDR_NPI, DEST_ADDR_TON, DEST_ADDR_NPI;
    AtomRules(ok);
  }

  lemma SmppTuningOk(s: EngineSmsc, ok: Test)
    requires PassesHarmless(ok)
    ensures AllOk(SmppTuningEntries(s), ok)
  {
    hide AllOk, Harmless, Num;
    hide MAX_PENDING_SUBMITS, ENQUIRE_LINK_INTERVAL, WAIT_ACK, WAIT_ACK_EXPIRE, CONNECTION_TIMEOUT;
    AtomRules(ok);
  }

  lemma SmppSwitchOk(s: EngineSmsc, ok: Test)
    requires PassesHarmless(ok)
    ensures AllOk(SmppSwitchEntries(s), ok)
  {
    hide AllOk, Harmless, Flag, RETRY, USE_SSL;
    AtomRules(ok);
  }

  lemma SmppBindOk(s: EngineSmsc, bindMode: BindMode, ok: Test)
    requires PassesHarmless(ok) && Screened(s.systemType) && Screened(s.addressRange)
    ensures AllOk(SmppBindEntries(s, bindMode), ok) <==>
      && (Missing(s.usernameSecretRef) ==> OkIfPresent(s.username, ok))
      && SecretOk(s.usernameSecretRef, ok) && SecretOk(s.passwordSecretRef, ok)
  {
    hide AllOk, Harmless, Screened, Str, Num, SecretOr, SecretIf, SystemTypeEntry, SecretOk;
    hide RECEIVE_PORT, SMSC_USERNAME, SMSC_PASSWORD, INTERFACE_VERSION, ADDRESS_RANGE, TRANSCEIVER_MODE;
    AtomRules(ok);
    LoginRule(SMSC_USERNAME, SMSC_PASSWORD, s, ok);
    SystemTypeOk(s.systemType, ok);
    ScreenedOk(s.addressRange, ok);
  }

  lemma HttpOk(s: EngineSmsc, ok: Test)
    requires PassesHarmless(ok) && Screened(s.systemType) && Screened(s.sendUrl)
    ensures AllOk(HttpEntries(s), ok) <==>
      && (Missing(s.usernameSecretRef) ==> OkIfPresent(s.username, ok))
      && SecretOk(s.usernameSecretRef, ok) && SecretOk(s.passwordSecretRef, ok)
  {
    hide AllOk, Harmless, Screened, Str, Quo, SecretOr, SecretIf, SecretOk, Fixed;
    AtomRules(ok);
    LoginRule(USERNAME, PASSWORD, s, ok);
    ScreenedOk(s.systemType, ok);
    ScreenedOk(s.sendUrl, ok);
  }

  lemma AdapterOk(s: EngineSmsc, ok: Test)
    requires PassesHarmless(ok) && SmscScreened(s) && s.enabled
    ensures AllOk(AdapterEntries(s), ok) <==> SmscFieldsOk(s, ok) && SmscSecretsOk(s, ok)
  {
    hide AllOk, Harmless, Screened, SmppEntries, HttpEntries, SecretOk, OkIfPresent, RoutingLists, ListScreened;
    match s.kind
    case Smpp => SmppOk(s, ok);
    case Http => HttpOk(s, ok);
    case _ => EmptyOk(ok);
  }

  lemma EmptyOk(ok: Test)
    ensures AllOk([], ok)
  {
  }

  /** An enabled link passes exactly when its unscreened login name and its tokens do. */
  lemma SmscOk(s: EngineSmsc, ok: Test)
    requires PassesHarmless(ok) && SmscScreened(s) && RoutingValid(s) && s.enabled
    ensures AllOk(SmscSection(s).entries, ok) <==> SmscFieldsOk(s, ok) && SmscSecretsOk(s, ok)
  {
    assert forall list :: list in RoutingLists(s) ==> ListScreened(list);
    LinkOk(s, ok);
    CommonOk(s, ok);
    RoutingOk(s, ok);
    AdapterOk(s, ok);
    hide AllOk, Harmless, LinkEntries, AdapterEntries, CommonEntries, RoutingEntries, SmscFieldsOk, SmscSecretsOk;
    hide SmscScreened, RoutingValid;
    var l, a, c, r := LinkEntries(s), AdapterEntries(s), CommonEntries(s), RoutingEntries(s);
    AppendRule(l, a, ok);
    AppendRule(l + a, c, ok);
    AppendRule(l + a + c, r, ok);
  }

  lemma SmsboxOk(b: EngineSmsbox, logLevel: nat, ok: Test)
    requires PassesHarmless(ok) && SmsboxScreened(b)
    ensures AllOk(SmsboxSection(b, logLevel).entries, ok)
  {
    hide AllOk, Harmless, Screened, Str, Num, Fixed;
    AtomRules(ok);
    ScreenedOk(Some(b.bearerboxHost), ok);
    ScreenedOk(b.smsboxId, ok);
    ScreenedOk(b.globalSender, ok);
  }

  lemma UserOk(u: EngineSendsmsUser, ok: Test)
    requires PassesHarmless(ok) && UserScreened(u)
    ensures AllOk(UserSection(u).entries, ok) <==> ok(Token, Placeholder(u.passwordSecretRef))
  {
    hide AllOk, Harmless, Screened, Str, Num, Flag, Secret, Placeholder;
    AtomRules(ok);
    ScreenedOk(Some(u.username), ok);
    ScreenedOk(u.allowedIps, ok);
    ScreenedOk(u.defaultSender, ok);
    ScreenedOk(u.forcedSmsc, ok);
    ScreenedOk(u.defaultSmsc, ok);
  }

  lemma ReplyFlagsOk(s: EngineSmsService, ok: Test)
    requires PassesHarmless(ok)
    ensures AllOk(ReplyFlagEntries(s), ok)
  {
    hide AllOk, Harmless, Num, Flag;
    hide MAX_MESSAGES, CONCATENATION, CATCH_ALL, OMIT_EMPTY, ACCEPT_X_KANNEL_HEADERS, SEND_SENDER;
    AtomRules(ok);
  }

  lemma AliasOk(s: EngineSmsService, ok: Test)
    requires Rules(ok)
    ensures AllOk(AliasEntries(s), ok) <==> AliasesOk(s, ok)
  {
    hide AllOk, Harmless, Str, Join, OkIfPresent;
  }

  lemma ReplyOk(s: EngineSmsService, ok: Test)
    requires PassesHarmless(ok) && ServiceScreened(s)
    ensures AllOk(ReplyEntries(s), ok) <==> AliasesOk(s, ok)
  {
    hide AllOk, Harmless, Screened, Str, Quo, AliasEntries, AliasesOk;
    AtomRules(ok);
    AliasOk(s, ok);
    ScreenedOk(Some(s.keyword), ok);
    ScreenedOk(s.text, ok);
    ScreenedOk(s.getUrl, ok);
    ScreenedOk(s.postUrl, ok);
  }

  lemma ServiceOk(s: EngineSmsService, ok: Test)
    requires PassesHarmless(ok) && ServiceScreened(s)
    ensures AllOk(ServiceSection(s).entries, ok) <==> AliasesOk(s, ok)
  {
    ReplyOk(s, ok);
    ReplyFlagsOk(s, ok);
    hide AllOk, ReplyEntries, ReplyFlagEntries, AliasesOk, ServiceScreened;
    AppendRule(ReplyEntries(s), ReplyFlagEntries(s), ok);
  }

  lemma SqlboxOk(b: EngineSqlbox, ok: Test)
    requires PassesHarmless(ok) && b.host != "" && b.database != ""
    ensures AllOk(SqlboxEntries(b), ok) <==>
      ok(Bare, b.host) && ok(Bare, b.database) && ok(Bare, EnvToken(b.usernameEnv)) && ok(Bare, EnvToken(b.passwordEnv))
  {
    AtomRules(ok);
    assert EnvToken(b.usernameEnv) != "" && EnvToken(b.passwordEnv) != "";
    hide AllOk, Harmless, Str, Num, Fixed, EnvToken;
  }

  lemma DlrOk(d: EngineDlrStorage, ok: Test)
    requires PassesHarmless(ok)
    ensures AllOk(DlrEntries(d), ok) <==> OkIfPresent(d.connectionId, ok) && OkIfPresent(d.table, ok)
  {
    hide AllOk, Harmless, Str, Fixed, DlrFieldEntries;
    AtomRules(ok);
    DlrFieldsFixed(ok);
  }

  lemma DlrFieldsFixed(ok: Test)
    requires Rules(ok)
    ensures AllOk(DlrFieldEntries(), ok)
  {
    hide AllOk, Harmless, Fixed;
  }
}
