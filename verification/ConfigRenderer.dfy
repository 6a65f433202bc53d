/**
 * Rendering of an engine model: the intended groups and directives, the lines
 * they are written as, and the secrets the file depends on
 * (configuration-generator.service.ts, `generate` and `renderKamex`).
 */
module ConfigRenderer {
  import opened Text
  import opened Sorting
  import opened SecretResolver
  import opened ConfigModel
  import opened ConfigDirectives
  import opened ConfigSyntax
  import Validator = ConfigValidator

  /** `localeCompare(a, b) <= 0`. */
  type Collation = (string, string) -> bool

  // ---- One directive ---------------------------------------------------------------

  /** `push` of a string: absent and empty values write nothing. */
  function Str(key: Word, v: Option<string>): seq<Entry> {
    if Missing(v) then [] else [Entry(key, Bare, v.value)]
  }

  function Num(key: Word, v: Option<int>): seq<Entry> {
    if v.None? then [] else [Entry(key, Bare, IntText(v.value))]
  }

  function FractionText(n: nat, scale: nat): string {
    if scale == 0 then "" else FractionText(n / 10, scale - 1) + [DigitChar(n % 10)]
  }

  function WholePart(n: nat, scale: nat): nat {
    if scale == 0 then n else WholePart(n / 10, scale - 1)
  }

  function DecimalText(d: Decimal): string {
    if d.scale == 0 then IntText(d.unscaled)
    else
      var n: nat := if d.unscaled < 0 then -d.unscaled else d.unscaled;
      (if d.unscaled < 0 then "-" else "") + NatText(WholePart(n, d.scale)) + "." + FractionText(n, d.scale)
  }

  function Dec(key: Word, v: Option<Decimal>): seq<Entry> {
    if v.None? then [] else [Entry(key, Bare, DecimalText(v.value))]
  }

  function Flag(key: Word, v: Option<bool>): seq<Entry> {
    if v.None? then [] else [Entry(key, Bare, if v.value then "true" else "false")]
  }

  /** `quoted`: absent and empty values write nothing. */
  function Quo(key: Word, v: Option<string>): seq<Entry> {
    if Missing(v) then [] else [Entry(key, Quoted, v.value)]
  }

  function List(key: Word, list: seq<string>): seq<Entry> {
    if list == [] then [] else Quo(key, Some(Join(list, LIST_SEPARATOR)))
  }

  function Secret(key: Word, reference: string): seq<Entry> { [Entry(key, Token, Placeholder(reference))] }

  /** The secret reference when there is one, otherwise the literal value. */
  function SecretOr(key: Word, reference: Option<string>, literal: Option<string>): seq<Entry> {
    if Missing(reference) then Str(key, literal) else Secret(key, reference.value)
  }

  function SecretIf(key: Word, reference: Option<string>): seq<Entry> {
    if Missing(reference) then [] else Secret(key, reference.value)
  }

  // ---- One group -------------------------------------------------------------------

  /** A value the renderer supplies itself. */
  function Fixed(key: Word, value: Word): seq<Entry> { Str(key, Some(value)) }

  function EnvToken(name: string): string { "${" + name + "}" }

  function KindText(k: SmscKind): string {
    match k case Smpp => "smpp" case Http => "http" case Fake => "fake" case At => "at"
  }

  function DlrText(k: DlrStorageKind): string {
    match k
    case Internal => "internal" case Spool => "spool" case Pgsql => "pgsql" case Mysql => "mysql" case Redis => "redis"
  }

  function CoreEntries(m: EngineConfiguration): seq<Entry> {
    Num(ADMIN_PORT, Some(m.adminPort)) + Num(SMSBOX_PORT, Some(m.smsboxPort))
    + Secret(ADMIN_PASSWORD, m.adminSecretRef) + Secret(STATUS_PASSWORD, StatusRef(m))
    + Num(LOG_LEVEL, Some(m.logLevel)) + Fixed(LOG_FORMAT, JSON)
    + Str(DLR_STORAGE, if m.dlrStorage.None? then None else Some(DlrText(m.dlrStorage.value.kind)))
  }

  function CoreSection(m: EngineConfiguration): Section {
    Section(FileNotice, Core, CoreEntries(m))
  }

  /** An explicitly empty system type is written as `""`; an absent one not at all. */
  function SystemTypeEntry(v: Option<string>): seq<Entry> {
    if v == Some("") then [Entry(SYSTEM_TYPE, Quoted, "")] else Str(SYSTEM_TYPE, v)
  }

  function ReceivePortEntry(s: EngineSmsc, bindMode: BindMode): seq<Entry> {
    if bindMode == Receiver then Num(RECEIVE_PORT, if s.receivePort.Some? then s.receivePort else s.port)
    else if NoPort(s.receivePort) then []
    else Num(RECEIVE_PORT, s.receivePort)
  }

  function SmppLoginEntries(s: EngineSmsc, bindMode: BindMode): seq<Entry> {
    ReceivePortEntry(s, bindMode)
    + SecretOr(SMSC_USERNAME, s.usernameSecretRef, s.username)
    + SecretIf(SMSC_PASSWORD, s.passwordSecretRef)
  }

  function SmppSessionEntries(s: EngineSmsc, bindMode: BindMode): seq<Entry> {
    SystemTypeEntry(s.systemType)
    + Num(INTERFACE_VERSION, s.interfaceVersion)
    + Str(ADDRESS_RANGE, s.addressRange)
    + Num(TRANSCEIVER_MODE, Some(if bindMode == Transceiver then 1 else 0))
  }

  function SmppBindEntries(s: EngineSmsc, bindMode: BindMode): seq<Entry> {
    SmppLoginEntries(s, bindMode) + SmppSessionEntries(s, bindMode)
  }

  function SmppNumberingEntries(s: EngineSmsc): seq<Entry> {
    Num(SOURCE_ADDR_TON, s.sourceAddrTon) + Num(SOURCE_ADDR_NPI, s.sourceAddrNpi)
    + Num(DEST_ADDR_TON, s.destAddrTon) + Num(DEST_ADDR_NPI, s.destAddrNpi)
  }

  function SmppTuningEntries(s: EngineSmsc): seq<Entry> {
    Num(MAX_PENDING_SUBMITS, s.windowSize)
    + Num(ENQUIRE_LINK_INTERVAL, s.keepaliveSeconds)
    + Num(WAIT_ACK, s.waitAckSeconds) + Num(WAIT_ACK_EXPIRE, s.waitAckExpireAction)
    + Num(CONNECTION_TIMEOUT, s.connectionTimeoutSeconds)
  }

  function SmppSwitchEntries(s: EngineSmsc): seq<Entry> {
    Flag(RETRY, if s.retryOnAuthFailure then Some(true) else None)
    + Flag(USE_SSL, if s.useTls then Some(true) else None)
  }

  function SmppEntries(s: EngineSmsc): seq<Entry> {
    SmppBindEntries(s, if s.bindMode.None? then Transceiver else s.bindMode.value)
    + SmppNumberingEntries(s) + SmppTuningEntries(s) + SmppSwitchEntries(s)
  }

  function HttpEntries(s: EngineSmsc): seq<Entry> {
    (if s.systemType.None? then Fixed(SYSTEM_TYPE, KANNEL) else Str(SYSTEM_TYPE, s.systemType))
    + Quo(SEND_URL, s.sendUrl)
    + SecretOr(USERNAME, s.usernameSecretRef, s.username)
    + SecretIf(PASSWORD, s.passwordSecretRef)
  }

  function RoutingEntries(s: EngineSmsc): seq<Entry> {
    List(ALLOWED_SMSC_ID, ListOf(s.allowedSmscIds)) + List(DENIED_SMSC_ID, ListOf(s.deniedSmscIds))
    + List(PREFERRED_SMSC_ID, ListOf(s.preferredSmscIds)) + List(ALLOWED_PREFIX, ListOf(s.allowedPrefixes))
    + List(DENIED_PREFIX, ListOf(s.deniedPrefixes)) + List(PREFERRED_PREFIX, ListOf(s.preferredPrefixes))
  }

  function AdapterEntries(s: EngineSmsc): seq<Entry> {
    match s.kind case Smpp => SmppEntries(s) case Http => HttpEntries(s) case _ => []
  }

  function CommonEntries(s: EngineSmsc): seq<Entry> {
    Dec(THROUGHPUT, s.throughput) + Num(RECONNECT_DELAY, s.reconnectDelaySeconds)
    + Num(MAX_ERROR_COUNT, s.maxErrorCount) + Str(ALT_CHARSET, s.altCharset)
  }

  function LinkEntries(s: EngineSmsc): seq<Entry> {
    Str(SMSC, Some(KindText(s.kind))) + Str(SMSC_ID, Some(s.id))
    + Num(INSTANCES, if s.connectionCount.Some? && s.connectionCount.value > 1 then s.connectionCount else None)
    + Str(HOST, s.host) + Num(PORT, s.port)
  }

  function SmscSection(s: EngineSmsc): Section {
    Section(Blank, SmscGroup, LinkEntries(s) + AdapterEntries(s) + CommonEntries(s) + RoutingEntries(s))
  }

  function SmsboxEntries(b: EngineSmsbox, logLevel: nat): seq<Entry> {
    Str(BEARERBOX_HOST, Some(b.bearerboxHost)) + Num(SENDSMS_PORT, Some(b.sendsmsPort))
    + Str(SMSBOX_ID, b.smsboxId) + Str(GLOBAL_SENDER, b.globalSender)
    + Num(LOG_LEVEL, Some(if b.logLevel.Some? then b.logLevel.value else logLevel))
    + Fixed(LOG_FORMAT, JSON)
  }

  function SmsboxSection(b: EngineSmsbox, logLevel: nat): Section {
    Section(Blank, Smsbox, SmsboxEntries(b, logLevel))
  }

  function UserEntries(u: EngineSendsmsUser): seq<Entry> {
    Str(USERNAME, Some(u.username)) + Secret(PASSWORD, u.passwordSecretRef)
    + Str(USER_ALLOW_IP, u.allowedIps) + Str(DEFAULT_SENDER, u.defaultSender)
    + Num(MAX_MESSAGES, u.maxMessages) + Flag(CONCATENATION, u.concatenation)
    + Str(FORCED_SMSC, u.forcedSmsc) + Str(DEFAULT_SMSC, u.defaultSmsc)
  }

  function UserSection(u: EngineSendsmsUser): Section {
    Section(Blank, SendsmsUser, UserEntries(u))
  }

  function AliasEntries(s: EngineSmsService): seq<Entry> {
    if s.aliases == [] then [] else Str(ALIASES, Some(Join(s.aliases, ';')))
  }

  function ReplyEntries(s: EngineSmsService): seq<Entry> {
    Str(KEYWORD, Some(s.keyword))
    + AliasEntries(s)
    + Quo(TEXT, s.text) + Quo(GET_URL, s.getUrl) + Quo(POST_URL, s.postUrl)
  }

  function ReplyFlagEntries(s: EngineSmsService): seq<Entry> {
    Num(MAX_MESSAGES, s.maxMessages) + Flag(CONCATENATION, s.concatenation) + Flag(CATCH_ALL, s.catchAll)
    + Flag(OMIT_EMPTY, s.omitEmpty) + Flag(ACCEPT_X_KANNEL_HEADERS, s.acceptXKannelHeaders)
    + Flag(SEND_SENDER, s.sendSender)
  }

  function ServiceSection(s: EngineSmsService): Section {
    Section(Blank, SmsService, ReplyEntries(s) + ReplyFlagEntries(s))
  }

  function SqlboxEntries(b: EngineSqlbox): seq<Entry> {
    Fixed(ID, SQLBOX_CONNECTION) + Str(HOST, Some(b.host)) + Num(PORT, Some(b.port)) + Str(DATABASE, Some(b.database))
    + Str(USERNAME, Some(EnvToken(b.usernameEnv))) + Str(PASSWORD, Some(EnvToken(b.passwordEnv)))
  }

  function SqlboxSection(b: EngineSqlbox): Section {
    Section(SqlboxNotice, PgsqlConnection, SqlboxEntries(b))
  }

  function DlrPartyEntries(): seq<Entry> {
    Fixed(FIELD_SMSC, SMSC_COLUMN) + Fixed(FIELD_TIMESTAMP, TIMESTAMP_COLUMN)
    + Fixed(FIELD_DESTINATION, DESTINATION_COLUMN) + Fixed(FIELD_SOURCE, SOURCE_COLUMN)
  }

  function DlrResultEntries(): seq<Entry> {
    Fixed(FIELD_SERVICE, SERVICE_COLUMN) + Fixed(FIELD_URL, URL_COLUMN) + Fixed(FIELD_MASK, MASK_COLUMN)
    + Fixed(FIELD_STATUS, STATUS_COLUMN) + Fixed(FIELD_BOXC_ID, BOXC_COLUMN)
  }

  function DlrFieldEntries(): seq<Entry> { DlrPartyEntries() + DlrResultEntries() }

  function DlrEntries(d: EngineDlrStorage): seq<Entry> {
    Str(ID, d.connectionId) + (if d.table.None? then Fixed(TABLE, DLR_TABLE) else Str(TABLE, d.table))
    + DlrFieldEntries()
  }

  function DlrSection(d: EngineDlrStorage): Section {
    Section(DlrNotice, DlrDb, DlrEntries(d))
  }

  // ---- The whole file --------------------------------------------------------------

  function Enabled(ss: seq<EngineSmsc>): seq<EngineSmsc> {
    if ss == [] then []
    else Enabled(ss[..|ss| - 1]) + (if ss[|ss| - 1].enabled then [ss[|ss| - 1]] else [])
  }

  function ById(le: Collation): (EngineSmsc, EngineSmsc) -> bool {
    (a: EngineSmsc, b: EngineSmsc) => le(a.id, b.id)
  }

  function ByUsername(le: Collation): (EngineSendsmsUser, EngineSendsmsUser) -> bool {
    (a: EngineSendsmsUser, b: EngineSendsmsUser) => le(a.username, b.username)
  }

  /**
   * The comparison of the sort: `default` after everything, the rest by keyword.
   * (Two `default` services, which validation refuses, would tie here.)
   */
  function ByKeyword(le: Collation): (EngineSmsService, EngineSmsService) -> bool {
    (a: EngineSmsService, b: EngineSmsService) => IsDefault(b) || (!IsDefault(a) && le(a.keyword, b.keyword))
  }

  function SmscsInOrder(m: EngineConfiguration, le: Collation): seq<EngineSmsc> { Sort(Enabled(m.smsc), ById(le)) }

  function UsersInOrder(m: EngineConfiguration, le: Collation): seq<EngineSendsmsUser> {
    Sort(m.sendsmsUsers, ByUsername(le))
  }

  function ServicesInOrder(m: EngineConfiguration, le: Collation): seq<EngineSmsService> {
    Sort(m.smsServices, ByKeyword(le))
  }

  function SmscSections(ss: seq<EngineSmsc>): seq<Section> {
    if ss == [] then [] else SmscSections(ss[..|ss| - 1]) + [SmscSection(ss[|ss| - 1])]
  }

  function UserSections(us: seq<EngineSendsmsUser>): seq<Section> {
    if us == [] then [] else UserSections(us[..|us| - 1]) + [UserSection(us[|us| - 1])]
  }

  function ServiceSections(ss: seq<EngineSmsService>): seq<Section> {
    if ss == [] then [] else ServiceSections(ss[..|ss| - 1]) + [ServiceSection(ss[|ss| - 1])]
  }

  function BoxSections(m: EngineConfiguration): seq<Section> {
    if m.smsbox.None? then [] else [SmsboxSection(m.smsbox.value, m.logLevel)]
  }

  function StoreSections(m: EngineConfiguration): seq<Section> {
    (if m.sqlbox.None? || !m.sqlbox.value.enabled then [] else [SqlboxSection(m.sqlbox.value)])
    + (if DbBacked(m) then [DlrSection(m.dlrStorage.value)] else [])
  }

  /** The intended file: every group with its directives, in order. */
  function Sections(m: EngineConfiguration, le: Collation): seq<Section> {
    [CoreSection(m)] + SmscSections(SmscsInOrder(m, le)) + BoxSections(m)
      + UserSections(UsersInOrder(m, le)) + ServiceSections(ServicesInOrder(m, le)) + StoreSections(m)
  }

  function Content(m: EngineConfiguration, le: Collation): string { FileText(Lines(Sections(m, le))) }

  function NamesOf(references: seq<string>): seq<string> {
    if references == [] then []
    else
      NamesOf(references[..|references| - 1])
      + (match EnvName(references[|references| - 1]) case Some(n) => [n] case None => [])
  }

  /** The environment variables the file depends on: without repetition, in order. */
  function RequiredSecrets(m: EngineConfiguration): seq<string> {
    Sort(Dedup(NamesOf(SecretReferences(m))), LexLe)
  }

  // ---- Running it ------------------------------------------------------------------

  datatype Engine = Kamex | Kannel

  datatype Generated =
    | Rendered(content: string, requiredSecrets: seq<string>)
    | Refused(errors: seq<Rule>)
    | Unresolved(missing: Resolution)
    | BadReference(reference: string)
    | NotImplemented

  /** Appends one line for each entry. */
  method PushAll(lines: seq<string>, es: seq<Entry>) returns (r: seq<string>)
    ensures r == lines + EntryLines(es)
  {
    hide EntryLine;
    r := lines;
    for k := 0 to |es|
      invariant r == lines + EntryLines(es)[..k]
    {
      r := r + [EntryLine(es[k])];
    }
  }

  method PushSection(lines: seq<string>, s: Section) returns (r: seq<string>)
    ensures r == lines + SectionLines(s)
  {
    hide EntryLines, HeaderLine, PreambleLines;
    r := PushAll(lines + PreambleLines(s.preamble) + [HeaderLine(s)], s.entries);
  }

  lemma {:induction false} LinesAppend(a: seq<Section>, b: seq<Section>)
    ensures Lines(a + b) == Lines(a) + Lines(b)
  {
    hide SectionLines;
    if b == [] {
      assert a + b == a;
    } else {
      var n := |b| - 1;
      LinesAppend(a, b[..n]);
      assert (a + b)[..|a + b| - 1] == a + b[..n];
    }
  }

  lemma LinesSnoc(a: seq<Section>, s: Section)
    ensures Lines(a + [s]) == Lines(a) + SectionLines(s)
  {
    assert (a + [s])[..|a|] == a;
  }

  method PushLinks(lines0: seq<string>, ghost done0: seq<Section>, smscs: seq<EngineSmsc>) returns (lines: seq<string>)
    requires lines0 == Lines(done0)
    ensures lines == Lines(done0 + SmscSections(smscs))
  {
    hide Lines, SmscSection;
    ghost var done := done0;
    lines := lines0;
    for k := 0 to |smscs|
      invariant done == done0 + SmscSections(smscs[..k]) && lines == Lines(done)
    {
      assert smscs[..k + 1][..k] == smscs[..k];
      lines := PushSection(lines, SmscSection(smscs[k]));
      LinesSnoc(done, SmscSection(smscs[k]));
      done := done + [SmscSection(smscs[k])];
    }
    assert smscs[..|smscs|] == smscs;
  }

  method PushUsers(lines0: seq<string>, ghost done0: seq<Section>, users: seq<EngineSendsmsUser>)
    returns (lines: seq<string>)
    requires lines0 == Lines(done0)
    ensures lines == Lines(done0 + UserSections(users))
  {
    hide Lines, UserSection;
    ghost var done := done0;
    lines := lines0;
    for k := 0 to |users|
      invariant done == done0 + UserSections(users[..k]) && lines == Lines(done)
    {
      assert users[..k + 1][..k] == users[..k];
      lines := PushSection(lines, UserSection(users[k]));
      LinesSnoc(done, UserSection(users[k]));
      done := done + [UserSection(users[k])];
    }
    assert users[..|users|] == users;
  }

  method PushServices(lines0: seq<string>, ghost done0: seq<Section>, services: seq<EngineSmsService>)
    returns (lines: seq<string>)
    requires lines0 == Lines(done0)
    ensures lines == Lines(done0 + ServiceSections(services))
  {
    hide Lines, ServiceSection;
    ghost var done := done0;
    lines := lines0;
    for k := 0 to |services|
      invariant done == done0 + ServiceSections(services[..k]) && lines == Lines(done)
    {
      assert services[..k + 1][..k] == services[..k];
      lines := PushSection(lines, ServiceSection(services[k]));
      LinesSnoc(done, ServiceSection(services[k]));
      done := done + [ServiceSection(services[k])];
    }
    assert services[..|services|] == services;
  }

  method PushOne(lines0: seq<string>, ghost done0: seq<Section>, section: Section) returns (lines: seq<string>)
    requires lines0 == Lines(done0)
    ensures lines == Lines(done0 + [section])
  {
    lines := PushSection(lines0, section);
    LinesSnoc(done0, section);
    hide Lines;
  }

  method PushStores(lines0: seq<string>, ghost done0: seq<Section>, m: EngineConfiguration) returns (lines: seq<string>)
    requires lines0 == Lines(done0)
    ensures lines == Lines(done0 + StoreSections(m))
  {
    hide Lines, SqlboxSection, DlrSection;
    ghost var done := done0;
    lines := lines0;
    if m.sqlbox.Some? && m.sqlbox.value.enabled {
      lines := PushOne(lines, done, SqlboxSection(m.sqlbox.value));
      done := done + [SqlboxSection(m.sqlbox.value)];
    }
    if DbBacked(m) {
      lines := PushOne(lines, done, DlrSection(m.dlrStorage.value));
      done := done + [DlrSection(m.dlrStorage.value)];
    }
    assert done == done0 + StoreSections(m);
  }

  /** The groups one after another, each list in its printing order. */
  method RenderLines(m: EngineConfiguration, le: Collation) returns (lines: seq<string>)
    ensures lines == Lines(Sections(m, le))
  {
    hide Lines, CoreSection, SmsboxSection, SmscsInOrder, UsersInOrder, ServicesInOrder;
    hide SmscSections, UserSections, ServiceSections, StoreSections;
    LinesOfNothing();
    ghost var done: seq<Section> := [];
    lines := PushOne([], done, CoreSection(m));
    done := done + [CoreSection(m)];
    lines := PushLinks(lines, done, SmscsInOrder(m, le));
    done := done + SmscSections(SmscsInOrder(m, le));
    if m.smsbox.Some? {
      lines := PushOne(lines, done, SmsboxSection(m.smsbox.value, m.logLevel));
      done := done + [SmsboxSection(m.smsbox.value, m.logLevel)];
    }
    lines := PushUsers(lines, done, UsersInOrder(m, le));
    done := done + UserSections(UsersInOrder(m, le));
    lines := PushServices(lines, done, ServicesInOrder(m, le));
    done := done + ServiceSections(ServicesInOrder(m, le));
    lines := PushStores(lines, done, m);
    assert done + StoreSections(m) == Sections(m, le);
  }

  method RenderKamex(m: EngineConfiguration, le: Collation) returns (content: string)
    ensures content == Content(m, le)
  {
    hide Sections, Lines, FileText;
    var lines := RenderLines(m, le);
    content := FileText(lines);
  }

  lemma LinesOfNothing()
    ensures Lines([]) == []
  {
  }

  /** Every reference of the model has its environment variable set. */
  ghost predicate SecretsBacked(m: EngineConfiguration, env: map<string, string>) {
    forall ref :: ref in SecretReferences(m) ==> Backed(env, ref)
  }

  method CheckSecrets(m: EngineConfiguration, env: map<string, string>) returns (r: Resolution)
    requires forall ref :: ref in SecretReferences(m) ==> EnvName(ref).Some?
    ensures r.Resolvable? <==> SecretsBacked(m, env)
    ensures !r.InvalidReference?
  {
    hide EnvName, SecretReferences, Backed;
    var references := Validator.CollectSecretReferences(m);
    r := AssertResolvable(env, references);
  }

  /**
   * Validates, checks the secrets in strict mode, renders. Rendering itself can
   * only fail on a status secret reference that is present and empty, which
   * validation lets through.
   */
  method Generate(m: EngineConfiguration, engine: Engine, strict: bool, env: map<string, string>, le: Collation)
    returns (r: Generated)
    ensures r.Refused? <==> !ValidModel(m)
    ensures r.Unresolved? <==> ValidModel(m) && strict && !SecretsBacked(m, env)
    ensures r.Rendered? <==>
      && ValidModel(m) && engine == Kamex && m.statusSecretRef != Some("")
      && (strict ==> SecretsBacked(m, env))
    ensures r.Rendered? ==> r.content == Content(m, le) && r.requiredSecrets == RequiredSecrets(m)
    ensures r.NotImplemented? <==> ValidModel(m) && engine == Kannel && (strict ==> SecretsBacked(m, env))
    ensures r.BadReference? <==>
      && ValidModel(m) && engine == Kamex && m.statusSecretRef == Some("")
      && (strict ==> SecretsBacked(m, env))
  {
    hide *;
    var errors := Validator.Validate(m);
    if errors != [] { return Refused(errors); }
    NamesExist(m);
    if strict {
      var resolution := CheckSecrets(m, env);
      if !resolution.Resolvable? { return Unresolved(resolution); }
    }
    if engine == Kannel { return NotImplemented; }
    if EnvName(StatusRef(m)).None? { return BadReference(StatusRef(m)); }
    var content := RenderKamex(m, le);
    return Rendered(content, RequiredSecrets(m));
  }

  /** In a valid model every rendered reference has a name, except a status reference that is the empty string. */
  lemma NamesExist(m: EngineConfiguration)
    requires ValidModel(m)
    ensures forall r :: r in SecretReferences(m) ==> EnvName(r).Some?
    ensures EnvName(m.adminSecretRef).Some?
    ensures EnvName(StatusRef(m)).Some? <==> m.statusSecretRef != Some("")
  {
    hide EnvName, SmscValid, SqlboxValid, SmsboxValid, DlrValid, ServiceValid, UserValid, ValuesScreened;
    hide SmscReferences, UserReferences;
    assert m.adminSecretRef in RefIfSecret(Some(m.adminSecretRef));
    assert m.adminSecretRef in SecretReferences(m);
    if m.statusSecretRef != Some("") {
      assert StartsWith(StatusRef(m), PREFIX);
      assert StatusRef(m) in RefIfSecret(Some(StatusRef(m)));
      assert StatusRef(m) in SecretReferences(m);
    } else {
      EmptyReferenceHasNoName();
    }
  }

  lemma EmptyReferenceHasNoName()
    ensures EnvName("").None?
  {
  }
}
