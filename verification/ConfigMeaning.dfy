/**
 * What the rendered file says: group by group and directive by directive, in the words of
 * the file and the fields of the model.
 */
module ConfigMeaning {
  import opened Text
  import opened Sorting
  import opened SecretResolver
  import opened ConfigModel
  import opened ConfigDirectives
  import opened ConfigSyntax
  import opened ConfigRenderer
  import opened ConfigTheorems
  import opened ConfigCanonical

  type Directives = seq<(string, string)>

  /** A directive, if it has a value. */
  function Line(word: string, value: Option<string>): Directives { if value.None? then [] else [(word, value.value)] }

  // ---- What one field says ---------------------------------------------------------

  /** Absent and empty values are not written. */
  function Present(v: Option<string>): Option<string> { if v.None? || v.value == "" then None else v }

  function Number(v: Option<int>): Option<string> { if v.None? then None else Some(IntText(v.value)) }

  function Amount(v: Option<Decimal>): Option<string> { if v.None? then None else Some(DecimalText(v.value)) }

  function Switch(v: Option<bool>): Option<string> {
    if v.None? then None else if v.value then Some("true") else Some("false")
  }

  function Listed(v: Option<seq<string>>): Option<string> {
    if v.None? || v.value == [] then None else Present(Some(Join(v.value, ';')))
  }

  /** The engine reads a secret from its environment. (Only an invalid reference has no name.) */
  function Variable(reference: string): Option<string> {
    match EnvName(reference)
    case Some(name) => Some("${" + name + "}")
    case None => Some("")
  }

  /** The secret, when there is a reference, otherwise the literal value. */
  function Credential(reference: Option<string>, literal: Option<string>): Option<string> {
    if reference.None? || reference.value == "" then Present(literal) else Variable(reference.value)
  }

  // ---- What each group says --------------------------------------------------------

  function CoreLines(m: EngineConfiguration): Directives {
    var status := if m.statusSecretRef.None? then "secret://kamex/status-password" else m.statusSecretRef.value;
    Line("admin-port", Some(IntText(m.adminPort))) + Line("smsbox-port", Some(IntText(m.smsboxPort)))
    + Line("admin-password", Variable(m.adminSecretRef)) + Line("status-password", Variable(status))
    + Line("log-level", Some(IntText(m.logLevel))) + Line("log-format", Some("json"))
    + Line("dlr-storage", if m.dlrStorage.None? then None else Some(StorageText(m.dlrStorage.value.kind)))
  }

  function StorageText(k: DlrStorageKind): string {
    match k
    case Internal => "internal" case Spool => "spool" case Pgsql => "pgsql" case Mysql => "mysql" case Redis => "redis"
  }

  function LinkLines(s: EngineSmsc): Directives {
    ConnectionLines(s)
    + (if s.kind == Smpp then SmppLines(s) else if s.kind == Http then HttpLines(s) else [])
    + PaceLines(s) + RoutingLines(s)
  }

  function ConnectionLines(s: EngineSmsc): Directives {
    Line("smsc", Some(match s.kind case Smpp => "smpp" case Http => "http" case Fake => "fake" case _ => "at"))
    + Line("smsc-id", Present(Some(s.id)))
    + Line("instances",
        if s.connectionCount.Some? && s.connectionCount.value > 1 then Number(s.connectionCount) else None)
    + Line("host", Present(s.host)) + Line("port", Number(s.port))
  }

  /** A receiver listens on its own port or on the main one; otherwise port 0 stands for none. */
  function ReceivePort(s: EngineSmsc): Option<int> {
    if s.bindMode == Some(Receiver) then (if s.receivePort.Some? then s.receivePort else s.port)
    else if s.receivePort == Some(0) then None
    else s.receivePort
  }

  function LoginLines(s: EngineSmsc): Directives {
    Line("receive-port", Number(ReceivePort(s)))
    + Line("smsc-username", Credential(s.usernameSecretRef, s.username))
    + Line("smsc-password", Credential(s.passwordSecretRef, None))
  }

  function SessionLines(s: EngineSmsc): Directives {
    Line("system-type", s.systemType)
    + Line("interface-version", Number(s.interfaceVersion))
    + Line("address-range", Present(s.addressRange))
    + Line("transceiver-mode", Some(if s.bindMode.None? || s.bindMode == Some(Transceiver) then "1" else "0"))
  }

  /** The lines of an SMPP link only. */
  function SmppLines(s: EngineSmsc): Directives {
    LoginLines(s) + SessionLines(s) + NumberingLines(s) + TuningLines(s) + SwitchLines(s)
  }

  function NumberingLines(s: EngineSmsc): Directives {
    Line("source-addr-ton", Number(s.sourceAddrTon)) + Line("source-addr-npi", Number(s.sourceAddrNpi))
    + Line("dest-addr-ton", Number(s.destAddrTon)) + Line("dest-addr-npi", Number(s.destAddrNpi))
  }

  function TuningLines(s: EngineSmsc): Directives {
    Line("max-pending-submits", Number(s.windowSize))
    + Line("enquire-link-interval", Number(s.keepaliveSeconds))
    + Line("wait-ack", Number(s.waitAckSeconds)) + Line("wait-ack-expire", Number(s.waitAckExpireAction))
    + Line("connection-timeout", Number(s.connectionTimeoutSeconds))
  }

  function SwitchLines(s: EngineSmsc): Directives {
    Line("retry", if s.retryOnAuthFailure then Some("true") else None)
    + Line("use-ssl", if s.useTls then Some("true") else None)
  }

  function HttpLines(s: EngineSmsc): Directives {
    Line("system-type", if s.systemType.None? then Some("kannel") else Present(s.systemType))
    + Line("send-url", Present(s.sendUrl))
    + Line("username", Credential(s.usernameSecretRef, s.username))
    + Line("password", Credential(s.passwordSecretRef, None))
  }

  function PaceLines(s: EngineSmsc): Directives {
    Line("throughput", Amount(s.throughput)) + Line("reconnect-delay", Number(s.reconnectDelaySeconds))
    + Line("max-error-count", Number(s.maxErrorCount)) + Line("alt-charset", Present(s.altCharset))
  }

  function RoutingLines(s: EngineSmsc): Directives {
    Line("allowed-smsc-id", Listed(s.allowedSmscIds)) + Line("denied-smsc-id", Listed(s.deniedSmscIds))
    + Line("preferred-smsc-id", Listed(s.preferredSmscIds)) + Line("allowed-prefix", Listed(s.allowedPrefixes))
    + Line("denied-prefix", Listed(s.deniedPrefixes)) + Line("preferred-prefix", Listed(s.preferredPrefixes))
  }

  function BoxLines(b: EngineSmsbox, logLevel: nat): Directives {
    Line("bearerbox-host", Present(Some(b.bearerboxHost))) + Line("sendsms-port", Some(IntText(b.sendsmsPort)))
    + Line("smsbox-id", Present(b.smsboxId)) + Line("global-sender", Present(b.globalSender))
    + Line("log-level", Some(IntText(if b.logLevel.Some? then b.logLevel.value else logLevel)))
    + Line("log-format", Some("json"))
  }

  function UserLines(u: EngineSendsmsUser): Directives {
    Line("username", Present(Some(u.username))) + Line("password", Variable(u.passwordSecretRef))
    + Line("user-allow-ip", Present(u.allowedIps)) + Line("default-sender", Present(u.defaultSender))
    + Line("max-messages", Number(u.maxMessages)) + Line("concatenation", Switch(u.concatenation))
    + Line("forced-smsc", Present(u.forcedSmsc)) + Line("default-smsc", Present(u.defaultSmsc))
  }

  function ServiceLines(s: EngineSmsService): Directives {
    ReplyLines(s) + ReplyFlagLines(s)
  }

  function ReplyLines(s: EngineSmsService): Directives {
    Line("keyword", Present(Some(s.keyword))) + Line("aliases", Listed(Some(s.aliases)))
    + Line("text", Present(s.text)) + Line("get-url", Present(s.getUrl)) + Line("post-url", Present(s.postUrl))
  }

  function ReplyFlagLines(s: EngineSmsService): Directives {
    Line("max-messages", Number(s.maxMessages)) + Line("concatenation", Switch(s.concatenation))
    + Line("catch-all", Switch(s.catchAll)) + Line("omit-empty", Switch(s.omitEmpty))
    + Line("accept-x-kannel-headers", Switch(s.acceptXKannelHeaders)) + Line("send-sender", Switch(s.sendSender))
  }

  function SqlboxLines(b: EngineSqlbox): Directives {
    Line("id", Some("jkannel-sqlbox")) + Line("host", Present(Some(b.host))) + Line("port", Some(IntText(b.port)))
    + Line("database", Present(Some(b.database)))
    + Line("username", Some("${" + b.usernameEnv + "}")) + Line("password", Some("${" + b.passwordEnv + "}"))
  }

  function StoreLines(d: EngineDlrStorage): Directives {
    Line("id", Present(d.connectionId)) + Line("table", if d.table.None? then Some("dlr") else Present(d.table))
    + ColumnLines()
  }

  function ColumnLines(): Directives { PartyLines() + ResultLines() }

  function PartyLines(): Directives {
    [("field-smsc", "smsc")] + [("field-timestamp", "ts")] + [("field-destination", "destination")]
    + [("field-source", "source")]
  }

  function ResultLines(): Directives {
    [("field-service", "service")] + [("field-url", "url")] + [("field-mask", "mask")] + [("field-status", "status")]
    + [("field-boxc-id", "boxc")]
  }

  // ---- One directive ---------------------------------------------------------------

  lemma FieldLines()
    ensures forall d: Word, v {:trigger Pairs(Str(d, v))} :: Pairs(Str(d, v)) == Line(d, Present(v))
    ensures forall d: Word, v {:trigger Pairs(Quo(d, v))} :: Pairs(Quo(d, v)) == Line(d, Present(v))
    ensures forall d: Word, v {:trigger Pairs(Num(d, v))} :: Pairs(Num(d, v)) == Line(d, Number(v))
    ensures forall d: Word, v {:trigger Pairs(Dec(d, v))} :: Pairs(Dec(d, v)) == Line(d, Amount(v))
    ensures forall d: Word, v {:trigger Pairs(Flag(d, v))} :: Pairs(Flag(d, v)) == Line(d, Switch(v))
    ensures forall d: Word, r {:trigger Pairs(Secret(d, r))} :: Pairs(Secret(d, r)) == Line(d, Variable(r))
  {
    hide IntText, DecimalText, EnvName;
  }

  lemma ListLines()
    ensures forall d: Word, v {:trigger Pairs(List(d, ListOf(v)))} ::
      Pairs(List(d, ListOf(v))) == Line(d, Listed(v))
  {
    hide Join;
  }

  lemma CredentialLines()
    ensures forall d: Word, r, v {:trigger Pairs(SecretOr(d, r, v))} ::
      Pairs(SecretOr(d, r, v)) == Line(d, Credential(r, v))
    ensures forall d: Word, r {:trigger Pairs(SecretIf(d, r))} :: Pairs(SecretIf(d, r)) == Line(d, Credential(r, None))
  {
    hide EnvName, Str, Secret, Variable, Present;
    FieldLines();
    assert Present(None) == None && Pairs([]) == [] by { NothingSaid(); }
  }

  lemma NothingSaid()
    ensures Present(None) == None && Pairs([]) == []
    ensures forall word {:trigger Line(word, None)} :: Line(word, None) == []
  {
  }

  lemma SystemTypeLine(v: Option<string>)
    ensures Pairs(SystemTypeEntry(v)) == Line("system-type", v)
  {
  }

  lemma OneAndZero()
    ensures IntText(1) == "1" && IntText(0) == "0"
  {
  }

  lemma PairsAppend(a: seq<Entry>, b: seq<Entry>)
    ensures Pairs(a + b) == Pairs(a) + Pairs(b)
  {
  }

  lemma AppendLines()
    ensures forall a, b {:trigger Pairs(a + b)} :: Pairs(a + b) == Pairs(a) + Pairs(b)
    ensures Pairs([]) == []
  {
    forall a, b ensures Pairs(a + b) == Pairs(a) + Pairs(b) { PairsAppend(a, b); }
  }

  // ---- One group -------------------------------------------------------------------

  lemma CorePairs(m: EngineConfiguration)
    ensures Pairs(CoreEntries(m)) == CoreLines(m)
  {
    hide Pairs, Line, Str, Num, Secret, Variable, IntText;
    FieldLines();
    AppendLines();
  }

  lemma ConnectionPairs(s: EngineSmsc)
    ensures Pairs(LinkEntries(s)) == ConnectionLines(s)
  {
    hide Pairs, Line, Str, Num, IntText;
    FieldLines();
    AppendLines();
  }

  lemma ReceivePortLine(s: EngineSmsc)
    ensures Pairs(ReceivePortEntry(s, if s.bindMode.None? then Transceiver else s.bindMode.value)) ==
      Line("receive-port", Number(ReceivePort(s)))
  {
    hide Pairs, Line, Num;
    FieldLines();
    NothingSaid();
  }

  lemma LoginPairs(s: EngineSmsc)
    ensures Pairs(SmppLoginEntries(s, if s.bindMode.None? then Transceiver else s.bindMode.value)) == LoginLines(s)
  {
    hide Pairs, Line, SecretOr, SecretIf, Credential, ReceivePortEntry, ReceivePort, Number;
    ReceivePortLine(s);
    CredentialLines();
    AppendLines();
  }

  lemma SessionPairs(s: EngineSmsc)
    ensures Pairs(SmppSessionEntries(s, if s.bindMode.None? then Transceiver else s.bindMode.value)) == SessionLines(s)
  {
    hide Pairs, Line, Str, Num, SystemTypeEntry, IntText, Present;
    FieldLines();
    SystemTypeLine(s.systemType);
    OneAndZero();
    AppendLines();
  }

  lemma SmppPairs(s: EngineSmsc)
    ensures Pairs(SmppEntries(s)) == SmppLines(s)
  {
    hide Pairs, SmppLoginEntries, SmppSessionEntries, SmppNumberingEntries, SmppTuningEntries, SmppSwitchEntries;
    hide LoginLines, SessionLines, NumberingLines, TuningLines, SwitchLines;
    LoginPairs(s);
    SessionPairs(s);
    NumberingPairs(s);
    TuningPairs(s);
    SwitchPairs(s);
    AppendLines();
  }

  lemma NumberingPairs(s: EngineSmsc)
    ensures Pairs(SmppNumberingEntries(s)) == NumberingLines(s)
  {
    hide Pairs, Line, Num, Number;
    FieldLines();
    AppendLines();
  }

  lemma TuningPairs(s: EngineSmsc)
    ensures Pairs(SmppTuningEntries(s)) == TuningLines(s)
  {
    hide Pairs, Line, Num, Flag, Number;
    FieldLines();
    AppendLines();
  }

  lemma KannelLine(s: EngineSmsc)
    ensures Pairs(if s.systemType.None? then Fixed(SYSTEM_TYPE, KANNEL) else Str(SYSTEM_TYPE, s.systemType)) ==
      Line("system-type", if s.systemType.None? then Some("kannel") else Present(s.systemType))
  {
    hide Pairs, Line, Str;
    FieldLines();
  }

  lemma SwitchPairs(s: EngineSmsc)
    ensures Pairs(SmppSwitchEntries(s)) == SwitchLines(s)
  {
    hide Pairs, Line, Flag;
    FieldLines();
    AppendLines();
  }

  lemma HttpPairs(s: EngineSmsc)
    ensures Pairs(HttpEntries(s)) == HttpLines(s)
  {
    hide Pairs, Line, Str, Quo, SecretOr, SecretIf, Credential;
    FieldLines();
    CredentialLines();
    KannelLine(s);
    AppendLines();
  }

  lemma PacePairs(s: EngineSmsc)
    ensures Pairs(CommonEntries(s)) == PaceLines(s)
  {
    hide Pairs, Line, Str, Num, Dec, Number, Present, Amount;
    FieldLines();
    AppendLines();
  }

  lemma RoutingPairs(s: EngineSmsc)
    ensures Pairs(RoutingEntries(s)) == RoutingLines(s)
  {
    hide Pairs, Line, List, ListOf, Listed;
    ListLines();
    AppendLines();
  }

  lemma BoxPairs(b: EngineSmsbox, logLevel: nat)
    ensures Pairs(SmsboxEntries(b, logLevel)) == BoxLines(b, logLevel)
  {
    hide Pairs, Line, Str, Num, IntText;
    FieldLines();
    AppendLines();
  }

  lemma UserPairs(u: EngineSendsmsUser)
    ensures Pairs(UserEntries(u)) == UserLines(u)
  {
    hide Pairs, Line, Str, Num, Flag, Secret, Present, Number, Switch, Variable;
    FieldLines();
    AppendLines();
  }

  lemma AliasLine(s: EngineSmsService)
    ensures Pairs(AliasEntries(s)) == Line("aliases", Listed(Some(s.aliases)))
  {
    hide Pairs, Line, Str, Join;
    FieldLines();
    NothingSaid();
  }

  lemma ReplyPairs(s: EngineSmsService)
    ensures Pairs(ReplyEntries(s)) == ReplyLines(s)
  {
    hide Pairs, Line, Str, Quo, Join, AliasEntries, Listed, Present;
    FieldLines();
    AliasLine(s);
    AppendLines();
  }

  lemma ReplyFlagPairs(s: EngineSmsService)
    ensures Pairs(ReplyFlagEntries(s)) == ReplyFlagLines(s)
  {
    hide Pairs, Line, Num, Flag, Number, Switch;
    FieldLines();
    AppendLines();
  }

  lemma SqlboxPairs(b: EngineSqlbox)
    ensures Pairs(SqlboxEntries(b)) == SqlboxLines(b)
  {
    hide Pairs, Line, Str, Num, IntText;
    FieldLines();
    AppendLines();
  }

  lemma StorePairs(d: EngineDlrStorage)
    ensures Pairs(DlrEntries(d)) == StoreLines(d)
  {
    hide Pairs, Line, Str, DlrFieldEntries, ColumnLines;
    FieldLines();
    AppendLines();
    ColumnPairs();
  }

  lemma ColumnPairs()
    ensures Pairs(DlrFieldEntries()) == ColumnLines()
  {
    hide Pairs, DlrPartyEntries, DlrResultEntries, PartyLines, ResultLines;
    PartyPairs();
    ResultPairs();
    AppendLines();
  }

  lemma PartyPairs()
    ensures Pairs(DlrPartyEntries()) == PartyLines()
  {
    hide Pairs, Str;
    FieldLines();
    AppendLines();
  }

  lemma ResultPairs()
    ensures Pairs(DlrResultEntries()) == ResultLines()
  {
    hide Pairs, Str;
    FieldLines();
    AppendLines();
  }

  lemma LinkPairs(s: EngineSmsc)
    ensures Meaning(SmscSection(s)) == Group("smsc", LinkLines(s))
  {
    hide Pairs, LinkEntries, AdapterEntries, CommonEntries, RoutingEntries;
    hide ConnectionLines, SmppLines, HttpLines, PaceLines, RoutingLines;
    ConnectionPairs(s);
    AdapterPairs(s);
    PacePairs(s);
    RoutingPairs(s);
    AppendLines();
  }

  lemma AdapterPairs(s: EngineSmsc)
    ensures Pairs(AdapterEntries(s)) ==
      if s.kind == Smpp then SmppLines(s) else if s.kind == Http then HttpLines(s) else []
  {
    hide Pairs, SmppEntries, HttpEntries, SmppLines, HttpLines;
    SmppPairs(s);
    HttpPairs(s);
    AppendLines();
  }

  lemma ServicePairs(s: EngineSmsService)
    ensures Meaning(ServiceSection(s)) == Group("sms-service", ServiceLines(s))
  {
    hide Pairs, ReplyEntries, ReplyFlagEntries, ReplyLines, ReplyFlagLines;
    ReplyPairs(s);
    ReplyFlagPairs(s);
    AppendLines();
  }

  // ---- The whole file --------------------------------------------------------------

  function LinkGroups(links: seq<EngineSmsc>): seq<Group> {
    seq(|links|, i requires 0 <= i < |links| => Group("smsc", LinkLines(links[i])))
  }

  function UserGroups(users: seq<EngineSendsmsUser>): seq<Group> {
    seq(|users|, i requires 0 <= i < |users| => Group("sendsms-user", UserLines(users[i])))
  }

  function ServiceGroups(services: seq<EngineSmsService>): seq<Group> {
    seq(|services|, i requires 0 <= i < |services| => Group("sms-service", ServiceLines(services[i])))
  }

  function BoxGroups(m: EngineConfiguration): seq<Group> {
    if m.smsbox.None? then [] else [Group("smsbox", BoxLines(m.smsbox.value, m.logLevel))]
  }

  function SqlboxGroups(m: EngineConfiguration): seq<Group> {
    if m.sqlbox.None? || !m.sqlbox.value.enabled then []
    else [Group("pgsql-connection", SqlboxLines(m.sqlbox.value))]
  }

  function StoreGroups(m: EngineConfiguration): seq<Group> {
    if m.dlrStorage.Some? && (m.dlrStorage.value.kind == Pgsql || m.dlrStorage.value.kind == Mysql)
    then [Group("dlr-db", StoreLines(m.dlrStorage.value))]
    else []
  }

  lemma MeaningsAppend(a: seq<Section>, b: seq<Section>)
    ensures Meanings(a + b) == Meanings(a) + Meanings(b)
  {
    hide Meaning;
  }

  lemma MeaningsOne(s: Section)
    ensures Meanings([s]) == [Meaning(s)]
  {
    hide Meaning;
  }

  lemma NoMeanings()
    ensures Meanings([]) == []
  {
  }

  lemma {:induction false} LinkMeanings(ss: seq<EngineSmsc>)
    ensures Meanings(SmscSections(ss)) == LinkGroups(ss)
  {
    hide Meaning, Meanings, SmscSection, LinkLines;
    NoMeanings();
    if ss != [] {
      var n := |ss| - 1;
      LinkMeanings(ss[..n]);
      MeaningsAppend(SmscSections(ss[..n]), [SmscSection(ss[n])]);
      MeaningsOne(SmscSection(ss[n]));
      LinkPairs(ss[n]);
      assert LinkGroups(ss) == LinkGroups(ss[..n]) + [Group("smsc", LinkLines(ss[n]))];
    }
  }

  lemma {:induction false} UserMeanings(us: seq<EngineSendsmsUser>)
    ensures Meanings(UserSections(us)) == UserGroups(us)
  {
    hide Meanings, UserSection, UserLines, Pairs;
    NoMeanings();
    if us != [] {
      var n := |us| - 1;
      UserMeanings(us[..n]);
      MeaningsAppend(UserSections(us[..n]), [UserSection(us[n])]);
      MeaningsOne(UserSection(us[n]));
      UserMeaning(us[n]);
      hide Meaning;
      assert UserGroups(us) == UserGroups(us[..n]) + [Group("sendsms-user", UserLines(us[n]))];
    }
  }

  lemma UserMeaning(u: EngineSendsmsUser)
    ensures Meaning(UserSection(u)) == Group("sendsms-user", UserLines(u))
  {
    hide Pairs, UserLines, UserEntries;
    UserPairs(u);
  }

  lemma {:induction false} ServiceMeanings(ss: seq<EngineSmsService>)
    ensures Meanings(ServiceSections(ss)) == ServiceGroups(ss)
  {
    hide Meaning, Meanings, ServiceSection, ServiceLines;
    NoMeanings();
    if ss != [] {
      var n := |ss| - 1;
      ServiceMeanings(ss[..n]);
      MeaningsAppend(ServiceSections(ss[..n]), [ServiceSection(ss[n])]);
      MeaningsOne(ServiceSection(ss[n]));
      ServicePairs(ss[n]);
      assert ServiceGroups(ss) == ServiceGroups(ss[..n]) + [Group("sms-service", ServiceLines(ss[n]))];
    }
  }

  lemma CoreMeaning(m: EngineConfiguration)
    ensures Meanings([CoreSection(m)]) == [Group("core", CoreLines(m))]
  {
    hide Pairs, CoreEntries, CoreLines, Meanings;
    CorePairs(m);
    MeaningsOne(CoreSection(m));
  }

  lemma BoxMeanings(m: EngineConfiguration)
    ensures Meanings(BoxSections(m)) == BoxGroups(m)
  {
    hide Pairs, BoxLines, SmsboxEntries, Meanings;
    NoMeanings();
    if m.smsbox.Some? {
      BoxPairs(m.smsbox.value, m.logLevel);
      MeaningsOne(SmsboxSection(m.smsbox.value, m.logLevel));
    }
  }

  lemma StoreMeanings(m: EngineConfiguration)
    ensures Meanings(StoreSections(m)) == SqlboxGroups(m) + StoreGroups(m)
  {
    hide Pairs, SqlboxLines, StoreLines, SqlboxEntries, DlrEntries, Meanings;
    NoMeanings();
    var box := if m.sqlbox.None? || !m.sqlbox.value.enabled then [] else [SqlboxSection(m.sqlbox.value)];
    var store := if DbBacked(m) then [DlrSection(m.dlrStorage.value)] else [];
    MeaningsAppend(box, store);
    if box != [] {
      SqlboxPairs(m.sqlbox.value);
      MeaningsOne(SqlboxSection(m.sqlbox.value));
    }
    if store != [] {
      StorePairs(m.dlrStorage.value);
      MeaningsOne(DlrSection(m.dlrStorage.value));
    }
  }

  lemma FileMeanings(m: EngineConfiguration, le: Collation)
    ensures Meanings(Sections(m, le)) ==
      [Group("core", CoreLines(m))] + LinkGroups(SmscsInOrder(m, le)) + BoxGroups(m)
      + UserGroups(UsersInOrder(m, le)) + ServiceGroups(ServicesInOrder(m, le)) + (SqlboxGroups(m) + StoreGroups(m))
  {
    hide Meanings, CoreSection, SmscSections, BoxSections, UserSections, ServiceSections, StoreSections, CoreLines;
    hide LinkGroups, UserGroups, ServiceGroups, BoxGroups, SqlboxGroups, StoreGroups;
    hide SmscsInOrder, UsersInOrder, ServicesInOrder;
    CoreMeaning(m);
    LinkMeanings(SmscsInOrder(m, le));
    BoxMeanings(m);
    UserMeanings(UsersInOrder(m, le));
    ServiceMeanings(ServicesInOrder(m, le));
    StoreMeanings(m);
    var a := [CoreSection(m)];
    var b := a + SmscSections(SmscsInOrder(m, le));
    var c := b + BoxSections(m);
    var d := c + UserSections(UsersInOrder(m, le));
    var e := d + ServiceSections(ServicesInOrder(m, le));
    MeaningsAppend(a, SmscSections(SmscsInOrder(m, le)));
    MeaningsAppend(b, BoxSections(m));
    MeaningsAppend(c, UserSections(UsersInOrder(m, le)));
    MeaningsAppend(d, ServiceSections(ServicesInOrder(m, le)));
    MeaningsAppend(e, StoreSections(m));
  }

  // ---- How numbers and lists read --------------------------------------------------

  /** A whole number is written in digits that read as it, after a minus sign when it is negative. */
  lemma WholeNumberReads(n: int)
    ensures n >= 0 ==> DecimalValue(IntText(n)) == n && forall c :: c in IntText(n) ==> IsDigit(c)
    ensures n < 0 ==> IntText(n)[0] == '-' && DecimalValue(IntText(n)[1..]) == -n
  {
    hide NatText, DecimalValue;
    DecimalRoundTrip(if n < 0 then -n else n);
  }

  lemma {:induction false} PointLeftOut(n: nat, scale: nat)
    ensures DecimalValue(NatText(WholePart(n, scale)) + FractionText(n, scale)) == n
    ensures |FractionText(n, scale)| == scale
  {
    hide NatText, FractionText, WholePart, DecimalValue, DigitChar;
    if scale == 0 {
      DecimalRoundTrip(n);
      NoDecimals(n);
      assert NatText(n) + "" == NatText(n);
    } else {
      PointLeftOut(n / 10, scale - 1);
      OneDecimal(n, scale);
      var whole, front := NatText(WholePart(n / 10, scale - 1)), FractionText(n / 10, scale - 1);
      assert whole + (front + [DigitChar(n % 10)]) == (whole + front) + [DigitChar(n % 10)];
      DigitAppended(whole + front, n % 10);
    }
  }

  lemma NoDecimals(n: nat)
    ensures WholePart(n, 0) == n && FractionText(n, 0) == ""
  {
  }

  lemma OneDecimal(n: nat, scale: nat)
    requires scale > 0
    ensures WholePart(n, scale) == WholePart(n / 10, scale - 1)
    ensures FractionText(n, scale) == FractionText(n / 10, scale - 1) + [DigitChar(n % 10)]
  {
  }

  lemma DigitAppended(digits: string, d: nat)
    requires d < 10
    ensures DecimalValue(digits + [DigitChar(d)]) == 10 * DecimalValue(digits) + d
  {
    assert (digits + [DigitChar(d)])[..|digits|] == digits;
  }

  /** A number with decimals: its sign, then digits that read as it without the point, with `scale` of them behind. */
  lemma DecimalReads(d: Decimal) returns (sign: string, whole: string, fraction: string)
    requires d.scale > 0
    ensures DecimalText(d) == sign + whole + "." + fraction && |fraction| == d.scale
    ensures sign == if d.unscaled < 0 then "-" else ""
    ensures DecimalValue(whole + fraction) == if d.unscaled < 0 then -d.unscaled else d.unscaled
  {
    hide NatText, FractionText, WholePart, DecimalValue;
    var n: nat := if d.unscaled < 0 then -d.unscaled else d.unscaled;
    sign := if d.unscaled < 0 then "-" else "";
    whole, fraction := NatText(WholePart(n, d.scale)), FractionText(n, d.scale);
    PointLeftOut(n, d.scale);
  }

  /** A routing list of a valid link is written so that its reader gets the entries back. */
  lemma RoutingListReads(list: seq<string>)
    requires RoutingListValid(list) && list != []
    ensures Listed(Some(list)).Some? && Split(Listed(Some(list)).value, ';') == list
  {
    hide RoutingEntryValid;
    forall e | e in list ensures e != "" && ';' !in e { EntryIsPlain(e); }
    SplitOfJoin(list, ';');
    assert list[0] in list && Split("", ';') == [""];
  }

  lemma EntryIsPlain(e: string)
    requires RoutingEntryValid(e)
    ensures e != "" && ';' !in e
  {
  }

  /** An enabled link of a valid model says all that its adapter needs. */
  lemma ValidLinkIsComplete(m: EngineConfiguration, s: EngineSmsc)
    requires ValidModel(m) && s in m.smsc && s.enabled
    ensures s.kind != At && s.port.Some? && s.port != Some(0)
    ensures s.kind != Fake ==> Present(s.host).Some?
    ensures s.kind == Smpp ==> s.systemType.Some? && Credential(s.usernameSecretRef, s.username).Some?
    ensures s.kind == Smpp && s.bindMode == Some(Receiver) ==> Number(ReceivePort(s)).Some?
    ensures s.kind == Http ==> Present(s.sendUrl).Some?
    ensures Listed(s.allowedSmscIds).None? || Listed(s.deniedSmscIds).None?
  {
    assert SmscValid(s);
    hide EnvName, SecretReferences, RoutingListValid, SmscScreened, Join;
  }

  predicate Between(v: Option<int>, lo: int, hi: int) { v.None? || (v.value >= lo && v.value <= hi) }

  /** The numbers a valid link is written with are ones the engine takes. */
  lemma ValidLinkNumbers(m: EngineConfiguration, s: EngineSmsc)
    requires ValidModel(m) && s in m.smsc
    ensures s.interfaceVersion.None? || s.interfaceVersion.value in {33, 34, 50}
    ensures Between(s.sourceAddrTon, 0, 255) && Between(s.sourceAddrNpi, 0, 255)
    ensures Between(s.destAddrTon, 0, 255) && Between(s.destAddrNpi, 0, 255)
    ensures Between(s.windowSize, 1, 1000) && Between(s.connectionCount, 1, 64)
    ensures Between(s.keepaliveSeconds, 0, 3600) && Between(s.reconnectDelaySeconds, 0, 3600)
    ensures Between(s.waitAckSeconds, 1, 3600) && Between(s.waitAckExpireAction, 0, 2)
    ensures Between(s.connectionTimeoutSeconds, 0, 24 * 3600)
    ensures s.throughput.Some? ==> s.throughput.value.unscaled > 0
    ensures s.connectionCount.Some? && s.connectionCount.value > 1 ==> s.kind == Smpp
  {
    assert SmscValid(s);
    hide EnvName, SecretReferences, ConnectionValid, RoutingValid, ValuesScreened, BoxesValid;
  }

  /** A user of a valid model has a name of its own and a password in the environment. */
  lemma ValidUserIsComplete(m: EngineConfiguration, i: nat)
    requires ValidModel(m) && i < |m.sendsmsUsers|
    ensures Present(Some(m.sendsmsUsers[i].username)).Some?
    ensures forall j :: 0 <= j < |m.sendsmsUsers| && m.sendsmsUsers[j].username == m.sendsmsUsers[i].username ==> j == i
    ensures EnvName(m.sendsmsUsers[i].passwordSecretRef).Some?
  {
    var u := m.sendsmsUsers[i];
    assert u in m.sendsmsUsers && UserValid(u);
    UserReferencesAre(m.sendsmsUsers, u.passwordSecretRef);
    hide EnvName, SmscReferences, UserReferences, SmscValid, ServiceValid, ValuesScreened;
    assert u.passwordSecretRef in SecretReferences(m);
  }

  /** A scheme and something without blanks or quotes behind it. */
  ghost predicate WebAddress(url: string) { exists rest: string :: IsAddressOf(url, rest) }

  ghost predicate IsAddressOf(url: string, rest: string) {
    && rest != "" && (url == "http://" + rest || url == "https://" + rest)
    && forall c :: c in rest ==> !IsSpace(c) && c != '"'
  }

  lemma HttpUrlIs(url: string)
    requires IsHttpUrl(url)
    ensures WebAddress(url)
  {
    var n :| 0 <= n < |url| && (url[..n] == "http://" || url[..n] == "https://") &&
      forall i :: n <= i < |url| ==> !IsSpace(url[i]) && url[i] != '"';
    hide IsSpace;
    assert url == url[..n] + url[n..];
    assert IsAddressOf(url, url[n..]);
  }

  /** A service of a valid model answers in exactly one way, and the catch-all sends no replies of a remote target. */
  lemma ValidServiceIsComplete(m: EngineConfiguration, s: EngineSmsService)
    requires ValidModel(m) && s in m.smsServices
    ensures Present(Some(s.keyword)).Some?
    ensures s.text.Some? ==> s.getUrl.None? && s.postUrl.None?
    ensures s.text.None? ==> (s.getUrl.Some? <==> s.postUrl.None?)
    ensures s.getUrl.Some? ==> WebAddress(s.getUrl.value)
    ensures s.postUrl.Some? ==> WebAddress(s.postUrl.value)
    ensures s.keyword == "default" && s.text.None? && Present(s.getUrl).Some? ==> Number(s.maxMessages) == Some("0")
  {
    assert ServiceValid(s);
    hide EnvName, SecretReferences, SmscValid, IsHttpUrl, WebAddress;
    OneAndZero();
    if s.getUrl.Some? { HttpUrlIs(s.getUrl.value); }
    if s.postUrl.Some? { HttpUrlIs(s.postUrl.value); }
  }

  /** The boxes of a valid model have ports of their own, and reach the engine through SQLBox when it is deployed. */
  lemma ValidBoxIsReachable(m: EngineConfiguration)
    requires ValidModel(m)
    ensures m.adminPort != m.smsboxPort
    ensures m.smsbox.Some? ==>
      var b := m.smsbox.value;
      && 0 < b.sendsmsPort < 0x1_0000 && b.sendsmsPort != m.adminPort && b.sendsmsPort != m.smsboxPort
      && b.bearerboxHost != ""
      && (m.sqlbox.Some? && m.sqlbox.value.enabled ==> b.bearerboxHost == m.sqlbox.value.serviceHost)
    ensures m.smsbox.None? ==> UserGroups(m.sendsmsUsers) == [] && ServiceGroups(m.smsServices) == []
    ensures StoreGroups(m) != [] ==> Present(m.dlrStorage.value.connectionId).Some?
  {
    hide EnvName, SecretReferences, SmscValid, ServiceValid, UserValid, ValuesScreened, StoreLines;
  }

  // ---- The printing order ----------------------------------------------------------

  /** The enabled links, and no others, by id. */
  ghost predicate LinksToPrint(links: seq<EngineSmsc>, m: EngineConfiguration, le: Collation) {
    && (forall s :: multiset(links)[s] == if s.enabled then multiset(m.smsc)[s] else 0)
    && (TotalOrder(le) ==> forall i, j :: 0 <= i < j < |links| ==> le(links[i].id, links[j].id))
  }

  /** All the users, by name. */
  ghost predicate UsersToPrint(users: seq<EngineSendsmsUser>, m: EngineConfiguration, le: Collation) {
    && multiset(users) == multiset(m.sendsmsUsers)
    && (TotalOrder(le) ==> forall i, j :: 0 <= i < j < |users| ==> le(users[i].username, users[j].username))
  }

  /** All the services, by keyword, but `default` last. */
  ghost predicate ServicesToPrint(services: seq<EngineSmsService>, m: EngineConfiguration, le: Collation) {
    && multiset(services) == multiset(m.smsServices)
    && (TotalOrder(le) ==> forall i, j :: 0 <= i < j < |services| && services[j].keyword != "default" ==>
        services[i].keyword != "default" && le(services[i].keyword, services[j].keyword))
  }

  lemma {:induction false} EnabledCount(ss: seq<EngineSmsc>, s: EngineSmsc)
    ensures multiset(Enabled(ss))[s] == if s.enabled then multiset(ss)[s] else 0
  {
    hide Enabled;
    EnabledStep(ss);
    if ss != [] {
      var n := |ss| - 1;
      EnabledCount(ss[..n], s);
      assert ss == ss[..n] + [ss[n]];
      CountAppended(ss[..n], ss[n], s);
      CountAppended(Enabled(ss[..n]), ss[n], s);
    }
  }

  lemma EnabledStep(ss: seq<EngineSmsc>)
    ensures ss == [] ==> Enabled(ss) == []
    ensures ss != [] ==>
      var n := |ss| - 1;
      Enabled(ss) == if ss[n].enabled then Enabled(ss[..n]) + [ss[n]] else Enabled(ss[..n])
  {
  }

  lemma CountAppended(a: seq<EngineSmsc>, last: EngineSmsc, s: EngineSmsc)
    ensures multiset(a + [last])[s] == multiset(a)[s] + if last == s then 1 else 0
  {
  }

  lemma LinksPrinted(m: EngineConfiguration, le: Collation)
    requires DistinctIds(m.smsc)
    ensures LinksToPrint(SmscsInOrder(m, le), m, le)
  {
    hide TotalOrder, Sort, Orders, DistinctIds, Enabled;
    SortIsPermutation(Enabled(m.smsc), ById(le));
    forall s ensures multiset(Enabled(m.smsc))[s] == if s.enabled then multiset(m.smsc)[s] else 0 {
      EnabledCount(m.smsc, s);
    }
    if TotalOrder(le) {
      EnabledDistinct(m.smsc);
      LinksOrdered(Enabled(m.smsc), le);
      SortSorts(Enabled(m.smsc), ById(le));
    }
  }

  lemma UsersPrinted(m: EngineConfiguration, le: Collation)
    requires DistinctUsernames(m.sendsmsUsers)
    ensures UsersToPrint(UsersInOrder(m, le), m, le)
  {
    hide TotalOrder, Sort, Orders, DistinctUsernames;
    SortIsPermutation(m.sendsmsUsers, ByUsername(le));
    if TotalOrder(le) {
      UsersOrdered(m.sendsmsUsers, le);
      SortSorts(m.sendsmsUsers, ByUsername(le));
    }
  }

  lemma ServicesPrinted(m: EngineConfiguration, le: Collation)
    ensures ServicesToPrint(ServicesInOrder(m, le), m, le)
  {
    hide TotalOrder, Sort, Orders;
    SortIsPermutation(m.smsServices, ByKeyword(le));
    if TotalOrder(le) {
      ServicesOrdered(m.smsServices, le);
      SortSorts(m.smsServices, ByKeyword(le));
      var r := ServicesInOrder(m, le);
      forall i, j | 0 <= i < j < |r| ensures IsDefault(r[j]) || (!IsDefault(r[i]) && le(r[i].keyword, r[j].keyword)) {
        assert ByKeyword(le)(r[i], r[j]);
      }
    }
  }

  lemma ValidNames(m: EngineConfiguration)
    requires ValidModel(m)
    ensures DistinctIds(m.smsc) && DistinctUsernames(m.sendsmsUsers)
  {
    hide CoreValid, SqlboxValid, SmscValid, ValuesScreened, SmsboxValid, DlrValid, UserValid, ServiceValid, Defaults;
    hide SecretReferences, EnvName;
  }

  /**
   * The file rendered from a valid model with tame unscreened fields says exactly this, in
   * this order: every group, and every directive with its value.
   */
  lemma RenderedFileSays(m: EngineConfiguration, le: Collation)
    returns (links: seq<EngineSmsc>, users: seq<EngineSendsmsUser>, services: seq<EngineSmsService>)
    requires ValidModel(m) && UnscreenedFieldsTame(m)
    ensures ReadFile(Content(m, le)) == Some(
      [Group("core", CoreLines(m))] + LinkGroups(links) + BoxGroups(m)
      + UserGroups(users) + ServiceGroups(services) + (SqlboxGroups(m) + StoreGroups(m)))
    ensures LinksToPrint(links, m, le) && UsersToPrint(users, m, le) && ServicesToPrint(services, m, le)
  {
    hide *;
    links, users, services := SmscsInOrder(m, le), UsersInOrder(m, le), ServicesInOrder(m, le);
    RenderedFileReadsBack(m, le);
    FileMeanings(m, le);
    ValidNames(m);
    LinksPrinted(m, le);
    UsersPrinted(m, le);
    ServicesPrinted(m, le);
  }
}
