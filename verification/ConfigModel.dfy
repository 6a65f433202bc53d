/**
 * The engine model a configuration is rendered from, and what validation
 * demands of it (backend/src/configuration/configuration-generator.service.ts).
 */
module ConfigModel {
  import opened Text
  import opened ConfigValueSafety
  import opened SecretResolver

  datatype SmscKind = Smpp | Http | Fake | At

  datatype BindMode = Transceiver | Transmitter | Receiver

  /** `unscaled / 10^scale`: a number written without an exponent. */
  datatype Decimal = Decimal(unscaled: int, scale: nat)

  datatype EngineSmsc = EngineSmsc(
    id: string, kind: SmscKind, enabled: bool,
    host: Option<string>, port: Option<int>, receivePort: Option<int>,
    username: Option<string>, usernameSecretRef: Option<string>, passwordSecretRef: Option<string>,
    systemType: Option<string>, bindMode: Option<BindMode>, interfaceVersion: Option<int>,
    addressRange: Option<string>,
    sourceAddrTon: Option<int>, sourceAddrNpi: Option<int>, destAddrTon: Option<int>, destAddrNpi: Option<int>,
    windowSize: Option<int>, throughput: Option<Decimal>, keepaliveSeconds: Option<int>,
    reconnectDelaySeconds: Option<int>, waitAckSeconds: Option<int>, maxErrorCount: Option<int>,
    useTls: bool, altCharset: Option<string>, sendUrl: Option<string>,
    connectionCount: Option<int>, connectionTimeoutSeconds: Option<int>, waitAckExpireAction: Option<int>,
    retryOnAuthFailure: bool,
    allowedSmscIds: Option<seq<string>>, deniedSmscIds: Option<seq<string>>, preferredSmscIds: Option<seq<string>>,
    allowedPrefixes: Option<seq<string>>, deniedPrefixes: Option<seq<string>>, preferredPrefixes: Option<seq<string>>)

  datatype EngineSmsbox = EngineSmsbox(
    bearerboxHost: string, sendsmsPort: int, smsboxId: Option<string>, globalSender: Option<string>,
    logLevel: Option<nat>)

  datatype EngineSendsmsUser = EngineSendsmsUser(
    username: string, passwordSecretRef: string, defaultSender: Option<string>, allowedIps: Option<string>,
    maxMessages: Option<int>, concatenation: Option<bool>, forcedSmsc: Option<string>, defaultSmsc: Option<string>)

  datatype EngineSmsService = EngineSmsService(
    keyword: string, aliases: seq<string>, text: Option<string>, getUrl: Option<string>, postUrl: Option<string>,
    maxMessages: Option<int>, concatenation: Option<bool>, catchAll: Option<bool>, omitEmpty: Option<bool>,
    acceptXKannelHeaders: Option<bool>, sendSender: Option<bool>)

  datatype DlrStorageKind = Internal | Spool | Pgsql | Mysql | Redis

  datatype EngineDlrStorage = EngineDlrStorage(
    kind: DlrStorageKind, connectionId: Option<string>, table: Option<string>)

  datatype EngineSqlbox = EngineSqlbox(
    enabled: bool, serviceHost: string, host: string, port: int, database: string, usernameEnv: string,
    passwordEnv: string)

  datatype EngineConfiguration = EngineConfiguration(
    adminPort: int, smsboxPort: int, adminSecretRef: string, statusSecretRef: Option<string>, logLevel: nat,
    sqlbox: Option<EngineSqlbox>, smsc: seq<EngineSmsc>, smsbox: Option<EngineSmsbox>,
    sendsmsUsers: seq<EngineSendsmsUser>, smsServices: seq<EngineSmsService>, dlrStorage: Option<EngineDlrStorage>)

  const DEFAULT_STATUS_SECRET_REF := "secret://kamex/status-password"
  const LIST_SEPARATOR := ';'

  datatype Rule =
    | PortsDiffer | AdminSecret | StatusSecret | SqlboxTarget | SqlboxServiceHost | SqlboxCredentials
    | DuplicateSmsc | HostAndPort | FakePort | UsernameMissing | SystemTypeMissing | CredentialSecret | PasswordSecret
    | ReceiverPort | InterfaceVersionValue | AddressAttribute | WindowSize | ThroughputRate | Keepalive
    | ReconnectDelayRange
    | WaitAckRange | ConnectionCount | SingleListener | ConnectionTimeoutRange | WaitAckExpireValue | HttpSendUrl
    | AtUnsupported
    | RoutingEntry | AllowAndDeny
    | BoxRequired | BearerboxHostMissing | SendsmsPortRange | SendsmsPortClash | SqlboxBypass
    | UserName | DuplicateUser | UserSecret | OneDefault | ServiceKeyword | ServiceTarget | ServiceUrl
    | DefaultReply | DlrConnection | SecretName
    | RenderedValue

  function Check(ok: bool, rule: Rule): (r: seq<Rule>)
    ensures r == [] <==> ok
  {
    if ok then [] else [rule]
  }

  // ---- JavaScript's view of an absent value ----------------------------------------

  predicate Missing(s: Option<string>) { s.None? || s.value == "" }

  predicate NoPort(p: Option<int>) { p.None? || p.value == 0 }

  predicate Within(v: Option<int>, lo: int, hi: int) { v.Some? ==> lo <= v.value <= hi }

  predicate SecretRefShaped(s: Option<string>) { Missing(s) || StartsWith(s.value, PREFIX) }

  function ListOf(list: Option<seq<string>>): seq<string> { if list.None? then [] else list.value }

  function RoutingLists(s: EngineSmsc): seq<seq<string>> {
    [ListOf(s.allowedSmscIds), ListOf(s.deniedSmscIds), ListOf(s.preferredSmscIds),
     ListOf(s.allowedPrefixes), ListOf(s.deniedPrefixes), ListOf(s.preferredPrefixes)]
  }

  function StatusRef(m: EngineConfiguration): string {
    if m.statusSecretRef.None? then DEFAULT_STATUS_SECRET_REF else m.statusSecretRef.value
  }

  // ---- What validation demands -----------------------------------------------------

  predicate IsEnvVariable(s: string) {
    |s| >= 2 && IsUpper(s[0]) && forall c :: c in s ==> IsNameChar(c) || c == '_'
  }

  predicate CoreValid(m: EngineConfiguration) {
    && m.adminPort != m.smsboxPort
    && StartsWith(m.adminSecretRef, PREFIX)
    && SecretRefShaped(m.statusSecretRef)
  }

  predicate SqlboxValid(m: EngineConfiguration) {
    m.sqlbox.Some? && m.sqlbox.value.enabled ==>
      var b := m.sqlbox.value;
      b.host != "" && b.database != "" && b.serviceHost != "" && IsEnvVariable(b.usernameEnv) &&
        IsEnvVariable(b.passwordEnv)
  }

  predicate ConnectionValid(s: EngineSmsc) {
    && (s.kind != Fake ==> !Missing(s.host) && !NoPort(s.port))
    && (s.enabled && s.kind == Fake ==> !NoPort(s.port))
    && (s.enabled && s.kind == Smpp ==> !Missing(s.username) || !Missing(s.usernameSecretRef))
    && (s.enabled && s.kind == Smpp ==> s.systemType.Some?)
    && SecretRefShaped(s.usernameSecretRef) && SecretRefShaped(s.passwordSecretRef)
  }

  predicate AttributesValid(s: EngineSmsc) {
    && (s.bindMode == Some(Receiver) ==> !NoPort(if s.receivePort.Some? then s.receivePort else s.port))
    && (s.interfaceVersion.Some? ==> s.interfaceVersion.value in {33, 34, 50})
    && Within(s.sourceAddrTon, 0, 255) && Within(s.sourceAddrNpi, 0, 255)
    && Within(s.destAddrTon, 0, 255) && Within(s.destAddrNpi, 0, 255)
    && Within(s.windowSize, 1, 1000)
    && (s.throughput.Some? ==> s.throughput.value.unscaled > 0)
    && Within(s.keepaliveSeconds, 0, 3600) && Within(s.reconnectDelaySeconds, 0, 3600)
    && Within(s.waitAckSeconds, 1, 3600)
    && Within(s.connectionCount, 1, 64)
    && (s.connectionCount.Some? && s.connectionCount.value > 1 ==> s.kind == Smpp)
    && Within(s.connectionTimeoutSeconds, 0, 86400) && Within(s.waitAckExpireAction, 0, 2)
    && (s.kind == Http && s.enabled ==> !Missing(s.sendUrl))
    && (s.enabled ==> s.kind != At)
  }

  predicate RoutingEntryValid(e: string) { Trim(e) != "" && LIST_SEPARATOR !in e }

  predicate RoutingListValid(list: seq<string>) { forall e :: e in list ==> RoutingEntryValid(e) }

  predicate RoutingValid(s: EngineSmsc) {
    && (forall list :: list in RoutingLists(s) ==> RoutingListValid(list))
    && (ListOf(s.allowedSmscIds) == [] || ListOf(s.deniedSmscIds) == [])
  }

  predicate SmscValid(s: EngineSmsc) { ConnectionValid(s) && AttributesValid(s) && RoutingValid(s) }

  predicate DistinctIds(ss: seq<EngineSmsc>) { forall i, j :: 0 <= i < j < |ss| ==> ss[i].id != ss[j].id }

  predicate DistinctUsernames(us: seq<EngineSendsmsUser>) {
    forall i, j :: 0 <= i < j < |us| ==> us[i].username != us[j].username
  }

  predicate SmsboxValid(m: EngineConfiguration) {
    && (m.smsbox.None? ==> m.sendsmsUsers == [] && m.smsServices == [])
    && (m.smsbox.Some? ==>
      var b := m.smsbox.value;
      && b.bearerboxHost != "" && 1 <= b.sendsmsPort <= 65535
      && b.sendsmsPort != m.adminPort && b.sendsmsPort != m.smsboxPort
      && (m.sqlbox.Some? && m.sqlbox.value.enabled && m.sqlbox.value.serviceHost != ""
        ==> b.bearerboxHost == m.sqlbox.value.serviceHost))
  }

  predicate UserValid(u: EngineSendsmsUser) { u.username != "" && StartsWith(u.passwordSecretRef, PREFIX) }

  /** Absolute http or https URL with something after the slashes, no white space, no quote. */
  predicate IsHttpUrl(s: string) {
    exists n :: 0 <= n < |s| && (s[..n] == "http://" || s[..n] == "https://")
      && forall i :: n <= i < |s| ==> !IsSpace(s[i]) && s[i] != '"'
  }

  function Targets(s: EngineSmsService): nat {
    (if s.text.Some? then 1 else 0) + (if s.getUrl.Some? then 1 else 0) + (if s.postUrl.Some? then 1 else 0)
  }

  predicate ServiceValid(s: EngineSmsService) {
    && s.keyword != "" && Targets(s) == 1
    && (s.getUrl.Some? ==> IsHttpUrl(s.getUrl.value)) && (s.postUrl.Some? ==> IsHttpUrl(s.postUrl.value))
    && (s.keyword == "default" && (!Missing(s.getUrl) || !Missing(s.postUrl)) ==> s.maxMessages == Some(0))
  }

  predicate IsDefault(s: EngineSmsService) { s.keyword == "default" }

  /** How many services use the keyword `default`. */
  function Defaults(ss: seq<EngineSmsService>): nat {
    if ss == [] then 0 else Defaults(ss[..|ss| - 1]) + (if IsDefault(ss[|ss| - 1]) then 1 else 0)
  }

  predicate DlrValid(m: EngineConfiguration) { DbBacked(m) ==> !Missing(m.dlrStorage.value.connectionId) }

  predicate DbBacked(m: EngineConfiguration) { m.dlrStorage.Some? && m.dlrStorage.value.kind in {Pgsql, Mysql} }

  predicate BoxesValid(m: EngineConfiguration) {
    && SmsboxValid(m) && DlrValid(m)
    && DistinctUsernames(m.sendsmsUsers)
    && (forall u :: u in m.sendsmsUsers ==> UserValid(u))
    && (m.smsServices != [] ==> Defaults(m.smsServices) == 1)
    && (forall s :: s in m.smsServices ==> ServiceValid(s))
    && (forall r :: r in SecretReferences(m) ==> EnvName(r).Some?)
  }

  // ---- Secret references -----------------------------------------------------------

  function RefIfSecret(r: Option<string>): seq<string> {
    if r.Some? && StartsWith(r.value, PREFIX) then [r.value] else []
  }

  function SmscReferences(ss: seq<EngineSmsc>): seq<string> {
    if ss == [] then []
    else
      var s := ss[|ss| - 1];
      SmscReferences(ss[..|ss| - 1])
        + (if s.enabled then RefIfSecret(s.usernameSecretRef) + RefIfSecret(s.passwordSecretRef) else [])
  }

  function UserReferences(us: seq<EngineSendsmsUser>): seq<string> {
    if us == [] then []
    else UserReferences(us[..|us| - 1]) + RefIfSecret(Some(us[|us| - 1].passwordSecretRef))
  }

  /** Every secret reference the model carries, in render order; disabled SMSCs carry none. */
  function SecretReferences(m: EngineConfiguration): seq<string> {
    RefIfSecret(Some(m.adminSecretRef)) + RefIfSecret(Some(StatusRef(m)))
      + SmscReferences(m.smsc) + UserReferences(m.sendsmsUsers)
  }

  // ---- Screened values -------------------------------------------------------------

  ghost predicate ListScreened(list: seq<string>) { forall e :: e in list ==> Screened(Some(e)) }

  ghost predicate SmscScreened(s: EngineSmsc) {
    && Screened(s.host) && Screened(Some(s.id)) && Screened(s.systemType) && Screened(s.addressRange)
    && Screened(s.altCharset) && Screened(s.sendUrl)
    && forall list :: list in RoutingLists(s) ==> ListScreened(list)
  }

  ghost predicate UserScreened(u: EngineSendsmsUser) {
    && Screened(Some(u.username)) && Screened(u.allowedIps) && Screened(u.defaultSmsc)
    && Screened(u.forcedSmsc) && Screened(u.defaultSender)
  }

  /** The aliases are an array, which the screening skips. */
  ghost predicate ServiceScreened(s: EngineSmsService) {
    Screened(Some(s.keyword)) && Screened(s.text) && Screened(s.getUrl) && Screened(s.postUrl)
  }

  ghost predicate SmsboxScreened(b: EngineSmsbox) {
    Screened(Some(b.bearerboxHost)) && Screened(b.smsboxId) && Screened(b.globalSender)
  }

  ghost predicate ValuesScreened(m: EngineConfiguration) {
    && (forall s :: s in m.smsc ==> SmscScreened(s))
    && (m.smsbox.Some? ==> SmsboxScreened(m.smsbox.value))
    && (forall u :: u in m.sendsmsUsers ==> UserScreened(u))
    && (forall s :: s in m.smsServices ==> ServiceScreened(s))
  }

  /** A model validation finds nothing wrong with. */
  ghost predicate ValidModel(m: EngineConfiguration) {
    && CoreValid(m) && SqlboxValid(m)
    && DistinctIds(m.smsc) && (forall s :: s in m.smsc ==> SmscValid(s))
    && BoxesValid(m) && ValuesScreened(m)
  }
}
