/** The directive and group names of a rendered engine configuration. */
module ConfigDirectives {

  /** One unspaced word without the letter `c` in either case, and never "group", which starts a group. */
  predicate WordWithout(s: string, c: char)
    requires 'a' <= c <= 'z'
  {
    |s| > 0 && s[0] != '#' && (s[0] != 'g' || |s| != 5) && ' ' !in s && '\n' !in s && c !in s &&
      (c as int - 32) as char !in s
  }

  /** One unspaced word that lacks a letter of "include". */
  predicate PlainWord(s: string) {
    WordWithout(s, 'u') || WordWithout(s, 'l') || WordWithout(s, 'c') || WordWithout(s, 'n')
  }

  /** Lower-case letters and hyphens, lacking a letter of "include"; not "group", which starts a group. */
  predicate IsWord(s: string) {
    && s != "" && (s[0] != 'g' || |s| != 5)
    && (forall c :: c in s ==> 'a' <= c <= 'z' || c == '-')
    && ('u' !in s || 'l' !in s || 'c' !in s || 'n' !in s)
  }

  type Word = s: string | IsWord(s) witness "id"

  lemma WordIsPlain(w: Word)
    ensures PlainWord(w)
  {
    assert forall c :: c in w ==>
      ('a' <= c <= 'z' || c == '-') && c != ' ' && c != '\n' && c != 'U' && c != 'L' && c != 'C';
    assert w[0] in w && w[0] != '#';
  }

  // ---- The directives the renderer writes ------------------------------------------

  const ADMIN_PORT: Word := "admin-port"
  const SMSBOX_PORT: Word := "smsbox-port"
  const ADMIN_PASSWORD: Word := "admin-password"
  const STATUS_PASSWORD: Word := "status-password"
  const LOG_LEVEL: Word := "log-level"
  const LOG_FORMAT: Word := "log-format"
  const DLR_STORAGE: Word := "dlr-storage"
  const SMSC: Word := "smsc"
  const SMSC_ID: Word := "smsc-id"
  const INSTANCES: Word := "instances"
  const HOST: Word := "host"
  const PORT: Word := "port"
  const RECEIVE_PORT: Word := "receive-port"
  const SMSC_USERNAME: Word := "smsc-username"
  const SMSC_PASSWORD: Word := "smsc-password"
  const SYSTEM_TYPE: Word := "system-type"
  const INTERFACE_VERSION: Word := "interface-version"
  const ADDRESS_RANGE: Word := "address-range"
  const TRANSCEIVER_MODE: Word := "transceiver-mode"
  const SOURCE_ADDR_TON: Word := "source-addr-ton"
  const SOURCE_ADDR_NPI: Word := "source-addr-npi"
  const DEST_ADDR_TON: Word := "dest-addr-ton"
  const DEST_ADDR_NPI: Word := "dest-addr-npi"
  const MAX_PENDING_SUBMITS: Word := assert 'l' !in "max-pending-submits"; "max-pending-submits"
  const ENQUIRE_LINK_INTERVAL: Word := assert 'c' !in "enquire-link-interval"; "enquire-link-interval"
  const WAIT_ACK: Word := "wait-ack"
  const WAIT_ACK_EXPIRE: Word := "wait-ack-expire"
  const CONNECTION_TIMEOUT: Word := "connection-timeout"
  const RETRY: Word := "retry"
  const USE_SSL: Word := "use-ssl"
  const THROUGHPUT: Word := "throughput"
  const RECONNECT_DELAY: Word := "reconnect-delay"
  const MAX_ERROR_COUNT: Word := "max-error-count"
  const ALT_CHARSET: Word := "alt-charset"
  const ALLOWED_SMSC_ID: Word := "allowed-smsc-id"
  const DENIED_SMSC_ID: Word := "denied-smsc-id"
  const PREFERRED_SMSC_ID: Word := "preferred-smsc-id"
  const ALLOWED_PREFIX: Word := "allowed-prefix"
  const DENIED_PREFIX: Word := "denied-prefix"
  const PREFERRED_PREFIX: Word := "preferred-prefix"
  const SEND_URL: Word := "send-url"
  const USERNAME: Word := "username"
  const PASSWORD: Word := "password"
  const BEARERBOX_HOST: Word := "bearerbox-host"
  const SENDSMS_PORT: Word := "sendsms-port"
  const SMSBOX_ID: Word := "smsbox-id"
  const GLOBAL_SENDER: Word := "global-sender"
  const USER_ALLOW_IP: Word := "user-allow-ip"
  const DEFAULT_SENDER: Word := "default-sender"
  const MAX_MESSAGES: Word := "max-messages"
  const CONCATENATION: Word := "concatenation"
  const FORCED_SMSC: Word := "forced-smsc"
  const DEFAULT_SMSC: Word := "default-smsc"
  const KEYWORD: Word := "keyword"
  const ALIASES: Word := "aliases"
  const TEXT: Word := "text"
  const GET_URL: Word := "get-url"
  const POST_URL: Word := "post-url"
  const CATCH_ALL: Word := "catch-all"
  const OMIT_EMPTY: Word := "omit-empty"
  const ACCEPT_X_KANNEL_HEADERS: Word := assert 'u' !in "accept-x-kannel-headers"; "accept-x-kannel-headers"
  const SEND_SENDER: Word := "send-sender"
  const ID: Word := "id"
  const DATABASE: Word := "database"
  const TABLE: Word := "table"
  const FIELD_SMSC: Word := "field-smsc"
  const FIELD_TIMESTAMP: Word := "field-timestamp"
  const FIELD_DESTINATION: Word := "field-destination"
  const FIELD_SOURCE: Word := "field-source"
  const FIELD_SERVICE: Word := "field-service"
  const FIELD_URL: Word := "field-url"
  const FIELD_MASK: Word := "field-mask"
  const FIELD_STATUS: Word := "field-status"
  const FIELD_BOXC_ID: Word := "field-boxc-id"

  // ---- The values it supplies itself -----------------------------------------------

  const JSON: Word := "json"
  const KANNEL: Word := "kannel"
  const SQLBOX_CONNECTION: Word := "jkannel-sqlbox"
  const DLR_TABLE: Word := "dlr"
  const SMSC_COLUMN: Word := "smsc"
  const TIMESTAMP_COLUMN: Word := "ts"
  const DESTINATION_COLUMN: Word := "destination"
  const SOURCE_COLUMN: Word := "source"
  const SERVICE_COLUMN: Word := "service"
  const URL_COLUMN: Word := "url"
  const MASK_COLUMN: Word := "mask"
  const STATUS_COLUMN: Word := "status"
  const BOXC_COLUMN: Word := "boxc"

  datatype GroupName = Core | SmscGroup | Smsbox | SendsmsUser | SmsService | PgsqlConnection | DlrDb

  function GroupText(g: GroupName): string {
    match g
    case Core => "core" case SmscGroup => "smsc" case Smsbox => "smsbox" case SendsmsUser => "sendsms-user"
    case SmsService => "sms-service" case PgsqlConnection => "pgsql-connection" case DlrDb => "dlr-db"
  }

  lemma BoxGroupWords()
    ensures WordWithout("core", 'u') && WordWithout("smsc", 'u') && WordWithout("smsbox", 'u') &&
      WordWithout("sendsms-user", 'l')
  {
  }

  lemma ServiceGroupWords()
    ensures WordWithout("sms-service", 'u') && WordWithout("pgsql-connection", 'u') && WordWithout("dlr-db", 'u')
  {
  }

  lemma GroupIsPlain(g: GroupName)
    ensures PlainWord(GroupText(g)) && GroupText(g)[0] != '"'
  {
    hide WordWithout;
    BoxGroupWords();
    ServiceGroupWords();
  }

  /** What stands before a group: blank and comment lines. */
  datatype Preamble = FileNotice | Blank | SqlboxNotice | DlrNotice

  const FILE_NOTICE := ["#", "Generated", "by", "JKANNEL.", "Do", "not", "edit", "by", "hand."]
  const CREDENTIAL_NOTICE :=
    ["#", "Credentials", "appear", "only", "as", "${ENV}", "placeholders", "resolved", "by", "the", "engine",
      "runtime."]
  const SQLBOX_NOTICE := ["#", "SQLBox", "PostgreSQL", "connection", "(consumed", "by", "the", "SQLBox", "process)"]
  const DLR_NOTICE := ["#", "Delivery", "report", "persistence", "(survives", "an", "engine", "restart)"]

  function NoticeWords(p: Preamble): seq<seq<string>> {
    match p
    case FileNotice => [FILE_NOTICE, CREDENTIAL_NOTICE]
    case Blank => []
    case SqlboxNotice => [SQLBOX_NOTICE]
    case DlrNotice => [DLR_NOTICE]
  }

  /** The words of a notice: a hash mark, then words without spaces. */
  predicate PlainWords(ws: seq<string>) {
    |ws| >= 2 && ws[0] == "#" && forall w :: w in ws[1..] ==> PlainWord(w)
  }

  lemma CommonNoticeWords()
    ensures WordWithout("Generated", 'u') && WordWithout("by", 'u') && WordWithout("JKANNEL.", 'u') &&
      WordWithout("Do", 'u')
    ensures WordWithout("not", 'u') && WordWithout("edit", 'u') && WordWithout("hand.", 'u') &&
      WordWithout("as", 'u') && WordWithout("the", 'u')
  {
  }

  lemma CredentialNoticeWords()
    ensures WordWithout("Credentials", 'u') && WordWithout("appear", 'u') && WordWithout("only", 'u') &&
      WordWithout("${ENV}", 'u')
    ensures WordWithout("placeholders", 'u') && WordWithout("resolved", 'u') && WordWithout("engine", 'u')
  {
  }

  lemma ConnectionNoticeWords()
    ensures WordWithout("runtime.", 'l') && WordWithout("SQLBox", 'u') && WordWithout("PostgreSQL", 'u')
    ensures WordWithout("connection", 'u') && WordWithout("(consumed", 'l') && WordWithout("process)", 'u')
  {
  }

  lemma DeliveryNoticeWords()
    ensures WordWithout("Delivery", 'u') && WordWithout("report", 'u') && WordWithout("persistence", 'u')
    ensures WordWithout("(survives", 'l') && WordWithout("an", 'u') && WordWithout("restart)", 'u')
  {
  }

  lemma FileNoticePlain()
    ensures PlainWords(FILE_NOTICE)
  {
    hide WordWithout;
    CommonNoticeWords();
  }

  lemma CredentialNoticePlain()
    ensures PlainWords(CREDENTIAL_NOTICE)
  {
    hide WordWithout;
    CommonNoticeWords();
    CredentialNoticeWords();
    ConnectionNoticeWords();
  }

  lemma SqlboxNoticePlain()
    ensures PlainWords(SQLBOX_NOTICE)
  {
    hide WordWithout;
    CommonNoticeWords();
    ConnectionNoticeWords();
  }

  lemma DlrNoticePlain()
    ensures PlainWords(DLR_NOTICE)
  {
    hide WordWithout;
    CredentialNoticeWords();
    DeliveryNoticeWords();
  }

  lemma NoticesPlain(p: Preamble)
    ensures forall ws :: ws in NoticeWords(p) ==> PlainWords(ws)
  {
    hide PlainWords;
    FileNoticePlain();
    CredentialNoticePlain();
    SqlboxNoticePlain();
    DlrNoticePlain();
  }
}
