/** Validation of an engine model, as it runs (configuration-generator.service.ts, `validate` and its parts). */
module ConfigValidator {
  import opened Text
  import opened ConfigValueSafety
  import opened SecretResolver
  import opened ConfigModel

  function CoreErrors(m: EngineConfiguration): (r: seq<Rule>)
    ensures r == [] <==> CoreValid(m)
  {
    Check(m.adminPort != m.smsboxPort, PortsDiffer)
    + Check(StartsWith(m.adminSecretRef, PREFIX), AdminSecret)
    + Check(SecretRefShaped(m.statusSecretRef), StatusSecret)
  }

  function SqlboxErrors(m: EngineConfiguration): (r: seq<Rule>)
    ensures r == [] <==> SqlboxValid(m)
  {
    if m.sqlbox.None? || !m.sqlbox.value.enabled then []
    else
      var b := m.sqlbox.value;
      Check(b.host != "" && b.database != "", SqlboxTarget)
      + Check(b.serviceHost != "", SqlboxServiceHost)
      + Check(IsEnvVariable(b.usernameEnv) && IsEnvVariable(b.passwordEnv), SqlboxCredentials)
  }

  function ConnectionErrors(s: EngineSmsc): (r: seq<Rule>)
    ensures r == [] <==> ConnectionValid(s)
  {
    Check(s.kind == Fake || (!Missing(s.host) && !NoPort(s.port)), HostAndPort)
    + Check(!(s.enabled && s.kind == Fake && NoPort(s.port)), FakePort)
    + Check(!(s.enabled && s.kind == Smpp && Missing(s.username) && Missing(s.usernameSecretRef)), UsernameMissing)
    + Check(!(s.enabled && s.kind == Smpp && s.systemType.None?), SystemTypeMissing)
    + Check(SecretRefShaped(s.usernameSecretRef), CredentialSecret)
    + Check(SecretRefShaped(s.passwordSecretRef), PasswordSecret)
  }

  function ResilienceErrors(s: EngineSmsc): seq<Rule> {
    (if s.connectionCount.None? then []
     else if !Within(s.connectionCount, 1, 64) then [ConnectionCount]
     else Check(s.connectionCount.value <= 1 || s.kind == Smpp, SingleListener))
    + Check(Within(s.connectionTimeoutSeconds, 0, 86400), ConnectionTimeoutRange)
    + Check(Within(s.waitAckExpireAction, 0, 2), WaitAckExpireValue)
  }

  function AttributeErrors(s: EngineSmsc): (r: seq<Rule>)
    ensures r == [] <==> AttributesValid(s)
  {
    Check(s.bindMode == Some(Receiver) ==> !NoPort(if s.receivePort.Some? then s.receivePort else s.port), ReceiverPort)
    + Check(s.interfaceVersion.Some? ==> s.interfaceVersion.value in {33, 34, 50}, InterfaceVersionValue)
    + Check(Within(s.sourceAddrTon, 0, 255), AddressAttribute) +
      Check(Within(s.sourceAddrNpi, 0, 255), AddressAttribute)
    + Check(Within(s.destAddrTon, 0, 255), AddressAttribute) + Check(Within(s.destAddrNpi, 0, 255), AddressAttribute)
    + Check(Within(s.windowSize, 1, 1000), WindowSize)
    + Check(s.throughput.Some? ==> s.throughput.value.unscaled > 0, ThroughputRate)
    + Check(Within(s.keepaliveSeconds, 0, 3600), Keepalive)
    + Check(Within(s.reconnectDelaySeconds, 0, 3600), ReconnectDelayRange)
    + Check(Within(s.waitAckSeconds, 1, 3600), WaitAckRange)
    + ResilienceErrors(s)
    + Check(!(s.kind == Http && s.enabled && Missing(s.sendUrl)), HttpSendUrl)
    + Check(!(s.kind == At && s.enabled), AtUnsupported)
  }

  /** The allowed, denied and preferred lists, entry by entry. */
  method ValidateSmscRouting(s: EngineSmsc) returns (errors: seq<Rule>)
    ensures errors == [] <==> RoutingValid(s)
  {
    errors := [];
    var lists := RoutingLists(s);
    hide RoutingLists, RoutingEntryValid;
    for k := 0 to |lists|
      invariant errors == [] <==> forall i :: 0 <= i < k ==> RoutingListValid(lists[i])
    {
      var list := lists[k];
      for j := 0 to |list|
        invariant errors == [] <==>
          && (forall i :: 0 <= i < k ==> RoutingListValid(lists[i]))
          && (forall i :: 0 <= i < j ==> RoutingEntryValid(list[i]))
      {
        if !RoutingEntryValid(list[j]) { errors := errors + [RoutingEntry]; }
      }
      assert RoutingListValid(list) <==> forall i :: 0 <= i < |list| ==> RoutingEntryValid(list[i]);
    }
    assert forall i :: 0 <= i < |lists| ==> lists[i] in lists;
    if ListOf(s.allowedSmscIds) != [] && ListOf(s.deniedSmscIds) != [] { errors := errors + [AllowAndDeny]; }
  }

  method ValidateSmsc(s: EngineSmsc) returns (errors: seq<Rule>)
    ensures errors == [] <==> SmscValid(s)
  {
    var routing := ValidateSmscRouting(s);
    errors := ConnectionErrors(s) + AttributeErrors(s) + routing;
  }

  method ValidateSmscs(ss: seq<EngineSmsc>) returns (errors: seq<Rule>)
    ensures errors == [] <==> DistinctIds(ss) && forall s :: s in ss ==> SmscValid(s)
  {
    hide SmscValid;
    errors := [];
    var ids: set<string> := {};
    for k := 0 to |ss|
      invariant forall x :: x in ids <==> exists i :: 0 <= i < k && ss[i].id == x
      invariant errors == [] <==> DistinctIds(ss[..k]) && forall i :: 0 <= i < k ==> SmscValid(ss[i])
    {
      if ss[k].id in ids { errors := errors + [DuplicateSmsc]; }
      ids := ids + {ss[k].id};
      var more := ValidateSmsc(ss[k]);
      errors := errors + more;
      assert ss[..k + 1] == ss[..k] + [ss[k]];
    }
    assert ss[..|ss|] == ss;
  }

  function SmsboxErrors(m: EngineConfiguration): (r: seq<Rule>)
    ensures r == [] <==> SmsboxValid(m)
  {
    if m.smsbox.None? then Check(m.sendsmsUsers == [] && m.smsServices == [], BoxRequired)
    else
      var b := m.smsbox.value;
      Check(b.bearerboxHost != "", BearerboxHostMissing)
      + Check(1 <= b.sendsmsPort <= 65535, SendsmsPortRange)
      + Check(b.sendsmsPort != m.adminPort && b.sendsmsPort != m.smsboxPort, SendsmsPortClash)
      + (if m.sqlbox.None? || !m.sqlbox.value.enabled || m.sqlbox.value.serviceHost == "" then []
         else Check(b.bearerboxHost == m.sqlbox.value.serviceHost, SqlboxBypass))
  }

  method ValidateUsers(us: seq<EngineSendsmsUser>) returns (errors: seq<Rule>)
    ensures errors == [] <==> DistinctUsernames(us) && forall u :: u in us ==> UserValid(u)
  {
    errors := [];
    var usernames: set<string> := {};
    for k := 0 to |us|
      invariant forall x :: x in usernames <==> exists i :: 0 <= i < k && us[i].username == x
      invariant errors == [] <==> DistinctUsernames(us[..k]) && forall i :: 0 <= i < k ==> UserValid(us[i])
    {
      var u := us[k];
      if u.username == "" { errors := errors + [UserName]; }
      if u.username in usernames { errors := errors + [DuplicateUser]; }
      usernames := usernames + {u.username};
      if !StartsWith(u.passwordSecretRef, PREFIX) { errors := errors + [UserSecret]; }
      assert us[..k + 1] == us[..k] + [u];
    }
    assert us[..|us|] == us;
  }

  function ServiceErrors(s: EngineSmsService): (r: seq<Rule>)
    ensures r == [] <==> ServiceValid(s)
  {
    Check(s.keyword != "", ServiceKeyword)
    + Check(Targets(s) == 1, ServiceTarget)
    + Check(s.getUrl.Some? ==> IsHttpUrl(s.getUrl.value), ServiceUrl)
    + Check(s.postUrl.Some? ==> IsHttpUrl(s.postUrl.value), ServiceUrl)
    + Check(!((!Missing(s.getUrl) || !Missing(s.postUrl)) && s.maxMessages != Some(0) && s.keyword == "default"),
      DefaultReply)
  }

  method ValidateServices(ss: seq<EngineSmsService>) returns (errors: seq<Rule>)
    ensures errors == [] <==> (ss != [] ==> Defaults(ss) == 1) && forall s :: s in ss ==> ServiceValid(s)
  {
    hide ServiceValid;
    if ss == [] { return []; }
    errors := [];
    var defaults := 0;
    for k := 0 to |ss|
      invariant defaults == Defaults(ss[..k])
    {
      assert ss[..k + 1][..k] == ss[..k];
      if IsDefault(ss[k]) { defaults := defaults + 1; }
    }
    assert ss[..|ss|] == ss;
    if defaults != 1 { errors := [OneDefault]; }
    for k := 0 to |ss|
      invariant errors == [] <==> Defaults(ss) == 1 && forall i :: 0 <= i < k ==> ServiceValid(ss[i])
    {
      errors := errors + ServiceErrors(ss[k]);
    }
  }

  /** Every `secret://` reference of the model, in render order. */
  method CollectSecretReferences(m: EngineConfiguration) returns (references: seq<string>)
    ensures references == SecretReferences(m)
  {
    hide StatusRef, RefIfSecret;
    references := RefIfSecret(Some(m.adminSecretRef)) + RefIfSecret(Some(StatusRef(m)));
    ghost var core := references;
    for k := 0 to |m.smsc|
      invariant references == core + SmscReferences(m.smsc[..k])
    {
      var s := m.smsc[k];
      assert m.smsc[..k + 1][..k] == m.smsc[..k];
      if s.enabled {
        references := references + (RefIfSecret(s.usernameSecretRef) + RefIfSecret(s.passwordSecretRef));
      }
    }
    assert m.smsc[..|m.smsc|] == m.smsc;
    ghost var links := references;
    for k := 0 to |m.sendsmsUsers|
      invariant references == links + UserReferences(m.sendsmsUsers[..k])
    {
      assert m.sendsmsUsers[..k + 1][..k] == m.sendsmsUsers[..k];
      references := references + RefIfSecret(Some(m.sendsmsUsers[k].passwordSecretRef));
    }
    assert m.sendsmsUsers[..|m.sendsmsUsers|] == m.sendsmsUsers;
  }

  method ValidateSecretNames(references: seq<string>) returns (errors: seq<Rule>)
    ensures errors == [] <==> forall r :: r in references ==> EnvName(r).Some?
  {
    hide EnvName;
    errors := [];
    for k := 0 to |references|
      invariant errors == [] <==> forall i :: 0 <= i < k ==> EnvName(references[i]).Some?
    {
      if EnvName(references[k]).None? { errors := errors + [SecretName]; }
    }
  }

  method ValidateBoxes(m: EngineConfiguration) returns (errors: seq<Rule>)
    ensures errors == [] <==> BoxesValid(m)
  {
    var users := ValidateUsers(m.sendsmsUsers);
    var services := ValidateServices(m.smsServices);
    var references := CollectSecretReferences(m);
    var names := ValidateSecretNames(references);
    hide EnvName, SecretReferences, UserValid, ServiceValid, SmsboxValid, DistinctUsernames;
    errors := SmsboxErrors(m) + users + services + Check(DlrValid(m), DlrConnection) + names;
  }

  ghost predicate AllScreened(es: seq<(string, Option<string>)>) { forall e :: e in es ==> Screened(e.1) }

  lemma AllScreenedAppend(a: seq<(string, Option<string>)>, b: seq<(string, Option<string>)>)
    ensures AllScreened(a + b) <==> AllScreened(a) && AllScreened(b)
  {
    hide Screened;
    assert forall e :: e in a ==> e in a + b;
    assert forall e :: e in b ==> e in a + b;
  }

  function RoutingEntries(lists: seq<seq<string>>): seq<(string, Option<string>)> {
    if lists == [] then []
    else
      var last := lists[|lists| - 1];
      RoutingEntries(lists[..|lists| - 1]) + seq(|last|, i requires 0 <= i < |last| => ("routing", Some(last[i])))
  }

  lemma MappedScreened(list: seq<string>, mapped: seq<(string, Option<string>)>)
    requires |mapped| == |list| && forall i :: 0 <= i < |list| ==> mapped[i].1 == Some(list[i])
    ensures AllScreened(mapped) <==> ListScreened(list)
  {
    hide Screened;
    if ListScreened(list) {
      assert forall i :: 0 <= i < |mapped| ==> list[i] in list;
    }
    if AllScreened(mapped) {
      assert forall i :: 0 <= i < |mapped| ==> mapped[i] in mapped;
    }
  }

  lemma {:induction false} RoutingEntriesCover(lists: seq<seq<string>>)
    ensures AllScreened(RoutingEntries(lists)) <==> forall list :: list in lists ==> ListScreened(list)
  {
    if lists != [] {
      var n := |lists| - 1;
      var last := lists[n];
      var mapped := seq(|last|, i requires 0 <= i < |last| => ("routing", Some(last[i])));
      RoutingEntriesCover(lists[..n]);
      MappedScreened(last, mapped);
      AllScreenedAppend(RoutingEntries(lists[..n]), mapped);
      assert lists == lists[..n] + [last];
      hide Screened, AllScreened, ListScreened;
    }
  }

  function TextEntries(s: EngineSmsc): seq<(string, Option<string>)> {
    [("host", s.host), ("id", Some(s.id)), ("systemType", s.systemType), ("addressRange", s.addressRange),
     ("altCharset", s.altCharset), ("sendUrl", s.sendUrl)]
  }

  function SmscEntries(s: EngineSmsc): seq<(string, Option<string>)> {
    TextEntries(s) + RoutingEntries(RoutingLists(s))
  }

  function UserEntries(u: EngineSendsmsUser): seq<(string, Option<string>)> {
    [("username", Some(u.username)), ("allowedIps", u.allowedIps), ("defaultSmsc", u.defaultSmsc),
     ("forcedSmsc", u.forcedSmsc), ("defaultSender", u.defaultSender)]
  }

  function ServiceEntries(s: EngineSmsService): seq<(string, Option<string>)> {
    [("keyword", Some(s.keyword)), ("aliases", None), ("text", s.text), ("getUrl", s.getUrl), ("postUrl", s.postUrl)]
  }

  lemma TextEntriesScreened(s: EngineSmsc)
    ensures AllScreened(TextEntries(s)) <==>
      && Screened(s.host) && Screened(Some(s.id)) && Screened(s.systemType) && Screened(s.addressRange)
      && Screened(s.altCharset) && Screened(s.sendUrl)
  {
    hide Screened;
    var es := TextEntries(s);
    assert es[0] in es && es[1] in es && es[2] in es && es[3] in es && es[4] in es && es[5] in es;
  }

  lemma SmscEntriesScreened(s: EngineSmsc)
    ensures AllScreened(SmscEntries(s)) <==> SmscScreened(s)
  {
    hide Screened, AllScreened, ListScreened, TextEntries, RoutingLists, RoutingEntries;
    TextEntriesScreened(s);
    RoutingEntriesCover(RoutingLists(s));
    AllScreenedAppend(TextEntries(s), RoutingEntries(RoutingLists(s)));
  }

  lemma UserEntriesScreened(u: EngineSendsmsUser)
    ensures AllScreened(UserEntries(u)) <==> UserScreened(u)
  {
    hide Screened;
    var es := UserEntries(u);
    assert es[0] in es && es[1] in es && es[2] in es && es[3] in es && es[4] in es;
  }

  lemma ServiceEntriesScreened(s: EngineSmsService)
    ensures AllScreened(ServiceEntries(s)) <==> ServiceScreened(s)
  {
    var es := ServiceEntries(s);
    assert Screened(es[1].1);
    hide Screened;
    assert es[0] in es && es[2] in es && es[3] in es && es[4] in es;
  }

  /** Screens every operator-supplied string it lists. */
  method ValidateRenderedValues(m: EngineConfiguration) returns (errors: seq<Rule>)
    ensures errors == [] <==> ValuesScreened(m)
  {
    var entries: seq<(string, Option<string>)> := [];
    hide Screened, SmscEntries, UserEntries, ServiceEntries, SmscScreened, UserScreened, ServiceScreened, AllScreened;
    AllScreenedMeans(entries);
    for k := 0 to |m.smsc|
      invariant AllScreened(entries) <==> forall i :: 0 <= i < k ==> SmscScreened(m.smsc[i])
    {
      AllScreenedAppend(entries, SmscEntries(m.smsc[k]));
      SmscEntriesScreened(m.smsc[k]);
      entries := entries + SmscEntries(m.smsc[k]);
    }
    if m.smsbox.Some? {
      var b := m.smsbox.value;
      var box := [("bearerboxHost", Some(b.bearerboxHost)), ("smsboxId", b.smsboxId), ("globalSender", b.globalSender)];
      SmsboxEntriesScreened(b, box);
      AllScreenedAppend(entries, box);
      entries := entries + box;
    }
    for k := 0 to |m.sendsmsUsers|
      invariant AllScreened(entries) <==>
        && (forall s :: s in m.smsc ==> SmscScreened(s))
        && (m.smsbox.Some? ==> SmsboxScreened(m.smsbox.value))
        && (forall i :: 0 <= i < k ==> UserScreened(m.sendsmsUsers[i]))
    {
      AllScreenedAppend(entries, UserEntries(m.sendsmsUsers[k]));
      UserEntriesScreened(m.sendsmsUsers[k]);
      entries := entries + UserEntries(m.sendsmsUsers[k]);
    }
    for k := 0 to |m.smsServices|
      invariant AllScreened(entries) <==>
        && (forall s :: s in m.smsc ==> SmscScreened(s))
        && (m.smsbox.Some? ==> SmsboxScreened(m.smsbox.value))
        && (forall u :: u in m.sendsmsUsers ==> UserScreened(u))
        && (forall i :: 0 <= i < k ==> ServiceScreened(m.smsServices[i]))
    {
      AllScreenedAppend(entries, ServiceEntries(m.smsServices[k]));
      ServiceEntriesScreened(m.smsServices[k]);
      entries := entries + ServiceEntries(m.smsServices[k]);
    }
    var problems := CollectConfigValueProblems(entries);
    AllScreenedMeans(entries);
    errors := seq(|problems|, i => RenderedValue);
  }

  lemma AllScreenedMeans(es: seq<(string, Option<string>)>)
    ensures AllScreened(es) <==> forall e :: e in es ==> Screened(e.1)
  {
    hide Screened;
  }

  lemma SmsboxEntriesScreened(b: EngineSmsbox, box: seq<(string, Option<string>)>)
    requires box ==
      [("bearerboxHost", Some(b.bearerboxHost)), ("smsboxId", b.smsboxId), ("globalSender", b.globalSender)]
    ensures AllScreened(box) <==> SmsboxScreened(b)
  {
    hide Screened;
    assert box[0] in box && box[1] in box && box[2] in box;
  }

  /** Validation reports nothing exactly when the model is valid. */
  method Validate(m: EngineConfiguration) returns (errors: seq<Rule>)
    ensures errors == [] <==> ValidModel(m)
  {
    hide CoreValid, SqlboxValid, DistinctIds, SmscValid, BoxesValid, ValuesScreened;
    var links := ValidateSmscs(m.smsc);
    var boxes := ValidateBoxes(m);
    var rendered := ValidateRenderedValues(m);
    errors := CoreErrors(m) + SqlboxErrors(m) + links + boxes + rendered;
  }
}
