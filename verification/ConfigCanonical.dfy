/**
 * The rendered file and its secret report do not depend on the order in which
 * links, users and services are listed, nor on links that are switched off.
 */
module ConfigCanonical {
  import opened Sorting
  import opened SecretResolver
  import opened ConfigModel
  import opened ConfigSyntax
  import opened ConfigRenderer
  import opened ConfigTheorems

  ghost predicate DistinctKeywords(ss: seq<EngineSmsService>) {
    forall i, j :: 0 <= i < j < |ss| ==> ss[i].keyword != ss[j].keyword
  }

  /** The two models agree on everything that is not a list of links, users or services. */
  predicate SameFrame(m: EngineConfiguration, m': EngineConfiguration) {
    m' == m.(smsc := m'.smsc, sendsmsUsers := m'.sendsmsUsers, smsServices := m'.smsServices)
  }

  /** Same enabled links, users and services, in any order. */
  ghost predicate Rearranged(m: EngineConfiguration, m': EngineConfiguration) {
    && SameFrame(m, m')
    && multiset(Enabled(m.smsc)) == multiset(Enabled(m'.smsc))
    && multiset(m.sendsmsUsers) == multiset(m'.sendsmsUsers)
    && multiset(m.smsServices) == multiset(m'.smsServices)
  }

  lemma {:induction false} EnabledAppend(a: seq<EngineSmsc>, b: seq<EngineSmsc>)
    ensures Enabled(a + b) == Enabled(a) + Enabled(b)
  {
    if b == [] {
      assert a + b == a;
    } else {
      var n := |b| - 1;
      EnabledAppend(a, b[..n]);
      assert (a + b)[..|a + b| - 1] == a + b[..n];
    }
  }

  /** Reordering the links is a rearrangement. */
  lemma {:induction false} EnabledOfPermutation(a: seq<EngineSmsc>, b: seq<EngineSmsc>)
    requires multiset(a) == multiset(b)
    ensures multiset(Enabled(a)) == multiset(Enabled(b))
  {
    if a == [] {
      assert |multiset(b)| == 0;
    } else {
      var n := |a| - 1;
      var x := a[n];
      assert x in multiset(a);
      assert x in b;
      var i :| 0 <= i < |b| && b[i] == x;
      RemoveMultiset(a, n);
      RemoveMultiset(b, i);
      assert a[..n] + a[n + 1..] == a[..n];
      EnabledOfPermutation(a[..n], b[..i] + b[i + 1..]);
      EnabledAround(b, i);
      EnabledAround(a, n);
    }
  }

  lemma EnabledAround(a: seq<EngineSmsc>, i: nat)
    requires i < |a|
    ensures multiset(Enabled(a)) == multiset(Enabled(a[..i] + a[i + 1..])) + multiset(Enabled([a[i]]))
  {
    hide Enabled;
    var l, x, r := a[..i], [a[i]], a[i + 1..];
    assert a == l + x + r;
    EnabledAppend(l, r);
    EnabledAppend(l + x, r);
    EnabledAppend(l, x);
    ThreeParts(Enabled(l), Enabled(x), Enabled(r));
  }

  lemma ThreeParts(l: seq<EngineSmsc>, x: seq<EngineSmsc>, r: seq<EngineSmsc>)
    ensures multiset(l + x + r) == multiset(l + r) + multiset(x)
  {
  }

  /** Adding a link that is switched off, anywhere, is a rearrangement. */
  lemma DisabledLinkIgnored(a: seq<EngineSmsc>, x: EngineSmsc, b: seq<EngineSmsc>)
    requires !x.enabled
    ensures Enabled(a + [x] + b) == Enabled(a + b)
  {
    EnabledAppend(a + [x], b);
    EnabledAppend(a, [x]);
    EnabledAppend(a, b);
    assert Enabled([x]) == [] by { assert [x][..0] == []; }
  }

  lemma {:induction false} EnabledDistinct(ss: seq<EngineSmsc>)
    requires DistinctIds(ss)
    ensures DistinctIds(Enabled(ss))
  {
    if ss != [] {
      var n := |ss| - 1;
      EnabledDistinct(ss[..n]);
      EnabledMembers(ss[..n]);
      forall i | 0 <= i < |Enabled(ss[..n])| ensures Enabled(ss[..n])[i].id != ss[n].id {
        assert Enabled(ss[..n])[i] in Enabled(ss[..n]);
      }
    }
  }

  lemma LinksOrdered(ss: seq<EngineSmsc>, le: Collation)
    requires TotalOrder(le) && DistinctIds(ss)
    ensures Orders(ById(le), ss) && Antisymmetric(ById(le), ss)
  {
    forall a, b | a in ss && b in ss && le(a.id, b.id) && le(b.id, a.id) ensures a == b {
      var i :| 0 <= i < |ss| && ss[i] == a;
      var j :| 0 <= j < |ss| && ss[j] == b;
    }
  }

  lemma UsersOrdered(us: seq<EngineSendsmsUser>, le: Collation)
    requires TotalOrder(le) && DistinctUsernames(us)
    ensures Orders(ByUsername(le), us) && Antisymmetric(ByUsername(le), us)
  {
    forall a, b | a in us && b in us && le(a.username, b.username) && le(b.username, a.username) ensures a == b {
      var i :| 0 <= i < |us| && us[i] == a;
      var j :| 0 <= j < |us| && us[j] == b;
    }
  }

  lemma ServicesOrdered(ss: seq<EngineSmsService>, le: Collation)
    requires TotalOrder(le)
    ensures Orders(ByKeyword(le), ss)
    ensures DistinctKeywords(ss) ==> Antisymmetric(ByKeyword(le), ss)
  {
    var before := ByKeyword(le);
    if DistinctKeywords(ss) {
      forall a, b | a in ss && b in ss && before(a, b) && before(b, a) ensures a == b {
        var i :| 0 <= i < |ss| && ss[i] == a;
        var j :| 0 <= j < |ss| && ss[j] == b;
        assert IsDefault(a) <==> IsDefault(b);
        if !IsDefault(a) { assert le(a.keyword, b.keyword) && le(b.keyword, a.keyword); }
      }
    }
  }

  lemma SameSections(m: EngineConfiguration, m': EngineConfiguration, le: Collation)
    requires Rearranged(m, m') && TotalOrder(le)
    requires DistinctIds(m.smsc) && DistinctUsernames(m.sendsmsUsers) && DistinctKeywords(m.smsServices)
    ensures Sections(m, le) == Sections(m', le)
  {
    hide Sort, SmscSections, UserSections, ServiceSections, CoreSection, CoreEntries, SmsboxSection, SqlboxEntries;
    hide DlrEntries, StatusRef, Enabled, TotalOrder, ById, ByUsername, ByKeyword, Orders, Antisymmetric;
    hide DistinctIds, DistinctUsernames, DistinctKeywords;
    EnabledDistinct(m.smsc);
    LinksOrdered(Enabled(m.smsc), le);
    SortCanonical(Enabled(m.smsc), Enabled(m'.smsc), ById(le));
    UsersOrdered(m.sendsmsUsers, le);
    SortCanonical(m.sendsmsUsers, m'.sendsmsUsers, ByUsername(le));
    ServicesOrdered(m.smsServices, le);
    SortCanonical(m.smsServices, m'.smsServices, ByKeyword(le));
    SameCore(m, m');
  }

  lemma SameCore(m: EngineConfiguration, m': EngineConfiguration)
    requires SameFrame(m, m')
    ensures CoreSection(m) == CoreSection(m') && StatusRef(m) == StatusRef(m')
  {
  }

  lemma SameReferences(m: EngineConfiguration, m': EngineConfiguration, ref: string)
    requires Rearranged(m, m')
    ensures ref in SecretReferences(m) <==> ref in SecretReferences(m')
  {
    hide SmscReferences, UserReferences, Enabled, StatusRef, CoreSection, LinkUses;
    SmscReferencesAre(m.smsc, ref);
    SmscReferencesAre(m'.smsc, ref);
    UserReferencesAre(m.sendsmsUsers, ref);
    UserReferencesAre(m'.sendsmsUsers, ref);
    EnabledMembers(m.smsc);
    EnabledMembers(m'.smsc);
    SameMembers(Enabled(m.smsc), Enabled(m'.smsc));
    SameMembers(m.sendsmsUsers, m'.sendsmsUsers);
    SameCore(m, m');
  }

  lemma SameMembers<T>(a: seq<T>, b: seq<T>)
    requires multiset(a) == multiset(b)
    ensures forall x :: x in a <==> x in b
  {
    assert forall x :: x in a <==> x in multiset(a);
    assert forall x :: x in b <==> x in multiset(b);
  }

  lemma SameSecrets(m: EngineConfiguration, m': EngineConfiguration)
    requires Rearranged(m, m')
    ensures RequiredSecrets(m) == RequiredSecrets(m')
  {
    var a, b := Dedup(NamesOf(SecretReferences(m))), Dedup(NamesOf(SecretReferences(m')));
    forall name ensures name in a <==> name in b {
      NamesAre(SecretReferences(m), name);
      NamesAre(SecretReferences(m'), name);
      forall ref ensures ref in SecretReferences(m) <==> ref in SecretReferences(m') { SameReferences(m, m', ref); }
      hide SecretReferences, NamesOf, EnvName, Rearranged;
    }
    hide SecretReferences, NamesOf;
    DistinctSameElements(a, b);
    LexIsTotalOrder();
    hide LexLe;
    assert Orders(LexLe, a) && Antisymmetric(LexLe, a);
    SortCanonical(a, b, LexLe);
  }

  /**
   * Rearranging a valid model changes neither the file nor the secret report,
   * when the collation is a total order and the keywords are distinct.
   */
  lemma RenderingIsCanonical(m: EngineConfiguration, m': EngineConfiguration, le: Collation)
    requires ValidModel(m) && ValidModel(m') && Rearranged(m, m')
    requires TotalOrder(le) && DistinctKeywords(m.smsServices)
    ensures Content(m, le) == Content(m', le) && RequiredSecrets(m) == RequiredSecrets(m')
  {
    hide Sections, RequiredSecrets, FileText, Lines, Rearranged, TotalOrder, DistinctKeywords;
    SameSecrets(m, m');
    assert BoxesValid(m) && DistinctUsernames(m.sendsmsUsers) by { hide SmsboxValid, SecretReferences; }
    SameSections(m, m', le);
  }

  lemma OneDefault(m: EngineConfiguration)
    requires ValidModel(m) && m.smsServices != []
    ensures Defaults(m.smsServices) == 1
  {
    hide SmsboxValid, SecretReferences, ValuesScreened, SmscValid, SqlboxValid, ServiceValid, UserValid;
  }

  /** The catch-all service is printed last. */
  lemma DefaultIsLast(m: EngineConfiguration, le: Collation)
    requires ValidModel(m) && TotalOrder(le) && m.smsServices != []
    ensures ServicesInOrder(m, le) != [] && IsDefault(ServicesInOrder(m, le)[|ServicesInOrder(m, le)| - 1])
  {
    hide ValidModel;
    hide Sort;
    OneDefault(m);
    var d := DefaultExists(m.smsServices);
    var r := ServicesInOrder(m, le);
    ServicesOrdered(m.smsServices, le);
    SortSorts(m.smsServices, ByKeyword(le));
    SortIsPermutation(m.smsServices, ByKeyword(le));
    assert d in r;
    var i :| 0 <= i < |r| && r[i] == d;
    assert i < |r| - 1 ==> ByKeyword(le)(r[i], r[|r| - 1]);
  }

  lemma {:induction false} DefaultExists(ss: seq<EngineSmsService>) returns (d: EngineSmsService)
    requires Defaults(ss) >= 1
    ensures d in ss && IsDefault(d)
  {
    var n := |ss| - 1;
    if IsDefault(ss[n]) { d := ss[n]; } else { d := DefaultExists(ss[..n]); }
  }
}
