/** Concrete models on which the unconditional claims fail. */
module ConfigWitness {
  import opened Text
  import opened ConfigValueSafety
  import opened SecretResolver
  import opened ConfigModel
  import opened ConfigSyntax
  import opened ConfigRenderer
  import opened ConfigRoundTrip
  import opened ConfigTheorems

  /** A bare engine with SQLBox on `host`. */
  function SqlboxOnly(host: string, status: string): EngineConfiguration {
    EngineConfiguration(
      13000, 13001, "secret://A", Some(status), 0,
      Some(EngineSqlbox(true, "s", host, 5432, "d", "AA", "AA")), [], None, [], [], None)
  }

  lemma SingleLetterName()
    ensures EnvName("secret://A") == Some("A") && StartsWith("secret://A", PREFIX)
  {
    assert "secret://A" == PREFIX + "A";
    EnvNameOnto("A");
    hide EnvName;
  }

  lemma SqlboxOnlyIsValid(host: string, status: string)
    requires host != "" && (status == "" || status == "secret://A")
    ensures ValidModel(SqlboxOnly(host, status))
  {
    SingleLetterName();
    var m := SqlboxOnly(host, status);
    hide EnvName;
    assert CoreValid(m);
    assert SqlboxValid(m);
    assert forall r :: r in SecretReferences(m) ==> r == "secret://A" || r == status;
    assert status == "" ==> status !in SecretReferences(m);
    assert BoxesValid(m) by { hide SecretReferences; }
  }

  /** Validation accepts a SQLBox host with a line break, and the file then does not read back as intended. */
  lemma UnscreenedHostBreaksTheFile(le: Collation)
    ensures
      var m := SqlboxOnly("a\nb", "secret://A");
      ValidModel(m) && ReadFile(Content(m, le)) != Some(Meanings(Sections(m, le)))
  {
    hide *;
    var m := SqlboxOnly("a\nb", "secret://A");
    assert "a\nb"[1] == '\n';
    SqlboxOnlyIsValid("a\nb", "secret://A");
    UntameHost("a\nb", "secret://A");
    RenderedFileReadsBack(m, le);
  }

  lemma UntameHost(host: string, status: string)
    requires '\n' in host
    ensures !UnscreenedFieldsTame(SqlboxOnly(host, status))
  {
    assert !Tame(host);
    assert !TameTest()(Bare, host);
    assert SqlboxOnly(host, status).sqlbox.value.host == host;
    assert !SqlboxFieldsOk(SqlboxOnly(host, status), TameTest());
    hide SqlboxFieldsOk, SqlboxOnly;
  }

  /** Validation accepts a status reference that is the empty string; it has no environment name, so rendering fails. */
  lemma EmptyStatusReferenceIsAccepted()
    ensures
      var m := SqlboxOnly("h", "");
      ValidModel(m) && EnvName(StatusRef(m)).None?
  {
    SqlboxOnlyIsValid("h", "");
    EmptyReferenceHasNoName();
    hide EnvName, ValidModel;
  }

  /** As `SqlboxOnly`, with an administrator's secret whose name contains the word. */
  function IncludeNamed(): EngineConfiguration { SqlboxOnly("h", "secret://A").(adminSecretRef := PREFIX + "INCLUDE") }

  lemma IncludeIsAName()
    ensures EnvName(PREFIX + "INCLUDE") == Some("INCLUDE") && MentionsInclude(Placeholder(PREFIX + "INCLUDE"))
  {
    hide EnvName, WellShaped, MentionsInclude;
    IncludeIsShaped();
    EnvNameOnto("INCLUDE");
    IncludeTokenMentions();
  }

  lemma IncludeIsShaped()
    ensures WellShaped("INCLUDE")
  {
  }

  lemma IncludeTokenMentions()
    ensures MentionsInclude("${" + "INCLUDE" + "}")
  {
    var t := "${" + "INCLUDE" + "}";
    assert t[2] == 'I' && t[3] == 'N' && t[4] == 'C' && t[5] == 'L' && t[6] == 'U' && t[7] == 'D' && t[8] == 'E';
    assert IncludeAt(t, 2);
  }

  lemma IncludeNamedIsValid()
    ensures ValidModel(IncludeNamed())
  {
    SingleLetterName();
    IncludeIsAName();
    var m := IncludeNamed();
    hide EnvName, MentionsInclude;
    assert CoreValid(m);
    assert SqlboxValid(m);
    assert forall r :: r in SecretReferences(m) ==> r == PREFIX + "INCLUDE" || r == "secret://A";
    assert BoxesValid(m) by { hide SecretReferences; }
  }

  lemma AdminTokenMentions()
    ensures !TokensOk(IncludeNamed(), QuietTest())
  {
    IncludeIsAName();
    hide EnvName, MentionsInclude, Placeholder;
    assert !QuietTest()(Token, Placeholder(IncludeNamed().adminSecretRef));
  }

  /** Validation accepts a secret whose name contains "include", and a line of the file then does too. */
  lemma SecretNameBringsTheWord(le: Collation)
    ensures ValidModel(IncludeNamed())
    ensures exists l :: l in Lines(Sections(IncludeNamed(), le)) && MentionsInclude(l)
  {
    hide *;
    IncludeNamedIsValid();
    AdminTokenMentions();
    NoIncludeLine(IncludeNamed(), le);
  }
}
