/** Splitting settings from secrets, and putting them together again. */
module SettingsStore {
  import opened JsonValues

  datatype Provider = Provider(id: string, apiKey: string, apiKeySet: bool, rest: Json)

  datatype MissionsSettings = MissionsSettings(
    providers: seq<Provider>,
    qdrantKey: string,
    qdrantKeySet: bool,
    qdrantPath: string,
    rest: Json)

  type Secrets = map<string, string>

  /** The two files; a settings file holds no keys. */
  datatype Files = Files(settings: Option<MissionsSettings>, secrets: Secrets)

  const QDRANT := "qdrant"

  function SecretName(id: string): string {
    "provider." + id
  }

  function NonEmpty(secrets: Secrets): Secrets {
    map name | name in secrets && secrets[name] != "" :: secrets[name]
  }

  /** The secret of the last provider with this id that has a key. */
  function ProviderSecrets(providers: seq<Provider>): Secrets {
    if providers == [] then map[]
    else
      var before := ProviderSecrets(providers[..|providers| - 1]);
      var p := providers[|providers| - 1];
      if p.apiKey != "" then before[SecretName(p.id) := p.apiKey] else before
  }

  function Extracted(s: MissionsSettings): Secrets {
    var secrets := ProviderSecrets(s.providers);
    if s.qdrantKey != "" then secrets[QDRANT := s.qdrantKey] else secrets
  }

  function Secret(secrets: Secrets, name: string, default: string): string {
    if name in secrets && secrets[name] != "" then secrets[name] else default
  }

  function InjectedProvider(p: Provider, secrets: Secrets): Provider {
    var key := Secret(secrets, SecretName(p.id), p.apiKey);
    p.(apiKey := key, apiKeySet := key != "")
  }

  function Injected(s: MissionsSettings, secrets: Secrets): MissionsSettings {
    var key := Secret(secrets, QDRANT, s.qdrantKey);
    s.(providers := seq(|s.providers|, i requires 0 <= i < |s.providers| => InjectedProvider(s.providers[i], secrets)),
       qdrantKey := key, qdrantKeySet := key != "")
  }

  function Bare(p: Provider): Provider {
    p.(apiKey := "", apiKeySet := false)
  }

  /** `persistable_dict`, as it validates again: without keys. */
  function Persistable(s: MissionsSettings): MissionsSettings {
    s.(providers := seq(|s.providers|, i requires 0 <= i < |s.providers| => Bare(s.providers[i])),
       qdrantKey := "", qdrantKeySet := false)
  }

  function WithPath(s: MissionsSettings, home: string): MissionsSettings {
    if s.qdrantPath == "" then s.(qdrantPath := home) else s
  }

  function SavedSecrets(files: Files, s: MissionsSettings, update: Secrets): Secrets {
    NonEmpty(files.secrets + NonEmpty(update) + Extracted(s))
  }

  function Saved(files: Files, s: MissionsSettings, update: Secrets, home: string): (Files, MissionsSettings) {
    var secrets := SavedSecrets(files, s, update);
    var full := WithPath(s, home);
    (Files(Some(Persistable(full)), secrets), Injected(full, secrets))
  }

  /** `load_settings` where a settings file exists and the environment overrides nothing. */
  function Loaded(settings: MissionsSettings, secrets: Secrets, home: string): MissionsSettings {
    Injected(WithPath(settings, home), secrets)
  }

  class Store {
    const home: string
    var settings: Option<MissionsSettings>
    var secrets: Secrets

    constructor (home: string, files: Files)
      ensures this.home == home && settings == files.settings && secrets == files.secrets
    {
      this.home, settings, secrets := home, files.settings, files.secrets;
    }

    method InjectSecrets(s: MissionsSettings, secrets: Secrets) returns (out: MissionsSettings)
      ensures out == Injected(s, secrets)
    {
      out := s;
      for i := 0 to |s.providers|
        invariant out == s.(providers := out.providers) && |out.providers| == |s.providers|
        invariant forall j :: 0 <= j < i ==> out.providers[j] == InjectedProvider(s.providers[j], secrets)
        invariant forall j :: i <= j < |s.providers| ==> out.providers[j] == s.providers[j]
      {
        var p := out.providers[i];
        if SecretName(p.id) in secrets && secrets[SecretName(p.id)] != "" {
          p := p.(apiKey := secrets[SecretName(p.id)]);
        }
        p := p.(apiKeySet := p.apiKey != "");
        out := out.(providers := out.providers[i := p]);
      }
      assert out.providers == Injected(s, secrets).providers;
      if QDRANT in secrets && secrets[QDRANT] != "" {
        out := out.(qdrantKey := secrets[QDRANT]);
      }
      out := out.(qdrantKeySet := out.qdrantKey != "");
    }

    method ExtractSecrets(s: MissionsSettings) returns (out: Secrets)
      ensures out == Extracted(s)
    {
      out := map[];
      for i := 0 to |s.providers|
        invariant out == ProviderSecrets(s.providers[..i])
      {
        assert s.providers[..i + 1][..i] == s.providers[..i];
        if s.providers[i].apiKey != "" {
          out := out[SecretName(s.providers[i].id) := s.providers[i].apiKey];
        }
      }
      assert s.providers[..|s.providers|] == s.providers;
      if s.qdrantKey != "" {
        out := out[QDRANT := s.qdrantKey];
      }
    }

    method SaveSettings(s: MissionsSettings, update: Secrets) returns (out: MissionsSettings)
      modifies this
      ensures (Files(settings, secrets), out) == Saved(old(Files(settings, secrets)), s, update, home)
    {
      var existing := secrets;
      var extracted := ExtractSecrets(s);
      existing := existing + NonEmpty(update);
      existing := existing + extracted;
      existing := NonEmpty(existing);
      out := s;
      if out.qdrantPath == "" {
        out := out.(qdrantPath := home);
      }
      settings := Some(Persistable(out));
      secrets := existing;
      out := InjectSecrets(out, existing);
    }

    method LoadSettings() returns (out: MissionsSettings)
      requires settings.Some?
      ensures out == Loaded(settings.value, secrets, home)
    {
      out := settings.value;
      if out.qdrantPath == "" {
        out := out.(qdrantPath := home);
      }
      out := InjectSecrets(out, secrets);
    }
  }

  // ---------------------------------------------------------------- the round trip

  /** The last provider with this id that has a key. */
  ghost predicate LastKeyed(providers: seq<Provider>, id: string, i: nat) {
    && i < |providers| && providers[i].id == id && providers[i].apiKey != ""
    && forall j :: i < j < |providers| && providers[j].id == id ==> providers[j].apiKey == ""
  }

  lemma NamesDiffer(id: string, other: string)
    ensures SecretName(id) != QDRANT
    ensures SecretName(id) == SecretName(other) <==> id == other
  {
    assert SecretName(id)[0] == 'p' && QDRANT[0] == 'q';
    assert SecretName(id)[|"provider."|..] == id && SecretName(other)[|"provider."|..] == other;
  }

  lemma LastKeyedFront(providers: seq<Provider>, id: string, i: nat)
    requires providers != []
    requires var p := providers[|providers| - 1]; !(p.id == id && p.apiKey != "")
    ensures LastKeyed(providers, id, i) <==> LastKeyed(providers[..|providers| - 1], id, i)
  {
    var front := providers[..|providers| - 1];
    assert forall j :: 0 <= j < |front| ==> front[j] == providers[j];
  }

  lemma {:induction false} ProviderSecretIs(providers: seq<Provider>, id: string)
    ensures SecretName(id) in ProviderSecrets(providers) <==> exists i: nat :: LastKeyed(providers, id, i)
    ensures forall i: nat :: LastKeyed(providers, id, i) ==>
      SecretName(id) in ProviderSecrets(providers) && ProviderSecrets(providers)[SecretName(id)] == providers[i].apiKey
    ensures QDRANT !in ProviderSecrets(providers)
  {
    if providers != [] {
      var n := |providers| - 1;
      var front, p := providers[..n], providers[n];
      ProviderSecretIs(front, id);
      NamesDiffer(p.id, id);
      hide SecretName;
      if p.id == id && p.apiKey != "" {
        assert LastKeyed(providers, id, n);
        assert forall i: nat :: LastKeyed(providers, id, i) ==> i == n;
      } else {
        forall i: nat ensures LastKeyed(providers, id, i) <==> LastKeyed(front, id, i) {
          LastKeyedFront(providers, id, i);
        }
        assert forall i: nat :: LastKeyed(front, id, i) ==> front[i] == providers[i];
      }
    }
  }

  lemma {:induction false} SomeKeyed(providers: seq<Provider>, i: nat)
    requires i < |providers| && providers[i].apiKey != ""
    ensures exists k: nat :: LastKeyed(providers, providers[i].id, k)
    decreases |providers| - i
  {
    if exists j :: i < j < |providers| && providers[j].id == providers[i].id && providers[j].apiKey != "" {
      var j :| i < j < |providers| && providers[j].id == providers[i].id && providers[j].apiKey != "";
      SomeKeyed(providers, j);
    } else {
      assert LastKeyed(providers, providers[i].id, i);
    }
  }

  /** What saving stores under a name: the key in the settings, else the update, else what was there. */
  lemma SavedSecretIs(files: Files, s: MissionsSettings, update: Secrets, name: string)
    ensures var secrets := SavedSecrets(files, s, update);
      Secret(secrets, name, "") ==
        if name in Extracted(s) && Extracted(s)[name] != "" then Extracted(s)[name]
        else if name in Extracted(s) then ""
        else Secret(update, name, Secret(files.secrets, name, ""))
  {
  }

  lemma {:induction false} ExtractedAreKeys(providers: seq<Provider>, name: string)
    requires name in ProviderSecrets(providers)
    ensures ProviderSecrets(providers)[name] != ""
  {
    var n := |providers| - 1;
    var p := providers[n];
    if !(p.apiKey != "" && SecretName(p.id) == name) {
      ExtractedAreKeys(providers[..n], name);
    }
  }

  /** A provider that has a key finds one in the saved secrets. */
  lemma KeyIsSaved(files: Files, s: MissionsSettings, update: Secrets, i: nat)
    requires i < |s.providers| && s.providers[i].apiKey != ""
    ensures var name := SecretName(s.providers[i].id); var secrets := SavedSecrets(files, s, update);
      name in secrets && secrets[name] != ""
  {
    var id := s.providers[i].id;
    SomeKeyed(s.providers, i);
    ProviderSecretIs(s.providers, id);
    NamesDiffer(id, id);
    ExtractedAreKeys(s.providers, SecretName(id));
    SavedSecretIs(files, s, update, SecretName(id));
  }

  /** Without environment overrides, loading rebuilds exactly the settings that saving returned, and what
      is on file holds no key. */
  lemma LoadAfterSave(files: Files, s: MissionsSettings, update: Secrets, home: string)
    requires home != ""
    ensures var (after, returned) := Saved(files, s, update, home);
      && after.settings.Some?
      && Loaded(after.settings.value, after.secrets, home) == returned
      && after.settings.value.qdrantKey == ""
      && forall p :: p in after.settings.value.providers ==> p.apiKey == "" && !p.apiKeySet
  {
    var (after, returned) := Saved(files, s, update, home);
    var full := WithPath(s, home);
    var secrets := after.secrets;
    var loaded := Loaded(after.settings.value, secrets, home);
    forall i | 0 <= i < |s.providers| ensures loaded.providers[i] == returned.providers[i] {
      if s.providers[i].apiKey != "" {
        KeyIsSaved(files, s, update, i);
      }
    }
    assert loaded.providers == returned.providers;
    if s.qdrantKey != "" {
      assert Extracted(s)[QDRANT] == s.qdrantKey;
      SavedSecretIs(files, s, update, QDRANT);
    }
  }

  /** What a load puts into keyless settings comes from the secrets. */
  lemma ExtractedFromLoaded(f: MissionsSettings, secrets: Secrets, home: string, name: string)
    requires f == Persistable(f) && name in Extracted(Loaded(f, secrets, home))
    ensures name in secrets && secrets[name] != "" && Extracted(Loaded(f, secrets, home))[name] == secrets[name]
  {
    var loaded := Loaded(f, secrets, home);
    if name == QDRANT {
      ProviderSecretIs(loaded.providers, "");
    } else {
      var i := WhoseKey(loaded.providers, name);
      assert f.providers[i] == Bare(f.providers[i]);
    }
  }

  lemma NothingNewIsSaved(f: MissionsSettings, secrets: Secrets, home: string)
    requires f == Persistable(f)
    ensures secrets + Extracted(Loaded(f, secrets, home)) == secrets
  {
    hide Extracted, Loaded;
    forall name | name in Extracted(Loaded(f, secrets, home))
      ensures name in secrets && Extracted(Loaded(f, secrets, home))[name] == secrets[name]
    {
      ExtractedFromLoaded(f, secrets, home, name);
    }
  }

  lemma LoadedSavesAs(f: MissionsSettings, secrets: Secrets, home: string)
    requires home != ""
    ensures Persistable(WithPath(Loaded(f, secrets, home), home)) == Persistable(WithPath(f, home))
  {
    assert Persistable(WithPath(Loaded(f, secrets, home), home)).providers == Persistable(f).providers;
  }

  /** For any two files: saving what was loaded from them changes neither if and only if the settings file
      holds no key and has a path, and no secret is empty. */
  lemma SaveAfterLoadIff(f: MissionsSettings, secrets: Secrets, home: string)
    requires home != ""
    ensures Saved(Files(Some(f), secrets), Loaded(f, secrets, home), map[], home).0 == Files(Some(f), secrets) <==>
      f == Persistable(f) && f.qdrantPath != "" && NonEmpty(secrets) == secrets
  {
    LoadedSavesAs(f, secrets, home);
    var after := Saved(Files(Some(f), secrets), Loaded(f, secrets, home), map[], home).0;
    assert secrets + NonEmpty(map[]) == secrets;
    if f == Persistable(f) {
      NothingNewIsSaved(f, secrets, home);
    }
    hide Loaded, Extracted;
    var settings := Persistable(WithPath(f, home));
    assert after.settings == Some(settings);
    if settings == f {
      assert f.qdrantPath != "";
      assert f.qdrantKey == "" && !f.qdrantKeySet && f.providers == Persistable(f).providers;
    }
  }

  /** Saving what a save wrote, once loaded, changes neither file. */
  lemma SaveAfterLoad(files: Files, s: MissionsSettings, update: Secrets, home: string)
    requires home != ""
    ensures var (after, returned) := Saved(files, s, update, home);
      Saved(after, returned, map[], home) == (after, returned)
  {
    var (after, returned) := Saved(files, s, update, home);
    LoadAfterSave(files, s, update, home);
    var f := after.settings.value;
    assert Persistable(f).providers == f.providers;
    assert NonEmpty(after.secrets) == after.secrets;
    SaveAfterLoadIff(f, after.secrets, home);
    assert Injected(returned, after.secrets).providers == returned.providers;
  }

  lemma {:induction false} WhoseKey(providers: seq<Provider>, name: string) returns (i: nat)
    requires name in ProviderSecrets(providers)
    ensures i < |providers| && SecretName(providers[i].id) == name
    ensures providers[i].apiKey != "" && ProviderSecrets(providers)[name] == providers[i].apiKey
  {
    var n := |providers| - 1;
    var p := providers[n];
    if p.apiKey != "" && SecretName(p.id) == name {
      i := n;
    } else {
      i := WhoseKey(providers[..n], name);
    }
  }

  /** Keys are stored under the names the source looks for, and a key flag says whether there is a key. */
  lemma NamesAndFlags(s: MissionsSettings, secrets: Secrets, i: nat)
    requires i < |s.providers|
    ensures "qdrant" in Extracted(s) <==> s.qdrantKey != ""
    ensures s.qdrantKey != "" ==> Extracted(s)["qdrant"] == s.qdrantKey
    ensures s.providers[i].apiKey != "" ==> "provider." + s.providers[i].id in Extracted(s)
    ensures var out := Injected(s, secrets);
      && (out.qdrantKeySet <==> out.qdrantKey != "")
      && (out.providers[i].apiKeySet <==> out.providers[i].apiKey != "")
  {
    var id := s.providers[i].id;
    ProviderSecretIs(s.providers, id);
    NamesDiffer(id, id);
    if s.providers[i].apiKey != "" {
      SomeKeyed(s.providers, i);
    }
  }

  /** Clearing a key in the settings does not delete it: a key stored before comes back on saving. */
  lemma ClearedKeyComesBack(files: Files, s: MissionsSettings, home: string, i: nat)
    requires i < |s.providers| && forall p :: p in s.providers && p.id == s.providers[i].id ==> p.apiKey == ""
    ensures Saved(files, s, map[], home).1.providers[i].apiKey
         == Secret(files.secrets, SecretName(s.providers[i].id), "")
  {
    var id := s.providers[i].id;
    ProviderSecretIs(s.providers, id);
    NamesDiffer(id, id);
    forall k: nat ensures !LastKeyed(s.providers, id, k) {
      assert k < |s.providers| ==> s.providers[k] in s.providers;
    }
    SavedSecretIs(files, s, map[], SecretName(id));
  }
}
