/**
 * The settings layer of the tag synchronisation daemon (`TagSyncConfig`): the typed,
 * defaulted accessors over the merged property map, the two-step password resolution
 * (plaintext setting, then encrypted credential store), and the pass that lets
 * system properties override settings that are already present.
 *
 * The credential-store reader and the Kerberos principal formatter are foreign calls;
 * they are parameters here, returning None where the Java call throws.
 */
module TagSync {
  import opened Wrappers
  import opened JavaText
  import opened JavaLong

  /** A `java.util.Properties` table: string keys to string values. */
  type PropertyMap = map<string, string>

  /** `CredentialReader.getDecryptedString(path, alias)`; None when it throws or finds nothing. */
  type CredentialReader = (string, string) -> Option<string>

  /** `SecureClientLogin.getPrincipal(principal, hostname)`; None when it throws. */
  type PrincipalFormatter = (string, string) -> Option<string>

  const TagSyncEnabledProp := "ranger.tagsync.enabled"
  const TagSyncLogdirProp := "ranger.tagsync.logdir"
  const TagAdminRestUrlProp := "ranger.tagsync.dest.ranger.endpoint"
  const TagAdminRestSslConfigFileProp := "ranger.tagsync.dest.ranger.ssl.config.filename"
  const TagSinkClassProp := "ranger.tagsync.dest.ranger.impl.class"
  const TagAdminPasswordAlias := "tagadmin.user.password"
  const AtlasRestPasswordAlias := "atlas.user.password"
  const TagAdminUserNameProp := "ranger.tagsync.dest.ranger.username"
  const AtlasRestUserNameProp := "ranger.tagsync.source.atlasrest.username"
  const TagAdminPasswordProp := "ranger.tagsync.dest.ranger.password"
  const AtlasRestPasswordProp := "ranger.tagsync.source.atlasrest.password"
  const TagAdminConnectionCheckIntervalProp := "ranger.tagsync.dest.ranger.connection.check.interval"
  const CustomResourceMappersProp := "ranger.tagsync.atlas.custom.resource.mappers"
  const AtlasRestEndpointProp := "ranger.tagsync.source.atlasrest.endpoint"
  const AtlasRestDownloadIntervalProp := "ranger.tagsync.source.atlasrest.download.interval.millis"
  const AtlasRestSslConfigFileProp := "ranger.tagsync.source.atlasrest.ssl.config.filename"
  const FileSourceFileNameProp := "ranger.tagsync.source.file.filename"
  const FileSourceModTimeCheckIntervalProp := "ranger.tagsync.source.file.check.interval.millis"
  const TagAdminKeystoreProp := "ranger.tagsync.keystore.filename"
  const AtlasRestKeystoreProp := "ranger.tagsync.source.atlasrest.keystore.filename"
  const SourceRetryInitializationIntervalProp := "ranger.tagsync.source.retry.initialization.interval.millis"
  const RangerCookieEnabledProp := "ranger.tagsync.cookie.enabled"
  const AuthTypeProp := "hadoop.security.authentication"
  const NameRulesProp := "hadoop.security.auth_to_local"
  const KerberosPrincipalProp := "ranger.tagsync.kerberos.principal"
  const KerberosKeytabProp := "ranger.tagsync.kerberos.keytab"
  const KerberosIdentityProp := "tagsync.kerberos.identity"

  const DefaultTagAdminUserName := "rangertagsync"
  const DefaultAtlasRestUserName := "admin"
  const DefaultAtlasRestPassword := "admin"
  const DefaultTagAdminConnectionCheckInterval: Int64 := 15000
  const DefaultAtlasRestDownloadInterval: Int64 := 900000
  const DefaultFileSourceModTimeCheckInterval: Int64 := 60000
  const DefaultSourceRetryInitializationInterval: Int64 := 10000

  /** The sink class that the short name "ranger" stands for. */
  const TagAdminRestSinkClass := "org.apache.ranger.tagsync.sink.tagadmin.TagAdminRESTSink"

  /** `Properties.getProperty(key)`: null when the key is absent. */
  function GetProperty(props: PropertyMap, key: string): (r: Option<string>)
  {
    if key in props then Some(props[key]) else None
  }

  /** `Properties.getProperty(key, default)`. */
  function GetPropertyOr(props: PropertyMap, key: string, default: string): (r: string)
  {
    GetProperty(props, key).GetOr(default)
  }

  // ---------------------------------------------------------------------------------
  // Boolean flags

  function IsTagSyncEnabled(props: PropertyMap): (r: bool)
    ensures TagSyncEnabledProp !in props ==> r
    ensures TagSyncEnabledProp in props ==> (r <==> ParseBoolean(Trim(props[TagSyncEnabledProp])))
  {
    var val := GetProperty(props, TagSyncEnabledProp);
    val.None? || ParseBoolean(Trim(val.value))
  }

  function IsTagSyncRangerCookieEnabled(props: PropertyMap): (r: bool)
    ensures RangerCookieEnabledProp !in props ==> r
    ensures RangerCookieEnabledProp in props ==> (r <==> ParseBoolean(Trim(props[RangerCookieEnabledProp])))
  {
    var val := GetProperty(props, RangerCookieEnabledProp);
    val.None? || ParseBoolean(Trim(val.value))
  }

  /** A present flag reads as on exactly when, stripped of control characters and
      spaces at both ends, it spells "true" in some letter case. */
  lemma FlagsReadPaddedTrue(props: PropertyMap, pre: string, core: string, post: string)
    requires AllTrimmable(pre) && AllTrimmable(post)
    requires core == [] || (!IsTrimmable(core[0]) && !IsTrimmable(core[|core| - 1]))
    ensures IsTagSyncEnabled(props[TagSyncEnabledProp := pre + core + post]) <==> SpellsTrue(core)
    ensures IsTagSyncRangerCookieEnabled(props[RangerCookieEnabledProp := pre + core + post]) <==> SpellsTrue(core)
  {
    TrimPadded(pre, core, post);
    ParseBooleanSpellings(core);
  }

  lemma FlagExamples()
    ensures IsTagSyncEnabled(map[TagSyncEnabledProp := " TRUE "])
    ensures !IsTagSyncEnabled(map[TagSyncEnabledProp := "garbage"])
  {
  }

  // ---------------------------------------------------------------------------------
  // Interval settings (milliseconds)

  /** What an interval setting means: the value of the stored string when it is a
      decimal `long`, and the setting's default when it is absent or is not one. */
  predicate ReadsLongSetting(props: PropertyMap, key: string, default: Int64, r: Int64)
  {
    match (if key in props then ParseLong(props[key]) else None)
    case Some(n) => r == n
    case None => r == default
  }

  /** A blank string is not a numeral. */
  lemma BlankIsNotLong(s: string)
    requires IsBlankString(s)
    ensures ParseLong(s) == None
  {
  }

  /** The lookup shared by the four interval accessors: skip blank values, otherwise
      `Long.valueOf`, falling back to the default on `NumberFormatException`. */
  function LongSetting(props: PropertyMap, key: string, default: Int64): (r: Int64)
    ensures ReadsLongSetting(props, key, default, r)
  {
    var val := GetProperty(props, key);
    if IsBlank(val) then
      if val.Some? then BlankIsNotLong(val.value); default else default
    else
      ParseLong(val.value).GetOr(default)
  }

  function GetTagSourceFileModTimeCheckIntervalInMillis(props: PropertyMap): (r: Int64)
    ensures ReadsLongSetting(props, FileSourceModTimeCheckIntervalProp, 60000, r)
  {
    LongSetting(props, FileSourceModTimeCheckIntervalProp, DefaultFileSourceModTimeCheckInterval)
  }

  function GetTagSourceAtlasDownloadIntervalInMillis(props: PropertyMap): (r: Int64)
    ensures ReadsLongSetting(props, AtlasRestDownloadIntervalProp, 900000, r)
  {
    LongSetting(props, AtlasRestDownloadIntervalProp, DefaultAtlasRestDownloadInterval)
  }

  function GetTagAdminConnectionCheckInterval(props: PropertyMap): (r: Int64)
    ensures ReadsLongSetting(props, TagAdminConnectionCheckIntervalProp, 15000, r)
  {
    LongSetting(props, TagAdminConnectionCheckIntervalProp, DefaultTagAdminConnectionCheckInterval)
  }

  function GetTagSourceRetryInitializationInterval(props: PropertyMap): (r: Int64)
    ensures ReadsLongSetting(props, SourceRetryInitializationIntervalProp, 10000, r)
  {
    LongSetting(props, SourceRetryInitializationIntervalProp, DefaultSourceRetryInitializationInterval)
  }

  /** Every `long`, stored in decimal, is read back by each interval accessor. */
  lemma IntervalsReadDecimal(props: PropertyMap, n: Int64)
    ensures GetTagSourceFileModTimeCheckIntervalInMillis(props[FileSourceModTimeCheckIntervalProp := DecimalString(n)]) == n
    ensures GetTagSourceAtlasDownloadIntervalInMillis(props[AtlasRestDownloadIntervalProp := DecimalString(n)]) == n
    ensures GetTagAdminConnectionCheckInterval(props[TagAdminConnectionCheckIntervalProp := DecimalString(n)]) == n
    ensures GetTagSourceRetryInitializationInterval(props[SourceRetryInitializationIntervalProp := DecimalString(n)]) == n
  {
    ParseLongDecimalRoundTrip(n);
  }

  /** Interval values are not trimmed: a value with a space or control character at
      either end gives the default, whatever digits it holds. */
  lemma IntervalsIgnorePaddedValues(props: PropertyMap, v: string)
    requires |v| > 0 && (IsTrimmable(v[0]) || IsTrimmable(v[|v| - 1]))
    ensures GetTagSourceFileModTimeCheckIntervalInMillis(props[FileSourceModTimeCheckIntervalProp := v]) == 60000
    ensures GetTagSourceAtlasDownloadIntervalInMillis(props[AtlasRestDownloadIntervalProp := v]) == 900000
    ensures GetTagAdminConnectionCheckInterval(props[TagAdminConnectionCheckIntervalProp := v]) == 15000
    ensures GetTagSourceRetryInitializationInterval(props[SourceRetryInitializationIntervalProp := v]) == 10000
  {
  }

  lemma IntervalExamples()
    ensures GetTagSourceFileModTimeCheckIntervalInMillis(map[]) == 60000
    ensures GetTagSourceFileModTimeCheckIntervalInMillis(map[FileSourceModTimeCheckIntervalProp := "5000"]) == 5000
    ensures GetTagSourceFileModTimeCheckIntervalInMillis(map[FileSourceModTimeCheckIntervalProp := " 5000"]) == 60000
    ensures GetTagSourceAtlasDownloadIntervalInMillis(map[AtlasRestDownloadIntervalProp := "abc"]) == 900000
    ensures GetTagAdminConnectionCheckInterval(map[TagAdminConnectionCheckIntervalProp := "-7"]) == -7
  {
    IntervalsReadDecimal(map[], 5000);
    assert DecimalString(5000) == "5000";
    IntervalsIgnorePaddedValues(map[], " 5000");
    var abc := "abc";
    assert !IsDigit(abc[DigitsStart(abc)..][0]);
    IntervalsReadDecimal(map[], -7);
    assert DecimalString(-7) == "-7";
  }

  // ---------------------------------------------------------------------------------
  // Sink class, plain lookups and lookups with a default

  function GetTagSinkClassName(props: PropertyMap): (r: Option<string>)
    ensures TagSinkClassProp in props && EqualsIgnoreCase(props[TagSinkClassProp], "ranger") ==>
              r == Some(TagAdminRestSinkClass)
    ensures TagSinkClassProp in props && !EqualsIgnoreCase(props[TagSinkClassProp], "ranger") ==>
              r == Some(props[TagSinkClassProp])
    ensures TagSinkClassProp !in props ==> r == None
  {
    var val := GetProperty(props, TagSinkClassProp);
    if val.Some? && EqualsIgnoreCase(val.value, "ranger") then Some(TagAdminRestSinkClass) else val
  }

  /** Writing the resolved sink class back into the settings does not change it again. */
  lemma SinkClassNameStable(props: PropertyMap)
    requires GetTagSinkClassName(props).Some?
    ensures GetTagSinkClassName(props[TagSinkClassProp := GetTagSinkClassName(props).value]) == GetTagSinkClassName(props)
  {
  }

  lemma SinkClassExamples()
    ensures GetTagSinkClassName(map[TagSinkClassProp := "RANGER"]) == Some(TagAdminRestSinkClass)
    ensures GetTagSinkClassName(map[TagSinkClassProp := "Ranger"]) == Some(TagAdminRestSinkClass)
    ensures GetTagSinkClassName(map[TagSinkClassProp := "custom.Foo"]) == Some("custom.Foo")
  {
  }

  function GetTagSyncLogdir(props: PropertyMap): (r: Option<string>)
    ensures r.Some? <==> TagSyncLogdirProp in props
    ensures r.Some? ==> r.value == props[TagSyncLogdirProp]
  {
    GetProperty(props, TagSyncLogdirProp)
  }

  function GetTagAdminRESTUrl(props: PropertyMap): (r: Option<string>)
    ensures r.Some? <==> TagAdminRestUrlProp in props
    ensures r.Some? ==> r.value == props[TagAdminRestUrlProp]
  {
    GetProperty(props, TagAdminRestUrlProp)
  }

  function GetTagAdminRESTSslConfigFile(props: PropertyMap): (r: Option<string>)
    ensures r.Some? <==> TagAdminRestSslConfigFileProp in props
    ensures r.Some? ==> r.value == props[TagAdminRestSslConfigFileProp]
  {
    GetProperty(props, TagAdminRestSslConfigFileProp)
  }

  function GetTagSourceFileName(props: PropertyMap): (r: Option<string>)
    ensures r.Some? <==> FileSourceFileNameProp in props
    ensures r.Some? ==> r.value == props[FileSourceFileNameProp]
  {
    GetProperty(props, FileSourceFileNameProp)
  }

  function GetAtlasRESTEndpoint(props: PropertyMap): (r: Option<string>)
    ensures r.Some? <==> AtlasRestEndpointProp in props
    ensures r.Some? ==> r.value == props[AtlasRestEndpointProp]
  {
    GetProperty(props, AtlasRestEndpointProp)
  }

  function GetAtlasRESTSslConfigFile(props: PropertyMap): (r: Option<string>)
    ensures r.Some? <==> AtlasRestSslConfigFileProp in props
    ensures r.Some? ==> r.value == props[AtlasRestSslConfigFileProp]
  {
    GetProperty(props, AtlasRestSslConfigFileProp)
  }

  function GetCustomAtlasResourceMappers(props: PropertyMap): (r: Option<string>)
    ensures r.Some? <==> CustomResourceMappersProp in props
    ensures r.Some? ==> r.value == props[CustomResourceMappersProp]
  {
    GetProperty(props, CustomResourceMappersProp)
  }

  function GetTagsyncKerberosIdentity(props: PropertyMap): (r: Option<string>)
    ensures r.Some? <==> KerberosIdentityProp in props
    ensures r.Some? ==> r.value == props[KerberosIdentityProp]
  {
    GetProperty(props, KerberosIdentityProp)
  }

  function GetAuthenticationType(props: PropertyMap): (r: string)
    ensures AuthTypeProp in props ==> r == props[AuthTypeProp]
    ensures AuthTypeProp !in props ==> r == "simple"
  {
    GetPropertyOr(props, AuthTypeProp, "simple")
  }

  function GetNameRules(props: PropertyMap): (r: string)
    ensures NameRulesProp in props ==> r == props[NameRulesProp]
    ensures NameRulesProp !in props ==> r == "DEFAULT"
  {
    GetPropertyOr(props, NameRulesProp, "DEFAULT")
  }

  function GetKerberosKeytab(props: PropertyMap): (r: string)
    ensures KerberosKeytabProp in props ==> r == props[KerberosKeytabProp]
    ensures KerberosKeytabProp !in props ==> r == ""
  {
    GetPropertyOr(props, KerberosKeytabProp, "")
  }

  /** The static `LOCAL_HOSTNAME`: the canonical name of the local host, or "unknown"
      when the lookup of the local host fails. */
  function LocalHostname(lookup: Option<string>): (r: string)
    ensures lookup.Some? ==> r == lookup.value
    ensures lookup.None? ==> r == "unknown"
  {
    lookup.GetOr("unknown")
  }

  /** The formatter sees the configured principal (the empty string when there is none)
      and `LOCAL_HOSTNAME`, which `hostLookup`, the result of the local-host lookup made
      once when the class loads, determines; when the formatter fails the accessor
      answers null. */
  function GetKerberosPrincipal(props: PropertyMap, getPrincipal: PrincipalFormatter, hostLookup: Option<string>): (r: Option<string>)
    ensures KerberosPrincipalProp in props ==> r == getPrincipal(props[KerberosPrincipalProp], LocalHostname(hostLookup))
    ensures KerberosPrincipalProp !in props ==> r == getPrincipal("", LocalHostname(hostLookup))
    ensures hostLookup.None? ==> r == getPrincipal(GetPropertyOr(props, KerberosPrincipalProp, ""), "unknown")
  {
    getPrincipal(GetPropertyOr(props, KerberosPrincipalProp, ""), LocalHostname(hostLookup))
  }

  // ---------------------------------------------------------------------------------
  // User names

  function GetTagAdminUserName(props: PropertyMap): (r: string)
    ensures !IsBlankString(r)
    ensures TagAdminUserNameProp in props && !IsBlankString(props[TagAdminUserNameProp]) ==>
              r == props[TagAdminUserNameProp]
    ensures TagAdminUserNameProp !in props || IsBlankString(props[TagAdminUserNameProp]) ==>
              r == "rangertagsync"
  {
    var userName := GetProperty(props, TagAdminUserNameProp);
    if IsBlank(userName) then
      assert !IsWhitespace(DefaultTagAdminUserName[0]);
      DefaultTagAdminUserName
    else
      userName.value
  }

  function GetAtlasRESTUserName(props: PropertyMap): (r: string)
    ensures !IsBlankString(r)
    ensures AtlasRestUserNameProp in props && !IsBlankString(props[AtlasRestUserNameProp]) ==>
              r == props[AtlasRestUserNameProp]
    ensures AtlasRestUserNameProp !in props || IsBlankString(props[AtlasRestUserNameProp]) ==>
              r == "admin"
  {
    var userName := GetProperty(props, AtlasRestUserNameProp);
    if IsBlank(userName) then
      assert !IsWhitespace(DefaultAtlasRestUserName[0]);
      DefaultAtlasRestUserName
    else
      userName.value
  }

  // ---------------------------------------------------------------------------------
  // Passwords

  /** A non-empty plaintext password is configured under `passwordKey`. */
  predicate PlaintextGiven(props: PropertyMap, passwordKey: string)
  {
    passwordKey in props && props[passwordKey] != ""
  }

  /** The credential store is asked: no plaintext password, and a keystore path that is
      not empty once trimmed. */
  predicate StoreConsulted(props: PropertyMap, passwordKey: string, keystoreKey: string)
  {
    !PlaintextGiven(props, passwordKey) && keystoreKey in props && Trim(props[keystoreKey]) != ""
  }

  /** The store's answer for the trimmed keystore path and the role's alias. */
  function StoreAnswer(props: PropertyMap, keystoreKey: string, alias: string, reader: CredentialReader): (r: Option<string>)
    requires keystoreKey in props
  {
    reader(Trim(props[keystoreKey]), alias)
  }

  /** A stored password the accessors accept: not empty once trimmed, and not the
      sentinel "none" in any letter case. */
  predicate IsUsableStoredPassword(p: string)
  {
    Trim(p) != "" && !EqualsIgnoreCase(Trim(p), "none")
  }

  /** The store was asked and gave a usable password. */
  predicate StoreYieldsPassword(props: PropertyMap, passwordKey: string, keystoreKey: string, alias: string, reader: CredentialReader)
  {
    && StoreConsulted(props, passwordKey, keystoreKey)
    && StoreAnswer(props, keystoreKey, alias, reader).Some?
    && IsUsableStoredPassword(StoreAnswer(props, keystoreKey, alias, reader).value)
  }

  /** The outcome of the two-step policy: a password, or the last candidate the Java
      code's local `password` holds when neither step succeeds. */
  datatype Resolution = Resolved(password: string) | Unresolved(last: Option<string>)

  /** The policy both password accessors share: the plaintext setting if non-empty,
      else the store's answer if usable. */
  function ResolvePassword(props: PropertyMap, passwordKey: string, keystoreKey: string, alias: string, reader: CredentialReader): (r: Resolution)
  {
    var plain := GetProperty(props, passwordKey);
    if plain.Some? && plain.value != "" then
      Resolved(plain.value)
    else if keystoreKey in props && Trim(props[keystoreKey]) != "" then
      var answer := reader(Trim(props[keystoreKey]), alias);
      if answer.Some? && IsUsableStoredPassword(answer.value) then Resolved(answer.value) else Unresolved(answer)
    else
      Unresolved(plain)
  }

  function GetTagAdminPassword(props: PropertyMap, reader: CredentialReader): (r: Option<string>)
    ensures PlaintextGiven(props, TagAdminPasswordProp) ==> r == Some(props[TagAdminPasswordProp])
    ensures StoreYieldsPassword(props, TagAdminPasswordProp, TagAdminKeystoreProp, TagAdminPasswordAlias, reader) ==>
              r == StoreAnswer(props, TagAdminKeystoreProp, TagAdminPasswordAlias, reader)
    ensures r.None? <==>
              !PlaintextGiven(props, TagAdminPasswordProp)
              && !StoreYieldsPassword(props, TagAdminPasswordProp, TagAdminKeystoreProp, TagAdminPasswordAlias, reader)
  {
    match ResolvePassword(props, TagAdminPasswordProp, TagAdminKeystoreProp, TagAdminPasswordAlias, reader)
    case Resolved(p) => Some(p)
    case Unresolved(_) => None
  }

  /** The store gave an answer that is neither usable nor blank (such as "none"): the
      one case in which the Atlas password accessor answers null. */
  predicate StoreRejectsNonBlank(props: PropertyMap, passwordKey: string, keystoreKey: string, alias: string, reader: CredentialReader)
  {
    && StoreConsulted(props, passwordKey, keystoreKey)
    && StoreAnswer(props, keystoreKey, alias, reader).Some?
    && !IsUsableStoredPassword(StoreAnswer(props, keystoreKey, alias, reader).value)
    && !IsBlankString(StoreAnswer(props, keystoreKey, alias, reader).value)
  }

  function GetAtlasRESTPassword(props: PropertyMap, reader: CredentialReader): (r: Option<string>)
    ensures PlaintextGiven(props, AtlasRestPasswordProp) ==> r == Some(props[AtlasRestPasswordProp])
    ensures StoreYieldsPassword(props, AtlasRestPasswordProp, AtlasRestKeystoreProp, AtlasRestPasswordAlias, reader) ==>
              r == StoreAnswer(props, AtlasRestKeystoreProp, AtlasRestPasswordAlias, reader)
    ensures r.None? <==> StoreRejectsNonBlank(props, AtlasRestPasswordProp, AtlasRestKeystoreProp, AtlasRestPasswordAlias, reader)
    ensures (&& !PlaintextGiven(props, AtlasRestPasswordProp)
             && !StoreYieldsPassword(props, AtlasRestPasswordProp, AtlasRestKeystoreProp, AtlasRestPasswordAlias, reader)
             && r.Some?) ==> r == Some("admin")
  {
    match ResolvePassword(props, AtlasRestPasswordProp, AtlasRestKeystoreProp, AtlasRestPasswordAlias, reader)
    case Resolved(p) => Some(p)
    case Unresolved(last) => if IsBlank(last) then Some(DefaultAtlasRestPassword) else None
  }

  /** Only one store query matters to each accessor: the trimmed keystore path with the
      role's own alias. Readers that agree on it give the same password. */
  lemma PasswordsDependOnOneStoreQuery(props: PropertyMap, reader: CredentialReader, other: CredentialReader)
    requires TagAdminKeystoreProp in props ==>
               StoreAnswer(props, TagAdminKeystoreProp, TagAdminPasswordAlias, reader)
               == StoreAnswer(props, TagAdminKeystoreProp, TagAdminPasswordAlias, other)
    requires AtlasRestKeystoreProp in props ==>
               StoreAnswer(props, AtlasRestKeystoreProp, AtlasRestPasswordAlias, reader)
               == StoreAnswer(props, AtlasRestKeystoreProp, AtlasRestPasswordAlias, other)
    ensures GetTagAdminPassword(props, reader) == GetTagAdminPassword(props, other)
    ensures GetAtlasRESTPassword(props, reader) == GetAtlasRESTPassword(props, other)
  {
  }

  /** The settings of the two roles hold the same password and keystore values. */
  predicate SameCredentialSettings(props: PropertyMap)
  {
    && GetProperty(props, TagAdminPasswordProp) == GetProperty(props, AtlasRestPasswordProp)
    && GetProperty(props, TagAdminKeystoreProp) == GetProperty(props, AtlasRestKeystoreProp)
  }

  /** The two password accessors differ only in their last step: with the same settings
      and a store that answers the same for both aliases, they agree whenever the admin
      accessor finds a password; where it answers null, the Atlas accessor answers null
      only for a non-blank rejected store answer, and "admin" otherwise. */
  lemma PasswordAccessorsDifferOnlyInFallback(props: PropertyMap, reader: CredentialReader)
    requires SameCredentialSettings(props)
    requires TagAdminKeystoreProp in props ==>
               StoreAnswer(props, TagAdminKeystoreProp, TagAdminPasswordAlias, reader)
               == StoreAnswer(props, AtlasRestKeystoreProp, AtlasRestPasswordAlias, reader)
    ensures GetTagAdminPassword(props, reader).Some? ==>
              GetAtlasRESTPassword(props, reader) == GetTagAdminPassword(props, reader)
    ensures GetTagAdminPassword(props, reader).None? ==>
              GetAtlasRESTPassword(props, reader) ==
                if StoreRejectsNonBlank(props, TagAdminPasswordProp, TagAdminKeystoreProp, TagAdminPasswordAlias, reader)
                then None else Some("admin")
  {
  }

  /** A plaintext password wins over a configured keystore. */
  lemma PlaintextPasswordExample()
    ensures GetTagAdminPassword(map[TagAdminPasswordProp := "secret", TagAdminKeystoreProp := "ks"],
                                (path, alias) => Some("other")) == Some("secret")
  {
  }

  /** The store is asked with the trimmed path. */
  lemma StoredPasswordExample()
    ensures GetTagAdminPassword(map[TagAdminKeystoreProp := " ks "],
                                (path, alias) => if path == "ks" then Some("s3cret") else None) == Some("s3cret")
  {
    var padded := " ks ";
    TrimPadded([padded[0]], padded[1..3], [padded[3]]);
    assert [padded[0]] + padded[1..3] + [padded[3]] == padded;
    var answer := "s3cret";
    TrimPadded([], answer, []);
    assert [] + answer + [] == answer;
  }

  /** The sentinel "none", in any letter case, makes the admin accessor answer null. */
  lemma AdminSentinelExample()
    ensures GetTagAdminPassword(map[TagAdminKeystoreProp := "ks"], (path, alias) => Some("None")) == None
  {
    var ks := "ks";
    TrimPadded([], ks, []);
    assert [] + ks + [] == ks;
    CapitalisedSentinel();
  }

  /** "None" survives `trim` and matches the sentinel "none". */
  lemma CapitalisedSentinel()
    ensures Trim("None") == "None" && EqualsIgnoreCase("None", "none")
  {
    var cap := "None";
    TrimPadded([], cap, []);
    assert [] + cap + [] == cap;
    assert forall k | 0 <= k < 4 :: AsciiUpper(cap[k]) == AsciiUpper("none"[k]);
  }

  /** The Atlas accessor answers null for the sentinel but "admin" when the store fails. */
  lemma AtlasSentinelExamples()
    ensures GetAtlasRESTPassword(map[AtlasRestKeystoreProp := "ks"], (path, alias) => Some("none")) == None
    ensures GetAtlasRESTPassword(map[AtlasRestKeystoreProp := "ks"], (path, alias) => None) == Some("admin")
  {
    var ks := "ks";
    TrimPadded([], ks, []);
    assert [] + ks + [] == ks;
    var none := "none";
    TrimPadded([], none, []);
    assert [] + none + [] == none;
    assert !IsBlankString(none) by { assert !IsWhitespace(none[0]); }
  }

  // ---------------------------------------------------------------------------------
  // Behaviour on an empty settings map (also what the null-tolerant accessors return
  // for a null `Properties`)

  lemma DefaultsWhenNothingIsConfigured(reader: CredentialReader)
    ensures IsTagSyncEnabled(map[]) && IsTagSyncRangerCookieEnabled(map[])
    ensures GetTagSourceFileModTimeCheckIntervalInMillis(map[]) == 60000
    ensures GetTagSourceAtlasDownloadIntervalInMillis(map[]) == 900000
    ensures GetTagAdminConnectionCheckInterval(map[]) == 15000
    ensures GetTagSourceRetryInitializationInterval(map[]) == 10000
    ensures GetTagSinkClassName(map[]) == None
    ensures GetTagAdminPassword(map[], reader) == None
    ensures GetAtlasRESTPassword(map[], reader) == Some("admin")
    ensures GetTagAdminUserName(map[]) == "rangertagsync"
    ensures GetAtlasRESTUserName(map[]) == "admin"
    ensures GetAuthenticationType(map[]) == "simple"
    ensures GetNameRules(map[]) == "DEFAULT"
    ensures GetKerberosKeytab(map[]) == ""
  {
  }

  /** A store answer that `trim` empties but that is not blank, such as U+0001, is
      rejected and still makes the Atlas accessor answer null. */
  lemma AtlasControlCharacterExample()
    ensures GetAtlasRESTPassword(map[AtlasRestKeystoreProp := "ks"], (path, alias) => Some("\U{0001}")) == None
  {
    var ks := "ks";
    TrimPadded([], ks, []);
    assert [] + ks + [] == ks;
    TrimEmptyDiffersFromBlank();
  }

  // ---------------------------------------------------------------------------------
  // System-property overrides

  /** The outcome of the override pass. `System.getProperty` throws
      `IllegalArgumentException` for the empty name, so a settings map holding the key
      "" makes the pass fail (None). Otherwise every key keeps its place, and the keys
      that have a system property take its value. */
  function WithSystemOverrides(props: PropertyMap, system: PropertyMap): (r: Option<PropertyMap>)
    ensures r.None? <==> "" in props
    ensures r.Some? ==> r.value.Keys == props.Keys
    ensures r.Some? ==> forall k | k in props && k in system :: r.value[k] == system[k]
    ensures r.Some? ==> forall k | k in props && k !in system :: r.value[k] == props[k]
  {
    if "" in props then None else Some(map k | k in props :: if k in system then system[k] else props[k])
  }

  /** Running the override pass a second time on its result changes nothing. */
  lemma SystemOverridesIdempotent(props: PropertyMap, system: PropertyMap)
    ensures WithSystemOverrides(props, system).Some? ==>
              WithSystemOverrides(WithSystemOverrides(props, system).value, system) == WithSystemOverrides(props, system)
  {
    if "" !in props {
      var once := WithSystemOverrides(props, system).value;
      assert WithSystemOverrides(once, system).value == once;
    }
  }

  /** System properties for keys the files do not define have no effect at all. */
  lemma SystemOverridesIgnoreAbsentKeys(props: PropertyMap, system: PropertyMap, extra: PropertyMap)
    requires extra.Keys !! props.Keys
    ensures WithSystemOverrides(props, system + extra) == WithSystemOverrides(props, system)
  {
    if "" !in props {
      assert WithSystemOverrides(props, system + extra).value == WithSystemOverrides(props, system).value;
    }
  }

  /** Through a successful override pass, a system property decides the enabled flag
      only when the files already define that flag; otherwise the flag stays on. */
  lemma SystemOverrideOfEnabledFlag(props: PropertyMap, system: PropertyMap)
    ensures "" !in props && TagSyncEnabledProp in props && TagSyncEnabledProp in system ==>
              (IsTagSyncEnabled(WithSystemOverrides(props, system).value) <==> ParseBoolean(Trim(system[TagSyncEnabledProp])))
    ensures "" !in props && TagSyncEnabledProp !in props ==> IsTagSyncEnabled(WithSystemOverrides(props, system).value)
  {
  }

  /** The configuration object: the merged settings map, which `GetInstance` adjusts
      once with the system properties. */
  class TagSyncConfig {
    var props: PropertyMap

    /** Holds `merged`, the map the configuration files produce, before the overrides. */
    constructor (merged: PropertyMap)
      ensures props == merged
    {
      props := merged;
    }

    /** Builds the configuration and runs the override pass over `system`, the
        process's system properties. None stands for the `IllegalArgumentException`
        that escapes the constructor when the merged map holds the empty key. */
    static method GetInstance(merged: PropertyMap, system: PropertyMap) returns (r: Option<TagSyncConfig>)
      ensures r.None? <==> "" in merged
      ensures r.Some? ==> fresh(r.value) && WithSystemOverrides(merged, system) == Some(r.value.props)
    {
      var c := new TagSyncConfig(merged);
      var ok := c.OverrideWithSystemProperties(system);
      r := if ok then Some(c) else None;
    }

    /** The settings as they stand after construction. */
    function GetProperties(): (r: PropertyMap)
      reads this
      ensures r == props
    {
      props
    }

    /** Walks the names of the settings; each one that has a system property is set
        to it. No name is added or removed. Reaching the empty name stops the walk
        with `ok` false, leaving some names already overridden. */
    method OverrideWithSystemProperties(system: PropertyMap) returns (ok: bool)
      modifies this
      ensures ok <==> "" !in old(props)
      ensures ok ==> WithSystemOverrides(old(props), system) == Some(props)
      ensures props.Keys == old(props).Keys
      ensures forall k | k in props :: props[k] == old(props)[k] || (k in system && props[k] == system[k])
    {
      var propertyNames := props.Keys;
      while propertyNames != {}
        invariant propertyNames <= old(props).Keys
        invariant "" in old(props) ==> "" in propertyNames
        invariant props.Keys == old(props).Keys
        invariant forall k | k in props ::
                    props[k] == if k !in propertyNames && k in system then system[k] else old(props)[k]
        decreases propertyNames
      {
        var propertyName :| propertyName in propertyNames;
        if propertyName == "" {
          return false;
        }
        propertyNames := propertyNames - {propertyName};
        if propertyName in system {
          props := props[propertyName := system[propertyName]];
        }
      }
      assert props == WithSystemOverrides(old(props), system).value;
      return true;
    }
  }
}
