# Tag synchronisation settings (`TagSyncConfig`)

This project models the settings layer of Apache Ranger's tag synchronisation daemon,
`TagSyncConfig`. The layer consists of the following parts:

- typed accessors over the merged `Properties` map: boolean flags, millisecond
  intervals, the sink class, endpoints and file names, user names, the Kerberos settings
  and the two passwords;
- the two-step password policy: a plaintext setting first, then the encrypted credential
  store, with the sentinel `"none"`;
- the pass in `init` that lets system properties override settings already present.

Files:

- `wrappers.dfy`: module `Wrappers`, the `Option` type that stands for Java's nullable results.
- `java_text.dfy`: module `JavaText`, the platform string operations the accessors use.
  These are `Character.isWhitespace`, `StringUtils.isBlank`, `String.trim`,
  `equalsIgnoreCase` and `Boolean.valueOf`.
- `java_long.dfy`: module `JavaLong`, the `Long.valueOf`/`Long.parseLong` behind the
  interval settings. `ParseLong` is its specification. `ParseLongChecked` follows the
  JDK's digit loop, which accumulates negatively and checks `multmin` and `limit` before
  each step, and is proved equal to `ParseLong` with every intermediate value kept
  inside the 64-bit range.
- `tag_sync_config.dfy`: module `TagSync`, the accessors, their lemmas and the class
  `TagSyncConfig` with the override loop.

The foreign calls are parameters:

- `CredentialReader.getDecryptedString` is a function `(path, alias) -> Option<string>`.
  `None` stands for an exception or a null result.
- `SecureClientLogin.getPrincipal` is a function `(principal, hostname) -> Option<string>`.
- `System.getProperty` is a map of system properties.
- The lookup of the local host name is an `Option<string>` argument, `None` for an
  `UnknownHostException`. `LocalHostname` turns it into the `LOCAL_HOSTNAME` that the
  static initialiser settles on, and `GetKerberosPrincipal` uses that value.

Facts about the code that the model keeps:

- The credential-store answer is rejected when `trim()` leaves it empty, which is a
  different test from `StringUtils.isBlank` (`JavaText.TrimEmptyDiffersFromBlank`).
- `getAtlasRESTPassword` returns null, not `"admin"`, when the store gave a non-blank
  answer it rejected, such as `"none"` (`TagSync.PasswordAccessorsDifferOnlyInFallback`).
- User names are returned untrimmed.
- The two password accessors share one procedure, `TagSync.ResolvePassword`: the
  plaintext setting, then the store, then the sentinel test. It carries no contract of
  its own; the contracts of `TagSync.GetTagAdminPassword` and
  `TagSync.GetAtlasRESTPassword` specify it.

## Model

| member | source | states |
|---|---|---|
| `JavaText.Trim` | tagsync/src/main/java/org/apache/ranger/tagsync/process/TagSyncConfig.java:208 | `trim` leaves no character at or below U+0020 at either end, and gives the empty string exactly when every character is at or below U+0020 |
| `JavaText.TrimPadded` | tagsync/src/main/java/org/apache/ranger/tagsync/process/TagSyncConfig.java:208 | trimming any padding of control characters and spaces around an unpadded core gives exactly that core |
| `JavaText.TrimIdempotent` | tagsync/src/main/java/org/apache/ranger/tagsync/process/TagSyncConfig.java:270 | trimming twice is the same as trimming once |
| `JavaText.TrimEmptyDiffersFromBlank` | tagsync/src/main/java/org/apache/ranger/tagsync/process/TagSyncConfig.java:326-333 | `trim().isEmpty()` and `isBlank` disagree: U+0001 is trimmed away but is not whitespace, and U+3000 is whitespace but is not trimmed |
| `JavaText.ParseBooleanSpellings` | tagsync/src/main/java/org/apache/ranger/tagsync/process/TagSyncConfig.java:208 | `Boolean.valueOf` is true exactly for the sixteen letter-case spellings of "true" |
| `JavaLong.ParseLongChecked` | tagsync/src/main/java/org/apache/ranger/tagsync/process/TagSyncConfig.java:225 | the JDK's overflow-checked digit loop returns exactly the value of an optionally signed ASCII decimal within the `long` range, and fails on everything else |
| `JavaLong.ParseLongDecimalRoundTrip` | tagsync/src/main/java/org/apache/ranger/tagsync/process/TagSyncConfig.java:225 | every `long` written in decimal parses back to itself |
| `JavaLong.PaddedIsNotNumeral` | tagsync/src/main/java/org/apache/ranger/tagsync/process/TagSyncConfig.java:223-228 | a string that starts or ends with a space or control character never parses |
| `TagSync.IsTagSyncEnabled` | tagsync/src/main/java/org/apache/ranger/tagsync/process/TagSyncConfig.java:206-209 | the flag is on when the key is absent; otherwise it is on exactly when the trimmed value equals "true" ignoring case |
| `TagSync.IsTagSyncRangerCookieEnabled` | tagsync/src/main/java/org/apache/ranger/tagsync/process/TagSyncConfig.java:211-214 | the same rule for the cookie flag |
| `TagSync.FlagsReadPaddedTrue` | tagsync/src/main/java/org/apache/ranger/tagsync/process/TagSyncConfig.java:206-214 | for both flags, a value is on exactly when its unpadded core spells "true" in some letter case, whatever the padding |
| `TagSync.FlagExamples` | tagsync/src/main/java/org/apache/ranger/tagsync/process/TagSyncConfig.java:206-209 | `" TRUE "` turns the flag on and `"garbage"` turns it off |
| `TagSync.BlankIsNotLong` | tagsync/src/main/java/org/apache/ranger/tagsync/process/TagSyncConfig.java:223 | a blank value is never a numeral, so the blank check changes no interval |
| `TagSync.LongSetting` | tagsync/src/main/java/org/apache/ranger/tagsync/process/TagSyncConfig.java:222-230 | an interval setting is the parsed `long` when the stored string is a decimal numeral in range, and the default when it is absent, blank or unparsable; it never fails |
| `TagSync.GetTagSourceFileModTimeCheckIntervalInMillis` | tagsync/src/main/java/org/apache/ranger/tagsync/process/TagSyncConfig.java:220-231 | the parsed value, or 60000 when absent or unparsable |
| `TagSync.GetTagSourceAtlasDownloadIntervalInMillis` | tagsync/src/main/java/org/apache/ranger/tagsync/process/TagSyncConfig.java:233-244 | the parsed value, or 900000 when absent or unparsable |
| `TagSync.GetTagAdminConnectionCheckInterval` | tagsync/src/main/java/org/apache/ranger/tagsync/process/TagSyncConfig.java:380-391 | the parsed value, or 15000 when absent or unparsable |
| `TagSync.GetTagSourceRetryInitializationInterval` | tagsync/src/main/java/org/apache/ranger/tagsync/process/TagSyncConfig.java:393-404 | the parsed value, or 10000 when absent or unparsable |
| `TagSync.IntervalsReadDecimal` | tagsync/src/main/java/org/apache/ranger/tagsync/process/TagSyncConfig.java:220-244 | each interval accessor returns every `long` that is stored in decimal |
| `TagSync.IntervalsIgnorePaddedValues` | tagsync/src/main/java/org/apache/ranger/tagsync/process/TagSyncConfig.java:223-228 | values are not trimmed, so a padded value such as `" 5000"` gives each accessor's default |
| `TagSync.IntervalExamples` | tagsync/src/main/java/org/apache/ranger/tagsync/process/TagSyncConfig.java:91-94 | absent gives 60000; `"5000"` gives 5000; `" 5000"` gives 60000; `"abc"` gives 900000; `"-7"` gives -7 |
| `TagSync.GetTagSinkClassName` | tagsync/src/main/java/org/apache/ranger/tagsync/process/TagSyncConfig.java:246-252 | `"ranger"` in any letter case becomes the TagAdminRESTSink class name; any other value, or absence, is passed through unchanged |
| `TagSync.SinkClassNameStable` | tagsync/src/main/java/org/apache/ranger/tagsync/process/TagSyncConfig.java:246-252 | storing the resolved class name and reading it again gives the same name |
| `TagSync.SinkClassExamples` | tagsync/src/main/java/org/apache/ranger/tagsync/process/TagSyncConfig.java:248-249 | `"RANGER"` and `"Ranger"` map to the canonical class; `"custom.Foo"` passes through |
| `TagSync.GetTagSyncLogdir` | tagsync/src/main/java/org/apache/ranger/tagsync/process/TagSyncConfig.java:216-218 | null exactly when the key is absent, otherwise the stored value |
| `TagSync.GetTagAdminRESTUrl` | tagsync/src/main/java/org/apache/ranger/tagsync/process/TagSyncConfig.java:254-256 | null exactly when the key is absent, otherwise the stored value |
| `TagSync.GetTagAdminRESTSslConfigFile` | tagsync/src/main/java/org/apache/ranger/tagsync/process/TagSyncConfig.java:296-298 | null exactly when the key is absent, otherwise the stored value |
| `TagSync.GetTagSourceFileName` | tagsync/src/main/java/org/apache/ranger/tagsync/process/TagSyncConfig.java:300-302 | null exactly when the key is absent, otherwise the stored value |
| `TagSync.GetAtlasRESTEndpoint` | tagsync/src/main/java/org/apache/ranger/tagsync/process/TagSyncConfig.java:304-306 | null exactly when the key is absent, otherwise the stored value |
| `TagSync.GetAtlasRESTSslConfigFile` | tagsync/src/main/java/org/apache/ranger/tagsync/process/TagSyncConfig.java:349-351 | null exactly when the key is absent, otherwise the stored value |
| `TagSync.GetCustomAtlasResourceMappers` | tagsync/src/main/java/org/apache/ranger/tagsync/process/TagSyncConfig.java:353-355 | null exactly when the key is absent, otherwise the stored value |
| `TagSync.GetTagsyncKerberosIdentity` | tagsync/src/main/java/org/apache/ranger/tagsync/process/TagSyncConfig.java:406-408 | null exactly when the key is absent, otherwise the stored value |
| `TagSync.GetAuthenticationType` | tagsync/src/main/java/org/apache/ranger/tagsync/process/TagSyncConfig.java:357-359 | the stored value, even an empty one, or `"simple"` when absent |
| `TagSync.GetNameRules` | tagsync/src/main/java/org/apache/ranger/tagsync/process/TagSyncConfig.java:361-363 | the stored value, or `"DEFAULT"` when absent |
| `TagSync.GetKerberosKeytab` | tagsync/src/main/java/org/apache/ranger/tagsync/process/TagSyncConfig.java:376-378 | the stored value, or `""` when absent |
| `TagSync.LocalHostname` | tagsync/src/main/java/org/apache/ranger/tagsync/process/TagSyncConfig.java:103-113 | the looked-up canonical host name, or `"unknown"` when the lookup fails |
| `TagSync.GetKerberosPrincipal` | tagsync/src/main/java/org/apache/ranger/tagsync/process/TagSyncConfig.java:365-374 | the formatter receives the configured principal, or `""` when none is configured, plus `LOCAL_HOSTNAME` as `TagSync.LocalHostname` settles it, which is `"unknown"` after a failed lookup; a formatter failure gives null |
| `TagSync.GetTagAdminUserName` | tagsync/src/main/java/org/apache/ranger/tagsync/process/TagSyncConfig.java:285-294 | a non-blank stored value verbatim, otherwise `"rangertagsync"`; never blank |
| `TagSync.GetAtlasRESTUserName` | tagsync/src/main/java/org/apache/ranger/tagsync/process/TagSyncConfig.java:338-347 | a non-blank stored value verbatim, otherwise `"admin"`; never blank |
| `TagSync.GetTagAdminPassword` | tagsync/src/main/java/org/apache/ranger/tagsync/process/TagSyncConfig.java:258-283 | a non-empty plaintext password wins. Otherwise the store's answer for the trimmed path and alias `tagadmin.user.password` is returned when it is usable (not empty after trim, not "none" ignoring case). The result is null exactly when neither applies |
| `TagSync.GetAtlasRESTPassword` | tagsync/src/main/java/org/apache/ranger/tagsync/process/TagSyncConfig.java:308-336 | the same precedence with alias `atlas.user.password`. It is null exactly when the store was asked and gave a non-blank answer that was rejected. In every other unresolved case it is `"admin"` |
| `TagSync.PasswordsDependOnOneStoreQuery` | tagsync/src/main/java/org/apache/ranger/tagsync/process/TagSyncConfig.java:267-281 | each password depends on the store only through one query: the trimmed keystore path with its own alias |
| `TagSync.PasswordAccessorsDifferOnlyInFallback` | tagsync/src/main/java/org/apache/ranger/tagsync/process/TagSyncConfig.java:308-336 | with equal settings and store answers, the two accessors agree whenever the admin one resolves. Where the admin one is null, the Atlas one is null only for a rejected non-blank store answer, and `"admin"` otherwise |
| `TagSync.PlaintextPasswordExample` | tagsync/src/main/java/org/apache/ranger/tagsync/process/TagSyncConfig.java:261-266 | a plaintext password is returned even when a keystore is configured |
| `TagSync.StoredPasswordExample` | tagsync/src/main/java/org/apache/ranger/tagsync/process/TagSyncConfig.java:267-278 | the store is asked with the trimmed keystore path |
| `TagSync.AdminSentinelExample` | tagsync/src/main/java/org/apache/ranger/tagsync/process/TagSyncConfig.java:276-282 | a stored `"None"` gives a null admin password |
| `TagSync.AtlasSentinelExamples` | tagsync/src/main/java/org/apache/ranger/tagsync/process/TagSyncConfig.java:326-335 | a stored `"none"` gives a null Atlas password; a failing store gives `"admin"` |
| `TagSync.AtlasControlCharacterExample` | tagsync/src/main/java/org/apache/ranger/tagsync/process/TagSyncConfig.java:326-335 | a stored U+0001, which `trim` empties but which is not blank, gives a null Atlas password |
| `TagSync.DefaultsWhenNothingIsConfigured` | tagsync/src/main/java/org/apache/ranger/tagsync/process/TagSyncConfig.java:206-408 | what every defaulted accessor returns for an empty settings map |
| `TagSync.WithSystemOverrides` | tagsync/src/main/java/org/apache/ranger/tagsync/process/TagSyncConfig.java:426-432 | the override pass fails exactly when the settings hold the empty name, for which `System.getProperty` throws. Otherwise it keeps the key set, keys with a system property take its value, and all other keys keep their value |
| `TagSync.SystemOverridesIdempotent` | tagsync/src/main/java/org/apache/ranger/tagsync/process/TagSyncConfig.java:426-432 | running the override pass again on its successful result gives the same map |
| `TagSync.SystemOverridesIgnoreAbsentKeys` | tagsync/src/main/java/org/apache/ranger/tagsync/process/TagSyncConfig.java:426-432 | system properties for keys that the files do not define have no effect |
| `TagSync.SystemOverrideOfEnabledFlag` | tagsync/src/main/java/org/apache/ranger/tagsync/process/TagSyncConfig.java:426-432 | after a successful override pass, a system property decides the enabled flag only when the files define the flag; otherwise the flag stays on |
| `TagSync.TagSyncConfig.OverrideWithSystemProperties` | tagsync/src/main/java/org/apache/ranger/tagsync/process/TagSyncConfig.java:426-432 | the in-place loop over the property names reports failure exactly when the empty name is among them. On success the new settings are those `WithSystemOverrides` gives. In every case the key set is kept and each value is either the old one or the system property |
| `TagSync.TagSyncConfig.GetProperties` | tagsync/src/main/java/org/apache/ranger/tagsync/process/TagSyncConfig.java:119-121 | returns the settings the object holds |
| `TagSync.TagSyncConfig.GetInstance` | tagsync/src/main/java/org/apache/ranger/tagsync/process/TagSyncConfig.java:115-117 | `getInstance` fails, through the exception from `init`, exactly when the merged settings hold the empty name. Otherwise it yields a fresh configuration whose settings are the merged map after the system-property overrides |
| `TagSync.TagSyncConfig.constructor` | tagsync/src/main/java/org/apache/ranger/tagsync/process/TagSyncConfig.java:410-421 | the configuration holds the merged settings that `getProps` returns, before the overrides |

## Left out

- `getFileInputStream` and `getResourceFileName` (lines 123-194) are not modelled. They probe the filesystem and the class path.
- `readConfigFile`, `addResource` and `getProps` are not modelled, nor is the layered merge of `core-site.xml`, `ranger-tagsync-default.xml` and `ranger-tagsync-site.xml`. Hadoop's `Configuration` does that work. The model starts from the merged map that `getProps` returns.
- Logging and `toString` are not modelled. They have no behaviour to state.
- `TagSync.TagSyncConfig.GetInstance` reports the `IllegalArgumentException` from `System.getProperty("")` as None. It does not model which exception escapes or a caller that catches it.
- A null `Properties` argument is not modelled, because the map type cannot be null. Four accessors guard against null: `getTagAdminPassword`, `getTagAdminUserName`, `getAtlasRESTPassword` and `getAtlasRESTUserName`. For null they answer as for an empty map, which `TagSync.DefaultsWhenNothingIsConfigured` covers. The others throw `NullPointerException`.
- The `Properties` defaults chain and non-`String` values are not modelled; `getProperty` is a plain map lookup.
- `JavaLong.ParseLongChecked` accepts only ASCII digits. `Long.parseLong` reads digits with `Character.digit`, which also accepts other Unicode decimal digits; the model treats strings with such digits as unparsable.
- `JavaText.EqualsIgnoreCase` folds only ASCII letters. This is exact for the three words compared here, "true", "none" and "ranger": no non-ASCII character case-maps onto their letters. The characters that do fold onto ASCII letters fold onto i, s and k.
- `JavaText.IsWhitespace` follows the current JDK's `Character.isWhitespace`. In Java 5 to 8, U+180E also counted as whitespace.
- Strings are sequences of Unicode scalar values rather than UTF-16 code units. No character that the accessors test is outside the Basic Multilingual Plane.
- `TagSync.TagSyncConfig.OverrideWithSystemProperties` reads the system properties as a fixed map. A property that changes while the loop runs is not modelled. The order in which `propertyNames` yields the names is arbitrary in the model.
- `SecureClientLogin.getPrincipal`, `CredentialReader.getDecryptedString` and the DNS lookup of the local host are not modelled. They appear only as parameters.
