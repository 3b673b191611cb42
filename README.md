# Config backup and fallback initializer — a Dafny model

This project models the configuration-backup component of a Spring Cloud Config
client. At startup an application-context initializer checks whether the
config-server property-source locator is registered and whether backup is
enabled (`spring.cloud.config.backup.enable`). If the remote configuration was
loaded, it flattens the loaded `configService` composite into a key/value map
(the first value seen for a key wins) and writes it, every value stringified,
to the backup file named by `spring.cloud.config.backup.fallback-location`. If
the remote configuration was not loaded, it reads that file and puts its pairs,
as a map source called `backupSource`, in front of every other property source.

Modules:

- `Wrappers`: the `Option` type standing for nullable references.
- `Sources`: property sources as a datatype (`MapSource`, `Composite`, `Other`
  stand for the framework classes an `instanceof` test would distinguish),
  locators, named lookup, the environment's `MutablePropertySources` as a
  class whose source list `initialize` changes, `String.valueOf` of a value, and
  the resolver's first-source-wins lookup.
- `SupportProperties`: the settings class `ConfigSupportProperties`.
- `SupportConfiguration`: the backup files as a class holding a map from path to
  stored pairs, the specification functions (`LoadedCloudSource`, `FirstWins`,
  `BackupMap`, `Stringified`, `Restored`, `AfterBackup`, `ReadBackup`) and the
  class `ConfigSupportConfiguration`, whose loops are methods proved against
  those functions.
- `SupportConfigurationLemmas`: what the specification functions mean. Most
  are stated without those functions: the three cases in which no remote
  source is found, the fold's keys and values, and the fallback's precedence.
  `BackupRoundTrip` and `BackupThenRestore` instead relate the specification
  functions to each other (stringify then restore, write then read).

Inputs the code gets from outside become parameters: the injected locator
list and settings (constructor arguments), the environment's sources and the
backup files (objects passed to `Initialize`), and the success or failure of
each file operation (`FileIo`). `Initialize` returns an `InitResult` naming the
branch taken; in the Java code that branch is visible only through its log
line, or, for `PathNotSet`, through the exception that escapes.

Three behaviours of the code that a reader might not expect, all modelled as written:

- `setFallbackLocation` stores its argument unchanged. The default file name is
  appended to the field's old value at ConfigSupportProperties.java line 28, and
  line 30 then overwrites that; no corrected, argument-based append is modelled.
- A backup file that is not writable is only logged (line 147); the store that
  follows then fails with an I/O error. That error is caught, so nothing is
  thrown.
- An unset backup path is not caught. `FileSystemResource` rejects a null path
  with an unchecked exception, and both file methods raise it before doing anything.
  The model returns `PathNotSet` and changes nothing.

## Model

| member | source | states |
|---|---|---|
| `Sources.IndexOfName` | configautoconfig/src/main/java/com/cloud/configautoconfig/ConfigSupportConfiguration.java:99-102 | named lookup finds the first source with the name, and finds none exactly when no source has it |
| `Sources.MutablePropertySources.constructor` | configautoconfig/src/main/java/com/cloud/configautoconfig/ConfigSupportConfiguration.java:43-44 | the environment starts with the given ordered source list |
| `Sources.MutablePropertySources.Get` | configautoconfig/src/main/java/com/cloud/configautoconfig/ConfigSupportConfiguration.java:99-102 | `get` returns a source exactly when `contains` holds, and it is the FIRST source in the list with that name |
| `Sources.MutablePropertySources.AddFirst` | configautoconfig/src/main/java/com/cloud/configautoconfig/ConfigSupportConfiguration.java:63 | the new source comes first and the others keep their relative order |
| `SupportProperties.ConfigSupportProperties.constructor` | configautoconfig/src/main/java/com/cloud/configautoconfig/ConfigSupportProperties.java:11-12 | a fresh settings object has backup disabled and no fallback location |
| `SupportProperties.ConfigSupportProperties.SetEnable` | configautoconfig/src/main/java/com/cloud/configautoconfig/ConfigSupportProperties.java:14-20 | `IsEnable` then returns the argument; the fallback location is unchanged |
| `SupportProperties.ConfigSupportProperties.SetFallbackLocation` | configautoconfig/src/main/java/com/cloud/configautoconfig/ConfigSupportProperties.java:22-31 | `GetFallbackLocation` then returns exactly the argument, with or without a dot, as the append at line 28 is overwritten; the enable flag is unchanged |
| `SupportConfiguration.FileSystem.constructor` | configautoconfig/src/main/java/com/cloud/configautoconfig/ConfigSupportConfiguration.java:140-141 | the class is the abstract file state that the resource opened on the path at these lines reaches into (path to stored pairs); it starts as given |
| `SupportConfiguration.ConfigSupportConfiguration.constructor` | configautoconfig/src/main/java/com/cloud/configautoconfig/ConfigSupportConfiguration.java:29-33 | the injected locator list and settings are the ones given |
| `SupportConfiguration.ConfigSupportConfiguration.GetOrder` | configautoconfig/src/main/java/com/cloud/configautoconfig/ConfigSupportConfiguration.java:27 | the precedence is `Integer.MIN_VALUE + 11` |
| `SupportConfiguration.ConfigSupportConfiguration.Initialize` | configautoconfig/src/main/java/com/cloud/configautoconfig/ConfigSupportConfiguration.java:36-67 | no locator (checked first) or backup disabled changes nothing; a loaded remote source is backed up, stringified, and the source list is left unchanged; a missing remote source never writes the file, and a readable backup is prepended as `backupSource` holding exactly its pairs, while an unreadable one changes nothing; an unset path changes nothing |
| `SupportConfiguration.ConfigSupportConfiguration.IsHasCloudConfigLocator` | configautoconfig/src/main/java/com/cloud/configautoconfig/ConfigSupportConfiguration.java:76-83 | true exactly when some registered locator is the config-server one (so false for an empty list) |
| `SupportConfiguration.ConfigSupportConfiguration.IsCloudConfigLoaded` | configautoconfig/src/main/java/com/cloud/configautoconfig/ConfigSupportConfiguration.java:88-93 | true exactly when a remote source is found |
| `SupportConfiguration.ConfigSupportConfiguration.GetLoadedCloudPropertySource` | configautoconfig/src/main/java/com/cloud/configautoconfig/ConfigSupportConfiguration.java:98-111 | the search loop returns the remote source as `LoadedCloudSource` describes it |
| `SupportConfiguration.ConfigSupportConfiguration.MakeBackupPropertyMap` | configautoconfig/src/main/java/com/cloud/configautoconfig/ConfigSupportConfiguration.java:117-133 | the nested loops with the `containsKey` guard compute the first-writer-wins fold `BackupMap` |
| `SupportConfiguration.ConfigSupportConfiguration.DoBackup` | configautoconfig/src/main/java/com/cloud/configautoconfig/ConfigSupportConfiguration.java:139-161 | the file at the path then holds every pair with its value stringified; a failed create changes nothing, a failed store leaves a new file empty and an old one as it was; every I/O error is caught, and a null path is the one exception that escapes |
| `SupportConfiguration.ConfigSupportConfiguration.LoadBackupProperty` | configautoconfig/src/main/java/com/cloud/configautoconfig/ConfigSupportConfiguration.java:167-181 | yields the stored pairs of an existing readable file and nothing (null) otherwise; a null path escapes; for files `DoBackup` wrote nothing else escapes, since the text format is not modelled (see Left out) |
| `SupportConfigurationLemmas.LoadedCloudSourceCases` | configautoconfig/src/main/java/com/cloud/configautoconfig/ConfigSupportConfiguration.java:98-111 | no remote source when the bootstrap source is absent or is not composite, or when no child is called `configService`; otherwise the first such child |
| `SupportConfigurationLemmas.FirstWinsKeys` | configautoconfig/src/main/java/com/cloud/configautoconfig/ConfigSupportConfiguration.java:121-128 | the fold's keys are exactly the union of the keys of the map-source children |
| `SupportConfigurationLemmas.FirstWinsEarliest` | configautoconfig/src/main/java/com/cloud/configautoconfig/ConfigSupportConfiguration.java:124-127 | each key holds the value of the earliest map-source child defining it |
| `SupportConfigurationLemmas.FirstWinsSkipsNonMap` | configautoconfig/src/main/java/com/cloud/configautoconfig/ConfigSupportConfiguration.java:121-122 | a nested composite or other non-map child, wherever it stands, contributes nothing |
| `SupportConfigurationLemmas.BackupMapSpec` | configautoconfig/src/main/java/com/cloud/configautoconfig/ConfigSupportConfiguration.java:117-133 | a non-composite argument yields the empty map; a composite yields exactly the keys of its direct map children, each with the earliest value |
| `SupportConfigurationLemmas.FallbackTakesPrecedence` | configautoconfig/src/main/java/com/cloud/configautoconfig/ConfigSupportConfiguration.java:61-63 | after the prepend, the raw value the sources hold for every backed-up key (before placeholder expansion) is its backed-up text, and for every other key it is as before |
| `SupportConfigurationLemmas.BackupRoundTrip` | configautoconfig/src/main/java/com/cloud/configautoconfig/ConfigSupportConfiguration.java:153 | text values survive stringifying on backup and wrapping on restore unchanged |
| `SupportConfigurationLemmas.BackupThenRestore` | configautoconfig/src/main/java/com/cloud/configautoconfig/ConfigSupportConfiguration.java:155-156 | when the store and the next read of that path both succeed, the read returns the stored pairs (a `.xml` path never reads back; see Left out) |
| `SupportConfigurationLemmas.FirstWinsExample` | configautoconfig/src/main/java/com/cloud/configautoconfig/ConfigSupportConfiguration.java:124-127 | children `{x:1}` then `{x:2, y:3}` back up as `{x:1, y:3}` |

## Left out

- The text format of the backup file (`java.util.Properties` escaping, the header comment, the timestamp) is not modelled: a file is the map of pairs it holds. Whether reading a written file back succeeds is the `loadSucceeds` outcome of `FileIo`, not something the model derives.
- SupportConfigurationLemmas.BackupThenRestore: holds only when that read succeeds. It fails for a path whose file name ends in `.xml`. The backup is always written as `key=value` text (line 156), but the reader parses such a file as XML. The resulting `InvalidPropertiesFormatException` is an `IOException`, so the catch at line 176 returns null and the fallback is never applied. In the model that case is `loadSucceeds` false, and the round trip does not hold there.
- SupportConfiguration.ConfigSupportConfiguration.LoadBackupProperty: parsing of hand-written backup files is not modelled. A malformed `\uXXXX` escape makes `Properties.load` throw `IllegalArgumentException`. The `catch (IOException e)` at line 176 does not catch it, so it escapes `initialize`, and the model has no case for it.
- File I/O itself (`FileSystemResource`, `createNewFile`, `canWrite`, `FileOutputStream`, `PropertiesFactoryBean`) is not modelled. Each operation's success is a `FileIo` parameter, and a store that fails part-way is treated as not having written.
- Logging and `printStackTrace` have no effect on state and are left out.
- Spring wiring and lifecycle are not modelled: injection, when the initializer runs, and how its order compares with other initializers'.
- `MutablePropertySources.addFirst` removes an existing source of the same name first. Source names are assumed unique, so `AddFirst` is a plain prepend.
- `HashMap` iteration order is not modelled. The file's key order is unspecified, and the loops take keys in an arbitrary order.
- `setFallbackLocation(null)` throws `NullPointerException` at line 27; the model's argument is a non-null string.
- Sources.ValueOf: `Value` has no floating-point case. A `Double` from the config server, which `String.valueOf` at line 153 renders as `0.1` or `1.0E10`, cannot be represented, because Java's floating-point formatting is not modelled.
- `Sources.ValueOf` renders integers with unbounded precision; Java's boxed integer types have fixed widths, which does not change their decimal text.
- The framework's resolver (`Sources.Resolve`) is modelled only as far as the fallback needs. Like Spring's resolver and `CompositePropertySource.getProperty`, it passes over a source whose value for the key is null. Sources of kinds other than map and composite are treated as holding no keys. String values are returned as stored; the resolver's `${...}` placeholder expansion is not modelled, and neither is the exception it raises for a placeholder it cannot resolve. So a resolved value may differ from the raw one, and a key whose placeholder only the backup defines resolves after the prepend but not before.
- The name `bootstrapProperties` is the value of Spring Cloud's `PropertySourceBootstrapConfiguration.BOOTSTRAP_PROPERTY_SOURCE_NAME`. That class is not part of this model.
- The client controller `ConfigClientController.getInfo` only returns an injected value, and its refresh behaviour is the framework's, so it is not part of this model.
