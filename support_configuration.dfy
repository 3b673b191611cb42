/**
 * The startup initializer that backs up remote configuration and falls back to
 * the backup. Once per startup it checks that the config-server locator is
 * registered and that backup is enabled; then, if the remote source was loaded,
 * it flattens that source into a map and writes it to the backup file, and
 * otherwise it reads the backup file and puts its contents in front of every
 * other property source.
 */
module SupportConfiguration {
  import opened Wrappers
  import opened Sources
  import opened SupportProperties

  /** Name under which the bootstrap phase registers the sources its locators produced. */
  const BootstrapPropertySourceName: string := "bootstrapProperties"
  /** Name of the composite the config-server locator produces. */
  const ConfigServiceSourceName: string := "configService"
  /** Name of the source built from the backup file. */
  const BackupSourceName: string := "backupSource"
  /** `Ordered.HIGHEST_PRECEDENCE`, which is Java's `Integer.MIN_VALUE`. */
  const HighestPrecedence: int := -0x8000_0000

  /** The backup files that exist, each as the key/value pairs it holds. */
  class FileSystem {
    var files: map<string, map<string, string>>

    constructor (files: map<string, map<string, string>>)
      ensures this.files == files
    {
      this.files := files;
    }
  }

  /**
   * What the file operations do this run: whether `createNewFile` succeeds for a
   * missing backup file, whether opening and storing the file succeeds (it fails,
   * among other reasons, when the file is not writable), and whether reading it
   * back succeeds for a file that exists.
   */
  datatype FileIo = FileIo(createSucceeds: bool, storeSucceeds: bool, loadSucceeds: bool)

  /** Which way `initialize` went; `PathNotSet` stands for the exception a null backup path raises. */
  datatype InitResult =
    | NoConfigServiceLocator
    | BackupDisabled
    | BackedUp
    | FallbackApplied
    | NoBackupAvailable
    | PathNotSet

  /** Some registered locator is the config-server one. */
  ghost predicate UsesConfigService(locators: seq<Locator>)
  {
    exists i :: 0 <= i < |locators| && locators[i].ConfigServiceLocator?
  }

  /**
   * The remote source the bootstrap phase loaded: the first child called
   * "configService" of the source registered under the bootstrap name, when
   * that source is a composite.
   */
  function LoadedCloudSource(sources: seq<Source>): Option<Source>
  {
    match IndexOfName(sources, BootstrapPropertySourceName)
    case None => None
    case Some(b) =>
      match sources[b]
      case Composite(_, children) =>
        (match IndexOfName(children, ConfigServiceSourceName)
         case None => None
         case Some(j) => Some(children[j]))
      case _ => None
  }

  /** `s` is a map source that holds `key`. */
  ghost predicate Defines(s: Source, key: string)
  {
    s.MapSource? && key in s.props
  }

  /** `acc` extended with the pairs of `props` whose keys `acc` does not hold yet. */
  function Absorb(acc: map<string, Value>, props: map<string, Value>): map<string, Value>
  {
    map k | k in acc.Keys + props.Keys :: if k in acc then acc[k] else props[k]
  }

  /** The children's map sources folded in order, the first value seen for a key winning. */
  function FirstWins(children: seq<Source>): map<string, Value>
    decreases |children|
  {
    if children == [] then map[]
    else
      var acc := FirstWins(children[..|children| - 1]);
      var last := children[|children| - 1];
      if last.MapSource? then Absorb(acc, last.props) else acc
  }

  /** The backup map of a source: its direct children flattened, or nothing for a non-composite. */
  function BackupMap(s: Source): map<string, Value>
  {
    if s.Composite? then FirstWins(s.children) else map[]
  }

  /** Every value rendered with `String.valueOf`, as the backup file stores it. */
  function Stringified(m: map<string, Value>): map<string, string>
  {
    map k | k in m :: ValueOf(m[k])
  }

  /** The pairs read from a backup file, as the map source built from them holds them. */
  function Restored(props: map<string, string>): map<string, Value>
  {
    map k | k in props :: Text(props[k])
  }

  /**
   * The files after backing `contents` up to `path`: nothing changes when a
   * missing file cannot be created; a store that fails leaves a freshly
   * created file empty and an existing one as it was.
   */
  function AfterBackup(files: map<string, map<string, string>>, path: string,
                       contents: map<string, string>, io: FileIo): map<string, map<string, string>>
  {
    if path !in files && !io.createSucceeds then files
    else if io.storeSucceeds then files[path := contents]
    else if path in files then files
    else files[path := map[]]
  }

  /** What reading the backup file at `path` yields; `None` when it is missing or cannot be read. */
  function ReadBackup(files: map<string, map<string, string>>, path: string, io: FileIo): Option<map<string, string>>
  {
    if path in files && io.loadSucceeds then Some(files[path]) else None
  }

  class ConfigSupportConfiguration {
    const orderNum: int := HighestPrecedence + 11
    var propertySourceLocators: seq<Locator>
    var configSupportProperties: ConfigSupportProperties

    /** The injected collaborators: the registered locators and the settings. */
    constructor (propertySourceLocators: seq<Locator>, configSupportProperties: ConfigSupportProperties)
      ensures this.propertySourceLocators == propertySourceLocators
      ensures this.configSupportProperties == configSupportProperties
    {
      this.propertySourceLocators := propertySourceLocators;
      this.configSupportProperties := configSupportProperties;
    }

    /** The initializer's precedence: eleven places after the very first. */
    function GetOrder(): (r: int)
      ensures r == -2147483637
    {
      orderNum
    }

    method Initialize(propertySources: MutablePropertySources, fs: FileSystem, io: FileIo) returns (r: InitResult)
      modifies propertySources, fs
      // the locator check comes first, then the enable check
      ensures r == NoConfigServiceLocator <==> !UsesConfigService(propertySourceLocators)
      ensures r == BackupDisabled <==> UsesConfigService(propertySourceLocators) && !configSupportProperties.IsEnable()
      ensures r in {NoConfigServiceLocator, BackupDisabled, PathNotSet} ==>
                propertySources.sources == old(propertySources.sources) && fs.files == old(fs.files)
      ensures r == PathNotSet ==> configSupportProperties.GetFallbackLocation().None?
      // remote source loaded: back it up, leave the sources alone
      ensures r == BackedUp <==>
                UsesConfigService(propertySourceLocators) && configSupportProperties.IsEnable() &&
                LoadedCloudSource(old(propertySources.sources)).Some? &&
                configSupportProperties.GetFallbackLocation().Some?
      ensures r == BackedUp ==>
                propertySources.sources == old(propertySources.sources) &&
                fs.files == AfterBackup(old(fs.files), configSupportProperties.GetFallbackLocation().value,
                                        Stringified(BackupMap(LoadedCloudSource(old(propertySources.sources)).value)), io)
      // remote source missing: read the backup, never write it
      ensures r in {FallbackApplied, NoBackupAvailable} ==>
                UsesConfigService(propertySourceLocators) && configSupportProperties.IsEnable() &&
                LoadedCloudSource(old(propertySources.sources)).None? &&
                configSupportProperties.GetFallbackLocation().Some? &&
                fs.files == old(fs.files)
      ensures r == FallbackApplied ==>
                var read := ReadBackup(old(fs.files), configSupportProperties.GetFallbackLocation().value, io);
                read.Some? &&
                propertySources.sources == [MapSource(BackupSourceName, Restored(read.value))] + old(propertySources.sources)
      ensures r == NoBackupAvailable ==>
                ReadBackup(old(fs.files), configSupportProperties.GetFallbackLocation().value, io).None? &&
                propertySources.sources == old(propertySources.sources)
    {
      var hasLocator := IsHasCloudConfigLocator(propertySourceLocators);
      if !hasLocator {
        return NoConfigServiceLocator;
      }
      if !configSupportProperties.IsEnable() {
        return BackupDisabled;
      }
      var loaded := IsCloudConfigLoaded(propertySources);
      if loaded {
        var cloudConfigSource := GetLoadedCloudPropertySource(propertySources);
        var backupPropertyMap := MakeBackupPropertyMap(cloudConfigSource.value);
        var rejected := DoBackup(backupPropertyMap, configSupportProperties.GetFallbackLocation(), fs, io);
        r := if rejected then PathNotSet else BackedUp;
      } else {
        var rejected, backupProperties := LoadBackupProperty(configSupportProperties.GetFallbackLocation(), fs, io);
        if rejected {
          return PathNotSet;
        }
        if backupProperties.Some? {
          var backupSource := MapSource(BackupSourceName, Restored(backupProperties.value));
          propertySources.AddFirst(backupSource);
          r := FallbackApplied;
        } else {
          r := NoBackupAvailable;
        }
      }
    }

    static method IsHasCloudConfigLocator(propertySourceLocators: seq<Locator>) returns (r: bool)
      ensures r <==> UsesConfigService(propertySourceLocators)
    {
      var n := 0;
      while n < |propertySourceLocators|
        invariant 0 <= n <= |propertySourceLocators|
        invariant forall i :: 0 <= i < n ==> !propertySourceLocators[i].ConfigServiceLocator?
      {
        if propertySourceLocators[n].ConfigServiceLocator? {
          return true;
        }
        n := n + 1;
      }
      return false;
    }

    static method IsCloudConfigLoaded(propertySources: MutablePropertySources) returns (r: bool)
      ensures r <==> LoadedCloudSource(propertySources.sources).Some?
    {
      var source := GetLoadedCloudPropertySource(propertySources);
      r := source.Some?;
    }

    static method GetLoadedCloudPropertySource(propertySources: MutablePropertySources) returns (r: Option<Source>)
      ensures r == LoadedCloudSource(propertySources.sources)
    {
      if !propertySources.Contains(BootstrapPropertySourceName) {
        return None;
      }
      var propertySource := propertySources.Get(BootstrapPropertySourceName).value;
      if propertySource.Composite? {
        var children := propertySource.children;
        var n := 0;
        while n < |children|
          invariant 0 <= n <= |children|
          invariant forall i :: 0 <= i < n ==> children[i].name != ConfigServiceSourceName
        {
          if children[n].name == ConfigServiceSourceName {
            return Some(children[n]);
          }
          n := n + 1;
        }
      }
      return None;
    }

    static method MakeBackupPropertyMap(propertySource: Source) returns (backup: map<string, Value>)
      ensures backup == BackupMap(propertySource)
    {
      backup := map[];
      if propertySource.Composite? {
        var children := propertySource.children;
        var n := 0;
        while n < |children|
          invariant 0 <= n <= |children|
          invariant backup == FirstWins(children[..n])
        {
          var source := children[n];
          if source.MapSource? {
            ghost var before := backup;
            var names := source.props.Keys;
            while names != {}
              invariant names <= source.props.Keys
              invariant backup.Keys == before.Keys + (source.props.Keys - names)
              invariant forall k :: k in backup ==> backup[k] == if k in before then before[k] else source.props[k]
              decreases names
            {
              var name :| name in names;
              if name !in backup {
                backup := backup[name := source.props[name]];
              }
              names := names - {name};
            }
            assert backup == Absorb(before, source.props);
          }
          assert children[..n + 1][..n] == children[..n];
          n := n + 1;
        }
        assert children[..n] == children;
      }
    }

    /**
     * Writes the stringified map to the backup file, creating it when missing.
     * I/O failures are caught; only a null path escapes, before anything is done.
     */
    static method DoBackup(backupPropertyMap: map<string, Value>, filePath: Option<string>,
                           fs: FileSystem, io: FileIo) returns (pathRejected: bool)
      modifies fs
      ensures pathRejected <==> filePath.None?
      ensures fs.files == if filePath.None? then old(fs.files)
                          else AfterBackup(old(fs.files), filePath.value, Stringified(backupPropertyMap), io)
    {
      if filePath.None? {
        return true;
      }
      var path := filePath.value;
      if path !in fs.files {
        if !io.createSucceeds {
          return false;
        }
        fs.files := fs.files[path := map[]];
      }
      var properties: map<string, string> := map[];
      var keys := backupPropertyMap.Keys;
      while keys != {}
        invariant keys <= backupPropertyMap.Keys
        invariant properties.Keys == backupPropertyMap.Keys - keys
        invariant forall k :: k in properties ==> properties[k] == ValueOf(backupPropertyMap[k])
        decreases keys
      {
        var key :| key in keys;
        properties := properties[key := ValueOf(backupPropertyMap[key])];
        keys := keys - {key};
      }
      assert properties == Stringified(backupPropertyMap);
      if io.storeSucceeds {
        fs.files := fs.files[path := properties];
      }
      return false;
    }

    /** Reads the backup file; `None` when it is missing or unreadable, and only a null path escapes. */
    static method LoadBackupProperty(filePath: Option<string>, fs: FileSystem, io: FileIo)
      returns (pathRejected: bool, properties: Option<map<string, string>>)
      ensures pathRejected <==> filePath.None?
      ensures filePath.Some? ==> properties == ReadBackup(fs.files, filePath.value, io)
    {
      if filePath.None? {
        return true, None;
      }
      var path := filePath.value;
      if path in fs.files && io.loadSucceeds {
        return false, Some(fs.files[path]);
      }
      return false, None;
    }
  }
}
