/** What the initializer's specification functions promise, stated against independent descriptions. */
module SupportConfigurationLemmas {
  import opened Wrappers
  import opened Sources
  import opened SupportConfiguration

  /**
   * The remote source is missing exactly in three cases (no bootstrap source,
   * a bootstrap source that is not composite, no child called "configService"),
   * and is otherwise the first child with that name.
   */
  lemma LoadedCloudSourceCases(sources: seq<Source>)
    ensures (forall i :: 0 <= i < |sources| ==> sources[i].name != BootstrapPropertySourceName) ==>
              LoadedCloudSource(sources).None?
    ensures forall b :: FirstNamed(sources, b, BootstrapPropertySourceName) && !sources[b].Composite? ==>
              LoadedCloudSource(sources).None?
    ensures forall b :: FirstNamed(sources, b, BootstrapPropertySourceName) && sources[b].Composite? &&
                        (forall k :: 0 <= k < |sources[b].children| ==> sources[b].children[k].name != ConfigServiceSourceName) ==>
              LoadedCloudSource(sources).None?
    ensures forall b, j :: FirstNamed(sources, b, BootstrapPropertySourceName) && sources[b].Composite? &&
                           FirstNamed(sources[b].children, j, ConfigServiceSourceName) ==>
              LoadedCloudSource(sources) == Some(sources[b].children[j])
  {
  }

  /** The keys of the fold are exactly the keys some map-source child holds. */
  lemma {:induction false} FirstWinsKeys(children: seq<Source>, key: string)
    ensures key in FirstWins(children) <==> exists j :: 0 <= j < |children| && Defines(children[j], key)
    decreases |children|
  {
    if children != [] {
      var prefix := children[..|children| - 1];
      FirstWinsKeys(prefix, key);
      assert forall j :: 0 <= j < |prefix| ==> prefix[j] == children[j];
    }
  }

  /** A key holds the value of the earliest map-source child that defines it. */
  lemma {:induction false} FirstWinsEarliest(children: seq<Source>, key: string, j: nat)
    requires j < |children| && Defines(children[j], key)
    requires forall i :: 0 <= i < j ==> !Defines(children[i], key)
    ensures key in FirstWins(children) && FirstWins(children)[key] == children[j].props[key]
    decreases |children|
  {
    var prefix := children[..|children| - 1];
    if j < |children| - 1 {
      FirstWinsEarliest(prefix, key, j);
    } else {
      FirstWinsKeys(prefix, key);
      assert forall i :: 0 <= i < |prefix| ==> prefix[i] == children[i];
    }
  }

  /** A nested composite or a source of another kind, wherever it stands, contributes nothing. */
  lemma {:induction false} FirstWinsSkipsNonMap(front: seq<Source>, x: Source, back: seq<Source>)
    requires !x.MapSource?
    ensures FirstWins(front + [x] + back) == FirstWins(front + back)
    decreases |back|
  {
    if back == [] {
      assert (front + [x] + back)[..|front| + 1 - 1] == front;
      assert front + back == front;
    } else {
      var last := back[|back| - 1];
      var shorter := back[..|back| - 1];
      FirstWinsSkipsNonMap(front, x, shorter);
      assert (front + [x] + back)[..|front + [x] + back| - 1] == front + [x] + shorter;
      assert (front + back)[..|front + back| - 1] == front + shorter;
    }
  }

  /**
   * The backup map, characterised without the fold: a composite's backup map
   * holds exactly the keys of its direct map-source children, each with the
   * value of the earliest child that defines it; anything else backs up nothing.
   */
  lemma BackupMapSpec(s: Source)
    ensures !s.Composite? ==> BackupMap(s) == map[]
    ensures s.Composite? ==> forall key ::
              key in BackupMap(s) <==> exists j :: 0 <= j < |s.children| && Defines(s.children[j], key)
    ensures s.Composite? ==> forall key, j ::
              0 <= j < |s.children| && Defines(s.children[j], key) &&
              (forall i :: 0 <= i < j ==> !Defines(s.children[i], key)) ==>
              key in BackupMap(s) && BackupMap(s)[key] == s.children[j].props[key]
  {
    if s.Composite? {
      forall key ensures key in BackupMap(s) <==> exists j :: 0 <= j < |s.children| && Defines(s.children[j], key) {
        FirstWinsKeys(s.children, key);
      }
      forall key, j | 0 <= j < |s.children| && Defines(s.children[j], key) &&
                      (forall i :: 0 <= i < j ==> !Defines(s.children[i], key))
        ensures key in BackupMap(s) && BackupMap(s)[key] == s.children[j].props[key]
      {
        FirstWinsEarliest(s.children, key, j);
      }
    }
  }

  /**
   * Once the backup source is in front, the raw value the sources hold for a
   * key it holds is the backed-up text, and for every other key it is what it
   * was before (placeholder expansion aside).
   */
  lemma FallbackTakesPrecedence(backup: map<string, string>, sources: seq<Source>, key: string)
    ensures var placed := [MapSource(BackupSourceName, Restored(backup))] + sources;
            Resolve(placed, key) == if key in backup then Some(Text(backup[key])) else Resolve(sources, key)
  {
  }

  /** A map of text values read back from the file it was backed up to is the map itself. */
  lemma BackupRoundTrip(m: map<string, Value>)
    requires forall k :: k in m ==> m[k].Text?
    ensures Restored(Stringified(m)) == m
  {
  }

  /** A backup that was stored is what the next read of the same path yields. */
  lemma BackupThenRestore(files: map<string, map<string, string>>, path: string,
                          contents: map<string, string>, io: FileIo)
    requires io.storeSucceeds && io.loadSucceeds
    requires path in files || io.createSucceeds
    ensures ReadBackup(AfterBackup(files, path, contents, io), path, io) == Some(contents)
  {
  }

  /**
   * Two map children sharing a key: the earlier one's value is kept, and a key
   * only the later one holds is taken from it.
   */
  lemma FirstWinsExample()
    ensures BackupMap(Composite(ConfigServiceSourceName, [
              MapSource("a", map["x" := Text("1")]),
              MapSource("b", map["x" := Text("2"), "y" := Text("3")])]))
            == map["x" := Text("1"), "y" := Text("3")]
  {
    var children := [MapSource("a", map["x" := Text("1")]),
                     MapSource("b", map["x" := Text("2"), "y" := Text("3")])];
    assert children[..1][..0] == [];
    assert FirstWins(children[..1]) == map["x" := Text("1")];
    assert children[..2 - 1] == children[..1];
    var result := Absorb(map["x" := Text("1")], children[1].props);
    assert result.Keys == {"x", "y"};
    assert result == map["x" := Text("1"), "y" := Text("3")];
  }
}
