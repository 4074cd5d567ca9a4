/**
 * The model and dataset registry index (part5/model_registry.py). The
 * index maps each model name and each dataset name to its versions, the
 * latest registered version and a creation time. File copying, hashing,
 * size sums and the JSON file itself are inputs here: a path is described
 * by what the file system reports about it.
 */
module Registry {
  import opened Wrappers
  import opened Text
  import opened JsonValue
  import Versioning

  /** What the file system says about a path: missing, a directory with its total size, or a file with its size and SHA-256 digest. */
  datatype PathInfo = Missing | Dir(totalSize: nat) | File(size: nat, hash: string)

  datatype DateTime = DateTime(year: nat, month: nat, day: nat, hour: nat, minute: nat)

  /** One index entry: the metadata of every version, the latest version and the creation time. */
  datatype Entry = Entry(versions: map<string, Metadata>, latestVersion: Option<string>, created: string)

  const RegisteredAtKey: string := "registered_at"
  const OriginalPathKey: string := "original_path"
  const RegistryPathKey: string := "registry_path"
  const ModelSizeKey: string := "model_size_bytes"
  const DatasetSizeKey: string := "dataset_size_bytes"
  const FileHashKey: string := "file_hash"
  const ReferenceOnlyKey: string := "is_reference_only"
  const NameKey: string := "name"
  const VersionKey: string := "version"

  const ModelsDir: string := "models"
  const DatasetsDir: string := "datasets"
  const MissingModel: string := "Model path does not exist: "
  const MissingDataset: string := "Dataset path does not exist: "

  /** Datasets above this many bytes are recorded by reference only (line 167). */
  const LargeDatasetBytes: nat := 1_000_000_000

  /** `os.path.join(a, b)` on POSIX paths: an absolute `b` replaces `a`, otherwise one `/` separates them. */
  function PathJoin(a: string, b: string): string {
    if b != [] && b[0] == '/' then b
    else if a == [] || a[|a| - 1] == '/' then a + b
    else a + "/" + b
  }

  /** A joined path ends with its last component, and keeps the first one as a prefix unless the last is absolute. */
  lemma PathJoinParts(a: string, b: string)
    ensures EndsWith(PathJoin(a, b), b)
    ensures (b == [] || b[0] != '/') ==> StartsWith(PathJoin(a, b), a)
    ensures (b == [] || b[0] != '/') && a != [] && a[|a| - 1] != '/' ==> PathJoin(a, b) == a + "/" + b
  {
    var p := PathJoin(a, b);
    assert p[|p| - |b|..] == b;
    if b == [] || b[0] != '/' {
      assert p[..|a|] == a;
    }
  }

  /** The directory a version is copied to: `os.path.join(root, kind, name, version)` (lines 79, 155). */
  function VersionDir(root: string, kind: string, name: string, version: string): string {
    PathJoin(PathJoin(PathJoin(root, kind), name), version)
  }

  /** `_generate_version` (lines 303-311): `v{year}.{month:02d}.{day:02d}.{hour:02d}{minute:02d}`. */
  function GenerateVersion(now: DateTime): string {
    "v" + NatToString(now.year) + "." + Pad2(now.month) + "." + Pad2(now.day) + "." + Pad2(now.hour) + Pad2(now.minute)
  }

  lemma Pad2Value(n: nat)
    ensures Pad2(n) != [] && DigitsValue(Pad2(n)) == n
  {
    NatToStringRoundTrip(n);
    if n < 10 {
      Versioning.LeadingZeroIgnored(NatToString(n));
    }
  }

  /** A generated version reads back, through the semantic-version parser, as year.month.day. */
  lemma GeneratedVersionParses(now: DateTime)
    ensures Versioning.ParseVersion(GenerateVersion(now)) == Ok(Versioning.Version(now.year, now.month, now.day))
  {
    var y, mo, d := NatToString(now.year), Pad2(now.month), Pad2(now.day);
    var tail := "." + Pad2(now.hour) + Pad2(now.minute);
    assert GenerateVersion(now) == "v" + (y + ("." + (mo + ("." + (d + tail)))));
    NatToStringRoundTrip(now.year);
    Pad2Value(now.month);
    Pad2Value(now.day);
    Versioning.ParseVersionOf("v", y, mo, d, tail, Versioning.Version(now.year, now.month, now.day));
  }

  /** The keys `register_model` writes over the caller's dictionary. */
  predicate ModelKey(k: string) {
    k == RegisteredAtKey || k == OriginalPathKey || k == RegistryPathKey || k == ModelSizeKey || k == FileHashKey
  }

  /**
   * The metadata stored for a model version (lines 97-115): the caller's
   * dictionary, then the three standard keys, then the size, and for a
   * single file its hash.
   */
  function ModelMetadata(metadata: Option<Metadata>, now: string, originalPath: string, registryDir: string, info: PathInfo): Metadata
    requires !info.Missing?
  {
    var caller := if metadata.Some? then metadata.value else map[];
    var m := caller[RegisteredAtKey := Str(now)][OriginalPathKey := Str(originalPath)][RegistryPathKey := Str(registryDir)];
    if info.Dir? then m[ModelSizeKey := Int(info.totalSize)]
    else m[ModelSizeKey := Int(info.size)][FileHashKey := Str(info.hash)]
  }

  /** The keys and values of a model version's metadata: the standard keys, the hash for a file, and the caller's other keys untouched. */
  lemma ModelMetadataKeys(metadata: Option<Metadata>, now: string, originalPath: string, registryDir: string, info: PathInfo)
    requires !info.Missing?
    ensures var m := ModelMetadata(metadata, now, originalPath, registryDir, info);
      var caller := if metadata.Some? then metadata.value else map[];
      && RegisteredAtKey in m && m[RegisteredAtKey] == Str(now)
      && OriginalPathKey in m && m[OriginalPathKey] == Str(originalPath)
      && RegistryPathKey in m && m[RegistryPathKey] == Str(registryDir)
      && ModelSizeKey in m && m[ModelSizeKey] == Int(if info.Dir? then info.totalSize else info.size)
      && (info.File? ==> FileHashKey in m && m[FileHashKey] == Str(info.hash))
      && (info.Dir? ==> (FileHashKey in m <==> FileHashKey in caller))
      && (forall k :: k in m <==> k in caller || (ModelKey(k) && (k != FileHashKey || info.File?)))
      && (forall k :: k in caller && !ModelKey(k) ==> m[k] == caller[k])
  {
  }

  /** Whether a dataset is recorded by reference only: a directory of more than 1,000,000,000 bytes. */
  predicate IsLarge(info: PathInfo) {
    info.Dir? && info.totalSize > LargeDatasetBytes
  }

  /** The keys `register_dataset` may write over the caller's dictionary. */
  predicate DatasetKey(k: string) {
    k == RegisteredAtKey || k == OriginalPathKey || k == RegistryPathKey || k == ReferenceOnlyKey || k == DatasetSizeKey || k == FileHashKey
  }

  /**
   * The metadata stored for a dataset version (lines 185-203). A large
   * directory gets `is_reference_only` true and no size or hash of its own.
   */
  function DatasetMetadata(metadata: Option<Metadata>, now: string, originalPath: string, registryDir: string, info: PathInfo): Metadata
    requires !info.Missing?
  {
    var caller := if metadata.Some? then metadata.value else map[];
    var large := IsLarge(info);
    var m := caller[RegisteredAtKey := Str(now)][OriginalPathKey := Str(originalPath)]
                   [RegistryPathKey := Str(registryDir)][ReferenceOnlyKey := Bool(large)];
    if large then m
    else if info.Dir? then m[DatasetSizeKey := Int(info.totalSize)]
    else m[DatasetSizeKey := Int(info.size)][FileHashKey := Str(info.hash)]
  }

  /** The keys and values of a dataset version's metadata; a large directory keeps whatever size the caller gave. */
  lemma DatasetMetadataKeys(metadata: Option<Metadata>, now: string, originalPath: string, registryDir: string, info: PathInfo)
    requires !info.Missing?
    ensures var m := DatasetMetadata(metadata, now, originalPath, registryDir, info);
      var caller := if metadata.Some? then metadata.value else map[];
      && RegisteredAtKey in m && m[RegisteredAtKey] == Str(now)
      && OriginalPathKey in m && m[OriginalPathKey] == Str(originalPath)
      && RegistryPathKey in m && m[RegistryPathKey] == Str(registryDir)
      && ReferenceOnlyKey in m && m[ReferenceOnlyKey] == Bool(IsLarge(info))
      && (!IsLarge(info) ==> DatasetSizeKey in m && m[DatasetSizeKey] == Int(if info.Dir? then info.totalSize else info.size))
      && (info.File? ==> FileHashKey in m && m[FileHashKey] == Str(info.hash))
      && (IsLarge(info) ==> (DatasetSizeKey in m <==> DatasetSizeKey in caller))
      && (info.Dir? ==> (FileHashKey in m <==> FileHashKey in caller))
      && (forall k :: k in caller ==> k in m)
      && (forall k :: k in m && !DatasetKey(k) ==> k in caller)
      && (forall k :: k in caller && !DatasetKey(k) ==> m[k] == caller[k])
  {
  }

  /** The names of a table in index order, no repeats, and every entry pointing at a stored latest version. */
  ghost predicate TableOk(names: seq<string>, table: map<string, Entry>) {
    && (forall a, b :: 0 <= a < b < |names| ==> names[a] != names[b])
    && (forall n :: n in table <==> n in names)
    && (forall n :: n in table ==> table[n].latestVersion.Some? && table[n].latestVersion.value in table[n].versions)
  }

  /** The index after one registration of `name` at `version` (lines 71-76, 118-119). */
  function AddVersion(names: seq<string>, table: map<string, Entry>, name: string, version: string, meta: Metadata, now: string)
    : (r: (seq<string>, map<string, Entry>))
    ensures name in r.1 && version in r.1[name].versions && r.1[name].versions[version] == meta && r.1[name].latestVersion == Some(version)
    ensures forall v :: v != version && name in table && v in table[name].versions ==> v in r.1[name].versions && r.1[name].versions[v] == table[name].versions[v]
    ensures forall n :: n != name ==> (n in r.1 <==> n in table) && (n in table ==> r.1[n] == table[n])
    ensures name !in table ==> r.1[name].versions.Keys == {version} && r.1[name].created == now && r.0 == names + [name]
    ensures name in table ==> r.1[name].created == table[name].created && r.0 == names
  {
    var e := if name in table then table[name] else Entry(map[], None, now);
    (if name in table then names else names + [name],
     table[name := Entry(e.versions[version := meta], Some(version), e.created)])
  }

  /** Registration keeps the table well formed. */
  lemma AddVersionKeepsTableOk(names: seq<string>, table: map<string, Entry>, name: string, version: string, meta: Metadata, now: string)
    requires TableOk(names, table)
    ensures var r := AddVersion(names, table, name, version, meta, now); TableOk(r.0, r.1)
  {
    var r := AddVersion(names, table, name, version, meta, now);
    if name !in table {
      assert forall a :: 0 <= a < |names| ==> names[a] != name;
      assert forall n :: n in r.0 <==> n in names || n == name;
    }
  }

  /**
   * `get_model` / `get_dataset` (lines 213-267): `None` for an unknown name
   * or version; `"latest"` stands for the latest version; the result is a
   * copy of the stored metadata with `name` and `version` added.
   */
  function GetFrom(table: map<string, Entry>, name: string, version: string): (r: Option<Metadata>)
    ensures r.Some? <==> (name in table &&
      (if version == "latest" then table[name].latestVersion.Some? && table[name].latestVersion.value in table[name].versions
       else version in table[name].versions))
    ensures r.Some? ==>
      var v := if version == "latest" then table[name].latestVersion.value else version;
      && NameKey in r.value && r.value[NameKey] == Str(name) && VersionKey in r.value && r.value[VersionKey] == Str(v)
      && (forall k :: k in r.value <==> k in table[name].versions[v] || k == NameKey || k == VersionKey)
      && (forall k :: k in table[name].versions[v] && k != NameKey && k != VersionKey ==> r.value[k] == table[name].versions[v][k])
  {
    if name !in table then None
    else
      var resolved := if version == "latest" then table[name].latestVersion else Some(version);
      if resolved.None? || resolved.value !in table[name].versions then None
      else Some(table[name].versions[resolved.value][NameKey := Str(name)][VersionKey := Str(resolved.value)])
  }

  /** Registering and then asking for the latest version gives back what was registered, with name and version added. */
  lemma RegisterThenGetLatest(names: seq<string>, table: map<string, Entry>, name: string, version: string, meta: Metadata, now: string)
    ensures var t := AddVersion(names, table, name, version, meta, now).1;
      GetFrom(t, name, "latest") == Some(meta[NameKey := Str(name)][VersionKey := Str(version)])
      && GetFrom(t, name, version) == GetFrom(t, name, "latest")
  {
  }

  /** Registering one name changes no lookup of another name. */
  lemma RegisterLeavesOthers(names: seq<string>, table: map<string, Entry>, name: string, version: string, meta: Metadata, now: string, other: string, v: string)
    requires other != name
    ensures GetFrom(AddVersion(names, table, name, version, meta, now).1, other, v) == GetFrom(table, other, v)
  {
  }

  /** The listing of lines 276-284: one lookup per name whose latest version is truthy, in index order. */
  function Listing(names: seq<string>, table: map<string, Entry>): seq<Option<Metadata>>
    requires forall n :: n in names ==> n in table
  {
    if names == [] then []
    else
      var init, n := names[..|names| - 1], names[|names| - 1];
      var latest := table[n].latestVersion;
      Listing(init, table) + (if latest.Some? && latest.value != "" then [GetFrom(table, n, latest.value)] else [])
  }

  /** In a well-formed table every listed lookup succeeds and names its model. */
  lemma {:induction false} ListingComplete(names: seq<string>, table: map<string, Entry>)
    requires forall n :: n in names ==> n in table
    requires forall n :: n in table ==> table[n].latestVersion.Some? && table[n].latestVersion.value in table[n].versions
    ensures forall i :: 0 <= i < |Listing(names, table)| ==>
      Listing(names, table)[i].Some? && NameKey in Listing(names, table)[i].value
    ensures |Listing(names, table)| <= |names|
  {
    if names != [] {
      var init := names[..|names| - 1];
      assert forall n :: n in init ==> n in names;
      ListingComplete(init, table);
    }
  }

  /** The name of every non-empty latest version appears exactly in the listing, in index order. */
  lemma {:induction false} ListingNames(names: seq<string>, table: map<string, Entry>)
    requires forall n :: n in names ==> n in table
    requires forall n :: n in table ==> table[n].latestVersion.Some? && table[n].latestVersion.value in table[n].versions
    ensures |Listing(names, table)| == |Listed(names, table)|
    ensures forall i :: 0 <= i < |Listing(names, table)| ==>
      Listing(names, table)[i] == GetFrom(table, Listed(names, table)[i], table[Listed(names, table)[i]].latestVersion.value)
  {
    if names != [] {
      var init := names[..|names| - 1];
      assert forall n :: n in init ==> n in names;
      ListingNames(init, table);
    }
  }

  /** The names whose latest version is a non-empty string, in index order. */
  function Listed(names: seq<string>, table: map<string, Entry>): (r: seq<string>)
    requires forall n :: n in names ==> n in table
    ensures forall i :: 0 <= i < |r| ==> r[i] in names && table[r[i]].latestVersion.Some? && table[r[i]].latestVersion.value != ""
  {
    if names == [] then []
    else
      var init, n := names[..|names| - 1], names[|names| - 1];
      var latest := table[n].latestVersion;
      assert forall m :: m in init ==> m in names;
      Listed(init, table) + (if latest.Some? && latest.value != "" then [n] else [])
  }

  class ModelRegistry {
    const registryPath: string
    var modelNames: seq<string>
    var models: map<string, Entry>
    var datasetNames: seq<string>
    var datasets: map<string, Entry>
    var lastUpdated: string

    ghost predicate Valid()
      reads this
    {
      TableOk(modelNames, models) && TableOk(datasetNames, datasets)
    }

    /** A new registry with no index file yet (lines 36-41). */
    constructor (registryPath: string, now: string)
      ensures this.registryPath == registryPath
      ensures modelNames == [] && models == map[] && datasetNames == [] && datasets == map[]
      ensures lastUpdated == now && Valid()
    {
      this.registryPath := registryPath;
      modelNames := [];
      models := map[];
      datasetNames := [];
      datasets := map[];
      lastUpdated := now;
    }

    /**
     * `register_model` (lines 49-123). `info` is what the file system says
     * about `modelPath`; `clock` is read when no version is given, `now` is
     * the ISO timestamp of the registration.
     */
    method RegisterModel(modelName: string, modelPath: string, info: PathInfo, version: Option<string>,
                         metadata: Option<Metadata>, clock: DateTime, now: string) returns (r: Result<string>)
      requires Valid()
      modifies this
      ensures Valid()
      ensures info.Missing? ==>
        && r == Err(FileNotFoundError(MissingModel + modelPath))
        && modelNames == old(modelNames) && models == old(models) && lastUpdated == old(lastUpdated)
      ensures !info.Missing? ==>
        && r.Ok? && r.value == (if version.Some? then version.value else GenerateVersion(clock))
        && (modelNames, models) == AddVersion(old(modelNames), old(models), modelName, r.value,
             ModelMetadata(metadata, now, modelPath, VersionDir(registryPath, ModelsDir, modelName, r.value), info), now)
        && lastUpdated == now
      ensures datasetNames == old(datasetNames) && datasets == old(datasets)
    {
      if info.Missing? {
        return Err(FileNotFoundError(MissingModel + modelPath));
      }
      var v := if version.None? then GenerateVersion(clock) else version.value;
      var modelDir := VersionDir(registryPath, ModelsDir, modelName, v);
      var meta := ModelMetadata(metadata, now, modelPath, modelDir, info);
      modelNames, models := Store(modelNames, models, modelName, v, meta, now);
      lastUpdated := now;
      return Ok(v);
    }

    /** `register_dataset` (lines 125-211), with the same inputs as `RegisterModel`. */
    method RegisterDataset(datasetName: string, datasetPath: string, info: PathInfo, version: Option<string>,
                           metadata: Option<Metadata>, clock: DateTime, now: string) returns (r: Result<string>)
      requires Valid()
      modifies this
      ensures Valid()
      ensures info.Missing? ==>
        && r == Err(FileNotFoundError(MissingDataset + datasetPath))
        && datasetNames == old(datasetNames) && datasets == old(datasets) && lastUpdated == old(lastUpdated)
      ensures !info.Missing? ==>
        && r.Ok? && r.value == (if version.Some? then version.value else GenerateVersion(clock))
        && (datasetNames, datasets) == AddVersion(old(datasetNames), old(datasets), datasetName, r.value,
             DatasetMetadata(metadata, now, datasetPath, VersionDir(registryPath, DatasetsDir, datasetName, r.value), info), now)
        && lastUpdated == now
      ensures modelNames == old(modelNames) && models == old(models)
    {
      if info.Missing? {
        return Err(FileNotFoundError(MissingDataset + datasetPath));
      }
      var v := if version.None? then GenerateVersion(clock) else version.value;
      var datasetDir := VersionDir(registryPath, DatasetsDir, datasetName, v);
      var meta := DatasetMetadata(metadata, now, datasetPath, datasetDir, info);
      datasetNames, datasets := Store(datasetNames, datasets, datasetName, v, meta, now);
      lastUpdated := now;
      return Ok(v);
    }

    /** `get_model`. */
    function GetModel(name: string, version: string): Option<Metadata>
      reads this
    {
      GetFrom(models, name, version)
    }

    /** `get_dataset`. */
    function GetDataset(name: string, version: string): Option<Metadata>
      reads this
    {
      GetFrom(datasets, name, version)
    }

    /** `list_models`: the loop of lines 276-284. */
    method ListModels() returns (items: seq<Option<Metadata>>)
      requires Valid()
      ensures items == Listing(modelNames, models)
    {
      items := ListTable(modelNames, models);
    }

    /** `list_datasets`: the loop of lines 293-301. */
    method ListDatasets() returns (items: seq<Option<Metadata>>)
      requires Valid()
      ensures items == Listing(datasetNames, datasets)
    {
      items := ListTable(datasetNames, datasets);
    }
  }

  /**
   * The index update shared by `register_model` and `register_dataset`:
   * create the entry if the name is new (lines 71-76, 147-152), store the
   * version's metadata (lines 105, 203) and make it the latest (lines 118, 206).
   */
  method Store(names: seq<string>, table: map<string, Entry>, name: string, version: string, meta: Metadata, now: string)
    returns (names': seq<string>, table': map<string, Entry>)
    requires TableOk(names, table)
    ensures (names', table') == AddVersion(names, table, name, version, meta, now)
    ensures TableOk(names', table')
  {
    AddVersionKeepsTableOk(names, table, name, version, meta, now);
    names', table' := names, table;
    if name !in table' {
      table' := table'[name := Entry(map[], None, now)];
      names' := names' + [name];
    }
    var e := table'[name];
    table' := table'[name := e.(versions := e.versions[version := meta])];
    e := table'[name];
    table' := table'[name := e.(latestVersion := Some(version))];
    assert table' == AddVersion(names, table, name, version, meta, now).1;
  }

  /** The listing loop shared by `list_models` and `list_datasets`. */
  method ListTable(names: seq<string>, table: map<string, Entry>) returns (items: seq<Option<Metadata>>)
    requires forall n :: n in names ==> n in table
    ensures items == Listing(names, table)
  {
    items := [];
    for i := 0 to |names|
      invariant items == Listing(names[..i], table)
    {
      assert names[..i + 1][..i] == names[..i];
      var latest := table[names[i]].latestVersion;
      if latest.Some? && latest.value != "" {
        items := items + [GetFrom(table, names[i], latest.value)];
      }
    }
    assert names[..|names|] == names;
  }
}
