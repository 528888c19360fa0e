/** The schema cache directory: what a writer puts in it (bridge/schema/write.go, dto.go) and
    what a reader finds in it (bridge/schema/service.go). */
module SchemaCache {
  import opened Common
  import TfTypes
  import Codec
  import D = SchemaDto
  import L = SchemaDtoLoops
  import Text

  const KIND_PROVIDER := "provider"
  const KIND_PROVIDER_META := "provider_meta"
  const KIND_RESOURCE := "resource"
  const KIND_DATA_SOURCE := "data"
  const PROVIDER_PATH := "provider.json"
  const PROVIDER_META_PATH := "provider_meta.json"
  const MANIFEST_PATH := "manifest.json"

  /** What the provider reports; a schema pointer may be nil. */
  datatype Response = Response(
    provider: Option<TfTypes.Schema>,
    providerMeta: Option<TfTypes.Schema>,
    resources: map<string, Option<TfTypes.Schema>>,
    dataSources: map<string, Option<TfTypes.Schema>>)

  datatype Shard = Shard(kind: string, typeName: string, schema: Option<D.Schema>)

  datatype ManifestType = ManifestType(typeName: string, path: string)

  datatype Manifest = Manifest(resources: seq<ManifestType>, dataSources: seq<ManifestType>)

  /** A file is partial between being opened and being fully written. */
  datatype File = Partial | ShardFile(shard: Shard) | ManifestFile(manifest: Manifest)

  type Dir = map<string, File>

  // ---------------------------------------------------------------- paths

  predicate ValidTypeName(name: string) {
    name != "" && '/' !in name && name != "." && name != ".."
  }

  function Folder(kind: string): string {
    if kind == KIND_RESOURCE then "resources/" else "data-sources/"
  }

  predicate IsTypeKind(kind: string) {
    kind == KIND_RESOURCE || kind == KIND_DATA_SOURCE
  }

  function TypePath(kind: string, name: string): (path: Option<string>)
    ensures path.Some? <==> ValidTypeName(name) && IsTypeKind(kind)
  {
    if !ValidTypeName(name) || !IsTypeKind(kind) then None else Some(Folder(kind) + name + ".json")
  }

  /** Where a reader of the cache finds each type. */
  lemma PathsAre(kind: string, name: string)
    ensures TypePath(kind, name) ==
      if name == "" || name == "." || name == ".." || (exists i :: 0 <= i < |name| && name[i] == '/') then None
      else if kind == "resource" then Some("resources/" + name + ".json")
      else if kind == "data" then Some("data-sources/" + name + ".json")
      else None
  {
    assert '/' in name <==> exists i :: 0 <= i < |name| && name[i] == '/';
  }

  /** Different types never share a file, nor with the provider's own files. */
  lemma PathsAreDistinct(kind: string, name: string, kind': string, name': string)
    requires TypePath(kind, name).Some?
    ensures TypePath(kind', name') == TypePath(kind, name) ==> kind == kind' && name == name'
    ensures TypePath(kind, name).value != PROVIDER_PATH && TypePath(kind, name).value != PROVIDER_META_PATH
    ensures TypePath(kind, name).value != MANIFEST_PATH
  {
    var path := TypePath(kind, name).value;
    var folder := Folder(kind);
    assert path[0] == folder[0] && path[1] == folder[1];
    if TypePath(kind', name') == TypePath(kind, name) {
      assert path[0] == Folder(kind')[0];
      assert kind == kind';
      assert path[|folder|..|path| - 5] == name && path[|folder|..|path| - 5] == name';
    }
  }

  // ---------------------------------------------------------------- what the cache should hold

  function ToDto(schema: Option<TfTypes.Schema>): Option<D.Schema> {
    match schema case None => None case Some(s) => Some(D.FromSchema(s))
  }

  function ShardOf(kind: string, name: string, schema: Option<TfTypes.Schema>): File {
    ShardFile(Shard(kind, name, ToDto(schema)))
  }

  function TypesOf(resp: Response, kind: string): map<string, Option<TfTypes.Schema>> {
    if kind == KIND_RESOURCE then resp.resources else resp.dataSources
  }

  ghost predicate Listed(entries: seq<ManifestType>, kind: string, name: string) {
    exists i :: 0 <= i < |entries| && entries[i].typeName == name && Some(entries[i].path) == TypePath(kind, name)
  }

  /** The entries list the given types with their paths, in strictly ascending order. */
  ghost predicate Lists(entries: seq<ManifestType>, kind: string, names: set<string>) {
    && (forall i, j :: 0 <= i < j < |entries| ==> Text.Less(entries[i].typeName, entries[j].typeName))
    && (forall i :: 0 <= i < |entries| ==>
          entries[i].typeName in names && Some(entries[i].path) == TypePath(kind, entries[i].typeName))
    && (forall name :: name in names ==> Listed(entries, kind, name))
  }

  ghost predicate IsManifestOf(m: Manifest, resp: Response) {
    Lists(m.resources, KIND_RESOURCE, resp.resources.Keys) && Lists(m.dataSources, KIND_DATA_SOURCE, resp.dataSources.Keys)
  }

  ghost predicate HoldsTypes(dir: Dir, resp: Response, kind: string, names: set<string>) {
    forall name :: name in names && name in TypesOf(resp, kind) ==>
      && TypePath(kind, name).Some? && TypePath(kind, name).value in dir
      && dir[TypePath(kind, name).value] == ShardOf(kind, name, TypesOf(resp, kind)[name])
  }

  ghost predicate HoldsMeta(dir: Dir, resp: Response) {
    resp.providerMeta.Some? ==>
      PROVIDER_META_PATH in dir && dir[PROVIDER_META_PATH] == ShardOf(KIND_PROVIDER_META, "", resp.providerMeta)
  }

  /** The directory is a complete cache of what the provider reported. */
  ghost predicate CacheHolds(dir: Dir, resp: Response) {
    && PROVIDER_PATH in dir && dir[PROVIDER_PATH] == ShardOf(KIND_PROVIDER, "", resp.provider)
    && HoldsMeta(dir, resp)
    && HoldsTypes(dir, resp, KIND_RESOURCE, resp.resources.Keys)
    && HoldsTypes(dir, resp, KIND_DATA_SOURCE, resp.dataSources.Keys)
    && MANIFEST_PATH in dir && dir[MANIFEST_PATH].ManifestFile? && IsManifestOf(dir[MANIFEST_PATH].manifest, resp)
  }

  // ---------------------------------------------------------------- writing

  /** The files of a directory after writing them in order. */
  function Contents(plan: seq<(string, File)>): (dir: Dir) {
    if plan == [] then map[] else Contents(plan[..|plan| - 1])[plan[|plan| - 1].0 := plan[|plan| - 1].1]
  }

  /** A plan writes a complete cache, its manifest last. */
  ghost predicate IsPlan(plan: seq<(string, File)>, resp: Response) {
    && plan != [] && plan[|plan| - 1].0 == MANIFEST_PATH
    && (forall i :: 0 <= i < |plan| - 1 ==> plan[i].0 != MANIFEST_PATH)
    && (forall i :: 0 <= i < |plan| ==> !plan[i].1.Partial?)
    && CacheHolds(Contents(plan), resp)
  }

  /** Until its last file is written, a planned directory has no manifest. */
  lemma {:induction false} ManifestComesLast(plan: seq<(string, File)>, resp: Response, n: nat)
    requires IsPlan(plan, resp) && n < |plan|
    ensures MANIFEST_PATH !in Contents(plan[..n])
    decreases n
  {
    if n == 0 {
    } else {
      ManifestComesLast(plan, resp, n - 1);
      assert plan[..n][..n - 1] == plan[..n - 1];
    }
  }

  function InsertEntry(entry: ManifestType, entries: seq<ManifestType>): seq<ManifestType> {
    if entries == [] || Text.Less(entry.typeName, entries[0].typeName) then [entry] + entries
    else [entries[0]] + InsertEntry(entry, entries[1..])
  }

  lemma {:induction false} InsertEntryMembers(entry: ManifestType, entries: seq<ManifestType>)
    ensures forall e :: e in InsertEntry(entry, entries) <==> e == entry || e in entries
  {
    if entries != [] && !Text.Less(entry.typeName, entries[0].typeName) {
      assert entries == [entries[0]] + entries[1..];
      InsertEntryMembers(entry, entries[1..]);
    }
  }

  ghost predicate Ascending(entries: seq<ManifestType>) {
    forall i, j :: 0 <= i < j < |entries| ==> Text.Less(entries[i].typeName, entries[j].typeName)
  }

  lemma {:induction false} InsertEntryAscends(entry: ManifestType, entries: seq<ManifestType>)
    requires Ascending(entries) && forall i :: 0 <= i < |entries| ==> entries[i].typeName != entry.typeName
    ensures Ascending(InsertEntry(entry, entries))
  {
    if entries == [] {
    } else {
      if Text.Less(entry.typeName, entries[0].typeName) {
        forall j | 0 < j < |entries| ensures Text.Less(entry.typeName, entries[j].typeName) {
          Text.LessTransitive(entry.typeName, entries[0].typeName, entries[j].typeName);
        }
      } else {
        InsertEntryAscends(entry, entries[1..]);
        InsertEntryMembers(entry, entries[1..]);
        Text.LessTotal(entry.typeName, entries[0].typeName);
        var rest := InsertEntry(entry, entries[1..]);
        forall j | 0 <= j < |rest| ensures Text.Less(entries[0].typeName, rest[j].typeName) {
          assert rest[j] in rest;
          if rest[j] != entry {
            var k :| 0 <= k < |entries[1..]| && entries[1..][k] == rest[j];
            assert entries[k + 1] == rest[j];
          }
        }
      }
    }
  }

  /** The entries of one kind, gathered from a map in any order and sorted by type. */
  method ManifestEntries(kind: string, types: map<string, Option<TfTypes.Schema>>) returns (entries: seq<ManifestType>)
    requires IsTypeKind(kind) && forall name :: name in types ==> ValidTypeName(name)
    ensures Lists(entries, kind, types.Keys)
  {
    entries := [];
    var todo := types.Keys;
    while todo != {}
      invariant todo <= types.Keys
      invariant Ascending(entries)
      invariant forall e :: e in entries ==> e.typeName in types.Keys - todo && Some(e.path) == TypePath(kind, e.typeName)
      invariant forall name :: name in types.Keys - todo ==> ManifestType(name, TypePath(kind, name).value) in entries
      decreases todo
    {
      var name :| name in todo;
      var entry := ManifestType(name, TypePath(kind, name).value);
      forall i | 0 <= i < |entries| ensures entries[i].typeName != name { assert entries[i] in entries; }
      InsertEntryMembers(entry, entries);
      InsertEntryAscends(entry, entries);
      entries := InsertEntry(entry, entries);
      todo := todo - {name};
    }
    forall i | 0 <= i < |entries|
      ensures entries[i].typeName in types.Keys && Some(entries[i].path) == TypePath(kind, entries[i].typeName)
    {
      assert entries[i] in entries;
    }
    forall name | name in types.Keys ensures Listed(entries, kind, name) {
      assert ManifestType(name, TypePath(kind, name).value) in entries;
    }
  }

  ghost predicate IsTypeFile(kind: string, types: map<string, Option<TfTypes.Schema>>, path: string) {
    exists name :: name in types && TypePath(kind, name) == Some(path)
  }

  /** The staging directory being filled, and the files in the order they were written. */
  class Staging {
    var files: Dir
    ghost var plan: seq<(string, File)>

    constructor ()
      ensures files == map[] && plan == []
    {
      files, plan := map[], [];
    }

    ghost predicate Valid()
      reads this
    {
      files == Contents(plan) && forall i :: 0 <= i < |plan| ==> !plan[i].1.Partial?
    }

    method WriteJson(path: string, file: File)
      requires Valid() && !file.Partial?
      modifies this
      ensures Valid() && files == old(files)[path := file] && plan == old(plan) + [(path, file)]
    {
      files := files[path := file];
      plan := plan + [(path, file)];
      assert plan[..|plan| - 1] == old(plan);
    }

    method WriteShard(path: string, kind: string, name: string, schema: Option<TfTypes.Schema>)
      requires Valid()
      modifies this
      ensures Valid() && files == old(files)[path := ShardOf(kind, name, schema)]
      ensures plan == old(plan) + [(path, ShardOf(kind, name, schema))]
    {
      var dto: Option<D.Schema> := None;
      if schema.Some? {
        var s := L.SchemaFromTf(schema.value);
        dto := Some(s);
      }
      WriteJson(path, ShardFile(Shard(kind, name, dto)));
    }

    /** All shards of one kind, in any order, stopping at the first bad type name. */
    method WriteTypes(kind: string, types: map<string, Option<TfTypes.Schema>>) returns (ok: bool)
      requires Valid() && IsTypeKind(kind) && MANIFEST_PATH !in files
      modifies this
      ensures Valid() && ok == (forall name :: name in types ==> ValidTypeName(name))
      ensures ok ==> |plan| >= |old(plan)| && plan[..|old(plan)|] == old(plan)
      ensures ok ==> forall i :: |old(plan)| <= i < |plan| ==>
        IsTypeFile(kind, types, plan[i].0)
      ensures ok ==> forall p :: p in old(files) && (forall name :: name in types ==> TypePath(kind, name) != Some(p)) ==>
        p in files && files[p] == old(files)[p]
      ensures ok ==> forall name :: name in types ==>
        TypePath(kind, name).value in files && files[TypePath(kind, name).value] == ShardOf(kind, name, types[name])
    {
      hide Contents, ToDto, ValidTypeName, TypePath, ShardOf;
      var todo := types.Keys;
      while todo != {}
        invariant todo <= types.Keys && Valid()
        invariant |plan| >= |old(plan)| && plan[..|old(plan)|] == old(plan)
        invariant forall name :: name in types.Keys - todo ==> ValidTypeName(name)
        invariant forall i :: |old(plan)| <= i < |plan| ==>
          IsTypeFile(kind, types, plan[i].0)
        invariant forall p :: p in old(files) && (forall name :: name in types ==> TypePath(kind, name) != Some(p)) ==>
          p in files && files[p] == old(files)[p]
        invariant forall name :: name in types.Keys - todo ==>
          TypePath(kind, name).value in files && files[TypePath(kind, name).value] == ShardOf(kind, name, types[name])
        decreases todo
      {
        var name :| name in todo;
        var path := TypePath(kind, name);
        if path.None? {
          return false;
        }
        ghost var written := types.Keys - todo;
        forall other | other in written ensures TypePath(kind, other) != path {
          PathsAreDistinct(kind, other, kind, name);
        }
        WriteShard(path.value, kind, name, types[name]);
        todo := todo - {name};
      }
      ok := true;
    }

    /** Fails exactly when some type name is no file name; otherwise the directory is a complete
        cache, written manifest last. */
    method WriteCacheContents(resp: Response) returns (ok: bool)
      requires files == map[] && plan == []
      modifies this
      ensures ok == ((forall name :: name in resp.resources ==> ValidTypeName(name))
                  && (forall name :: name in resp.dataSources ==> ValidTypeName(name)))
      ensures ok ==> IsPlan(plan, resp) && files == Contents(plan)
    {
      hide TypePath, ShardOf, ValidTypeName, Contents, IsManifestOf, Lists, ToDto, IsTypeFile;
      WriteOwn(resp);
      label Own:
      ok := WriteTypes(KIND_RESOURCE, resp.resources);
      if !ok {
        return;
      }
      OwnFilesStay(KIND_RESOURCE, resp.resources);
      NoManifestYet(plan, KIND_RESOURCE, resp.resources, |old@Own(plan)|);
      label Resources:
      ok := WriteTypes(KIND_DATA_SOURCE, resp.dataSources);
      if !ok {
        return;
      }
      OwnFilesStay(KIND_DATA_SOURCE, resp.dataSources);
      NoManifestYet(plan, KIND_DATA_SOURCE, resp.dataSources, |old@Resources(plan)|);
      KindsAreDistinct(resp);
      WriteManifest(resp);
    }

    method WriteOwn(resp: Response)
      requires files == map[] && plan == []
      modifies this
      ensures Valid() && MANIFEST_PATH !in files && HoldsMeta(files, resp)
      ensures PROVIDER_PATH in files && files[PROVIDER_PATH] == ShardOf(KIND_PROVIDER, "", resp.provider)
      ensures forall i :: 0 <= i < |plan| ==> plan[i].0 != MANIFEST_PATH
    {
      WriteShard(PROVIDER_PATH, KIND_PROVIDER, "", resp.provider);
      if resp.providerMeta.Some? {
        WriteShard(PROVIDER_META_PATH, KIND_PROVIDER_META, "", resp.providerMeta);
      }
    }

    method WriteManifest(resp: Response)
      requires Valid() && forall i :: 0 <= i < |plan| ==> plan[i].0 != MANIFEST_PATH
      requires forall name :: name in resp.resources ==> ValidTypeName(name)
      requires forall name :: name in resp.dataSources ==> ValidTypeName(name)
      requires PROVIDER_PATH in files && files[PROVIDER_PATH] == ShardOf(KIND_PROVIDER, "", resp.provider)
      requires HoldsMeta(files, resp)
      requires HoldsTypes(files, resp, KIND_RESOURCE, resp.resources.Keys)
      requires HoldsTypes(files, resp, KIND_DATA_SOURCE, resp.dataSources.Keys)
      modifies this
      ensures IsPlan(plan, resp) && files == Contents(plan)
    {
      hide TypePath, ShardOf, ValidTypeName, Contents, Lists, ToDto, CacheHolds, HoldsTypes, HoldsMeta;
      var resources := ManifestEntries(KIND_RESOURCE, resp.resources);
      var dataSources := ManifestEntries(KIND_DATA_SOURCE, resp.dataSources);
      ghost var shards := files;
      var m := Manifest(resources, dataSources);
      WriteJson(MANIFEST_PATH, ManifestFile(m));
      assert IsManifestOf(m, resp);
      ManifestCompletes(shards, resp, m);
    }
  }

  /** A resource and a data source of one name have different files. */
  lemma KindsAreDistinct(resp: Response)
    requires forall name :: name in resp.resources ==> ValidTypeName(name)
    ensures forall name, other :: name in resp.resources && other in resp.dataSources ==>
      TypePath(KIND_DATA_SOURCE, other) != TypePath(KIND_RESOURCE, name)
  {
    forall name, other | name in resp.resources && other in resp.dataSources
      ensures TypePath(KIND_DATA_SOURCE, other) != TypePath(KIND_RESOURCE, name)
    {
      PathsAreDistinct(KIND_RESOURCE, name, KIND_DATA_SOURCE, other);
    }
  }

  lemma OwnFilesStay(kind: string, types: map<string, Option<TfTypes.Schema>>)
    requires IsTypeKind(kind) && forall name :: name in types ==> ValidTypeName(name)
    ensures forall name :: name in types ==>
      TypePath(kind, name) != Some(PROVIDER_PATH) && TypePath(kind, name) != Some(PROVIDER_META_PATH)
      && TypePath(kind, name) != Some(MANIFEST_PATH)
  {
    forall name | name in types
      ensures TypePath(kind, name) != Some(PROVIDER_PATH) && TypePath(kind, name) != Some(PROVIDER_META_PATH)
      ensures TypePath(kind, name) != Some(MANIFEST_PATH)
    {
      PathsAreDistinct(kind, name, kind, name);
    }
  }

  lemma NoManifestYet(plan: seq<(string, File)>, kind: string, types: map<string, Option<TfTypes.Schema>>, n: nat)
    requires IsTypeKind(kind) && forall name :: name in types ==> ValidTypeName(name)
    requires n <= |plan| && forall i :: 0 <= i < n ==> plan[i].0 != MANIFEST_PATH
    requires forall i :: n <= i < |plan| ==> IsTypeFile(kind, types, plan[i].0)
    ensures forall i :: 0 <= i < |plan| ==> plan[i].0 != MANIFEST_PATH
    ensures MANIFEST_PATH !in Contents(plan)
  {
    OwnFilesStay(kind, types);
    ContentsKeys(plan);
  }

  lemma {:induction false} ContentsKeys(plan: seq<(string, File)>)
    ensures forall p :: p in Contents(plan) <==> exists i :: 0 <= i < |plan| && plan[i].0 == p
  {
    if plan == [] {
    } else {
      ContentsKeys(plan[..|plan| - 1]);
    }
  }

  lemma ManifestCompletes(shards: Dir, resp: Response, m: Manifest)
    requires PROVIDER_PATH in shards && shards[PROVIDER_PATH] == ShardOf(KIND_PROVIDER, "", resp.provider)
    requires HoldsMeta(shards, resp)
    requires HoldsTypes(shards, resp, KIND_RESOURCE, resp.resources.Keys)
    requires HoldsTypes(shards, resp, KIND_DATA_SOURCE, resp.dataSources.Keys)
    requires IsManifestOf(m, resp)
    ensures CacheHolds(shards[MANIFEST_PATH := ManifestFile(m)], resp)
  {
    hide Lists, ToDto;
    var dir := shards[MANIFEST_PATH := ManifestFile(m)];
    forall kind, name | IsTypeKind(kind) && name in TypesOf(resp, kind) && TypePath(kind, name).Some?
      ensures TypePath(kind, name).value != MANIFEST_PATH
    {
      PathsAreDistinct(kind, name, kind, name);
    }
    assert HoldsTypes(dir, resp, KIND_RESOURCE, resp.resources.Keys);
    assert HoldsTypes(dir, resp, KIND_DATA_SOURCE, resp.dataSources.Keys);
  }

  // ---------------------------------------------------------------- reading

  datatype Found = Found(shard: Shard) | NotFound | UnsupportedKind | Unreadable

  ghost predicate IsFirst(entries: seq<ManifestType>, name: string, i: nat)
    requires i < |entries|
  {
    entries[i].typeName == name && forall j :: 0 <= j < i ==> entries[j].typeName != name
  }

  /** The path of the first entry for the type, or nothing. */
  method FindPath(entries: seq<ManifestType>, name: string) returns (rel: string)
    ensures (forall i :: 0 <= i < |entries| ==> entries[i].typeName != name) ==> rel == ""
    ensures forall i :: 0 <= i < |entries| && IsFirst(entries, name, i) ==> rel == entries[i].path
  {
    rel := "";
    for i := 0 to |entries|
      invariant rel == "" && forall j :: 0 <= j < i ==> entries[j].typeName != name
    {
      if entries[i].typeName == name {
        return entries[i].path;
      }
    }
  }

  /** Looking a type up by kind: the shard its provider reported, or not found. */
  method ReadTypeShard(dir: Dir, kind: string, name: string, ghost resp: Response) returns (r: Found)
    requires CacheHolds(dir, resp)
    ensures !IsTypeKind(kind) ==> r == UnsupportedKind
    ensures IsTypeKind(kind) && name !in TypesOf(resp, kind) ==> r == NotFound
    ensures IsTypeKind(kind) && name in TypesOf(resp, kind) ==>
      r == Found.Found(Shard(kind, name, ToDto(TypesOf(resp, kind)[name])))
  {
    var manifest := dir[MANIFEST_PATH].manifest;
    var entries;
    if kind == KIND_RESOURCE {
      entries := manifest.resources;
    } else if kind == KIND_DATA_SOURCE {
      entries := manifest.dataSources;
    } else {
      return UnsupportedKind;
    }
    assert Lists(entries, kind, TypesOf(resp, kind).Keys);
    var rel := FindPath(entries, name);
    if name in TypesOf(resp, kind) {
      ListedOnce(entries, kind, TypesOf(resp, kind).Keys, name);
      assert Some(rel) == TypePath(kind, name);
    }
    if rel == "" {
      return NotFound;
    }
    if rel !in dir || !dir[rel].ShardFile? {
      return Unreadable;
    }
    r := Found.Found(dir[rel].shard);
  }

  lemma ListedOnce(entries: seq<ManifestType>, kind: string, names: set<string>, name: string)
    requires Lists(entries, kind, names) && name in names
    ensures exists i :: 0 <= i < |entries| && IsFirst(entries, name, i) && Some(entries[i].path) == TypePath(kind, name)
  {
    assert Listed(entries, kind, name);
    var i :| 0 <= i < |entries| && entries[i].typeName == name;
    if Text.Less(name, name) { Text.LessAsymmetric(name, name); }
    assert IsFirst(entries, name, i);
  }

  /** The codec type of a cached schema. */
  function ToSchemaType(schema: Option<D.Schema>): Option<Codec.SchemaType>
    requires schema.Some? && D.Readable(schema.value) ==> Codec.CompleteSchema(Some(D.ToSchema(schema.value)))
  {
    match schema
    case None => Some(Codec.SchemaToType(None))
    case Some(s) => if D.Readable(s) then Some(Codec.SchemaToType(Some(D.ToSchema(s)))) else None
  }

  /** A cached schema compiles to the very codec type the provider's own schema compiles to. */
  lemma CachedTypeAgrees(schema: Option<TfTypes.Schema>)
    requires Codec.CompleteSchema(schema)
    ensures
      var cached := ToDto(schema);
      && (cached.Some? && D.Readable(cached.value) ==> Codec.CompleteSchema(Some(D.ToSchema(cached.value))))
      && ToSchemaType(cached) == Some(Codec.SchemaToType(schema))
  {
    if schema.Some? { D.SchemaRoundTrip(schema.value); }
  }

  /** End to end: write a provider's schemas, look a type up, compile it - the codec type agrees
      with the live schema for every type, and an unknown type is not found. */
  method CacheAgrees(resp: Response, kind: string, name: string) returns (r: Found)
    requires IsTypeKind(kind)
    requires forall n :: n in resp.resources ==> ValidTypeName(n)
    requires forall n :: n in resp.dataSources ==> ValidTypeName(n)
    requires forall n :: n in TypesOf(resp, kind) ==> Codec.CompleteSchema(TypesOf(resp, kind)[n])
    ensures name !in TypesOf(resp, kind) <==> r == NotFound
    ensures name in TypesOf(resp, kind) ==>
      && r.Found? && r.shard.kind == kind && r.shard.typeName == name
      && (r.shard.schema.Some? && D.Readable(r.shard.schema.value) ==>
            Codec.CompleteSchema(Some(D.ToSchema(r.shard.schema.value))))
      && ToSchemaType(r.shard.schema) == Some(Codec.SchemaToType(TypesOf(resp, kind)[name]))
  {
    var staging := new Staging();
    var ok := staging.WriteCacheContents(resp);
    r := ReadTypeShard(staging.files, kind, name, resp);
    if name in TypesOf(resp, kind) {
      CachedTypeAgrees(TypesOf(resp, kind)[name]);
    }
  }
}
