/** bridge/schema/dto.go: the persisted form of a provider schema, and the two conversions. */
module SchemaDto {
  import opened Common
  import opened TfTypes
  import Text

  /** The library-owned JSON signature of a wire type; on disk it may also be malformed. */
  datatype Signature = Signature(typ: Type) | Malformed

  datatype Schema = Schema(version: int, block: Option<Block>)

  datatype Block = Block(
    version: int,
    attributes: seq<Attribute>,
    blockTypes: seq<NestedBlock>,
    description: string,
    descriptionKind: string,
    deprecated: bool,
    deprecationMessage: string)

  datatype Attribute = Attribute(
    name: string,
    typ: Option<Signature>,
    nestedType: Option<Object>,
    description: string,
    descriptionKind: string,
    flags: AttributeFlags,
    deprecationMessage: string)

  datatype Object = Object(attributes: seq<Attribute>, nesting: string)

  datatype NestedBlock = NestedBlock(
    typeName: string,
    block: Option<Block>,
    nesting: string,
    minItems: int,
    maxItems: int)

  // ---------------------------------------------------------------- names of modes

  function StringKindName(kind: StringKind): string {
    match kind
    case Markdown => "markdown"
    case Plain => "plain"
  }

  function ParseStringKind(name: string): StringKind {
    if Text.Lower(name) == "markdown" then Markdown else Plain
  }

  function BlockNestingName(mode: BlockNesting): string {
    match mode
    case SingleBlock => "single"
    case ListBlock => "list"
    case SetBlock => "set"
    case MapBlock => "map"
    case GroupBlock => "group"
    case InvalidBlock => "invalid"
  }

  function ParseBlockNesting(name: string): BlockNesting {
    var lower := Text.Lower(name);
    if lower == "single" then SingleBlock
    else if lower == "list" then ListBlock
    else if lower == "set" then SetBlock
    else if lower == "map" then MapBlock
    else if lower == "group" then GroupBlock
    else InvalidBlock
  }

  function ObjectNestingName(mode: ObjectNesting): string {
    match mode
    case SingleObject => "single"
    case ListObject => "list"
    case SetObject => "set"
    case MapObject => "map"
    case InvalidObject => "invalid"
  }

  function ParseObjectNesting(name: string): ObjectNesting {
    var lower := Text.Lower(name);
    if lower == "single" then SingleObject
    else if lower == "list" then ListObject
    else if lower == "set" then SetObject
    else if lower == "map" then MapObject
    else InvalidObject
  }

  /** No name has an upper-case letter, so lower-casing leaves it alone. */
  lemma LowerKeeps(s: string)
    requires forall i :: 0 <= i < |s| ==> 'a' <= s[i] <= 'z'
    ensures Text.Lower(s) == s
  {
  }

  lemma NamesParseBack()
    ensures forall kind :: ParseStringKind(StringKindName(kind)) == kind
    ensures forall mode :: ParseBlockNesting(BlockNestingName(mode)) == mode
    ensures forall mode :: ParseObjectNesting(ObjectNestingName(mode)) == mode
  {
    forall kind ensures ParseStringKind(StringKindName(kind)) == kind { LowerKeeps(StringKindName(kind)); }
    forall mode ensures ParseBlockNesting(BlockNestingName(mode)) == mode { LowerKeeps(BlockNestingName(mode)); }
    forall mode ensures ParseObjectNesting(ObjectNestingName(mode)) == mode { LowerKeeps(ObjectNestingName(mode)); }
  }

  // ---------------------------------------------------------------- from the provider's schema

  function FromSchema(s: TfTypes.Schema): Schema {
    Schema.Schema(s.version, match s.block case None => None case Some(b) => Some(FromBlock(b)))
  }

  function FromBlock(b: SchemaBlock): Block
    decreases b
  {
    Block(b.version,
      seq(|b.attributes|, i requires 0 <= i < |b.attributes| => FromAttribute(b.attributes[i])),
      seq(|b.blockTypes|, i requires 0 <= i < |b.blockTypes| => FromNested(b.blockTypes[i])),
      b.description, StringKindName(b.descriptionKind), b.deprecated, b.deprecationMessage)
  }

  function FromAttribute(a: SchemaAttribute): Attribute
    decreases a
  {
    Attribute(a.name,
      match a.typ case None => None case Some(t) => Some(Signature(t)),
      match a.nestedType case None => None case Some(o) => Some(FromObject(o)),
      a.description, StringKindName(a.descriptionKind), a.flags, a.deprecationMessage)
  }

  function FromObject(o: SchemaObject): Object
    decreases o
  {
    Object(seq(|o.attributes|, i requires 0 <= i < |o.attributes| => FromAttribute(o.attributes[i])),
      ObjectNestingName(o.nesting))
  }

  function FromNested(n: SchemaNestedBlock): NestedBlock
    decreases n
  {
    NestedBlock(n.typeName,
      match n.block case None => None case Some(b) => Some(FromBlock(b)),
      BlockNestingName(n.nesting), n.minItems, n.maxItems)
  }

  // ---------------------------------------------------------------- back to the provider's schema

  /** Every type signature in the persisted form can be read. */
  predicate ReadableBlock(b: Block) {
    && (forall i :: 0 <= i < |b.attributes| ==> ReadableAttribute(b.attributes[i]))
    && forall i :: 0 <= i < |b.blockTypes| ==>
         b.blockTypes[i].block.Some? ==> ReadableBlock(b.blockTypes[i].block.value)
  }

  predicate ReadableAttribute(a: Attribute) {
    && a.typ != Some(Malformed)
    && (a.nestedType.Some? ==> ReadableObject(a.nestedType.value))
  }

  predicate ReadableObject(o: Object) {
    forall i :: 0 <= i < |o.attributes| ==> ReadableAttribute(o.attributes[i])
  }

  predicate Readable(s: Schema) {
    s.block.Some? ==> ReadableBlock(s.block.value)
  }

  function ToSchema(s: Schema): TfTypes.Schema
    requires Readable(s)
  {
    TfTypes.Schema.Schema(s.version, match s.block case None => None case Some(b) => Some(ToBlock(b)))
  }

  function ToBlock(b: Block): SchemaBlock
    requires ReadableBlock(b)
    decreases b
  {
    SchemaBlock(b.version,
      seq(|b.attributes|, i requires 0 <= i < |b.attributes| => ToAttribute(b.attributes[i])),
      seq(|b.blockTypes|, i requires 0 <= i < |b.blockTypes| => ToNested(b.blockTypes[i])),
      b.description, ParseStringKind(b.descriptionKind), b.deprecated, b.deprecationMessage)
  }

  function ToAttribute(a: Attribute): SchemaAttribute
    requires ReadableAttribute(a)
    decreases a
  {
    SchemaAttribute(a.name,
      match a.typ case None => None case Some(signature) => Some(signature.typ),
      match a.nestedType case None => None case Some(o) => Some(ToObject(o)),
      a.description, ParseStringKind(a.descriptionKind), a.flags, a.deprecationMessage)
  }

  function ToObject(o: Object): SchemaObject
    requires ReadableObject(o)
    decreases o
  {
    SchemaObject(seq(|o.attributes|, i requires 0 <= i < |o.attributes| => ToAttribute(o.attributes[i])),
      ParseObjectNesting(o.nesting))
  }

  function ToNested(n: NestedBlock): SchemaNestedBlock
    requires n.block.Some? ==> ReadableBlock(n.block.value)
    decreases n
  {
    SchemaNestedBlock(n.typeName,
      match n.block case None => None case Some(b) => Some(ToBlock(b)),
      ParseBlockNesting(n.nesting), n.minItems, n.maxItems)
  }

  // ---------------------------------------------------------------- what is on disk

  predicate IsKindName(name: string, kind: StringKind) {
    name == if kind == Markdown then "markdown" else "plain"
  }

  predicate IsNestingName(name: string, mode: BlockNesting) {
    || (name == "single" && mode == SingleBlock) || (name == "list" && mode == ListBlock)
    || (name == "set" && mode == SetBlock) || (name == "map" && mode == MapBlock)
    || (name == "group" && mode == GroupBlock) || (name == "invalid" && mode == InvalidBlock)
  }

  predicate IsObjectNestingName(name: string, mode: ObjectNesting) {
    || (name == "single" && mode == SingleObject) || (name == "list" && mode == ListObject)
    || (name == "set" && mode == SetObject) || (name == "map" && mode == MapObject)
    || (name == "invalid" && mode == InvalidObject)
  }

  ghost predicate PersistsAttribute(a: SchemaAttribute, d: Attribute)
    decreases a
  {
    && d.name == a.name && d.flags == a.flags
    && d.description == a.description && d.deprecationMessage == a.deprecationMessage
    && IsKindName(d.descriptionKind, a.descriptionKind)
    && (a.typ.None? <==> d.typ.None?) && (a.typ.Some? ==> d.typ == Some(Signature(a.typ.value)))
    && (a.nestedType.None? <==> d.nestedType.None?)
    && (a.nestedType.Some? ==> PersistsObject(a.nestedType.value, d.nestedType.value))
  }

  ghost predicate PersistsObject(o: SchemaObject, d: Object)
    decreases o
  {
    && IsObjectNestingName(d.nesting, o.nesting) && |d.attributes| == |o.attributes|
    && forall i :: 0 <= i < |o.attributes| ==> PersistsAttribute(o.attributes[i], d.attributes[i])
  }

  /** What another reader of the file finds: every part in its place and order, under its own name, the
      modes by the names the protocol gives them. */
  ghost predicate PersistsBlock(b: SchemaBlock, d: Block)
    decreases b
  {
    && d.version == b.version && d.deprecated == b.deprecated
    && d.description == b.description && d.deprecationMessage == b.deprecationMessage
    && IsKindName(d.descriptionKind, b.descriptionKind)
    && |d.attributes| == |b.attributes| && |d.blockTypes| == |b.blockTypes|
    && (forall i :: 0 <= i < |b.attributes| ==> PersistsAttribute(b.attributes[i], d.attributes[i]))
    && forall i :: 0 <= i < |b.blockTypes| ==> PersistsNested(b.blockTypes[i], d.blockTypes[i])
  }

  ghost predicate PersistsNested(n: SchemaNestedBlock, d: NestedBlock)
    decreases n
  {
    && d.typeName == n.typeName && d.minItems == n.minItems && d.maxItems == n.maxItems
    && IsNestingName(d.nesting, n.nesting) && (d.block.None? <==> n.block.None?)
    && (n.block.Some? ==> PersistsBlock(n.block.value, d.block.value))
  }

  lemma {:induction false} AttributePersists(a: SchemaAttribute)
    ensures PersistsAttribute(a, FromAttribute(a))
    decreases a
  {
    if a.nestedType.Some? {
      var o := a.nestedType.value;
      forall i | 0 <= i < |o.attributes| ensures PersistsAttribute(o.attributes[i], FromAttribute(o.attributes[i])) {
        AttributePersists(o.attributes[i]);
      }
    }
  }

  /** The persisted form of a block says all of that, at every depth. */
  lemma {:induction false} BlockPersists(b: SchemaBlock)
    ensures PersistsBlock(b, FromBlock(b))
    decreases b
  {
    forall i | 0 <= i < |b.attributes| ensures PersistsAttribute(b.attributes[i], FromAttribute(b.attributes[i])) {
      AttributePersists(b.attributes[i]);
    }
    forall i | 0 <= i < |b.blockTypes| ensures PersistsNested(b.blockTypes[i], FromNested(b.blockTypes[i])) {
      if b.blockTypes[i].block.Some? { BlockPersists(b.blockTypes[i].block.value); }
    }
  }

  // ---------------------------------------------------------------- round trip

  lemma {:induction false} AttributeRoundTrip(a: SchemaAttribute)
    ensures ReadableAttribute(FromAttribute(a)) && ToAttribute(FromAttribute(a)) == a
    decreases a
  {
    NamesParseBack();
    if a.nestedType.Some? { ObjectRoundTrip(a.nestedType.value); }
  }

  lemma {:induction false} ObjectRoundTrip(o: SchemaObject)
    ensures ReadableObject(FromObject(o)) && ToObject(FromObject(o)) == o
    decreases o
  {
    NamesParseBack();
    forall i | 0 <= i < |o.attributes|
      ensures ReadableAttribute(FromAttribute(o.attributes[i])) && ToAttribute(FromAttribute(o.attributes[i])) == o.attributes[i]
    {
      AttributeRoundTrip(o.attributes[i]);
    }
    assert ToObject(FromObject(o)).attributes == o.attributes;
  }

  lemma {:induction false} NestedRoundTrip(n: SchemaNestedBlock)
    ensures FromNested(n).block.Some? ==> ReadableBlock(FromNested(n).block.value)
    ensures ToNested(FromNested(n)) == n
    decreases n
  {
    NamesParseBack();
    if n.block.Some? { BlockRoundTrip(n.block.value); }
  }

  lemma {:induction false} BlockRoundTrip(b: SchemaBlock)
    ensures ReadableBlock(FromBlock(b)) && ToBlock(FromBlock(b)) == b
    decreases b
  {
    NamesParseBack();
    forall i | 0 <= i < |b.attributes|
      ensures ReadableAttribute(FromAttribute(b.attributes[i])) && ToAttribute(FromAttribute(b.attributes[i])) == b.attributes[i]
    {
      AttributeRoundTrip(b.attributes[i]);
    }
    forall i | 0 <= i < |b.blockTypes|
      ensures FromNested(b.blockTypes[i]).block.Some? ==> ReadableBlock(FromNested(b.blockTypes[i]).block.value)
      ensures ToNested(FromNested(b.blockTypes[i])) == b.blockTypes[i]
    {
      NestedRoundTrip(b.blockTypes[i]);
    }
    assert ToBlock(FromBlock(b)).attributes == b.attributes;
    assert ToBlock(FromBlock(b)).blockTypes == b.blockTypes;
  }

  /** Persisting a schema and reading it back gives the provider's own schema. */
  lemma SchemaRoundTrip(s: TfTypes.Schema)
    ensures Readable(FromSchema(s)) && ToSchema(FromSchema(s)) == s
  {
    if s.block.Some? { BlockRoundTrip(s.block.value); }
  }
}
