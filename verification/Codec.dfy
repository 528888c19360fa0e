/** bridge/codec: compiling a provider schema to a wire type plus block metadata, and the
    block-aware JSON codec. Every function here is the meaning of a loop in CodecLoops. */
module Codec {
  import opened Common
  import opened TfTypes
  import Numbers
  import NumberText

  /** A JSON text as Go's decoder sees it: object members in no order, the last duplicate kept. */
  datatype Json =
    | JNull
    | JBool(b: bool)
    | JNumber(n: real)
    | JString(s: string)
    | JArray(items: seq<Json>)
    | JObject(members: map<string, Json>)

  /** A wire type with the block metadata the wire type flattens away. */
  datatype SchemaType = SchemaType(typ: Type, blocks: map<string, BlockInfo>)

  datatype BlockInfo = BlockInfo(nesting: BlockNesting, inner: SchemaType)

  /** The key under which block metadata crosses a collection boundary. */
  const BLOCK_ELEMENT_MARKER := "\U{0000}element"

  // ---------------------------------------------------------------- schema to type

  predicate HasDynamic(t: Type) {
    match t
    case TDynamic => true
    case TObject(attrs) => exists k :: k in attrs && HasDynamic(attrs[k])
    case TList(elem) => HasDynamic(elem)
    case TSet(elem) => HasDynamic(elem)
    case TMap(elem) => HasDynamic(elem)
    case TTuple(elems) => exists i :: 0 <= i < |elems| && HasDynamic(elems[i])
    case _ => false
  }

  /** What the compiler dereferences is there: every attribute has a type and every nested
      block a body, and no nested block has the protocol's Invalid nesting. */
  predicate Complete(block: SchemaBlock) {
    && (forall i :: 0 <= i < |block.attributes| ==> Typed(block.attributes[i]))
    && (forall i :: 0 <= i < |block.blockTypes| ==>
          && block.blockTypes[i].nesting != InvalidBlock
          && block.blockTypes[i].block.Some?
          && Complete(block.blockTypes[i].block.value))
  }

  predicate Typed(attr: SchemaAttribute) {
    match attr.nestedType
    case None => attr.typ.Some?
    case Some(obj) => forall i :: 0 <= i < |obj.attributes| ==> Typed(obj.attributes[i])
  }

  function AttributeType(attr: SchemaAttribute): (t: Type)
    requires Typed(attr)
    decreases attr, 1
  {
    match attr.nestedType
    case None => attr.typ.value
    case Some(obj) => WrapObject(obj.nesting, TObject(AttributeTypes(obj.attributes)))
  }

  function WrapObject(nesting: ObjectNesting, objType: Type): Type {
    match nesting
    case ListObject => TList(objType)
    case SetObject => TSet(objType)
    case MapObject => TMap(objType)
    case _ => objType
  }

  /** Later attributes of the same name win. */
  function AttributeTypes(attrs: seq<SchemaAttribute>): (types: map<string, Type>)
    requires forall i :: 0 <= i < |attrs| ==> Typed(attrs[i])
    ensures forall k :: k in types <==> exists i :: 0 <= i < |attrs| && attrs[i].name == k
    decreases attrs, 0
  {
    if attrs == [] then map[]
    else
      var last := attrs[|attrs| - 1];
      AttributeTypes(attrs[..|attrs| - 1])[last.name := AttributeType(last)]
  }

  /** A block's wire type. A List or Map of a body with dynamic parts has no uniform element
      type and falls back to an empty Tuple or an empty Object. */
  function OuterType(nesting: BlockNesting, inner: Type): Type {
    match nesting
    case ListBlock => if HasDynamic(inner) then TTuple([]) else TList(inner)
    case SetBlock => TSet(inner)
    case MapBlock => if HasDynamic(inner) then TObject(map[]) else TMap(inner)
    case _ => inner
  }

  function BlockInfos(nested: seq<SchemaNestedBlock>): (infos: map<string, BlockInfo>)
    requires forall i :: 0 <= i < |nested| ==> nested[i].block.Some? && Complete(nested[i].block.value)
    decreases nested, 0
  {
    if nested == [] then map[]
    else
      var last := nested[|nested| - 1];
      BlockInfos(nested[..|nested| - 1])[last.typeName :=
        BlockInfo(last.nesting, BlockToSchemaType(last.block.value))]
  }

  function OuterTypes(infos: map<string, BlockInfo>): (types: map<string, Type>) {
    map k | k in infos :: OuterType(infos[k].nesting, infos[k].inner.typ)
  }

  function BlockToSchemaType(block: SchemaBlock): (st: SchemaType)
    requires Complete(block)
    decreases block, 1
  {
    var infos := BlockInfos(block.blockTypes);
    SchemaType(TObject(AttributeTypes(block.attributes) + OuterTypes(infos)), infos)
  }

  predicate CompleteSchema(schema: Option<Schema>) {
    schema.Some? && schema.value.block.Some? ==> Complete(schema.value.block.value)
  }

  function SchemaToType(schema: Option<Schema>): (st: SchemaType)
    requires CompleteSchema(schema)
  {
    if schema.None? || schema.value.block.None? then SchemaType(TObject(map[]), map[])
    else BlockToSchemaType(schema.value.block.value)
  }

  // ---------------------------------------------------------------- child positions

  function ChildType(st: SchemaType, name: string, attrType: Type): SchemaType {
    if name !in st.blocks then SchemaType(attrType, map[])
    else
      var block := st.blocks[name];
      if block.nesting == SingleBlock || block.nesting == GroupBlock then block.inner
      else SchemaType(attrType, map[BLOCK_ELEMENT_MARKER := block])
  }

  function ElementType(st: SchemaType): SchemaType {
    if BLOCK_ELEMENT_MARKER in st.blocks then st.blocks[BLOCK_ELEMENT_MARKER].inner
    else match st.typ
      case TList(elem) => SchemaType(elem, map[])
      case TSet(elem) => SchemaType(elem, map[])
      case TMap(elem) => SchemaType(elem, map[])
      case _ => SchemaType(st.typ, map[])
  }

  // ---------------------------------------------------------------- absent blocks

  function AbsentBlockValue(attrType: Type, block: BlockInfo): (v: Value)
    decreases block
  {
    match block.nesting
    case ListBlock => Value(attrType, Items([]))
    case SetBlock => Value(attrType, Items([]))
    case MapBlock => Value(attrType, Entries(map[]))
    case GroupBlock => GroupAbsentValue(attrType, block.inner)
    case _ => Value(attrType, Null)
  }

  function GroupAbsentValue(attrType: Type, inner: SchemaType): (v: Value)
    decreases inner
  {
    if !attrType.TObject? then Value(attrType, Null)
    else Value(attrType, Entries(map k | k in attrType.attrs :: AbsentValue(k, attrType.attrs[k], inner)))
  }

  function AbsentValue(name: string, attrType: Type, st: SchemaType): (v: Value)
    decreases st, 0
  {
    if name in st.blocks then AbsentBlockValue(attrType, st.blocks[name]) else Value(attrType, Null)
  }

  // ---------------------------------------------------------------- decoding

  /** Decoding never distinguishes failures, so the result is an option. */
  function Decode(j: Json, st: SchemaType): (r: Option<Value>)
    decreases j, 1
  {
    if j.JNull? then Some(Value(st.typ, Null))
    else match st.typ
      case TString => if j.JString? then Some(Value(TString, Str(j.s))) else None
      case TNumber => DecodeNumber(j)
      case TBool => if j.JBool? then Some(Value(TBool, Bool(j.b))) else None
      case TDynamic => Some(Value(TDynamic, Unknown))
      case TObject(attrs) =>
        if j.JObject? && forall k | k in attrs :: DecodeMember(j, k, attrs[k], st).Some? then
          Some(Value(st.typ, Entries(map k | k in attrs :: DecodeMember(j, k, attrs[k], st).value)))
        else None
      case TMap(_) =>
        var elem := ElementType(st);
        if j.JObject? && forall k | k in j.members :: Decode(j.members[k], elem).Some? then
          Some(Value(st.typ, Entries(map k | k in j.members :: Decode(j.members[k], elem).value)))
        else None
      case TList(_) => DecodeItems(j, st)
      case TSet(_) => DecodeItems(j, st)
      case TTuple(elems) =>
        if j.JArray? && |j.items| == |elems|
           && forall i | 0 <= i < |elems| :: Decode(j.items[i], SchemaType(elems[i], map[])).Some? then
          Some(Value(st.typ, Items(seq(|elems|, i requires
            0 <= i < |elems| && Decode(j.items[i], SchemaType(elems[i], map[])).Some? =>
            Decode(j.items[i], SchemaType(elems[i], map[])).value))))
        else None
  }

  /** A fresh `big.Float` takes 64 bits. */
  function ParsedNumber(n: real): (v: Value)
    ensures WellTyped(v) && v.typ == TNumber
  {
    Numbers.RoundFits(Numbers.PARSED, n);
    Value(TNumber, Num(Numbers.Round(Numbers.PARSED, n), Numbers.PARSED))
  }

  /** Go's `json.Number` also accepts a quoted number. */
  function DecodeNumber(j: Json): (r: Option<Value>) {
    match j
    case JNumber(n) => Some(ParsedNumber(n))
    case JString(s) =>
      (match NumberText.Parse(s)
       case Some(n) => Some(ParsedNumber(n))
       case None => None)
    case _ => None
  }

  function DecodeItems(j: Json, st: SchemaType): (r: Option<Value>)
    decreases j, 0
  {
    var elem := ElementType(st);
    if j.JArray? && forall i | 0 <= i < |j.items| :: Decode(j.items[i], elem).Some? then
      Some(Value(st.typ, Items(seq(|j.items|, i requires
        0 <= i < |j.items| && Decode(j.items[i], elem).Some? => Decode(j.items[i], elem).value))))
    else None
  }

  function DecodeMember(j: Json, name: string, attrType: Type, st: SchemaType): (r: Option<Value>)
    requires j.JObject?
    decreases j, 0
  {
    if name in j.members then Decode(j.members[name], ChildType(st, name, attrType))
    else Some(AbsentValue(name, attrType, st))
  }

  // ---------------------------------------------------------------- encoding

  function Encode(v: Value): (j: Json)
    requires WellTyped(v)
    decreases v
  {
    PartsAreWellTyped(v);
    match v.body
    case Null => JNull
    case Unknown => JNull
    case Str(s) => JString(s)
    case Num(n, p) => JNumber(Numbers.Literal(p, n))
    case Bool(b) => JBool(b)
    case Items(items) => JArray(seq(|items|, i requires 0 <= i < |items| => Encode(items[i])))
    case Entries(entries) => JObject(map k | k in entries :: Encode(entries[k]))
  }
}
