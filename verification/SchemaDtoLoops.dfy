/** bridge/schema/dto.go as it runs: slices filled by loops, stopping at the first type
    signature that cannot be read. Each method is proved equal to a function of SchemaDto. */
module SchemaDtoLoops {
  import opened Common
  import opened TfTypes
  import opened D = SchemaDto

  method SchemaFromTf(s: TfTypes.Schema) returns (out: D.Schema)
    ensures out == FromSchema(s)
  {
    match s.block {
      case None => out := D.Schema.Schema(s.version, None);
      case Some(b) =>
        var block := BlockFromTf(b);
        out := D.Schema.Schema(s.version, Some(block));
    }
  }

  method BlockFromTf(b: SchemaBlock) returns (out: Block)
    ensures out == FromBlock(b)
    decreases b
  {
    var attributes: seq<Attribute> := [];
    for i := 0 to |b.attributes|
      invariant |attributes| == i && forall k :: 0 <= k < i ==> attributes[k] == FromAttribute(b.attributes[k])
    {
      var converted := AttributeFromTf(b.attributes[i]);
      attributes := attributes + [converted];
    }
    var blockTypes: seq<NestedBlock> := [];
    for i := 0 to |b.blockTypes|
      invariant |blockTypes| == i && forall k :: 0 <= k < i ==> blockTypes[k] == FromNested(b.blockTypes[k])
    {
      var converted := NestedFromTf(b.blockTypes[i]);
      blockTypes := blockTypes + [converted];
    }
    out := Block.Block(b.version, attributes, blockTypes, b.description, StringKindName(b.descriptionKind),
      b.deprecated, b.deprecationMessage);
    assert out.attributes == FromBlock(b).attributes && out.blockTypes == FromBlock(b).blockTypes;
  }

  method AttributeFromTf(a: SchemaAttribute) returns (out: Attribute)
    ensures out == FromAttribute(a)
    decreases a
  {
    var nested: Option<Object> := None;
    if a.nestedType.Some? {
      var o := ObjectFromTf(a.nestedType.value);
      nested := Some(o);
    }
    var signature := match a.typ case None => None case Some(t) => Some(Signature.Signature(t));
    out := Attribute.Attribute(a.name, signature, nested, a.description, StringKindName(a.descriptionKind), a.flags,
      a.deprecationMessage);
  }

  method ObjectFromTf(o: SchemaObject) returns (out: Object)
    ensures out == FromObject(o)
    decreases o
  {
    var attributes: seq<Attribute> := [];
    for i := 0 to |o.attributes|
      invariant |attributes| == i && forall k :: 0 <= k < i ==> attributes[k] == FromAttribute(o.attributes[k])
    {
      var converted := AttributeFromTf(o.attributes[i]);
      attributes := attributes + [converted];
    }
    out := Object.Object(attributes, ObjectNestingName(o.nesting));
    assert out.attributes == FromObject(o).attributes;
  }

  method NestedFromTf(n: SchemaNestedBlock) returns (out: NestedBlock)
    ensures out == FromNested(n)
    decreases n
  {
    var block: Option<Block> := None;
    if n.block.Some? {
      var b := BlockFromTf(n.block.value);
      block := Some(b);
    }
    out := NestedBlock.NestedBlock(n.typeName, block, BlockNestingName(n.nesting), n.minItems, n.maxItems);
  }

  method SchemaToTf(s: D.Schema) returns (out: Option<TfTypes.Schema>)
    ensures out == if Readable(s) then Some(ToSchema(s)) else None
  {
    if s.block.None? {
      return Some(TfTypes.Schema.Schema(s.version, None));
    }
    var block := BlockToTf(s.block.value);
    if block.None? {
      return None;
    }
    out := Some(TfTypes.Schema.Schema(s.version, block));
  }

  method BlockToTf(b: Block) returns (out: Option<SchemaBlock>)
    ensures out == if ReadableBlock(b) then Some(ToBlock(b)) else None
    decreases b
  {
    var attributes: seq<SchemaAttribute> := [];
    for i := 0 to |b.attributes|
      invariant |attributes| == i
      invariant forall k :: 0 <= k < i ==> ReadableAttribute(b.attributes[k]) && attributes[k] == ToAttribute(b.attributes[k])
    {
      var converted := AttributeToTf(b.attributes[i]);
      if converted.None? {
        return None;
      }
      attributes := attributes + [converted.value];
    }
    var blockTypes: seq<SchemaNestedBlock> := [];
    for i := 0 to |b.blockTypes|
      invariant |blockTypes| == i
      invariant forall k :: 0 <= k < i ==>
        (b.blockTypes[k].block.Some? ==> ReadableBlock(b.blockTypes[k].block.value)) && blockTypes[k] == ToNested(b.blockTypes[k])
    {
      var converted := NestedToTf(b.blockTypes[i]);
      if converted.None? {
        return None;
      }
      blockTypes := blockTypes + [converted.value];
    }
    out := Some(SchemaBlock.SchemaBlock(b.version, attributes, blockTypes, b.description,
      ParseStringKind(b.descriptionKind), b.deprecated, b.deprecationMessage));
    assert attributes == ToBlock(b).attributes && blockTypes == ToBlock(b).blockTypes;
  }

  method AttributeToTf(a: Attribute) returns (out: Option<SchemaAttribute>)
    ensures out == if ReadableAttribute(a) then Some(ToAttribute(a)) else None
    decreases a
  {
    var typ: Option<Type> := None;
    if a.typ.Some? {
      if a.typ.value.Malformed? {
        return None;
      }
      typ := Some(a.typ.value.typ);
    }
    var nested: Option<SchemaObject> := None;
    if a.nestedType.Some? {
      nested := ObjectToTf(a.nestedType.value);
      if nested.None? {
        return None;
      }
    }
    out := Some(SchemaAttribute.SchemaAttribute(a.name, typ, nested, a.description, ParseStringKind(a.descriptionKind),
      a.flags, a.deprecationMessage));
  }

  method ObjectToTf(o: Object) returns (out: Option<SchemaObject>)
    ensures out == if ReadableObject(o) then Some(ToObject(o)) else None
    decreases o
  {
    var attributes: seq<SchemaAttribute> := [];
    for i := 0 to |o.attributes|
      invariant |attributes| == i
      invariant forall k :: 0 <= k < i ==> ReadableAttribute(o.attributes[k]) && attributes[k] == ToAttribute(o.attributes[k])
    {
      var converted := AttributeToTf(o.attributes[i]);
      if converted.None? {
        return None;
      }
      attributes := attributes + [converted.value];
    }
    out := Some(SchemaObject.SchemaObject(attributes, ParseObjectNesting(o.nesting)));
    assert attributes == ToObject(o).attributes;
  }

  method NestedToTf(n: NestedBlock) returns (out: Option<SchemaNestedBlock>)
    ensures out ==
      if n.block.Some? ==> ReadableBlock(n.block.value) then Some(ToNested(n)) else None
    decreases n
  {
    var block: Option<SchemaBlock> := None;
    if n.block.Some? {
      block := BlockToTf(n.block.value);
      if block.None? {
        return None;
      }
    }
    out := Some(SchemaNestedBlock.SchemaNestedBlock(n.typeName, block, ParseBlockNesting(n.nesting), n.minItems, n.maxItems));
  }
}
