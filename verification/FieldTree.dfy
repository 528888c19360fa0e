/** packages/provider/src/field-tree.ts: the addressable field tree of a resource schema, and the
    handles a relationship rule may point at. Object members keep their entry order. */
module FieldTree {
  import opened Common

  /** A raw cty type as the provider sends it: any JSON value. */
  datatype Wire = Text(text: string) | Array(items: seq<Wire>) | Record(members: seq<Member>) | OtherJson

  datatype Member = Member(name: string, value: Wire)

  datatype NestingMode = Single | Group | List | Set | Map

  datatype AttributeSchema = AttributeSchema(cty: Wire, required: bool, optional: bool, computed: bool, sensitive: bool)

  datatype NamedAttribute = NamedAttribute(name: string, schema: AttributeSchema)

  datatype BlockSchema = BlockSchema(attributes: seq<NamedAttribute>, blocks: seq<NamedBlock>)

  datatype NamedBlock = NamedBlock(
    name: string, mode: NestingMode, minItems: Option<int>, maxItems: Option<int>, block: BlockSchema)

  datatype FieldName = FieldName(terraformName: string, path: string)

  datatype Field =
    | AttributeField(name: FieldName, cty: Wire, required: bool, optional: bool, computed: bool, sensitive: bool,
        children: seq<Field>)
    | BlockField(name: FieldName, mode: NestingMode, minItems: int, maxItems: Option<int>, children: seq<Field>)

  function AppendPath(prefix: string, name: string): string {
    if prefix == "" then name else prefix + "." + name
  }

  function NormalizedType(cty: Wire): Wire {
    if cty.Text? || cty.Array? then cty else Text("unknown")
  }

  predicate HasKind(cty: Wire, kind: string) {
    cty.Array? && cty.items != [] && cty.items[0] == Text(kind)
  }

  /** The object record behind a type, looking through lists, sets and maps. */
  function ObjectShape(cty: Wire): (shape: Option<Wire>)
    ensures shape.Some? ==> shape.value.Record? && shape.value < cty
  {
    if !cty.Array? || |cty.items| < 2 then None
    else if HasKind(cty, "object") then
      if cty.items[1].Record? then Some(cty.items[1]) else None
    else if HasKind(cty, "list") || HasKind(cty, "set") || HasKind(cty, "map") then ObjectShape(cty.items[1])
    else None
  }

  // ---------------------------------------------------------------- the tree

  function TypeChildren(cty: Wire, path: string, computed: bool, sensitive: bool): seq<Field>
    decreases cty
  {
    var shape := ObjectShape(cty);
    if shape.None? then [] else MemberFields(shape.value.members, path, computed, sensitive)
  }

  function MemberFields(members: seq<Member>, prefix: string, computed: bool, sensitive: bool): seq<Field>
    decreases members
  {
    if members == [] then []
    else
      [MemberField(members[0], prefix, computed, sensitive)] + MemberFields(members[1..], prefix, computed, sensitive)
  }

  function MemberField(member: Member, prefix: string, computed: bool, sensitive: bool): Field
    decreases member
  {
    var path := AppendPath(prefix, member.name);
    AttributeField(FieldName(member.name, path), NormalizedType(member.value), false, true, computed, sensitive,
      TypeChildren(member.value, path, computed, sensitive))
  }

  function AttributeNode(attribute: NamedAttribute, prefix: string): Field {
    var path := AppendPath(prefix, attribute.name);
    var s := attribute.schema;
    var cty := NormalizedType(s.cty);
    AttributeField(FieldName(attribute.name, path), cty, s.required, s.optional, s.computed, s.sensitive,
      TypeChildren(cty, path, s.computed, s.sensitive))
  }

  function AttributeNodes(attributes: seq<NamedAttribute>, prefix: string): seq<Field> {
    if attributes == [] then []
    else [AttributeNode(attributes[0], prefix)] + AttributeNodes(attributes[1..], prefix)
  }

  function BlockNode(nested: NamedBlock, prefix: string): Field
    decreases nested
  {
    var path := AppendPath(prefix, nested.name);
    BlockField(FieldName(nested.name, path), nested.mode,
      if nested.minItems.None? then 0 else nested.minItems.value, nested.maxItems, BlockFields(nested.block, path))
  }

  function BlockNodes(blocks: seq<NamedBlock>, prefix: string): seq<Field>
    decreases blocks
  {
    if blocks == [] then [] else [BlockNode(blocks[0], prefix)] + BlockNodes(blocks[1..], prefix)
  }

  function BlockFields(block: BlockSchema, prefix: string): seq<Field>
    decreases block
  {
    AttributeNodes(block.attributes, prefix) + BlockNodes(block.blocks, prefix)
  }

  /** A schema without a block has no fields. */
  function FieldsOf(root: Option<BlockSchema>): seq<Field> {
    if root.None? then [] else BlockFields(root.value, "")
  }

  // ---------------------------------------------------------------- consumers

  function Flatten(fields: seq<Field>): seq<Field> {
    if fields == [] then [] else [fields[0]] + Flatten(fields[0].children) + Flatten(fields[1..])
  }

  predicate Inlined(block: Field)
    requires block.BlockField?
  {
    block.mode.Single? || block.mode.Group? || ((block.mode.List? || block.mode.Set?) && block.maxItems == Some(1))
  }

  /** The nodes a reference may point at. */
  function HandleNodes(fields: seq<Field>): seq<Field> {
    if fields == [] then []
    else
      var field := fields[0];
      (if field.BlockField? then (if Inlined(field) then HandleNodes(field.children) else [field])
       else if field.sensitive then []
       else if HasKind(field.cty, "object") then HandleNodes(field.children)
       else [field])
      + HandleNodes(fields[1..])
  }

  function Paths(fields: seq<Field>): (paths: seq<string>)
    ensures |paths| == |fields|
    ensures forall i :: 0 <= i < |fields| ==> paths[i] == fields[i].name.path
  {
    seq(|fields|, i requires 0 <= i < |fields| => fields[i].name.path)
  }

  /** First occurrences, in order: what a Set spread keeps. */
  function Deduplicated(paths: seq<string>): (kept: seq<string>) {
    if paths == [] then []
    else
      var last := |paths| - 1;
      if paths[last] in paths[..last] then Deduplicated(paths[..last])
      else Deduplicated(paths[..last]) + [paths[last]]
  }

  function ReferenceFields(fields: seq<Field>): seq<string> {
    Deduplicated(Paths(HandleNodes(fields)))
  }

  // ---------------------------------------------------------------- the builders as they run

  lemma {:induction false} MemberFieldsAt(members: seq<Member>, prefix: string, computed: bool, sensitive: bool)
    ensures
      var fields := MemberFields(members, prefix, computed, sensitive);
      && |fields| == |members|
      && forall k :: 0 <= k < |members| ==> fields[k] == MemberField(members[k], prefix, computed, sensitive)
  {
    hide MemberField;
    if members == [] {
    } else {
      MemberFieldsAt(members[1..], prefix, computed, sensitive);
    }
  }

  lemma {:induction false} AttributeNodesAt(attributes: seq<NamedAttribute>, prefix: string)
    ensures
      var fields := AttributeNodes(attributes, prefix);
      |fields| == |attributes| && forall k :: 0 <= k < |attributes| ==> fields[k] == AttributeNode(attributes[k], prefix)
  {
    hide AttributeNode;
    if attributes == [] {
    } else {
      AttributeNodesAt(attributes[1..], prefix);
    }
  }

  lemma {:induction false} BlockNodesAt(blocks: seq<NamedBlock>, prefix: string)
    ensures
      var fields := BlockNodes(blocks, prefix);
      |fields| == |blocks| && forall k :: 0 <= k < |blocks| ==> fields[k] == BlockNode(blocks[k], prefix)
  {
    hide BlockNode;
    if blocks == [] {
    } else {
      BlockNodesAt(blocks[1..], prefix);
    }
  }

  method BuildObjectTypeChildren(shape: Option<Wire>, prefix: string, computed: bool, sensitive: bool)
    returns (children: seq<Field>)
    requires shape.Some? ==> shape.value.Record?
    ensures children == (if shape.None? then [] else MemberFields(shape.value.members, prefix, computed, sensitive))
    decreases shape.Some?, if shape.Some? then shape.value else OtherJson
  {
    hide MemberFields, ObjectShape;
    children := [];
    if shape.None? {
      return;
    }
    var members := shape.value.members;
    MemberFieldsAt(members, prefix, computed, sensitive);
    var i := 0;
    while i < |members|
      invariant 0 <= i == |children| <= |members|
      invariant forall k :: 0 <= k < i ==> children[k] == MemberField(members[k], prefix, computed, sensitive)
    {
      var path := AppendPath(prefix, members[i].name);
      var below := ObjectShape(members[i].value);
      assert below.Some? ==> below.value < members[i].value < members[i] < shape.value;
      var grandchildren := BuildObjectTypeChildren(below, path, computed, sensitive);
      children := children + [AttributeField(FieldName(members[i].name, path), NormalizedType(members[i].value),
        false, true, computed, sensitive, grandchildren)];
      i := i + 1;
    }
  }

  method BuildAttributeNode(attribute: NamedAttribute, prefix: string) returns (node: Field)
    ensures node == AttributeNode(attribute, prefix)
  {
    var path := AppendPath(prefix, attribute.name);
    var s := attribute.schema;
    var cty := NormalizedType(s.cty);
    var children := BuildObjectTypeChildren(ObjectShape(cty), path, s.computed, s.sensitive);
    node := AttributeField(FieldName(attribute.name, path), cty, s.required, s.optional, s.computed, s.sensitive, children);
  }

  method BuildNestedBlockNode(nested: NamedBlock, prefix: string) returns (node: Field)
    ensures node == BlockNode(nested, prefix)
    decreases nested
  {
    var path := AppendPath(prefix, nested.name);
    var children := BuildBlockFields(nested.block, path);
    node := BlockField(FieldName(nested.name, path), nested.mode,
      if nested.minItems.None? then 0 else nested.minItems.value, nested.maxItems, children);
  }

  method BuildBlockFields(block: BlockSchema, prefix: string) returns (fields: seq<Field>)
    ensures fields == BlockFields(block, prefix)
    decreases block
  {
    hide AttributeNode, BlockNode, AttributeNodes, BlockNodes;
    fields := [];
    var n := |block.attributes|;
    AttributeNodesAt(block.attributes, prefix);
    BlockNodesAt(block.blocks, prefix);
    var i := 0;
    while i < n
      invariant 0 <= i == |fields| <= n
      invariant forall k :: 0 <= k < i ==> fields[k] == AttributeNode(block.attributes[k], prefix)
    {
      var node := BuildAttributeNode(block.attributes[i], prefix);
      fields := fields + [node];
      i := i + 1;
    }
    assert fields == AttributeNodes(block.attributes, prefix);
    var j := 0;
    while j < |block.blocks|
      invariant 0 <= j <= |block.blocks| && |fields| == n + j
      invariant fields[..n] == AttributeNodes(block.attributes, prefix)
      invariant forall k :: 0 <= k < j ==> fields[n + k] == BlockNode(block.blocks[k], prefix)
    {
      var node := BuildNestedBlockNode(block.blocks[j], prefix);
      fields := fields + [node];
      j := j + 1;
    }
    assert fields[n..] == BlockNodes(block.blocks, prefix);
    assert fields == fields[..n] + fields[n..];
  }

  /** A Set filled in order and spread again. */
  method BuildResourceReferenceFields(fields: seq<Field>) returns (handles: seq<string>)
    ensures handles == ReferenceFields(fields)
  {
    var paths := Paths(HandleNodes(fields));
    handles := [];
    var i := 0;
    while i < |paths|
      invariant 0 <= i <= |paths|
      invariant handles == Deduplicated(paths[..i])
      invariant forall path :: path in handles <==> path in paths[..i]
    {
      assert paths[..i + 1][..i] == paths[..i];
      if paths[i] !in handles {
        handles := handles + [paths[i]];
      }
      i := i + 1;
    }
    assert paths[..i] == paths;
  }
}
