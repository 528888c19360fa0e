/** What a field of the tree says about the schema it was built from, and what its handles are. */
module FieldMeaning {
  import opened Common
  import opened FieldTree
  import opened FieldTreeLaws

  // ---------------------------------------------------------------- the object behind a type

  /** Through n lists, sets and maps, the type is an object with that record. */
  ghost predicate Wraps(cty: Wire, shape: Wire, n: nat) {
    && cty.Array? && |cty.items| >= 2
    && if n == 0 then cty.items[0] == Text("object") && cty.items[1] == shape && shape.Record?
       else cty.items[0] in {Text("list"), Text("set"), Text("map")} && Wraps(cty.items[1], shape, n - 1)
  }

  lemma {:induction false} WrappedShape(cty: Wire, shape: Wire, n: nat)
    requires Wraps(cty, shape, n)
    ensures ObjectShape(cty) == Some(shape)
  {
    if n > 0 { WrappedShape(cty.items[1], shape, n - 1); }
  }

  lemma {:induction false} ShapeIsWrapped(cty: Wire) returns (n: nat)
    requires ObjectShape(cty).Some?
    ensures Wraps(cty, ObjectShape(cty).value, n)
    decreases cty
  {
    if HasKind(cty, "object") {
      n := 0;
    } else {
      n := ShapeIsWrapped(cty.items[1]);
      n := n + 1;
    }
  }

  ghost predicate IsBehind(shape: Wire, cty: Wire) {
    exists n: nat {:trigger Wraps(cty, shape, n)} :: Wraps(cty, shape, n)
  }

  lemma WrappedIsBehind(cty: Wire, shape: Wire, n: nat)
    requires Wraps(cty, shape, n)
    ensures IsBehind(shape, cty)
  {}

  /** A type has members exactly when it is an object behind any number of lists, sets and maps. */
  lemma ShapeExactly(cty: Wire, shape: Wire)
    ensures ObjectShape(cty) == Some(shape) <==> IsBehind(shape, cty)
  {
    if ObjectShape(cty) == Some(shape) {
      var n := ShapeIsWrapped(cty);
      WrappedIsBehind(cty, shape, n);
    } else if IsBehind(shape, cty) {
      var n: nat :| Wraps(cty, shape, n);
      WrappedShape(cty, shape, n);
    }
  }

  // ---------------------------------------------------------------- the fields of a schema

  /** The type as it came, or "unknown" for one that is neither a string nor a tuple. */
  predicate IsTypeOf(cty: Wire, raw: Wire) {
    if raw.Text? || raw.Array? then cty == raw else cty == Text("unknown")
  }

  predicate IsUnder(name: FieldName, prefix: string, own: string) {
    name.terraformName == own && name.path == if prefix == "" then own else prefix + "." + own
  }

  /** The members of an object type, in order: optional, never required, and as computed and as secret as
      the attribute they belong to, at every depth. */
  ghost predicate ShowsMembers(fields: seq<Field>, cty: Wire, prefix: string, computed: bool, sensitive: bool)
    decreases cty
  {
    match ObjectShape(cty)
    case None => fields == []
    case Some(shape) =>
      && |fields| == |shape.members|
      && forall k :: 0 <= k < |fields| ==> ShowsMember(fields[k], shape.members[k], prefix, computed, sensitive)
  }

  ghost predicate ShowsMember(f: Field, member: Member, prefix: string, computed: bool, sensitive: bool)
    decreases member
  {
    && f.AttributeField? && IsUnder(f.name, prefix, member.name) && IsTypeOf(f.cty, member.value)
    && !f.required && f.optional && f.computed == computed && f.sensitive == sensitive
    && ShowsMembers(f.children, member.value, f.name.path, computed, sensitive)
  }

  ghost predicate ShowsAttribute(f: Field, attribute: NamedAttribute, prefix: string) {
    var s := attribute.schema;
    && f.AttributeField? && IsUnder(f.name, prefix, attribute.name) && IsTypeOf(f.cty, s.cty)
    && f.required == s.required && f.optional == s.optional && f.computed == s.computed && f.sensitive == s.sensitive
    && ShowsMembers(f.children, s.cty, f.name.path, s.computed, s.sensitive)
  }

  /** The fields of a block: its attributes in order, then its blocks, each with its limits, a missing
      minimum being none. */
  ghost predicate ShowsBlock(fields: seq<Field>, block: BlockSchema, prefix: string)
    decreases block
  {
    var n := |block.attributes|;
    && |fields| == n + |block.blocks|
    && (forall k :: 0 <= k < n ==> ShowsAttribute(fields[k], block.attributes[k], prefix))
    && forall k :: 0 <= k < |block.blocks| ==> ShowsNested(fields[n + k], block.blocks[k], prefix)
  }

  ghost predicate ShowsNested(f: Field, nested: NamedBlock, prefix: string)
    decreases nested
  {
    && f.BlockField? && IsUnder(f.name, prefix, nested.name) && f.mode == nested.mode
    && (nested.minItems == Some(f.minItems) || (nested.minItems.None? && f.minItems == 0))
    && f.maxItems == nested.maxItems
    && ShowsBlock(f.children, nested.block, f.name.path)
  }

  lemma {:induction false} MembersShow(cty: Wire, prefix: string, computed: bool, sensitive: bool)
    ensures ShowsMembers(TypeChildren(cty, prefix, computed, sensitive), cty, prefix, computed, sensitive)
    decreases cty
  {
    var shape := ObjectShape(cty);
    if shape.Some? {
      var members := shape.value.members;
      MemberFieldsAt(members, prefix, computed, sensitive);
      forall k | 0 <= k < |members|
        ensures ShowsMember(MemberField(members[k], prefix, computed, sensitive), members[k], prefix, computed, sensitive)
      {
        assert members[k].value < members[k] < shape.value < cty;
        MembersShow(members[k].value, AppendPath(prefix, members[k].name), computed, sensitive);
      }
    }
  }

  lemma AttributeShows(attribute: NamedAttribute, prefix: string)
    ensures ShowsAttribute(AttributeNode(attribute, prefix), attribute, prefix)
  {
    var s := attribute.schema;
    var path := AppendPath(prefix, attribute.name);
    MembersShow(NormalizedType(s.cty), path, s.computed, s.sensitive);
    assert ObjectShape(NormalizedType(s.cty)) == ObjectShape(s.cty);
  }

  lemma {:induction false} BlockShows(block: BlockSchema, prefix: string)
    ensures ShowsBlock(BlockFields(block, prefix), block, prefix)
    decreases block
  {
    hide AttributeNode, ShowsAttribute;
    AttributeNodesAt(block.attributes, prefix);
    BlockNodesAt(block.blocks, prefix);
    forall k | 0 <= k < |block.attributes|
      ensures ShowsAttribute(AttributeNode(block.attributes[k], prefix), block.attributes[k], prefix)
    {
      AttributeShows(block.attributes[k], prefix);
    }
    forall k | 0 <= k < |block.blocks| ensures ShowsNested(BlockNode(block.blocks[k], prefix), block.blocks[k], prefix) {
      BlockShows(block.blocks[k].block, AppendPath(prefix, block.blocks[k].name));
    }
  }

  /** The field tree shows the schema: every attribute, object member and block in its place, at every
      depth, with its own path, type, flags and limits, and nothing else. */
  lemma TreeShowsSchema(root: Option<BlockSchema>)
    ensures root.None? ==> FieldsOf(root) == []
    ensures root.Some? ==> ShowsBlock(FieldsOf(root), root.value, "")
  {
    if root.Some? { BlockShows(root.value, ""); }
  }

  // ---------------------------------------------------------------- what can be referenced

  /** A repeatable block, or an attribute that is neither secret nor an object. A block is not repeatable
      when it is single or a group, or a list or set of at most one. */
  predicate IsReferenceable(f: Field) {
    match f
    case BlockField(_, mode, _, maxItems, _) => mode == Map || (mode in {List, Set} && maxItems != Some(1))
    case AttributeField(_, cty, _, _, _, sensitive, _) =>
      !sensitive && !(cty.Array? && |cty.items| > 0 && cty.items[0] == Text("object"))
  }

  /** The handles a rule may point at are the paths of the topmost such fields, in the order of the tree. */
  lemma HandlesExactly(root: Option<BlockSchema>, f: Field)
    requires PlainSchema(root) && UnnamedAreLeaves(root) && f in Flatten(FieldsOf(root))
    ensures ReferenceFields(FieldsOf(root)) == Paths(HandleNodes(FieldsOf(root)))
    ensures f.name.path in ReferenceFields(FieldsOf(root)) <==>
      IsReferenceable(f) &&
        forall g :: g in Flatten(FieldsOf(root)) && IsReferenceable(g) && InSubtree(f, g) ==> g == f
  {
    var fields := FieldsOf(root);
    forall g | g in Flatten(fields) ensures Referenceable(g) <==> IsReferenceable(g) {}
    HandlesAreIndependent(root);
    HandlesAreTopmost(root, f);
    FieldPathsAreDistinct(root);
    hide FieldsOf, InSubtree, Referenceable, IsReferenceable;
    var nodes := HandleNodes(fields);
    assert f.name.path in Paths(nodes) <==> f in nodes by {
      if f.name.path in Paths(nodes) {
        var i :| 0 <= i < |nodes| && nodes[i].name.path == f.name.path;
        assert nodes[i] in nodes;
        OnePathOneField(fields, f, nodes[i]);
      }
      if f in nodes {
        var i :| 0 <= i < |nodes| && nodes[i] == f;
        assert Paths(nodes)[i] == f.name.path;
      }
    }
  }

  lemma OnePathOneField(fields: seq<Field>, f: Field, g: Field)
    requires Distinct(Paths(Flatten(fields))) && f in Flatten(fields) && g in Flatten(fields)
    requires f.name.path == g.name.path
    ensures f == g
  {
    hide Flatten;
    var i :| 0 <= i < |Flatten(fields)| && Flatten(fields)[i] == f;
    var j :| 0 <= j < |Flatten(fields)| && Flatten(fields)[j] == g;
    assert Paths(Flatten(fields))[i] == Paths(Flatten(fields))[j];
  }
}
