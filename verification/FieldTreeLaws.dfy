/** Field paths are addresses, and reference handles are the topmost referenceable fields. */
module FieldTreeLaws {
  import opened Common
  import opened FieldTree

  predicate Plain(name: string) {
    '.' !in name
  }

  /** Path prefix, segment by segment. */
  predicate Covers(above: string, below: string) {
    below == above || above + "." <= below
  }

  // ---------------------------------------------------------------- schemas with plain names

  ghost predicate PlainType(cty: Wire)
    decreases cty
  {
    var shape := ObjectShape(cty);
    shape.Some? ==> PlainMembers(shape.value.members)
  }

  ghost predicate PlainMembers(members: seq<Member>)
    decreases members
  {
    members == [] ||
    ( && Plain(members[0].name)
      && (forall m :: m in members[1..] ==> m.name != members[0].name)
      && PlainType(members[0].value)
      && PlainMembers(members[1..]))
  }

  ghost predicate PlainAttributes(attributes: seq<NamedAttribute>) {
    attributes == [] ||
    ( && Plain(attributes[0].name)
      && (forall a :: a in attributes[1..] ==> a.name != attributes[0].name)
      && PlainType(attributes[0].schema.cty)
      && PlainAttributes(attributes[1..]))
  }

  ghost predicate PlainBlocks(blocks: seq<NamedBlock>)
    decreases blocks
  {
    blocks == [] ||
    ( && Plain(blocks[0].name)
      && (forall b :: b in blocks[1..] ==> b.name != blocks[0].name)
      && PlainBlock(blocks[0].block)
      && PlainBlocks(blocks[1..]))
  }

  /** Names are dot-free, and no two members of one object or block share one. */
  ghost predicate PlainBlock(block: BlockSchema)
    decreases block
  {
    && PlainAttributes(block.attributes)
    && PlainBlocks(block.blocks)
    && (forall a, b :: a in block.attributes && b in block.blocks ==> a.name != b.name)
  }

  ghost predicate PlainSchema(root: Option<BlockSchema>) {
    root.Some? ==> PlainBlock(root.value)
  }

  /** A field with an empty name at the root adds no segment to the paths below it. */
  predicate UnnamedAreLeaves(root: Option<BlockSchema>) {
    root.Some? ==>
      && (forall a :: a in root.value.attributes ==> AttributeIsNamedOrLeaf(a))
      && (forall b :: b in root.value.blocks ==> BlockIsNamedOrLeaf(b))
  }

  predicate AttributeIsNamedOrLeaf(a: NamedAttribute) {
    a.name == "" ==> HasNoMembers(a.schema.cty)
  }

  predicate BlockIsNamedOrLeaf(b: NamedBlock) {
    b.name == "" ==> b.block.attributes == [] && b.block.blocks == []
  }

  predicate HasNoMembers(cty: Wire) {
    var shape := ObjectShape(cty);
    shape.Some? ==> shape.value.members == []
  }

  // ---------------------------------------------------------------- trees with proper paths

  /** Every path is its parent's path and its own name, and no two siblings share a name. */
  ghost predicate Proper(fields: seq<Field>, prefix: string)
    decreases fields
  {
    fields == [] ||
    ( && NamedUnder(fields[0], prefix)
      && Proper(fields[0].children, fields[0].name.path)
      && (forall f :: f in fields[1..] ==> f.name.terraformName != fields[0].name.terraformName)
      && Proper(fields[1..], prefix))
  }

  /** A proper tree in which an empty path has nothing below it. */
  ghost predicate WellNamed(fields: seq<Field>, prefix: string)
    decreases fields
  {
    fields == [] ||
    ( && NamedUnder(fields[0], prefix)
      && (fields[0].name.path == "" ==> fields[0].children == [])
      && WellNamed(fields[0].children, fields[0].name.path)
      && (forall f :: f in fields[1..] ==> f.name.terraformName != fields[0].name.terraformName)
      && WellNamed(fields[1..], prefix))
  }

  predicate NamedUnder(field: Field, prefix: string) {
    Plain(field.name.terraformName) && field.name.path == AppendPath(prefix, field.name.terraformName)
  }

  /** Object members share the secrecy of the attribute they belong to. */
  ghost predicate KeepsSecrets(fields: seq<Field>)
    decreases fields
  {
    fields == [] ||
    ( && (fields[0].AttributeField? ==> AllAttributes(Flatten(fields[0].children), fields[0].sensitive))
      && KeepsSecrets(fields[0].children)
      && KeepsSecrets(fields[1..]))
  }

  ghost predicate AllAttributes(fields: seq<Field>, sensitive: bool) {
    forall f :: f in fields ==> f.AttributeField? && f.sensitive == sensitive
  }

  // ---------------------------------------------------------------- the builder keeps both

  lemma {:induction false} MemberFieldsAreProper(members: seq<Member>, prefix: string, computed: bool, sensitive: bool)
    requires PlainMembers(members)
    ensures Proper(MemberFields(members, prefix, computed, sensitive), prefix)
    decreases members
  {
    if members == [] {
    } else {
      var fields := MemberFields(members, prefix, computed, sensitive);
      MemberFieldsAt(members, prefix, computed, sensitive);
      MemberFieldsAreProper(members[1..], prefix, computed, sensitive);
      assert fields[1..] == MemberFields(members[1..], prefix, computed, sensitive);
      TypeChildrenAreProper(members[0].value, fields[0].name.path, computed, sensitive);
    }
  }

  lemma {:induction false} TypeChildrenAreProper(cty: Wire, path: string, computed: bool, sensitive: bool)
    requires PlainType(cty)
    ensures Proper(TypeChildren(cty, path, computed, sensitive), path)
    decreases cty
  {
    var shape := ObjectShape(cty);
    if shape.Some? {
      MemberFieldsAreProper(shape.value.members, path, computed, sensitive);
    }
  }

  lemma {:induction false} MemberFieldsKeepSecrets(members: seq<Member>, prefix: string, computed: bool, sensitive: bool)
    ensures
      var fields := MemberFields(members, prefix, computed, sensitive);
      AllAttributes(Flatten(fields), sensitive) && KeepsSecrets(fields)
    decreases members
  {
    if members == [] {
    } else {
      var fields := MemberFields(members, prefix, computed, sensitive);
      MemberFieldsKeepSecrets(members[1..], prefix, computed, sensitive);
      assert fields[1..] == MemberFields(members[1..], prefix, computed, sensitive);
      TypeChildrenKeepSecrets(members[0].value, fields[0].name.path, computed, sensitive);
    }
  }

  lemma {:induction false} TypeChildrenKeepSecrets(cty: Wire, path: string, computed: bool, sensitive: bool)
    ensures
      var fields := TypeChildren(cty, path, computed, sensitive);
      AllAttributes(Flatten(fields), sensitive) && KeepsSecrets(fields)
    decreases cty
  {
    var shape := ObjectShape(cty);
    if shape.Some? {
      MemberFieldsKeepSecrets(shape.value.members, path, computed, sensitive);
    }
  }

  lemma {:induction false} AttributeNodesAreProper(attributes: seq<NamedAttribute>, prefix: string)
    requires PlainAttributes(attributes)
    ensures
      var fields := AttributeNodes(attributes, prefix);
      Proper(fields, prefix) && KeepsSecrets(fields)
  {
    if attributes == [] {
    } else {
      var fields := AttributeNodes(attributes, prefix);
      AttributeNodesAt(attributes, prefix);
      AttributeNodesAreProper(attributes[1..], prefix);
      assert fields[1..] == AttributeNodes(attributes[1..], prefix);
      var s := attributes[0].schema;
      TypeChildrenAreProper(NormalizedType(s.cty), fields[0].name.path, s.computed, s.sensitive);
      TypeChildrenKeepSecrets(NormalizedType(s.cty), fields[0].name.path, s.computed, s.sensitive);
    }
  }

  lemma {:induction false} BlockNodesAreProper(blocks: seq<NamedBlock>, prefix: string)
    requires PlainBlocks(blocks)
    ensures
      var fields := BlockNodes(blocks, prefix);
      Proper(fields, prefix) && KeepsSecrets(fields)
    decreases blocks
  {
    if blocks == [] {
    } else {
      var fields := BlockNodes(blocks, prefix);
      BlockNodesAt(blocks, prefix);
      BlockNodesAreProper(blocks[1..], prefix);
      assert fields[1..] == BlockNodes(blocks[1..], prefix);
      BlockFieldsAreProper(blocks[0].block, fields[0].name.path);
    }
  }

  lemma {:induction false} BlockFieldsAreProper(block: BlockSchema, prefix: string)
    requires PlainBlock(block)
    ensures
      var fields := BlockFields(block, prefix);
      Proper(fields, prefix) && KeepsSecrets(fields)
    decreases block
  {
    hide Proper, KeepsSecrets, TypeChildren, PlainAttributes, PlainBlocks, AttributeNodes, BlockNodes;
    AttributeNodesAreProper(block.attributes, prefix);
    BlockNodesAreProper(block.blocks, prefix);
    AttributeNodesAt(block.attributes, prefix);
    BlockNodesAt(block.blocks, prefix);
    ProperConcat(AttributeNodes(block.attributes, prefix), BlockNodes(block.blocks, prefix), prefix);
    SecretsConcat(AttributeNodes(block.attributes, prefix), BlockNodes(block.blocks, prefix));
  }

  lemma {:induction false} ProperConcat(a: seq<Field>, b: seq<Field>, prefix: string)
    requires Proper(a, prefix) && Proper(b, prefix)
    requires forall f, g :: f in a && g in b ==> f.name.terraformName != g.name.terraformName
    ensures Proper(a + b, prefix)
  {
    hide NamedUnder;
    if a == [] {
      assert a + b == b;
    } else {
      ProperConcat(a[1..], b, prefix);
      assert (a + b)[1..] == a[1..] + b && (a + b)[0] == a[0];
    }
  }

  lemma {:induction false} SecretsConcat(a: seq<Field>, b: seq<Field>)
    requires KeepsSecrets(a) && KeepsSecrets(b)
    ensures KeepsSecrets(a + b)
  {
    hide AllAttributes, Flatten;
    if a == [] {
      assert a + b == b;
    } else {
      SecretsConcat(a[1..], b);
      assert (a + b)[1..] == a[1..] + b && (a + b)[0] == a[0];
    }
  }

  predicate NamedOrLeaf(f: Field) {
    f.name.path == "" ==> f.children == []
  }

  predicate EmptyPathIsLeaf(fields: seq<Field>) {
    forall f :: f in fields ==> NamedOrLeaf(f)
  }

  lemma {:induction false} ProperIsWellNamed(fields: seq<Field>, prefix: string)
    requires Proper(fields, prefix) && (prefix != "" || EmptyPathIsLeaf(fields))
    ensures WellNamed(fields, prefix)
    decreases fields
  {
    if fields == [] {
    } else {
      assert prefix == "" ==> NamedOrLeaf(fields[0]);
      if fields[0].children != [] {
        ProperIsWellNamed(fields[0].children, fields[0].name.path);
      }
      ProperIsWellNamed(fields[1..], prefix);
    }
  }

  lemma TreeIsProper(root: Option<BlockSchema>)
    requires PlainSchema(root)
    ensures Proper(FieldsOf(root), "") && KeepsSecrets(FieldsOf(root))
  {
    if root.Some? {
      BlockFieldsAreProper(root.value, "");
    }
  }

  lemma AttributeLeaf(attribute: NamedAttribute)
    ensures NamedOrLeaf(AttributeNode(attribute, "")) <==> AttributeIsNamedOrLeaf(attribute)
  {
    var s := attribute.schema;
    var shape := ObjectShape(s.cty);
    assert ObjectShape(NormalizedType(s.cty)) == shape;
    if shape.Some? {
      MemberFieldsAt(shape.value.members, attribute.name, s.computed, s.sensitive);
    }
  }

  lemma BlockLeaf(nested: NamedBlock)
    ensures NamedOrLeaf(BlockNode(nested, "")) <==> BlockIsNamedOrLeaf(nested)
  {
    AttributeNodesAt(nested.block.attributes, nested.name);
    BlockNodesAt(nested.block.blocks, nested.name);
  }

  lemma {:induction false} AttributeLeaves(attributes: seq<NamedAttribute>)
    ensures EmptyPathIsLeaf(AttributeNodes(attributes, "")) <==> forall a :: a in attributes ==> AttributeIsNamedOrLeaf(a)
  {
    hide NamedOrLeaf, AttributeNode, AttributeIsNamedOrLeaf;
    if attributes == [] {
    } else {
      AttributeLeaf(attributes[0]);
      AttributeLeaves(attributes[1..]);
    }
  }

  lemma {:induction false} BlockLeaves(blocks: seq<NamedBlock>)
    ensures EmptyPathIsLeaf(BlockNodes(blocks, "")) <==> forall b :: b in blocks ==> BlockIsNamedOrLeaf(b)
  {
    hide NamedOrLeaf, BlockNode, BlockIsNamedOrLeaf;
    if blocks == [] {
    } else {
      BlockLeaf(blocks[0]);
      BlockLeaves(blocks[1..]);
    }
  }

  /** Whether a root field is an unnamed parent can be read off the schema. */
  lemma UnnamedLeaves(root: Option<BlockSchema>)
    ensures EmptyPathIsLeaf(FieldsOf(root)) <==> UnnamedAreLeaves(root)
  {
    hide NamedOrLeaf, AttributeNodes, BlockNodes, AttributeIsNamedOrLeaf, BlockIsNamedOrLeaf;
    if root.Some? {
      AttributeLeaves(root.value.attributes);
      BlockLeaves(root.value.blocks);
    }
  }

  lemma TreeIsSound(root: Option<BlockSchema>)
    requires PlainSchema(root) && UnnamedAreLeaves(root)
    ensures WellNamed(FieldsOf(root), "") && KeepsSecrets(FieldsOf(root))
  {
    TreeIsProper(root);
    UnnamedLeaves(root);
    ProperIsWellNamed(FieldsOf(root), "");
  }

  // ---------------------------------------------------------------- paths as addresses

  lemma CoversTransitive(a: string, b: string, c: string)
    requires Covers(a, b) && Covers(b, c)
    ensures Covers(a, c)
  {
    if a + "." <= b && b + "." <= c {
      assert a + "." <= c by { assert c[..|b|] == b; }
    }
  }

  /** Everything that covers one path is on one line. */
  lemma CoversComparable(a: string, b: string, below: string)
    requires Covers(a, below) && Covers(b, below)
    ensures Covers(a, b) || Covers(b, a)
  {
    assert below[..|a|] == a && below[..|b|] == b;
    if |a| < |b| {
      assert b[..|a| + 1] == below[..|a| + 1] == a + ".";
    } else if |b| < |a| {
      assert a[..|b| + 1] == below[..|b| + 1] == b + ".";
    }
  }

  lemma LongerNameHasDot(base: string, m: string, n: string, below: string)
    requires Covers(base + m, below) && base + n <= below && |m| < |n|
    ensures '.' in n
  {
    assert (base + m)[..|base|] == base && (base + n)[..|base|] == base;
    assert below[|base + m|] == (base + n)[|base + m|] == n[|m|];
  }

  /** A dot-free name under a prefix can be read off any path it covers. */
  lemma NameFromPath(prefix: string, m: string, n: string, below: string)
    requires Plain(m) && Plain(n)
    requires Covers(AppendPath(prefix, m), below) && Covers(AppendPath(prefix, n), below)
    ensures m == n
  {
    var base := if prefix == "" then "" else prefix + ".";
    var a, b := base + m, base + n;
    assert a == AppendPath(prefix, m) && b == AppendPath(prefix, n);
    assert below[..|a|] == a && below[..|b|] == b;
    if |m| == |n| {
      assert m == a[|base|..] && n == b[|base|..];
    } else if |m| < |n| {
      LongerNameHasDot(base, m, n, below);
    } else {
      LongerNameHasDot(base, n, m, below);
    }
  }

  lemma {:induction false} StrictlyBelow(fields: seq<Field>, prefix: string, f: Field)
    requires WellNamed(fields, prefix) && prefix != "" && f in Flatten(fields)
    ensures prefix + "." <= f.name.path
    decreases fields
  {
    var h := fields[0];
    if f in Flatten(h.children) {
      StrictlyBelow(h.children, h.name.path, f);
      CoversTransitive(prefix, h.name.path, f.name.path);
    } else if f in Flatten(fields[1..]) {
      StrictlyBelow(fields[1..], prefix, f);
    }
  }

  /** The top-level field whose subtree holds a node. */
  lemma {:induction false} Owner(fields: seq<Field>, prefix: string, f: Field) returns (g: Field)
    requires WellNamed(fields, prefix) && f in Flatten(fields)
    ensures g in fields && NamedUnder(g, prefix) && Covers(g.name.path, f.name.path)
  {
    var h := fields[0];
    if f == h {
      g := h;
    } else if f in Flatten(h.children) {
      g := h;
      StrictlyBelow(h.children, h.name.path, f);
    } else {
      g := Owner(fields[1..], prefix, f);
    }
  }

  /** Paths under one sibling and paths under the others never cover each other. */
  lemma Apart(fields: seq<Field>, prefix: string, path: string, f: Field)
    requires fields != [] && WellNamed(fields, prefix)
    requires Covers(fields[0].name.path, path) && f in Flatten(fields[1..])
    ensures !Covers(path, f.name.path) && !Covers(f.name.path, path)
  {
    var h := fields[0];
    var g := Owner(fields[1..], prefix, f);
    if Covers(path, f.name.path) {
      CoversTransitive(h.name.path, path, f.name.path);
      NameFromPath(prefix, h.name.terraformName, g.name.terraformName, f.name.path);
    }
    if Covers(f.name.path, path) {
      CoversTransitive(g.name.path, f.name.path, path);
      NameFromPath(prefix, h.name.terraformName, g.name.terraformName, path);
    }
  }

  lemma HeadCovers(fields: seq<Field>, prefix: string, f: Field)
    requires fields != [] && WellNamed(fields, prefix) && f in Flatten([fields[0]])
    ensures Covers(fields[0].name.path, f.name.path)
  {
    if f in Flatten(fields[0].children) {
      StrictlyBelow(fields[0].children, fields[0].name.path, f);
    }
  }

  lemma {:induction false} SubtreeIsWellNamed(fields: seq<Field>, prefix: string, f: Field)
    requires WellNamed(fields, prefix) && f in Flatten(fields)
    ensures (f.name.path == "" ==> f.children == []) && WellNamed(f.children, f.name.path)
    decreases fields
  {
    var h := fields[0];
    if f in Flatten(h.children) {
      SubtreeIsWellNamed(h.children, h.name.path, f);
    } else if f in Flatten(fields[1..]) {
      SubtreeIsWellNamed(fields[1..], prefix, f);
    }
  }

  ghost predicate InSubtree(f: Field, top: Field) {
    f == top || f in Flatten(top.children)
  }

  lemma {:induction false} CoveredIsBelow(fields: seq<Field>, prefix: string, a: Field, b: Field)
    requires WellNamed(fields, prefix) && a in Flatten(fields) && b in Flatten(fields)
    requires Covers(a.name.path, b.name.path)
    ensures InSubtree(b, a)
    decreases fields
  {
    var h, rest := fields[0], fields[1..];
    assert Flatten(fields) == [h] + Flatten(h.children) + Flatten(rest);
    if a in Flatten(rest) {
      if b in Flatten(rest) {
        CoveredIsBelow(rest, prefix, a, b);
      } else {
        BelowIsCovered(fields, prefix, h, b);
        Apart(fields, prefix, b.name.path, a);
      }
    } else {
      BelowIsCovered(fields, prefix, h, a);
      if b in Flatten(rest) {
        Apart(fields, prefix, a.name.path, b);
      } else if a != h {
        StrictlyBelow(h.children, h.name.path, a);
        CoveredIsBelow(h.children, h.name.path, a, b);
      }
    }
  }

  lemma BelowIsCovered(fields: seq<Field>, prefix: string, a: Field, b: Field)
    requires WellNamed(fields, prefix) && a in Flatten(fields) && InSubtree(b, a)
    ensures Covers(a.name.path, b.name.path)
  {
    SubtreeIsWellNamed(fields, prefix, a);
    if b != a {
      StrictlyBelow(a.children, a.name.path, b);
    }
  }

  /** One path is a prefix of another exactly when its field is above the other in the tree. */
  lemma PrefixIsDescent(root: Option<BlockSchema>, a: Field, b: Field)
    requires PlainSchema(root) && UnnamedAreLeaves(root)
    requires a in Flatten(FieldsOf(root)) && b in Flatten(FieldsOf(root))
    ensures Covers(a.name.path, b.name.path) <==> InSubtree(b, a)
  {
    TreeIsSound(root);
    if Covers(a.name.path, b.name.path) {
      CoveredIsBelow(FieldsOf(root), "", a, b);
    } else if InSubtree(b, a) {
      BelowIsCovered(FieldsOf(root), "", a, b);
    }
  }

  // ---------------------------------------------------------------- distinct paths

  ghost predicate PathsDiffer(a: seq<Field>, b: seq<Field>) {
    forall i, j :: 0 <= i < |a| && 0 <= j < |b| ==> a[i].name.path != b[j].name.path
  }

  ghost predicate DistinctPaths(fields: seq<Field>) {
    forall i, j :: 0 <= i < j < |fields| ==> fields[i].name.path != fields[j].name.path
  }

  lemma {:induction false} FlattenHasDistinctPaths(fields: seq<Field>, prefix: string)
    requires WellNamed(fields, prefix)
    ensures DistinctPaths(Flatten(fields))
    decreases fields
  {
    if fields == [] {
    } else {
      var h, rest := fields[0], fields[1..];
      var below := Flatten(h.children);
      FlattenHasDistinctPaths(h.children, h.name.path);
      FlattenHasDistinctPaths(rest, prefix);
      forall f | f in below ensures Covers(h.name.path, f.name.path) && f.name.path != h.name.path {
        StrictlyBelow(h.children, h.name.path, f);
      }
      assert DistinctPaths([h] + below);
      forall i, j | 0 <= i < |[h] + below| && 0 <= j < |Flatten(rest)|
        ensures ([h] + below)[i].name.path != Flatten(rest)[j].name.path
      {
        Apart(fields, prefix, ([h] + below)[i].name.path, Flatten(rest)[j]);
      }
      assert PathsDiffer([h] + below, Flatten(rest));
    }
  }

  /** No two fields of a schema share a path. */
  lemma FieldPathsAreDistinct(root: Option<BlockSchema>)
    requires PlainSchema(root) && UnnamedAreLeaves(root)
    ensures Distinct(Paths(Flatten(FieldsOf(root))))
  {
    TreeIsSound(root);
    FlattenHasDistinctPaths(FieldsOf(root), "");
  }

  // ---------------------------------------------------------------- empty names at the root, exactly

  /** The fields whose own name is their whole path: the roots, and below an unnamed root its fields. */
  function Hoisted(fields: seq<Field>): seq<Field>
    decreases fields
  {
    if fields == [] then [] else HoistedAt(fields[0]) + Hoisted(fields[1..])
  }

  lemma {:induction false} FlattenConcat(a: seq<Field>, b: seq<Field>)
    ensures Flatten(a + b) == Flatten(a) + Flatten(b)
  {
    if a == [] {
      assert a + b == b;
    } else {
      FlattenConcat(a[1..], b);
      var head := [a[0]] + Flatten(a[0].children);
      assert (a + b)[1..] == a[1..] + b && (a + b)[0] == a[0];
      Associative(head, Flatten(a[1..]), Flatten(b));
    }
  }

  lemma Associative<T>(a: seq<T>, b: seq<T>, c: seq<T>)
    ensures a + (b + c) == a + b + c
  {}

  lemma PathsConcat(a: seq<Field>, b: seq<Field>)
    ensures Paths(a + b) == Paths(a) + Paths(b)
  {}

  function HoistedAt(f: Field): seq<Field>
    decreases f
  {
    if f.name.path == "" then [f.(children := [])] + Hoisted(f.children) else [f]
  }

  lemma PathsOfField(f: Field)
    ensures Paths(Flatten([f])) == [f.name.path] + Paths(Flatten(f.children))
  {
    PathsConcat([f], Flatten(f.children));
    assert Flatten([f]) == [f] + Flatten(f.children);
  }

  /** Hoisting keeps every path, in order. */
  lemma {:induction false} HoistingKeepsPathsAt(f: Field)
    ensures Paths(Flatten(HoistedAt(f))) == Paths(Flatten([f]))
    decreases f
  {
    if f.name.path == "" {
      var bare := f.(children := []);
      HoistingKeepsPaths(f.children);
      FlattenConcat([bare], Hoisted(f.children));
      PathsConcat(Flatten([bare]), Flatten(Hoisted(f.children)));
      PathsOfField(bare);
      PathsOfField(f);
    }
  }

  lemma {:induction false} HoistingKeepsPaths(fields: seq<Field>)
    ensures Paths(Flatten(Hoisted(fields))) == Paths(Flatten(fields))
    decreases fields
  {
    hide HoistedAt;
    if fields == [] {
    } else {
      var f, rest := fields[0], fields[1..];
      HoistingKeepsPathsAt(f);
      HoistingKeepsPaths(rest);
      FlattenConcat(HoistedAt(f), Hoisted(rest));
      PathsConcat(Flatten(HoistedAt(f)), Flatten(Hoisted(rest)));
      assert fields == [f] + rest;
      FlattenConcat([f], rest);
      PathsConcat(Flatten([f]), Flatten(rest));
    }
  }

  /** What hoisting leaves is well named as soon as its names differ. */
  ghost predicate RootField(f: Field) {
    && NamedUnder(f, "")
    && (f.name.path == "" ==> f.children == [])
    && WellNamed(f.children, f.name.path)
  }

  lemma {:induction false} HoistedAreRoots(fields: seq<Field>)
    requires Proper(fields, "")
    ensures forall f :: f in Hoisted(fields) ==> RootField(f)
    decreases fields
  {
    if fields == [] {
    } else {
      var f := fields[0];
      HoistedAreRoots(fields[1..]);
      if f.name.path == "" {
        HoistedAreRoots(f.children);
      } else {
        ProperIsWellNamed(f.children, f.name.path);
      }
    }
  }

  lemma {:induction false} DistinctRootsAreWellNamed(fields: seq<Field>)
    requires forall f :: f in fields ==> RootField(f)
    requires DistinctPaths(fields)
    ensures WellNamed(fields, "")
  {
    if fields == [] {
    } else {
      DistinctRootsAreWellNamed(fields[1..]);
      assert RootField(fields[0]);
      forall f | f in fields[1..] ensures f.name.terraformName != fields[0].name.terraformName {
        assert RootField(f);
      }
    }
  }

  /** The fields of a list keep their order when the tree is flattened. */
  lemma {:induction false} Position(fields: seq<Field>, i: nat) returns (p: nat)
    requires i < |fields|
    ensures p < |Flatten(fields)| && Flatten(fields)[p] == fields[i]
    ensures Flatten(fields[..i]) == Flatten(fields)[..p]
  {
    FlattenConcat(fields[..i], fields[i..]);
    assert fields == fields[..i] + fields[i..];
    p := |Flatten(fields[..i])|;
  }

  lemma FlattenedDistinctRoots(fields: seq<Field>)
    requires DistinctPaths(Flatten(fields))
    ensures DistinctPaths(fields)
  {
    forall i, j | 0 <= i < j < |fields| ensures fields[i].name.path != fields[j].name.path {
      var q := Position(fields, j);
      var p := Position(fields[..j], i);
      assert fields[..j][i] == fields[i];
      assert Flatten(fields)[p] == Flatten(fields)[..q][p] == fields[i];
    }
  }

  /** Paths are distinct exactly when the names that are whole paths are: the root names and, for an
      unnamed root field, the names it hoists. */
  lemma DistinctExactly(root: Option<BlockSchema>)
    requires PlainSchema(root)
    ensures Distinct(Paths(Flatten(FieldsOf(root)))) <==> Distinct(Paths(Hoisted(FieldsOf(root))))
  {
    var fields := FieldsOf(root);
    var roots := Hoisted(fields);
    TreeIsProper(root);
    HoistingKeepsPaths(fields);
    HoistedAreRoots(fields);
    if Distinct(Paths(roots)) {
      DistinctRootsAreWellNamed(roots);
      FlattenHasDistinctPaths(roots, "");
      assert Distinct(Paths(Flatten(roots)));
    }
    if Distinct(Paths(Flatten(fields))) {
      PathsDistinct(Flatten(roots));
      FlattenedDistinctRoots(roots);
    }
  }

  lemma PathsDistinct(fields: seq<Field>)
    requires Distinct(Paths(fields))
    ensures DistinctPaths(fields)
  {
    forall i, j | 0 <= i < j < |fields| ensures fields[i].name.path != fields[j].name.path {
      assert Paths(fields)[i] != Paths(fields)[j];
    }
  }

  lemma {:induction false} SubtreesShrink(fields: seq<Field>, f: Field)
    requires f in Flatten(fields)
    ensures |Flatten(f.children)| < |Flatten(fields)|
    decreases fields
  {
    if f in Flatten(fields[0].children) {
      SubtreesShrink(fields[0].children, f);
    } else if f in Flatten(fields[1..]) {
      SubtreesShrink(fields[1..], f);
    }
  }

  ghost predicate PathsFollowTheTree(fields: seq<Field>) {
    forall a, b :: a in Flatten(fields) && b in Flatten(fields) ==>
      (Covers(a.name.path, b.name.path) <==> InSubtree(b, a))
  }

  /** Path prefix means descent exactly when no unnamed root field has anything below it. */
  lemma PathsFollowTheTreeExactly(root: Option<BlockSchema>)
    requires PlainSchema(root)
    ensures PathsFollowTheTree(FieldsOf(root)) <==> UnnamedAreLeaves(root)
  {
    var fields := FieldsOf(root);
    if UnnamedAreLeaves(root) {
      forall a, b | a in Flatten(fields) && b in Flatten(fields)
        ensures Covers(a.name.path, b.name.path) <==> InSubtree(b, a)
      {
        PrefixIsDescent(root, a, b);
      }
    } else {
      UnnamedLeaves(root);
      TreeIsProper(root);
      var f :| f in fields && !NamedOrLeaf(f);
      UnnamedParentBreaksPaths(fields, f);
    }
  }

  lemma {:induction false} UnnamedParentBreaksPaths(fields: seq<Field>, f: Field)
    requires Proper(fields, "") && f in fields && f.name.path == "" && f.children != []
    ensures !PathsFollowTheTree(fields)
  {
    ChildrenAreNodes(fields, "", f);
    var c := f.children[0];
    assert c in Flatten(f.children) && InSubtree(c, f);
    if c.name.path == "" {
      if InSubtree(f, c) {
        SubtreesShrink(f.children, c);
        if f != c { SubtreesShrink(c.children, f); }
      }
      assert Covers(c.name.path, f.name.path) && !InSubtree(f, c);
    } else {
      assert c.name.path[0] != '.';
      assert !Covers(f.name.path, c.name.path);
    }
  }

  lemma {:induction false} ChildrenAreNodes(fields: seq<Field>, prefix: string, f: Field)
    requires Proper(fields, prefix) && f in fields
    ensures f in Flatten(fields) && Proper(f.children, f.name.path)
    ensures forall c :: c in Flatten(f.children) ==> c in Flatten(fields)
  {
    if f != fields[0] {
      ChildrenAreNodes(fields[1..], prefix, f);
    }
  }

  // ---------------------------------------------------------------- reference handles

  /** A field a reference could name on its own: a whole collection block, or an attribute that is
      neither secret nor an object. */
  predicate Referenceable(f: Field) {
    if f.BlockField? then !Inlined(f) else !f.sensitive && !HasKind(f.cty, "object")
  }

  /** The handles below one field. */
  function HandlesAt(f: Field): seq<Field> {
    if Referenceable(f) then [f]
    else if f.AttributeField? && f.sensitive then []
    else HandleNodes(f.children)
  }

  lemma HandlesSplit(fields: seq<Field>)
    requires fields != []
    ensures HandleNodes(fields) == HandlesAt(fields[0]) + HandleNodes(fields[1..])
  {}

  lemma {:induction false} HandlesAreNodes(fields: seq<Field>, h: Field)
    requires h in HandleNodes(fields)
    ensures h in Flatten(fields) && Referenceable(h)
    decreases fields
  {
    HandlesSplit(fields);
    if h in HandleNodes(fields[1..]) {
      HandlesAreNodes(fields[1..], h);
    } else if !Referenceable(fields[0]) {
      HandlesAreNodes(fields[0].children, h);
    }
  }

  ghost predicate Antichain(fields: seq<Field>) {
    forall i, j :: 0 <= i < |fields| && 0 <= j < |fields| && i != j ==>
      !Covers(fields[i].name.path, fields[j].name.path)
  }

  lemma {:induction false} HandlesFormAntichain(fields: seq<Field>, prefix: string)
    requires WellNamed(fields, prefix)
    ensures Antichain(HandleNodes(fields))
    decreases fields
  {
    if fields == [] {
    } else {
      var h, rest := fields[0], fields[1..];
      var ours, theirs := HandlesAt(h), HandleNodes(rest);
      HandlesSplit(fields);
      HandlesFormAntichain(h.children, h.name.path);
      HandlesFormAntichain(rest, prefix);
      forall a, b | a in ours && b in theirs
        ensures !Covers(a.name.path, b.name.path) && !Covers(b.name.path, a.name.path)
      {
        HandlesAreNodes(rest, b);
        if a != h {
          HandlesAreNodes(h.children, a);
          StrictlyBelow(h.children, h.name.path, a);
        }
        Apart(fields, prefix, a.name.path, b);
      }
      AntichainConcat(ours, theirs);
    }
  }

  lemma AntichainConcat(a: seq<Field>, b: seq<Field>)
    requires Antichain(a) && Antichain(b)
    requires forall f, g :: f in a && g in b ==> !Covers(f.name.path, g.name.path) && !Covers(g.name.path, f.name.path)
    ensures Antichain(a + b)
  {
    hide Covers;
    var all := a + b;
    forall i, j | 0 <= i < |all| && 0 <= j < |all| && i != j
      ensures !Covers(all[i].name.path, all[j].name.path)
    {
      if i < |a| && |a| <= j {
        assert all[i] in a && all[j] in b;
      } else if j < |a| && |a| <= i {
        assert all[j] in a && all[i] in b;
      }
    }
  }

  /** Every referenceable field has a handle at it or above it. */
  lemma {:induction false} HandleAbove(fields: seq<Field>, prefix: string, f: Field) returns (h: Field)
    requires WellNamed(fields, prefix) && KeepsSecrets(fields)
    requires f in Flatten(fields) && Referenceable(f)
    ensures h in HandleNodes(fields) && Covers(h.name.path, f.name.path)
    decreases fields
  {
    var top := fields[0];
    HandlesSplit(fields);
    if f in Flatten(fields[1..]) {
      h := HandleAbove(fields[1..], prefix, f);
    } else if Referenceable(top) {
      h := top;
      HeadCovers(fields, prefix, f);
    } else {
      h := HandleAbove(top.children, top.name.path, f);
    }
  }

  /** No reference handle is above another, each is a field of the tree, and none repeats, so the
      de-duplication that ends the computation drops nothing. */
  lemma HandlesAreIndependent(root: Option<BlockSchema>)
    requires PlainSchema(root) && UnnamedAreLeaves(root)
    ensures
      var fields := FieldsOf(root);
      var nodes := HandleNodes(fields);
      && ReferenceFields(fields) == Paths(nodes)
      && Antichain(nodes)
      && (forall h :: h in nodes ==> h in Flatten(fields))
  {
    TreeIsSound(root);
    var nodes := HandleNodes(FieldsOf(root));
    HandlesFormAntichain(FieldsOf(root), "");
    DistinctStay(Paths(nodes));
    forall h | h in nodes ensures h in Flatten(FieldsOf(root)) {
      HandlesAreNodes(FieldsOf(root), h);
    }
  }

  lemma {:induction false} DistinctStay(paths: seq<string>)
    requires Distinct(paths)
    ensures Deduplicated(paths) == paths
  {
    if paths == [] {
    } else {
      DistinctStay(paths[..|paths| - 1]);
    }
  }

  /** Every referenceable field, and so every attribute that is neither secret nor an object, lies at or
      below exactly one handle. */
  lemma ExactlyOneHandle(root: Option<BlockSchema>, f: Field) returns (i: nat)
    requires PlainSchema(root) && UnnamedAreLeaves(root)
    requires f in Flatten(FieldsOf(root)) && Referenceable(f)
    ensures
      var handles := ReferenceFields(FieldsOf(root));
      && i < |handles| && Covers(handles[i], f.name.path)
      && (forall j :: 0 <= j < |handles| && Covers(handles[j], f.name.path) ==> j == i)
  {
    TreeIsSound(root);
    HandlesAreIndependent(root);
    var nodes := HandleNodes(FieldsOf(root));
    var h := HandleAbove(FieldsOf(root), "", f);
    i :| i < |nodes| && nodes[i] == h;
    forall j | 0 <= j < |nodes| && Covers(nodes[j].name.path, f.name.path) ensures j == i {
      CoversComparable(nodes[i].name.path, nodes[j].name.path, f.name.path);
    }
  }

  /** The handles are exactly the topmost referenceable fields. */
  lemma HandlesAreTopmost(root: Option<BlockSchema>, f: Field)
    requires PlainSchema(root) && UnnamedAreLeaves(root) && f in Flatten(FieldsOf(root))
    ensures f in HandleNodes(FieldsOf(root)) <==>
      (Referenceable(f) &&
        forall g :: g in Flatten(FieldsOf(root)) && Referenceable(g) && InSubtree(f, g) ==> g == f)
  {
    TreeIsSound(root);
    var fields := FieldsOf(root);
    var nodes := HandleNodes(fields);
    HandlesAreIndependent(root);
    if f in nodes {
      HandlesAreNodes(fields, f);
      forall g | g in Flatten(fields) && Referenceable(g) && InSubtree(f, g) ensures g == f {
        var h := HandleAbove(fields, "", g);
        BelowIsCovered(fields, "", g, f);
        CoversTransitive(h.name.path, g.name.path, f.name.path);
        assert h == f;
        SamePathSameField(fields, f, g);
      }
    } else if Referenceable(f) {
      var h := HandleAbove(fields, "", f);
      HandlesAreNodes(fields, h);
      CoveredIsBelow(fields, "", h, f);
    }
  }

  lemma SamePathSameField(fields: seq<Field>, f: Field, g: Field)
    requires WellNamed(fields, "") && f in Flatten(fields) && g in Flatten(fields)
    requires Covers(f.name.path, g.name.path) && Covers(g.name.path, f.name.path)
    ensures f == g
  {
    FlattenHasDistinctPaths(fields, "");
  }

  /** A handle that reaches a secret attribute is a whole collection block. */
  lemma SecretsOnlyInCollections(root: Option<BlockSchema>, h: Field, f: Field)
    requires PlainSchema(root) && UnnamedAreLeaves(root) && h in HandleNodes(FieldsOf(root))
    requires InSubtree(f, h) && f.AttributeField? && f.sensitive
    ensures h.BlockField? && !Inlined(h)
  {
    TreeIsSound(root);
    HandlesAreNodes(FieldsOf(root), h);
    if h.AttributeField? {
      SecretsStay(FieldsOf(root), h);
    }
  }

  lemma {:induction false} SecretsStay(fields: seq<Field>, h: Field)
    requires KeepsSecrets(fields) && h in Flatten(fields) && h.AttributeField?
    ensures AllAttributes(Flatten(h.children), h.sensitive)
    decreases fields
  {
    if h in Flatten(fields[0].children) {
      SecretsStay(fields[0].children, h);
    } else if h in Flatten(fields[1..]) {
      SecretsStay(fields[1..], h);
    }
  }

  // ---------------------------------------------------------------- why plain names matter

  const TEXT: AttributeSchema := AttributeSchema(Text("string"), true, false, false, false)

  /** A block with an empty name adds no segment, so its fields collide with their aunts. */
  lemma EmptyNameCollides()
    ensures
      var inner := BlockSchema([NamedAttribute("x", TEXT)], []);
      var block := BlockSchema([NamedAttribute("x", TEXT)], [NamedBlock("", Single, None, None, inner)]);
      !Distinct(Paths(Flatten(FieldsOf(Some(block)))))
  {
    var inner := BlockSchema([NamedAttribute("x", TEXT)], []);
    var nested := NamedBlock("", Single, None, None, inner);
    var block := BlockSchema([NamedAttribute("x", TEXT)], [nested]);
    CollisionShape(block, nested, inner);
  }

  /** A dotted name collides with a path of two names. */
  lemma DottedNameCollides()
    ensures
      var inner := BlockSchema([NamedAttribute("x", TEXT)], []);
      var block := BlockSchema([NamedAttribute("a.x", TEXT)], [NamedBlock("a", Single, None, None, inner)]);
      !Distinct(Paths(Flatten(FieldsOf(Some(block)))))
  {
    var inner := BlockSchema([NamedAttribute("x", TEXT)], []);
    var nested := NamedBlock("a", Single, None, None, inner);
    var block := BlockSchema([NamedAttribute("a.x", TEXT)], [nested]);
    CollisionShape(block, nested, inner);
  }

  lemma CollisionShape(block: BlockSchema, nested: NamedBlock, inner: BlockSchema)
    requires |block.attributes| == 1 && block.blocks == [nested] && nested.block == inner
    requires |inner.attributes| == 1 && inner.blocks == []
    requires block.attributes[0].schema == TEXT && inner.attributes[0].schema == TEXT
    requires AppendPath("", block.attributes[0].name)
      == AppendPath(AppendPath("", nested.name), inner.attributes[0].name)
    ensures !Distinct(Paths(Flatten(FieldsOf(Some(block)))))
  {
    var outerNode := AttributeNode(block.attributes[0], "");
    var blockNode := BlockNode(nested, "");
    var innerNode := AttributeNode(inner.attributes[0], blockNode.name.path);
    AttributeNodesAt(inner.attributes, blockNode.name.path);
    AttributeNodesAt(block.attributes, "");
    BlockNodesAt(block.blocks, "");
    assert BlockFields(inner, blockNode.name.path) == [innerNode];
    assert BlockFields(block, "") == [outerNode, blockNode];
    assert Flatten([innerNode]) == [innerNode];
    assert Flatten([blockNode]) == [blockNode, innerNode];
    assert [outerNode, blockNode][1..] == [blockNode];
    assert Flatten([outerNode, blockNode]) == [outerNode, blockNode, innerNode];
    var paths := Paths([outerNode, blockNode, innerNode]);
    assert paths[0] == paths[2];
  }
}
