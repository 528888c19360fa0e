/** What compiling, decoding and encoding yield, written out in literal types, values and JSON. */
module CodecMeaning {
  import opened Common
  import opened TfTypes
  import opened Codec
  import opened CodecLaws
  import Numbers
  import NumberText

  // ---------------------------------------------------------------- compiled types

  /** The attribute at i is the last of its name, the one that counts. */
  predicate IsLast(attrs: seq<SchemaAttribute>, i: nat) {
    i < |attrs| && forall l :: i < l < |attrs| ==> attrs[l].name != attrs[i].name
  }

  predicate IsLastBlock(nested: seq<SchemaNestedBlock>, i: nat) {
    i < |nested| && forall l :: i < l < |nested| ==> nested[l].typeName != nested[i].typeName
  }

  lemma {:induction false} AttributeTypesAt(attrs: seq<SchemaAttribute>, i: nat)
    requires forall k :: 0 <= k < |attrs| ==> Typed(attrs[k])
    requires IsLast(attrs, i)
    ensures attrs[i].name in AttributeTypes(attrs) && AttributeTypes(attrs)[attrs[i].name] == AttributeType(attrs[i])
    decreases |attrs|
  {
    hide AttributeType, Typed;
    var last := |attrs| - 1;
    if i < last {
      assert attrs[..last][i] == attrs[i];
      AttributeTypesAt(attrs[..last], i);
    }
  }

  /** An object type with exactly these attributes. */
  ghost predicate IsObjectOf(t: Type, attrs: seq<SchemaAttribute>)
    requires forall i :: 0 <= i < |attrs| ==> Typed(attrs[i])
  {
    && t.TObject?
    && (forall k :: k in t.attrs <==> exists i :: 0 <= i < |attrs| && attrs[i].name == k)
    && (forall i: nat :: IsLast(attrs, i) ==>
          attrs[i].name in t.attrs && t.attrs[attrs[i].name] == AttributeType(attrs[i]))
  }

  /** An attribute has its own type or, with a nested type, an object of the nested attributes, in the
      collection the nesting names. */
  lemma AttributeCompiles(attr: SchemaAttribute)
    requires Typed(attr)
    ensures
      var t := AttributeType(attr);
      match attr.nestedType
      case None => Some(t) == attr.typ
      case Some(obj) =>
        match obj.nesting
        case ListObject => t.TList? && IsObjectOf(t.elem, obj.attributes)
        case SetObject => t.TSet? && IsObjectOf(t.elem, obj.attributes)
        case MapObject => t.TMap? && IsObjectOf(t.elem, obj.attributes)
        case _ => IsObjectOf(t, obj.attributes)
  {
    if attr.nestedType.Some? {
      AllAttributeTypes(attr.nestedType.value.attributes);
    }
  }

  lemma {:induction false} BlockInfoNames(nested: seq<SchemaNestedBlock>)
    requires forall k :: 0 <= k < |nested| ==> nested[k].block.Some? && Complete(nested[k].block.value)
    ensures forall k :: k in BlockInfos(nested) <==> exists i :: 0 <= i < |nested| && nested[i].typeName == k
    decreases |nested|
  {
    hide BlockToSchemaType, Complete;
    if nested == [] {
    } else {
      var last := |nested| - 1;
      BlockInfoNames(nested[..last]);
      forall k ensures k in BlockInfos(nested) <==> exists i :: 0 <= i < |nested| && nested[i].typeName == k {
        if k in BlockInfos(nested) && k != nested[last].typeName {
          assert k in BlockInfos(nested[..last]);
          var i :| 0 <= i < last && nested[..last][i].typeName == k;
          assert nested[i].typeName == k;
        }
        if i :| 0 <= i < |nested| && nested[i].typeName == k {
          assert i < last ==> nested[..last][i].typeName == k;
        }
      }
    }
  }

  lemma {:induction false} BlockInfoAt(nested: seq<SchemaNestedBlock>, i: nat)
    requires forall k :: 0 <= k < |nested| ==> nested[k].block.Some? && Complete(nested[k].block.value)
    requires IsLastBlock(nested, i)
    ensures nested[i].typeName in BlockInfos(nested)
    ensures BlockInfos(nested)[nested[i].typeName] == BlockInfo(nested[i].nesting, BlockToSchemaType(nested[i].block.value))
    decreases |nested|
  {
    hide BlockToSchemaType, Complete;
    var last := |nested| - 1;
    if i < last { BlockInfoAt(nested[..last], i); }
  }

  /** The wire type a block of the given nesting has. */
  predicate IsWireType(t: Type, nesting: BlockNesting, body: Type) {
    match nesting
    case ListBlock => if HasDynamic(body) then t == TTuple([]) else t == TList(body)
    case SetBlock => t == TSet(body)
    case MapBlock => if HasDynamic(body) then t == TObject(map[]) else t == TMap(body)
    case SingleBlock => t == body
    case GroupBlock => t == body
    case InvalidBlock => false
  }

  /** A block compiles to an object of its attributes and nested blocks, and the block table records its
      nested blocks and nothing else. */
  lemma BlockCompiles(block: SchemaBlock)
    requires Complete(block)
    ensures
      var st := BlockToSchemaType(block);
      && st.typ.TObject?
      && (forall k :: k in st.blocks <==> exists i :: 0 <= i < |block.blockTypes| && block.blockTypes[i].typeName == k)
      && (forall k :: k in st.typ.attrs <==>
           k in st.blocks || exists i :: 0 <= i < |block.attributes| && block.attributes[i].name == k)
  {
    BlockInfoNames(block.blockTypes);
    hide BlockInfos, HasDynamic, Complete, Typed, AttributeType;
    var types := AttributeTypes(block.attributes);
    assert forall k :: k in OuterTypes(BlockInfos(block.blockTypes)) <==> k in BlockInfos(block.blockTypes);
    hide AttributeTypes, OuterTypes;
  }

  /** A nested block is recorded with its nesting and body, and its wire type is the one of its nesting. */
  lemma NestedCompiles(block: SchemaBlock, i: nat)
    requires Complete(block) && IsLastBlock(block.blockTypes, i)
    ensures
      var st := BlockToSchemaType(block);
      var nested := block.blockTypes[i];
      && nested.typeName in st.blocks && nested.typeName in st.typ.attrs
      && st.blocks[nested.typeName] == BlockInfo(nested.nesting, BlockToSchemaType(nested.block.value))
      && IsWireType(st.typ.attrs[nested.typeName], nested.nesting, BlockToSchemaType(nested.block.value).typ)
  {
    BlockInfoAt(block.blockTypes, i);
    var infos := BlockInfos(block.blockTypes);
    assert BlockToSchemaType(block) == SchemaType(TObject(AttributeTypes(block.attributes) + OuterTypes(infos)), infos);
    hide BlockToSchemaType, BlockInfos, HasDynamic, AttributeTypes;
    assert block.blockTypes[i].typeName in OuterTypes(infos);
  }

  /** An attribute no block has the name of keeps its own type, the last one of its name counting. */
  lemma AttributeStays(block: SchemaBlock, i: nat)
    requires Complete(block) && IsLast(block.attributes, i)
    ensures
      var st := BlockToSchemaType(block);
      var attr := block.attributes[i];
      attr.name in st.typ.attrs && (attr.name !in st.blocks ==> st.typ.attrs[attr.name] == AttributeType(attr))
  {
    AttributeTypesAt(block.attributes, i);
    hide BlockInfos, HasDynamic, AttributeTypes, AttributeType;
  }

  lemma AllAttributeTypes(attrs: seq<SchemaAttribute>)
    requires forall k :: 0 <= k < |attrs| ==> Typed(attrs[k])
    ensures forall i: nat :: IsLast(attrs, i) ==>
      attrs[i].name in AttributeTypes(attrs) && AttributeTypes(attrs)[attrs[i].name] == AttributeType(attrs[i])
  {
    forall i: nat | IsLast(attrs, i)
      ensures attrs[i].name in AttributeTypes(attrs) && AttributeTypes(attrs)[attrs[i].name] == AttributeType(attrs[i])
    {
      AttributeTypesAt(attrs, i);
    }
  }

  // ---------------------------------------------------------------- dynamic parts

  /** A fully known value the codec does not give back. */
  ghost predicate IsLost(v: Value, t: Type) {
    Inhabits(v, t) && FullyKnown(v) && !Exact(v, t)
  }

  /** A type has a dynamic part exactly when some fully known value of it does not survive the codec: the
      reason such blocks cannot share one element type. */
  lemma HasDynamicExactly(t: Type)
    ensures HasDynamic(t) <==> exists v :: IsLost(v, t)
  {
    if HasDynamic(t) {
      var v := LostValue(t);
    } else {
      forall v | Inhabits(v, t) && FullyKnown(v) ensures Exact(v, t) { KnownStaticIsExact(v, t); }
    }
  }

  lemma {:induction false} LostValue(t: Type) returns (v: Value)
    requires HasDynamic(t)
    ensures IsLost(v, t)
  {
    match t
    case TDynamic =>
      v := Value(TString, Str(""));
    case TObject(attrs) =>
      var k :| k in attrs && HasDynamic(attrs[k]);
      var lost := LostValue(attrs[k]);
      v := Value(t, Entries(map l | l in attrs :: if l == k then lost else Value(attrs[l], Null)));
      assert v.body.entries[k] == lost && MemberType(t, k) == attrs[k];
    case TList(elem) =>
      var lost := LostValue(elem);
      v := Value(t, Items([lost]));
      assert v.body.items[0] == lost && PartType(t, 0) == elem;
    case TSet(elem) =>
      var lost := LostValue(elem);
      v := Value(t, Items([lost]));
      assert v.body.items[0] == lost && PartType(t, 0) == elem;
    case TMap(elem) =>
      var lost := LostValue(elem);
      v := Value(t, Entries(map["" := lost]));
      assert v.body.entries[""] == lost && MemberType(t, "") == elem;
    case TTuple(elems) =>
      var i :| 0 <= i < |elems| && HasDynamic(elems[i]);
      var lost := LostValue(elems[i]);
      v := Value(t, Items(seq(|elems|, l requires 0 <= l < |elems| => if l == i then lost else Value(elems[l], Null))));
      assert v.body.items[i] == lost && PartType(t, i) == elems[i];
  }

  // ---------------------------------------------------------------- what is absent

  /** What stands for an absent attribute or block: null for an attribute and for a Single block, nothing
      in a List, Set or Map block, and in a Group block again what stands for each absent part. */
  ghost predicate IsDefault(v: Value, name: string, t: Type, st: SchemaType)
    decreases st
  {
    && v.typ == t
    && if name !in st.blocks then v.body == Null
       else match st.blocks[name].nesting
         case ListBlock => v.body == Items([])
         case SetBlock => v.body == Items([])
         case MapBlock => v.body == Entries(map[])
         case GroupBlock =>
           && t.TObject? && v.body.Entries? && v.body.entries.Keys == t.attrs.Keys
           && forall k :: k in t.attrs ==> IsDefault(v.body.entries[k], k, t.attrs[k], st.blocks[name].inner)
         case _ => v.body == Null
  }

  lemma {:induction false} AbsentIsDefault(name: string, t: Type, st: SchemaType)
    requires name in st.blocks ==> BlockFits(t, st.blocks[name])
    ensures IsDefault(AbsentValue(name, t, st), name, t, st)
    decreases st
  {
    if name in st.blocks && st.blocks[name].nesting == GroupBlock {
      var inner := st.blocks[name].inner;
      assert AbsentBlockValue(t, st.blocks[name]) == GroupAbsentValue(t, inner);
      forall k | k in t.attrs ensures IsDefault(AbsentValue(k, t.attrs[k], inner), k, t.attrs[k], inner) {
        AbsentIsDefault(k, t.attrs[k], inner);
      }
    }
  }

  /** Wherever an object is decoded, at any depth of any compiled schema, what the JSON leaves out
      decodes to its default: an absent attribute to null, never to something empty, and an absent List,
      Set, Map or Group block to something empty, never to null. */
  lemma AbsentDecodes(j: Json, st: SchemaType, name: string)
    requires Position(st) && st.typ.TObject? && j.JObject? && Decode(j, st).Some?
    requires name in st.typ.attrs && name !in j.members
    ensures
      var body := Decode(j, st).value.body;
      && body.Entries? && name in body.entries
      && IsDefault(body.entries[name], name, st.typ.attrs[name], st)
  {
    ChildPosition(st, name);
    AbsentIsDefault(name, st.typ.attrs[name], st);
  }

  // ---------------------------------------------------------------- what is there

  /** What j decodes to at st: null at any type, a scalar as it is written, any dynamic unknown, an item
      or member in its place as the part of its position; of an object exactly the attributes of its type. */
  ghost predicate IsDecoded(j: Json, st: SchemaType, v: Value) {
    && v.typ == st.typ
    && if j.JNull? then v.body == Null
       else match st.typ
         case TString => j.JString? && v.body == Str(j.s)
         case TBool => j.JBool? && v.body == Bool(j.b)
         case TDynamic => v.body == Unknown
         case TNumber => exists n :: IsNumber(j, n) && v.body == Num(Numbers.Round(64, n), 64)
         case TObject(attrs) =>
           && j.JObject? && v.body.Entries? && v.body.entries.Keys == attrs.Keys
           && forall k :: k in attrs && k in j.members ==>
                Decode(j.members[k], ChildType(st, k, attrs[k])) == Some(v.body.entries[k])
         case TMap(_) =>
           && j.JObject? && v.body.Entries? && v.body.entries.Keys == j.members.Keys
           && forall k :: k in j.members ==> Decode(j.members[k], ElementType(st)) == Some(v.body.entries[k])
         case TTuple(elems) =>
           && j.JArray? && v.body.Items? && |v.body.items| == |j.items| == |elems|
           && forall i :: 0 <= i < |elems| ==> Decode(j.items[i], SchemaType(elems[i], map[])) == Some(v.body.items[i])
         case _ =>
           && j.JArray? && v.body.Items? && |v.body.items| == |j.items|
           && forall i :: 0 <= i < |j.items| ==> Decode(j.items[i], ElementType(st)) == Some(v.body.items[i])
  }

  /** A number, or a string that reads as one. */
  predicate IsNumber(j: Json, n: real) {
    j == JNumber(n) || (j.JString? && NumberText.Parse(j.s) == Some(n))
  }

  /** Each part of j decodes. */
  ghost predicate PartsDecode(j: Json, st: SchemaType) {
    match st.typ
    case TObject(attrs) => j.JObject? ==>
      forall k :: k in attrs && k in j.members ==> Decode(j.members[k], ChildType(st, k, attrs[k])).Some?
    case TMap(_) => j.JObject? ==> forall k :: k in j.members ==> Decode(j.members[k], ElementType(st)).Some?
    case TTuple(elems) => j.JArray? && |j.items| == |elems| ==>
      forall i :: 0 <= i < |elems| ==> Decode(j.items[i], SchemaType(elems[i], map[])).Some?
    case _ =>
      (st.typ.TList? || st.typ.TSet?) && j.JArray? ==>
        forall i :: 0 <= i < |j.items| ==> Decode(j.items[i], ElementType(st)).Some?
  }

  /** The kind of JSON the type asks for. */
  predicate HasShape(j: Json, t: Type) {
    match t
    case TString => j.JString?
    case TBool => j.JBool?
    case TDynamic => true
    case TNumber => j.JNumber? || (j.JString? && NumberText.Parse(j.s).Some?)
    case TObject(_) => j.JObject?
    case TMap(_) => j.JObject?
    case TTuple(elems) => j.JArray? && |j.items| == |elems|
    case _ => j.JArray?
  }

  /** Decoding fails exactly on the wrong kind of JSON or when a part fails, and otherwise puts every part
      in its place. */
  lemma DecodesExactly(j: Json, st: SchemaType)
    ensures Decode(j, st).Some? <==> j.JNull? || st.typ.TDynamic? || (HasShape(j, st.typ) && PartsDecode(j, st))
    ensures Decode(j, st).Some? ==> IsDecoded(j, st, Decode(j, st).value)
  {
    if st.typ.TNumber? && j.JNumber? {
      assert IsNumber(j, j.n);
    } else if st.typ.TNumber? && j.JString? && NumberText.Parse(j.s).Some? {
      assert IsNumber(j, NumberText.Parse(j.s).value);
    }
  }

  // ---------------------------------------------------------------- JSON that comes back

  /** JSON in the form the encoder writes: every attribute written and nothing else, numbers as they are
      printed and unquoted, and nothing but null where the type is dynamic. */
  ghost predicate IsPrinted(j: Json, st: SchemaType)
    decreases j
  {
    j.JNull? || match st.typ
      case TString => j.JString?
      case TBool => j.JBool?
      case TNumber => j.JNumber? && Numbers.Literal(64, ParsedNumber(j.n).body.n) == j.n
      case TDynamic => false
      case TObject(attrs) =>
        && j.JObject? && j.members.Keys == attrs.Keys
        && forall k :: k in j.members ==> k in attrs && IsPrinted(j.members[k], ChildType(st, k, attrs[k]))
      case TMap(_) => j.JObject? && forall k :: k in j.members ==> IsPrinted(j.members[k], ElementType(st))
      case TTuple(elems) =>
        && j.JArray? && |j.items| == |elems|
        && forall i :: 0 <= i < |j.items| ==> i < |elems| && IsPrinted(j.items[i], SchemaType(elems[i], map[]))
      case _ => j.JArray? && forall i :: 0 <= i < |j.items| ==> IsPrinted(j.items[i], ElementType(st))
  }

  /** j decodes, and what it decodes to encodes as j again. */
  ghost predicate ComesBack(j: Json, st: SchemaType) {
    && Decode(j, st).Some? && WellTyped(Decode(j, st).value)
    && Encode(Decode(j, st).value) == j
  }

  /** The round trip from the other side: JSON that decodes comes back unchanged exactly when it is in the
      form the encoder writes. */
  lemma {:induction false} JsonComesBack(j: Json, st: SchemaType)
    requires Position(st) && Decode(j, st).Some?
    ensures ComesBack(j, st) <==> IsPrinted(j, st)
    decreases j
  {
    DecodeInhabits(j, st);
    InhabitantIsWellTyped(Decode(j, st).value, st.typ);
    PartsAreWellTyped(Decode(j, st).value);
    if j.JObject? && st.typ.TObject? {
      ObjectComesBack(j, st);
    } else if j.JObject? && st.typ.TMap? {
      MapComesBack(j, st);
    } else if j.JArray? && (st.typ.TList? || st.typ.TSet? || st.typ.TTuple?) {
      ItemsComeBack(j, st);
    }
  }

  lemma {:induction false} ObjectComesBack(j: Json, st: SchemaType)
    requires Position(st) && Decode(j, st).Some? && j.JObject? && st.typ.TObject?
    requires WellTyped(Decode(j, st).value)
    ensures ComesBack(j, st) <==> IsPrinted(j, st)
    decreases j, 0
  {
    var attrs := st.typ.attrs;
    var v := Decode(j, st).value;
    PartsAreWellTyped(v);
    forall k | k in attrs && k in j.members
      ensures Encode(v.body.entries[k]) == j.members[k] <==> IsPrinted(j.members[k], ChildType(st, k, attrs[k]))
    {
      assert DecodeMember(j, k, attrs[k], st).Some?;
      ChildPosition(st, k);
      JsonComesBack(j.members[k], ChildType(st, k, attrs[k]));
    }
    var members := Encode(v).members;
    assert members.Keys == attrs.Keys;
    assert forall k :: k in members ==> members[k] == Encode(v.body.entries[k]);
    hide Decode, Inhabits, Encode, ChildType;
    if j.members.Keys == attrs.Keys {
      assert members == j.members <==> forall k :: k in members ==> members[k] == j.members[k];
    }
  }

  lemma {:induction false} MapComesBack(j: Json, st: SchemaType)
    requires Position(st) && Decode(j, st).Some? && j.JObject? && st.typ.TMap?
    requires WellTyped(Decode(j, st).value)
    ensures ComesBack(j, st) <==> IsPrinted(j, st)
    decreases j, 0
  {
    var v := Decode(j, st).value;
    var elem := ElementType(st);
    PartsAreWellTyped(v);
    ElementPosition(st);
    forall k | k in j.members ensures Encode(v.body.entries[k]) == j.members[k] <==> IsPrinted(j.members[k], elem) {
      JsonComesBack(j.members[k], elem);
    }
    var members := Encode(v).members;
    assert members.Keys == j.members.Keys;
    assert forall k :: k in members ==> members[k] == Encode(v.body.entries[k]);
    hide Decode, Inhabits, Encode;
    assert members == j.members <==> forall k :: k in members ==> members[k] == j.members[k];
  }

  lemma {:induction false} ItemsComeBack(j: Json, st: SchemaType)
    requires Position(st) && Decode(j, st).Some? && j.JArray? && (st.typ.TList? || st.typ.TSet? || st.typ.TTuple?)
    requires WellTyped(Decode(j, st).value)
    ensures ComesBack(j, st) <==> IsPrinted(j, st)
    decreases j, 0
  {
    var v := Decode(j, st).value;
    PartsAreWellTyped(v);
    forall i | 0 <= i < |j.items|
      ensures Encode(v.body.items[i]) == j.items[i] <==> IsPrinted(j.items[i], PartPosition(st, i))
    {
      if !st.typ.TTuple? { ElementPosition(st); }
      JsonComesBack(j.items[i], PartPosition(st, i));
    }
    var items := Encode(v).items;
    assert |items| == |j.items|;
    assert forall i :: 0 <= i < |items| ==> items[i] == Encode(v.body.items[i]);
    hide Decode, Inhabits, Encode;
    assert items == j.items <==> forall i :: 0 <= i < |items| ==> items[i] == j.items[i];
  }
}
