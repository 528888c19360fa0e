/** bridge/codec as it runs: maps and slices filled by loops, in whatever order a Go map
    yields its keys. Each method is proved equal to the function that gives it meaning. */
module CodecLoops {
  import opened Common
  import opened TfTypes
  import opened Codec

  lemma AttributeTypesGrow(attrs: seq<SchemaAttribute>, i: nat)
    requires i < |attrs| && forall k :: 0 <= k < |attrs| ==> Typed(attrs[k])
    ensures AttributeTypes(attrs[..i + 1]) == AttributeTypes(attrs[..i])[attrs[i].name := AttributeType(attrs[i])]
  {
    assert attrs[..i + 1][..i] == attrs[..i];
  }

  lemma BlockInfosGrow(nested: seq<SchemaNestedBlock>, i: nat)
    requires i < |nested|
    requires forall k :: 0 <= k < |nested| ==> nested[k].block.Some? && Complete(nested[k].block.value)
    ensures BlockInfos(nested[..i + 1]) ==
      BlockInfos(nested[..i])[nested[i].typeName :=
        BlockInfo(nested[i].nesting, BlockToSchemaType(nested[i].block.value))]
  {
    assert nested[..i + 1][..i] == nested[..i];
  }

  lemma OuterTypesGrow(types: map<string, Type>, infos: map<string, BlockInfo>, name: string, info: BlockInfo)
    ensures types + OuterTypes(infos[name := info]) ==
      (types + OuterTypes(infos))[name := OuterType(info.nesting, info.inner.typ)]
  {
  }

  method CompileAttribute(attr: SchemaAttribute) returns (t: Type)
    requires Typed(attr)
    ensures t == AttributeType(attr)
    decreases attr, 1
  {
    match attr.nestedType {
      case None => t := attr.typ.value;
      case Some(obj) => t := CompileObject(obj);
    }
  }

  method CompileObject(obj: SchemaObject) returns (t: Type)
    requires forall i :: 0 <= i < |obj.attributes| ==> Typed(obj.attributes[i])
    ensures t == WrapObject(obj.nesting, TObject(AttributeTypes(obj.attributes)))
    decreases obj, 0
  {
    var inner := map[];
    for i := 0 to |obj.attributes|
      invariant inner == AttributeTypes(obj.attributes[..i])
    {
      var attrType := CompileAttribute(obj.attributes[i]);
      AttributeTypesGrow(obj.attributes, i);
      inner := inner[obj.attributes[i].name := attrType];
    }
    assert obj.attributes[..|obj.attributes|] == obj.attributes;
    t := WrapObject(obj.nesting, TObject(inner));
  }

  method CompileBlock(block: SchemaBlock) returns (st: SchemaType)
    requires Complete(block)
    ensures st == BlockToSchemaType(block)
    decreases block
  {
    var attrTypes := map[];
    var blocks: map<string, BlockInfo> := map[];
    for i := 0 to |block.attributes|
      invariant attrTypes == AttributeTypes(block.attributes[..i])
    {
      var t := CompileAttribute(block.attributes[i]);
      AttributeTypesGrow(block.attributes, i);
      attrTypes := attrTypes[block.attributes[i].name := t];
    }
    assert block.attributes[..|block.attributes|] == block.attributes;
    ghost var fromAttributes := attrTypes;
    for i := 0 to |block.blockTypes|
      invariant blocks == BlockInfos(block.blockTypes[..i])
      invariant attrTypes == fromAttributes + OuterTypes(blocks)
    {
      var nb := block.blockTypes[i];
      var inner := CompileBlock(nb.block.value);
      BlockInfosGrow(block.blockTypes, i);
      OuterTypesGrow(fromAttributes, blocks, nb.typeName, BlockInfo(nb.nesting, inner));
      attrTypes := attrTypes[nb.typeName := OuterType(nb.nesting, inner.typ)];
      blocks := blocks[nb.typeName := BlockInfo(nb.nesting, inner)];
    }
    assert block.blockTypes[..|block.blockTypes|] == block.blockTypes;
    st := SchemaType(TObject(attrTypes), blocks);
  }

  method FillAbsentBlock(attrType: Type, block: BlockInfo) returns (v: Value)
    ensures v == AbsentBlockValue(attrType, block)
    decreases block
  {
    match block.nesting {
      case ListBlock => v := Value(attrType, Items([]));
      case SetBlock => v := Value(attrType, Items([]));
      case MapBlock => v := Value(attrType, Entries(map[]));
      case GroupBlock => v := FillGroup(attrType, block.inner);
      case _ => v := Value(attrType, Null);
    }
  }

  method FillGroup(attrType: Type, inner: SchemaType) returns (v: Value)
    ensures v == GroupAbsentValue(attrType, inner)
    decreases inner
  {
    if !attrType.TObject? {
      return Value(attrType, Null);
    }
    var attrs := attrType.attrs;
    var vals: map<string, Value> := map[];
    var todo := attrs.Keys;
    while todo != {}
      invariant todo <= attrs.Keys && vals.Keys == attrs.Keys - todo
      invariant forall k :: k in vals ==> vals[k] == AbsentValue(k, attrs[k], inner)
      decreases todo
    {
      var name :| name in todo;
      var val;
      if name in inner.blocks {
        val := FillAbsentBlock(attrs[name], inner.blocks[name]);
      } else {
        val := Value(attrs[name], Null);
      }
      vals := vals[name := val];
      todo := todo - {name};
    }
    v := Value(attrType, Entries(vals));
    assert GroupAbsentValue(attrType, inner).body.entries == vals;
  }

  method JsonToValue(raw: Json, st: SchemaType) returns (r: Option<Value>)
    ensures r == Decode(raw, st)
    decreases raw, 2
  {
    if raw.JNull? {
      return Some(Value(st.typ, Null));
    }
    match st.typ {
      case TString => r := if raw.JString? then Some(Value(TString, Str(raw.s))) else None;
      case TNumber => r := DecodeNumber(raw);
      case TBool => r := if raw.JBool? then Some(Value(TBool, Bool(raw.b))) else None;
      case TDynamic => r := Some(Value(TDynamic, Unknown));
      case TObject(_) => r := ObjectToValue(raw, st);
      case TMap(_) => r := MapToValue(raw, st);
      case TList(_) => r := ListToValue(raw, st);
      case TSet(_) => r := ListToValue(raw, st);
      case TTuple(_) => r := TupleToValue(raw, st);
    }
  }

  method ObjectToValue(raw: Json, st: SchemaType) returns (r: Option<Value>)
    requires st.typ.TObject? && !raw.JNull?
    ensures r == Decode(raw, st)
    decreases raw, 1
  {
    if !raw.JObject? {
      return None;
    }
    var attrs := st.typ.attrs;
    var vals: map<string, Value> := map[];
    var todo := attrs.Keys;
    while todo != {}
      invariant todo <= attrs.Keys && vals.Keys == attrs.Keys - todo
      invariant forall k :: k in vals ==> DecodeMember(raw, k, attrs[k], st) == Some(vals[k])
      decreases todo
    {
      var k :| k in todo;
      var v;
      if k !in raw.members {
        if k in st.blocks {
          var absent := FillAbsentBlock(attrs[k], st.blocks[k]);
          v := Some(absent);
        } else {
          v := Some(Value(attrs[k], Null));
        }
      } else {
        v := JsonToValue(raw.members[k], ChildType(st, k, attrs[k]));
      }
      assert v == DecodeMember(raw, k, attrs[k], st);
      if v.None? {
        return None;
      }
      vals := vals[k := v.value];
      todo := todo - {k};
    }
    r := Some(Value(st.typ, Entries(vals)));
    assert Decode(raw, st).value.body.entries == vals;
  }

  method MapToValue(raw: Json, st: SchemaType) returns (r: Option<Value>)
    requires st.typ.TMap? && !raw.JNull?
    ensures r == Decode(raw, st)
    decreases raw, 1
  {
    if !raw.JObject? {
      return None;
    }
    var elem := ElementType(st);
    var vals: map<string, Value> := map[];
    var todo := raw.members.Keys;
    while todo != {}
      invariant todo <= raw.members.Keys && vals.Keys == raw.members.Keys - todo
      invariant forall k :: k in vals ==> Decode(raw.members[k], elem) == Some(vals[k])
      decreases todo
    {
      var k :| k in todo;
      var v := JsonToValue(raw.members[k], elem);
      if v.None? {
        return None;
      }
      vals := vals[k := v.value];
      todo := todo - {k};
    }
    r := Some(Value(st.typ, Entries(vals)));
    assert Decode(raw, st).value.body.entries == vals;
  }

  method ListToValue(raw: Json, st: SchemaType) returns (r: Option<Value>)
    requires (st.typ.TList? || st.typ.TSet?) && !raw.JNull?
    ensures r == Decode(raw, st)
    decreases raw, 1
  {
    if !raw.JArray? {
      return None;
    }
    var elem := ElementType(st);
    var vals: seq<Value> := [];
    for i := 0 to |raw.items|
      invariant |vals| == i
      invariant forall k :: 0 <= k < i ==> Decode(raw.items[k], elem) == Some(vals[k])
    {
      var v := JsonToValue(raw.items[i], elem);
      if v.None? {
        return None;
      }
      vals := vals + [v.value];
    }
    r := Some(Value(st.typ, Items(vals)));
    assert DecodeItems(raw, st).value.body.items == vals;
  }

  method TupleToValue(raw: Json, st: SchemaType) returns (r: Option<Value>)
    requires st.typ.TTuple? && !raw.JNull?
    ensures r == Decode(raw, st)
    decreases raw, 1
  {
    if !raw.JArray? || |raw.items| != |st.typ.elems| {
      return None;
    }
    var vals: seq<Value> := [];
    for i := 0 to |raw.items|
      invariant |vals| == i
      invariant forall k :: 0 <= k < i ==> Decode(raw.items[k], SchemaType(st.typ.elems[k], map[])) == Some(vals[k])
    {
      var v := JsonToValue(raw.items[i], SchemaType(st.typ.elems[i], map[]));
      if v.None? {
        return None;
      }
      vals := vals + [v.value];
    }
    r := Some(Value(st.typ, Items(vals)));
    assert Decode(raw, st).value.body.items == vals;
  }

  method ValueToJson(v: Value) returns (j: Json)
    requires WellTyped(v)
    ensures j == Encode(v)
    decreases v
  {
    PartsAreWellTyped(v);
    match v.body {
      case Null => j := JNull;
      case Unknown => j := JNull;
      case Items(items) =>
        var out: seq<Json> := [];
        for i := 0 to |items|
          invariant |out| == i && forall k :: 0 <= k < i ==> out[k] == Encode(items[k])
        {
          var raw := ValueToJson(items[i]);
          out := out + [raw];
        }
        j := JArray(out);
        assert Encode(v).items == out;
      case Entries(entries) =>
        var out: map<string, Json> := map[];
        var todo := entries.Keys;
        while todo != {}
          invariant todo <= entries.Keys && out.Keys == entries.Keys - todo
          invariant forall k :: k in out ==> out[k] == Encode(entries[k])
          decreases todo
        {
          var k :| k in todo;
          var raw := ValueToJson(entries[k]);
          out := out[k := raw];
          todo := todo - {k};
        }
        j := JObject(out);
        assert Encode(v).members == out;
      case _ => j := Encode(v);
    }
  }
}
