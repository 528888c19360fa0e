/** What the codec promises: compiled schemas are consistent, decoding is type-safe, encoding
    then decoding settles a value, and blocks are never null unless the JSON says so. */
module CodecLaws {
  import opened Common
  import opened TfTypes
  import opened Codec
  import Numbers

  // ---------------------------------------------------------------- compiled schema types

  /** The block metadata matches the wire type, at every depth. */
  ghost predicate BlockBody(st: SchemaType)
    decreases st, 0
  {
    && st.typ.TObject?
    && st.blocks.Keys <= st.typ.attrs.Keys
    && forall k :: k in st.blocks ==> BlockFits(st.typ.attrs[k], st.blocks[k])
  }

  ghost predicate BlockFits(t: Type, info: BlockInfo)
    decreases info, 1
  {
    BlockBody(info.inner) && info.nesting != InvalidBlock && t == OuterType(info.nesting, info.inner.typ)
  }

  predicate IsCollection(nesting: BlockNesting) {
    nesting == ListBlock || nesting == SetBlock || nesting == MapBlock
  }

  /** Every schema type the decoder meets: a block body, an attribute, or a collection of blocks. */
  ghost predicate Position(st: SchemaType) {
    || BlockBody(st)
    || st.blocks == map[]
    || (exists info: BlockInfo ::
          && st.blocks == map[BLOCK_ELEMENT_MARKER := info]
          && IsCollection(info.nesting) && BlockFits(st.typ, info))
  }

  lemma {:induction false} BlockInfosFit(nested: seq<SchemaNestedBlock>)
    requires forall i :: 0 <= i < |nested| ==>
      nested[i].nesting != InvalidBlock && nested[i].block.Some? && Complete(nested[i].block.value)
    ensures forall k :: k in BlockInfos(nested) ==>
      && BlockInfos(nested)[k].nesting != InvalidBlock
      && BlockBody(BlockInfos(nested)[k].inner)
    decreases nested, 0
  {
    if nested == [] {
    } else {
      var last := nested[|nested| - 1];
      BlockInfosFit(nested[..|nested| - 1]);
      CompiledIsConsistent(last.block.value);
    }
  }

  /** The compiler keeps block metadata and wire types in step, at every depth. */
  lemma {:induction false} CompiledIsConsistent(block: SchemaBlock)
    requires Complete(block)
    ensures BlockBody(BlockToSchemaType(block))
    decreases block, 1
  {
    BlockInfosFit(block.blockTypes);
  }

  lemma ChildPosition(st: SchemaType, name: string)
    requires Position(st) && st.typ.TObject? && name in st.typ.attrs
    ensures Position(ChildType(st, name, st.typ.attrs[name]))
    ensures ChildType(st, name, st.typ.attrs[name]).typ == st.typ.attrs[name]
    ensures name in st.blocks ==> BlockFits(st.typ.attrs[name], st.blocks[name])
  {
    if name in st.blocks {
      assert BlockFits(st.typ.attrs[name], st.blocks[name]);
    }
  }

  lemma ElementPosition(st: SchemaType)
    requires Position(st) && (st.typ.TList? || st.typ.TSet? || st.typ.TMap?)
    ensures Position(ElementType(st))
    ensures ElementType(st).typ == st.typ.elem
  {
  }

  // ---------------------------------------------------------------- type safety

  lemma {:induction false} AbsentBlockInhabits(t: Type, info: BlockInfo)
    requires BlockFits(t, info)
    ensures Inhabits(AbsentBlockValue(t, info), t)
    decreases info, 1
  {
    if info.nesting == GroupBlock {
      forall k | k in t.attrs ensures Inhabits(AbsentValue(k, t.attrs[k], info.inner), t.attrs[k]) {
        if k in info.inner.blocks {
          AbsentBlockInhabits(t.attrs[k], info.inner.blocks[k]);
        }
      }
    }
  }

  /** Whatever decoding accepts is a value of the compiled type. */
  lemma {:induction false} DecodeInhabits(j: Json, st: SchemaType)
    requires Position(st) && Decode(j, st).Some?
    ensures Inhabits(Decode(j, st).value, st.typ)
    decreases j
  {
    if j.JObject? && st.typ.TObject? {
      forall k | k in st.typ.attrs
        ensures Inhabits(DecodeMember(j, k, st.typ.attrs[k], st).value, st.typ.attrs[k])
      {
        ChildPosition(st, k);
        if k in j.members {
          DecodeInhabits(j.members[k], ChildType(st, k, st.typ.attrs[k]));
        } else if k in st.blocks {
          AbsentBlockInhabits(st.typ.attrs[k], st.blocks[k]);
        }
      }
    } else if j.JObject? && st.typ.TMap? {
      ElementPosition(st);
      forall k | k in j.members ensures Inhabits(Decode(j.members[k], ElementType(st)).value, st.typ.elem) {
        DecodeInhabits(j.members[k], ElementType(st));
      }
    } else if j.JArray? && (st.typ.TList? || st.typ.TSet?) {
      ElementPosition(st);
      forall i | 0 <= i < |j.items| ensures Inhabits(Decode(j.items[i], ElementType(st)).value, st.typ.elem) {
        DecodeInhabits(j.items[i], ElementType(st));
      }
    } else if j.JArray? && st.typ.TTuple? {
      forall i | 0 <= i < |j.items|
        ensures Inhabits(Decode(j.items[i], SchemaType(st.typ.elems[i], map[])).value, st.typ.elems[i])
      {
        DecodeInhabits(j.items[i], SchemaType(st.typ.elems[i], map[]));
      }
    }
  }

  // ---------------------------------------------------------------- round trip

  /** A number held at precision p, printed and parsed again. */
  function Reparsed(n: real, p: int): real {
    Numbers.Round(Numbers.PARSED, if p >= 1 && Numbers.Fits(p, n) then Numbers.Literal(p, n) else n)
  }

  /** What survives encoding a value and decoding it at type t: unknowns become null, a known value at
      a dynamic position becomes unknown, and numbers are what their literals parse to. */
  function Settle(v: Value, t: Type): (r: Value)
    decreases v
  {
    if v.body.Null? || v.body.Unknown? then Value(t, Null)
    else if t.TDynamic? then Value(TDynamic, Unknown)
    else match v.body
      case Num(n, p) => Value(t, Num(Reparsed(n, p), Numbers.PARSED))
      case Items(items) =>
        Value(t, Items(seq(|items|, i requires 0 <= i < |items| => Settle(items[i], PartType(t, i)))))
      case Entries(entries) =>
        Value(t, Entries(map k | k in entries :: Settle(entries[k], MemberType(t, k))))
      case _ => Value(t, v.body)
  }

  function PartType(t: Type, i: nat): Type {
    match t
    case TTuple(elems) => if i < |elems| then elems[i] else TDynamic
    case TList(elem) => elem
    case TSet(elem) => elem
    case _ => TDynamic
  }

  function MemberType(t: Type, k: string): Type {
    match t
    case TObject(attrs) => if k in attrs then attrs[k] else TDynamic
    case TMap(elem) => elem
    case _ => TDynamic
  }

  /** Decoding an encoded value always succeeds, and yields exactly the settled value: on every
      compiled schema, the dynamic fallbacks included, and for every value of its type. */
  lemma {:induction false} DecodeEncodeSettles(v: Value, st: SchemaType)
    requires Position(st) && Inhabits(v, st.typ)
    ensures WellTyped(v)
    ensures Decode(Encode(v), st) == Some(Settle(v, st.typ))
    decreases v
  {
    InhabitantIsWellTyped(v, st.typ);
    PartsAreWellTyped(v);
    if v.body.Items? && !st.typ.TDynamic? {
      ItemsSettle(v, st);
    } else if v.body.Entries? && !st.typ.TDynamic? {
      EntriesSettle(v, st);
    }
  }

  lemma {:induction false} ItemsSettle(v: Value, st: SchemaType)
    requires Position(st) && Inhabits(v, st.typ) && !st.typ.TDynamic? && v.body.Items? && WellTyped(v)
    ensures Decode(Encode(v), st) == Some(Settle(v, st.typ))
    decreases v, 0
  {
    var items := v.body.items;
    PartsAreWellTyped(v);
    var j := Encode(v);
    forall i | 0 <= i < |items|
      ensures Decode(j.items[i], PartPosition(st, i)) == Some(Settle(items[i], PartType(st.typ, i)))
    {
      if !st.typ.TTuple? { ElementPosition(st); }
      DecodeEncodeSettles(items[i], PartPosition(st, i));
    }
    assert Decode(j, st).Some?;
    assert Decode(j, st).value.body.items == Settle(v, st.typ).body.items;
  }

  function PartPosition(st: SchemaType, i: nat): SchemaType {
    if st.typ.TTuple? then SchemaType(PartType(st.typ, i), map[]) else ElementType(st)
  }

  function MemberPosition(st: SchemaType, k: string): SchemaType {
    if st.typ.TObject? then ChildType(st, k, MemberType(st.typ, k)) else ElementType(st)
  }

  lemma {:induction false} EntriesSettle(v: Value, st: SchemaType)
    requires Position(st) && Inhabits(v, st.typ) && !st.typ.TDynamic? && v.body.Entries? && WellTyped(v)
    ensures Decode(Encode(v), st) == Some(Settle(v, st.typ))
    decreases v, 0
  {
    var entries := v.body.entries;
    PartsAreWellTyped(v);
    var j := Encode(v);
    forall k | k in entries
      ensures Decode(j.members[k], MemberPosition(st, k)) == Some(Settle(entries[k], MemberType(st.typ, k)))
    {
      if st.typ.TObject? { ChildPosition(st, k); } else { ElementPosition(st); }
      DecodeEncodeSettles(entries[k], MemberPosition(st, k));
    }
    if st.typ.TObject? { ObjectSettles(v, st); } else { MapSettles(v, st); }
  }

  lemma ObjectSettles(v: Value, st: SchemaType)
    requires Inhabits(v, st.typ) && st.typ.TObject? && v.body.Entries? && WellTyped(v)
    requires forall k :: k in v.body.entries ==>
      Decode(Encode(v).members[k], MemberPosition(st, k)) == Some(Settle(v.body.entries[k], MemberType(st.typ, k)))
    ensures Decode(Encode(v), st) == Some(Settle(v, st.typ))
  {
    var j := Encode(v);
    assert Decode(j, st).Some?;
    assert Decode(j, st).value.body.entries == Settle(v, st.typ).body.entries;
  }

  lemma MapSettles(v: Value, st: SchemaType)
    requires Inhabits(v, st.typ) && st.typ.TMap? && v.body.Entries? && WellTyped(v)
    requires forall k :: k in v.body.entries ==>
      Decode(Encode(v).members[k], MemberPosition(st, k)) == Some(Settle(v.body.entries[k], MemberType(st.typ, k)))
    ensures Decode(Encode(v), st) == Some(Settle(v, st.typ))
  {
    var j := Encode(v);
    assert Decode(j, st).Some?;
    assert Decode(j, st).value.body.entries == Settle(v, st.typ).body.entries;
  }

  /** The same value, numbers compared as the value library does: by value, whatever their precision. */
  ghost predicate SameValue(v: Value, w: Value)
    decreases v
  {
    && v.typ == w.typ
    && match v.body
       case Num(n, _) => w.body.Num? && w.body.n == n
       case Items(items) =>
         && w.body.Items? && |w.body.items| == |items|
         && forall i :: 0 <= i < |items| ==> SameValue(items[i], w.body.items[i])
       case Entries(entries) =>
         && w.body.Entries? && w.body.entries.Keys == entries.Keys
         && forall k :: k in entries ==> SameValue(entries[k], w.body.entries[k])
       case _ => w.body == v.body
  }

  /** Nothing in v is lost by the codec: no unknown anywhere, every number survives being printed at its
      own precision, and each dynamic position holds only a null of the dynamic type. */
  ghost predicate Exact(v: Value, t: Type)
    decreases v
  {
    && !v.body.Unknown?
    && (t.TDynamic? ==> v == Value(TDynamic, Null))
    && (v.body.Num? ==> v.body.precision >= 1 && Numbers.Survives(v.body.precision, v.body.n))
    && (v.body.Items? ==> forall i :: 0 <= i < |v.body.items| ==> Exact(v.body.items[i], PartType(t, i)))
    && (v.body.Entries? ==> forall k :: k in v.body.entries ==> Exact(v.body.entries[k], MemberType(t, k)))
  }

  lemma {:induction false} SettleFixesExact(v: Value, t: Type)
    requires Inhabits(v, t)
    ensures SameValue(v, Settle(v, t)) <==> Exact(v, t)
    decreases v
  {
    if t.TDynamic? || v.body.Null? || v.body.Unknown? {
    } else if v.body.Num? {
      Numbers.SurvivesExactly(v.body.precision, v.body.n);
    } else if v.body.Items? {
      var items := v.body.items;
      forall i | 0 <= i < |items|
        ensures SameValue(items[i], Settle(items[i], PartType(t, i))) <==> Exact(items[i], PartType(t, i))
      {
        SettleFixesExact(items[i], PartType(t, i));
      }
    } else if v.body.Entries? {
      var entries := v.body.entries;
      forall k | k in entries
        ensures SameValue(entries[k], Settle(entries[k], MemberType(t, k))) <==> Exact(entries[k], MemberType(t, k))
      {
        SettleFixesExact(entries[k], MemberType(t, k));
      }
    }
  }

  /** Encoding v and decoding the JSON under st gives v back. */
  ghost predicate RoundTrips(v: Value, st: SchemaType) {
    && WellTyped(v) && Decode(Encode(v), st).Some?
    && SameValue(v, Decode(Encode(v), st).value)
  }

  /** The round trip, with its exact condition: under any compiled schema, decoding the encoding
      of a value of its type returns that very value if and only if the value is exact. */
  lemma RoundTrip(block: SchemaBlock, v: Value)
    requires Complete(block)
    requires Inhabits(v, BlockToSchemaType(block).typ)
    ensures RoundTrips(v, BlockToSchemaType(block)) <==> Exact(v, BlockToSchemaType(block).typ)
  {
    var st := BlockToSchemaType(block);
    CompiledIsConsistent(block);
    DecodeEncodeSettles(v, st);
    SettleFixesExact(v, st.typ);
  }

  /** No unknowns, and only numbers that 64 bits hold: integers at any precision, others at 64 or more. */
  ghost predicate FullyKnown(v: Value) {
    && !v.body.Unknown?
    && (v.body.Num? ==> IsHeldIn64(v.body.n, v.body.precision))
    && (v.body.Items? ==> forall i :: 0 <= i < |v.body.items| ==> FullyKnown(v.body.items[i]))
    && (v.body.Entries? ==> forall k :: k in v.body.entries ==> FullyKnown(v.body.entries[k]))
  }

  predicate IsHeldIn64(n: real, p: int) {
    Numbers.Fits(Numbers.PARSED, n) && (Numbers.IsInteger(n) || p >= Numbers.PARSED)
  }

  lemma {:induction false} KnownStaticIsExact(v: Value, t: Type)
    requires Inhabits(v, t) && !HasDynamic(t) && FullyKnown(v)
    ensures Exact(v, t)
    decreases v
  {
    if v.body.Items? {
      forall i | 0 <= i < |v.body.items| ensures Exact(v.body.items[i], PartType(t, i)) {
        KnownStaticIsExact(v.body.items[i], PartType(t, i));
      }
    } else if v.body.Entries? {
      forall k | k in v.body.entries ensures Exact(v.body.entries[k], MemberType(t, k)) {
        KnownStaticIsExact(v.body.entries[k], MemberType(t, k));
      }
    }
  }

  /** On a schema whose type has no dynamic part, every fully known value round-trips. */
  lemma StaticRoundTrip(block: SchemaBlock, v: Value)
    requires Complete(block)
    requires !HasDynamic(BlockToSchemaType(block).typ)
    requires Inhabits(v, BlockToSchemaType(block).typ) && FullyKnown(v)
    ensures RoundTrips(v, BlockToSchemaType(block))
  {
    KnownStaticIsExact(v, BlockToSchemaType(block).typ);
    RoundTrip(block, v);
  }

  /** A schema with one number, and a float64 as a provider may send it. */
  function OneNumber(): SchemaBlock {
    SchemaBlock(0, [SchemaAttribute("x", Some(TNumber), None, "", Plain,
      AttributeFlags(false, false, false, false, false, false), "")], [], "", Plain, false, "")
  }

  function Tenth(): Value {
    Value(TObject(map["x" := TNumber]),
      Entries(map["x" := Value(TNumber, Num(Numbers.TENTH, Numbers.FLOAT64))]))
  }

  lemma {:induction false} OneNumberType()
    ensures Complete(OneNumber()) && BlockToSchemaType(OneNumber()) == SchemaType(TObject(map["x" := TNumber]), map[])
    ensures !HasDynamic(TObject(map["x" := TNumber]))
  {
    var attributes := OneNumber().attributes;
    assert AttributeTypes(attributes[..0]) == map[];
    assert AttributeTypes(attributes) == map["x" := TNumber];
    assert BlockInfos(OneNumber().blockTypes) == map[];
    assert OuterTypes(map[]) == map[];
    assert map["x" := TNumber] + map[] == map["x" := TNumber];
  }

  lemma {:induction false} LostNumber(n: real, p: Numbers.Precision)
    requires Numbers.Fits(p, n) && !Numbers.Survives(p, n)
    ensures Inhabits(Value(TNumber, Num(n, p)), TNumber) && !Exact(Value(TNumber, Num(n, p)), TNumber)
  {
    hide Numbers.Fits, Numbers.Survives;
  }

  lemma {:induction false} OneEntry(x: Value)
    requires Inhabits(x, TNumber) && !Exact(x, TNumber)
    ensures
      var v := Value(TObject(map["x" := TNumber]), Entries(map["x" := x]));
      Inhabits(v, v.typ) && !Exact(v, v.typ)
  {
    var v := Value(TObject(map["x" := TNumber]), Entries(map["x" := x]));
    assert v.body.entries.Keys == v.typ.attrs.Keys;
    assert "x" in v.body.entries;
    assert MemberType(v.typ, "x") == TNumber;
  }

  lemma {:induction false} TenthIsNotExact()
    ensures Inhabits(Tenth(), TObject(map["x" := TNumber])) && !Exact(Tenth(), TObject(map["x" := TNumber]))
  {
    hide Inhabits, Exact, Numbers.Fits, Numbers.Survives;
    Numbers.TenthIsLost();
    LostNumber(Numbers.TENTH, Numbers.FLOAT64);
    OneEntry(Tenth().body.entries["x"]);
  }

  /** A float64 need not come back, though it has far less than 64 bits: one tenth prints as 0.1, which
      parses at 64 bits to another number. */
  lemma {:induction false} Float64IsLost()
    ensures Complete(OneNumber()) && !HasDynamic(BlockToSchemaType(OneNumber()).typ)
    ensures Inhabits(Tenth(), BlockToSchemaType(OneNumber()).typ) && Numbers.Fits(Numbers.PARSED, Numbers.TENTH)
    ensures !RoundTrips(Tenth(), BlockToSchemaType(OneNumber()))
  {
    OneNumberType();
    TenthIsNotExact();
    Numbers.TenthIsLost();
    hide Complete, BlockToSchemaType, Inhabits, Exact, RoundTrips, Numbers.Fits;
    RoundTrip(OneNumber(), Tenth());
  }

  // ---------------------------------------------------------------- normalisation

  /** The values decoding produces: numbers have 64 bits, and unknowns sit only at dynamic positions. */
  ghost predicate Normal(v: Value, t: Type)
    decreases v
  {
    && (if t.TDynamic? then v.typ.TDynamic? && (v.body.Null? || v.body.Unknown?) else !v.body.Unknown?)
    && (v.body.Num? ==> v.body.precision == Numbers.PARSED)
    && (v.body.Items? ==> forall i :: 0 <= i < |v.body.items| ==> Normal(v.body.items[i], PartType(t, i)))
    && (v.body.Entries? ==> forall k :: k in v.body.entries ==> Normal(v.body.entries[k], MemberType(t, k)))
  }

  lemma {:induction false} AbsentBlockIsNormal(t: Type, info: BlockInfo)
    requires BlockFits(t, info)
    ensures Normal(AbsentBlockValue(t, info), t)
    decreases info, 1
  {
    if info.nesting == GroupBlock {
      forall k | k in t.attrs ensures Normal(AbsentValue(k, t.attrs[k], info.inner), t.attrs[k]) {
        if k in info.inner.blocks {
          AbsentBlockIsNormal(t.attrs[k], info.inner.blocks[k]);
        }
      }
    }
  }

  lemma {:induction false} DecodeIsNormal(j: Json, st: SchemaType)
    requires Position(st) && Decode(j, st).Some?
    ensures Normal(Decode(j, st).value, st.typ)
    decreases j
  {
    var v := Decode(j, st).value;
    if j.JObject? && st.typ.TObject? {
      forall k | k in st.typ.attrs
        ensures Normal(DecodeMember(j, k, st.typ.attrs[k], st).value, st.typ.attrs[k])
      {
        ChildPosition(st, k);
        if k in j.members {
          DecodeIsNormal(j.members[k], ChildType(st, k, st.typ.attrs[k]));
        } else if k in st.blocks {
          AbsentBlockIsNormal(st.typ.attrs[k], st.blocks[k]);
        }
      }
    } else if j.JObject? && st.typ.TMap? {
      ElementPosition(st);
      forall k | k in j.members ensures Normal(Decode(j.members[k], ElementType(st)).value, st.typ.elem) {
        DecodeIsNormal(j.members[k], ElementType(st));
      }
    } else if j.JArray? && v.body.Items? {
      forall i | 0 <= i < |j.items|
        ensures Normal(Decode(j.items[i], PartPosition(st, i)).value, PartType(st.typ, i))
      {
        if !st.typ.TTuple? { ElementPosition(st); }
        DecodeIsNormal(j.items[i], PartPosition(st, i));
      }
    }
  }

  lemma {:induction false} SettledEncodesAlike(v: Value, t: Type)
    requires Inhabits(v, t) && Normal(v, t)
    ensures WellTyped(v) && WellTyped(Settle(v, t)) && Encode(Settle(v, t)) == Encode(v)
    ensures Inhabits(Settle(v, t), t)
    decreases v
  {
    InhabitantIsWellTyped(v, t);
    PartsAreWellTyped(v);
    if t.TDynamic? || v.body.Null? || v.body.Unknown? {
    } else if v.body.Items? {
      forall i | 0 <= i < |v.body.items| ensures EncodesAlike(v.body.items[i], PartType(t, i)) {
        SettledEncodesAlike(v.body.items[i], PartType(t, i));
      }
      SettledItemsEncodeAlike(v, t);
    } else if v.body.Entries? {
      forall k | k in v.body.entries ensures EncodesAlike(v.body.entries[k], MemberType(t, k)) {
        SettledEncodesAlike(v.body.entries[k], MemberType(t, k));
      }
      SettledEntriesEncodeAlike(v, t);
    }
  }

  ghost predicate EncodesAlike(v: Value, t: Type) {
    WellTyped(v) && Inhabits(Settle(v, t), t) && WellTyped(Settle(v, t)) && Encode(Settle(v, t)) == Encode(v)
  }

  lemma SettledItemsEncodeAlike(v: Value, t: Type)
    requires Inhabits(v, t) && WellTyped(v) && !t.TDynamic? && v.body.Items?
    requires forall i :: 0 <= i < |v.body.items| ==> EncodesAlike(v.body.items[i], PartType(t, i))
    ensures EncodesAlike(v, t)
  {
    var items := v.body.items;
    assert forall i :: 0 <= i < |items| ==> Inhabits(Settle(items[i], PartType(t, i)), PartType(t, i)) by {
      forall i | 0 <= i < |items| ensures Inhabits(Settle(items[i], PartType(t, i)), PartType(t, i)) {
        assert EncodesAlike(items[i], PartType(t, i));
      }
    }
    assert Inhabits(Settle(v, t), t);
    InhabitantIsWellTyped(Settle(v, t), t);
    assert Encode(Settle(v, t)).items == Encode(v).items by {
      forall i | 0 <= i < |items| ensures Encode(Settle(v, t)).items[i] == Encode(v).items[i] {
        assert EncodesAlike(items[i], PartType(t, i));
      }
    }
  }

  lemma EntriesInhabit(entries: map<string, Value>, t: Type)
    requires if t.TObject? then entries.Keys == t.attrs.Keys else t.TMap?
    requires forall k :: k in entries ==> Inhabits(entries[k], MemberType(t, k))
    ensures Inhabits(Value(t, Entries(entries)), t)
  {
    forall k | k in entries ensures Inhabits(entries[k], if t.TObject? then t.attrs[k] else t.elem) {
      assert Inhabits(entries[k], MemberType(t, k));
    }
  }

  lemma SettledEntriesInhabit(v: Value, t: Type)
    requires Inhabits(v, t) && !t.TDynamic? && v.body.Entries?
    requires forall k :: k in v.body.entries ==> Inhabits(Settle(v.body.entries[k], MemberType(t, k)), MemberType(t, k))
    ensures Inhabits(Settle(v, t), t)
  {
    assert if t.TObject? then v.body.entries.Keys == t.attrs.Keys else t.TMap?;
    hide Inhabits, MemberType;
    var settled := Settle(v, t).body.entries;
    assert settled.Keys == v.body.entries.Keys;
    EntriesInhabit(settled, t);
  }

  lemma SettledEntriesEncodeAlike(v: Value, t: Type)
    requires Inhabits(v, t) && WellTyped(v) && !t.TDynamic? && v.body.Entries?
    requires forall k :: k in v.body.entries ==> EncodesAlike(v.body.entries[k], MemberType(t, k))
    ensures EncodesAlike(v, t)
  {
    var entries := v.body.entries;
    forall k | k in entries ensures Inhabits(Settle(entries[k], MemberType(t, k)), MemberType(t, k)) {
      assert EncodesAlike(entries[k], MemberType(t, k));
    }
    SettledEntriesInhabit(v, t);
    InhabitantIsWellTyped(Settle(v, t), t);
    SettledEntriesEncode(v, t);
  }

  lemma SettledEntriesEncode(v: Value, t: Type)
    requires WellTyped(v) && WellTyped(Settle(v, t)) && !t.TDynamic? && v.body.Entries?
    requires forall k :: k in v.body.entries ==> EncodesAlike(v.body.entries[k], MemberType(t, k))
    ensures Encode(Settle(v, t)) == Encode(v)
  {
    hide Inhabits, WellTyped, MemberType;
    var entries := v.body.entries;
    var before, after := Encode(v).members, Encode(Settle(v, t)).members;
    forall k | k in entries ensures after[k] == before[k] {
      assert EncodesAlike(entries[k], MemberType(t, k));
    }
    assert after == before;
  }

  /** Normalising JSON through the codec is idempotent on every compiled schema: what was decoded
      decodes again after encoding, and encodes to the same JSON from then on. */
  lemma NormalisationIsIdempotent(block: SchemaBlock, j: Json)
    requires Complete(block)
    requires Decode(j, BlockToSchemaType(block)).Some?
    ensures
      var st := BlockToSchemaType(block);
      var v := Decode(j, st).value;
      && WellTyped(v)
      && Decode(Encode(v), st).Some?
      && WellTyped(Decode(Encode(v), st).value)
      && Encode(Decode(Encode(v), st).value) == Encode(v)
  {
    var st := BlockToSchemaType(block);
    var v := Decode(j, st).value;
    CompiledIsConsistent(block);
    DecodeInhabits(j, st);
    DecodeIsNormal(j, st);
    DecodeEncodeSettles(v, st);
    SettledEncodesAlike(v, st.typ);
  }

  // ---------------------------------------------------------------- null-free blocks

  /** j has no explicit null at a block position or block element, as far as decoding looks. */
  ghost predicate NoBlockNulls(j: Json, st: SchemaType)
    requires BlockBody(st)
    decreases j, 0
  {
    j.JObject? ==>
      forall k :: k in st.blocks && k in j.members ==> CleanBlock(j.members[k], st.typ.attrs[k], st.blocks[k])
  }

  ghost predicate CleanBlock(j: Json, t: Type, info: BlockInfo)
    requires BlockFits(t, info)
    decreases j, 1
  {
    if info.nesting == SingleBlock then NoBlockNulls(j, info.inner)
    else if info.nesting == GroupBlock then !j.JNull? && NoBlockNulls(j, info.inner)
    else if info.nesting == MapBlock then !j.JNull? && (j.JObject? && t.TMap? ==>
      forall k :: k in j.members ==> !j.members[k].JNull? && NoBlockNulls(j.members[k], info.inner))
    else !j.JNull? && (j.JArray? ==>
      forall i :: 0 <= i < |j.items| ==> !j.items[i].JNull? && NoBlockNulls(j.items[i], info.inner))
  }

  /** No List, Set, Map or Group block reached in v is null, nor is any element of one. */
  ghost predicate BlocksFilled(v: Value, st: SchemaType)
    requires BlockBody(st)
    decreases v, 0
  {
    v.body.Entries? ==>
      forall k :: k in st.blocks && k in v.body.entries ==> FilledBlock(v.body.entries[k], st.typ.attrs[k], st.blocks[k])
  }

  ghost predicate FilledBlock(v: Value, t: Type, info: BlockInfo)
    requires BlockFits(t, info)
    decreases v, 1
  {
    if info.nesting == SingleBlock then BlocksFilled(v, info.inner)
    else if info.nesting == GroupBlock then !v.body.Null? && BlocksFilled(v, info.inner)
    else if info.nesting == MapBlock then !v.body.Null? && (v.body.Entries? ==>
      forall k :: k in v.body.entries ==> !v.body.entries[k].body.Null? && BlocksFilled(v.body.entries[k], info.inner))
    else !v.body.Null? && (v.body.Items? ==>
      forall i :: 0 <= i < |v.body.items| ==> !v.body.items[i].body.Null? && BlocksFilled(v.body.items[i], info.inner))
  }

  lemma {:induction false} AbsentBlockIsFilled(t: Type, info: BlockInfo)
    requires BlockFits(t, info)
    ensures FilledBlock(AbsentBlockValue(t, info), t, info)
    decreases info, 1
  {
    if info.nesting == GroupBlock {
      forall k | k in info.inner.blocks
        ensures FilledBlock(AbsentValue(k, t.attrs[k], info.inner), t.attrs[k], info.inner.blocks[k])
      {
        AbsentBlockIsFilled(t.attrs[k], info.inner.blocks[k]);
      }
    }
  }

  lemma {:induction false} DecodeFills(j: Json, st: SchemaType)
    requires BlockBody(st) && Decode(j, st).Some?
    ensures NoBlockNulls(j, st) <==> BlocksFilled(Decode(j, st).value, st)
    decreases j, 0
  {
    if j.JObject? {
      forall k | k in st.blocks
        ensures k in j.members ==>
          (CleanBlock(j.members[k], st.typ.attrs[k], st.blocks[k]) <==>
           FilledBlock(DecodeMember(j, k, st.typ.attrs[k], st).value, st.typ.attrs[k], st.blocks[k]))
        ensures k !in j.members ==>
          FilledBlock(DecodeMember(j, k, st.typ.attrs[k], st).value, st.typ.attrs[k], st.blocks[k])
      {
        assert BlockFits(st.typ.attrs[k], st.blocks[k]);
        if k in j.members {
          assert DecodeMember(j, k, st.typ.attrs[k], st).Some?;
          DecodeFillsBlock(j.members[k], st.typ.attrs[k], st.blocks[k]);
          assert ChildType(st, k, st.typ.attrs[k]) == BlockPosition(st.typ.attrs[k], st.blocks[k]);
        } else {
          AbsentBlockIsFilled(st.typ.attrs[k], st.blocks[k]);
        }
      }
    }
  }

  function BlockPosition(t: Type, info: BlockInfo): SchemaType {
    if IsCollection(info.nesting) then SchemaType(t, map[BLOCK_ELEMENT_MARKER := info]) else info.inner
  }

  lemma {:induction false} DecodeFillsBlock(j: Json, t: Type, info: BlockInfo)
    requires BlockFits(t, info) && Decode(j, BlockPosition(t, info)).Some?
    ensures CleanBlock(j, t, info) <==> FilledBlock(Decode(j, BlockPosition(t, info)).value, t, info)
    decreases j, 1
  {
    var st := BlockPosition(t, info);
    if !IsCollection(info.nesting) {
      DecodeFills(j, info.inner);
    } else if j.JArray? && (t.TList? || t.TSet?) {
      var items := Decode(j, st).value.body.items;
      forall i | 0 <= i < |j.items|
        ensures Decode(j.items[i], info.inner) == Some(items[i])
        ensures NoBlockNulls(j.items[i], info.inner) <==> BlocksFilled(items[i], info.inner)
        ensures j.items[i].JNull? <==> items[i].body.Null?
      {
        DecodeFills(j.items[i], info.inner);
      }
    } else if j.JObject? && t.TMap? {
      var entries := Decode(j, st).value.body.entries;
      forall k | k in j.members
        ensures Decode(j.members[k], info.inner) == Some(entries[k])
        ensures NoBlockNulls(j.members[k], info.inner) <==> BlocksFilled(entries[k], info.inner)
        ensures j.members[k].JNull? <==> entries[k].body.Null?
      {
        DecodeFills(j.members[k], info.inner);
      }
    }
  }

  /** Provider code that assumes blocks are never null is safe exactly when the JSON has no
      explicit null at a block: absence alone never decodes to a null List, Set, Map or Group. */
  lemma BlocksAreNullFree(block: SchemaBlock, j: Json)
    requires Complete(block)
    requires Decode(j, BlockToSchemaType(block)).Some?
    ensures
      var st := BlockToSchemaType(block);
      && BlockBody(st)
      && Inhabits(Decode(j, st).value, st.typ)
      && (NoBlockNulls(j, st) <==> BlocksFilled(Decode(j, st).value, st))
  {
    CompiledIsConsistent(block);
    DecodeInhabits(j, BlockToSchemaType(block));
    DecodeFills(j, BlockToSchemaType(block));
  }

  lemma EmptyObjectDecodesToAbsent(inner: SchemaType)
    requires BlockBody(inner)
    ensures Decode(JObject(map[]), inner) == Some(GroupAbsentValue(inner.typ, inner))
  {
    var nothing := JObject(map[]);
    var attrs := inner.typ.attrs;
    forall k | k in attrs ensures DecodeMember(nothing, k, attrs[k], inner) == Some(AbsentValue(k, attrs[k], inner)) {
      assert k !in nothing.members;
    }
    assert Decode(nothing, inner).Some?;
    assert Decode(nothing, inner).value.body.entries == GroupAbsentValue(inner.typ, inner).body.entries;
  }

  /** Leaving a Group block out of an object decodes exactly as writing it as `{}`. */
  lemma AbsentGroupIsEmptyObject(members: map<string, Json>, st: SchemaType, name: string)
    requires BlockBody(st) && name in st.blocks && st.blocks[name].nesting == GroupBlock
    ensures Decode(JObject(members - {name}), st) == Decode(JObject(members[name := JObject(map[])]), st)
  {
    var absent := JObject(members - {name});
    var empty := JObject(members[name := JObject(map[])]);
    var attrs := st.typ.attrs;
    var inner := st.blocks[name].inner;
    assert BlockFits(attrs[name], st.blocks[name]);
    EmptyObjectDecodesToAbsent(inner);
    forall k | k in attrs ensures DecodeMember(absent, k, attrs[k], st) == DecodeMember(empty, k, attrs[k], st) {
      if k == name {
        assert name !in absent.members && empty.members[name] == JObject(map[]);
        assert ChildType(st, k, attrs[k]) == inner;
        assert AbsentBlockValue(attrs[k], st.blocks[k]) == GroupAbsentValue(attrs[k], inner);
        assert AbsentValue(k, attrs[k], st) == AbsentBlockValue(attrs[k], st.blocks[k]);
      } else {
        assert k in absent.members <==> k in members;
        assert k in empty.members <==> k in members;
      }
    }
    if Decode(absent, st).Some? {
      assert Decode(absent, st).value.body.entries == Decode(empty, st).value.body.entries;
    }
  }
}
