/** The parts of Terraform's plugin protocol the bridge works with: wire types, values
    and provider schemas. A Go pointer that may be nil is an `Option`. */
module TfTypes {
  import opened Common
  import Numbers

  datatype Type =
    | TString
    | TNumber
    | TBool
    | TDynamic
    | TObject(attrs: map<string, Type>)
    | TList(elem: Type)
    | TSet(elem: Type)
    | TMap(elem: Type)
    | TTuple(elems: seq<Type>)

  /** A value carries its own wire type. */
  datatype Value = Value(typ: Type, body: Body)

  datatype Body =
    | Null
    | Unknown
    | Str(s: string)
    | Num(n: real, precision: int)
    | Bool(b: bool)
    | Items(items: seq<Value>)
    | Entries(entries: map<string, Value>)

  datatype BlockNesting = InvalidBlock | SingleBlock | ListBlock | SetBlock | MapBlock | GroupBlock

  datatype ObjectNesting = InvalidObject | SingleObject | ListObject | SetObject | MapObject

  datatype StringKind = Plain | Markdown

  datatype Schema = Schema(version: int, block: Option<SchemaBlock>)

  datatype SchemaBlock = SchemaBlock(
    version: int,
    attributes: seq<SchemaAttribute>,
    blockTypes: seq<SchemaNestedBlock>,
    description: string,
    descriptionKind: StringKind,
    deprecated: bool,
    deprecationMessage: string)

  datatype SchemaAttribute = SchemaAttribute(
    name: string,
    typ: Option<Type>,
    nestedType: Option<SchemaObject>,
    description: string,
    descriptionKind: StringKind,
    flags: AttributeFlags,
    deprecationMessage: string)

  datatype AttributeFlags = AttributeFlags(
    required: bool,
    optional: bool,
    computed: bool,
    sensitive: bool,
    deprecated: bool,
    writeOnly: bool)

  datatype SchemaObject = SchemaObject(attributes: seq<SchemaAttribute>, nesting: ObjectNesting)

  datatype SchemaNestedBlock = SchemaNestedBlock(
    typeName: string,
    block: Option<SchemaBlock>,
    nesting: BlockNesting,
    minItems: int,
    maxItems: int)

  /** v is a value of type t. A dynamic position holds a value of any type, or a null or
      unknown of the dynamic type itself. */
  ghost predicate Inhabits(v: Value, t: Type)
    decreases v, t.TDynamic?
  {
    if t.TDynamic? then
      if v.typ.TDynamic? then v.body.Null? || v.body.Unknown? else Inhabits(v, v.typ)
    else
      && v.typ == t
      && match v.body
         case Null => true
         case Unknown => true
         case Str(_) => t.TString?
         case Num(n, p) => t.TNumber? && p >= 1 && Numbers.Fits(p, n)
         case Bool(_) => t.TBool?
         case Items(items) =>
           if t.TTuple? then
             |items| == |t.elems| && forall i :: 0 <= i < |items| ==> Inhabits(items[i], t.elems[i])
           else
             (t.TList? || t.TSet?) && forall i :: 0 <= i < |items| ==> Inhabits(items[i], t.elem)
         case Entries(entries) =>
           if t.TObject? then
             entries.Keys == t.attrs.Keys && forall k :: k in entries ==> Inhabits(entries[k], t.attrs[k])
           else
             t.TMap? && forall k :: k in entries ==> Inhabits(entries[k], t.elem)
  }

  /** The invariant the value library keeps: a value's body fits its own type. */
  ghost predicate WellTyped(v: Value) {
    Inhabits(v, v.typ)
  }

  lemma InhabitantIsWellTyped(v: Value, t: Type)
    requires Inhabits(v, t)
    ensures WellTyped(v)
  {
  }

  lemma PartsAreWellTyped(v: Value)
    requires WellTyped(v)
    ensures v.body.Items? ==> forall i :: 0 <= i < |v.body.items| ==> WellTyped(v.body.items[i])
    ensures v.body.Entries? ==> forall k :: k in v.body.entries ==> WellTyped(v.body.entries[k])
  {
    if v.body.Items? {
      forall i | 0 <= i < |v.body.items| ensures WellTyped(v.body.items[i]) {
        InhabitantIsWellTyped(v.body.items[i], if v.typ.TTuple? then v.typ.elems[i] else v.typ.elem);
      }
    } else if v.body.Entries? {
      forall k | k in v.body.entries ensures WellTyped(v.body.entries[k]) {
        InhabitantIsWellTyped(v.body.entries[k], if v.typ.TObject? then v.typ.attrs[k] else v.typ.elem);
      }
    }
  }
}
