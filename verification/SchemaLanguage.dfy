/**
 The schema language: reading a JSON document as a schema under the limits of
 256 descriptor nodes and 16 levels of nesting.

 Read and its companions say what a document denotes when there are no limits.
 The parsing methods thread a mutable counter and a depth through their mutual
 recursion and stop at the first violation; their contracts say that this
 accepts exactly the documents whose unlimited reading stays within both limits.
 */
module SchemaLanguage {
  import opened Base

  const MAX_SCHEMA_DEPTH := 16
  const MAX_SCHEMA_FIELDS := 256

  datatype Json =
    | JNull
    | JBool(b: bool)
    | JNumber(n: real)
    | JString(s: string)
    | JArray(elements: seq<Json>)
    | JObject(entries: seq<Entry>)

  datatype Entry = Entry(key: string, value: Json)

  datatype ScalarType = StringType | BoolType | UintType | IntType | BytesType | AddressType

  datatype Descriptor =
    | Scalar(scalar: ScalarType, optional: bool)
    | Array(items: Descriptor, optional: bool)
    | Object(fields: seq<Field>, optional: bool)

  datatype Field = Field(name: string, descriptor: Descriptor)

  datatype SchemaDefinition = SchemaDefinition(
    name: string,
    description: string,
    fields: seq<Field>,
    ext: Option<string>,
    supersedes: Option<string>)

  // ---- Measures -----------------------------------------------------------

  /** The nodes counted below a descriptor; a named field itself counts where it is declared. */
  function Inner(d: Descriptor): nat
    decreases d
  {
    match d
    case Scalar(_, _) => 0
    case Array(items, _) => 1 + Inner(items)
    case Object(fields, _) => CountFields(fields)
  }

  function CountFields(fields: seq<Field>): nat
    decreases fields
  {
    if fields == [] then 0
    else
      var last := fields[|fields| - 1];
      CountFields(fields[..|fields| - 1]) + 1 + Inner(last.descriptor)
  }

  function Nesting(d: Descriptor): nat
    decreases d
  {
    match d
    case Scalar(_, _) => 1
    case Array(items, _) => 1 + Nesting(items)
    case Object(fields, _) => 1 + FieldsNesting(fields)
  }

  function FieldsNesting(fields: seq<Field>): nat
    decreases fields
  {
    if fields == [] then 0
    else
      var last := fields[|fields| - 1];
      Max(FieldsNesting(fields[..|fields| - 1]), Nesting(last.descriptor))
  }

  // ---- Lexical rules ------------------------------------------------------

  predicate IsNameStart(c: char) {
    'A' <= c <= 'Z' || 'a' <= c <= 'z' || c == '_'
  }

  predicate IsFieldName(s: string) {
    && 1 <= |s| <= 64
    && IsNameStart(s[0])
    && forall i :: 1 <= i < |s| ==> IsNameStart(s[i]) || '0' <= s[i] <= '9'
  }

  predicate IsControl(c: char) {
    c as int < 0x20 || 0x7F <= c as int <= 0x9F
  }

  function Utf8Length(s: string): nat {
    if s == [] then 0
    else
      var c := s[0] as int;
      (if c < 0x80 then 1 else if c < 0x800 then 2 else if c < 0x1_0000 then 3 else 4) + Utf8Length(s[1..])
  }

  predicate IsText(s: string, maxBytes: nat) {
    (forall i :: 0 <= i < |s| ==> !IsControl(s[i])) && 1 <= Utf8Length(s) <= maxBytes
  }

  function ScalarNamed(name: string): Option<ScalarType> {
    if name == "string" then Some(StringType)
    else if name == "bool" then Some(BoolType)
    else if name == "uint" then Some(UintType)
    else if name == "int" then Some(IntType)
    else if name == "bytes" then Some(BytesType)
    else if name == "address" then Some(AddressType)
    else None
  }

  function NameOfScalar(t: ScalarType): string {
    match t
    case StringType => "string"
    case BoolType => "bool"
    case UintType => "uint"
    case IntType => "int"
    case BytesType => "bytes"
    case AddressType => "address"
  }

  // ---- Records ------------------------------------------------------------

  /** The position of a key, or the number of entries when the key is absent. */
  function Find(entries: seq<Entry>, key: string): (i: nat)
    ensures i <= |entries|
    ensures i < |entries| ==> entries[i].key == key
    ensures forall k :: 0 <= k < i ==> entries[k].key != key
  {
    if entries == [] then 0
    else if entries[0].key == key then 0
    else 1 + Find(entries[1..], key)
  }

  predicate OnlyKeys(entries: seq<Entry>, allowed: set<string>) {
    forall i :: 0 <= i < |entries| ==> entries[i].key in allowed
  }

  // ---- The unlimited reading ----------------------------------------------

  /** The value of `optional`, or None when it is present and not a boolean. */
  function ReadOptional(entries: seq<Entry>): Option<bool> {
    var i := Find(entries, "optional");
    if i == |entries| then Some(false)
    else if entries[i].value.JBool? then Some(entries[i].value.b)
    else None
  }

  function ReadType(entries: seq<Entry>): Option<string> {
    var i := Find(entries, "type");
    if i < |entries| && entries[i].value.JString? then Some(entries[i].value.s) else None
  }

  function Read(input: Json): Option<Descriptor>
    decreases input
  {
    if !input.JObject? || ReadType(input.entries).None? || ReadOptional(input.entries).None? then None
    else
      var entries, optional := input.entries, ReadOptional(input.entries).value;
      var ty := ReadType(entries).value;
      if ScalarNamed(ty).Some? then
        if OnlyKeys(entries, {"type", "optional"}) then Some(Scalar(ScalarNamed(ty).value, optional)) else None
      else if ty == "array" then
        var i := Find(entries, "items");
        if !OnlyKeys(entries, {"type", "optional", "items"}) || i == |entries| then None
        else
          var items := Read(entries[i].value);
          if items.None? then None else Some(Array(items.value, optional))
      else if ty == "object" then
        var i := Find(entries, "fields");
        if !OnlyKeys(entries, {"type", "optional", "fields"}) || i == |entries| then None
        else
          var fields := ReadFields(entries[i].value);
          if fields.None? then None else Some(Object(fields.value, optional))
      else None
  }

  function ReadFields(input: Json): Option<seq<Field>>
    decreases input
  {
    if !input.JObject? || input.entries == [] then None else ReadEntries(input.entries)
  }

  function ReadEntries(entries: seq<Entry>): Option<seq<Field>>
    decreases entries
  {
    if entries == [] then Some([])
    else
      var last := entries[|entries| - 1];
      var init := ReadEntries(entries[..|entries| - 1]);
      var descriptor := Read(last.value);
      if init.None? || !IsFieldName(last.key) || descriptor.None? then None
      else Some(init.value + [Field(last.key, descriptor.value)])
  }

  function ReadRelation(entries: seq<Entry>, key: string): Option<Option<string>> {
    var i := Find(entries, key);
    if i == |entries| then Some(None)
    else if entries[i].value.JString? && IsHash(entries[i].value.s) then Some(Some(entries[i].value.s))
    else None
  }

  function ReadText(entries: seq<Entry>, key: string, maxBytes: nat): Option<string> {
    var i := Find(entries, key);
    if i < |entries| && entries[i].value.JString? && IsText(entries[i].value.s, maxBytes)
    then Some(entries[i].value.s)
    else None
  }

  const SCHEMA_PROPERTIES := {"xcsVersion", "name", "description", "extends", "supersedes", "fields"}

  predicate IsVersion01(entries: seq<Entry>) {
    var i := Find(entries, "xcsVersion");
    i < |entries| && entries[i].value == JString("0.1")
  }

  /** The schema a document denotes when only the limits are left aside. */
  function ReadSchema(input: Json): Option<SchemaDefinition> {
    if !input.JObject? then None
    else
      var entries := input.entries;
      var ext, supersedes := ReadRelation(entries, "extends"), ReadRelation(entries, "supersedes");
      var name, description := ReadText(entries, "name", 64), ReadText(entries, "description", 256);
      var i := Find(entries, "fields");
      var fields := if i < |entries| then ReadFields(entries[i].value) else None;
      if OnlyKeys(entries, SCHEMA_PROPERTIES) && IsVersion01(entries)
         && ext.Some? && supersedes.Some? && !(ext.value.Some? && ext.value == supersedes.value)
         && name.Some? && description.Some? && fields.Some?
      then Some(SchemaDefinition(name.value, description.value, fields.value, ext.value, supersedes.value))
      else None
  }

  predicate WithinLimits(fields: seq<Field>) {
    FieldsNesting(fields) <= MAX_SCHEMA_DEPTH && CountFields(fields) <= MAX_SCHEMA_FIELDS
  }

  /** The schema language as one definition: the unlimited reading, cut at the two limits. */
  function SchemaOf(input: Json): Option<SchemaDefinition> {
    var schema := ReadSchema(input);
    if schema.Some? && WithinLimits(schema.value.fields) then schema else None
  }

  // ---- Prefix facts used by the parsing loops -----------------------------

  lemma {:induction false} ReadEntriesPrefix(entries: seq<Entry>, i: nat)
    requires i <= |entries|
    requires ReadEntries(entries).Some?
    ensures |ReadEntries(entries).value| == |entries|
    ensures ReadEntries(entries[..i]) == Some(ReadEntries(entries).value[..i])
    decreases |entries|
  {
    if entries == [] {
      assert entries[..i] == entries;
    } else {
      var init, fields := entries[..|entries| - 1], ReadEntries(entries).value;
      assert ReadEntries(init).Some?;
      ReadEntriesPrefix(init, Min(i, |init|));
      if i == |entries| {
        assert entries[..i] == entries && fields[..i] == fields;
      } else {
        assert init[..i] == entries[..i];
        assert fields[..i] == ReadEntries(init).value[..i];
      }
    }
  }

  lemma {:induction false} MeasuresOfPrefix(fields: seq<Field>, i: nat)
    requires i <= |fields|
    ensures CountFields(fields[..i]) + (|fields| - i) <= CountFields(fields)
    ensures FieldsNesting(fields[..i]) <= FieldsNesting(fields)
    decreases |fields|
  {
    if i == |fields| {
      assert fields[..i] == fields;
    } else {
      var init := fields[..|fields| - 1];
      MeasuresOfPrefix(init, i);
      assert init[..i] == fields[..i];
    }
  }

  lemma {:induction false} NonEmptyMeasures(fields: seq<Field>)
    requires fields != []
    ensures CountFields(fields) >= |fields| && FieldsNesting(fields) >= 1
  {
    MeasuresOfPrefix(fields, 0);
    var last := fields[|fields| - 1].descriptor;
    assert Nesting(last) >= 1;
  }

  // ---- Parsing ------------------------------------------------------------

  /** The counter object shared by one whole parse. */
  class Counter {
    var value: nat

    constructor ()
      ensures value == 0
    {
      value := 0;
    }
  }

  predicate DescriptorFits(d: Descriptor, depth: nat, count: nat) {
    && depth + Nesting(d) <= MAX_SCHEMA_DEPTH + 1
    && (Inner(d) == 0 || count + Inner(d) <= MAX_SCHEMA_FIELDS)
  }

  predicate FieldsFit(fields: seq<Field>, depth: nat, count: nat) {
    && depth + FieldsNesting(fields) <= MAX_SCHEMA_DEPTH + 1
    && count + CountFields(fields) <= MAX_SCHEMA_FIELDS
  }

  /** How the reading of an array, and the room it needs, comes from its items. */
  lemma ArrayReading(input: Json, i: nat, depth: nat, count: nat)
    requires input.JObject? && ReadType(input.entries) == Some("array") && ReadOptional(input.entries).Some?
    requires OnlyKeys(input.entries, {"type", "optional", "items"})
    requires i == Find(input.entries, "items") < |input.entries|
    ensures Read(input).Some? <==> Read(input.entries[i].value).Some?
    ensures Read(input).Some? ==>
              var items := Read(input.entries[i].value).value;
              && Read(input) == Some(Array(items, ReadOptional(input.entries).value))
              && Inner(Read(input).value) == 1 + Inner(items)
              && (DescriptorFits(Read(input).value, depth, count)
                  <==> depth < MAX_SCHEMA_DEPTH && count + 1 <= MAX_SCHEMA_FIELDS
                       && DescriptorFits(items, depth + 1, count + 1))
  {
    assert ScalarNamed("array").None?;
    if Read(input).Some? { assert Nesting(Read(input.entries[i].value).value) >= 1; }
  }

  lemma ObjectReading(input: Json, i: nat, depth: nat, count: nat)
    requires input.JObject? && ReadType(input.entries) == Some("object") && ReadOptional(input.entries).Some?
    requires OnlyKeys(input.entries, {"type", "optional", "fields"})
    requires i == Find(input.entries, "fields") < |input.entries|
    ensures Read(input).Some? <==> ReadFields(input.entries[i].value).Some?
    ensures Read(input).Some? ==>
              var fields := ReadFields(input.entries[i].value).value;
              && Read(input) == Some(Object(fields, ReadOptional(input.entries).value))
              && Inner(Read(input).value) == CountFields(fields)
              && (DescriptorFits(Read(input).value, depth, count)
                  <==> depth < MAX_SCHEMA_DEPTH && FieldsFit(fields, depth + 1, count))
  {
    assert ScalarNamed("object").None? && "object" != "array";
    if ReadFields(input.entries[i].value).Some? { NonEmptyFields(input.entries[i].value); }
  }

  /** Documents that denote no array, object or scalar are refused whatever the limits. */
  lemma NoReading(input: Json)
    requires input.JObject? && ReadType(input.entries).Some?
    requires var entries, ty := input.entries, ReadType(input.entries).value;
             && ScalarNamed(ty).None?
             && (ty == "array" ==> !OnlyKeys(entries, {"type", "optional", "items"}) || Find(entries, "items") == |entries|)
             && (ty == "object" ==> !OnlyKeys(entries, {"type", "optional", "fields"}) || Find(entries, "fields") == |entries|)
    ensures Read(input).None?
  {
  }

  method ParseDescriptor(input: Json, depth: nat, count: Counter) returns (r: Option<Descriptor>)
    requires 1 <= depth <= MAX_SCHEMA_DEPTH
    modifies count
    ensures r.Some? <==> Read(input).Some? && DescriptorFits(Read(input).value, depth, old(count.value))
    ensures r.Some? ==> r == Read(input) && count.value == old(count.value) + Inner(r.value)
    decreases input
  {
    if !input.JObject? || ReadType(input.entries).None? || ReadOptional(input.entries).None? {
      return None;
    }
    var entries := input.entries;
    var optional := ReadOptional(entries).value;
    var ty := ReadType(entries).value;
    if ScalarNamed(ty).Some? {
      if !OnlyKeys(entries, {"type", "optional"}) { return None; }
      return Some(Scalar(ScalarNamed(ty).value, optional));
    } else if ty == "array" {
      r := ParseArray(input, optional, depth, count);
    } else if ty == "object" {
      r := ParseObject(input, optional, depth, count);
    } else {
      NoReading(input);
      return None;
    }
  }

  /** The array branch of parseDescriptor. */
  method ParseArray(input: Json, optional: bool, depth: nat, count: Counter) returns (r: Option<Descriptor>)
    requires 1 <= depth <= MAX_SCHEMA_DEPTH
    requires input.JObject? && ReadType(input.entries) == Some("array") && ReadOptional(input.entries) == Some(optional)
    modifies count
    ensures r.Some? <==> Read(input).Some? && DescriptorFits(Read(input).value, depth, old(count.value))
    ensures r.Some? ==> r == Read(input) && count.value == old(count.value) + Inner(r.value)
    decreases input, 0
  {
    hide Read, DescriptorFits, Inner, Nesting;
    var entries := input.entries;
    var i := Find(entries, "items");
    if !OnlyKeys(entries, {"type", "optional", "items"}) || i == |entries| {
      NoReading(input);
      return None;
    }
    ArrayReading(input, i, depth, count.value);
    if depth >= MAX_SCHEMA_DEPTH { return None; }
    count.value := count.value + 1;
    if count.value > MAX_SCHEMA_FIELDS { return None; }
    var items := ParseDescriptor(entries[i].value, depth + 1, count);
    if items.None? { return None; }
    return Some(Array(items.value, optional));
  }

  /** The object branch of parseDescriptor. */
  method ParseObject(input: Json, optional: bool, depth: nat, count: Counter) returns (r: Option<Descriptor>)
    requires 1 <= depth <= MAX_SCHEMA_DEPTH
    requires input.JObject? && ReadType(input.entries) == Some("object") && ReadOptional(input.entries) == Some(optional)
    modifies count
    ensures r.Some? <==> Read(input).Some? && DescriptorFits(Read(input).value, depth, old(count.value))
    ensures r.Some? ==> r == Read(input) && count.value == old(count.value) + Inner(r.value)
    decreases input, 0
  {
    hide Read, DescriptorFits, FieldsFit, Inner, Nesting;
    var entries := input.entries;
    var i := Find(entries, "fields");
    if !OnlyKeys(entries, {"type", "optional", "fields"}) || i == |entries| {
      NoReading(input);
      return None;
    }
    ObjectReading(input, i, depth, count.value);
    if depth >= MAX_SCHEMA_DEPTH { return None; }
    var fields := ParseFields(entries[i].value, depth + 1, count);
    if fields.None? { return None; }
    return Some(Object(fields.value, optional));
  }

  lemma NonEmptyFields(input: Json)
    requires ReadFields(input).Some?
    ensures |ReadFields(input).value| == |input.entries| > 0
    ensures CountFields(ReadFields(input).value) >= 1 && FieldsNesting(ReadFields(input).value) >= 1
  {
    ReadEntriesPrefix(input.entries, 0);
    NonEmptyMeasures(ReadFields(input).value);
  }

  /** One round of the field loop: what the prefix gains, and what the whole reading then must contain. */
  lemma FieldRound(entries: seq<Entry>, i: nat, fields: seq<Field>)
    requires i < |entries|
    requires ReadEntries(entries[..i]) == Some(fields)
    ensures IsFieldName(entries[i].key) && Read(entries[i].value).Some? ==>
              ReadEntries(entries[..i + 1]) == Some(fields + [Field(entries[i].key, Read(entries[i].value).value)])
    ensures ReadEntries(entries).Some? ==>
              && IsFieldName(entries[i].key)
              && Read(entries[i].value).Some?
              && CountFields(ReadEntries(entries).value) >= CountFields(fields) + 1 + Inner(Read(entries[i].value).value)
              && FieldsNesting(ReadEntries(entries).value) >= Nesting(Read(entries[i].value).value)
  {
    var prefix := entries[..i + 1];
    assert prefix[..|prefix| - 1] == entries[..i] && prefix[|prefix| - 1] == entries[i];
    var whole := ReadEntries(entries);
    if whole.Some? {
      ReadEntriesPrefix(entries, i + 1);
      MeasuresOfPrefix(whole.value, i + 1);
      FieldAppended(fields, Field(entries[i].key, Read(entries[i].value).value));
    }
  }

  lemma FieldAppended(fields: seq<Field>, f: Field)
    ensures CountFields(fields + [f]) == CountFields(fields) + 1 + Inner(f.descriptor)
    ensures FieldsNesting(fields + [f]) == Max(FieldsNesting(fields), Nesting(f.descriptor))
  {
    var longer := fields + [f];
    assert longer[..|longer| - 1] == fields;
  }

  method ParseFields(input: Json, depth: nat, count: Counter) returns (r: Option<seq<Field>>)
    requires 1 <= depth <= MAX_SCHEMA_DEPTH
    modifies count
    ensures r.Some? <==> ReadFields(input).Some? && FieldsFit(ReadFields(input).value, depth, old(count.value))
    ensures r.Some? ==> r == ReadFields(input) && count.value == old(count.value) + CountFields(r.value)
    decreases input
  {
    if !input.JObject? || |input.entries| == 0 { return None; }
    var entries := input.entries;
    ghost var start := count.value;
    var fields: seq<Field> := [];
    for i := 0 to |entries|
      invariant ReadEntries(entries[..i]) == Some(fields)
      invariant count.value == start + CountFields(fields)
      invariant i > 0 ==> FieldsFit(fields, depth, start)
    {
      FieldRound(entries, i, fields);
      if !IsFieldName(entries[i].key) { return None; }
      count.value := count.value + 1;
      if count.value > MAX_SCHEMA_FIELDS { return None; }
      var descriptor := ParseDescriptor(entries[i].value, depth, count);
      if descriptor.None? { return None; }
      FieldAppended(fields, Field(entries[i].key, descriptor.value));
      fields := fields + [Field(entries[i].key, descriptor.value)];
    }
    assert entries[..|entries|] == entries;
    return Some(fields);
  }

  /** Parsing a whole document accepts exactly what SchemaOf denotes. */
  method ParseSchema(input: Json) returns (r: Option<SchemaDefinition>)
    ensures r == SchemaOf(input)
    ensures r.Some? ==> 1 <= CountFields(r.value.fields) <= MAX_SCHEMA_FIELDS
    ensures r.Some? ==> FieldsNesting(r.value.fields) <= MAX_SCHEMA_DEPTH
  {
    if !input.JObject? { return None; }
    var entries := input.entries;
    if !OnlyKeys(entries, SCHEMA_PROPERTIES) || !IsVersion01(entries) { return None; }
    var parent, predecessor := ReadRelation(entries, "extends"), ReadRelation(entries, "supersedes");
    if parent.None? || predecessor.None? { return None; }
    if parent.value.Some? && parent.value == predecessor.value { return None; }
    var name, description := ReadText(entries, "name", 64), ReadText(entries, "description", 256);
    if name.None? || description.None? { return None; }
    var i := Find(entries, "fields");
    if i == |entries| { return None; }
    var count := new Counter();
    var fields := ParseFields(entries[i].value, 1, count);
    if fields.None? { return None; }
    NonEmptyFields(entries[i].value);
    return Some(SchemaDefinition(name.value, description.value, fields.value, parent.value, predecessor.value));
  }

  /** The recount that schema resolution makes over an already parsed map of fields. */
  method CountSchemaFields(fields: seq<Field>) returns (count: nat)
    ensures count == CountFields(fields)
    decreases fields
  {
    count := 0;
    for i := 0 to |fields|
      invariant count == CountFields(fields[..i])
    {
      assert fields[..i + 1][..i] == fields[..i];
      count := count + 1;
      match fields[i].descriptor {
        case Scalar(_, _) =>
        case Array(items, _) =>
          var below := CountBelowItems(items);
          count := count + below;
        case Object(inner, _) =>
          var below := CountSchemaFields(inner);
          count := count + below;
      }
    }
    assert fields[..|fields|] == fields;
  }

  /** countSchemaFields({ items: descriptor }): the one-entry map an array contributes. */
  method CountBelowItems(items: Descriptor) returns (count: nat)
    ensures count == 1 + Inner(items)
    decreases items
  {
    match items {
      case Scalar(_, _) => count := 1;
      case Array(deeper, _) =>
        var below := CountBelowItems(deeper);
        count := 1 + below;
      case Object(inner, _) =>
        var below := CountSchemaFields(inner);
        count := 1 + below;
    }
  }

  // ---- Printing and reading back ------------------------------------------

  function OptionalEntry(optional: bool): seq<Entry> {
    if optional then [Entry("optional", JBool(true))] else []
  }

  function DescriptorRecord(ty: string, body: seq<Entry>, optional: bool): seq<Entry> {
    [Entry("type", JString(ty))] + body + OptionalEntry(optional)
  }

  function DescriptorJson(d: Descriptor): Json
    decreases d
  {
    match d
    case Scalar(t, optional) => JObject(DescriptorRecord(NameOfScalar(t), [], optional))
    case Array(items, optional) =>
      JObject(DescriptorRecord("array", [Entry("items", DescriptorJson(items))], optional))
    case Object(fields, optional) =>
      JObject(DescriptorRecord("object", [Entry("fields", JObject(FieldEntries(fields)))], optional))
  }

  function FieldEntries(fields: seq<Field>): seq<Entry>
    decreases fields
  {
    if fields == [] then []
    else
      var last := fields[|fields| - 1];
      FieldEntries(fields[..|fields| - 1]) + [Entry(last.name, DescriptorJson(last.descriptor))]
  }

  function RelationEntry(key: string, uid: Option<string>): seq<Entry> {
    match uid
    case None => []
    case Some(u) => [Entry(key, JString(u))]
  }

  /** The JSON value of a parsed schema, as it is stored and hashed. */
  function SchemaJson(schema: SchemaDefinition): Json {
    JObject(
      [Entry("xcsVersion", JString("0.1")),
       Entry("name", JString(schema.name)),
       Entry("description", JString(schema.description)),
       Entry("fields", JObject(FieldEntries(schema.fields)))]
      + RelationEntry("extends", schema.ext)
      + RelationEntry("supersedes", schema.supersedes))
  }

  /** What every parsed descriptor satisfies: legal names and no empty object. */
  predicate ValidDescriptor(d: Descriptor)
    decreases d
  {
    match d
    case Scalar(_, _) => true
    case Array(items, _) => ValidDescriptor(items)
    case Object(fields, _) => fields != [] && ValidFields(fields)
  }

  predicate ValidFields(fields: seq<Field>)
    decreases fields
  {
    fields == []
    || (var last := fields[|fields| - 1];
        ValidFields(fields[..|fields| - 1]) && IsFieldName(last.name) && ValidDescriptor(last.descriptor))
  }

  lemma {:induction false} ReadIsValid(input: Json)
    ensures Read(input).Some? ==> ValidDescriptor(Read(input).value)
    decreases input
  {
    if Read(input).Some? {
      var entries := input.entries;
      var i, k := Find(entries, "items"), Find(entries, "fields");
      match Read(input).value {
        case Scalar(_, _) =>
        case Array(_, _) => ReadIsValid(entries[i].value);
        case Object(_, _) =>
          NonEmptyFields(entries[k].value);
          ReadEntriesAreValid(entries[k].value.entries);
      }
    }
  }

  lemma {:induction false} ReadEntriesAreValid(entries: seq<Entry>)
    ensures ReadEntries(entries).Some? ==> ValidFields(ReadEntries(entries).value)
    decreases entries
  {
    if entries != [] && ReadEntries(entries).Some? {
      var init := entries[..|entries| - 1];
      ReadEntriesAreValid(init);
      ReadIsValid(entries[|entries| - 1].value);
      var fields := ReadEntries(entries).value;
      assert fields[..|fields| - 1] == ReadEntries(init).value;
    }
  }

  lemma FoundAt(entries: seq<Entry>, key: string, i: nat)
    requires i < |entries| && entries[i].key == key
    requires forall k :: 0 <= k < i ==> entries[k].key != key
    ensures Find(entries, key) == i
  {
    assert !(Find(entries, key) < i) && !(i < Find(entries, key));
  }

  lemma RecordReadBack(ty: string, body: seq<Entry>, optional: bool, allowed: set<string>)
    requires |body| <= 1 && allowed >= {"type", "optional"}
    requires |body| == 1 ==> body[0].key in {"items", "fields"} && body[0].key in allowed
    ensures var entries := DescriptorRecord(ty, body, optional);
            && OnlyKeys(entries, allowed)
            && ReadType(entries) == Some(ty)
            && ReadOptional(entries) == Some(optional)
            && (|body| == 1 ==> |entries| >= 2 && entries[1] == body[0] && Find(entries, body[0].key) == 1)
  {
    var entries := DescriptorRecord(ty, body, optional);
    FoundAt(entries, "type", 0);
    if |body| == 1 { FoundAt(entries, body[0].key, 1); }
    if optional { FoundAt(entries, "optional", 1 + |body|); }
  }

  lemma ScalarReadBack(t: ScalarType, optional: bool)
    ensures Read(DescriptorJson(Scalar(t, optional))) == Some(Scalar(t, optional))
  {
    RecordReadBack(NameOfScalar(t), [], optional, {"type", "optional"});
    assert ScalarNamed(NameOfScalar(t)) == Some(t);
  }

  lemma ArrayReadBack(items: Descriptor, optional: bool)
    ensures Read(DescriptorJson(Array(items, optional))) ==
            var below := Read(DescriptorJson(items));
            if below.Some? then Some(Array(below.value, optional)) else None
  {
    var body := [Entry("items", DescriptorJson(items))];
    RecordReadBack("array", body, optional, {"type", "optional", "items"});
    var entries := DescriptorRecord("array", body, optional);
    assert entries[1].value == DescriptorJson(items);
    assert ScalarNamed("array").None?;
  }

  lemma ObjectReadBack(fields: seq<Field>, optional: bool)
    ensures Read(DescriptorJson(Object(fields, optional))) ==
            var below := ReadFields(JObject(FieldEntries(fields)));
            if below.Some? then Some(Object(below.value, optional)) else None
  {
    var body := [Entry("fields", JObject(FieldEntries(fields)))];
    RecordReadBack("object", body, optional, {"type", "optional", "fields"});
    var entries := DescriptorRecord("object", body, optional);
    assert entries[1].value == JObject(FieldEntries(fields));
    assert ScalarNamed("object").None? && "object" != "array";
  }

  lemma {:induction false} DescriptorReadBack(d: Descriptor)
    ensures Read(DescriptorJson(d)) == if ValidDescriptor(d) then Some(d) else None
    decreases d
  {
    match d {
      case Scalar(t, optional) =>
        ScalarReadBack(t, optional);
      case Array(items, optional) =>
        DescriptorReadBack(items);
        ArrayReadBack(items, optional);
      case Object(fields, optional) =>
        FieldsReadBack(fields);
        ObjectReadBack(fields, optional);
    }
  }

  lemma ReadEntriesAppended(entries: seq<Entry>, e: Entry)
    ensures ReadEntries(entries + [e]) ==
            var init, descriptor := ReadEntries(entries), Read(e.value);
            if init.None? || !IsFieldName(e.key) || descriptor.None? then None
            else Some(init.value + [Field(e.key, descriptor.value)])
  {
    var longer := entries + [e];
    assert longer[..|longer| - 1] == entries;
  }

  lemma {:induction false} FieldsReadBack(fields: seq<Field>)
    ensures |FieldEntries(fields)| == |fields|
    ensures ReadEntries(FieldEntries(fields)) == if ValidFields(fields) then Some(fields) else None
    decreases fields
  {
    hide Read, DescriptorJson, ValidDescriptor;
    if fields != [] {
      var init, last := fields[..|fields| - 1], fields[|fields| - 1];
      FieldsReadBack(init);
      DescriptorReadBack(last.descriptor);
      ReadEntriesAppended(FieldEntries(init), Entry(last.name, DescriptorJson(last.descriptor)));
      assert init + [last] == fields;
    }
  }

  predicate ValidRelation(uid: Option<string>) {
    uid.Some? ==> IsHash(uid.value)
  }

  /** What every parsed schema satisfies, the limits aside. */
  predicate ValidSchema(schema: SchemaDefinition) {
    && ValidRelation(schema.ext) && ValidRelation(schema.supersedes)
    && (schema.ext.Some? ==> schema.ext != schema.supersedes)
    && IsText(schema.name, 64) && IsText(schema.description, 256)
    && schema.fields != [] && ValidFields(schema.fields)
  }

  lemma SchemaRecordReadBack(schema: SchemaDefinition)
    ensures var entries := SchemaJson(schema).entries;
            && OnlyKeys(entries, SCHEMA_PROPERTIES)
            && |entries| >= 4
            && Find(entries, "xcsVersion") == 0 && Find(entries, "name") == 1
            && Find(entries, "description") == 2 && Find(entries, "fields") == 3
            && ReadRelation(entries, "extends") == (if ValidRelation(schema.ext) then Some(schema.ext) else None)
            && ReadRelation(entries, "supersedes")
               == (if ValidRelation(schema.supersedes) then Some(schema.supersedes) else None)
  {
    var entries := SchemaJson(schema).entries;
    FoundAt(entries, "xcsVersion", 0);
    FoundAt(entries, "name", 1);
    FoundAt(entries, "description", 2);
    FoundAt(entries, "fields", 3);
    if schema.ext.Some? { FoundAt(entries, "extends", 4); }
    if schema.supersedes.Some? { FoundAt(entries, "supersedes", if schema.ext.Some? then 5 else 4); }
  }

  /** Printing loses nothing: a schema reads back as itself exactly when it is valid. */
  lemma SchemaReadBack(schema: SchemaDefinition)
    ensures ReadSchema(SchemaJson(schema)) == if ValidSchema(schema) then Some(schema) else None
  {
    FieldsReadBack(schema.fields);
    SchemaRecordReadBack(schema);
    var entries := SchemaJson(schema).entries;
    assert entries[0].value == JString("0.1");
    assert ReadText(entries, "name", 64) == (if IsText(schema.name, 64) then Some(schema.name) else None) by {
      assert entries[1].value == JString(schema.name);
    }
    assert ReadText(entries, "description", 256)
        == (if IsText(schema.description, 256) then Some(schema.description) else None) by {
      assert entries[2].value == JString(schema.description);
    }
    assert ReadFields(entries[3].value) == ReadFields(JObject(FieldEntries(schema.fields)));
  }

  lemma ParsedSchemaIsValid(input: Json)
    requires SchemaOf(input).Some?
    ensures ValidSchema(SchemaOf(input).value) && WithinLimits(SchemaOf(input).value.fields)
  {
    var entries := input.entries;
    var i := Find(entries, "fields");
    assert ReadFields(entries[i].value).Some?;
    NonEmptyFields(entries[i].value);
    ReadEntriesAreValid(entries[i].value.entries);
  }

  /** Parsing is idempotent: reading the printed result of a parse gives that result again. */
  lemma ParseIsIdempotent(input: Json)
    requires SchemaOf(input).Some?
    ensures SchemaOf(SchemaJson(SchemaOf(input).value)) == SchemaOf(input)
  {
    ParsedSchemaIsValid(input);
    SchemaReadBack(SchemaOf(input).value);
  }

  /** The schemas that parsing can return are exactly the valid ones within the limits. */
  lemma ParseIsOntoValidSchemas(schema: SchemaDefinition)
    ensures (exists input :: SchemaOf(input) == Some(schema)) <==> ValidSchema(schema) && WithinLimits(schema.fields)
  {
    SchemaReadBack(schema);
    if ValidSchema(schema) && WithinLimits(schema.fields) {
      assert SchemaOf(SchemaJson(schema)) == Some(schema);
    }
    if input :| SchemaOf(input) == Some(schema) {
      ParsedSchemaIsValid(input);
    }
  }
}
