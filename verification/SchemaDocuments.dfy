/** What a schema document looks like, entry by entry, and what the two limits and the text rules count. */
module SchemaDocuments {
  import opened Base
  import opened SchemaLanguage

  // ---- Text -----------------------------------------------------------------------------------------

  /** The bytes of one character in UTF-8 (section 3 of RFC 3629). */
  function Encoded(c: char): (bytes: seq<int>)
    ensures |bytes| > 0 && forall i :: 0 <= i < |bytes| ==> 0 <= bytes[i] < 0x100
  {
    var n := c as int;
    if n < 0x80 then [n]
    else if n < 0x800 then [0xC0 + n / 0x40, 0x80 + n % 0x40]
    else if n < 0x1_0000 then [0xE0 + n / 0x1000, 0x80 + n / 0x40 % 0x40, 0x80 + n % 0x40]
    else [0xF0 + n / 0x4_0000, 0x80 + n / 0x1000 % 0x40, 0x80 + n / 0x40 % 0x40, 0x80 + n % 0x40]
  }

  function Utf8(s: string): seq<int> {
    if s == [] then [] else Encoded(s[0]) + Utf8(s[1..])
  }

  /** The code of the character that some bytes begin with, by the marks of its first byte. */
  function FirstCode(bytes: seq<int>): Option<(int, nat)> {
    if |bytes| >= 1 && bytes[0] < 0x80 then Some((bytes[0], 1))
    else if |bytes| >= 2 && 0xC0 <= bytes[0] < 0xE0 then Some(((bytes[0] - 0xC0) * 0x40 + bytes[1] - 0x80, 2))
    else if |bytes| >= 3 && 0xE0 <= bytes[0] < 0xF0 then
      Some(((bytes[0] - 0xE0) * 0x1000 + (bytes[1] - 0x80) * 0x40 + bytes[2] - 0x80, 3))
    else if |bytes| >= 4 && 0xF0 <= bytes[0] then
      Some(((bytes[0] - 0xF0) * 0x4_0000 + (bytes[1] - 0x80) * 0x1000 + (bytes[2] - 0x80) * 0x40 + bytes[3] - 0x80, 4))
    else None
  }

  /** The encoding can be read back character by character. */
  lemma EncodedReadsBack(c: char, rest: seq<int>)
    ensures FirstCode(Encoded(c) + rest) == Some((c as int, |Encoded(c)|))
  {
    var n := c as int;
    assert n == n / 0x40 * 0x40 + n % 0x40;
    assert n / 0x40 == n / 0x1000 * 0x40 + n / 0x40 % 0x40;
    assert n / 0x1000 == n / 0x4_0000 * 0x40 + n / 0x1000 % 0x40;
  }

  /** Texts are measured in the bytes of their encoding. */
  lemma {:induction false} TextIsMeasuredInBytes(s: string)
    ensures Utf8Length(s) == |Utf8(s)|
    decreases |s|
  {
    if s != [] { TextIsMeasuredInBytes(s[1..]); }
  }

  /** A field name starts with an ASCII letter or an underscore and goes on with these or digits, by their codes. */
  lemma FieldNamesExactly(s: string)
    ensures IsFieldName(s) <==>
              && 1 <= |s| <= 64
              && !(48 <= s[0] as int <= 57)
              && forall i :: 0 <= i < |s| ==>
                   var c := s[i] as int;
                   65 <= c <= 90 || 97 <= c <= 122 || c == 95 || 48 <= c <= 57
  {
  }

  // ---- Documents ------------------------------------------------------------------------------------------

  /** The value of the first entry with this key. */
  function First(entries: seq<Entry>, key: string): Option<Json> {
    var i := Find(entries, key);
    if i < |entries| then Some(entries[i].value) else None
  }

  function TypeName(d: Descriptor): string {
    match d
    case Scalar(t, _) => NameOfScalar(t)
    case Array(_, _) => "array"
    case Object(_, _) => "object"
  }

  lemma {:induction false} ReadEntriesExactly(entries: seq<Entry>, fields: seq<Field>)
    ensures ReadEntries(entries) == Some(fields) <==>
              && |entries| == |fields|
              && forall i :: 0 <= i < |entries| ==>
                   && entries[i].key == fields[i].name && IsFieldName(fields[i].name)
                   && Read(entries[i].value) == Some(fields[i].descriptor)
    decreases |entries|
  {
    hide Read, IsFieldName;
    if entries != [] && fields != [] {
      var n, m := |entries| - 1, |fields| - 1;
      ReadEntriesExactly(entries[..n], fields[..m]);
      assert entries == entries[..n] + [entries[n]] && fields == fields[..m] + [fields[m]];
      ReadEntriesAppended(entries[..n], entries[n]);
      assert forall i :: 0 <= i < n ==> entries[..n][i] == entries[i];
      assert forall i :: 0 <= i < m ==> fields[..m][i] == fields[i];
    }
  }

  /**
   The document of a descriptor: its type by name, `optional` only as a boolean and false when absent, `items` for an array
   and a non-empty map of `fields` for an object, and nothing else.
   */
  lemma DescriptorsExactly(input: Json, d: Descriptor)
    ensures Read(input) == Some(d) <==>
              && input.JObject?
              && First(input.entries, "type") == Some(JString(match d
                   case Scalar(StringType, _) => "string"
                   case Scalar(BoolType, _) => "bool"
                   case Scalar(UintType, _) => "uint"
                   case Scalar(IntType, _) => "int"
                   case Scalar(BytesType, _) => "bytes"
                   case Scalar(AddressType, _) => "address"
                   case Array(_, _) => "array"
                   case Object(_, _) => "object"))
              && (First(input.entries, "optional") == Some(JBool(d.optional))
                  || (First(input.entries, "optional").None? && !d.optional))
              && (forall i :: 0 <= i < |input.entries| ==>
                    || input.entries[i].key in {"type", "optional"}
                    || (d.Array? && input.entries[i].key == "items")
                    || (d.Object? && input.entries[i].key == "fields"))
              && (d.Array? ==>
                    && First(input.entries, "items").Some?
                    && Read(First(input.entries, "items").value) == Some(d.items))
              && (d.Object? ==>
                    && First(input.entries, "fields").Some? && First(input.entries, "fields").value.JObject?
                    && var below := First(input.entries, "fields").value.entries;
                    && |below| == |d.fields| > 0
                    && forall i :: 0 <= i < |below| ==>
                         && below[i].key == d.fields[i].name && IsFieldName(d.fields[i].name)
                         && Read(below[i].value) == Some(d.fields[i].descriptor))
  {
    hide Read, Find, IsFieldName, ReadEntries;
    DescriptorsByName(input, d);
    if input.JObject? && d.Object? {
      var fields := First(input.entries, "fields");
      if fields.Some? && fields.value.JObject? { ReadEntriesExactly(fields.value.entries, d.fields); }
    }
  }

  lemma DescriptorsByName(input: Json, d: Descriptor)
    ensures Read(input) == Some(d) <==>
              && input.JObject?
              && First(input.entries, "type") == Some(JString(TypeName(d)))
              && (First(input.entries, "optional") == Some(JBool(d.optional))
                  || (First(input.entries, "optional").None? && !d.optional))
              && (forall i :: 0 <= i < |input.entries| ==>
                    || input.entries[i].key in {"type", "optional"}
                    || (d.Array? && input.entries[i].key == "items")
                    || (d.Object? && input.entries[i].key == "fields"))
              && (d.Array? ==>
                    && First(input.entries, "items").Some?
                    && Read(First(input.entries, "items").value) == Some(d.items))
              && (d.Object? ==>
                    && First(input.entries, "fields").Some? && First(input.entries, "fields").value.JObject?
                    && First(input.entries, "fields").value.entries != []
                    && ReadEntries(First(input.entries, "fields").value.entries) == Some(d.fields))
  {
    hide IsFieldName, ReadEntries, Find, NameOfScalar, ScalarNamed;
    NamesDiffer();
  }

  /** The names of types are all different. */
  lemma NamesDiffer()
    ensures forall t :: ScalarNamed(NameOfScalar(t)) == Some(t)
    ensures ScalarNamed("array").None? && ScalarNamed("object").None? && "array" != "object"
    ensures forall name, t :: ScalarNamed(name) == Some(t) ==> name == NameOfScalar(t)
  {
  }

  /**
   The document of a schema: the version, a name of at most 64 and a description of at most 256 bytes without control
   characters, a non-empty map of fields, references that are different lowercase hashes, and nothing else.
   */
  lemma SchemasExactly(input: Json, schema: SchemaDefinition)
    ensures SchemaOf(input) == Some(schema) <==>
              && input.JObject?
              && (forall i :: 0 <= i < |input.entries| ==>
                    input.entries[i].key in {"xcsVersion", "name", "description", "extends", "supersedes", "fields"})
              && First(input.entries, "xcsVersion") == Some(JString("0.1"))
              && First(input.entries, "name") == Some(JString(schema.name)) && 1 <= |Utf8(schema.name)| <= 64
              && First(input.entries, "description") == Some(JString(schema.description))
              && 1 <= |Utf8(schema.description)| <= 256
              && (forall i :: 0 <= i < |schema.name| ==>
                    0x20 <= schema.name[i] as int && !(0x7F <= schema.name[i] as int <= 0x9F))
              && (forall i :: 0 <= i < |schema.description| ==>
                    0x20 <= schema.description[i] as int && !(0x7F <= schema.description[i] as int <= 0x9F))
              && First(input.entries, "extends") == (if schema.ext.None? then None else Some(JString(schema.ext.value)))
              && First(input.entries, "supersedes")
                 == (if schema.supersedes.None? then None else Some(JString(schema.supersedes.value)))
              && (schema.ext.Some? ==> IsHash(schema.ext.value) && schema.ext != schema.supersedes)
              && (schema.supersedes.Some? ==> IsHash(schema.supersedes.value))
              && First(input.entries, "fields").Some? && First(input.entries, "fields").value.JObject?
              && (var below := First(input.entries, "fields").value.entries;
                  && |below| == |schema.fields| > 0
                  && forall i :: 0 <= i < |below| ==>
                       && below[i].key == schema.fields[i].name && IsFieldName(schema.fields[i].name)
                       && Read(below[i].value) == Some(schema.fields[i].descriptor))
              && FieldsNesting(schema.fields) <= 16 && CountFields(schema.fields) <= 256
  {
    hide IsFieldName, ReadEntries, Find, IsHash, Read, Utf8Length, Utf8, FieldsNesting, CountFields;
    TextIsMeasuredInBytes(schema.name);
    TextIsMeasuredInBytes(schema.description);
    if input.JObject? {
      var fields := First(input.entries, "fields");
      if fields.Some? && fields.value.JObject? { ReadEntriesExactly(fields.value.entries, schema.fields); }
    }
  }

  // ---- The limits -------------------------------------------------------------------------------------------

  /** How many objects of a document name their type. */
  function Types(input: Json): nat
    decreases input
  {
    if input.JObject? then TypesIn(input.entries) else 0
  }

  function TypesIn(entries: seq<Entry>): nat
    decreases entries
  {
    if entries == [] then 0
    else
      var last := entries[|entries| - 1];
      TypesIn(entries[..|entries| - 1]) + (if last.key == "type" && last.value.JString? then 1 else Types(last.value))
  }

  /** How deeply such objects lie within each other. */
  function TypeDepth(input: Json): nat
    decreases input
  {
    if !input.JObject? then 0
    else DepthIn(input.entries) + (if First(input.entries, "type").Some? && First(input.entries, "type").value.JString? then 1 else 0)
  }

  function DepthIn(entries: seq<Entry>): nat
    decreases entries
  {
    if entries == [] then 0
    else Max(DepthIn(entries[..|entries| - 1]), TypeDepth(entries[|entries| - 1].value))
  }

  /** The limits count the typed objects of the printed fields, and how deeply they nest. */
  lemma {:induction false} LimitsCountTypes(fields: seq<Field>)
    ensures CountFields(fields) == TypesIn(FieldEntries(fields))
    ensures FieldsNesting(fields) == DepthIn(FieldEntries(fields))
    decreases fields
  {
    hide DescriptorJson, Inner, Nesting, TypeDepth, Types;
    if fields != [] {
      var init, last := fields[..|fields| - 1], fields[|fields| - 1];
      LimitsCountTypes(init);
      DescriptorCountsTypes(last.descriptor);
      var entries := FieldEntries(fields);
      assert entries[..|entries| - 1] == FieldEntries(init);
      DescriptorIsObject(last.descriptor);
    }
  }

  lemma DescriptorIsObject(d: Descriptor)
    ensures DescriptorJson(d).JObject?
  {
  }

  lemma {:induction false} DescriptorCountsTypes(d: Descriptor)
    ensures Types(DescriptorJson(d)) == 1 + Inner(d)
    ensures TypeDepth(DescriptorJson(d)) == Nesting(d)
    decreases d
  {
    match d {
      case Scalar(t, optional) =>
        RecordTypes(NameOfScalar(t), [], optional);
      case Array(items, optional) =>
        DescriptorCountsTypes(items);
        RecordTypes("array", [Entry("items", DescriptorJson(items))], optional);
      case Object(fields, optional) =>
        LimitsCountTypes(fields);
        FieldMapHasNoType(fields);
        RecordTypes("object", [Entry("fields", JObject(FieldEntries(fields)))], optional);
    }
  }

  /** The record of a descriptor names one type, and counts what its body counts. */
  lemma RecordTypes(ty: string, body: seq<Entry>, optional: bool)
    requires |body| <= 1 && (|body| == 1 ==> body[0].key in {"items", "fields"})
    ensures var record := JObject(DescriptorRecord(ty, body, optional));
            && Types(record) == 1 + (if body == [] then 0 else Types(body[0].value))
            && TypeDepth(record) == 1 + (if body == [] then 0 else TypeDepth(body[0].value))
  {
    var entries := DescriptorRecord(ty, body, optional);
    FoundAt(entries, "type", 0);
    var short := [Entry("type", JString(ty))];
    assert short[..0] == [];
    assert TypesIn(short) == 1 && DepthIn(short) == 0;
    var longer := short + body;
    if body != [] {
      assert longer[..1] == short && longer[1] == body[0];
      assert TypesIn(longer) == 1 + Types(body[0].value);
      assert DepthIn(longer) == TypeDepth(body[0].value);
    } else {
      assert longer == short;
    }
    if optional {
      assert entries[..|entries| - 1] == longer && entries[|entries| - 1] == Entry("optional", JBool(true));
      assert TypesIn(entries) == TypesIn(longer) && DepthIn(entries) == DepthIn(longer);
    } else {
      assert entries == longer;
    }
  }

  /** A field may be called `type`, but its value is an object. */
  lemma {:induction false} FieldMapHasNoType(fields: seq<Field>)
    ensures First(FieldEntries(fields), "type").Some? ==> First(FieldEntries(fields), "type").value.JObject?
  {
    var entries := FieldEntries(fields);
    var i := Find(entries, "type");
    if i < |entries| { EntryIsObject(fields, i); }
  }

  lemma {:induction false} EntryIsObject(fields: seq<Field>, i: nat)
    requires i < |FieldEntries(fields)|
    ensures FieldEntries(fields)[i].value.JObject?
    decreases |fields|
  {
    if i < |FieldEntries(fields)| - 1 { EntryIsObject(fields[..|fields| - 1], i); }
  }
}
