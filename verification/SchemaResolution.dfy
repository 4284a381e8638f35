/**
 Resolving a schema against the catalog of registered schemas: the walk up the
 `extends` chain with its ordering, cycle, depth, field and successor rules.
 */
module SchemaResolution {
  import opened Base
  import opened SchemaLanguage

  datatype ErrorCode =
    | INVALID_SCHEMA
    | INVALID_SCHEMA_REFERENCE

  /** Where and by whom a schema is registered. */
  datatype Coordinates = Coordinates(
    networkId: int,
    publisher: string,
    ledgerIndex: int,
    transactionIndex: int)

  datatype RegisteredSchema = RegisteredSchema(uid: string, definition: SchemaDefinition, at: Coordinates)

  type Catalog = map<string, RegisteredSchema>

  datatype ResolvedSchema = ResolvedSchema(
    definition: SchemaDefinition,
    fields: seq<Field>,
    lineage: seq<string>)

  predicate IsEarlier(a: Coordinates, b: Coordinates) {
    a.ledgerIndex < b.ledgerIndex || (a.ledgerIndex == b.ledgerIndex && a.transactionIndex < b.transactionIndex)
  }

  function RequireReference(uid: string, at: Coordinates, catalog: Catalog): Result<RegisteredSchema, ErrorCode> {
    if uid !in catalog || catalog[uid].uid != uid then Err(INVALID_SCHEMA_REFERENCE)
    else if catalog[uid].at.networkId != at.networkId then Err(INVALID_SCHEMA_REFERENCE)
    else if !IsEarlier(catalog[uid].at, at) then Err(INVALID_SCHEMA_REFERENCE)
    else Ok(catalog[uid])
  }

  predicate DistinctNames(fields: seq<Field>) {
    forall i, j :: 0 <= i < j < |fields| ==> fields[i].name != fields[j].name
  }

  /** The rule on `supersedes`: an earlier schema of the same publisher. */
  predicate MaySupersede(schema: SchemaDefinition, at: Coordinates, catalog: Catalog) {
    schema.supersedes.None?
    || (var previous := RequireReference(schema.supersedes.value, at, catalog);
        previous.Ok? && previous.value.at.publisher == at.publisher)
  }

  /** A stored definition is read through the parser again before it is resolved. */
  function Reparse(definition: SchemaDefinition): Option<SchemaDefinition> {
    SchemaOf(SchemaJson(definition))
  }

  /** The outcome of `resolve` as a function of the schemas already being visited. */
  function Resolve(schema: SchemaDefinition, at: Coordinates, catalog: Catalog, visiting: set<string>)
    : (r: Result<ResolvedSchema, ErrorCode>)
    ensures r.Ok? ==> DistinctNames(r.value.fields) && CountFields(r.value.fields) <= MAX_SCHEMA_FIELDS
    decreases MAX_SCHEMA_DEPTH - Min(|visiting|, MAX_SCHEMA_DEPTH)
  {
    match schema.ext
    case None => Extend(schema, at, catalog, [], [])
    case Some(parentUid) =>
      if |visiting| >= MAX_SCHEMA_DEPTH - 1 || parentUid in visiting then Err(INVALID_SCHEMA_REFERENCE)
      else
        match RequireReference(parentUid, at, catalog)
        case Err(e) => Err(e)
        case Ok(parent) =>
          match Reparse(parent.definition)
          case None => Err(INVALID_SCHEMA)
          case Some(definition) =>
            match Resolve(definition, parent.at, catalog, visiting + {parentUid})
            case Err(e) => Err(e)
            case Ok(resolved) => Extend(schema, at, catalog, resolved.fields, resolved.lineage + [parentUid])
  }

  /** Adding a schema's own fields to those it inherits. */
  function Extend(schema: SchemaDefinition, at: Coordinates, catalog: Catalog, inherited: seq<Field>, lineage:
                  seq<string>)
    : Result<ResolvedSchema, ErrorCode>
  {
    var fields := inherited + schema.fields;
    if !DistinctNames(fields) then Err(INVALID_SCHEMA_REFERENCE)
    else if CountFields(fields) > MAX_SCHEMA_FIELDS then Err(INVALID_SCHEMA)
    else if !MaySupersede(schema, at, catalog) then Err(INVALID_SCHEMA_REFERENCE)
    else Ok(ResolvedSchema(schema, fields, lineage))
  }

  // ---- The walk as the program performs it ---------------------------------

  /** The set of identifiers shared by all levels of one resolution. */
  class Visiting {
    var uids: set<string>

    constructor ()
      ensures uids == {}
    {
      uids := {};
    }
  }

  /** The loop over a schema's own fields: a name that the map already holds is refused. */
  method AddOwnFields(inherited: seq<Field>, own: seq<Field>) returns (r: Option<seq<Field>>)
    requires DistinctNames(inherited)
    ensures r == if DistinctNames(inherited + own) then Some(inherited + own) else None
    ensures r.Some? <==> forall i, j :: 0 <= i < j < |inherited + own| ==>
              (inherited + own)[i].name != (inherited + own)[j].name
  {
    var fields := inherited;
    for i := 0 to |own|
      invariant fields == inherited + own[..i]
      invariant DistinctNames(fields)
    {
      if exists k :: 0 <= k < |fields| && fields[k].name == own[i].name {
        ghost var k :| 0 <= k < |fields| && fields[k].name == own[i].name;
        assert (inherited + own)[k].name == (inherited + own)[|inherited| + i].name;
        return None;
      }
      fields := fields + [own[i]];
    }
    assert own[..|own|] == own;
    return Some(fields);
  }

  method ResolveVisiting(schema: SchemaDefinition, at: Coordinates, catalog: Catalog, visiting: Visiting)
    returns (r: Result<ResolvedSchema, ErrorCode>)
    modifies visiting
    ensures r == Resolve(schema, at, catalog, old(visiting.uids))
    ensures r.Ok? ==> visiting.uids == old(visiting.uids)
    decreases MAX_SCHEMA_DEPTH - Min(|visiting.uids|, MAX_SCHEMA_DEPTH)
  {
    hide Reparse, CountFields, DistinctNames;
    var fields: seq<Field> := [];
    var lineage: seq<string> := [];
    if schema.ext.Some? {
      var parentUid := schema.ext.value;
      if |visiting.uids| >= MAX_SCHEMA_DEPTH - 1 || parentUid in visiting.uids {
        return Err(INVALID_SCHEMA_REFERENCE);
      }
      var parent := RequireReference(parentUid, at, catalog);
      if parent.Err? { return Err(parent.error); }
      visiting.uids := visiting.uids + {parentUid};
      var definition := Reparse(parent.value.definition);
      if definition.None? { return Err(INVALID_SCHEMA); }
      var resolved := ResolveVisiting(definition.value, parent.value.at, catalog, visiting);
      if resolved.Err? { return resolved; }
      visiting.uids := visiting.uids - {parentUid};
      assert visiting.uids == old(visiting.uids);
      fields, lineage := resolved.value.fields, resolved.value.lineage + [parentUid];
    }
    var merged := AddOwnFields(fields, schema.fields);
    if merged.None? { return Err(INVALID_SCHEMA_REFERENCE); }
    fields := merged.value;
    var count := CountSchemaFields(fields);
    if count > MAX_SCHEMA_FIELDS { return Err(INVALID_SCHEMA); }
    if schema.supersedes.Some? {
      var previous := RequireReference(schema.supersedes.value, at, catalog);
      if previous.Err? { return Err(previous.error); }
      if previous.value.at.publisher != at.publisher { return Err(INVALID_SCHEMA_REFERENCE); }
    }
    return Ok(ResolvedSchema(schema, fields, lineage));
  }

  /** The checks a resolution context must pass before any walk starts. */
  predicate ValidContext(at: Coordinates, isAddress: string -> bool) {
    IsUint32(at.networkId) && IsUint32(at.ledgerIndex) && IsUint32(at.transactionIndex) && isAddress(at.publisher)
  }

  function ResolveSchema(input: SchemaDefinition, at: Coordinates, catalog: Catalog, isAddress: string -> bool)
    : Result<ResolvedSchema, ErrorCode>
  {
    if !ValidContext(at, isAddress) then Err(INVALID_SCHEMA_REFERENCE)
    else
      match Reparse(input)
      case None => Err(INVALID_SCHEMA)
      case Some(schema) => Resolve(schema, at, catalog, {})
  }

  // ---- The verdict is final --------------------------------------------------

  /** What a resolution at a position can see of a catalog. */
  function Visible(catalog: Catalog, uid: string, at: Coordinates): Option<RegisteredSchema> {
    if uid in catalog && IsEarlier(catalog[uid].at, at) then Some(catalog[uid]) else None
  }

  ghost predicate SameView(a: Catalog, b: Catalog, at: Coordinates) {
    forall uid :: Visible(a, uid, at) == Visible(b, uid, at)
  }

  lemma SameViewSameReference(at: Coordinates, a: Catalog, b: Catalog)
    requires SameView(a, b, at)
    ensures forall uid :: RequireReference(uid, at, a) == RequireReference(uid, at, b)
  {
    forall uid ensures RequireReference(uid, at, a) == RequireReference(uid, at, b) {
      assert Visible(a, uid, at) == Visible(b, uid, at);
    }
  }

  lemma SameViewEarlier(at: Coordinates, earlier: Coordinates, a: Catalog, b: Catalog)
    requires SameView(a, b, at) && IsEarlier(earlier, at)
    ensures SameView(a, b, earlier)
  {
    forall uid ensures Visible(a, uid, earlier) == Visible(b, uid, earlier) {
      assert Visible(a, uid, at) == Visible(b, uid, at);
    }
  }

  lemma {:induction false} SameViewSameVerdict(
    schema: SchemaDefinition, at: Coordinates, a: Catalog, b: Catalog, visiting: set<string>)
    requires SameView(a, b, at)
    ensures Resolve(schema, at, a, visiting) == Resolve(schema, at, b, visiting)
    decreases MAX_SCHEMA_DEPTH - Min(|visiting|, MAX_SCHEMA_DEPTH)
  {
    hide Reparse, CountFields, DistinctNames;
    SameViewSameReference(at, a, b);
    if schema.ext.Some? && |visiting| < MAX_SCHEMA_DEPTH - 1 && schema.ext.value !in visiting {
      var parent := RequireReference(schema.ext.value, at, a);
      if parent.Ok? && Reparse(parent.value.definition).Some? {
        SameViewEarlier(at, parent.value.at, a, b);
        SameViewSameVerdict(
          Reparse(parent.value.definition).value, parent.value.at, a, b, visiting + {schema.ext.value});
      }
    }
  }

  /** A catalog grown by registrations that are not earlier than a position. */
  ghost predicate GrownSince(a: Catalog, b: Catalog, at: Coordinates) {
    && (forall uid :: uid in a ==> uid in b && b[uid] == a[uid])
    && (forall uid :: uid in b && uid !in a ==> !IsEarlier(b[uid].at, at))
  }

  /** No later registration changes the fields, the lineage or the error code of a schema. */
  lemma VerdictIsFinal(input: SchemaDefinition, at: Coordinates, a: Catalog, b: Catalog, isAddress: string -> bool)
    requires GrownSince(a, b, at)
    ensures ResolveSchema(input, at, a, isAddress) == ResolveSchema(input, at, b, isAddress)
  {
    hide Reparse, Resolve;
    if Reparse(input).Some? {
      SameViewSameVerdict(Reparse(input).value, at, a, b, {});
    }
  }

  // ---- What a resolution means ------------------------------------------------

  /** One schema on the path from the root to the schema being resolved. */
  datatype Level = Level(definition: SchemaDefinition, at: Coordinates)

  ghost predicate Registered(lineage: seq<string>, networkId: int, catalog: Catalog) {
    forall k :: 0 <= k < |lineage| ==>
      && lineage[k] in catalog
      && catalog[lineage[k]].uid == lineage[k]
      && catalog[lineage[k]].at.networkId == networkId
      && Reparse(catalog[lineage[k]].definition) == Some(catalog[lineage[k]].definition)
  }

  /** The levels of a lineage, root first; the last level is the schema itself. */
  function Levels(lineage: seq<string>, own: Level, catalog: Catalog): (levels: seq<Level>)
    requires forall k :: 0 <= k < |lineage| ==> lineage[k] in catalog
    ensures |levels| == |lineage| + 1
  {
    seq(|lineage|, i requires 0 <= i < |lineage| => Level(catalog[lineage[i]].definition, catalog[lineage[i]].at)) + [own]
  }

  function AllFields(levels: seq<Level>): seq<Field> {
    if levels == [] then []
    else AllFields(levels[..|levels| - 1]) + levels[|levels| - 1].definition.fields
  }

  /** Each level names the one before it as its parent, and the root names none. */
  ghost predicate Linked(levels: seq<Level>, lineage: seq<string>)
    requires |levels| == |lineage| + 1
  {
    forall i :: 0 <= i < |levels| ==> levels[i].definition.ext == if i == 0 then None else Some(lineage[i - 1])
  }

  /** Ledger positions grow from the root to the schema itself. */
  ghost predicate Ascending(levels: seq<Level>) {
    forall i, j :: 0 <= i < j < |levels| ==>
      || levels[i].at.ledgerIndex < levels[j].at.ledgerIndex
      || (levels[i].at.ledgerIndex == levels[j].at.ledgerIndex
          && levels[i].at.transactionIndex < levels[j].at.transactionIndex)
  }

  /** A level that names a predecessor names an earlier schema of its own publisher on its own network. */
  ghost predicate SuccessionHolds(levels: seq<Level>, catalog: Catalog) {
    forall i :: 0 <= i < |levels| && levels[i].definition.supersedes.Some? ==>
      var uid, at := levels[i].definition.supersedes.value, levels[i].at;
      && uid in catalog && catalog[uid].uid == uid && catalog[uid].at.networkId == at.networkId
      && (catalog[uid].at.ledgerIndex < at.ledgerIndex
          || (catalog[uid].at.ledgerIndex == at.ledgerIndex && catalog[uid].at.transactionIndex < at.transactionIndex))
      && catalog[uid].at.publisher == at.publisher
  }

  lemma SuccessionOfLast(levels: seq<Level>, own: Level, catalog: Catalog)
    ensures SuccessionHolds(levels + [own], catalog) <==>
              SuccessionHolds(levels, catalog) && MaySupersede(own.definition, own.at, catalog)
  {
    var all := levels + [own];
    assert all[|levels|] == own;
    assert forall i :: 0 <= i < |levels| ==> all[i] == levels[i];
  }

  /** The declarative reading of inheritance, over a whole root-to-parent lineage at once. */
  ghost predicate Admissible(lineage: seq<string>, own: Level, catalog: Catalog, room: int) {
    && |lineage| <= room
    && Registered(lineage, own.at.networkId, catalog)
    && var levels := Levels(lineage, own, catalog);
    && Linked(levels, lineage)
    && Ascending(levels)
    && SuccessionHolds(levels, catalog)
    && DistinctNames(AllFields(levels))
    && CountFields(AllFields(levels)) <= 256
  }

  lemma {:induction false} CountOfConcat(a: seq<Field>, b: seq<Field>)
    ensures CountFields(a + b) == CountFields(a) + CountFields(b)
    decreases |b|
  {
    hide Inner;
    if b == [] {
      assert a + b == a;
    } else {
      var init := b[..|b| - 1];
      CountOfConcat(a, init);
      assert (a + b)[..|a + b| - 1] == a + init;
    }
  }

  /** The levels seen from the direct parent are the same levels, without the last. */
  lemma LevelsOfParent(lineage: seq<string>, own: Level, catalog: Catalog)
    requires lineage != [] && Registered(lineage, own.at.networkId, catalog)
    ensures var n := |lineage| - 1;
            var parent := catalog[lineage[n]];
            && Registered(lineage[..n], parent.at.networkId, catalog)
            && Levels(lineage, own, catalog)
               == Levels(lineage[..n], Level(parent.definition, parent.at), catalog) + [own]
            && AllFields(Levels(lineage, own, catalog))
               == AllFields(Levels(lineage[..n], Level(parent.definition, parent.at), catalog)) + own.definition.fields
  {
    hide Reparse;
    var n := |lineage| - 1;
    var parent := catalog[lineage[n]];
    var levels, below := Levels(lineage, own, catalog), Levels(lineage[..n], Level(parent.definition, parent.at), catalog);
    assert levels == below + [own];
    assert levels[..|levels| - 1] == below;
  }

  /** The rules a level must meet on top of what it inherits. */
  ghost predicate Extends(own: Level, inherited: seq<Field>, catalog: Catalog) {
    && MaySupersede(own.definition, own.at, catalog)
    && DistinctNames(inherited + own.definition.fields)
    && CountFields(inherited + own.definition.fields) <= MAX_SCHEMA_FIELDS
  }

  lemma AdmissibleParent(lineage: seq<string>, own: Level, catalog: Catalog, room: int)
    requires lineage != [] && Admissible(lineage, own, catalog, room)
    ensures var n := |lineage| - 1;
            var parent := catalog[lineage[n]];
            && Admissible(lineage[..n], Level(parent.definition, parent.at), catalog, room - 1)
            && own.definition.ext == Some(lineage[n])
            && RequireReference(lineage[n], own.at, catalog) == Ok(parent)
            && Reparse(parent.definition) == Some(parent.definition)
            && Extends(own, AllFields(Levels(lineage[..n], Level(parent.definition, parent.at), catalog)), catalog)
            && AllFields(Levels(lineage, own, catalog))
               == AllFields(Levels(lineage[..n], Level(parent.definition, parent.at), catalog)) + own.definition.fields
  {
    hide Reparse, MaySupersede;
    var n := |lineage| - 1;
    var parent := catalog[lineage[n]];
    LevelsOfParent(lineage, own, catalog);
    var levels, below := Levels(lineage, own, catalog), Levels(lineage[..n], Level(parent.definition, parent.at), catalog);
    assert forall i | 0 <= i <= n :: below[i] == levels[i];
    assert levels[n + 1] == own && levels[n] == Level(parent.definition, parent.at);
    SuccessionOfLast(below, own, catalog);
    assert levels == below + [own];
    var all, inherited := AllFields(levels), AllFields(below);
    CountOfConcat(inherited, own.definition.fields);
    assert forall i | 0 <= i < |inherited| :: inherited[i] == all[i];
  }

  lemma RegisteredLonger(lineage: seq<string>, parentUid: string, networkId: int, catalog: Catalog)
    requires Registered(lineage, networkId, catalog) && Registered([parentUid], networkId, catalog)
    ensures Registered(lineage + [parentUid], networkId, catalog)
  {
    hide Reparse;
    var longer := lineage + [parentUid];
    forall k | 0 <= k < |longer| ensures
        && longer[k] in catalog && catalog[longer[k]].uid == longer[k] && catalog[longer[k]].at.networkId == networkId
        && Reparse(catalog[longer[k]].definition) == Some(catalog[longer[k]].definition)
    {
      if k == |lineage| { assert longer[k] == [parentUid][0]; } else { assert longer[k] == lineage[k]; }
    }
  }

  lemma LinkedLonger(levels: seq<Level>, lineage: seq<string>, parentUid: string, own: Level)
    requires |levels| == |lineage| + 1 && Linked(levels, lineage) && own.definition.ext == Some(parentUid)
    ensures Linked(levels + [own], lineage + [parentUid])
  {
  }

  lemma AdmissibleChild(lineage: seq<string>, parentUid: string, own: Level, catalog: Catalog, room: int)
    requires RequireReference(parentUid, own.at, catalog).Ok? && own.definition.ext == Some(parentUid)
    requires Reparse(catalog[parentUid].definition) == Some(catalog[parentUid].definition)
    requires Admissible(lineage, Level(catalog[parentUid].definition, catalog[parentUid].at), catalog, room - 1)
    requires Extends(own, AllFields(Levels(lineage, Level(catalog[parentUid].definition, catalog[parentUid].at), catalog)), catalog)
    ensures Admissible(lineage + [parentUid], own, catalog, room)
    ensures AllFields(Levels(lineage + [parentUid], own, catalog))
            == AllFields(Levels(lineage, Level(catalog[parentUid].definition, catalog[parentUid].at), catalog))
               + own.definition.fields
  {
    hide Reparse, MaySupersede, DistinctNames, CountFields;
    var parent, longer, n := catalog[parentUid], lineage + [parentUid], |lineage|;
    RegisteredLonger(lineage, parentUid, own.at.networkId, catalog);
    assert longer[..n] == lineage && longer[n] == parentUid;
    LevelsOfParent(longer, own, catalog);
    var levels, below := Levels(longer, own, catalog), Levels(lineage, Level(parent.definition, parent.at), catalog);
    assert forall i | 0 <= i <= n :: levels[i] == below[i];
    assert levels[n + 1] == own && levels[n] == Level(parent.definition, parent.at);
    LinkedLonger(below, lineage, parentUid, own);
    assert levels == below + [own];
    SuccessionOfLast(below, own, catalog);
    assert Ascending(levels) by {
      forall i, j | 0 <= i < j < |levels| ensures IsEarlier(levels[i].at, levels[j].at) {
        if j == n + 1 && i < n { assert IsEarlier(below[i].at, below[n].at); }
      }
    }
  }

  lemma ReparsedIsSame(definition: SchemaDefinition)
    ensures Reparse(definition).Some? ==> Reparse(definition) == Some(definition)
  {
    SchemaReadBack(definition);
  }

  lemma RootLevel(own: Level, catalog: Catalog, room: int)
    requires own.definition.ext.None? && room >= 0
    ensures AllFields(Levels([], own, catalog)) == own.definition.fields == [] + own.definition.fields
    ensures Admissible([], own, catalog, room) <==> Extends(own, [], catalog)
  {
    hide MaySupersede;
    assert Levels([], own, catalog) == [own] == [] + [own];
    SuccessionOfLast([], own, catalog);
    assert [own][..0] == [];
    assert [] + own.definition.fields == own.definition.fields;
  }

  lemma NoLineageNoParent(own: Level, catalog: Catalog, room: int)
    requires Admissible([], own, catalog, room)
    ensures own.definition.ext.None?
  {
    assert Levels([], own, catalog)[0] == own;
  }

  /** Every successful resolution yields an admissible lineage and the fields of all its levels. */
  lemma {:induction false} ResolveIsSound(schema: SchemaDefinition, at: Coordinates, catalog: Catalog, visiting:
                                          set<string>)
    requires Resolve(schema, at, catalog, visiting).Ok?
    requires |visiting| < MAX_SCHEMA_DEPTH
    ensures var r := Resolve(schema, at, catalog, visiting).value;
            && Admissible(r.lineage, Level(schema, at), catalog, MAX_SCHEMA_DEPTH - 1 - |visiting|)
            && r.fields == AllFields(Levels(r.lineage, Level(schema, at), catalog))
            && r.definition == schema
    decreases MAX_SCHEMA_DEPTH - |visiting|
  {
    hide Admissible, AllFields, Levels, Reparse, MaySupersede, DistinctNames, CountFields;
    match schema.ext {
      case None =>
        RootLevel(Level(schema, at), catalog, MAX_SCHEMA_DEPTH - 1 - |visiting|);
      case Some(parentUid) =>
        var parent := RequireReference(parentUid, at, catalog).value;
        ReparsedIsSame(parent.definition);
        ResolveIsSound(parent.definition, parent.at, catalog, visiting + {parentUid});
        var resolved := Resolve(parent.definition, parent.at, catalog, visiting + {parentUid}).value;
        AdmissibleChild(resolved.lineage, parentUid, Level(schema, at), catalog, MAX_SCHEMA_DEPTH - 1 - |visiting|);
    }
  }

  /** The schemas being visited are the descendants on the path, none of them earlier than the current level. */
  ghost predicate NoneEarlier(visiting: set<string>, at: Coordinates, catalog: Catalog) {
    forall uid :: uid in visiting ==> uid in catalog && !IsEarlier(catalog[uid].at, at)
  }

  /** The cycle guard never decides: whatever it refuses, the ordering rule refuses with the same code. */
  lemma CycleGuardIsImplied(uid: string, at: Coordinates, catalog: Catalog, visiting: set<string>)
    requires NoneEarlier(visiting, at, catalog)
    ensures uid in visiting ==> RequireReference(uid, at, catalog) == Err(INVALID_SCHEMA_REFERENCE)
    ensures RequireReference(uid, at, catalog).Ok? ==> NoneEarlier(visiting + {uid}, catalog[uid].at, catalog)
  {
  }

  /** Every admissible lineage is found. */
  lemma {:induction false} ResolveIsComplete(lineage: seq<string>, own: Level, catalog: Catalog, visiting: set<string>)
    requires |visiting| < MAX_SCHEMA_DEPTH && NoneEarlier(visiting, own.at, catalog)
    requires Admissible(lineage, own, catalog, MAX_SCHEMA_DEPTH - 1 - |visiting|)
    ensures Resolve(own.definition, own.at, catalog, visiting)
            == Ok(ResolvedSchema(own.definition, AllFields(Levels(lineage, own, catalog)), lineage))
    decreases |lineage|
  {
    hide AllFields, Levels, Reparse, MaySupersede, DistinctNames, CountFields, Linked, Ascending, SuccessionHolds;
    var room := MAX_SCHEMA_DEPTH - 1 - |visiting|;
    if lineage == [] {
      NoLineageNoParent(own, catalog, room);
      RootLevel(own, catalog, room);
    } else {
      var n := |lineage| - 1;
      var parentUid := lineage[n];
      var parent := catalog[parentUid];
      AdmissibleParent(lineage, own, catalog, room);
      CycleGuardIsImplied(parentUid, own.at, catalog, visiting);
      ResolveIsComplete(lineage[..n], Level(parent.definition, parent.at), catalog, visiting + {parentUid});
      assert lineage[..n] + [parentUid] == lineage;
    }
  }

  /**
   Resolution against any catalog, cyclic ones included, succeeds exactly on the admissible lineages of
   at most 15 ancestors, and returns that lineage with the fields of all its levels.
   */
  lemma ResolutionIsExact(schema: SchemaDefinition, at: Coordinates, catalog: Catalog, lineage: seq<string>)
    ensures Resolve(schema, at, catalog, {}).Ok? && Resolve(schema, at, catalog, {}).value.lineage == lineage
            <==> Admissible(lineage, Level(schema, at), catalog, 15)
    ensures Admissible(lineage, Level(schema, at), catalog, 15) ==>
              Resolve(schema, at, catalog, {}).value.fields == AllFields(Levels(lineage, Level(schema, at), catalog))
  {
    hide Resolve, Admissible, AllFields, Levels;
    if Resolve(schema, at, catalog, {}).Ok? {
      ResolveIsSound(schema, at, catalog, {});
    }
    if Admissible(lineage, Level(schema, at), catalog, 15) {
      ResolveIsComplete(lineage, Level(schema, at), catalog, {});
    }
  }

  /** Names are told apart in pairs. */
  lemma DistinctExactly(fields: seq<Field>)
    ensures DistinctNames(fields) <==>
              forall i, j :: 0 <= i < |fields| && 0 <= j < |fields| && i != j ==> fields[i].name != fields[j].name
  {
  }

  // ---- The same in catalog terms -----------------------------------------------------------------------

  /**
   Whatever resolves: its ancestors are at most 15 schemas of the same network, linked by `extends`, each registered
   before the next, with all field names distinct and at most 256 fields, and every level that names a predecessor
   names an earlier schema of its own publisher.
   */
  lemma ResolvedLineage(schema: SchemaDefinition, at: Coordinates, catalog: Catalog)
    requires Resolve(schema, at, catalog, {}).Ok?
    ensures var r := Resolve(schema, at, catalog, {}).value;
            var n := |r.lineage|;
            && n <= 15 && (forall k :: 0 <= k < n ==> r.lineage[k] in catalog)
            && var levels := Levels(r.lineage, Level(schema, at), catalog);
            && (forall k :: 0 <= k < n ==>
                  && catalog[r.lineage[k]].uid == r.lineage[k] && catalog[r.lineage[k]].at.networkId == at.networkId
                  && levels[k] == Level(catalog[r.lineage[k]].definition, catalog[r.lineage[k]].at))
            && levels[n] == Level(schema, at)
            && (forall k :: 0 <= k <= n ==> levels[k].definition.ext == if k == 0 then None else Some(r.lineage[k - 1]))
            && (forall i, j :: 0 <= i < j <= n ==>
                  || levels[i].at.ledgerIndex < levels[j].at.ledgerIndex
                  || (levels[i].at.ledgerIndex == levels[j].at.ledgerIndex
                      && levels[i].at.transactionIndex < levels[j].at.transactionIndex))
            && (forall k :: 0 <= k <= n && levels[k].definition.supersedes.Some? ==>
                  var u, own := levels[k].definition.supersedes.value, levels[k].at;
                  && u in catalog && catalog[u].uid == u && catalog[u].at.networkId == at.networkId
                  && catalog[u].at.publisher == own.publisher
                  && (catalog[u].at.ledgerIndex < own.ledgerIndex
                      || (catalog[u].at.ledgerIndex == own.ledgerIndex
                          && catalog[u].at.transactionIndex < own.transactionIndex)))
            && (forall i, j :: 0 <= i < j < |r.fields| ==> r.fields[i].name != r.fields[j].name)
            && CountFields(r.fields) <= 256
  {
    hide Resolve, AllFields, Reparse, CountFields;
    ResolveIsSound(schema, at, catalog, {});
  }

  /**
   Naming a predecessor costs nothing but the rule on it: a schema that resolves without it resolves with it exactly
   when the predecessor is an earlier schema of the same publisher and network, and is refused as a reference otherwise.
   */
  lemma SuccessionIsExact(schema: SchemaDefinition, at: Coordinates, catalog: Catalog, visiting: set<string>, uid: string)
    requires schema.supersedes == Some(uid)
    ensures var without := Resolve(schema.(supersedes := None), at, catalog, visiting);
            Resolve(schema, at, catalog, visiting) ==
            if without.Err? then without
            else if && uid in catalog && catalog[uid].uid == uid && catalog[uid].at.networkId == at.networkId
                    && catalog[uid].at.publisher == at.publisher
                    && (catalog[uid].at.ledgerIndex < at.ledgerIndex
                        || (catalog[uid].at.ledgerIndex == at.ledgerIndex
                            && catalog[uid].at.transactionIndex < at.transactionIndex))
            then Ok(without.value.(definition := schema))
            else Err(INVALID_SCHEMA_REFERENCE)
  {
    hide Reparse, CountFields, DistinctNames;
  }

  /** A parent that is missing, foreign or not earlier is refused as a reference, whatever else the schema says. */
  lemma UnusableParentIsRefused(schema: SchemaDefinition, at: Coordinates, catalog: Catalog, visiting: set<string>,
                                uid: string)
    requires schema.ext == Some(uid)
    requires !(&& uid in catalog && catalog[uid].uid == uid && catalog[uid].at.networkId == at.networkId
               && (catalog[uid].at.ledgerIndex < at.ledgerIndex
                   || (catalog[uid].at.ledgerIndex == at.ledgerIndex
                       && catalog[uid].at.transactionIndex < at.transactionIndex)))
    ensures Resolve(schema, at, catalog, visiting) == Err(INVALID_SCHEMA_REFERENCE)
  {
  }
}
