/** The metadata providers: each derives zero, one or several fragments for
    an object from its identifier and the source configuration. */
module Metadata {
  import opened Common
  import opened Text
  import opened Identifier

  /** The `object_type` entry of a `FindAndTag` rule: a list of node types, or
      one scalar that the provider wraps into a one-element list. */
  datatype TypeSpec = OneType(name: string) | TypeList(names: seq<string>)

  /** One entry of the `FindAndTag` parameter block, keyed by `name`; an
      absent `object_type`, `uuid_substring` or `tag` is `None`. */
  datatype Rule = Rule(name: string, objectType: Option<TypeSpec>, uuidSubstring: Option<string>, tag: Option<string>)

  /** The entries of a source configuration (`db_config`) the model reads.
      `databaseConfig` is the nested `database_config` entry, given by its
      `metadata_parameters` block (an absent block reads as empty). */
  datatype Config = Config(
    name: string,
    metadata: Option<string>,
    uuidDelimiter: Option<string>,
    timestamp: Option<string>,
    databaseConfig: Option<map<string, seq<Rule>>>)

  /** The provider classes of the registry. `Base` is the `Metadata` class
      itself, reached by the empty provider name. */
  datatype Provider =
    | Base
    | NodeType
    | CaptureDate
    | MyTag1
    | FindTable
    | FindColumn
    | FindAndTag(rules: seq<Rule>)

  /** The Python class a provider is an instance of. */
  function ClassName(p: Provider): string {
    match p
    case Base => "Metadata"
    case NodeType => "NodeTypeMetadata"
    case CaptureDate => "CaptureDateMetadata"
    case MyTag1 => "MyTag1Metadata"
    case FindTable => "FindTableMetadata"
    case FindColumn => "FindColumnMetadata"
    case FindAndTag(_) => "FindAndTagMetadata"
  }

  /** What `derive_metadata` returns: `None`, one dict, or a list of dicts. */
  datatype Derived = Nothing | Single(fragment: Fragment) | Several(fragments: seq<Fragment>) {

    /** Python truthiness: `None`, `{}` and `[]` are false. */
    predicate Truthy() {
      match this
      case Nothing => false
      case Single(f) => f != map[]
      case Several(fs) => fs != []
    }

    /** The fragments in the order they are to be merged. */
    function Fragments(): (fs: seq<Fragment>)
      ensures !Truthy() ==> forall i | 0 <= i < |fs| :: fs[i] == map[]
      ensures Truthy() ==> fs != []
    {
      match this
      case Nothing => []
      case Single(f) => [f]
      case Several(fs) => fs
    }
  }

  const HotTable: Fragment := map["hot_table" := Flag(true)]
  const HotColumn: Fragment := map["hot_column" := Flag(true)]

  /** `NodeTypeMetadata.derive_metadata`: one `object_type` fragment; a parse
      failure propagates. */
  function NodeTypeDerive(uuid: string, config: Config): (r: Result<Derived>)
    ensures r.Success? <==> GetUuidParts(uuid, config.uuidDelimiter).Success?
    ensures r.Success? ==> r.value.Single? && r.value.fragment.Keys == {"object_type"}
    ensures r.Success? ==> r.value.fragment["object_type"] in {Str("database"), Str("table"), Str("column")}
    ensures r.Success? ==> r.value.fragment["object_type"] == Str(Kind(GetUuidParts(uuid, config.uuidDelimiter).value))
  {
    var p :- GetUuidParts(uuid, config.uuidDelimiter);
    Success(Single(map["object_type" := Str(Kind(p))]))
  }

  /** `CaptureDateMetadata.derive_metadata`: the configured `timestamp`, which
      raises when the entry is missing. */
  function CaptureDateDerive(config: Config): (r: Result<Derived>)
    ensures r.Success? <==> config.timestamp.Some?
    ensures r.Failure? ==> r.error == MissingKey("timestamp")
    ensures r.Success? ==> r.value.Single? && r.value.fragment.Keys == {"capture_date"}
    ensures r.Success? ==> r.value.fragment["capture_date"] == Str(config.timestamp.value)
  {
    match config.timestamp
    case None => Failure(MissingKey("timestamp"))
    case Some(ts) => Success(Single(map["capture_date" := Str(ts)]))
  }

  /** The split `FindTable` and `FindColumn` make: on the configured
      delimiter with no default, so an absent delimiter splits on white
      space, and an empty one raises. */
  function SplitOnConfigured(uuid: string, configured: Option<string>): (r: Result<seq<string>>)
    ensures r.Failure? <==> configured == Some("")
    ensures r.Failure? ==> r.error == EmptySeparator
  {
    match configured
    case None => Success(Words(uuid))
    case Some(d) => if d == [] then Failure(EmptySeparator) else Success(Split(uuid, d))
  }

  /** The split taken apart into database, table, column and type names:
      the unpacking raises unless there are exactly four segments. */
  function UnpackFour(uuid: string, configured: Option<string>): (r: Result<seq<string>>)
    ensures r.Success? ==> |r.value| == 4
    ensures r.Success? <==> SplitOnConfigured(uuid, configured).Success? && |SplitOnConfigured(uuid, configured).value| == 4
  {
    var parts :- SplitOnConfigured(uuid, configured);
    if |parts| != 4 then Failure(UnpackMismatch(|parts|)) else Success(parts)
  }

  /** `FindTableMetadata.derive_metadata`: flag the table named `table_0`. */
  function FindTableDerive(uuid: string, config: Config): (r: Result<Derived>)
    ensures r.Success? <==> UnpackFour(uuid, config.uuidDelimiter).Success?
    ensures r.Success? ==> r.value in {Nothing, Single(HotTable)}
    ensures r.Success? ==> (r.value == Single(HotTable) <==> UnpackFour(uuid, config.uuidDelimiter).value[1] == "table_0")
  {
    var parts :- UnpackFour(uuid, config.uuidDelimiter);
    if parts[1] == "table_0" then Success(Single(HotTable)) else Success(Nothing)
  }

  /** `FindColumnMetadata.derive_metadata`: flag columns whose name contains
      `column_0`. */
  function FindColumnDerive(uuid: string, config: Config): (r: Result<Derived>)
    ensures r.Success? <==> UnpackFour(uuid, config.uuidDelimiter).Success?
    ensures r.Success? ==> r.value in {Nothing, Single(HotColumn)}
    ensures r.Success? ==> (r.value == Single(HotColumn) <==> Contains(UnpackFour(uuid, config.uuidDelimiter).value[2], "column_0"))
  {
    var parts :- UnpackFour(uuid, config.uuidDelimiter);
    if Contains(parts[2], "column_0") then Success(Single(HotColumn)) else Success(Nothing)
  }

  /** The node types a rule applies to: absent means none, a scalar is
      wrapped into a one-element list. */
  function TypesOf(spec: Option<TypeSpec>): seq<string> {
    match spec
    case None => []
    case Some(OneType(t)) => [t]
    case Some(TypeList(ts)) => ts
  }

  /** A rule fires when the node type is among its types and its substring
      (default empty) occurs in the whole identifier. */
  predicate RuleMatches(rule: Rule, kind: string, uuid: string) {
    kind in TypesOf(rule.objectType) && Contains(uuid, rule.uuidSubstring.GetOr(""))
  }

  /** The fragment of a firing rule: the key `tag_` followed by the rule's
      name, holding its tag, which defaults to the empty string. */
  function TagFragment(rule: Rule): (f: Fragment)
    ensures |f| == 1 && "uuid" !in f
  {
    var key := "tag_" + rule.name;
    assert key[0] != "uuid"[0];
    map[key := Str(rule.tag.GetOr(""))]
  }

  /** The fragments of the firing rules, in rule order. */
  function Tags(rules: seq<Rule>, kind: string, uuid: string): (fs: seq<Fragment>)
    ensures |fs| <= |rules|
    ensures forall i | 0 <= i < |fs| :: |fs[i]| == 1 && "uuid" !in fs[i]
  {
    if rules == [] then []
    else
      var head := if RuleMatches(rules[0], kind, uuid) then [TagFragment(rules[0])] else [];
      head + Tags(rules[1..], kind, uuid)
  }

  /** A fragment is produced exactly when some firing rule produces it. */
  lemma {:induction false} TagsFire(rules: seq<Rule>, kind: string, uuid: string, f: Fragment)
    ensures f in Tags(rules, kind, uuid) <==>
            exists j | 0 <= j < |rules| :: RuleMatches(rules[j], kind, uuid) && f == TagFragment(rules[j])
    decreases |rules|
  {
    if rules != [] {
      TagsFire(rules[1..], kind, uuid, f);
      if exists j | 0 <= j < |rules[1..]| :: RuleMatches(rules[1..][j], kind, uuid) && f == TagFragment(rules[1..][j]) {
        var j :| 0 <= j < |rules[1..]| && RuleMatches(rules[1..][j], kind, uuid) && f == TagFragment(rules[1..][j]);
        assert rules[j + 1] == rules[1..][j];
      }
      if exists j | 0 <= j < |rules| :: RuleMatches(rules[j], kind, uuid) && f == TagFragment(rules[j]) {
        var j :| 0 <= j < |rules| && RuleMatches(rules[j], kind, uuid) && f == TagFragment(rules[j]);
        if j > 0 {
          assert rules[1..][j - 1] == rules[j];
        }
      }
    }
  }

  /** Rules are evaluated independently and in order: the fragments of a
      concatenation of rule lists are the concatenation of their fragments. */
  lemma {:induction false} TagsAppend(r1: seq<Rule>, r2: seq<Rule>, kind: string, uuid: string)
    ensures Tags(r1 + r2, kind, uuid) == Tags(r1, kind, uuid) + Tags(r2, kind, uuid)
    decreases |r1|
  {
    if r1 != [] {
      assert (r1 + r2)[1..] == r1[1..] + r2;
      TagsAppend(r1[1..], r2, kind, uuid);
    } else {
      assert r1 + r2 == r2;
    }
  }

  /** `FindAndTagMetadata.derive_metadata`: the identifier is parsed inside
      the rule loop, so without rules nothing is parsed and nothing fails. */
  function FindAndTagDerive(rules: seq<Rule>, uuid: string, config: Config): (r: Result<Derived>)
    ensures rules == [] ==> r == Success(Nothing)
    ensures rules != [] ==> (r.Success? <==> GetUuidParts(uuid, config.uuidDelimiter).Success?)
    ensures r.Success? ==> r.value.Nothing? || (r.value.Several? && r.value.fragments != [])
    ensures r.Success? && r.value.Several? ==> forall i | 0 <= i < |r.value.fragments| :: |r.value.fragments[i]| == 1
    ensures r.Success? && rules != [] ==>
              var fs := Tags(rules, Kind(GetUuidParts(uuid, config.uuidDelimiter).value), uuid);
              r.value == (if fs == [] then Nothing else Several(fs))
  {
    if rules == [] then Success(Nothing)
    else
      var p :- GetUuidParts(uuid, config.uuidDelimiter);
      var fs := Tags(rules, Kind(p), uuid);
      if fs == [] then Success(Nothing) else Success(Several(fs))
  }

  /** `derive_metadata` dispatched on the provider class. */
  function Derive(provider: Provider, uuid: string, config: Config): (r: Result<Derived>)
    ensures r.Success? ==> forall i | 0 <= i < |r.value.Fragments()| :: "uuid" !in r.value.Fragments()[i]
  {
    match provider
    case Base => Success(Single(map[]))
    case NodeType => NodeTypeDerive(uuid, config)
    case CaptureDate => CaptureDateDerive(config)
    case MyTag1 => Success(Single(map["tag" := Str("mytag1")]))
    case FindTable => FindTableDerive(uuid, config)
    case FindColumn => FindColumnDerive(uuid, config)
    case FindAndTag(rules) => FindAndTagDerive(rules, uuid, config)
  }

  /** The base class, `CaptureDate` and `MyTag1` ignore the identifier. */
  lemma ConstantProvidersIgnoreUuid(u1: string, u2: string, config: Config)
    ensures Derive(Base, u1, config) == Derive(Base, u2, config) == Success(Single(map[]))
    ensures Derive(CaptureDate, u1, config) == Derive(CaptureDate, u2, config)
    ensures Derive(MyTag1, u1, config) == Derive(MyTag1, u2, config) == Success(Single(map["tag" := Str("mytag1")]))
  {
  }

  /** On a column identifier whose names are `Clean`, `NodeType` answers
      `column` when table and column names are non-empty. */
  lemma NodeTypeOnUuid(database: string, table: string, column: string, dataType: Option<string>, config: Config)
    requires ParseDelimiter(config.uuidDelimiter) == Delimiter
    requires Clean(database, Delimiter) && Clean(table, Delimiter) && Clean(column, Delimiter)
    requires table != [] && column != []
    ensures NodeTypeDerive(Uuid(database, table, column, dataType), config) == Success(Single(map["object_type" := Str("column")]))
  {
    UuidRoundTrip(database, table, column, dataType, config.uuidDelimiter);
  }

  /** A database identifier, the name followed by the delimiter, parses with
      an empty table part, which is falsy: `NodeType` answers `database`. */
  lemma NodeTypeOnDatabaseId(database: string, config: Config)
    requires ParseDelimiter(config.uuidDelimiter) == Delimiter
    requires Clean(database, Delimiter)
    ensures NodeTypeDerive(database + Delimiter, config) == Success(Single(map["object_type" := Str("database")]))
  {
    var p := UuidParts(database, Some(""), None, None);
    assert p.Parts() == [database, ""];
    assert Free("", Delimiter);
    JoinUnfolded(database, "", "", "", Delimiter);
    assert database + Delimiter + "" == database + Delimiter;
    ParseJoin(p, config.uuidDelimiter);
  }

  /** `NodeType` classifies by segment count when the database, table and
      column segments are non-empty; the type segment may be empty. */
  lemma NodeTypeBySegmentCount(uuid: string, config: Config)
    requires GetUuidParts(uuid, config.uuidDelimiter).Success?
    requires forall i | 0 <= i < |GetUuidParts(uuid, config.uuidDelimiter).value.Parts()| && i < 3 ::
               GetUuidParts(uuid, config.uuidDelimiter).value.Parts()[i] != []
    ensures var n := |GetUuidParts(uuid, config.uuidDelimiter).value.Parts()|;
            var kind := NodeTypeDerive(uuid, config).value.fragment["object_type"];
            && (kind == Str("database") <==> n == 1)
            && (kind == Str("table") <==> n == 2)
            && (kind == Str("column") <==> n == 4)
  {
    KindBySegmentCount(uuid, config.uuidDelimiter);
  }

  /** With the delimiter configured as `"::"`, `FindTable` flags a column
      identifier exactly when its table is `table_0`. */
  lemma FindTableOnUuid(database: string, table: string, column: string, dataType: Option<string>, config: Config)
    requires config.uuidDelimiter == Some(Delimiter)
    requires Clean(database, Delimiter) && Clean(table, Delimiter) && Clean(column, Delimiter)
    ensures FindTableDerive(Uuid(database, table, column, dataType), config)
              == Success(if table == "table_0" then Single(HotTable) else Nothing)
  {
    UuidRoundTrip(database, table, column, dataType, config.uuidDelimiter);
  }

  /** With the delimiter configured as `"::"`, `FindColumn` flags a column
      identifier exactly when its column name contains `column_0`. */
  lemma FindColumnOnUuid(database: string, table: string, column: string, dataType: Option<string>, config: Config)
    requires config.uuidDelimiter == Some(Delimiter)
    requires Clean(database, Delimiter) && Clean(table, Delimiter) && Clean(column, Delimiter)
    ensures FindColumnDerive(Uuid(database, table, column, dataType), config)
              == Success(if Contains(column, "column_0") then Single(HotColumn) else Nothing)
  {
    UuidRoundTrip(database, table, column, dataType, config.uuidDelimiter);
  }

  /** Without a configured delimiter `FindTable` and `FindColumn` split on
      white space, so a column identifier without white space is one
      segment and the four-way unpacking raises. */
  lemma FindWithoutDelimiterFails(database: string, table: string, column: string, dataType: Option<string>, config: Config)
    requires config.uuidDelimiter.None?
    requires NoSpace(Uuid(database, table, column, dataType))
    ensures FindTableDerive(Uuid(database, table, column, dataType), config) == Failure(UnpackMismatch(1))
    ensures FindColumnDerive(Uuid(database, table, column, dataType), config) == Failure(UnpackMismatch(1))
  {
    WordsOfSpaceless(Uuid(database, table, column, dataType));
  }

  /** The defaults of a rule: without `object_type` it never fires; without
      `uuid_substring` it fires on every identifier of a listed type. */
  lemma RuleDefaults(rule: Rule, kind: string, uuid: string)
    ensures rule.objectType.None? ==> !RuleMatches(rule, kind, uuid)
    ensures rule.objectType == Some(TypeList([])) ==> !RuleMatches(rule, kind, uuid)
    ensures rule.uuidSubstring.None? ==> (RuleMatches(rule, kind, uuid) <==> kind in TypesOf(rule.objectType))
  {
    assert Occurs(uuid, "", 0);
  }

  /** `FindAndTag` tags a column identifier with every rule that lists
      `column` and whose substring occurs in the identifier, in rule order. */
  lemma FindAndTagOnUuid(rules: seq<Rule>, database: string, table: string, column: string, dataType: Option<string>, config: Config)
    requires ParseDelimiter(config.uuidDelimiter) == Delimiter
    requires Clean(database, Delimiter) && Clean(table, Delimiter) && Clean(column, Delimiter)
    requires table != [] && column != [] && rules != []
    ensures var uuid := Uuid(database, table, column, dataType);
            var fs := Tags(rules, "column", uuid);
            FindAndTagDerive(rules, uuid, config) == Success(if fs == [] then Nothing else Several(fs))
  {
    UuidRoundTrip(database, table, column, dataType, config.uuidDelimiter);
  }
}
