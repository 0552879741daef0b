/** The discovery engine of `Database`: the provider list read from the
    configuration, the registry lookup of provider classes, the merge of
    provider fragments into a record, and `discover`, a walk over tables and
    their columns that builds one record per column. */
module Engine {
  import opened Common
  import opened Text
  import opened Identifier
  import opened Metadata
  import opened Source

  // ---------------------------------------------------------------------
  // Provider configuration
  // ---------------------------------------------------------------------

  /** The provider names of the `metadata` entry: the entry (empty when
      absent) cut at every comma, each piece stripped of edge white space,
      in order. */
  function ProviderNames(metadata: Option<string>): (names: seq<string>)
    ensures |names| == |Split(metadata.GetOr(""), ",")| >= 1
    ensures metadata.None? ==> names == [""]
    ensures forall i | 0 <= i < |names| :: names[i] == Strip(Split(metadata.GetOr(""), ",")[i])
    ensures forall i | 0 <= i < |names| :: Trimmed(names[i])
  {
    var raw := Split(metadata.GetOr(""), ",");
    assert metadata.None? ==> raw == [""];
    seq(|raw|, i requires 0 <= i < |raw| => Strip(raw[i]))
  }

  /** A string without a comma is a segment the comma split keeps whole. */
  lemma CommaFree(x: string)
    requires forall k | 0 <= k < |x| :: x[k] != ','
    ensures Clean(x, ",") && Free(x, ",")
  {
    forall i | 0 <= i < |x|
      ensures !Occurs(x + ",", ",", i)
    {
      assert (x + ",")[i] == x[i];
    }
    forall i | 0 <= i <= |x|
      ensures !Occurs(x, ",", i)
    {
      if i < |x| {
        assert x[i..i + 1] == (x + ",")[i..i + 1];
        assert !Occurs(x + ",", ",", i);
      }
    }
  }

  /** The usual form of the entry: trimmed names without commas, joined by
      commas with any white space around each, read back as the names, in
      order. */
  lemma ProviderNamesPadded(names: seq<string>, before: seq<string>, after: seq<string>)
    requires |names| >= 1 && |before| == |names| && |after| == |names|
    requires forall i | 0 <= i < |names| :: Trimmed(names[i]) && forall k | 0 <= k < |names[i]| :: names[i][k] != ','
    requires forall i | 0 <= i < |names| :: AllSpace(before[i]) && AllSpace(after[i])
    ensures ProviderNames(Some(Join(seq(|names|, i requires 0 <= i < |names| => before[i] + names[i] + after[i]), ","))) == names
  {
    var entries := seq(|names|, i requires 0 <= i < |names| => before[i] + names[i] + after[i]);
    forall i | 0 <= i < |entries|
      ensures Clean(entries[i], ",") && Free(entries[i], ",")
      ensures Strip(entries[i]) == names[i]
    {
      var e := entries[i];
      forall k | 0 <= k < |e|
        ensures e[k] != ','
      {
        if k < |before[i]| {
          assert e[k] == before[i][k];
        } else if k < |before[i]| + |names[i]| {
          assert e[k] == names[i][k - |before[i]|];
        } else {
          assert e[k] == after[i][k - |before[i]| - |names[i]|];
        }
      }
      CommaFree(e);
      StripPadded(before[i], names[i], after[i]);
    }
    SplitJoin(entries, ",");
  }

  /** A configured list without white space reads back unchanged: joining
      the provider names with commas gives the configured string. */
  lemma ProviderNamesRoundTrip(metadata: string)
    requires NoSpace(metadata)
    ensures Join(ProviderNames(Some(metadata)), ",") == metadata
  {
    var raw := Split(metadata, ",");
    JoinSplit(metadata, ",");
    forall i | 0 <= i < |raw|
      ensures NoSpace(raw[i])
    {
      JoinKeepsSegments(raw, ",", i);
    }
    assert ProviderNames(Some(metadata)) == raw;
  }

  /** A join without white space has segments without white space. */
  lemma {:induction false} JoinKeepsSegments(parts: seq<string>, d: string, i: int)
    requires 0 <= i < |parts|
    requires NoSpace(Join(parts, d))
    ensures NoSpace(parts[i])
    decreases |parts|
  {
    var s := Join(parts, d);
    if |parts| > 1 {
      assert s == parts[0] + d + Join(parts[1..], d);
      if i == 0 {
        assert forall k | 0 <= k < |parts[0]| :: parts[0][k] == s[k];
      } else {
        var off := |parts[0]| + |d|;
        assert forall k | 0 <= k < |Join(parts[1..], d)| :: Join(parts[1..], d)[k] == s[off + k];
        JoinKeepsSegments(parts[1..], d, i - 1);
        assert parts[1..][i - 1] == parts[i];
      }
    }
  }

  /** The provider names the class lookup knows: the name with `Metadata`
      appended names the base class for the empty name and one subclass for
      each other entry. */
  const Registry: set<string> := {"", "NodeType", "CaptureDate", "MyTag1", "FindTable", "FindColumn", "FindAndTag"}

  /** Look up and construct one provider. `FindAndTagMetadata` reads
      `config['database_config']` when it is constructed, and takes its
      rules from the parameter block under its own name. */
  function Lookup(name: string, config: Config): (r: Result<Provider>)
    ensures r.Success? <==> name in Registry && (name == "FindAndTag" ==> config.databaseConfig.Some?)
    ensures r.Failure? && name !in Registry ==> r.error == UnknownProvider(name + "Metadata")
    ensures r.Failure? && name in Registry ==> r.error == MissingKey("database_config")
    ensures r.Success? ==> ClassName(r.value) == name + "Metadata"
    ensures r.Success? && r.value.FindAndTag? ==> name == "FindAndTag"
    ensures r.Success? && r.value.FindAndTag? ==> var params := config.databaseConfig.value;
              r.value.rules == (if name in params then params[name] else [])
  {
    if name == "" then Success(Base)
    else if name == "NodeType" then Success(NodeType)
    else if name == "CaptureDate" then Success(CaptureDate)
    else if name == "MyTag1" then Success(MyTag1)
    else if name == "FindTable" then Success(FindTable)
    else if name == "FindColumn" then Success(FindColumn)
    else if name == "FindAndTag" then
      match config.databaseConfig
      case None => Failure(MissingKey("database_config"))
      case Some(params) => Success(FindAndTag(if name in params then params[name] else []))
    else Failure(UnknownProvider(name + "Metadata"))
  }

  /** Construct the providers in configured order; the first name that
      cannot be constructed aborts, before any discovery work. */
  function Resolve(names: seq<string>, config: Config): (r: Result<seq<Provider>>)
    ensures r.Success? ==> |r.value| == |names|
    ensures r.Success? ==> forall i | 0 <= i < |names| :: Lookup(names[i], config) == Success(r.value[i])
    ensures r.Success? <==> forall i | 0 <= i < |names| :: Lookup(names[i], config).Success?
    ensures r.Failure? ==> exists i | 0 <= i < |names| ::
              && Lookup(names[i], config) == Failure(r.error)
              && forall j | 0 <= j < i :: Lookup(names[j], config).Success?
  {
    if names == [] then Success([])
    else
      var first :- Lookup(names[0], config);
      var rest := Resolve(names[1..], config);
      assert forall i | 1 <= i < |names| :: names[i] == names[1..][i - 1];
      if rest.Failure? then
        var i :| 0 <= i < |names[1..]| && Lookup(names[1..][i], config) == Failure(rest.error)
                 && forall j | 0 <= j < i :: Lookup(names[1..][j], config).Success?;
        assert Lookup(names[i + 1], config) == Failure(rest.error);
        Failure(rest.error)
      else
        Success([first] + rest.value)
  }

  /** The providers a configuration activates; there is always at least one. */
  function Configure(config: Config): (r: Result<seq<Provider>>)
    ensures r.Success? ==> |r.value| == |ProviderNames(config.metadata)| >= 1
  {
    Resolve(ProviderNames(config.metadata), config)
  }

  // ---------------------------------------------------------------------
  // Merging fragments into a record
  // ---------------------------------------------------------------------

  /** `dict.update` with each fragment in turn. */
  function MergeAll(rec: Record, fs: seq<Fragment>): (r: Record)
    decreases |fs|
  {
    if fs == [] then rec else MergeAll(rec + fs[0], fs[1..])
  }

  /** Reference for the merge: the value of `key` comes from the last
      fragment that has it, or from the record when none has. */
  function LastWriter(rec: Record, fs: seq<Fragment>, key: string): Option<Value>
    decreases |fs|
  {
    if fs == [] then (if key in rec then Some(rec[key]) else None)
    else if key in fs[|fs| - 1] then Some(fs[|fs| - 1][key])
    else LastWriter(rec, fs[..|fs| - 1], key)
  }

  lemma {:induction false} MergeAllSnoc(rec: Record, fs: seq<Fragment>, f: Fragment)
    ensures MergeAll(rec, fs + [f]) == MergeAll(rec, fs) + f
    decreases |fs|
  {
    if fs == [] {
      assert [] + [f] == [f];
    } else {
      assert (fs + [f])[1..] == fs[1..] + [f];
      MergeAllSnoc(rec + fs[0], fs[1..], f);
    }
  }

  /** Fragments are applied in order and the last writer wins: a key of the
      merged record holds the value of the last fragment that has it, and a
      key no fragment has keeps the record's value. */
  lemma {:induction false} MergeAllLastWriterWins(rec: Record, fs: seq<Fragment>, key: string)
    ensures key in MergeAll(rec, fs) <==> LastWriter(rec, fs, key).Some?
    ensures key in MergeAll(rec, fs) ==> MergeAll(rec, fs)[key] == LastWriter(rec, fs, key).value
    decreases |fs|
  {
    if fs != [] {
      var init := fs[..|fs| - 1];
      assert fs == init + [fs[|fs| - 1]];
      MergeAllSnoc(rec, init, fs[|fs| - 1]);
      MergeAllLastWriterWins(rec, init, key);
    }
  }

  /** Merging two fragment lists one after the other is merging their
      concatenation. */
  lemma {:induction false} MergeAllAppend(rec: Record, f1: seq<Fragment>, f2: seq<Fragment>)
    ensures MergeAll(rec, f1 + f2) == MergeAll(MergeAll(rec, f1), f2)
    decreases |f1|
  {
    if f1 == [] {
      assert f1 + f2 == f2;
    } else {
      assert (f1 + f2)[1..] == f1[1..] + f2;
      MergeAllAppend(rec + f1[0], f1[1..], f2);
    }
  }

  /** One provider's result merged into the column record: a falsy result is
      skipped, and otherwise its fragments are applied one after another.
      Skipping changes nothing, so this is the merge of the result's
      fragments in every case. */
  function Merge(rec: Record, d: Derived): (r: Record)
    ensures !d.Truthy() ==> r == rec
    ensures r == MergeAll(rec, d.Fragments())
  {
    if d.Truthy() then MergeAll(rec, d.Fragments())
    else
      assert d.Single? ==> rec + d.fragment == rec;
      rec
  }

  /** The loop over providers for one column: derive, then merge; a provider
      that raises aborts the column. */
  function ApplyProviders(rec: Record, providers: seq<Provider>, uuid: string, config: Config): (r: Result<Record>)
    ensures r.Success? ==> rec.Keys <= r.value.Keys
    ensures r.Success? && "uuid" in rec ==> r.value["uuid"] == rec["uuid"]
    decreases |providers|
  {
    if providers == [] then Success(rec)
    else
      var d :- Derive(providers[0], uuid, config);
      NoUuidKey(rec, d.Fragments());
      ApplyProviders(Merge(rec, d), providers[1..], uuid, config)
  }

  /** Merging fragments that never carry `uuid` keeps the record's `uuid` and
      its keys. */
  lemma {:induction false} NoUuidKey(rec: Record, fs: seq<Fragment>)
    requires forall i | 0 <= i < |fs| :: "uuid" !in fs[i]
    ensures rec.Keys <= MergeAll(rec, fs).Keys
    ensures "uuid" in rec ==> MergeAll(rec, fs)["uuid"] == rec["uuid"]
    decreases |fs|
  {
    if fs != [] {
      NoUuidKey(rec + fs[0], fs[1..]);
    }
  }

  /** Reference for the provider loop: every provider's fragments, in
      provider order, or the first provider error. */
  function Collect(providers: seq<Provider>, uuid: string, config: Config): Result<seq<Fragment>>
    decreases |providers|
  {
    if providers == [] then Success([])
    else
      var d :- Derive(providers[0], uuid, config);
      var rest :- Collect(providers[1..], uuid, config);
      Success(d.Fragments() + rest)
  }

  /** The provider loop merges exactly the collected fragments, in order,
      and fails exactly when some provider fails. */
  lemma {:induction false} ApplyProvidersMergesCollected(rec: Record, providers: seq<Provider>, uuid: string, config: Config)
    ensures ApplyProviders(rec, providers, uuid, config).Success? <==> Collect(providers, uuid, config).Success?
    ensures ApplyProviders(rec, providers, uuid, config).Success? ==>
              ApplyProviders(rec, providers, uuid, config).value == MergeAll(rec, Collect(providers, uuid, config).value)
    decreases |providers|
  {
    if providers != [] {
      var d := Derive(providers[0], uuid, config);
      if d.Success? {
        ApplyProvidersMergesCollected(Merge(rec, d.value), providers[1..], uuid, config);
        var rest := Collect(providers[1..], uuid, config);
        if rest.Success? {
          MergeAllAppend(rec, d.value.Fragments(), rest.value);
        }
      }
    }
  }

  // ---------------------------------------------------------------------
  // Discovery
  // ---------------------------------------------------------------------

  /** Builds the record of one (table, column) pair. */
  type Builder = (string, string) -> Result<Record>

  /** The inner loop of `discover`: one record per column of `table`. */
  function WalkColumns(table: string, columns: seq<string>, build: Builder): Result<seq<Record>>
    decreases |columns|
  {
    if columns == [] then Success([])
    else
      var first :- build(table, columns[0]);
      var rest :- WalkColumns(table, columns[1..], build);
      Success([first] + rest)
  }

  /** The outer loop of `discover`: the columns of each table in turn. */
  function WalkTables(src: Source, tables: seq<string>, build: Builder): Result<seq<Record>>
    decreases |tables|
  {
    if tables == [] then Success([])
    else
      var first :- WalkColumns(tables[0], Columns(src, tables[0]), build);
      var rest :- WalkTables(src, tables[1..], build);
      Success(first + rest)
  }

  /** The total number of columns of the tables. */
  function ColumnCount(src: Source, tables: seq<string>): nat
    decreases |tables|
  {
    if tables == [] then 0 else |Columns(src, tables[0])| + ColumnCount(src, tables[1..])
  }

  /** The (table, column) pairs of `table`, in column order. */
  function ColumnPairs(table: string, columns: seq<string>): (pairs: seq<(string, string)>)
    ensures |pairs| == |columns|
    ensures forall k | 0 <= k < |pairs| :: pairs[k] == (table, columns[k])
  {
    seq(|columns|, k requires 0 <= k < |columns| => (table, columns[k]))
  }

  /** Reference for the walk: every (table, column) pair, table-major. */
  function Pairs(src: Source, tables: seq<string>): (pairs: seq<(string, string)>)
    ensures |pairs| == ColumnCount(src, tables)
    ensures forall k | 0 <= k < |pairs| :: pairs[k].0 in tables && pairs[k].1 in Columns(src, pairs[k].0)
    decreases |tables|
  {
    if tables == [] then []
    else
      var here := ColumnPairs(tables[0], Columns(src, tables[0]));
      var rest := Pairs(src, tables[1..]);
      assert forall k | 0 <= k < |rest| :: rest[k].0 in tables by {
        forall k | 0 <= k < |rest|
          ensures rest[k].0 in tables
        {
          var i :| 0 <= i < |tables[1..]| && tables[1..][i] == rest[k].0;
          assert tables[i + 1] == rest[k].0;
        }
      }
      here + rest
  }

  /** Build the record of every pair in order; the first failure aborts. */
  function BuildAll(pairs: seq<(string, string)>, build: Builder): (r: Result<seq<Record>>)
    ensures r.Success? ==> |r.value| == |pairs|
    ensures r.Success? ==> forall k | 0 <= k < |pairs| :: build(pairs[k].0, pairs[k].1) == Success(r.value[k])
    ensures r.Success? <==> forall k | 0 <= k < |pairs| :: build(pairs[k].0, pairs[k].1).Success?
    decreases |pairs|
  {
    if pairs == [] then Success([])
    else
      var first :- build(pairs[0].0, pairs[0].1);
      var rest :- BuildAll(pairs[1..], build);
      assert forall k | 1 <= k < |pairs| :: pairs[k] == pairs[1..][k - 1];
      Success([first] + rest)
  }

  /** A failed build reports the error of the first pair that fails. */
  lemma {:induction false} BuildAllFirstFailure(pairs: seq<(string, string)>, build: Builder)
    ensures BuildAll(pairs, build).Failure? ==> exists k | 0 <= k < |pairs| ::
              && build(pairs[k].0, pairs[k].1) == Failure(BuildAll(pairs, build).error)
              && forall j | 0 <= j < k :: build(pairs[j].0, pairs[j].1).Success?
    decreases |pairs|
  {
    var r := BuildAll(pairs, build);
    if pairs != [] && r.Failure? && build(pairs[0].0, pairs[0].1).Success? {
      var rest := BuildAll(pairs[1..], build);
      BuildAllFirstFailure(pairs[1..], build);
      assert rest.Failure? && r.error == rest.error;
      var k :| 0 <= k < |pairs[1..]| && build(pairs[1..][k].0, pairs[1..][k].1) == Failure(rest.error)
               && forall j | 0 <= j < k :: build(pairs[1..][j].0, pairs[1..][j].1).Success?;
      assert pairs[k + 1] == pairs[1..][k];
      assert forall j | 1 <= j < k + 1 :: pairs[j] == pairs[1..][j - 1];
    }
  }

  /** Two record lists in sequence: the first failure, else both lists. */
  function Chain(a: Result<seq<Record>>, b: Result<seq<Record>>): Result<seq<Record>> {
    if a.Failure? then Failure(a.error)
    else if b.Failure? then Failure(b.error)
    else Success(a.value + b.value)
  }

  /** One built record as a one-element list. */
  function One(r: Result<Record>): Result<seq<Record>> {
    if r.Failure? then Failure(r.error) else Success([r.value])
  }

  /** `BuildAll` of a non-empty list, one step unfolded. */
  lemma BuildAllCons(p: seq<(string, string)>, build: Builder)
    requires p != []
    ensures BuildAll(p, build) == Chain(One(build(p[0].0, p[0].1)), BuildAll(p[1..], build))
  {
  }

  lemma ChainAssociative(a: Result<seq<Record>>, b: Result<seq<Record>>, c: Result<seq<Record>>)
    ensures Chain(Chain(a, b), c) == Chain(a, Chain(b, c))
  {
    if a.Success? && b.Success? && c.Success? {
      assert (a.value + b.value) + c.value == a.value + (b.value + c.value);
    }
  }

  lemma AppendTail<T>(p1: seq<T>, p2: seq<T>)
    requires p1 != []
    ensures (p1 + p2)[0] == p1[0] && (p1 + p2)[1..] == p1[1..] + p2
  {
  }

  /** One step of `BuildAllAppend`: the first pair of `p1` is built first. */
  lemma BuildAllAppendCons(p1: seq<(string, string)>, p2: seq<(string, string)>, build: Builder)
    requires p1 != []
    requires BuildAll(p1[1..] + p2, build) == Chain(BuildAll(p1[1..], build), BuildAll(p2, build))
    ensures BuildAll(p1 + p2, build) == Chain(BuildAll(p1, build), BuildAll(p2, build))
  {
    var q := p1 + p2;
    AppendTail(p1, p2);
    var x := One(build(p1[0].0, p1[0].1));
    var a := BuildAll(p1[1..], build);
    var b := BuildAll(p2, build);
    BuildAllCons(p1, build);
    BuildAllCons(q, build);
    assert BuildAll(q, build) == Chain(x, BuildAll(p1[1..] + p2, build));
    ChainAssociative(x, a, b);
  }

  /** Building a concatenation builds the first list, then the second. */
  lemma {:induction false} BuildAllAppend(p1: seq<(string, string)>, p2: seq<(string, string)>, build: Builder)
    ensures BuildAll(p1 + p2, build) == Chain(BuildAll(p1, build), BuildAll(p2, build))
    decreases |p1|
  {
    if p1 == [] {
      assert p1 + p2 == p2;
      var b := BuildAll(p2, build);
      if b.Success? {
        assert [] + b.value == b.value;
      }
    } else {
      BuildAllAppend(p1[1..], p2, build);
      BuildAllAppendCons(p1, p2, build);
    }
  }

  lemma {:induction false} WalkColumnsIsBuildAll(table: string, columns: seq<string>, build: Builder)
    ensures WalkColumns(table, columns, build) == BuildAll(ColumnPairs(table, columns), build)
    decreases |columns|
  {
    if columns != [] {
      assert ColumnPairs(table, columns)[1..] == ColumnPairs(table, columns[1..]);
      WalkColumnsIsBuildAll(table, columns[1..], build);
    }
  }

  /** The nested walk over tables and columns builds exactly the records of
      `Pairs`, in order: table-major, then column order. */
  lemma {:induction false} WalkTablesIsBuildAll(src: Source, tables: seq<string>, build: Builder)
    ensures WalkTables(src, tables, build) == BuildAll(Pairs(src, tables), build)
    decreases |tables|
  {
    if tables != [] {
      var here := ColumnPairs(tables[0], Columns(src, tables[0]));
      WalkColumnsIsBuildAll(tables[0], Columns(src, tables[0]), build);
      WalkTablesIsBuildAll(src, tables[1..], build);
      BuildAllAppend(here, Pairs(src, tables[1..]), build);
    }
  }

  /** The identifier `discover` gives a column. */
  function ColumnUuid(name: string, src: Source, table: string, column: string): string {
    Uuid(name, table, column, TypeOf(src, table, column))
  }

  /** The starting record of a column: only its identifier. */
  function UuidRecord(name: string, src: Source, table: string, column: string): Record {
    map["uuid" := Str(ColumnUuid(name, src, table, column))]
  }

  /** The record of one column: its identifier, then every provider's
      fragments merged in configured order. */
  function ColumnRecord(name: string, src: Source, table: string, column: string, providers: seq<Provider>, config: Config): (r: Result<Record>)
    ensures r.Success? ==> "uuid" in r.value && r.value["uuid"] == Str(ColumnUuid(name, src, table, column))
  {
    ApplyProviders(UuidRecord(name, src, table, column), providers, ColumnUuid(name, src, table, column), config)
  }

  /** `Database.discover` with `self.name` taken from the configuration's
      `name` entry, which is where `SQLiteDatabase.connect` takes it from; a
      `CSVDatabase` never sets `self.name`, so for CSV sources the name is
      the model's stand-in. */
  function Discover(src: Source, providers: seq<Provider>, config: Config): Result<seq<Record>> {
    WalkTables(src, Tables(src), (t, c) => ColumnRecord(config.name, src, t, c, providers, config))
  }

  /** `discover` returns one record per (table, column) pair, table-major,
      or the error of the first column that fails. */
  lemma DiscoverWalksPairs(src: Source, providers: seq<Provider>, config: Config)
    ensures var r := Discover(src, providers, config);
            var pairs := Pairs(src, Tables(src));
            && (r.Success? ==> |r.value| == |pairs| == ColumnCount(src, Tables(src)))
            && (r.Success? ==> forall k | 0 <= k < |pairs| :: ColumnRecord(config.name, src, pairs[k].0, pairs[k].1, providers, config) == Success(r.value[k]))
            && (r.Success? <==> forall k | 0 <= k < |pairs| :: ColumnRecord(config.name, src, pairs[k].0, pairs[k].1, providers, config).Success?)
  {
    var build: Builder := (t, c) => ColumnRecord(config.name, src, t, c, providers, config);
    WalkTablesIsBuildAll(src, Tables(src), build);
  }

  /** Each record of `discover` carries its column's identifier under `uuid`
      and is the merge of the providers' fragments, in configured order,
      onto that identifier; `discover` fails exactly when some column's
      providers fail. */
  lemma DiscoverRecords(src: Source, providers: seq<Provider>, config: Config)
    ensures var r := Discover(src, providers, config);
            var pairs := Pairs(src, Tables(src));
            && (r.Success? <==> forall k | 0 <= k < |pairs| ::
                  Collect(providers, ColumnUuid(config.name, src, pairs[k].0, pairs[k].1), config).Success?)
            && (r.Success? ==> |r.value| == |pairs|)
            && (r.Success? ==> forall k | 0 <= k < |pairs| ::
                  && "uuid" in r.value[k]
                  && r.value[k]["uuid"] == Str(ColumnUuid(config.name, src, pairs[k].0, pairs[k].1))
                  && r.value[k] == MergeAll(UuidRecord(config.name, src, pairs[k].0, pairs[k].1),
                                            Collect(providers, ColumnUuid(config.name, src, pairs[k].0, pairs[k].1), config).value))
  {
    DiscoverWalksPairs(src, providers, config);
    var pairs := Pairs(src, Tables(src));
    forall k | 0 <= k < |pairs|
      ensures var rec := ColumnRecord(config.name, src, pairs[k].0, pairs[k].1, providers, config);
              var fs := Collect(providers, ColumnUuid(config.name, src, pairs[k].0, pairs[k].1), config);
              && (rec.Success? <==> fs.Success?)
              && (rec.Success? ==> rec.value == MergeAll(UuidRecord(config.name, src, pairs[k].0, pairs[k].1), fs.value))
    {
      ApplyProvidersMergesCollected(UuidRecord(config.name, src, pairs[k].0, pairs[k].1), providers,
                                    ColumnUuid(config.name, src, pairs[k].0, pairs[k].1), config);
    }
  }

  /** A CSV file is a one-table source: one record per header, in header
      order, each identified by the file path and the header; the type
      passed along plays no part in the identifier. The database segment is
      the configuration's `name`, which `CSVDatabase` itself never sets. */
  lemma CsvDiscover(path: string, headers: seq<string>, providers: seq<Provider>, config: Config)
    ensures var r := Discover(Csv(path, headers), providers, config);
            r.Success? ==> (&& |r.value| == |headers|
                            && forall k | 0 <= k < |headers| ::
                                 "uuid" in r.value[k] && r.value[k]["uuid"] == Str(Uuid(config.name, path, headers[k], Some("String"))))
  {
    var src := Csv(path, headers);
    DiscoverWalksPairs(src, providers, config);
    assert Tables(src) == [path];
    assert [path][1..] == [];
    assert Pairs(src, Tables(src)) == ColumnPairs(path, headers) + [];
  }

  /** `discover` builds column records only: with `Clean`, non-empty names
      and the delimiter `"::"`, every record's identifier parses as a column
      and `NodeType` classifies it as one. */
  lemma DiscoverColumnsOnly(src: Source, providers: seq<Provider>, config: Config)
    requires ParseDelimiter(config.uuidDelimiter) == Delimiter && Clean(config.name, Delimiter)
    requires forall t | t in Tables(src) :: t != [] && Clean(t, Delimiter)
    requires forall t, c | t in Tables(src) && c in Columns(src, t) :: c != [] && Clean(c, Delimiter)
    requires Discover(src, providers, config).Success?
    ensures forall k | 0 <= k < |Discover(src, providers, config).value| ::
              && "uuid" in Discover(src, providers, config).value[k]
              && Discover(src, providers, config).value[k]["uuid"].Str?
              && NodeTypeDerive(Discover(src, providers, config).value[k]["uuid"].text, config)
                   == Success(Single(map["object_type" := Str("column")]))
  {
    DiscoverWalksPairs(src, providers, config);
    var rs: seq<Record> := Discover(src, providers, config).value;
    var pairs := Pairs(src, Tables(src));
    forall k | 0 <= k < |rs|
      ensures "uuid" in rs[k] && rs[k]["uuid"].Str?
      ensures NodeTypeDerive(rs[k]["uuid"].text, config) == Success(Single(map["object_type" := Str("column")]))
    {
      var t := pairs[k].0;
      var c := pairs[k].1;
      assert rs[k]["uuid"] == Str(ColumnUuid(config.name, src, t, c));
      NodeTypeOnUuid(config.name, t, c, TypeOf(src, t, c), config);
    }
  }

  // ---------------------------------------------------------------------
  // The code as written
  // ---------------------------------------------------------------------

  /** The provider loop as written: it calls `process_metadata`, which no
      provider class defines, so the first provider raises. */
  function ApplyProvidersAsWritten(rec: Record, providers: seq<Provider>): (r: Result<Record>)
    ensures providers != [] <==> r.Failure?
    ensures r.Failure? ==> r.error == MissingAttribute("process_metadata")
  {
    if providers == [] then Success(rec) else Failure(MissingAttribute("process_metadata"))
  }

  /** `Database.discover` as written. */
  function DiscoverAsWritten(src: Source, providers: seq<Provider>, config: Config): Result<seq<Record>> {
    WalkTables(src, Tables(src), (t, c) => ApplyProvidersAsWritten(UuidRecord(config.name, src, t, c), providers))
  }

  /** As written, `discover` fails on every source with at least one column
      once there is a provider, and `Configure` always activates one. */
  lemma AsWrittenDiscoverFails(src: Source, providers: seq<Provider>, config: Config)
    requires providers != []
    requires ColumnCount(src, Tables(src)) > 0
    ensures DiscoverAsWritten(src, providers, config) == Failure(MissingAttribute("process_metadata"))
  {
    var build: Builder := (t, c) => ApplyProvidersAsWritten(UuidRecord(config.name, src, t, c), providers);
    WalkTablesIsBuildAll(src, Tables(src), build);
  }

  /** The record update as written: a truthy result is handed to the dict
      update whole, so a non-empty list is read as a sequence of key/value
      pairs, and a one-entry dict is not a pair.
      Dicts of exactly two entries, which no provider returns, are not
      modelled. */
  function UpdateAsWritten(rec: Record, d: Derived): (r: Result<Record>)
    requires d.Several? && d.fragments != [] ==> |d.fragments[0]| != 2
    ensures !d.Truthy() ==> r == Success(rec)
    ensures d.Several? && d.Truthy() ==> r == Failure(UpdateSequenceElement(|d.fragments[0]|))
  {
    if !d.Truthy() then Success(rec)
    else
      match d
      case Single(f) => Success(rec + f)
      case Several(fs) => Failure(UpdateSequenceElement(|fs[0]|))
  }

  /** Whenever a `FindAndTag` rule fires, the update as written raises,
      while `Merge` adds every tag. */
  lemma AsWrittenUpdateRejectsTags(rec: Record, rules: seq<Rule>, uuid: string, config: Config)
    requires FindAndTagDerive(rules, uuid, config).Success?
    requires FindAndTagDerive(rules, uuid, config).value.Several?
    ensures var d := FindAndTagDerive(rules, uuid, config).value;
            UpdateAsWritten(rec, d) == Failure(UpdateSequenceElement(1))
    ensures var d := FindAndTagDerive(rules, uuid, config).value;
            forall i | 0 <= i < |d.fragments| :: d.fragments[i].Keys <= Merge(rec, d).Keys
  {
    var d := FindAndTagDerive(rules, uuid, config).value;
    MergeAllKeepsKeys(rec, d.fragments);
  }

  /** Merging keeps every key of the record and of each fragment. */
  lemma {:induction false} MergeAllKeepsKeys(rec: Record, fs: seq<Fragment>)
    ensures rec.Keys <= MergeAll(rec, fs).Keys
    ensures forall i | 0 <= i < |fs| :: fs[i].Keys <= MergeAll(rec, fs).Keys
    decreases |fs|
  {
    if fs != [] {
      MergeAllKeepsKeys(rec + fs[0], fs[1..]);
      assert forall i | 1 <= i < |fs| :: fs[i] == fs[1..][i - 1];
    }
  }
}

