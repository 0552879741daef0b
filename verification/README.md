# Colcura schema audit — a Dafny model of identifiers, metadata providers and discovery

Colcura audits database schemas. It walks every table and column of a source,
gives each column an identifier of the form `database::table::column::`, and
asks a configured list of metadata providers for fragments to attach to the
column's record. This project models that core as pure functions over
immutable data and proves what the code promises about it.

- `common.dfy` (`Common`): `Option`, a `Result` whose `Error` names each
  exception the code raises, and record values (strings and `True`).
- `text.dfy` (`Text`): Python's `str.split(sep)`, `str.split()`, `str.strip()`,
  `sep.join` and `sub in s` on `seq<char>`. `Split` is characterised exactly
  by its inverse `Join` (`SplitCharacterisation`).
- `identifier.dfy` (`Identifier`): `Database.uuid`, `Metadata.get_uuid_parts`
  and the node-type case split shared by `NodeTypeMetadata` and
  `FindAndTagMetadata`, with the build/parse round trip.
- `metadata.dfy` (`Metadata`): the configuration entries the providers read,
  the provider classes as a closed datatype, and one `derive_metadata` per
  class. A provider answers `Nothing` (Python `None`), `Single` (one dict) or
  `Several` (the list `FindAndTagMetadata` returns).
- `source.dfy` (`Source`): the SQLite catalog and the CSV header row given as
  data, with `get_tables`, `get_columns` and `get_type`.
- `engine.dfy` (`Engine`): provider names parsed from the `metadata` entry,
  the class lookup, the in-order merge of fragments, and `discover` as a walk
  over tables and columns. It also holds the code as written where it
  differs from what is evidently intended (see Findings).
- `example.dfy` (`Example`): database `shop`, table `orders`, column `email`,
  a `FindAndTag` rule that tags identifiers containing `email`, worked through
  the providers and the merge.

Things the model makes explicit:

- `uuid` drops the column type. Every identifier ends with the delimiter, so
  it parses back as four segments, the last one empty:
  `(database, table, column, "")`.
- The round trip holds exactly when every name is `Clean`: the name
  contains no `"::"` and does not end with `':'` (`Identifier.UuidRoundTrip`).
  `Clean` triples get distinct identifiers (`Identifier.UuidInjective`).
  Names that merely avoid `"::"` are not enough: `("a:", "t", "c")` and
  `("a", ":t", "c")` get the same identifier (`Identifier.UuidCollision`).
- `get_uuid_parts` rejects three segments, although its doc comment says
  three-part identifiers are supported.
- `FindTableMetadata` and `FindColumnMetadata` read `UUID_DELIMETER` with no
  default. Without that entry, `str.split(None)` splits on white space, so
  the four-way unpacking of a normal identifier raises.
- `discover` emits column records only. No database-level or table-level
  record is ever built.
- The database name in identifiers is the configuration's `name` entry. That
  is what `SQLiteDatabase.connect` stores as `self.name`. Nothing sets
  `self.name` on a `CSVDatabase`, so for CSV sources this is the model's
  choice, not the code's (see Left out).
- `Uuid` always joins with `Database.DELIMITER` (`"::"`), while
  `get_uuid_parts` splits on the configured `UUID_DELIMETER`. Build and parse
  agree only when that entry is absent or is `"::"`. With `"|"`, a column
  identifier is one segment and `NodeType` classifies it as `database`. The
  round-trip and classification lemmas therefore assume the parse delimiter
  is `"::"`.

## Model

| member | source | states |
|---|---|---|
| Identifier.Uuid | Database.py:93-102 | the identifier is the `"::"`-join of database, table, column and an empty last segment; the type argument plays no part |
| Identifier.GetUuidParts | Metadata.py:22-37 | the delimiter is the configured one, defaulting to `"::"`; a parse yields a 1-, 2- or 4-part tuple (missing parts `None`) whose segments join back to the identifier; the only errors are the empty-separator `ValueError` and `Invalid UUID format` for this identifier |
| Identifier.ParseAcceptsSegmentCounts | Metadata.py:30-37 | parsing succeeds exactly when the split has 1, 2 or 4 segments; any other count, 3 included, is `Invalid UUID format` |
| Identifier.ParseJoin | Metadata.py:29-35 | a well-shaped tuple whose segments the delimiter separates parses back from its join |
| Identifier.UuidRoundTrip | Metadata.py:28-35 | with delimiter `"::"`, a built identifier parses to `(database, table, column, "")` if and only if all three names are `Clean` |
| Identifier.UuidInjective | Database.py:95-102 | with `Clean` names, equal identifiers mean equal database, table and column, whatever the types |
| Identifier.UuidCollision | Database.py:102 | names free of `"::"` can still collide: `a:`/`t` and `a`/`:t` give one identifier |
| Identifier.Kind | Metadata.py:192-198 | `database` if and only if the table part is falsy; `table` if and only if the table is truthy and the column falsy; `column` if and only if both are truthy |
| Identifier.KindBySegmentCount | Metadata.py:44-50 | when the database, table and column segments are non-empty (the type segment may be empty), the node type is `database`, `table` or `column` exactly for 1, 2 or 4 segments |
| Text.Split | Metadata.py:29 | `str.split` with a non-empty separator returns at least one segment |
| Text.JoinSplit | Metadata.py:29 | the segments of a split join back to the input; every segment but the last is `Clean` and the last contains no separator |
| Text.SplitJoin | Metadata.py:29 | splitting the join of well-shaped segments gives the segments back |
| Text.SplitCharacterisation | Metadata.py:29 | the split of `s` is exactly the well-shaped segment list whose join is `s` |
| Text.Strip | Database.py:19 | the stripped name is the slice of the input left after dropping only white space at its two ends; it neither starts nor ends with white space, and a name without white space is unchanged |
| Text.StripPadded | Database.py:19 | stripping a trimmed string padded with white space on both sides gives the string back |
| Text.Words | Metadata.py:103-104 | `str.split()` yields non-empty words without white space |
| Text.WordsOfSpaceless | Metadata.py:125-127 | a non-empty string without white space splits into itself alone |
| Text.WordsSkipSpace | Metadata.py:103-104 | leading white space produces no word: `split()` of a space-padded string is that of the rest |
| Text.WordsCons | Metadata.py:103-104 | a run of non-space characters ended by white space is the first word, followed by the words of the rest |
| Metadata.NodeTypeDerive | Metadata.py:43-50 | exactly one `object_type` fragment, whose value is the node type of the parsed identifier (`database`, `table` or `column`); fails exactly when the identifier does not parse |
| Metadata.NodeTypeBySegmentCount | Metadata.py:43-50 | when the database, table and column segments are non-empty, `object_type` is `database`, `table` or `column` exactly for 1, 2 or 4 segments |
| Metadata.NodeTypeOnUuid | Metadata.py:43-50 | the identifier of a column with `Clean`, non-empty names is classified as `column` |
| Metadata.NodeTypeOnDatabaseId | Metadata.py:43-50 | a `Clean` database name followed by `"::"` parses with an empty, falsy table part and is classified as `database` |
| Metadata.CaptureDateDerive | Metadata.py:63-68 | one `capture_date` fragment holding `config['timestamp']`; a missing `timestamp` is a `KeyError` |
| Metadata.ConstantProvidersIgnoreUuid | Metadata.py:15-86 | the base class gives `{}` and `MyTag1` gives `{tag: mytag1}` for every identifier; `CaptureDate` does not depend on the identifier |
| Metadata.SplitOnConfigured | Metadata.py:103-104 | the split fails exactly when the configured delimiter is empty |
| Metadata.UnpackFour | Metadata.py:103-104 | unpacking succeeds exactly on a split of four segments |
| Metadata.FindTableDerive | Metadata.py:98-107 | the result is `{hot_table: True}` or `None`: the flag exactly when the second of four segments is `table_0`; fails exactly when unpacking fails |
| Metadata.FindTableOnUuid | Metadata.py:103-107 | with delimiter `"::"` and `Clean` names, the flag is set exactly when the table is `table_0` |
| Metadata.FindColumnDerive | Metadata.py:119-130 | the result is `{hot_column: True}` or `None`: the flag exactly when the third of four segments contains `column_0`; fails exactly when unpacking fails |
| Metadata.FindColumnOnUuid | Metadata.py:125-130 | with delimiter `"::"` and `Clean` names, the flag is set exactly when the column name contains `column_0` |
| Metadata.FindWithoutDelimiterFails | Metadata.py:103-104 | without `UUID_DELIMETER`, an identifier without white space is one segment, and both providers raise on unpacking |
| Metadata.RuleDefaults | Metadata.py:183-200 | a rule without `object_type`, or with an empty list, never fires; without `uuid_substring` it fires on every identifier of a listed type |
| Metadata.TagFragment | Metadata.py:201 | a tag is a one-entry dict, never keyed `uuid` |
| Metadata.Tags | Metadata.py:181-201 | at most one fragment per rule, each a one-entry dict |
| Metadata.TagsFire | Metadata.py:182-201 | a fragment is produced if and only if some firing rule produces it |
| Metadata.TagsAppend | Metadata.py:181-201 | rules are evaluated independently and in order: the tags of a concatenation of rule lists are the concatenation of their tags |
| Metadata.FindAndTagDerive | Metadata.py:175-203 | no rules gives `None` without parsing; otherwise fails exactly when the identifier does not parse, and on success is the list of tags of the rules that fire for the parsed node type and identifier, or `None` when none fires |
| Metadata.FindAndTagOnUuid | Metadata.py:190-203 | on a column identifier with `Clean` names, the result is the tags of the rules that list `column` and whose substring occurs in the identifier, in rule order, or `None` when none fires |
| Metadata.Derive | Metadata.py:15-203 | no provider emits a `uuid` key |
| Source.RowsOf | Database.py:139-141 | the rows of the first catalog table of that name, or no rows |
| Source.LookupType | Database.py:137-144 | the type of the first row named after the column; `None` exactly when no row is |
| Source.Tables | Database.py:161-163 | a CSV source has its file path as its only table; a SQLite source has its catalog's table names, in order |
| Source.Columns | Database.py:165-167 | a CSV table's columns are the header row; a SQLite table's are its rows' names, in order |
| Source.TypeOf | Database.py:169-172 | every CSV column has type `String`; a SQLite column has a type exactly when it is a column of its table |
| Engine.ProviderNames | Database.py:18-19 | the name at each position is the comma-separated piece at that position, stripped; a missing `metadata` entry gives the single name `""` |
| Engine.ProviderNamesPadded | Database.py:18-19 | trimmed comma-free names, padded with any white space and joined with commas, read back as the names, in order |
| Engine.ProviderNamesRoundTrip | Database.py:18-19 | for a list without white space, the names joined with commas give the configured string back, in order |
| Engine.Lookup | Database.py:24-25 | a name is constructed exactly when it is a registered class, with `FindAndTag` also needing `database_config`; the provider built is an instance of the class named `name + 'Metadata'`, and a `FindAndTag` provider holds the rules of the parameter block under its own name (none when the block lacks it); an unknown name is a `KeyError` for `name + 'Metadata'` |
| Engine.Resolve | Database.py:22-26 | one provider per name, in order, or the error of the first name that cannot be constructed |
| Engine.Configure | Database.py:17-26 | a configuration always activates at least one provider |
| Engine.MergeAllLastWriterWins | Database.py:43-46 | after the merge, a key holds the value of the last fragment that has it, or keeps the record's value when no fragment has it |
| Engine.MergeAllAppend | Database.py:43-46 | merging two fragment lists in turn is merging their concatenation |
| Engine.Merge | Database.py:45-46 | a falsy result leaves the record unchanged, and any result is merged as its fragments applied in order |
| Engine.ApplyProviders | Database.py:40-46 | the provider loop keeps every key of the record and the record's `uuid` |
| Engine.NoUuidKey | Database.py:40-46 | fragments without a `uuid` key keep the record's keys and its `uuid` |
| Engine.ApplyProvidersMergesCollected | Database.py:43-46 | the provider loop succeeds exactly when every provider does, and then gives the merge of all fragments, in provider order |
| Engine.WalkTablesIsBuildAll | Database.py:34-47 | the nested loop over tables and columns builds exactly the records of every (table, column) pair, table-major |
| Engine.BuildAllFirstFailure | Database.py:34-47 | a failed walk reports the error of the first column whose record fails |
| Engine.ColumnRecord | Database.py:38-46 | a column's record carries its identifier under `uuid` |
| Engine.DiscoverWalksPairs | Database.py:28-48 | one record per (table, column) pair, table-major, so as many records as the tables have columns; fails exactly when some column's record fails |
| Engine.DiscoverRecords | Database.py:33-48 | each record is its column's identifier under `uuid` with every provider's fragments merged onto it in configured order |
| Engine.CsvDiscover | Database.py:161-172 | a CSV file gives one record per header, in order, identified by the path and the header |
| Engine.DiscoverColumnsOnly | Database.py:33-48 | with `Clean`, non-empty names, every record's identifier is classified as a column: no database or table record appears |
| Engine.ApplyProvidersAsWritten | Database.py:43-44 | as written, the provider loop raises `AttributeError` for `process_metadata` exactly when there is a provider |
| Engine.AsWrittenDiscoverFails | Database.py:44 | as written, `discover` raises on every configured source that has a column |
| Engine.UpdateAsWritten | Database.py:45-46 | as written, a falsy result changes nothing, and a non-empty list of dicts makes `update` raise |
| Engine.AsWrittenUpdateRejectsTags | Metadata.py:201-203 | whenever a `FindAndTag` rule fires, the update as written raises, while `Merge` adds every tag |

## Left out

- Connecting to SQLite and running the catalog queries (Database.py:112-135) are left out because they are I/O. So is reading the CSV header row (Database.py:156-159). The catalog and the headers are data in `Source`.
- Logging is left out: it has no effect on the results. So is `status()`, which only prints.
- The commented-out GPT provider is left out because it is not live code and calls a network API.
- `Audit.py` is not part of this model: it is command-line and YAML plumbing. `CreateTestDB.py` is not part of this model: it is a random test-data script.
- Engine.Lookup: `globals()[name + 'Metadata']` is modelled as a fixed registry of the classes in `Metadata.py`, including the base class for the empty name. `Database.py` itself does not import those classes, so a lookup in its own module namespace would find none of them.
- `CSVDatabase.__init__` is not modelled. It passes the file path where the base constructor expects the configuration dict, so it fails before discovery. `Engine.CsvDiscover` covers only the walk over the CSV table and its headers.
- Engine.CsvDiscover: `CSVDatabase` never sets a `name` attribute. Neither its `connect` (Database.py:174-176) nor `Database.__init__` does; only `SQLiteDatabase.connect` (Database.py:115) does. So the code raises `AttributeError` at Database.py:39 on the first header. The model builds CSV identifiers from the configuration's `name` entry instead, so for CSV the database segment is not something the code produces.
- The configuration's `name` entry is a field of `Config`. The `KeyError` raised when it is missing (Database.py:15) is not modelled.
- Non-string values for `metadata`, `UUID_DELIMETER`, `timestamp` and `tag` are not modelled. Every entry is a string or absent.
- The `FindAndTag` rule block is given directly: `metadata_parameters` by provider name, each rule list in insertion order. A missing `metadata_parameters` reads as an empty block.
- Engine.UpdateAsWritten: results whose first dict has exactly two entries are excluded. `dict.update` would read such a dict as a key/value pair, and no provider returns one.

## Findings

| source | as written | input that shows it | evidently intended | confidence | as-written member | corrected member |
|---|---|---|---|---|---|---|
| Database.py:44 | the provider loop calls `metadata_obj.process_metadata(column_uuid)`, a method no provider class defines, so it raises `AttributeError` | any source with at least one column; every configuration activates at least one provider, even if only the base class for an empty name | call `derive_metadata(column_uuid)` | high, not executed | Engine.ApplyProvidersAsWritten (exhibited by Engine.AsWrittenDiscoverFails) | Engine.ApplyProviders (proved in Engine.ApplyProvidersMergesCollected and Engine.DiscoverRecords) |
| Database.py:45-46 | `column_data.update(metadata)` receives the list of one-entry dicts `FindAndTagMetadata` returns; `update` reads a list as key/value pairs and raises `ValueError` on a one-entry dict | a `FindAndTag` rule `{object_type: column, uuid_substring: email, tag: pii_email}` on the column `email` of `shop.orders` | apply each dict of the list in order | high, not executed | Engine.UpdateAsWritten (exhibited by Engine.AsWrittenUpdateRejectsTags) | Engine.Merge (proved in its contract and in Engine.MergeAllLastWriterWins) |
