/** The identifier scheme: `Database.uuid` builds a column identifier by
    joining names with `"::"`, and `Metadata.get_uuid_parts` parses an
    identifier back into a (database, table, column, type) tuple. */
module Identifier {
  import opened Common
  import opened Text

  /** `Database.DELIMITER`, the separator `Uuid` always joins with. */
  const Delimiter: string := "::"

  /** The separator `get_uuid_parts` uses when the configuration has no
      `UUID_DELIMETER` entry. */
  const DefaultUuidDelimiter: string := "::"

  /** `Database.uuid(database, table, column, type)`: the three names, each
      followed by the delimiter. The column type is accepted and dropped. */
  function Uuid(database: string, table: string, column: string, dataType: Option<string>): (id: string)
    ensures id == Join([database, table, column, ""], Delimiter)
  {
    JoinUnfolded(database, table, column, "", Delimiter);
    database + Delimiter + table + Delimiter + column + Delimiter
  }

  /** What `get_uuid_parts` returns: Python's four-tuple with `None` for the
      absent parts. */
  datatype UuidParts = UuidParts(database: string, table: Option<string>, column: Option<string>, dataType: Option<string>)
  {
    /** The segments this tuple was parsed from, in order. */
    function Parts(): seq<string> {
      [database]
      + (if table.Some? then [table.value] else [])
      + (if column.Some? then [column.value] else [])
      + (if dataType.Some? then [dataType.value] else [])
    }

    /** The shapes `get_uuid_parts` can produce: 1, 2 or 4 segments. */
    predicate WellShaped() {
      || (table.None? && column.None? && dataType.None?)
      || (table.Some? && column.None? && dataType.None?)
      || (table.Some? && column.Some? && dataType.Some?)
    }
  }

  /** The separator `get_uuid_parts` splits on: the configured
      `UUID_DELIMETER` entry, or `"::"` when the entry is absent. */
  function ParseDelimiter(configured: Option<string>): string {
    configured.GetOr(DefaultUuidDelimiter)
  }

  /** `Metadata.get_uuid_parts`: split on the configured delimiter and accept
      exactly 1, 2 or 4 segments; an empty delimiter makes `str.split` raise. */
  function GetUuidParts(uuid: string, configured: Option<string>): (r: Result<UuidParts>)
    ensures r.Success? ==> r.value.WellShaped()
    ensures r.Success? ==> ParseDelimiter(configured) != [] && Join(r.value.Parts(), ParseDelimiter(configured)) == uuid
    ensures r.Failure? ==> r.error in {EmptySeparator, InvalidUuidFormat(uuid)}
  {
    var d := ParseDelimiter(configured);
    if d == [] then Failure(EmptySeparator)
    else
      var parts := Split(uuid, d);
      JoinSplit(uuid, d);
      if |parts| == 1 then Success(UuidParts(parts[0], None, None, None))
      else if |parts| == 2 then
        assert UuidParts(parts[0], Some(parts[1]), None, None).Parts() == parts;
        Success(UuidParts(parts[0], Some(parts[1]), None, None))
      else if |parts| == 4 then
        assert UuidParts(parts[0], Some(parts[1]), Some(parts[2]), Some(parts[3])).Parts() == parts;
        Success(UuidParts(parts[0], Some(parts[1]), Some(parts[2]), Some(parts[3])))
      else Failure(InvalidUuidFormat(uuid))
  }

  /** Parsing succeeds exactly on identifiers of 1, 2 or 4 segments; in
      particular the 3-segment form is rejected. */
  lemma ParseAcceptsSegmentCounts(uuid: string, configured: Option<string>)
    requires ParseDelimiter(configured) != []
    ensures var n := |Split(uuid, ParseDelimiter(configured))|;
            GetUuidParts(uuid, configured).Success? <==> n == 1 || n == 2 || n == 4
    ensures GetUuidParts(uuid, configured).Failure? ==> GetUuidParts(uuid, configured).error == InvalidUuidFormat(uuid)
  {
  }

  /** Parsing inverts joining: a well-shaped tuple whose segments the
      delimiter can separate parses back from its join. */
  lemma {:induction false} ParseJoin(p: UuidParts, configured: Option<string>)
    requires ParseDelimiter(configured) != []
    requires p.WellShaped() && Segments(p.Parts(), ParseDelimiter(configured))
    ensures GetUuidParts(Join(p.Parts(), ParseDelimiter(configured)), configured) == Success(p)
  {
    SplitJoin(p.Parts(), ParseDelimiter(configured));
  }

  /** The identifier of a column parses back as `(database, table, column, "")`
      exactly when each name is `Clean` for the delimiter: the type is lost,
      and a name such as `"a:"` breaks the round trip. */
  lemma {:induction false} UuidRoundTrip(database: string, table: string, column: string, dataType: Option<string>, configured: Option<string>)
    requires ParseDelimiter(configured) == Delimiter
    ensures GetUuidParts(Uuid(database, table, column, dataType), configured)
              == Success(UuidParts(database, Some(table), Some(column), Some("")))
            <==> Clean(database, Delimiter) && Clean(table, Delimiter) && Clean(column, Delimiter)
  {
    var parts := [database, table, column, ""];
    var id := Uuid(database, table, column, dataType);
    assert UuidParts(database, Some(table), Some(column), Some("")).Parts() == parts;
    assert Free("", Delimiter);
    SplitCharacterisation(id, Delimiter, parts);
    if GetUuidParts(id, configured) == Success(UuidParts(database, Some(table), Some(column), Some(""))) {
      assert Split(id, Delimiter) == parts;
      assert parts[0] == database && parts[1] == table && parts[2] == column;
    }
  }

  /** Distinct columns get distinct identifiers as long as every name is
      `Clean`; the column type plays no part. */
  lemma {:induction false} UuidInjective(d1: string, t1: string, c1: string, y1: Option<string>,
                                         d2: string, t2: string, c2: string, y2: Option<string>)
    requires Clean(d1, Delimiter) && Clean(t1, Delimiter) && Clean(c1, Delimiter)
    requires Clean(d2, Delimiter) && Clean(t2, Delimiter) && Clean(c2, Delimiter)
    requires Uuid(d1, t1, c1, y1) == Uuid(d2, t2, c2, y2)
    ensures d1 == d2 && t1 == t2 && c1 == c2
  {
    UuidRoundTrip(d1, t1, c1, y1, None);
    UuidRoundTrip(d2, t2, c2, y2, None);
  }

  /** Names free of `"::"` are not enough for uniqueness: a trailing or
      leading colon moves between neighbouring names without changing the
      identifier. */
  lemma UuidCollision()
    ensures Free("a:", Delimiter) && Free(":t", Delimiter)
    ensures Uuid("a:", "t", "c", None) == Uuid("a", ":t", "c", None)
  {
    assert "a:"[0..2] != Delimiter by {
      assert "a:"[0..2][0] == 'a';
    }
    assert ":t"[0..2] != Delimiter by {
      assert ":t"[0..2][1] == 't';
    }
  }

  /** Python truthiness of an optional name: `None` and `""` are false. */
  predicate Falsy(name: Option<string>) {
    name.None? || name.value == []
  }

  /** The node type `NodeTypeMetadata` and `FindAndTagMetadata` compute from a
      parsed identifier: no table means a database, no column means a table. */
  function Kind(p: UuidParts): (kind: string)
    ensures kind == "database" <==> Falsy(p.table)
    ensures kind == "table" <==> !Falsy(p.table) && Falsy(p.column)
    ensures kind == "column" <==> !Falsy(p.table) && !Falsy(p.column)
  {
    if Falsy(p.table) then "database"
    else if Falsy(p.column) then "table"
    else "column"
  }

  /** When the database, table and column segments are non-empty the node
      type is the segment count: 1 is a database, 2 a table, 4 a column. The
      type segment may be empty, as in every identifier `Uuid` builds. */
  lemma KindBySegmentCount(uuid: string, configured: Option<string>)
    requires GetUuidParts(uuid, configured).Success?
    requires forall i | 0 <= i < |GetUuidParts(uuid, configured).value.Parts()| && i < 3 :: GetUuidParts(uuid, configured).value.Parts()[i] != []
    ensures var p := GetUuidParts(uuid, configured).value;
            && (Kind(p) == "database" <==> |p.Parts()| == 1)
            && (Kind(p) == "table" <==> |p.Parts()| == 2)
            && (Kind(p) == "column" <==> |p.Parts()| == 4)
  {
    var p := GetUuidParts(uuid, configured).value;
    var s := p.Parts();
    if p.table.Some? {
      assert s[1] == p.table.value;
    }
    if p.column.Some? {
      assert s[2] == p.column.value;
    }
  }
}
