/**
 * Encoding and decoding of a whole schema (schema_serialization.h, the
 * Database `operator <<` and `operator >>`).
 */
module DatabaseSerialization {
  import opened Wire
  import opened Schema
  import opened TableSerialization

  /** The map written for a database: its one `tables` entry. */
  function EncodeDatabase(db: Database): (w: Wire)
    ensures w.WMap? && w.length == |w.entries| == 1
    ensures w.entries[0].key == WStr("tables")
    ensures w.entries[0].value.WArr? && |w.entries[0].value.items| == |db.tables|
  {
    WMap(1, [Attr("tables", EncodeArray(db.tables, EncodeTable))])
  }

  /** What one entry of a database map does: only `tables` is recognised. */
  function ApplyDatabaseAttr(db: Database, e: Entry): Result<Database> {
    var attrKey :- AsString(e.key);
    if attrKey == "tables" then
      var ts :- DecodeArray(e.value, TableFromWire); Ok(db.(tables := ts))
    else Ok(db)  // unknown attribute: skipped
  }

  function DatabaseFromWire(w: Wire): Result<Database> {
    DecodeMap(w, ApplyDatabaseAttr, DefaultDatabase())
  }

  /** Reads a database map into `init`, attribute by attribute. */
  method DecodeDatabase(w: Wire, init: Database) returns (r: Result<Database>)
    ensures r == DecodeMap(w, ApplyDatabaseAttr, init)
  {
    if !w.WMap? {
      return Err(TypeMismatch(MapKind));
    }
    var mapLength, entries := w.length, w.entries;
    var database := init;
    var i := 0;
    while i < mapLength
      invariant i <= mapLength && i <= |entries|
      invariant Fold(ApplyDatabaseAttr, init, entries[..i]) == Ok(database)
    {
      if i == |entries| {
        assert entries[..i] == entries;
        return Err(Truncated);
      }
      FoldExtend(ApplyDatabaseAttr, init, entries, i);
      DecodeMapStopsAtError(w, ApplyDatabaseAttr, init, i, database);
      var attrKey :- AsString(entries[i].key);
      if attrKey == "tables" {
        var tables :- DecodeArray(entries[i].value, TableFromWire);
        database := database.(tables := tables);
      }
      // any other attribute is skipped, for forward compatibility
      i := i + 1;
    }
    r := Ok(database);
  }

  /**
   * Round trip: decoding a well-formed database's encoding gives it back,
   * whatever the destination held before.
   */
  lemma DatabaseRoundTrip(db: Database, init: Database)
    requires WellFormedDatabase(db)
    ensures DecodeMap(EncodeDatabase(db), ApplyDatabaseAttr, init) == Ok(db)
  {
    forall t | t in db.tables ensures TableFromWire(EncodeTable(t)) == Ok(t) {
      TableFromWireRoundTrip(t);
    }
    ArrayRoundTrip(db.tables, EncodeTable, TableFromWire);
    var w := EncodeDatabase(db);
    FoldSingle(ApplyDatabaseAttr, init, w.entries[0]);
    assert w.entries[..1] == [w.entries[0]];
  }

  lemma DatabaseFromWireRoundTrip(db: Database)
    requires WellFormedDatabase(db)
    ensures DatabaseFromWire(EncodeDatabase(db)) == Ok(db)
  {
    DatabaseRoundTrip(db, DefaultDatabase());
  }

  /**
   * Type errors: an attribute name that is not a string, or a `tables` value
   * that is not an array, fails the decode.
   */
  lemma DatabaseAttrTypeErrors(db: Database, key: Wire, v: Wire)
    ensures !key.WStr? ==> ApplyDatabaseAttr(db, Entry(key, v)) == Err(TypeMismatch(StringKind))
    ensures !v.WArr? ==> ApplyDatabaseAttr(db, Attr("tables", v)) == Err(TypeMismatch(ArrayKind))
  {
  }

  lemma UnknownDatabaseAttrIgnored(u: Entry)
    requires u.key.WStr? && u.key.s != "tables"
    ensures forall db :: ApplyDatabaseAttr(db, u) == Ok(db)
  {
  }

  /** Forward compatibility: an unknown attribute anywhere in a database map changes nothing. */
  lemma DatabaseForwardCompatible(init: Database, n: nat, a: seq<Entry>, u: Entry, b: seq<Entry>)
    requires |a| <= n
    requires u.key.WStr? && u.key.s != "tables"
    ensures DecodeMap(WMap(n + 1, a + [u] + b), ApplyDatabaseAttr, init) ==
            DecodeMap(WMap(n, a + b), ApplyDatabaseAttr, init)
  {
    UnknownDatabaseAttrIgnored(u);
    DecodeMapSkipsIgnored(ApplyDatabaseAttr, init, n, a, u, b);
  }
}
