/**
 * Encoding and decoding of one table (schema_serialization.h, the Table
 * `operator <<` and `operator >>`), including the backfill of a missing
 * `primary_key_type` for peers that predate it.
 */
module TableSerialization {
  import opened Wire
  import opened Schema
  import opened ColumnSerialization
  import opened KeySerialization

  const TableAttrNames: set<string> := {"name", "columns", "primary_key_columns", "primary_key_type", "keys"}

  // ---------------------------------------------------------------------------
  // Encoding

  /** The map written for a table: always the same five entries, in this order. */
  function EncodeTable(t: Table): (w: Wire)
    ensures w.WMap? && w.length == |w.entries| == 5
    ensures w.entries[3] == Attr("primary_key_type", WInt(t.primaryKeyType))
  {
    WMap(5, [
      Attr("name", WStr(t.name)),
      Attr("columns", EncodeArray(t.columns, EncodeColumn)),
      Attr("primary_key_columns", EncodeStrings(t.primaryKeyColumns)),
      Attr("primary_key_type", WInt(t.primaryKeyType)),
      Attr("keys", EncodeArray(t.keys, EncodeKey))])
  }

  // ---------------------------------------------------------------------------
  // Decoding

  /** The decoder's state: the table so far, and whether `primary_key_type` has been read. */
  datatype TableDecoding = TableDecoding(table: Table, primaryKeyTypeSet: bool)

  /**
   * What an attribute named `attrKey` with value `v` does to the decoder's
   * state: the specification of ReadTableAttr.
   */
  function SetTableAttr(p: TableDecoding, attrKey: string, v: Wire): Result<TableDecoding> {
    if attrKey == "name" then
      var s :- AsString(v); Ok(p.(table := p.table.(name := s)))
    else if attrKey == "columns" then
      var cs :- DecodeArray(v, ColumnFromWire); Ok(p.(table := p.table.(columns := cs)))
    else if attrKey == "primary_key_columns" then
      var cs :- DecodeStrings(v); Ok(p.(table := p.table.(primaryKeyColumns := cs)))
    else if attrKey == "primary_key_type" then
      var n :- AsInt(v); Ok(TableDecoding(p.table.(primaryKeyType := n), true))
    else if attrKey == "keys" then
      var ks :- DecodeArray(v, KeyFromWire); Ok(p.(table := p.table.(keys := ks)))
    else Ok(p)  // unknown attribute: skipped
  }

  function ApplyTableAttr(p: TableDecoding, e: Entry): Result<TableDecoding> {
    var attrKey :- AsString(e.key);
    SetTableAttr(p, attrKey, e.value)
  }

  /** The kind of primary key a table from before `primary_key_type` existed has. */
  function LegacyPrimaryKeyType(primaryKeyColumns: seq<string>): PrimaryKeyType {
    if primaryKeyColumns == [] then NoAvailableKey else ExplicitPrimaryKey
  }

  /** After the entries: a `primary_key_type` never read is derived from the primary key columns. */
  function Backfill(p: TableDecoding): Table {
    if p.primaryKeyTypeSet then p.table
    else p.table.(primaryKeyType := LegacyPrimaryKeyType(p.table.primaryKeyColumns))
  }

  /** Reads a table map into `init`, then backfills `primary_key_type`. */
  function TableFromWireInto(w: Wire, init: Table): Result<Table> {
    var p :- DecodeMap(w, ApplyTableAttr, TableDecoding(init, false));
    Ok(Backfill(p))
  }

  /** A table decoded on its own, into a freshly constructed table. */
  function TableFromWire(w: Wire): Result<Table> {
    TableFromWireInto(w, DefaultTable())
  }

  /** One branch of the decoder's dispatch on the attribute name. */
  method ReadTableAttr(t: Table, primaryKeyTypeSet: bool, attrKey: string, value: Wire)
    returns (r: Result<TableDecoding>)
    ensures r == SetTableAttr(TableDecoding(t, primaryKeyTypeSet), attrKey, value)
  {
    var table, seen := t, primaryKeyTypeSet;
    if attrKey == "name" {
      var s :- AsString(value);
      table := table.(name := s);
    } else if attrKey == "columns" {
      var cs :- DecodeArray(value, ColumnFromWire);
      table := table.(columns := cs);
    } else if attrKey == "primary_key_columns" {
      var cs :- DecodeStrings(value);
      table := table.(primaryKeyColumns := cs);
    } else if attrKey == "primary_key_type" {
      var n :- AsInt(value);
      table := table.(primaryKeyType := n);
      seen := true;
    } else if attrKey == "keys" {
      var ks :- DecodeArray(value, KeyFromWire);
      table := table.(keys := ks);
    }
    // any other attribute is skipped, for forward compatibility
    r := Ok(TableDecoding(table, seen));
  }

  /**
   * Reads a table map into `init`, attribute by attribute, remembering whether
   * `primary_key_type` was among them, and backfills it after the loop if not.
   */
  method DecodeTable(w: Wire, init: Table) returns (r: Result<Table>)
    ensures r == TableFromWireInto(w, init)
  {
    if !w.WMap? {
      return Err(TypeMismatch(MapKind));
    }
    var mapLength, entries := w.length, w.entries;
    var start := TableDecoding(init, false);
    var table := init;
    var primaryKeyTypeSet := false;
    var i := 0;
    while i < mapLength
      invariant i <= mapLength && i <= |entries|
      invariant Fold(ApplyTableAttr, start, entries[..i]) == Ok(TableDecoding(table, primaryKeyTypeSet))
    {
      if i == |entries| {
        assert entries[..i] == entries;
        return Err(Truncated);
      }
      FoldExtend(ApplyTableAttr, start, entries, i);
      DecodeMapStopsAtError(w, ApplyTableAttr, start, i, TableDecoding(table, primaryKeyTypeSet));
      var attrKey :- AsString(entries[i].key);
      var p :- ReadTableAttr(table, primaryKeyTypeSet, attrKey, entries[i].value);
      table, primaryKeyTypeSet := p.table, p.primaryKeyTypeSet;
      i := i + 1;
    }
    if !primaryKeyTypeSet {
      table := table.(primaryKeyType := LegacyPrimaryKeyType(table.primaryKeyColumns));
    }
    r := Ok(table);
  }

  // ---------------------------------------------------------------------------
  // The primary_key_type backfill

  lemma SeenStep(p: TableDecoding, e: Entry)
    requires ApplyTableAttr(p, e).Ok?
    ensures ApplyTableAttr(p, e).value.primaryKeyTypeSet <==> p.primaryKeyTypeSet || e.key == WStr("primary_key_type")
  {
  }

  /** The decoder's flag records exactly whether some entry was a `primary_key_type`. */
  lemma {:induction false} SeenTracksEntries(start: TableDecoding, es: seq<Entry>)
    requires Fold(ApplyTableAttr, start, es).Ok?
    ensures Fold(ApplyTableAttr, start, es).value.primaryKeyTypeSet <==>
            start.primaryKeyTypeSet || HasAttr(es, "primary_key_type")
    decreases |es|
  {
    if es != [] {
      var front, last := es[..|es| - 1], es[|es| - 1];
      assert es == front + [last];
      SeenTracksEntries(start, front);
      SeenStep(Fold(ApplyTableAttr, start, front).value, last);
      HasAttrAppend(front, [last], "primary_key_type");
      assert HasAttr([last], "primary_key_type") <==> last.key == WStr("primary_key_type") by {
        if HasAttr([last], "primary_key_type") {
          var e :| e in [last] && e.key == WStr("primary_key_type");
        }
      }
    }
  }

  /**
   * Backward compatibility: a table map with no `primary_key_type` entry, as
   * peers before that attribute write, decodes with no key kind when it has no
   * primary key columns and with an explicit primary key otherwise.
   */
  lemma BackfillWhenAbsent(w: Wire, init: Table)
    requires w.WMap? && !HasAttr(w.entries, "primary_key_type")
    ensures var r := TableFromWireInto(w, init);
            r.Ok? ==> r.value.primaryKeyType ==
                      if r.value.primaryKeyColumns == [] then NoAvailableKey else ExplicitPrimaryKey
  {
    var start := TableDecoding(init, false);
    if w.length <= |w.entries| {
      var es := w.entries;
      assert es == es[..w.length] + es[w.length..];
      HasAttrAppend(es[..w.length], es[w.length..], "primary_key_type");
      if Fold(ApplyTableAttr, start, es[..w.length]).Ok? {
        SeenTracksEntries(start, es[..w.length]);
      }
    }
  }

  lemma TypeKeptStep(p: TableDecoding, e: Entry, n: int)
    requires ApplyTableAttr(p, e).Ok?
    requires p.primaryKeyTypeSet && p.table.primaryKeyType == n
    requires e.key != WStr("primary_key_type")
    ensures ApplyTableAttr(p, e).value.primaryKeyTypeSet
    ensures ApplyTableAttr(p, e).value.table.primaryKeyType == n
  {
  }

  /**
   * A `primary_key_type` that is read is kept, untouched by the backfill: the
   * last such entry decides it.
   */
  lemma WireTypeKept(init: Table, a: seq<Entry>, n: int, b: seq<Entry>)
    requires !HasAttr(b, "primary_key_type")
    ensures var r := TableFromWireInto(Frame(a + [Attr("primary_key_type", WInt(n))] + b), init);
            r.Ok? ==> r.value.primaryKeyType == n
  {
    var start := TableDecoding(init, false);
    var e := Attr("primary_key_type", WInt(n));
    var es := a + [e] + b;
    assert es[..|es|] == es;
    FoldAppend(ApplyTableAttr, start, a + [e], b);
    FoldAppend(ApplyTableAttr, start, a, [e]);
    var front := Fold(ApplyTableAttr, start, a);
    if front.Ok? {
      FoldSingle(ApplyTableAttr, front.value, e);
      var mid := ApplyTableAttr(front.value, e).value;
      var P := (p: TableDecoding) => p.primaryKeyTypeSet && p.table.primaryKeyType == n;
      forall p, x | x in b && P(p) && ApplyTableAttr(p, x).Ok?
        ensures P(ApplyTableAttr(p, x).value)
      {
        assert x.key != WStr("primary_key_type");
        TypeKeptStep(p, x, n);
      }
      FoldPreserves(ApplyTableAttr, P, mid, b);
    }
  }

  /** Two decoder states that can differ only in a `primary_key_type` not yet read. */
  predicate AgreeButUnreadType(p: TableDecoding, q: TableDecoding) {
    && p.primaryKeyTypeSet == q.primaryKeyTypeSet
    && (p.primaryKeyTypeSet ==> p == q)
    && p.table.(primaryKeyType := 0) == q.table.(primaryKeyType := 0)
  }

  lemma AgreeStep(p: TableDecoding, q: TableDecoding, e: Entry)
    requires AgreeButUnreadType(p, q)
    ensures ApplyTableAttr(p, e).Err? <==> ApplyTableAttr(q, e).Err?
    ensures ApplyTableAttr(p, e).Err? ==> ApplyTableAttr(p, e) == ApplyTableAttr(q, e)
    ensures ApplyTableAttr(p, e).Ok? ==> AgreeButUnreadType(ApplyTableAttr(p, e).value, ApplyTableAttr(q, e).value)
  {
  }

  lemma {:induction false} AgreeFold(p: TableDecoding, q: TableDecoding, es: seq<Entry>)
    requires AgreeButUnreadType(p, q)
    ensures Fold(ApplyTableAttr, p, es).Err? <==> Fold(ApplyTableAttr, q, es).Err?
    ensures Fold(ApplyTableAttr, p, es).Err? ==> Fold(ApplyTableAttr, p, es) == Fold(ApplyTableAttr, q, es)
    ensures Fold(ApplyTableAttr, p, es).Ok? ==>
            AgreeButUnreadType(Fold(ApplyTableAttr, p, es).value, Fold(ApplyTableAttr, q, es).value)
    decreases |es|
  {
    if es != [] {
      var front := es[..|es| - 1];
      AgreeFold(p, q, front);
      if Fold(ApplyTableAttr, p, front).Ok? {
        AgreeStep(Fold(ApplyTableAttr, p, front).value, Fold(ApplyTableAttr, q, front).value, es[|es| - 1]);
      }
    }
  }

  lemma AgreeBackfill(p: TableDecoding, q: TableDecoding)
    requires AgreeButUnreadType(p, q)
    ensures Backfill(p) == Backfill(q)
  {
  }

  /**
   * The destination's previous `primary_key_type` never shows through: it is
   * either read from the map or backfilled.
   */
  lemma PrimaryKeyTypeIgnoresDestination(w: Wire, init: Table, x: PrimaryKeyType)
    ensures TableFromWireInto(w, init) == TableFromWireInto(w, init.(primaryKeyType := x))
  {
    var p, q := TableDecoding(init, false), TableDecoding(init.(primaryKeyType := x), false);
    if w.WMap? {
      if w.length <= |w.entries| {
        AgreeFold(p, q, w.entries[..w.length]);
        if Fold(ApplyTableAttr, p, w.entries[..w.length]).Ok? {
          AgreeBackfill(Fold(ApplyTableAttr, p, w.entries[..w.length]).value,
                        Fold(ApplyTableAttr, q, w.entries[..w.length]).value);
        }
      } else {
        AgreeFold(p, q, w.entries);
      }
    }
  }

  // ---------------------------------------------------------------------------
  // Round trip and compatibility

  lemma ColumnsRoundTrip(cs: seq<Column>)
    requires forall c | c in cs :: WellFormedColumn(c)
    ensures DecodeArray(EncodeArray(cs, EncodeColumn), ColumnFromWire) == Ok(cs)
  {
    forall c | c in cs ensures ColumnFromWire(EncodeColumn(c)) == Ok(c) {
      ColumnRoundTrip(c);
    }
    ArrayRoundTrip(cs, EncodeColumn, ColumnFromWire);
  }

  lemma KeysRoundTrip(ks: seq<Key>)
    ensures DecodeArray(EncodeArray(ks, EncodeKey), KeyFromWire) == Ok(ks)
  {
    forall k | k in ks ensures KeyFromWire(EncodeKey(k)) == Ok(k) {
      KeyFromWireRoundTrip(k);
    }
    ArrayRoundTrip(ks, EncodeKey, KeyFromWire);
  }

  /** The entries every table map starts with: name, columns and primary key columns. */
  function TableHead(t: Table): seq<Entry> {
    [Attr("name", WStr(t.name)),
     Attr("columns", EncodeArray(t.columns, EncodeColumn)),
     Attr("primary_key_columns", EncodeStrings(t.primaryKeyColumns))]
  }

  /** Reading the head sets the three fields it carries and nothing else. */
  lemma TableHeadRead(t: Table, p: TableDecoding)
    requires WellFormedTable(t)
    ensures Fold(ApplyTableAttr, p, TableHead(t)) ==
            Ok(p.(table := p.table.(name := t.name, columns := t.columns, primaryKeyColumns := t.primaryKeyColumns)))
  {
    var head := TableHead(t);
    var p1 := p.(table := p.table.(name := t.name));
    var p2 := p1.(table := p1.table.(columns := t.columns));
    var p3 := p2.(table := p2.table.(primaryKeyColumns := t.primaryKeyColumns));
    ColumnsRoundTrip(t.columns);
    StringsRoundTrip(t.primaryKeyColumns);
    FoldSingle(ApplyTableAttr, p, head[0]);
    FoldSingle(ApplyTableAttr, p1, head[1]);
    FoldSingle(ApplyTableAttr, p2, head[2]);
    FoldThen(ApplyTableAttr, p, [head[0]], p1, [head[1]], p2);
    FoldThen(ApplyTableAttr, p, [head[0]] + [head[1]], p2, [head[2]], p3);
    assert head == [head[0]] + [head[1]] + [head[2]];
  }

  /** Reading the `keys` entry replaces the keys. */
  lemma KeysRead(t: Table, p: TableDecoding)
    ensures Fold(ApplyTableAttr, p, [Attr("keys", EncodeArray(t.keys, EncodeKey))]) ==
            Ok(p.(table := p.table.(keys := t.keys)))
  {
    KeysRoundTrip(t.keys);
    FoldSingle(ApplyTableAttr, p, Attr("keys", EncodeArray(t.keys, EncodeKey)));
  }

  /**
   * Round trip: decoding a well-formed table's encoding gives the table back,
   * whatever the destination held before, since all five attributes are written.
   */
  lemma TableRoundTrip(t: Table, init: Table)
    requires WellFormedTable(t)
    ensures TableFromWireInto(EncodeTable(t), init) == Ok(t)
  {
    var p0 := TableDecoding(init, false);
    var head := TableHead(t);
    var kind := [Attr("primary_key_type", WInt(t.primaryKeyType))];
    var keys := [Attr("keys", EncodeArray(t.keys, EncodeKey))];
    var p1 := p0.(table := init.(name := t.name, columns := t.columns, primaryKeyColumns := t.primaryKeyColumns));
    var p2 := TableDecoding(p1.table.(primaryKeyType := t.primaryKeyType), true);
    TableHeadRead(t, p0);
    FoldSingle(ApplyTableAttr, p1, kind[0]);
    FoldThen(ApplyTableAttr, p0, head, p1, kind, p2);
    KeysRead(t, p2);
    FoldThen(ApplyTableAttr, p0, head + kind, p2, keys, TableDecoding(t, true));
    var w := EncodeTable(t);
    assert w.entries[..w.length] == head + kind + keys;
  }

  /** The same, for a table decoded on its own. */
  lemma TableFromWireRoundTrip(t: Table)
    requires WellFormedTable(t)
    ensures TableFromWire(EncodeTable(t)) == Ok(t)
  {
    TableRoundTrip(t, DefaultTable());
  }

  /**
   * A table written by a peer before `primary_key_type` existed (the same map
   * without that entry) decodes to the table with its key kind backfilled.
   */
  lemma LegacyTableDecodes(t: Table, init: Table)
    requires WellFormedTable(t)
    ensures TableFromWireInto(Frame(TableHead(t) + [Attr("keys", EncodeArray(t.keys, EncodeKey))]), init) ==
            Ok(t.(primaryKeyType := LegacyPrimaryKeyType(t.primaryKeyColumns)))
  {
    var p0 := TableDecoding(init, false);
    var head := TableHead(t);
    var keys := [Attr("keys", EncodeArray(t.keys, EncodeKey))];
    var p1 := p0.(table := init.(name := t.name, columns := t.columns, primaryKeyColumns := t.primaryKeyColumns));
    TableHeadRead(t, p0);
    KeysRead(t, p1);
    var p2 := p1.(table := p1.table.(keys := t.keys));
    FoldThen(ApplyTableAttr, p0, head, p1, keys, p2);
    assert (head + keys)[..|head + keys|] == head + keys;
  }

  /**
   * Type errors: an attribute name that is not a string, or a recognised
   * attribute whose value is not of the kind it is read as, fails the decode.
   */
  lemma TableAttrTypeErrors(p: TableDecoding, key: Wire, k: string, v: Wire)
    ensures !key.WStr? ==> ApplyTableAttr(p, Entry(key, v)) == Err(TypeMismatch(StringKind))
    ensures !v.WStr? ==> ApplyTableAttr(p, Attr("name", v)) == Err(TypeMismatch(StringKind))
    ensures k in {"columns", "primary_key_columns", "keys"} && !v.WArr?
            ==> ApplyTableAttr(p, Attr(k, v)) == Err(TypeMismatch(ArrayKind))
    ensures !v.WInt? ==> ApplyTableAttr(p, Attr("primary_key_type", v)) == Err(TypeMismatch(IntKind))
  {
  }

  lemma UnknownTableAttrIgnored(u: Entry)
    requires u.key.WStr? && u.key.s !in TableAttrNames
    ensures forall p :: ApplyTableAttr(p, u) == Ok(p)
  {
  }

  /** Forward compatibility: an unknown attribute anywhere in a table map changes nothing. */
  lemma TableForwardCompatible(init: Table, n: nat, a: seq<Entry>, u: Entry, b: seq<Entry>)
    requires |a| <= n
    requires u.key.WStr? && u.key.s !in TableAttrNames
    ensures TableFromWireInto(WMap(n + 1, a + [u] + b), init) == TableFromWireInto(WMap(n, a + b), init)
  {
    UnknownTableAttrIgnored(u);
    DecodeMapSkipsIgnored(ApplyTableAttr, TableDecoding(init, false), n, a, u, b);
  }
}
