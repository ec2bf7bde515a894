/**
 * Encoding and decoding of one column (schema_serialization.h, the Column
 * `operator <<` and `operator >>`).
 */
module ColumnSerialization {
  import opened Wire
  import opened Schema

  /** The wire key of each default kind; `default_expression` keeps its legacy name. */
  function DefaultWireKey(t: DefaultType): string
    requires t != NoDefault
  {
    match t
    case Sequence => "sequence"
    case DefaultValue => "default_value"
    case DefaultExpression => "default_function"
  }

  function FlagKey(f: ColumnFlag): string {
    match f
    case MysqlTimestamp => "mysql_timestamp"
    case MysqlOnUpdateTimestamp => "mysql_on_update_timestamp"
    case TimeZone => "time_zone"
    case SimpleGeometry => "simple_geometry"
  }

  /** Every attribute name the column decoder recognises. */
  const ColumnAttrNames: set<string> := {
    "name", "column_type", "size", "scale", "nullable", "type_restriction",
    "reference_system", "db_type_def", "sequence", "default_value", "default_function",
    "mysql_timestamp", "mysql_on_update_timestamp", "time_zone", "simple_geometry"
  }

  predicate IsDefaultAttr(e: Entry) {
    e.key in {WStr("sequence"), WStr("default_value"), WStr("default_function")}
  }

  // ---------------------------------------------------------------------------
  // Encoding

  /** The names of the attributes written before the default and the flags. */
  const BaseAttrNames: set<string> := {
    "name", "column_type", "size", "scale", "nullable", "type_restriction", "reference_system", "db_type_def"
  }

  const FlagAttrNames: set<string> := {
    "mysql_timestamp", "mysql_on_update_timestamp", "time_zone", "simple_geometry"
  }

  function Bit(b: bool): nat {
    if b then 1 else 0
  }

  /** The counting pass: two required attributes plus one per present optional one. */
  function ColumnFieldCount(c: Column): nat {
    2
    + Bit(c.size != 0)
    + Bit(c.scale != 0)
    + Bit(!c.nullable)
    + Bit(c.typeRestriction != "")
    + Bit(c.referenceSystem != "")
    + Bit(c.dbTypeDef != "")
    + Bit(c.defaultType != NoDefault)
    + Bit(MysqlTimestamp in c.flags)
    + Bit(MysqlOnUpdateTimestamp in c.flags)
    + Bit(TimeZone in c.flags)
    + Bit(SimpleGeometry in c.flags)
  }

  /** An attribute written only when `present`. */
  function OptionalAttr(present: bool, key: string, value: Wire): (r: seq<Entry>)
    ensures |r| == Bit(present)
  {
    if present then [Attr(key, value)] else []
  }

  /** `name`, `column_type` and the six optional scalar attributes, in writing order. */
  function BaseAttrs(c: Column): (r: seq<Entry>)
    ensures |r| == 2 + Bit(c.size != 0) + Bit(c.scale != 0) + Bit(!c.nullable)
                     + Bit(c.typeRestriction != "") + Bit(c.referenceSystem != "") + Bit(c.dbTypeDef != "")
    ensures r[0] == Attr("name", WStr(c.name)) && r[1] == Attr("column_type", WStr(c.columnType))
  {
    [Attr("name", WStr(c.name)), Attr("column_type", WStr(c.columnType))]
    + OptionalAttr(c.size != 0, "size", WInt(c.size))
    + OptionalAttr(c.scale != 0, "scale", WInt(c.scale))
    + OptionalAttr(!c.nullable, "nullable", WBool(c.nullable))
    + OptionalAttr(c.typeRestriction != "", "type_restriction", WStr(c.typeRestriction))
    + OptionalAttr(c.referenceSystem != "", "reference_system", WStr(c.referenceSystem))
    + OptionalAttr(c.dbTypeDef != "", "db_type_def", WStr(c.dbTypeDef))
  }

  /** The one entry for the default kind, when there is a default. */
  function DefaultAttr(c: Column): (r: seq<Entry>)
    ensures |r| == Bit(c.defaultType != NoDefault)
  {
    if c.defaultType == NoDefault then [] else [Attr(DefaultWireKey(c.defaultType), WStr(c.defaultValue))]
  }

  function FlagAttr(c: Column, f: ColumnFlag): (r: seq<Entry>)
    ensures |r| == Bit(f in c.flags)
  {
    OptionalAttr(f in c.flags, FlagKey(f), WBool(true))
  }

  /** One `true` entry per set flag, in the fixed flag order. */
  function FlagAttrs(c: Column): (r: seq<Entry>)
    ensures |r| == Bit(MysqlTimestamp in c.flags) + Bit(MysqlOnUpdateTimestamp in c.flags)
                   + Bit(TimeZone in c.flags) + Bit(SimpleGeometry in c.flags)
  {
    (FlagAttr(c, MysqlTimestamp) + FlagAttr(c, MysqlOnUpdateTimestamp))
    + (FlagAttr(c, TimeZone) + FlagAttr(c, SimpleGeometry))
  }

  /** The emitting pass, in the order the encoder writes the attributes. */
  function ColumnEntries(c: Column): seq<Entry> {
    BaseAttrs(c) + DefaultAttr(c) + FlagAttrs(c)
  }

  /**
   * The map written for a column: its header declares exactly as many entries
   * as the encoder then writes, and `name` and `column_type` always come first.
   */
  function EncodeColumn(c: Column): (w: Wire)
    ensures w.WMap? && w.length == |w.entries|
    ensures 2 <= |w.entries|
    ensures w.entries[0] == Attr("name", WStr(c.name)) && w.entries[1] == Attr("column_type", WStr(c.columnType))
  {
    WMap(ColumnFieldCount(c), ColumnEntries(c))
  }

  /** True when every optional attribute holds its default. */
  predicate OmitsAllOptional(c: Column) {
    && c.size == 0 && c.scale == 0 && c.nullable
    && c.typeRestriction == "" && c.referenceSystem == "" && c.dbTypeDef == ""
    && c.defaultType == NoDefault && c.flags == {}
  }

  /**
   * Omission law: a column whose optional attributes all hold their defaults is
   * written as exactly `name` and `column_type`, and only such a column is.
   */
  lemma OmissionLaw(c: Column)
    ensures OmitsAllOptional(c) <==> |EncodeColumn(c).entries| == 2
    ensures OmitsAllOptional(c) ==>
      EncodeColumn(c) == WMap(2, [Attr("name", WStr(c.name)), Attr("column_type", WStr(c.columnType))])
  {
    if |ColumnEntries(c)| == 2 {
      assert c.flags == {} by {
        forall f | f in c.flags ensures false {
          match f
          case MysqlTimestamp =>
          case MysqlOnUpdateTimestamp =>
          case TimeZone =>
          case SimpleGeometry =>
        }
      }
    }
  }

  /** Every attribute before the default is under one of the base names. */
  lemma BaseAttrKeys(c: Column)
    ensures forall e | e in BaseAttrs(c) :: e.key.WStr? && e.key.s in BaseAttrNames
  {
  }

  /** The flag entries are `true` entries for flags the column has, and one is there for each. */
  lemma FlagAttrKeys(c: Column)
    ensures forall e | e in FlagAttrs(c) :: exists f :: f in c.flags && e == Attr(FlagKey(f), WBool(true))
    ensures forall f | f in c.flags :: Attr(FlagKey(f), WBool(true)) in FlagAttrs(c)
  {
    forall f | f in c.flags ensures Attr(FlagKey(f), WBool(true)) in FlagAttrs(c) {
      assert Attr(FlagKey(f), WBool(true)) in FlagAttr(c, f);
      match f
      case MysqlTimestamp =>
      case MysqlOnUpdateTimestamp =>
      case TimeZone =>
      case SimpleGeometry =>
    }
  }

  /** Every entry before the default, and each optional one exactly when it is written. */
  lemma BaseAttrMembers(c: Column)
    ensures forall e | e in BaseAttrs(c) ::
      || e == Attr("name", WStr(c.name))
      || e == Attr("column_type", WStr(c.columnType))
      || (c.size != 0 && e == Attr("size", WInt(c.size)))
      || (c.scale != 0 && e == Attr("scale", WInt(c.scale)))
      || (!c.nullable && e == Attr("nullable", WBool(false)))
      || (c.typeRestriction != "" && e == Attr("type_restriction", WStr(c.typeRestriction)))
      || (c.referenceSystem != "" && e == Attr("reference_system", WStr(c.referenceSystem)))
      || (c.dbTypeDef != "" && e == Attr("db_type_def", WStr(c.dbTypeDef)))
    ensures c.size != 0 ==> Attr("size", WInt(c.size)) in BaseAttrs(c)
    ensures c.scale != 0 ==> Attr("scale", WInt(c.scale)) in BaseAttrs(c)
    ensures !c.nullable ==> Attr("nullable", WBool(false)) in BaseAttrs(c)
    ensures c.typeRestriction != "" ==> Attr("type_restriction", WStr(c.typeRestriction)) in BaseAttrs(c)
    ensures c.referenceSystem != "" ==> Attr("reference_system", WStr(c.referenceSystem)) in BaseAttrs(c)
    ensures c.dbTypeDef != "" ==> Attr("db_type_def", WStr(c.dbTypeDef)) in BaseAttrs(c)
  {
  }

  /** The entries after the base attributes carry none of the base names. */
  lemma LaterKeysNotBase(c: Column)
    ensures forall e | e in DefaultAttr(c) :: e.key.WStr? && e.key.s !in BaseAttrNames
    ensures forall e | e in FlagAttrs(c) :: e.key.WStr? && e.key.s !in BaseAttrNames
  {
    FlagAttrKeys(c);
    if c.defaultType != NoDefault {
      DefaultKeyIsNoOtherKey(c.defaultType, MysqlTimestamp);
    }
    forall f ensures FlagKey(f) !in BaseAttrNames {
      FlagKeyIsNoBaseKey(f);
    }
  }

  /** An entry under a base name comes from the base attributes. */
  lemma BaseNamedEntry(c: Column, e: Entry)
    requires e in ColumnEntries(c) && e.key.WStr? && e.key.s in BaseAttrNames
    ensures e in BaseAttrs(c)
  {
    LaterKeysNotBase(c);
    assert e in BaseAttrs(c) + DefaultAttr(c) || e in FlagAttrs(c);
  }

  /** Which base names the whole column map carries. */
  lemma BaseNamePresence(c: Column, k: string)
    requires k in BaseAttrNames
    ensures HasAttr(ColumnEntries(c), k) <==>
      || k == "name" || k == "column_type"
      || (c.size != 0 && k == "size")
      || (c.scale != 0 && k == "scale")
      || (!c.nullable && k == "nullable")
      || (c.typeRestriction != "" && k == "type_restriction")
      || (c.referenceSystem != "" && k == "reference_system")
      || (c.dbTypeDef != "" && k == "db_type_def")
  {
    var es := ColumnEntries(c);
    BaseAttrMembers(c);
    if HasAttr(es, k) {
      var e :| e in es && e.key == WStr(k);
      BaseNamedEntry(c, e);
    }
    forall e | e in BaseAttrs(c) ensures e in es {
      assert e in BaseAttrs(c) + DefaultAttr(c);
    }
  }

  /**
   * Each optional scalar attribute is written exactly when it differs from its
   * default: `size` and `scale` when non-zero, `nullable` only as `false`, the
   * three strings when non-empty.
   */
  lemma OptionalAttrEncoding(c: Column)
    ensures HasAttr(ColumnEntries(c), "size") <==> c.size != 0
    ensures HasAttr(ColumnEntries(c), "scale") <==> c.scale != 0
    ensures HasAttr(ColumnEntries(c), "nullable") <==> !c.nullable
    ensures HasAttr(ColumnEntries(c), "type_restriction") <==> c.typeRestriction != ""
    ensures HasAttr(ColumnEntries(c), "reference_system") <==> c.referenceSystem != ""
    ensures HasAttr(ColumnEntries(c), "db_type_def") <==> c.dbTypeDef != ""
    ensures Attr("nullable", WBool(false)) in ColumnEntries(c) <==> !c.nullable
  {
    BaseNamePresence(c, "size");
    BaseNamePresence(c, "scale");
    BaseNamePresence(c, "nullable");
    BaseNamePresence(c, "type_restriction");
    BaseNamePresence(c, "reference_system");
    BaseNamePresence(c, "db_type_def");
    BaseAttrMembers(c);
    if !c.nullable {
      assert Attr("nullable", WBool(false)) in BaseAttrs(c) + DefaultAttr(c);
    }
    if Attr("nullable", WBool(false)) in ColumnEntries(c) {
      assert HasAttr(ColumnEntries(c), "nullable");
    }
  }

  /** Every entry under a base name carries the column's own value for it. */
  lemma BaseAttrValues(c: Column)
    ensures forall e | e in ColumnEntries(c) && e.key.WStr? && e.key.s in BaseAttrNames ::
      || e == Attr("name", WStr(c.name))
      || e == Attr("column_type", WStr(c.columnType))
      || e == Attr("size", WInt(c.size))
      || e == Attr("scale", WInt(c.scale))
      || e == Attr("nullable", WBool(c.nullable))
      || e == Attr("type_restriction", WStr(c.typeRestriction))
      || e == Attr("reference_system", WStr(c.referenceSystem))
      || e == Attr("db_type_def", WStr(c.dbTypeDef))
  {
    BaseAttrMembers(c);
    forall e | e in ColumnEntries(c) && e.key.WStr? && e.key.s in BaseAttrNames ensures e in BaseAttrs(c) {
      BaseNamedEntry(c, e);
    }
  }

  lemma DefaultKeyIsNoOtherKey(t: DefaultType, f: ColumnFlag)
    requires t != NoDefault
    ensures DefaultWireKey(t) !in BaseAttrNames && DefaultWireKey(t) != FlagKey(f)
  {
  }

  lemma FlagKeyIsNoBaseKey(f: ColumnFlag)
    ensures FlagKey(f) !in BaseAttrNames
  {
  }

  lemma FlagKeyInjective(f: ColumnFlag, g: ColumnFlag)
    ensures FlagKey(f) == FlagKey(g) ==> f == g
  {
  }

  /**
   * The default kind is written under exactly one key, and only when a default
   * is set: `sequence`, `default_value`, or the legacy `default_function` for an
   * expression default; that entry carries the default's value.
   */
  lemma DefaultKindEncoding(c: Column, t: DefaultType)
    requires t != NoDefault
    ensures HasAttr(ColumnEntries(c), DefaultWireKey(t)) <==> c.defaultType == t
    ensures c.defaultType == t ==> Attr(DefaultWireKey(t), WStr(c.defaultValue)) in ColumnEntries(c)
  {
    var key := DefaultWireKey(t);
    var base, default, flags := BaseAttrs(c), DefaultAttr(c), FlagAttrs(c);
    HasAttrAppend(base + default, flags, key);
    HasAttrAppend(base, default, key);
    DefaultKeyIsNoOtherKey(t, MysqlTimestamp);
    BaseAttrKeys(c);
    FlagAttrKeys(c);
    assert !HasAttr(base, key);
    forall e | e in flags ensures e.key != WStr(key) {
      var f :| f in c.flags && e == Attr(FlagKey(f), WBool(true));
      DefaultKeyIsNoOtherKey(t, f);
    }
    if HasAttr(default, key) {
      assert c.defaultType != NoDefault;
      match c.defaultType
      case Sequence =>
      case DefaultValue =>
      case DefaultExpression =>
    }
    if c.defaultType == t {
      assert Attr(key, WStr(c.defaultValue)) in default;
    }
  }

  /** No entry before the flags is under a flag's key. */
  lemma FlagKeyNotBeforeFlags(c: Column, f: ColumnFlag)
    ensures forall e | e in BaseAttrs(c) + DefaultAttr(c) :: e.key != WStr(FlagKey(f))
  {
    FlagKeyIsNoBaseKey(f);
    BaseAttrKeys(c);
    if c.defaultType != NoDefault {
      DefaultKeyIsNoOtherKey(c.defaultType, f);
    }
  }

  /** Among the flag entries, a flag's key appears exactly when it is set, and only as `true`. */
  /** One flag's entries: its `true` entry when set, and nothing under any other flag's key. */
  lemma FlagAttrOne(c: Column, g: ColumnFlag, f: ColumnFlag)
    ensures HasAttr(FlagAttr(c, g), FlagKey(f)) <==> g in c.flags && g == f
    ensures forall e | e in FlagAttr(c, g) :: e == Attr(FlagKey(g), WBool(true))
  {
    FlagKeyInjective(f, g);
    if g in c.flags {
      assert FlagAttr(c, g) == [Attr(FlagKey(g), WBool(true))];
    }
  }

  lemma FlagKeyAmongFlags(c: Column, f: ColumnFlag)
    ensures HasAttr(FlagAttrs(c), FlagKey(f)) <==> f in c.flags
    ensures f in c.flags ==> Attr(FlagKey(f), WBool(true)) in FlagAttrs(c)
    ensures forall e | e in FlagAttrs(c) && e.key == WStr(FlagKey(f)) :: e.value == WBool(true)
  {
    var key := FlagKey(f);
    var a1, a2 := FlagAttr(c, MysqlTimestamp), FlagAttr(c, MysqlOnUpdateTimestamp);
    var a3, a4 := FlagAttr(c, TimeZone), FlagAttr(c, SimpleGeometry);
    FlagAttrOne(c, MysqlTimestamp, f);
    FlagAttrOne(c, MysqlOnUpdateTimestamp, f);
    FlagAttrOne(c, TimeZone, f);
    FlagAttrOne(c, SimpleGeometry, f);
    HasAttrAppend(a1, a2, key);
    HasAttrAppend(a3, a4, key);
    HasAttrAppend(a1 + a2, a3 + a4, key);
    if f in c.flags {
      assert Attr(key, WBool(true)) in FlagAttr(c, f);
    }
  }

  /** A flag is written, always as `true`, exactly when it is set. */
  lemma FlagEncoding(c: Column, f: ColumnFlag)
    ensures HasAttr(ColumnEntries(c), FlagKey(f)) <==> f in c.flags
    ensures f in c.flags ==> Attr(FlagKey(f), WBool(true)) in ColumnEntries(c)
    ensures forall e | e in ColumnEntries(c) && e.key == WStr(FlagKey(f)) :: e.value == WBool(true)
  {
    var key := FlagKey(f);
    var front, flags := BaseAttrs(c) + DefaultAttr(c), FlagAttrs(c);
    assert ColumnEntries(c) == front + flags;
    FlagKeyNotBeforeFlags(c, f);
    FlagKeyAmongFlags(c, f);
    HasAttrAppend(front, flags, key);
    assert !HasAttr(front, key);
  }

  // ---------------------------------------------------------------------------
  // Decoding

  function OrFlag(c: Column, v: Wire, f: ColumnFlag): Result<Column> {
    var set_ :- AsBool(v);
    Ok(if set_ then c.(flags := c.flags + {f}) else c)
  }

  /**
   * What an attribute named `attrKey` with value `v` does to the column being
   * decoded: the specification of ReadColumnAttr.
   */
  function SetColumnAttr(c: Column, attrKey: string, v: Wire): Result<Column> {
    if attrKey == "name" then
      var s :- AsString(v); Ok(c.(name := s))
    else if attrKey == "column_type" then
      var s :- AsString(v); Ok(c.(columnType := s))
    else if attrKey == "size" then
      var n :- AsInt(v); Ok(c.(size := n))
    else if attrKey == "scale" then
      var n :- AsInt(v); Ok(c.(scale := n))
    else if attrKey == "nullable" then
      var b :- AsBool(v); Ok(c.(nullable := b))
    else if attrKey == "type_restriction" then
      var s :- AsString(v); Ok(c.(typeRestriction := s))
    else if attrKey == "reference_system" then
      var s :- AsString(v); Ok(c.(referenceSystem := s))
    else if attrKey == "db_type_def" then
      var s :- AsString(v); Ok(c.(dbTypeDef := s))
    else if attrKey == DefaultWireKey(Sequence) then
      var s :- AsString(v); Ok(c.(defaultType := Sequence, defaultValue := s))
    else if attrKey == DefaultWireKey(DefaultValue) then
      var s :- AsString(v); Ok(c.(defaultType := DefaultValue, defaultValue := s))
    else if attrKey == DefaultWireKey(DefaultExpression) then
      var s :- AsString(v); Ok(c.(defaultType := DefaultExpression, defaultValue := s))
    else if attrKey == FlagKey(MysqlTimestamp) then OrFlag(c, v, MysqlTimestamp)
    else if attrKey == FlagKey(MysqlOnUpdateTimestamp) then OrFlag(c, v, MysqlOnUpdateTimestamp)
    else if attrKey == FlagKey(TimeZone) then OrFlag(c, v, TimeZone)
    else if attrKey == FlagKey(SimpleGeometry) then OrFlag(c, v, SimpleGeometry)
    else Ok(c)  // unknown attribute: skipped
  }

  /** What one entry of a column map does: its key must be a string. */
  function ApplyColumnAttr(c: Column, e: Entry): Result<Column> {
    var attrKey :- AsString(e.key);
    SetColumnAttr(c, attrKey, e.value)
  }

  /** A column decoded on its own, into a freshly constructed column. */
  function ColumnFromWire(w: Wire): Result<Column> {
    DecodeMap(w, ApplyColumnAttr, DefaultColumn())
  }

  /** One branch of the decoder's dispatch on the attribute name, updating the column in place. */
  method ReadColumnAttr(c: Column, attrKey: string, value: Wire) returns (r: Result<Column>)
    ensures r == SetColumnAttr(c, attrKey, value)
  {
    var column := c;
    if attrKey == "name" {
      var s :- AsString(value);
      column := column.(name := s);
    } else if attrKey == "column_type" {
      var s :- AsString(value);
      column := column.(columnType := s);
    } else if attrKey == "size" {
      var n :- AsInt(value);
      column := column.(size := n);
    } else if attrKey == "scale" {
      var n :- AsInt(value);
      column := column.(scale := n);
    } else if attrKey == "nullable" {
      var b :- AsBool(value);
      column := column.(nullable := b);
    } else if attrKey == "type_restriction" {
      var s :- AsString(value);
      column := column.(typeRestriction := s);
    } else if attrKey == "reference_system" {
      var s :- AsString(value);
      column := column.(referenceSystem := s);
    } else if attrKey == "db_type_def" {
      var s :- AsString(value);
      column := column.(dbTypeDef := s);
    } else if attrKey == "sequence" {
      column := column.(defaultType := Sequence);
      var s :- AsString(value);
      column := column.(defaultValue := s);
    } else if attrKey == "default_value" {
      column := column.(defaultType := DefaultValue);
      var s :- AsString(value);
      column := column.(defaultValue := s);
    } else if attrKey == "default_function" {  // legacy name
      column := column.(defaultType := DefaultExpression);
      var s :- AsString(value);
      column := column.(defaultValue := s);
    } else if attrKey == "mysql_timestamp" {
      var b :- AsBool(value);
      if b { column := column.(flags := column.flags + {MysqlTimestamp}); }
    } else if attrKey == "mysql_on_update_timestamp" {
      var b :- AsBool(value);
      if b { column := column.(flags := column.flags + {MysqlOnUpdateTimestamp}); }
    } else if attrKey == "time_zone" {
      var b :- AsBool(value);
      if b { column := column.(flags := column.flags + {TimeZone}); }
    } else if attrKey == "simple_geometry" {
      var b :- AsBool(value);
      if b { column := column.(flags := column.flags + {SimpleGeometry}); }
    }
    // any other attribute is skipped, for forward compatibility
    r := Ok(column);
  }

  /**
   * Reads a column map into `init`, attribute by attribute, as the stream
   * presents them; the result is the left fold of ApplyColumnAttr.
   */
  method DecodeColumn(w: Wire, init: Column) returns (r: Result<Column>)
    ensures r == DecodeMap(w, ApplyColumnAttr, init)
  {
    if !w.WMap? {
      return Err(TypeMismatch(MapKind));
    }
    var mapLength, entries := w.length, w.entries;
    var column := init;
    var i := 0;
    while i < mapLength
      invariant i <= mapLength && i <= |entries|
      invariant Fold(ApplyColumnAttr, init, entries[..i]) == Ok(column)
    {
      if i == |entries| {
        assert entries[..i] == entries;
        return Err(Truncated);
      }
      FoldExtend(ApplyColumnAttr, init, entries, i);
      DecodeMapStopsAtError(w, ApplyColumnAttr, init, i, column);
      var attrKey :- AsString(entries[i].key);
      column :- ReadColumnAttr(column, attrKey, entries[i].value);
      i := i + 1;
    }
    r := Ok(column);
  }

  // ---------------------------------------------------------------------------
  // Properties of decoding

  /** Each default key sets both the kind and the value. */
  lemma DefaultAttrSetsKindAndValue(c: Column, t: DefaultType, v: string)
    requires t != NoDefault
    ensures ApplyColumnAttr(c, Attr(DefaultWireKey(t), WStr(v))) == Ok(c.(defaultType := t, defaultValue := v))
  {
  }

  /** An entry under any key but the three default keys leaves the default alone. */
  lemma DefaultUntouched(c: Column, e: Entry)
    requires ApplyColumnAttr(c, e).Ok?
    requires !IsDefaultAttr(e)
    ensures ApplyColumnAttr(c, e).value.defaultType == c.defaultType
    ensures ApplyColumnAttr(c, e).value.defaultValue == c.defaultValue
  {
    var k := e.key.s;
    if k in FlagAttrNames {
      var g :| g in {MysqlTimestamp, MysqlOnUpdateTimestamp, TimeZone, SimpleGeometry} && k == FlagKey(g);
      FlagKeyIsNoBaseKey(g);
      assert ApplyColumnAttr(c, e) == OrFlag(c, e.value, g);
    }
  }

  /**
   * Last writer wins: after a default entry, entries under other keys leave the
   * default kind and value alone, so the last default key seen decides both.
   */
  lemma DefaultLastWins(start: Column, a: seq<Entry>, t: DefaultType, v: string, b: seq<Entry>)
    requires t != NoDefault
    requires forall e | e in b :: !IsDefaultAttr(e)
    ensures var r := Fold(ApplyColumnAttr, start, a + [Attr(DefaultWireKey(t), WStr(v))] + b);
            r.Ok? ==> r.value.defaultType == t && r.value.defaultValue == v
  {
    var d := Attr(DefaultWireKey(t), WStr(v));
    FoldAppend(ApplyColumnAttr, start, a + [d], b);
    FoldAppend(ApplyColumnAttr, start, a, [d]);
    assert [d][..0] == [];
    var mid := Fold(ApplyColumnAttr, start, a + [d]);
    var front := Fold(ApplyColumnAttr, start, a);
    if front.Ok? {
      DefaultAttrSetsKindAndValue(front.value, t, v);
      var P := (c: Column) => c.defaultType == t && c.defaultValue == v;
      forall s, e | e in b && P(s) && ApplyColumnAttr(s, e).Ok?
        ensures P(ApplyColumnAttr(s, e).value)
      {
        DefaultUntouched(s, e);
      }
      FoldPreserves(ApplyColumnAttr, P, mid.value, b);
    }
  }

  /** One entry sets flag `f` exactly when it is `f`'s key with value `true`, and clears nothing. */
  /** An entry under any name but the four flag keys leaves the flags alone. */
  lemma NonFlagKeepsFlags(c: Column, e: Entry)
    requires ApplyColumnAttr(c, e).Ok?
    requires e.key.s !in FlagAttrNames
    ensures ApplyColumnAttr(c, e).value.flags == c.flags
  {
  }

  lemma FlagStep(c: Column, e: Entry, f: ColumnFlag)
    requires ApplyColumnAttr(c, e).Ok?
    ensures c.flags <= ApplyColumnAttr(c, e).value.flags
    ensures f in ApplyColumnAttr(c, e).value.flags <==> f in c.flags || e == Attr(FlagKey(f), WBool(true))
  {
    var k := e.key.s;
    if k !in FlagAttrNames {
      NonFlagKeepsFlags(c, e);
    } else {
      var g :| g in {MysqlTimestamp, MysqlOnUpdateTimestamp, TimeZone, SimpleGeometry} && k == FlagKey(g);
      FlagKeyInjective(f, g);
      assert ApplyColumnAttr(c, e) == OrFlag(c, e.value, g);
    }
  }

  /**
   * Flags only accumulate: a flag is set after decoding exactly when it was set
   * before or some entry set it to `true`; `false` changes nothing and no entry
   * clears a flag.
   */
  lemma {:induction false} FlagsAccumulate(start: Column, es: seq<Entry>, f: ColumnFlag)
    requires Fold(ApplyColumnAttr, start, es).Ok?
    ensures start.flags <= Fold(ApplyColumnAttr, start, es).value.flags
    ensures f in Fold(ApplyColumnAttr, start, es).value.flags <==>
            f in start.flags || Attr(FlagKey(f), WBool(true)) in es
    decreases |es|
  {
    if es != [] {
      var front, last := es[..|es| - 1], es[|es| - 1];
      assert es == front + [last];
      FlagsAccumulate(start, front, f);
      FlagStep(Fold(ApplyColumnAttr, start, front).value, last, f);
    }
  }

  /**
   * Type errors: an attribute name that is not a string, or a recognised
   * attribute whose value is not of the kind it is read as, fails the decode.
   */
  lemma ColumnAttrTypeErrors(c: Column, key: Wire, k: string, v: Wire)
    ensures !key.WStr? ==> ApplyColumnAttr(c, Entry(key, v)) == Err(TypeMismatch(StringKind))
    ensures k in {"name", "column_type", "type_restriction", "reference_system", "db_type_def",
                  "sequence", "default_value", "default_function"} && !v.WStr?
            ==> ApplyColumnAttr(c, Attr(k, v)) == Err(TypeMismatch(StringKind))
    ensures k in {"size", "scale"} && !v.WInt? ==> ApplyColumnAttr(c, Attr(k, v)) == Err(TypeMismatch(IntKind))
    ensures k in {"nullable"} + FlagAttrNames && !v.WBool? ==> ApplyColumnAttr(c, Attr(k, v)) == Err(TypeMismatch(BoolKind))
  {
  }

  /** An attribute the decoder does not recognise is skipped, whatever its value. */
  lemma UnknownColumnAttrIgnored(u: Entry)
    requires u.key.WStr? && u.key.s !in ColumnAttrNames
    ensures forall c :: ApplyColumnAttr(c, u) == Ok(c)
  {
  }

  /**
   * Forward compatibility: inserting an unknown attribute anywhere in a column
   * map gives the same decoding as leaving it out.
   */
  lemma ColumnForwardCompatible(init: Column, n: nat, a: seq<Entry>, u: Entry, b: seq<Entry>)
    requires |a| <= n
    requires u.key.WStr? && u.key.s !in ColumnAttrNames
    ensures DecodeMap(WMap(n + 1, a + [u] + b), ApplyColumnAttr, init) ==
            DecodeMap(WMap(n, a + b), ApplyColumnAttr, init)
  {
    UnknownColumnAttrIgnored(u);
    DecodeMapSkipsIgnored(ApplyColumnAttr, init, n, a, u, b);
  }

  /** An optional attribute, read into a column that holds its default, sets the field it names. */
  lemma OptionalAttrRead(s: Column, present: bool, key: string, value: Wire, t: Column)
    requires present ==> ApplyColumnAttr(s, Attr(key, value)) == Ok(t)
    requires !present ==> t == s
    ensures Fold(ApplyColumnAttr, s, OptionalAttr(present, key, value)) == Ok(t)
  {
    if present {
      FoldSingle(ApplyColumnAttr, s, Attr(key, value));
    }
  }

  /** `size`, `scale` and `nullable`, read after a prefix that left them at their defaults. */
  lemma NumericAttrsRead(s: Column, p: seq<Entry>, t: Column, c: Column)
    requires Fold(ApplyColumnAttr, s, p) == Ok(t)
    requires t.size == 0 && t.scale == 0 && t.nullable
    ensures Fold(ApplyColumnAttr, s, p
              + OptionalAttr(c.size != 0, "size", WInt(c.size))
              + OptionalAttr(c.scale != 0, "scale", WInt(c.scale))
              + OptionalAttr(!c.nullable, "nullable", WBool(c.nullable)))
            == Ok(t.(size := c.size, scale := c.scale, nullable := c.nullable))
  {
    var size := OptionalAttr(c.size != 0, "size", WInt(c.size));
    var scale := OptionalAttr(c.scale != 0, "scale", WInt(c.scale));
    var nullable := OptionalAttr(!c.nullable, "nullable", WBool(c.nullable));
    var t1 := t.(size := c.size);
    OptionalAttrRead(t, c.size != 0, "size", WInt(c.size), t1);
    FoldThen(ApplyColumnAttr, s, p, t, size, t1);
    var t2 := t1.(scale := c.scale);
    OptionalAttrRead(t1, c.scale != 0, "scale", WInt(c.scale), t2);
    FoldThen(ApplyColumnAttr, s, p + size, t1, scale, t2);
    var t3 := t2.(nullable := c.nullable);
    OptionalAttrRead(t2, !c.nullable, "nullable", WBool(c.nullable), t3);
    FoldThen(ApplyColumnAttr, s, p + size + scale, t2, nullable, t3);
  }

  /** `type_restriction`, `reference_system` and `db_type_def`, read after a prefix that left them empty. */
  lemma TextAttrsRead(s: Column, p: seq<Entry>, t: Column, c: Column)
    requires Fold(ApplyColumnAttr, s, p) == Ok(t)
    requires t.typeRestriction == "" && t.referenceSystem == "" && t.dbTypeDef == ""
    ensures Fold(ApplyColumnAttr, s, p
              + OptionalAttr(c.typeRestriction != "", "type_restriction", WStr(c.typeRestriction))
              + OptionalAttr(c.referenceSystem != "", "reference_system", WStr(c.referenceSystem))
              + OptionalAttr(c.dbTypeDef != "", "db_type_def", WStr(c.dbTypeDef)))
            == Ok(t.(typeRestriction := c.typeRestriction, referenceSystem := c.referenceSystem,
                     dbTypeDef := c.dbTypeDef))
  {
    var restriction := OptionalAttr(c.typeRestriction != "", "type_restriction", WStr(c.typeRestriction));
    var reference := OptionalAttr(c.referenceSystem != "", "reference_system", WStr(c.referenceSystem));
    var typeDef := OptionalAttr(c.dbTypeDef != "", "db_type_def", WStr(c.dbTypeDef));
    var t1 := t.(typeRestriction := c.typeRestriction);
    OptionalAttrRead(t, c.typeRestriction != "", "type_restriction", WStr(c.typeRestriction), t1);
    FoldThen(ApplyColumnAttr, s, p, t, restriction, t1);
    var t2 := t1.(referenceSystem := c.referenceSystem);
    OptionalAttrRead(t1, c.referenceSystem != "", "reference_system", WStr(c.referenceSystem), t2);
    FoldThen(ApplyColumnAttr, s, p + restriction, t1, reference, t2);
    var t3 := t2.(dbTypeDef := c.dbTypeDef);
    OptionalAttrRead(t2, c.dbTypeDef != "", "db_type_def", WStr(c.dbTypeDef), t3);
    FoldThen(ApplyColumnAttr, s, p + restriction + reference, t2, typeDef, t3);
  }

  /** The attributes before the default restore `name`, `column_type` and the six optional scalars. */
  lemma BaseAttrsRoundTrip(s: Column, c: Column)
    requires s.size == 0 && s.scale == 0 && s.nullable
    requires s.typeRestriction == "" && s.referenceSystem == "" && s.dbTypeDef == ""
    ensures Fold(ApplyColumnAttr, s, BaseAttrs(c)) ==
            Ok(s.(name := c.name, columnType := c.columnType, size := c.size, scale := c.scale,
                  nullable := c.nullable, typeRestriction := c.typeRestriction,
                  referenceSystem := c.referenceSystem, dbTypeDef := c.dbTypeDef))
  {
    var name, columnType := Attr("name", WStr(c.name)), Attr("column_type", WStr(c.columnType));
    var t0 := s.(name := c.name);
    FoldSingle(ApplyColumnAttr, s, name);
    var t1 := t0.(columnType := c.columnType);
    FoldSingle(ApplyColumnAttr, t0, columnType);
    FoldThen(ApplyColumnAttr, s, [name], t0, [columnType], t1);
    var required := [name, columnType];
    assert [name] + [columnType] == required;
    NumericAttrsRead(s, required, t1, c);
    var numeric := required
      + OptionalAttr(c.size != 0, "size", WInt(c.size))
      + OptionalAttr(c.scale != 0, "scale", WInt(c.scale))
      + OptionalAttr(!c.nullable, "nullable", WBool(c.nullable));
    TextAttrsRead(s, numeric, t1.(size := c.size, scale := c.scale, nullable := c.nullable), c);
  }

  /** A flag's `true` entry sets that flag. */
  lemma FlagSet(t: Column, f: ColumnFlag)
    ensures ApplyColumnAttr(t, Attr(FlagKey(f), WBool(true))) == Ok(t.(flags := t.flags + {f}))
  {
    match f
    case MysqlTimestamp =>
    case MysqlOnUpdateTimestamp =>
    case TimeZone =>
    case SimpleGeometry =>
  }

  /** A flag's entry adds that flag when the column has it. */
  lemma FlagAttrRead(t: Column, c: Column, f: ColumnFlag)
    ensures Fold(ApplyColumnAttr, t, FlagAttr(c, f)) == Ok(t.(flags := t.flags + c.flags * {f}))
  {
    var u := t.(flags := t.flags + c.flags * {f});
    if f !in c.flags {
      assert c.flags * {f} == {};
      assert t.flags + {} == t.flags;
    } else {
      assert c.flags * {f} == {f};
      FlagSet(t, f);
    }
    OptionalAttrRead(t, f in c.flags, FlagKey(f), WBool(true), u);
  }

  /** Two flag entries in a row. */
  lemma FlagPairRead(t: Column, c: Column, f: ColumnFlag, g: ColumnFlag)
    ensures Fold(ApplyColumnAttr, t, FlagAttr(c, f) + FlagAttr(c, g)) ==
            Ok(t.(flags := t.flags + c.flags * {f} + c.flags * {g}))
  {
    var t1 := t.(flags := t.flags + c.flags * {f});
    FlagAttrRead(t, c, f);
    FlagAttrRead(t1, c, g);
    FoldThen(ApplyColumnAttr, t, FlagAttr(c, f), t1, FlagAttr(c, g), t1.(flags := t1.flags + c.flags * {g}));
  }

  /** The four flag masks of a flag set make up the whole set. */
  lemma FlagMasksCover(a: set<ColumnFlag>, b: set<ColumnFlag>)
    ensures a + b * {MysqlTimestamp} + b * {MysqlOnUpdateTimestamp} + b * {TimeZone} + b * {SimpleGeometry} == a + b
  {
    var u := a + b * {MysqlTimestamp} + b * {MysqlOnUpdateTimestamp} + b * {TimeZone} + b * {SimpleGeometry};
    forall f ensures f in u <==> f in a + b {
      match f
      case MysqlTimestamp =>
      case MysqlOnUpdateTimestamp =>
      case TimeZone =>
      case SimpleGeometry =>
    }
  }

  /** The flag entries add exactly the column's flags. */
  lemma FlagAttrsRoundTrip(t: Column, c: Column)
    ensures Fold(ApplyColumnAttr, t, FlagAttrs(c)) == Ok(t.(flags := t.flags + c.flags))
  {
    var f1, f2, f3, f4 := MysqlTimestamp, MysqlOnUpdateTimestamp, TimeZone, SimpleGeometry;
    FlagPairRead(t, c, f1, f2);
    var t2 := t.(flags := t.flags + c.flags * {f1} + c.flags * {f2});
    FlagPairRead(t2, c, f3, f4);
    FlagMasksCover(t.flags, c.flags);
    FoldThen(ApplyColumnAttr, t, FlagAttr(c, f1) + FlagAttr(c, f2), t2,
             FlagAttr(c, f3) + FlagAttr(c, f4), t.(flags := t.flags + c.flags));
  }

  /** The default entry of a well-formed column restores its default kind and value. */
  lemma DefaultAttrRead(t: Column, c: Column)
    requires WellFormedColumn(c)
    requires t.defaultType == NoDefault && t.defaultValue == ""
    ensures Fold(ApplyColumnAttr, t, DefaultAttr(c)) ==
            Ok(t.(defaultType := c.defaultType, defaultValue := c.defaultValue))
  {
    if c.defaultType != NoDefault {
      FoldSingle(ApplyColumnAttr, t, Attr(DefaultWireKey(c.defaultType), WStr(c.defaultValue)));
      DefaultAttrSetsKindAndValue(t, c.defaultType, c.defaultValue);
    }
  }

  /** Folding a well-formed column's entries into a fresh column restores every field. */
  lemma ColumnEntriesRead(c: Column)
    requires WellFormedColumn(c)
    ensures Fold(ApplyColumnAttr, DefaultColumn(), ColumnEntries(c)) == Ok(c)
  {
    var d := DefaultColumn();
    var base, default := BaseAttrs(c), DefaultAttr(c);
    var c1 := d.(name := c.name, columnType := c.columnType, size := c.size, scale := c.scale,
                 nullable := c.nullable, typeRestriction := c.typeRestriction,
                 referenceSystem := c.referenceSystem, dbTypeDef := c.dbTypeDef);
    BaseAttrsRoundTrip(d, c);
    var c2 := c1.(defaultType := c.defaultType, defaultValue := c.defaultValue);
    DefaultAttrRead(c1, c);
    FoldThen(ApplyColumnAttr, d, base, c1, default, c2);
    FlagAttrsRoundTrip(c2, c);
    assert c2.flags + c.flags == c.flags;
    FoldThen(ApplyColumnAttr, d, base + default, c2, FlagAttrs(c), c);
  }

  /**
   * Round trip: decoding the encoding of a well-formed column into a freshly
   * constructed column gives the column back.
   */
  lemma ColumnRoundTrip(c: Column)
    requires WellFormedColumn(c)
    ensures ColumnFromWire(EncodeColumn(c)) == Ok(c)
  {
    ColumnEntriesRead(c);
    var w := EncodeColumn(c);
    assert w.entries == ColumnEntries(c);
    assert w.entries[..w.length] == w.entries;
  }

  /**
   * Every column round-trips except for one field: a default value on a column
   * with no default kind is never written, so it comes back empty. This is why
   * ColumnRoundTrip asks for a well-formed column.
   */
  lemma StrayDefaultValueIsLost(c: Column)
    ensures ColumnFromWire(EncodeColumn(c)) == Ok(if c.defaultType == NoDefault then c.(defaultValue := "") else c)
  {
    var n := if c.defaultType == NoDefault then c.(defaultValue := "") else c;
    assert EncodeColumn(c) == EncodeColumn(n);
    ColumnRoundTrip(n);
  }
}
