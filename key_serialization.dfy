/**
 * Encoding and decoding of one index (schema_serialization.h, the Key
 * `operator <<` and `operator >>`).
 *
 * A key's kind travels under one of two names: the `unique` boolean that
 * older peers understand, used for standard and unique keys, and the
 * `key_type` string, used only for spatial keys.
 */
module KeySerialization {
  import opened Wire
  import opened Schema

  /** The `key_type` spelling of each kind. */
  function KeyTypeName(t: KeyType): string {
    match t
    case StandardKey => "standard"
    case UniqueKey => "unique"
    case SpatialKey => "spatial"
  }

  const KeyAttrNames: set<string> := {"name", "unique", "key_type", "columns"}

  // ---------------------------------------------------------------------------
  // Encoding

  /** The entry that carries a key's kind. */
  function KeyTypeAttr(t: KeyType): Entry {
    match t
    case StandardKey => Attr("unique", WBool(false))
    case UniqueKey => Attr("unique", WBool(true))
    case SpatialKey => Attr("key_type", WStr(KeyTypeName(SpatialKey)))
  }

  /** The map written for a key: always three entries, as its header declares. */
  function EncodeKey(k: Key): (w: Wire)
    ensures w.WMap? && w.length == |w.entries| == 3
    ensures w.entries[0] == Attr("name", WStr(k.name))
    ensures w.entries[2] == Attr("columns", EncodeStrings(k.columns))
  {
    WMap(3, [Attr("name", WStr(k.name)), KeyTypeAttr(k.keyType), Attr("columns", EncodeStrings(k.columns))])
  }

  /**
   * The kind is written under exactly one of the two names: `unique` for
   * standard and unique keys, `key_type` for spatial keys, never both.
   */
  lemma KeyTypeEncoding(k: Key)
    ensures HasAttr(EncodeKey(k).entries, "unique") <==> k.keyType != SpatialKey
    ensures HasAttr(EncodeKey(k).entries, "key_type") <==> k.keyType == SpatialKey
    ensures !(HasAttr(EncodeKey(k).entries, "unique") && HasAttr(EncodeKey(k).entries, "key_type"))
  {
    var es := EncodeKey(k).entries;
    assert es[1] == KeyTypeAttr(k.keyType);
    if k.keyType == SpatialKey {
      assert es[1].key == WStr("key_type");
    } else {
      assert es[1].key == WStr("unique");
    }
    forall e | e in es ensures e == es[0] || e == es[1] || e == es[2] {
    }
  }

  // ---------------------------------------------------------------------------
  // Decoding

  /**
   * What an attribute named `attrKey` with value `v` does to the key being
   * decoded: the specification of ReadKeyAttr.
   */
  function SetKeyAttr(k: Key, attrKey: string, v: Wire): Result<Key> {
    if attrKey == "name" then
      var s :- AsString(v); Ok(k.(name := s))
    else if attrKey == "unique" then
      var b :- AsBool(v); Ok(k.(keyType := if b then UniqueKey else StandardKey))
    else if attrKey == "key_type" then
      var s :- AsString(v);
      if s == KeyTypeName(StandardKey) then Ok(k.(keyType := StandardKey))
      else if s == KeyTypeName(UniqueKey) then Ok(k.(keyType := UniqueKey))
      else if s == KeyTypeName(SpatialKey) then Ok(k.(keyType := SpatialKey))
      else Ok(k)  // a kind this version does not know: left as it was
    else if attrKey == "columns" then
      var cs :- DecodeStrings(v); Ok(k.(columns := cs))
    else Ok(k)  // unknown attribute: skipped
  }

  function ApplyKeyAttr(k: Key, e: Entry): Result<Key> {
    var attrKey :- AsString(e.key);
    SetKeyAttr(k, attrKey, e.value)
  }

  /** A key decoded on its own, into a freshly constructed key. */
  function KeyFromWire(w: Wire): Result<Key> {
    DecodeMap(w, ApplyKeyAttr, DefaultKey())
  }

  /** One branch of the decoder's dispatch on the attribute name. */
  method ReadKeyAttr(k: Key, attrKey: string, value: Wire) returns (r: Result<Key>)
    ensures r == SetKeyAttr(k, attrKey, value)
  {
    var key := k;
    if attrKey == "name" {
      var s :- AsString(value);
      key := key.(name := s);
    } else if attrKey == "unique" {
      var b :- AsBool(value);
      key := key.(keyType := if b then UniqueKey else StandardKey);
    } else if attrKey == "key_type" {
      var keyType :- AsString(value);
      if keyType == "standard" {
        key := key.(keyType := StandardKey);
      } else if keyType == "unique" {
        key := key.(keyType := UniqueKey);
      } else if keyType == "spatial" {
        key := key.(keyType := SpatialKey);
      }
    } else if attrKey == "columns" {
      var cs :- DecodeStrings(value);
      key := key.(columns := cs);
    }
    // any other attribute is skipped, for forward compatibility
    r := Ok(key);
  }

  /** Reads a key map into `init`, attribute by attribute. */
  method DecodeKey(w: Wire, init: Key) returns (r: Result<Key>)
    ensures r == DecodeMap(w, ApplyKeyAttr, init)
  {
    if !w.WMap? {
      return Err(TypeMismatch(MapKind));
    }
    var mapLength, entries := w.length, w.entries;
    var key := init;
    var i := 0;
    while i < mapLength
      invariant i <= mapLength && i <= |entries|
      invariant Fold(ApplyKeyAttr, init, entries[..i]) == Ok(key)
    {
      if i == |entries| {
        assert entries[..i] == entries;
        return Err(Truncated);
      }
      FoldExtend(ApplyKeyAttr, init, entries, i);
      DecodeMapStopsAtError(w, ApplyKeyAttr, init, i, key);
      var attrKey :- AsString(entries[i].key);
      key :- ReadKeyAttr(key, attrKey, entries[i].value);
      i := i + 1;
    }
    r := Ok(key);
  }

  // ---------------------------------------------------------------------------
  // Properties of decoding

  /** The `unique` alias: `true` makes a unique key, `false` a standard one. */
  lemma UniqueAliasDecodes(k: Key, b: bool)
    ensures ApplyKeyAttr(k, Attr("unique", WBool(b))) == Ok(k.(keyType := if b then UniqueKey else StandardKey))
  {
  }

  /** The `key_type` alias: each known spelling sets its kind. */
  lemma KeyTypeAliasDecodes(k: Key, t: KeyType)
    ensures ApplyKeyAttr(k, Attr("key_type", WStr(KeyTypeName(t)))) == Ok(k.(keyType := t))
  {
  }

  /** A `key_type` spelling this version does not know leaves the key unchanged. */
  lemma UnknownKeyTypeIgnored(k: Key, s: string)
    requires s !in {"standard", "unique", "spatial"}
    ensures ApplyKeyAttr(k, Attr("key_type", WStr(s))) == Ok(k)
  {
  }

  /**
   * Type errors: an attribute name that is not a string, or a recognised
   * attribute whose value is not of the kind it is read as, fails the decode.
   */
  lemma KeyAttrTypeErrors(k: Key, key: Wire, name: string, v: Wire)
    ensures !key.WStr? ==> ApplyKeyAttr(k, Entry(key, v)) == Err(TypeMismatch(StringKind))
    ensures name in {"name", "key_type"} && !v.WStr? ==> ApplyKeyAttr(k, Attr(name, v)) == Err(TypeMismatch(StringKind))
    ensures !v.WBool? ==> ApplyKeyAttr(k, Attr("unique", v)) == Err(TypeMismatch(BoolKind))
    ensures !v.WArr? ==> ApplyKeyAttr(k, Attr("columns", v)) == Err(TypeMismatch(ArrayKind))
  {
  }

  /** True for entries under either of the names that carry a key's kind. */
  predicate IsKeyTypeAttr(e: Entry) {
    e.key in {WStr("unique"), WStr("key_type")}
  }

  lemma KeyTypeUntouched(k: Key, e: Entry)
    requires ApplyKeyAttr(k, e).Ok?
    requires !IsKeyTypeAttr(e)
    ensures ApplyKeyAttr(k, e).value.keyType == k.keyType
  {
  }

  /**
   * Last writer wins: after an entry that sets the kind to `t` under either
   * name, entries under other names leave the kind alone.
   */
  lemma KeyTypeLastWins(start: Key, a: seq<Entry>, e: Entry, t: KeyType, b: seq<Entry>)
    requires e == KeyTypeAttr(t) || e == Attr("key_type", WStr(KeyTypeName(t)))
    requires forall x | x in b :: !IsKeyTypeAttr(x)
    ensures var r := Fold(ApplyKeyAttr, start, a + [e] + b);
            r.Ok? ==> r.value.keyType == t
  {
    FoldAppend(ApplyKeyAttr, start, a + [e], b);
    FoldAppend(ApplyKeyAttr, start, a, [e]);
    var front := Fold(ApplyKeyAttr, start, a);
    if front.Ok? {
      FoldSingle(ApplyKeyAttr, front.value, e);
      var mid := ApplyKeyAttr(front.value, e);
      assert mid == Ok(front.value.(keyType := t)) by {
        if e == KeyTypeAttr(t) {
          match t
          case StandardKey => UniqueAliasDecodes(front.value, false);
          case UniqueKey => UniqueAliasDecodes(front.value, true);
          case SpatialKey => KeyTypeAliasDecodes(front.value, t);
        } else {
          KeyTypeAliasDecodes(front.value, t);
        }
      }
      var P := (k: Key) => k.keyType == t;
      forall s, x | x in b && P(s) && ApplyKeyAttr(s, x).Ok?
        ensures P(ApplyKeyAttr(s, x).value)
      {
        KeyTypeUntouched(s, x);
      }
      FoldPreserves(ApplyKeyAttr, P, mid.value, b);
    }
  }

  /**
   * Round trip: decoding a key's encoding gives the key back, whatever the
   * destination held before, since all three attributes are always written.
   */
  lemma KeyRoundTrip(k: Key, init: Key)
    ensures DecodeMap(EncodeKey(k), ApplyKeyAttr, init) == Ok(k)
  {
    var name, kind, columns := Attr("name", WStr(k.name)), KeyTypeAttr(k.keyType),
                               Attr("columns", EncodeStrings(k.columns));
    var k0 := init.(name := k.name);
    var k1 := k0.(keyType := k.keyType);
    FoldSingle(ApplyKeyAttr, init, name);
    FoldSingle(ApplyKeyAttr, k0, kind);
    match k.keyType {
      case StandardKey => UniqueAliasDecodes(k0, false);
      case UniqueKey => UniqueAliasDecodes(k0, true);
      case SpatialKey => KeyTypeAliasDecodes(k0, SpatialKey);
    }
    FoldThen(ApplyKeyAttr, init, [name], k0, [kind], k1);
    StringsRoundTrip(k.columns);
    FoldSingle(ApplyKeyAttr, k1, columns);
    FoldThen(ApplyKeyAttr, init, [name] + [kind], k1, [columns], k);
    var w := EncodeKey(k);
    assert w.entries[..3] == [name] + [kind] + [columns];
  }

  /** The same, for a key decoded on its own. */
  lemma KeyFromWireRoundTrip(k: Key)
    ensures KeyFromWire(EncodeKey(k)) == Ok(k)
  {
    KeyRoundTrip(k, DefaultKey());
  }

  /** An attribute the decoder does not recognise is skipped, whatever its value. */
  lemma UnknownKeyAttrIgnored(u: Entry)
    requires u.key.WStr? && u.key.s !in KeyAttrNames
    ensures forall k :: ApplyKeyAttr(k, u) == Ok(k)
  {
  }

  /** Forward compatibility: an unknown attribute anywhere in a key map changes nothing. */
  lemma KeyForwardCompatible(init: Key, n: nat, a: seq<Entry>, u: Entry, b: seq<Entry>)
    requires |a| <= n
    requires u.key.WStr? && u.key.s !in KeyAttrNames
    ensures DecodeMap(WMap(n + 1, a + [u] + b), ApplyKeyAttr, init) ==
            DecodeMap(WMap(n, a + b), ApplyKeyAttr, init)
  {
    UnknownKeyAttrIgnored(u);
    DecodeMapSkipsIgnored(ApplyKeyAttr, init, n, a, u, b);
  }
}
