# Kitchen Sync schema codec, modelled in Dafny

Kitchen Sync peers exchange a snapshot of the database schema. Each `Column`,
`Key`, `Table` and `Database` travels as a self-describing MessagePack map of
attribute names to values. This project models the encoders (`operator <<`) and
decoders (`operator >>`) of `src/schema_serialization.h`, together with the
version-compatibility rules they carry:

- optional column attributes are left out when they hold their default;
- an expression default keeps its legacy wire name `default_function`;
- a key's kind is written as the `unique` boolean, or as the `key_type` string only for spatial keys;
- unknown attributes are skipped on decode;
- a missing `primary_key_type` is backfilled from `primary_key_columns`.

Layout:

- `wire.dfy` (module `Wire`): the value stream as a tree.
  - `WMap(length, entries)` keeps the length a map header declares next to the entries that follow it. This makes the encoder's counting pass and a truncated stream both expressible.
  - `Fold` and `DecodeMap` are the decoders' shared `while (map_length--)` loop, written as a left fold.
  - `EncodeArray` and `DecodeArray` stand for the generic vector packer and unpacker.
- `schema.dfy` (module `Schema`): the records and their freshly constructed values.
- `column_serialization.dfy`, `key_serialization.dfy`, `table_serialization.dfy` and `database_serialization.dfy`: one module per entity.
  - Each encoder is a function.
  - Each decoder has two forms. One is a specification function: the fold of a per-entry step. The other is a method whose loop updates the destination the way the C++ does, and which is proved equal to that function.
  - Each module ends with the lemmas that state the codec's promises.

## Model

| member | source | states |
|---|---|---|
| `Wire.NonMapFails` | src/schema_serialization.h:138 | Every decoder first reads a map header; anything else is a type error. |
| `Wire.TruncatedMapFails` | src/schema_serialization.h:138-141 | When fewer entries follow than the header declares, decoding fails: with the first error among the entries present, or as truncated once they have all been read. |
| `Wire.DecodeMapStopsAtError` | src/schema_serialization.h:140-141 | The first entry among the declared ones whose read fails makes the whole map fail with that error. |
| `ColumnSerialization.EncodeColumn` | src/schema_serialization.h:8-85 | The map header's precomputed field count equals the number of entries then written, and `name` and `column_type` are always written first. |
| `ColumnSerialization.OmissionLaw` | src/schema_serialization.h:9-84 | A column is written as exactly `[name, column_type]` when every optional attribute holds its default (size 0, scale 0, nullable, empty strings, no default, no flags), and only then. |
| `ColumnSerialization.OptionalAttrEncoding` | src/schema_serialization.h:26-49 | Each optional scalar attribute is written exactly when it differs from its default. `size` and `scale` are written when non-zero, the three strings when non-empty, and `nullable` exactly when the column is not nullable, and then only as `false`. |
| `ColumnSerialization.BaseAttrValues` | src/schema_serialization.h:22-49 | Every entry under one of the eight scalar names carries the column's own value for that field. |
| `ColumnSerialization.DefaultKindEncoding` | src/schema_serialization.h:50-68 | An entry for a default kind's key (`sequence`, `default_value`, or the legacy `default_function` for an expression) is written exactly when the column has that kind, and it carries the default value. Nothing is written for no default. |
| `ColumnSerialization.FlagEncoding` | src/schema_serialization.h:69-84 | A flag's key appears exactly when the flag is set, and always with the value `true`. |
| `ColumnSerialization.ReadColumnAttr` | src/schema_serialization.h:141-179 | The in-place dispatch on one attribute name has the effect `SetColumnAttr` specifies, including its type errors: a value that is not of the kind the field is read as. |
| `ColumnSerialization.DecodeColumn` | src/schema_serialization.h:137-181 | The decoding loop gives the same column as folding the map's declared entries into the destination. It fails on a non-map, on a non-string attribute name, on a value of the wrong type, and when fewer entries follow than the header declares. |
| `ColumnSerialization.ColumnAttrTypeErrors` | src/schema_serialization.h:141-175 | A non-string attribute name is a type error. So is a value of the wrong kind for a recognised attribute: a non-string for the string fields and the three default keys, a non-integer for `size` and `scale`, and a non-bool for `nullable` and the flags. |
| `ColumnSerialization.DefaultAttrSetsKindAndValue` | src/schema_serialization.h:159-167 | Each of the three default keys sets both the default kind and the default value. |
| `ColumnSerialization.DefaultLastWins` | src/schema_serialization.h:159-167 | Entries after a default entry that are not themselves default entries leave the kind and value it set alone, so the last default key seen wins. |
| `ColumnSerialization.FlagsAccumulate` | src/schema_serialization.h:168-175 | After decoding, a flag is set exactly when it was set before or some entry gave its key the value `true`. `false` changes nothing and no flag is ever cleared. |
| `ColumnSerialization.ColumnForwardCompatible` | src/schema_serialization.h:176-179 | Inserting an unknown attribute anywhere within a column map's declared entries, and counting it in the header, decodes to the same result as leaving it out. |
| `ColumnSerialization.ColumnRoundTrip` | src/schema_serialization.h:8-181 | Decoding a well-formed column's encoding into a freshly constructed column gives the column back. |
| `ColumnSerialization.StrayDefaultValueIsLost` | src/schema_serialization.h:50-52 | Every column decodes back from its encoding, with one exception: a column with no default kind comes back with an empty default value. A stray default value is never written, so it is lost. This is why `ColumnRoundTrip` asks for well-formedness. |
| `KeySerialization.EncodeKey` | src/schema_serialization.h:88-112 | A key is always a map of three entries, as declared, with `name` first and the `columns` list last. |
| `KeySerialization.KeyTypeEncoding` | src/schema_serialization.h:92-109 | `unique` is written exactly for standard and unique keys and `key_type` exactly for spatial keys, so the two are never both written. |
| `KeySerialization.ReadKeyAttr` | src/schema_serialization.h:188-208 | The in-place dispatch on one key attribute has the effect `SetKeyAttr` specifies. |
| `KeySerialization.DecodeKey` | src/schema_serialization.h:184-210 | The decoding loop gives the same key as folding the map's declared entries into the destination, and it fails in the same cases. |
| `KeySerialization.KeyAttrTypeErrors` | src/schema_serialization.h:188-204 | A non-string attribute name is a type error. So is a wrong-kind value: a non-string for `name` or `key_type`, a non-bool for `unique`, and a non-array for `columns`. |
| `KeySerialization.UniqueAliasDecodes` | src/schema_serialization.h:192-193 | `unique: true` makes a unique key and `unique: false` a standard one. |
| `KeySerialization.KeyTypeAliasDecodes` | src/schema_serialization.h:194-202 | Each known `key_type` spelling (`standard`, `unique`, `spatial`) sets its kind. |
| `KeySerialization.UnknownKeyTypeIgnored` | src/schema_serialization.h:194-202 | Any other `key_type` string leaves the key unchanged. |
| `KeySerialization.KeyTypeLastWins` | src/schema_serialization.h:192-202 | After an entry that sets the kind under either alias, later entries under other names keep that kind, so the later alias entry wins. |
| `KeySerialization.KeyRoundTrip` | src/schema_serialization.h:88-210 | Decoding a key's encoding gives the key back, whatever the destination held before. |
| `KeySerialization.KeyForwardCompatible` | src/schema_serialization.h:205-208 | Inserting an unknown attribute anywhere in a key map decodes to the same result as leaving it out. |
| `TableSerialization.EncodeTable` | src/schema_serialization.h:115-127 | A table is always a map of five entries, as declared, and its `primary_key_type` is always written. |
| `TableSerialization.ReadTableAttr` | src/schema_serialization.h:219-235 | The in-place dispatch on one table attribute, including setting `primary_key_type_set`, has the effect `SetTableAttr` specifies. |
| `TableSerialization.DecodeTable` | src/schema_serialization.h:213-242 | The decoding loop, followed by the backfill, gives the same table as folding the declared entries and then applying `Backfill`, and it fails in the same cases. |
| `TableSerialization.TableAttrTypeErrors` | src/schema_serialization.h:219-231 | A non-string attribute name is a type error. So is a wrong-kind value: a non-string `name`, a non-array `columns`, `primary_key_columns` or `keys`, and a non-integer `primary_key_type`. |
| `TableSerialization.SeenTracksEntries` | src/schema_serialization.h:216-229 | After the loop, `primary_key_type_set` is true exactly when some entry was named `primary_key_type`. |
| `TableSerialization.BackfillWhenAbsent` | src/schema_serialization.h:238-241 | A table map with no `primary_key_type` entry decodes to "no available key" when its decoded primary key columns are empty, and to "explicit primary key" otherwise. |
| `TableSerialization.WireTypeKept` | src/schema_serialization.h:227-241 | When a `primary_key_type` entry is read, the last one's value is the result and the backfill does not touch it. |
| `TableSerialization.PrimaryKeyTypeIgnoresDestination` | src/schema_serialization.h:216-241 | The destination's previous `primary_key_type` never shows through: the decoded value is either read or backfilled. |
| `TableSerialization.TableRoundTrip` | src/schema_serialization.h:115-242 | Decoding a table's encoding gives the table back, whatever the destination held before, provided its columns are well formed. |
| `TableSerialization.LegacyTableDecodes` | src/schema_serialization.h:238-241 | The same table written without `primary_key_type`, as older peers write it, decodes to the table with its kind backfilled. |
| `TableSerialization.TableForwardCompatible` | src/schema_serialization.h:232-235 | Inserting an unknown attribute anywhere in a table map decodes to the same result as leaving it out. |
| `DatabaseSerialization.EncodeDatabase` | src/schema_serialization.h:130-134 | A database is a one-entry map whose `tables` array holds one element per table. |
| `DatabaseSerialization.DecodeDatabase` | src/schema_serialization.h:245-258 | The decoding loop gives the same database as folding the declared entries into the destination, and it fails in the same cases. |
| `DatabaseSerialization.DatabaseAttrTypeErrors` | src/schema_serialization.h:249-252 | A non-string attribute name is a type error, and so is a `tables` value that is not an array. |
| `DatabaseSerialization.DatabaseRoundTrip` | src/schema_serialization.h:130-258 | Decoding a database's encoding gives the database back, whatever the destination held before, provided every column is well formed. |
| `DatabaseSerialization.DatabaseForwardCompatible` | src/schema_serialization.h:253-256 | Inserting an unknown attribute anywhere in a database map decodes to the same result as leaving it out. |

## Left out

- MessagePack byte framing is not modelled. This covers `pack_map_length`, `next_map_length`, `next<T>` and `skip`. The stream is a tree of `Wire` values. A skipped value is one `Wire`, whatever its structure.
- A stream that ends early is modelled only as the error `Truncated`: the decoder consumes the entries that are there and then fails. Other I/O failures are not modelled.
- The generic vector packer and unpacker are foreign code. They are modelled by `EncodeArray` and `DecodeArray`. The unpacker is assumed to decode each element into a freshly constructed value and to replace the whole vector. Element decoding uses each entity's specification function (`ColumnFromWire`, `KeyFromWire`, `TableFromWire`), which its decoder method is proved equal to.
- `schema.h` is not part of this model, so some of its definitions are assumed:
  - `PrimaryKeyType` is an integer, with `no_available_key` = 0 and `explicit_primary_key` = 1 assumed; other values are opaque.
  - Column flags are a set of four flags rather than bits.
  - Key columns and primary key columns are lists of names.
  - The integer widths of `size` and `scale` are not modelled: they are unbounded integers.
- On a decoding error the C++ throws, and may already have changed some of the destination's fields; for example, a default key sets `default_type` before its value is read. The model returns only the error and not that partly updated destination.
- C++ templating over stream types is not modelled.
- The `Wire` tree allows values no byte stream can produce, and the model treats two of them more leniently than the C++ would:
  - A map with more entries than its header declares: the surplus entries are ignored.
  - A skipped unknown value that is itself truncated (a nested map with too few entries) decodes successfully, where the C++ `skip()` would run into the end of the stream.
- ColumnSerialization.ColumnRoundTrip: requires `WellFormedColumn`, which says a column without a default kind has an empty default value, because the encoder never writes the value in that case (`StrayDefaultValueIsLost`). `TableRoundTrip` and `DatabaseRoundTrip` inherit this requirement through their columns.
