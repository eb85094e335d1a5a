# Identifier escaping and property tables of the media-server interface

This project models two small pieces of the media-server interface library
and proves what they promise.

- `escape_as_identifier` (vapi/cutils.c) escapes an arbitrary C string into
  a C identifier. The result therefore obeys the character rules of D-Bus
  object-path elements and member names, but not their length limit. Letters are kept. Digits are kept except
  in first position. Every other byte, `_` included, becomes `_` followed by
  two lower-case hex digits. The empty string becomes `_`. The escape is
  reversible, so distinct names stay distinct.
- vapi/query-definitions.h holds the property tables. It names the property
  codes (`PROPSIZE` = 1, ...), gives `PROPERTIES`, the D-Bus name of each code,
  and gives `FILTER`, which says which properties apply to a MediaItem and to a
  MediaContainer.

Files:

- `wrappers.dfy`: module `Wrappers` (an `Option` type).
- `identifier.dfy`: module `Identifier`. `IsBad` is the byte predicate
  `_esc_ident_bad`. `Escape` is the escape as a value. `ScanName` and
  `CopyRuns` are the two loops of the C function, written as methods with
  invariants. `EscapeAsIdentifier` combines them with the two fast paths and
  is proved equal to `Escape`. `Unescape` is the inverse used to state that
  the escape is reversible.
- `query_definitions.dfy`: module `QueryDefinitions`. It holds the named
  constants, the `Properties` and `Filter` tables (laid out as in the header),
  the lookups `PropertyName` and `IsApplicable`, and the facts about the tables.

Bytes are integers 0..255. A C string is a sequence of non-zero bytes, and its
NUL terminator is the end of the sequence. The D-Bus type of each property
(x = INT64, i = INT32, o = OBJECT_PATH, s = STRING, a = ARRAY) comes from the
MediaObject2/MediaItem2 D-Bus interfaces. The header states only the band
markers ("first x", "first i", ...), so the model checks every constant
against the band its code falls in.

## Model

| member | source | states |
|---|---|---|
| `Identifier.IsBad` | vapi/cutils.c:3-9 | a byte is kept exactly when it is a letter, or a digit not in first position; `_` is always escaped |
| `Identifier.HexDigit` | vapi/cutils.c:78 | a lower-case hex digit whose value is the given nibble |
| `Identifier.EscapeByte` | vapi/cutils.c:78 | a bad byte becomes three bytes: `_`, then two lower-case hex digits whose value, high digit first, is the unsigned byte |
| `Identifier.Escape` | vapi/cutils.c:12-31 | the result is a non-empty C identifier (only `[A-Za-z0-9_]`, no leading digit) and so NUL-free; it is `_` exactly when the name is empty |
| `Identifier.EscapeRunIdentifier` | vapi/cutils.c:16-27 | every escaped byte is an identifier character; an escaped name never starts with a digit; a non-empty name never escapes to `_` |
| `Identifier.EscapeRunLength` | vapi/cutils.c:49-58 | the escape is one byte per good byte and three per bad byte |
| `Identifier.EscapeLengthBounds` | vapi/cutils.c:49-58 | a non-empty name escapes to between one and three times its length, so a name of at most 85 bytes escapes to at most 255 bytes, the D-Bus name limit |
| `Identifier.EscapeCanExceedNameLimit` | vapi/cutils.c:16-18 | 86 spaces escape to 258 bytes, more than the 255 bytes a D-Bus member, interface or bus name may have |
| `Identifier.EscapeRunAppend` | vapi/cutils.c:68-87 | escaping works run by run and in order: the escape of a concatenation is the concatenation of the escapes, and only the first part can hold the name's first byte |
| `Identifier.CleanRunUnchanged` | vapi/cutils.c:72-76 | a run of good bytes is copied verbatim |
| `Identifier.CleanNameUnchanged` | vapi/cutils.c:60-62 | a non-empty name with no bad byte escapes to itself (the clean fast path) |
| `Identifier.ScanName` | vapi/cutils.c:49-58 | the counting loop: `bad` holds exactly when some byte is bad, and `len` equals the length of the escaped name |
| `Identifier.CopyStep` | vapi/cutils.c:70-81 | one step of the copying loop: a bad byte flushes the pending good run and appends its escape; a good byte extends the pending run |
| `Identifier.CopyRuns` | vapi/cutils.c:64-88 | the copying loop returns the escape of the name; its invariant is that the escape of `name[..i]` is `op` followed by the pending run `name[firstOk..i]`, copied verbatim |
| `Identifier.EscapeAsIdentifier` | vapi/cutils.c:35-89 | for every NUL-free name, the C function (empty fast path, counting loop, clean fast path, copying loop) returns `Escape(name)` |
| `Identifier.RoundTrip` | vapi/cutils.c:20-29 | decoding an escaped run (`_` plus two hex digits, or a literal byte) gives back the run |
| `Identifier.UnescapeEscape` | vapi/cutils.c:20-21 | the escape is reversible: `Unescape(Escape(s)) == Some(s)` for every name |
| `Identifier.EscapeInjective` | vapi/cutils.c:20-21 | distinct names escape to distinct identifiers |
| `Identifier.EscapeNotIdempotent` | vapi/cutils.c:23-25 | `_` escapes to `_5f`, and escaping that again changes it, so the escape is not idempotent |
| `Identifier.WorkedExample` | vapi/cutils.c:27 | `"0123abc_xyz\x01\xff"` escapes to `_30123abc_5fxyz_01_ff` |
| `QueryDefinitions.PropertyName` | vapi/query-definitions.h:40-68 | the name of a code is non-empty exactly on the named bands: Size, Duration..TrackNumber, Parent..AlbumArt, Type..DLNAProfile, URLs |
| `QueryDefinitions.IsApplicable` | vapi/query-definitions.h:70-83 | a property flagged in either row of FILTER has a non-empty name |
| `QueryDefinitions.TableShapes` | vapi/query-definitions.h:40-83 | PROPERTIES has 52 entries, FILTER has two rows of 52, and every named constant indexes both |
| `QueryDefinitions.ConstantsIndexTheirNames` | vapi/query-definitions.h:9-68 | each named constant indexes its own name, e.g. `PROPERTIES[PROPSIZE] == "Size"` |
| `QueryDefinitions.ConstantsDistinct` | vapi/query-definitions.h:9-38 | the 24 named constants are pairwise distinct |
| `QueryDefinitions.NamedCodesAreConstants` | vapi/query-definitions.h:9-68 | a code lies in a named band exactly when some constant has that code |
| `QueryDefinitions.ConstantsInTheirBands` | vapi/query-definitions.h:4-38 | every constant lies in the band of its D-Bus type, each band opening at the constant marked first of that type |
| `QueryDefinitions.BandsOrdered` | vapi/query-definitions.h:4-38 | the bands follow the order x, i, o, s, a: a constant of an earlier type has a smaller code |
| `QueryDefinitions.IntegersGrouped` | vapi/query-definitions.h:4-6 | every integer-typed code comes before every other code |
| `QueryDefinitions.MediaItemRow` | vapi/query-definitions.h:70-76 | a MediaItem has every named property except DLNAProfile |
| `QueryDefinitions.MediaContainerRow` | vapi/query-definitions.h:77-83 | a MediaContainer has exactly Parent, Path, Type and DisplayName |
| `QueryDefinitions.ContainerWithinItem` | vapi/query-definitions.h:70-83 | every MediaContainer property also applies to a MediaItem |
| `QueryDefinitions.SizeExample` | vapi/query-definitions.h:17-83 | code 1 is "Size"; it applies to a MediaItem and not to a MediaContainer |

## Left out

- GLib allocation and ownership are not modelled: `g_strdup`, `GString` growth, `g_string_free` and the caller's duty to free. The result is a fresh sequence, and the capacity passed to `g_string_sized_new` appears only as the counted `len`.
- The NULL check `g_return_val_if_fail` (vapi/cutils.c:43) is not modelled. A sequence is never absent, so the NULL return and its log message have no counterpart.
- The signedness of C `char` is not modelled. Bytes are unsigned 0..255. Bytes 0x80..0xff are bad under either signedness, and `%02x` prints the unsigned value, so the result is the same.
- Escape: guarantees the character rules of D-Bus names, not their 255-byte length limit. The function has no length check, and a name longer than 85 bytes can escape to more than 255 bytes (`EscapeCanExceedNameLimit`). Callers must keep names short; `EscapeLengthBounds` gives the bound.
- `Unescape` has no counterpart in the source. It exists only to state reversibility, and it also accepts some strings that `Escape` never produces, such as `_41`.
- The declared D-Bus type of each property comes from the MediaObject2/MediaItem2 interfaces, not from the header.
- vapi/cutils.h is not part of this model.
- The D-Bus and media-server code that reads these tables and sorts properties by wire type is not part of this model.
