# MappingContainer of parcel-source-map, in Dafny

This project models the mapping container of parcel-source-map
(`src/MappingContainer.cpp`). The container holds:

- two interning tables, one for source file names and one for identifier
  names;
- the generated lines, each a list of segments (mappings);
- the highest materialised generated line;
- the number of segments ever added.

It reads the "mappings" field of a Source Map Revision 3 file (Base64 VLQ,
with the alphabet of section 4 of RFC 4648) into that store, writes the store
back as such a string, and looks up the segment of a generated line at a
given column.

Modules, one file each:

- `results.dfy` (`Results`): the result type of the reference decoder. Its
  errors name the cases where the C++ leaves defined behaviour.
- `vlq.dfy` (`Vlq`): Base64 digits, the VLQ digit groups, and the sign in the
  low bit. The decoder's halving uses C's truncating division.
- `mappings.dfy` (`Mappings`): `Position`, `Mapping` and `MappingLine`, with
  the stable sort of a line on generated column.
- `interning.dfy` (`Interning`): an append-only string table with its
  reverse index.
- `container.dfy` (`MappingContainer`): the container record and its
  invariant. The invariant is "line i is stored at index i, there are
  `generatedLines + 1` lines, every segment is on its own line, and the
  segment count is the number of stored segments". This module holds
  `addName`, `addSource`, the index getters, `addLine`,
  `createLinesIfUndefined`, `addMapping` and `sort`.
- `decoder.dfy` (`Decoder`): `addVLQMappings`.
  - The reference reading has two stages. `Lex` turns characters into field
    and delimiter tokens. `Interpret` runs the five accumulators over the
    tokens.
  - The method `AddVLQMappings` is the single-pass loop of the C++, and is
    proved to add exactly the reference's mappings.
- `decodeshape.dfy` (`DecodeShape`): what a decode looks like, from the
  characters alone:
  - the number of mappings;
  - each mapping's generated line;
  - each mapping's shape, by field count.
- `encoder.dfy` (`Encoder`): `toVLQMappings`.
- `writtentokens.dfy` (`WrittenTokens`): the encoder's output seen through
  the decoder's lexer. Every field written lexes back to its delta, and the
  written string lexes to the encoder's fields and separators as tokens.
- `encodeshape.dfy` (`EncodeShape`): the separators and field counts of the
  written string.
- `roundtrip.dfy` (`RoundTrip`): reading back what `toVLQMappings` wrote
  gives the sorted container again.
- `lookup.dfy` (`Lookup`): `findClosestMapping`.

The initial state of a container is `MappingContainer.Empty`: no lines, and
`generatedLines == -1`. `addLine` pre-increments `generatedLines`, and
`addMapping` indexes the line vector by the generated line. Only -1 makes both
agree.

## Model

| member | source | states |
|---|---|---|
| Interning.IndexOf | src/MappingContainer.cpp:234-248 | On a consistent table the index is non-negative exactly when the string is present. It then points at that string. Otherwise it is -1. |
| Interning.Intern | src/MappingContainer.cpp:8-26 | The returned index holds the string. A present string gives its existing index and an unchanged table. A new string is appended at position `|entries|`, with earlier entries untouched. The table stays consistent. |
| MappingContainer.AddName | src/MappingContainer.cpp:8-16 | `addName` returns an index holding the name. A known name leaves the container unchanged and returns `getNameIndex`. A new name is appended at the end. Sources, lines and counters are untouched, and the invariant is kept. |
| MappingContainer.AddSource | src/MappingContainer.cpp:18-26 | The same as `addName`, for the source table. |
| MappingContainer.GetNameIndex | src/MappingContainer.cpp:242-248 | The result is non-negative exactly when the name was added, and then names it. Otherwise it is -1. |
| MappingContainer.GetSourceIndex | src/MappingContainer.cpp:234-240 | The result is non-negative exactly when the source was added, and then names it. Otherwise it is -1. |
| MappingContainer.AddLine | src/MappingContainer.cpp:228-232 | Appends one empty line numbered with the pre-incremented line count. Keeps "line i at index i" and the container invariant. |
| MappingContainer.CreateLinesIfUndefined | src/MappingContainer.cpp:45-54 | The line count becomes the larger of the old count and the requested line. Existing lines are kept as a prefix. Each new line is empty and numbered one past the previous one, with no gaps. |
| MappingContainer.AddMapping | src/MappingContainer.cpp:39-43 | The line count becomes `max(old, generated.line)`. The mapping is appended at the end of its line. Every other line is unchanged, or is a new empty line. The segment count grows by exactly one, and the invariant is kept. |
| MappingContainer.AddAllCounts | src/MappingContainer.cpp:212-214 | After adding a sequence of mappings, `getTotalSegments` has grown by their number. `getGeneratedLines` is the highest of its old value and their lines. |
| MappingContainer.Sort | src/MappingContainer.cpp:32-37 | The number of lines and their numbers are kept. Every line becomes non-decreasing in generated column, with the same multiset of segments. The tables and counters are unchanged, and the invariant is kept. |
| MappingContainer.SortTwice | src/MappingContainer.cpp:32-37 | Sorting twice gives the same container as sorting once. |
| Mappings.SortIsStable | src/MappingContainer.cpp:35 | The per-line sort is stable: segments with equal generated columns keep their relative order. |
| Mappings.SortSortedIsIdentity | src/MappingContainer.cpp:35 | The per-line sort leaves an already sorted line as it is. |
| Vlq.DecodeBase64Char | src/MappingContainer.cpp:93 | Maps the 64 alphabet characters to 0..63, with the ranges A-Z, a-z and 0-9 at 0-25, 26-51 and 52-61. |
| Vlq.FromVlqSigned | src/MappingContainer.cpp:100-105 | An even assembled number gives half of it. An odd one gives minus half of it, rounded toward zero, as C's `-value / 2` does. |
| Vlq.SignedRoundTrip | src/MappingContainer.cpp:100-105 | Reading the sign-folded number that `encodeVlq` writes gives the delta back. |
| Vlq.EncodeVlqNumberValue | src/MappingContainer.cpp:95-98 | The digits written for a number carry exactly that number, when payloads are summed with 5 more bits of shift per digit. |
| WrittenTokens.LexEncodeVlq | src/MappingContainer.cpp:93-107 | The characters `encodeVlq` writes for a delta decode to one field holding that delta, and reset the digit accumulator. |
| Decoder.Resolve | src/MappingContainer.cpp:75-82 | A completed segment maps to its generated line and column. It has a source and original position only with at least four fields, and a name only with five. Source and name go through the caller's lists. It fails exactly when such a list index is out of range. |
| Decoder.AddField | src/MappingContainer.cpp:105-106 | A decoded field is added to the accumulator of its position, and the field count grows by one. The other accumulators and the line are unchanged. |
| Decoder.EndSegment | src/MappingContainer.cpp:84-89 | After a delimiter the field count is 0. A `;` also moves to the next line and resets the column accumulator to the column offset. The source, original-line, original-column and name accumulators persist. |
| Decoder.Decode | src/MappingContainer.cpp:72-119 | The reference reading of the character loop: `Lex` assembles digits into fields and keeps a half-assembled number across a delimiter, as the `continue` at line 90 does without resetting `value` and `shift`; `Interpret` runs the five accumulators. Every decoded mapping lies on the line offset or a later line. |
| DecodeShape.DecodeFailures | src/MappingContainer.cpp:72-119 | The decode fails whenever some segment has more than five fields, and never fails when every segment has at most three fields. Between the two, the only failure is a source or name index outside the caller's lists, as `Decoder.Resolve` states. |
| DecodeShape.DigitsCarryAcrossDelimiter | src/MappingContainer.cpp:74-107 | In "h,B" the digit `h` carries on into `B` across the `,`. The `,` ends an empty segment at column 0, and `B` completes the number 33, which is the delta -16. |
| Decoder.AddVLQMappings | src/MappingContainer.cpp:56-120 | The single pass adds to the container exactly the reference decoding's mappings, in order. The invariant is kept, and the segment count grows by their number. |
| DecodeShape.DecodeSegments | src/MappingContainer.cpp:72-119 | One mapping per `,` or `;`, plus one for a trailing segment that has fields. The k-th mapping's generated line is the line offset plus the number of `;` before its terminator. Its source, original position and name appear as its field count dictates. |
| DecodeShape.DecodeAAAA | src/MappingContainer.cpp:56-120 | "AAAA", with source list [0], no names and zero offsets, decodes to the single mapping (0,0) to (0,0), source 0, no name. |
| DecodeShape.DecodeEmptySegments | src/MappingContainer.cpp:74-91 | Empty segments still yield mappings at the running column, with no source and no name. A `;` resets the column. |
| Encoder.SegmentFields | src/MappingContainer.cpp:153-172 | Writes one field, then three more with a source, then one more with a name. Each field is a delta that, added to its running value, gives the mapping's value. |
| Encoder.ToVLQMappings | src/MappingContainer.cpp:122-181 | The container is sorted first, and every line of the result is sorted by column. The string returned is the one written from the sorted lines (`EncodeLines`), which `EncodeShape.EncodeShape` describes. It uses only Base64 characters and delimiters. |
| Encoder.EncodeAAAA | src/MappingContainer.cpp:122-181 | The single mapping (0,0) to (0,0), source 0, no name, is written as "AAAA". |
| EncodeShape.EncodeShape | src/MappingContainer.cpp:134-178 | The delimiters of the written string are `,` between consecutive segments of a line and `;` between consecutive lines. Every segment has as many fields as its shape asks for. |
| EncodeShape.LineSeparatorCount | src/MappingContainer.cpp:134-141 | The written string holds exactly `|lines| - 1` semicolons. |
| EncodeShape.NameWithoutSource | src/MappingContainer.cpp:156-172 | Source and name are checked independently: a mapping with a name but no source is written as a two-field segment. |
| EncodeShape.NameWithoutSourceIsDropped | src/MappingContainer.cpp:111-118 | A two-field segment is read back without source and without name, so such a name does not survive the round trip. |
| EncodeShape.OriginalWithoutSourceIsDropped | src/MappingContainer.cpp:156-166 | A mapping with an original position but no source is written as the one-field segment "A", and "A" reads back with no original position. |
| RoundTrip.DecodeEncoded | src/MappingContainer.cpp:93-107 | Suppose every line is non-empty, and every mapping has source and name at least -1, a name only with a source, no original position without a source, and source and name indices that the caller's lists map to themselves. Then decoding the written lines gives all their segments back, line after line. |
| RoundTrip.RoundTrip | src/MappingContainer.cpp:122-181 | Take a valid container whose lines are all non-empty, and whose mappings have source and name at least -1, a name only with a source, no original position without a source, and indices within the identity lists. Decode its output with identity lists and zero offsets, and add the mappings to an empty container. This rebuilds the sorted lines, the line count and the segment count. |
| RoundTrip.WriteAndRead | src/MappingContainer.cpp:56-120 | For a container meeting the same conditions as `RoundTrip.RoundTrip`, `toVLQMappings` followed by `addVLQMappings` into a fresh container gives the sorted container, apart from its interning tables. |
| Lookup.FindClosestMapping | src/MappingContainer.cpp:183-210 | A line past the last one yields the absent mapping. Otherwise the result is a segment of the line. On a sorted line a column that occurs is found exactly. Otherwise the result is a segment where the column falls: all segments before it are left of the column, and all after it are right of it. |

## Left out

- The reference decoder returns `Err` on the paths where the C++ has
  undefined behaviour. `AddVLQMappings` requires that those paths are not
  taken:
  - more than five fields in a segment (`segment[segmentIndex++]` past the
    array);
  - a source or name index outside the caller's lists;
  - a character outside the Base64 alphabet and the two delimiters;
  - a negative line offset.
- 32-bit `int` overflow is not modelled: integers are unbounded. This affects
  the shift-and-add of VLQ digits, the accumulators and the counters.
- `Lookup.FindClosestMapping`:
  - requires a non-negative line index. A negative index passes the test
    at line 184, and `_mapping_lines.at` then throws `std::out_of_range`;
    that exception path is not modelled;
  - requires the looked-up line to be non-empty. On an empty line the C++
    reads `segments[0]` out of bounds, which is undefined behaviour;
  - does not claim that the result is the numerically nearest segment when no
    segment has the column, because the linear narrowing does not guarantee
    it.
- The source of `vlq.h` (`decodeBase64Char`, `encodeVlq`) and of
  `MappingLine` (its constructor, `addMapping` and `sort`) is not available.
  The model defines the digit functions from the Source Map Revision 3
  format, and the line sort as a stable insertion sort on generated column.
- `MappingContainer.AddMapping`: it requires a non-negative generated line.
  For a negative line `createLinesIfUndefined` adds nothing, and
  `_mapping_lines[generated.line]` at line 41 indexes out of bounds. The
  same holds for the lines of the mappings given to `AddAll`.
- The `std::stringstream` output is a `string` value. Raw `MappingLine*`
  pointers and the `reserve` capacity hint are left out: lines are values.
- The hash maps of the interning tables are Dafny `map`s.
- `RoundTrip.RoundTrip`: it requires every line to be non-empty. An empty
  line that is not the last is written as nothing before a `;`, and that
  empty segment is read back as one mapping at the running column. An empty
  last line is written as nothing after the last `;`; it is read back as no
  mapping, so the rebuilt container has one line fewer.
- `RoundTrip.RoundTrip`: it requires every name to come with a source (see
  `EncodeShape.NameWithoutSourceIsDropped`).
- `RoundTrip.RoundTrip`: it requires a mapping without a source to have no
  original position. `toVLQMappings` writes the original position only
  together with a source (lines 157-166), so such a position is lost (see
  `EncodeShape.OriginalWithoutSourceIsDropped`).
- `RoundTrip.RoundTrip`: it requires source and name indices of at least -1
  that lie within the identity lists. Those lists stand for the caller's
  index vectors, which the decoder reads with `sources[...]` and
  `names[...]`.
- `RoundTrip.WriteAndRead`: it compares the containers without their
  interning tables. `toVLQMappings` writes only indices, and reading
  resolves them through the caller's lists.
- `getNamesVector`, `getSourcesVector` and `getMappingLinesVector` are plain
  field reads. They are modelled as functions without contracts.
- `test/index.js` only selects a compiled backend and has no logic to model.
