# yobatis in Dafny

yobatis is a MyBatis-like code generator for C and MySQL. It reads mapper XML
files and emits C code that builds dynamic SQL at runtime. The generated code
runs on a small C support library: a byte-string buffer, hex codecs and a
chained hash map. A scaffolder writes starter mapper files from a database's
table descriptions.

This project models four pieces of that system and proves properties of them.

- **Support library** (`YbString`, `YbHashMap`).
  - `Str` is a class with the buffer's bytes (`data: seq<bv8>`), its ownership flag (`owned`) and whether its data pointer is non-NULL (`hasData`).
  - The string operations are methods that update those fields in place.
  - Hex encoding fills an `array<bv8>` in an index loop, as the C code does.
  - `HashMap` is a class. It holds an `array<seq<Entry>>` of bucket chains, an element count and a hash-function field. The hash function is left uninterpreted, since murmurhash is not modelled.
  - Resizing relinks every chain into a fresh array.
  - Insert and remove rewrite one chain.
- **Mapper parser** (`GenMapper`).
  - The parsed XML document is an abstract `Node` tree.
  - Parsing produces the dynamic-SQL AST (`SqlElement` = Include | Text | Trim | If) and a `Mapper` record with id-keyed and type-keyed tables.
  - Every `unwrap()` on a missing attribute becomes a `Failure`.
  - Child loops are methods proved equal to recursive specification functions. Lemmas state what those functions mean.
- **C renderer** (`GenC`, `PrepareRuntime`).
  - Output files are `OutFile` objects whose `chunks` grow by appended strings.
  - The temporary-buffer counter is threaded through the rendering functions.
  - `PrepareRuntime` models what the emitted C code does when it runs:
    - the placeholder-rewrite loop (`PrepareSql`, a method over `Str`);
    - the building of the command from the AST (`BuildElems`).
- **Scaffolder** (`InitInfo`, `InitMysql`, `InitMapper`).
  - Table descriptions are datatypes.
  - The XML writer is an `EventWriter` object collecting a sequence of `XmlEvent`s.
  - The column-type classifier and the DDL rewrites are pure functions.

The source has several defects (listed under Findings). The main model keeps the behaviour **as written**. Where a defect is a switch in generated text, `GenC.Fixes` selects between the two: `AsWritten` is what the generator does, and `Corrected` is what it evidently intends. `PrepareRuntime.Prepare` and `BuildElems` take the same kind of flag (`fixed`, `fixTrim`).

A suffix override is stripped only when the text ends with exactly that override. With `suffixOverrides=","`, the text `"a = 1, b = 2, "` keeps its trailing `", "`, because the code compares the last byte (a blank) with `","`. The model follows the code (`YbString.TrimSuffixNeedsExactEnd`).

## Model

| member | source | states |
|---|---|---|
| YbString.SentinelValues | yb_common/src/yb_common.h:8-30 | YB_OK is 0, YB_FAIL is -1, YB_INT_NULL is INT64_MIN |
| YbString.Str.constructor | yb_common/src/yb_common.c:32-38 | a new string is empty and owns nothing |
| YbString.FromRef | yb_common/src/yb_common.c:52-61 | the new string borrows exactly the given bytes (flag clear) |
| YbString.From | yb_common/src/yb_common.c:63-75 | the new string owns a copy of exactly the given bytes |
| YbString.FromCstr | yb_common/src/yb_common.c:87-89 | as written: the result is empty whatever the argument, because the zero-argument constructor ignores it |
| YbString.FromCstrFixed | yb_common/src/yb_common.h:72-78 | the documented behaviour: the result owns a copy of the argument |
| YbString.FromCstrRef | yb_common/src/yb_common.c:91-93 | the new string borrows the argument |
| YbString.Clone | yb_common/src/yb_common.c:95-100 | NULL gives NULL; otherwise, as written, a fresh empty string |
| YbString.CloneFixed | yb_common/src/yb_common.h:90-96 | the documented behaviour: NULL gives NULL, otherwise a fresh owned copy of the content |
| YbString.Clear | yb_common/src/yb_common.c:40-50 | a non-NULL string becomes empty and unowned |
| YbString.Move | yb_common/src/yb_common.c:102-113 | d receives s's content and flag and s becomes empty; NULL on either side changes nothing; s moved onto itself ends empty |
| YbString.Length | yb_common/src/yb_common.c:129-134 | 0 for NULL, otherwise the content length, never negative |
| YbString.Data | yb_common/src/yb_common.c:136-141 | None exactly for a NULL string or a NULL data pointer (new, cleared or moved from), otherwise the content |
| YbString.DataOfNewAndFrom | yb_common/src/yb_common.c:32-38 | a new string's data is NULL, while a string made from bytes returns exactly those bytes, even empty ones |
| YbString.SetDataFrom | yb_common/src/yb_common.c:143-162 | YB_FAIL exactly for NULL; otherwise the content becomes an owned copy of the data |
| YbString.RefData | yb_common/src/yb_common.c:164-175 | YB_FAIL exactly for NULL; otherwise the content becomes a borrow of the data |
| YbString.AppendData | yb_common/src/yb_common.c:177-197 | empty data: YB_OK, nothing changes, even for NULL; NULL string: YB_FAIL; otherwise content is old ++ data and the string owns it |
| YbString.AppendCStr | yb_common/src/yb_common.c:199-201 | the same three cases for a C string |
| YbString.Append | yb_common/src/yb_common.c:203-208 | YB_FAIL if either is NULL; otherwise s becomes s ++ s2, owned once anything was added |
| YbString.Substr | yb_common/src/yb_common.c:210-228 | NULL exactly for a NULL string or an out-of-range window (start<0, len<0, start+len>length); otherwise an owned copy of that window |
| YbString.Slice | yb_common/src/yb_common.c:230-243 | the same NULL cases; otherwise a borrow of that window |
| YbString.LexZeroIffEqual | yb_common/src/yb_common.c:245-268 | the byte-order comparison is 0 exactly on equal contents and lies in -1..1 |
| YbString.LexAntisymmetric | yb_common/src/yb_common.c:245-268 | swapping the arguments negates the comparison |
| YbString.LexProperPrefix | yb_common/src/yb_common.c:258-266 | a proper prefix compares smaller |
| YbString.CompareContentIsLex | yb_common/src/yb_common.c:256-267 | memcmp over the shorter length, then the length order, is lexicographic byte order |
| YbString.Compare | yb_common/src/yb_common.c:245-268 | two NULLs give 0 and NULL is below any string; otherwise the sign of lexicographic order, 0 exactly on equal content |
| YbString.CompareCstr | yb_common/src/yb_common.c:270-291 | the same four cases against a C string |
| YbString.LeadingDigits | yb_common/src/yb_common.c:297-306 | the maximal prefix of decimal digits: all digits, followed by a non-digit or the end |
| YbString.Atoi | yb_common/src/yb_common.c:293-308 | 0 for NULL; otherwise the decimal value of the leading digit run, with no sign handling |
| YbString.AtoiStopsAtNonDigit | yb_common/src/yb_common.c:300-306 | bytes after the first non-digit do not affect the value |
| YbString.HexEncode | yb_common/src/yb_common.c:324-326 | two lowercase hex digits per byte, high nibble first |
| YbString.HexCount | yb_common/src/yb_common.c:320-323 | the number of bytes encoded: every encoded byte had j+3<out_len, and encoding stops at the end or at the first byte where the test fails |
| YbString.ToHex | yb_common/src/yb_common.c:310-330 | YB_FAIL for a NULL string or buffer with the buffer unchanged; otherwise the first 2k cells hold the encoding of the first k bytes, cell 2k is NUL, the rest are untouched |
| YbString.EncodeHexInto | yb_common/src/yb_common.c:318-327 | the encoding loop fills out[..2k] with the encoding of data[..k], leaving later cells |
| YbString.ToHexCoversAll | yb_common/src/yb_common.c:320-323 | with out_len >= 2·len+2 every byte is encoded |
| YbString.HexValue | yb_common/src/yb_common.c:332-341 | the digit value of 0-9, a-f, A-F, and -1 for anything else |
| YbString.FromHexAsWritten | yb_common/src/yb_common.c:343-385 | succeeds exactly when every character is a hex digit; the result has (len+1)/2 bytes |
| YbString.FromHexFixed | yb_common/src/yb_common.c:360-369 | the same, with the odd leading character decoded to its digit value |
| YbString.HexRoundTrip | yb_common/src/yb_common.c:310-385 | decoding an encoding gives back the original bytes, in both versions |
| YbString.EncodedPair | yb_common/src/yb_common.c:324-378 | each encoded pair is two hex digits that recombine to the original byte |
| YbString.HexByteRoundTrip | yb_common/src/yb_common.c:324-378 | a byte's two nibbles, written as digits and read back, recombine to that byte |
| YbString.FromHexOddDiscrepancy | yb_common/src/yb_common.c:366 | "abc" decodes as written to 0x61 0xbc (raw 'a' kept) and, corrected, to 0x0a 0xbc |
| YbString.DecodePairsInto | yb_common/src/yb_common.c:371-381 | the pair loop succeeds exactly when the remaining input is all hex; it then fills the buffer with the pair values, and never touches the cells before it |
| YbString.DecodeOne | yb_common/src/yb_common.c:372-378 | one pair: succeeds exactly when both are hex digits, then writes (d1<<4)\|d2 into that cell only |
| YbString.FromHex | yb_common/src/yb_common.c:343-385 | YB_FAIL for NULL; NULL input clears; a non-hex character gives YB_FAIL and the string is unchanged; otherwise the content is the as-written decoding and owned |
| YbString.TrimAsWritten | yb_common/src/yb_common.c:397-403 | fails exactly when the two override lengths exceed the source length |
| YbString.TrimBounds | yb_common/src/yb_common.c:397-413 | start is prefix_len when the window at offset prefix_len equals the prefix override, else 0; end drops the suffix override when the source ends with it |
| YbString.Trim | yb_common/src/yb_common.c:387-423 | YB_FAIL for NULL src, prefix or suffix, or overlong overrides, with dest unchanged; otherwise dest is cleared and becomes prefix ++ src[start..end] ++ suffix |
| YbString.ClearAndFill | yb_common/src/yb_common.c:417-420 | dest ends holding exactly the three parts, owned when non-empty |
| YbString.TrimFixed | yb_common/src/yb_common.c:405-413 | the evident intent: strip the prefix override at offset 0 and the suffix override at the end |
| YbString.TrimPrefixWindowDiscrepancy | yb_common/src/yb_common.c:405 | "(ab" with prefix override "(" is kept whole as written; corrected it becomes "ab" |
| YbString.TrimSuffixNeedsExactEnd | yb_common/src/yb_common.c:409-413 | the suffix override is stripped only when the source ends with exactly it: "a = 1, " is kept, "a = 1," loses the comma |
| YbHashMap.Bucket | yb_common/src/yb_common.c:561 | a bucket index is always within the bucket array |
| YbHashMap.NewLength | yb_common/src/yb_common.c:543-546 | the new length is a power of two, at least 4, at least elems, and the smallest such |
| YbHashMap.NewLengthUnique | yb_common/src/yb_common.c:543-546 | that length is unique |
| YbHashMap.RehashCorrect | yb_common/src/yb_common.c:556-567 | relinking every chain into fresh buckets puts each entry in its hash's bucket and keeps exactly the same entries |
| YbHashMap.PushAllEntries | yb_common/src/yb_common.c:556-567 | relinking a run of entries adds exactly those entries |
| YbHashMap.PushAllPlaced | yb_common/src/yb_common.c:561-563 | relinking keeps every entry in the bucket of its hash |
| YbHashMap.EmptyBucketsHaveNoEntries | yb_common/src/yb_common.c:553 | a cleared bucket array holds no entries |
| YbHashMap.HashMap.constructor | yb_common/src/yb_common.c:575-589 | a new map has 4 empty buckets and no elements |
| YbHashMap.HashMap.Resize | yb_common/src/yb_common.c:542-573 | the bucket array is replaced by one of the new length holding every old entry relinked by its hash; elems is unchanged |
| YbHashMap.HashMap.Relink | yb_common/src/yb_common.c:548-567 | the relinking loops produce the fresh bucket array, and the moved count equals the number of entries |
| YbHashMap.HashMap.RelinkChain | yb_common/src/yb_common.c:557-566 | relinking one chain pushes its entries in order and counts them |
| YbHashMap.FirstMatch | yb_common/src/yb_common.c:615-618 | the position of the first entry with equal hash and key, or the chain's end |
| YbHashMap.HashMap.FindPointer | yb_common/src/yb_common.c:611-620 | the bucket is the hash's one and the position is the first match or the chain's end |
| YbHashMap.InsertBucketsEntries | yb_common/src/yb_common.c:631-643 | insert adds one entry when no entry matches; otherwise it exchanges the matching entry for the new one |
| YbHashMap.InsertBucketsPlaced | yb_common/src/yb_common.c:638-639 | insert keeps every entry in its hash's bucket |
| YbHashMap.HashMap.InsertEntry | yb_common/src/yb_common.c:630-648 | a match is replaced in place with elems unchanged; otherwise one entry is added, elems grows by one, and the map resizes when elems exceeds the bucket count |
| YbHashMap.LookupAfterInsert | yb_common/src/yb_common.c:622-665 | after an insert, with or without the resize, a lookup of that key finds the inserted value |
| YbHashMap.LookupAfterInsertState | yb_common/src/yb_common.c:622-665 | the same, for either state that insert can leave |
| YbHashMap.OnlyMatchesInBucket | yb_common/src/yb_common.c:611-620 | any stored entry matching a key is found in that key's bucket chain |
| YbHashMap.RemoveBucketsEntries | yb_common/src/yb_common.c:675-681 | remove unlinks exactly the first matching entry, or changes nothing when there is none |
| YbHashMap.RemoveBucketsCount | yb_common/src/yb_common.c:677-682 | the entry count drops by one exactly when a matching entry existed |
| YbHashMap.RemoveBucketsPlaced | yb_common/src/yb_common.c:680 | remove keeps every entry in its hash's bucket |
| YbHashMap.HashMap.RemoveEntry | yb_common/src/yb_common.c:674-682 | the chain loses the first match and elems drops by one; an absent key changes nothing |
| YbHashMap.Insert | yb_common/src/yb_common.c:622-649 | YB_FAIL for a NULL map, key or value with the map unchanged; otherwise YB_OK, with the stored key and value empty (the clone defect), and the count rules of InsertEntry |
| YbHashMap.InsertFixed | yb_common/src/yb_common.h:260-275 | with copying clones: YB_OK, and a later get of the key finds the value |
| YbHashMap.Get | yb_common/src/yb_common.c:651-665 | None for a NULL map or key; otherwise the value of the first matching entry, None when absent |
| YbHashMap.Remove | yb_common/src/yb_common.c:667-683 | NULL key: nothing changes; otherwise the first match is unlinked and elems decremented only if it existed |
| YbHashMap.InsertKeepsKeysEmpty | yb_common/src/yb_common.c:507-529 | as written, every stored key stays empty across inserts and resizes |
| YbHashMap.AsWrittenInsertLosesKeys | yb_common/src/yb_common.c:507-529 | as written, a non-empty key is never found, so each insert of it adds a fresh entry |
| GenMapper.Attr | src/gen/mapper.rs:149-178 | an attribute is present exactly when the element has it, with its value |
| GenMapper.ElementChildren | src/gen/mapper.rs:306 | only element children are visited |
| GenMapper.ParseSqlElements | src/gen/mapper.rs:142-201 | the child loop computes the recursive specification of the content |
| GenMapper.SqlContentMeaning | src/gen/mapper.rs:142-201 | parsing succeeds exactly when every include has refid and every if has test, recursively; the result keeps text and known elements in document order, each mapped to its kind, and skips the rest |
| GenMapper.SqlContentFailurePropagates | src/gen/mapper.rs:149-155 | an error in an earlier child is the error of the whole content |
| GenMapper.KeptNodes | src/gen/mapper.rs:145-198 | the kept children are text, include, if and trim only |
| GenMapper.ParseSql | src/gen/mapper.rs:204-219 | succeeds exactly when id is present and the content parses; the text is the concatenation of the direct text children only |
| GenMapper.SqlTextAppend | src/gen/mapper.rs:207-214 | a text child adds its text, any other child adds nothing |
| GenMapper.ResultsOfMeaning | src/gen/mapper.rs:226-237 | results succeed exactly when every child named result has column, property and yo_type; they are those children in order |
| GenMapper.ResultElements | src/gen/mapper.rs:226-237 | only children named result are collected |
| GenMapper.ParseResultMap | src/gen/mapper.rs:222-243 | the child loop computes the specification of the result map |
| GenMapper.ResultsFailurePropagates | src/gen/mapper.rs:229-233 | a missing attribute in an earlier result is the error of the whole map |
| GenMapper.ParseInsert | src/gen/mapper.rs:246-255 | succeeds exactly with id, parameterType and parsable content, and carries them |
| GenMapper.ParseUpdate | src/gen/mapper.rs:258-267 | the same for update |
| GenMapper.ParseDelete | src/gen/mapper.rs:270-279 | the same for delete |
| GenMapper.ParseSelect | src/gen/mapper.rs:282-293 | the same for select, which also needs resultMap |
| GenMapper.ParseMapperFile | src/gen/mapper.rs:296-346 | the child loop computes the specification of the file |
| GenMapper.MapperNamespace | src/gen/mapper.rs:302-305 | the namespace is the root's attribute, or "" without it |
| GenMapper.AddChildrenKeepsNamespace | src/gen/mapper.rs:306-343 | filling the tables never changes the namespace |
| GenMapper.AddChildSuccessIndependent | src/gen/mapper.rs:306-343 | a child fails exactly when it is a known kind that does not parse; unknown children leave the mapper unchanged |
| GenMapper.AddChildrenSucceeds | src/gen/mapper.rs:306-343 | the file parses exactly when every child does |
| GenMapper.AddChildrenFailurePropagates | src/gen/mapper.rs:306-343 | the first failing child decides the error |
| GenMapper.AddChildStep | src/gen/mapper.rs:307-342 | each kind updates only its own table under the parsed id (a result map under its id and also its type) |
| GenMapper.MapperTables | src/gen/mapper.rs:306-343 | every table equals its per-kind definition over the children |
| GenMapper.TableOfKeys | src/gen/mapper.rs:310-340 | every key in a table comes from some child of that kind |
| GenMapper.TableOfLastWins | src/gen/mapper.rs:310-340 | a child of that kind whose id no later child of the kind reuses is the one stored under that id |
| GenMapper.MapperFiles | src/gen/mapper.rs:358 | only entries whose name ends with "-mapper.xml" are selected |
| GenMapper.ParseMappers | src/gen/mapper.rs:349-365 | the directory loop computes the specification over the entries |
| GenMapper.MappersOfMeaning | src/gen/mapper.rs:349-365 | the mappers are, in order, the parses of exactly the selected files |
| GenMapper.MappersFailurePropagates | src/gen/mapper.rs:359 | the first failing file is the error of the whole directory |
| GenC.OutFile.Write | src/gen/genc.rs:40-52 | a write appends its chunk and nothing else |
| GenC.GuardTokenShared | src/gen/genc.rs:40-62 | #ifndef, #define and the closing #endif comment use the same token "YB_" + uppercase(namespace) + "_H__", with no lowercase letter |
| GenC.WriteGuardStart | src/gen/genc.rs:40-52 | appends exactly the guard opening |
| GenC.WriteGuardEnd | src/gen/genc.rs:54-62 | appends exactly the guard closing |
| GenC.WriteIncludes | src/gen/genc.rs:64-74 | appends exactly the include lines |
| GenC.EscapeCons | src/gen/genc.rs:306-313 | escaping works character by character |
| GenC.EscapeRoundTrip | src/gen/genc.rs:306-313 | for text without quote or backslash, the emitted C literal reads back as the text, and no raw newline or CR remains |
| GenC.EscapeNotInvertible | src/gen/genc.rs:306-313 | a quote breaks the literal and an existing backslash-n reads back as a newline |
| GenC.EscapeFixedRoundTrip | src/gen/genc.rs:306-313 | escaping backslash and quote as well makes every text read back unchanged |
| GenC.MemberLines | src/gen/genc.rs:76-97 | one member line per result, in order |
| GenC.WriteResultMapDefine | src/gen/genc.rs:76-97 | appends exactly the struct definition |
| GenC.SentinelTable | src/gen/genc.rs:116-133 | int64_t maps to YB_INT_NULL, double to YB_FLOAT_NULL, yb_string_t to YB_STRING_NULL; nothing else has a sentinel |
| GenC.InitLinesMeaning | src/gen/genc.rs:116-133 | the constructor body succeeds exactly when every field's type is supported and then has one sentinel assignment per field in order |
| GenC.InitLinesFailurePropagates | src/gen/genc.rs:129-131 | one unsupported field fails the whole constructor |
| GenC.WriteResultMapNew | src/gen/genc.rs:99-140 | the declaration is always written; it succeeds exactly when every type is supported, and then the whole body is written; at the first unsupported type it fails, leaving the head and the assignments before that type in the source file |
| GenC.FreeFieldLinesMeaning | src/gen/genc.rs:157-172 | the destructor frees exactly the yb_string_t fields, one line each |
| GenC.WriteResultMapFree | src/gen/genc.rs:142-175 | appends exactly the destructor declaration and body |
| GenC.WriteResultMap | src/gen/genc.rs:721-735 | define, new and free in that order; fails exactly when new fails, and then the header holds the struct and the constructor's declaration |
| GenC.TmpNameInjective | src/gen/genc.rs:182-274 | different counter values name different temporary buffers |
| GenC.RenderCounter | src/gen/genc.rs:182-322 | the final counter is the start plus the number of if and trim nodes |
| GenC.RenderElemCounter | src/gen/genc.rs:182-274 | the same for one element |
| GenC.RenderSucceeds | src/gen/genc.rs:276-322 | rendering succeeds exactly when every include, at any depth, names a known fragment |
| GenC.RenderElemSucceeds | src/gen/genc.rs:182-322 | the same for one element |
| GenC.RenderFailurePropagates | src/gen/genc.rs:316 | an error inside earlier content aborts the statement |
| GenC.IfRendered | src/gen/genc.rs:182-233 | an if emits the test line, a fresh tmp buffer, its children at indent+4 into tmp, the append of tmp, the free of tmp and the closing brace |
| GenC.TrimRendered | src/gen/genc.rs:235-274 | a trim emits a fresh tmp buffer, its children into tmp at the same indent, the trim call into the parent, and the free |
| GenC.WriteSqlGenStmt | src/gen/genc.rs:276-322 | the element loop appends exactly the rendered lines and returns the final counter, or fails as rendering does |
| GenC.WriteSqlElem | src/gen/genc.rs:284-319 | one element is dispatched to its writer with the same result |
| GenC.WriteAppendIfStmt | src/gen/genc.rs:182-233 | appends exactly the rendered if block |
| GenC.WriteTrimStmt | src/gen/genc.rs:235-274 | appends exactly the rendered trim block |
| GenC.RenderLinesTerminated | src/gen/genc.rs:276-322 | with the corrected include line, every emitted line of a statement body ends in a newline |
| GenC.IncludeLineUnterminated | src/gen/genc.rs:299 | as written the include line ends in `")`, with no semicolon and no newline; the corrected line ends in `");\n` |
| GenC.FieldsChunksAt | src/gen/genc.rs:367-418 | the k-th field contributes its own four lines of the test chain |
| GenC.PrepareLoopFields | src/gen/genc.rs:330-424 | the template tests every field in declared order, and binds int64_t as LONGLONG, double as DOUBLE and anything else as STRING |
| GenC.WriteCmdToPrepareSql | src/gen/genc.rs:324-426 | appends exactly the loop template |
| GenC.DoubleFreeOfCmd | src/gen/genc.rs:508-511 | as written the statement tail frees cmd twice in a row; corrected it frees once |
| GenC.ModifyFnMeaning | src/gen/genc.rs:428-607 | an insert or update function is emitted exactly when its includes resolve and its parameter type has a result map |
| GenC.ModifyFnShape | src/gen/genc.rs:450-516 | the function starts with the signature, the cmd declaration and the rendered body starting at counter 0, and ends with the statement tail |
| GenC.WriteModifyFn | src/gen/genc.rs:428-607 | appends exactly the declaration and the function, or fails as the specification does |
| GenC.SelectSignatures | src/gen/genc.rs:621-630 | as written the declaration has the out parameter and the definition does not; corrected they agree |
| GenC.BindOutNeverCleared | src/gen/genc.rs:672-676 | as written no memset of the select clears bind_out, and the one meant for it clears bind; corrected it clears bind_out |
| GenC.WriteSelectFn | src/gen/genc.rs:609-719 | appends exactly the select function, or fails as the specification does |
| GenC.WriteResultMaps | src/gen/genc.rs:746-749 | appends every result map in the given order, or fails as their specification does |
| GenC.WriteInserts | src/gen/genc.rs:750-753 | every insert in the given order |
| GenC.WriteUpdates | src/gen/genc.rs:754-757 | every update in the given order |
| GenC.WriteSelects | src/gen/genc.rs:758-761 | every select in the given order |
| GenC.GenMapperSrc | src/gen/genc.rs:737-764 | the two files are exactly guard start, includes, result maps, inserts, updates, selects and guard end |
| GenC.MapperSrcShape | src/gen/genc.rs:737-764 | the header starts and ends with the guard, the source starts with the includes, and the deletes have no effect |
| GenC.DeletesIgnored | src/gen/genc.rs:743-762 | no statement output depends on the deletes |
| PrepareRuntime.FieldsOf | src/gen/genc.rs:367-418 | one field per result, in order |
| PrepareRuntime.FindCloseMeaning | src/gen/genc.rs:350-364 | the name scan stops at the first "}" or at the end |
| PrepareRuntime.FindCloseUnique | src/gen/genc.rs:350-364 | any position with no "}" before it and "}" or the end there is the scan's stop |
| PrepareRuntime.PrepareSql | src/gen/genc.rs:330-424 | the runtime loop appends the as-written prepared text to prepare_sql and returns its binds |
| PrepareRuntime.WriteHole | src/gen/genc.rs:343-364 | one placeholder: the text before it is copied, then its marks, and the scan resumes after the name |
| PrepareRuntime.WriteMarks | src/gen/genc.rs:367-418 | one "?" and one bind for each field the name test selects, in field order |
| PrepareRuntime.MarksMeaning | src/gen/genc.rs:367-418 | the marks are all "?", one per bind, and the binds are exactly the selected fields |
| PrepareRuntime.ScanHole | src/gen/genc.rs:343-364 | a placeholder splits the output into the copied text, its marks and the rest |
| PrepareRuntime.PrepareNoHole | src/gen/genc.rs:330-424 | a command with no "#{" is copied unchanged with no binds |
| PrepareRuntime.HoleSegment | src/gen/genc.rs:343-421 | around one closed placeholder the text before and after is copied; as written the "}" stays in the output, corrected it does not |
| PrepareRuntime.OpenHoleAtEnd | src/gen/genc.rs:350-364 | an unclosed placeholder at the end still yields its marks |
| PrepareRuntime.PlaceholderAsWritten | src/gen/genc.rs:369 | "#{id}" with field id gives "}" and no bind as written, and "?" with a LONGLONG bind of id corrected |
| PrepareRuntime.AsWrittenNeverBindsNamed | src/gen/genc.rs:369 | as written no bind is ever for the field that the placeholder names |
| PrepareRuntime.FixedBindsFollowNames | src/gen/genc.rs:369 | corrected every bind is for the named field and every field with that name is bound |
| PrepareRuntime.BuildFixedAppends | src/gen/genc.rs:266 | with trim appending to its parent, building only ever appends to what was already built |
| PrepareRuntime.TrimOverwritesParent | src/gen/genc.rs:266 | text "a" then a trim of "b" builds "b" as written (the trim clears the parent) and "ab" corrected |
| PrepareRuntime.BuildOneText | src/gen/genc.rs:306-313 | a lone text builds exactly that text |
| InitMysql.ParseColumnType | src/init/mysql.rs:45-57 | INT exactly when the type contains "int" or "bit"; FLOAT exactly when it does not but contains "float", "dec", "numeric" or "double"; STRING otherwise |
| InitMysql.BigintIsInt | src/init/mysql.rs:46-49 | "bigint(20)" is INT |
| InitMysql.PointIsInt | src/init/mysql.rs:46-49 | "point" is INT, since it contains "int" |
| InitMysql.DecimalIsFloat | src/init/mysql.rs:51-54 | "decimal(10,2)" is FLOAT |
| InitMysql.ParseColumnTypeCaseSensitive | src/init/mysql.rs:46-56 | matching is case-sensitive: "DOUBLE" is STRING |
| InitMysql.IntegerTypesAreInt | src/init/info.rs:3-5 | every integer type name (tinyint … bigint, bit), whatever follows it, is INT |
| InitMysql.FloatTypesAreFloat | src/init/info.rs:3-7 | float, double, decimal and numeric, followed by nothing, a parenthesised list or an attribute without "int" or "bit", are FLOAT |
| InitMysql.StringTypesAreString | src/init/info.rs:3-6 | the char, text, json, enum, set, blob, binary, date and time names, with a suffix free of the six tokens, are STRING |
| InitMysql.ClassifierFollowsDocumentation | src/init/mysql.rs:45-57 | on a MySQL base type followed by a suffix free of the six tokens, the substring classifier gives the documented class |
| InitMysql.EnumValueDecidesClass | src/init/mysql.rs:46-49 | "enum('print')" is INT, though the documentation makes every enumeration STRING |
| InitMysql.ClassifierFixedFollowsDocumentation | src/init/info.rs:3-7 | classifying the base name alone gives the documented class for every base type and every suffix |
| InitMysql.CreateTableRewrite | src/init/mysql.rs:38-39 | DDL that starts with "CREATE TABLE" gets "IF NOT EXISTS" right after that phrase, and the rest is kept |
| InitMysql.CreateDatabaseRewrite | src/init/mysql.rs:13-14 | the same for DDL that starts with "CREATE DATABASE" |
| InitMysql.RewriteWithoutCreate | src/init/mysql.rs:38-39 | DDL that does not contain "CREATE TABLE" is unchanged |
| InitMysql.ColumnFromRow | src/init/mysql.rs:63-97 | primary key exactly when Key is "PRI", nullable exactly when Null is "YES", the classified type, and "" for a NULL default |
| InitMapper.ColTypesAgreeWithGenerator | src/init/mapper.rs:39-53 | each column type's C type has as sentinel its null string, and distinct column types give distinct C types |
| InitMapper.Normalize | src/init/mapper.rs:405-412 | normalising keeps the length and yields only [0-9a-zA-Z_] |
| InitMapper.NormalizeMeaning | src/init/mapper.rs:405-412 | allowed characters are kept, others become '_', and normalising is idempotent |
| InitMapper.TableFilesArePickedUp | src/init/mapper.rs:413 | every generated table file has a name the mapper parser selects |
| InitMapper.EventWriter.Write | src/init/mapper.rs:21 | writing appends one event |
| InitMapper.WriteCommaList | src/init/mapper.rs:93-102 | the first-flag loop writes the items with ", " between them |
| InitMapper.CommaListText | src/init/mapper.rs:93-102 | the text written is the items joined by ", " |
| InitMapper.GenResultMap | src/init/mapper.rs:55-85 | writes exactly the result map events |
| InitMapper.ResultMapShape | src/init/mapper.rs:69-80 | one result element per column, in column order |
| InitMapper.ScaffoldResultsSupported | src/init/mapper.rs:71-75 | every generated yo_type is one the C renderer supports |
| InitMapper.GenBaseColumnList | src/init/mapper.rs:87-107 | writes exactly the column list fragment |
| InitMapper.BaseColumnListText | src/init/mapper.rs:87-107 | its text is the normalised names joined by ", " |
| InitMapper.GenInsertAll | src/init/mapper.rs:109-152 | writes exactly the insert events |
| InitMapper.InsertAllText | src/init/mapper.rs:109-152 | the text is "INSERT INTO `t` (" + names + ") VALUES (" + placeholders + ")" |
| InitMapper.FindKeyType | src/init/mapper.rs:163-170 | the key-type loop computes the type of the first column with the key's name |
| InitMapper.KeyTypeMeaning | src/init/mapper.rs:163-170 | the type of the first column with that name, INT when there is none |
| InitMapper.GenDeleteByPrimaryKey | src/init/mapper.rs:154-189 | writes exactly the delete events |
| InitMapper.DeleteText | src/init/mapper.rs:177-183 | the text is "DELETE FROM `t` WHERE `key` = #{norm(key)}" |
| InitMapper.GenSelectByPrimaryKey | src/init/mapper.rs:191-235 | writes exactly the select events |
| InitMapper.SelectText | src/init/mapper.rs:216-229 | an include of base_column_list follows "SELECT "; the text is " FROM `t` WHERE key = #{norm(key)}", with the raw key unquoted |
| InitMapper.GenUpdateByPrimaryKey | src/init/mapper.rs:237-278 | writes exactly the update events |
| InitMapper.UpdateText | src/init/mapper.rs:253-273 | the set items of every column joined by ", ", then a WHERE that uses the normalised key on both sides |
| InitMapper.GenUpdateByPrimaryKeySelective | src/init/mapper.rs:280-336 | writes exactly the selective update events |
| InitMapper.WriteSelectiveSets | src/init/mapper.rs:304-321 | one if per non-key column |
| InitMapper.SelectiveSetsText | src/init/mapper.rs:304-321 | the set items of the non-key columns, in order, each followed by its separator |
| InitMapper.SelectiveUpdateKeepsComma | src/init/mapper.rs:300-321 | as written the trim content ends in ", " and yb_string_trim keeps the final comma |
| InitMapper.SelectiveUpdateFixedStrips | src/init/mapper.rs:300-321 | for the written events, with items ending in "," the trim leaves the items joined by "," |
| InitMapper.GenInsertSelective | src/init/mapper.rs:338-406 | writes exactly the selective insert events |
| InitMapper.WriteIfColumns | src/init/mapper.rs:362-374 | one if per column, with the name and "," |
| InitMapper.WriteIfValues | src/init/mapper.rs:385-398 | one if per column, with the placeholder and "," |
| InitMapper.IfColumnsText | src/init/mapper.rs:362-374 | the text is each normalised name followed by "," |
| InitMapper.IfValuesText | src/init/mapper.rs:385-398 | the text is each placeholder followed by "," |
| InitMapper.InsertSelectiveTrims | src/init/mapper.rs:356-398 | for the written events, the trims give "(" + names joined "," + ")" and "VALUES (" + placeholders joined "," + ")" |
| InitMapper.SelectiveAllNullFails | src/init/mapper.rs:300-374 | for the written events, when no if fires the trim content is empty and yb_string_trim fails |
| InitMapper.KeyStatementsPresent | src/init/mapper.rs:437-446 | key statements are emitted exactly when there is a primary-key column |
| InitMapper.WriteKeyStatementsOf | src/init/mapper.rs:439-444 | update, selective update, select and delete for one key, in that order |
| InitMapper.WriteKeyStatements | src/init/mapper.rs:437-446 | those four for each primary-key column, in column order |
| InitMapper.WriteMapperBody | src/init/mapper.rs:429-446 | result map, column list, insert, selective insert, then the key statements |
| InitMapper.GenTableXml | src/init/mapper.rs:410-455 | the file "norm-mapper.xml" holds the mapper element with namespace "norm_mapper" and that body |
| InitMapper.TableBalanced | src/init/mapper.rs:410-455 | every start event in a table file is closed |
| InitMapper.GenDbXml | src/init/mapper.rs:12-37 | "db.xml" holds the name and create elements |
| InitMapper.DbBalanced | src/init/mapper.rs:12-37 | every start event in db.xml is closed |
| InitMapper.Generate | src/init/mapper.rs:458-469 | db.xml first, then one file per table in order |

## Left out

- File, directory and writer I/O is not modelled: creating files, `read_dir`, `read_to_string`, `gen_common`'s byte copy and write errors (`?` on a write). The parsed XML document is an abstract tree and the XML writer output is an event sequence. xml-rs indentation and the document declaration are not modelled.
- The regexes of the scaffolder and the classifier are modelled by their effect on characters: a per-character replace, a substring test and a first-occurrence replacement. InitMysql.ParseColumnType: a substring test, which is what an unanchored `is_match` with `.*(int|bit).*` decides.
- murmurhash is an uninterpreted hash-function field of the map. Malloc failure, freeing and `yb_string_cstr`'s NUL-terminated copy are not modelled; ownership is a boolean.
- The MySQL connection pool, all database queries and row decoding, the `yb_stmt_gen_string` stub, the CLI in src/main.rs and logging are not modelled.
- YB_FLOAT_NULL is the literal "YB_FLOAT_NULL" in emitted text; no floating point is modelled.
- `GenC.GenMapperSrc` takes the iteration order of each HashMap as a parameter sequence that enumerates the table; nothing is claimed about that order.
- Panics on missing `type_maps` / `result_maps` lookups in the renderer are modelled as failures of the function being emitted.
- YbString.Compare: gives only the sign of memcmp's result (-1, 0, 1), not its magnitude.
- YbString.CompareCstr: gives only the sign of memcmp's result (-1, 0, 1), not its magnitude, as for Compare.
- YbString.CompareCstr: a C string is a byte sequence taken to hold no NUL byte; C's `strlen` would stop at the first one. The same holds for the override strings of YbString.Trim and for the data of YbString.AppendCStr and YbString.FromCstr. No modelled caller passes a NUL.
- YbString.Trim: requires that src and dest are different strings. With src == dest, C clears dest and then reads src's freed or emptied data; the generated code always passes a fresh tmp buffer.
- YbString.Data: `hasData` models only whether the data pointer is NULL. A byte string or C string given to an operation is taken as non-NULL, and every allocation as succeeding.
- GenC.GuardTokenShared: upper-cases ASCII letters only; Rust's `to_uppercase` is Unicode-aware (`'ß'` becomes `"SS"`), so the claims hold for ASCII namespaces.
- PrepareRuntime.NameBytes: takes each character's code point mod 256, while the C literal holds the name's UTF-8 bytes; the two agree on ASCII names, which scaffolded names are after InitMapper.Normalize. Claims about field names hold for ASCII names only.
- YbString.Trim: the source passes a C string to `yb_string_compare` (undefined behaviour); the model compares the window's bytes with the override's bytes, as `yb_string_compare_cstr` would. When 2·prefix_len exceeds the length, the window at offset prefix_len reads past the data in C; the model treats it as not matching.
- YbString.Atoi: the int64 accumulator is unbounded here; overflow on long digit runs is not modelled.
- YbHashMap.Bucket: the index is `hash mod length`, which equals `hash & (length - 1)` for the power-of-two lengths the map keeps.
- YbHashMap.HashMap.InsertEntry: requires elems below 2^30 so the int32 doubling in resize cannot overflow.
- YbHashMap.Insert: states the bucket contents after an insert only when no resize happened; after a resize it states the count and the empty-key invariant.
- PrepareRuntime.PrepareSql: the fixed-size `MYSQL_BIND` arrays and their overflow past the number of fields are not modelled; binds are a sequence.
- InitMapper.SelectiveUpdateKeepsComma and the other selective lemmas take the list of columns whose if fires, not the runtime null tests.
- InitMapper.InsertSelectiveTrims, InitMapper.SelectiveUpdateKeepsComma, InitMapper.SelectiveUpdateFixedStrips and InitMapper.SelectiveAllNullFails: hold for the written events, with the trim content taken to be exactly the text of its if events. The scaffolder's writer indents its output (src/init/mapper.rs:417-421), and the parser keeps whitespace text as a YoText (src/gen/mapper.rs:192-193). If that indentation puts a newline and blanks after the last if inside a trim, no "," override matches and the content is not empty when every field is null. The model does not state what xml-rs indentation writes, so these four lemmas say nothing about the file read back.
- InitMapper.ScaffoldResultsSupported: the results are written down from the events GenResultMap writes, not derived by parsing the written file.
- Helpers that split a loop into steps carry their own contracts: WriteAll, WriteCommaList, RelinkChain, EncodeHexInto, DecodeOne, WriteHole and WriteMarks. They need no separate source rows beyond those above.

## Findings

| source | as written | input that shows it | evidently intended | confidence | as-written member | corrected member |
|---|---|---|---|---|---|---|
| src/gen/genc.rs:369 | the name test is true when compare_cstr is non-zero, i.e. when the names differ | "#{id}" with one field id | bind the field whose name equals the placeholder | high, not executed | PrepareRuntime.AsWrittenNeverBindsNamed | PrepareRuntime.FixedBindsFollowNames |
| src/gen/genc.rs:350-421 | pre is left on the closing brace, which is then copied | "#{id}" gives "}" | the brace is consumed with the name | high, not executed | PrepareRuntime.PlaceholderAsWritten | PrepareRuntime.HoleSegment |
| src/gen/genc.rs:299 | the include line lacks ";\n" | any include | a terminated statement | high, not executed | GenC.IncludeLineUnterminated | GenC.RenderLinesTerminated |
| src/gen/genc.rs:508-511 | cmd is freed twice | every insert, update and select | free once | high, not executed | GenC.DoubleFreeOfCmd | GenC.ModifyFnShape |
| src/gen/genc.rs:621-630 | the select declaration has an out parameter that the definition lacks | any select | matching signatures | high, not executed | GenC.SelectSignatures | GenC.SelectSignatures |
| src/gen/genc.rs:672-676 | the bind_out memset clears bind again | any select | clear bind_out | high, not executed | GenC.BindOutNeverCleared | GenC.BindOutNeverCleared |
| src/gen/genc.rs:266 | the trim result goes straight to the parent, which yb_string_trim clears first | text "a" then a trim of "b" builds "b" | "ab" | high, not executed | PrepareRuntime.TrimOverwritesParent | PrepareRuntime.BuildFixedAppends |
| src/gen/genc.rs:306-313 | only newline and CR are escaped | text `a"b` | a C literal that reads back as the text | medium, not executed | GenC.EscapeNotInvertible | GenC.EscapeFixedRoundTrip |
| yb_common/src/yb_common.c:507-529 | from_cstr and clone return empty strings, so the map stores empty keys and values | insert of key "k" | copies of the content | high, not executed | YbHashMap.AsWrittenInsertLosesKeys | YbHashMap.InsertFixed |
| yb_common/src/yb_common.c:405 | the prefix window is taken at offset prefix_len | "(ab" with prefix override "(" | the window at offset 0 | high, not executed | YbString.TrimPrefixWindowDiscrepancy | YbString.TrimFixed |
| yb_common/src/yb_common.c:366 | the odd leading character is stored raw | "abc" | its digit value | high, not executed | YbString.FromHexOddDiscrepancy | YbString.FromHexFixed |
| src/init/mysql.rs:46-56 | the substring tests are applied to the whole column type, value lists and defaults included | "enum('print')" is INT | classify by the base type, "enum" being STRING | medium, not executed | InitMysql.EnumValueDecidesClass | InitMysql.ClassifierFixedFollowsDocumentation |
| src/init/mapper.rs:300-321 | each selective set ends in ", " but the override is ",", so the final comma is never stripped | two non-key columns, both set | an UPDATE without a trailing comma | high, not executed | InitMapper.SelectiveUpdateKeepsComma | InitMapper.SelectiveUpdateFixedStrips |
