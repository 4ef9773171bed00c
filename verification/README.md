# Verified model of the scorch ClickHouse client

This project models the column codec (`column/`), block framing and the response loops (`conn/`), and
connection ownership (`conn/conn.go`, `conn/stream.go`, `pool/pool.go`) of the scorch client, and
proves what they promise.

Bytes on the wire are a `seq<byte>`. Code that computes values is modelled by functions; objects that
the Go code updates in place are classes, and their methods are proved against the functions. The
theorems are about the functions, so through the contracts they hold of the methods.

| module | what it models |
|---|---|
| Wire | bytes, little-endian numbers, varints, the reader and the write buffer |
| Codec | column contents, rows, append, encode and decode over every nesting, as values |
| Strings | `StrColumn` with its buffer, its position table and their capacities |
| Columns | fixed-width, FixedString, Array and Map columns and the `Of[T]` dispatch, as objects |
| Wrappers | `Nullable` and `Tuple2` |
| Writers | `WriteColumn` and the vectored writer, which copies or keeps the slices it is given |
| Dictionary, LowCardinality, LowCardColumn | the dictionary, the block format, the lazy column object |
| WideInt, Decimals | Int128, Int256, UInt128, UInt256 and the Decimal128 column |
| TypeNames | splitting `Map(K, V)` type strings |
| Formats | the bytes on the wire part by part, and what decoders refuse, apart from the encoders and decoders |
| Blocks, Queries | block info, data frames, `Insert`'s frame, `handleDataBlock`, the `Select` loop |
| Responses | the loops of `Exec`, `Insert`, `InsertStream.Close` and `SelectStream.cancel` |
| Streams | `SelectStream` and `InsertStream` |
| Connections, Pools, Replicas | the connection lock, pool conservation, `Acquire` and dead replicas |

Where a promise does not hold of the code, the exact condition under which it does is proved:

- A column shows the rows it decodes if and only if no FixedString column inside it still holds rows
  (`Codec.RoundTrip`). The repository's README says that each `Next` appends one block (README.md:170-171);
  the code replaces the contents of every other column. `BlockRows` is documented as the rows of the
  last block (conn/stream.go:359); the code adds up all blocks, and so does the model.
- `Int256.Cmp` has the sign of the difference if and only if the high halves differ or the low halves
  have the same top bit (`WideInt.Cmp256Exact`, with a failing pair in `WideInt.Cmp256Wrong`).
- `Insert` and `Append` send blocks of any size; a reader refuses those of more than 100,000,000 rows or
  1,000,000 columns (`Blocks.FrameRoundTrip`, `Streams.StreamFrame`).
- A LowCardinality block is read back if and only if it has at most 100,000,000 distinct values
  (`LowCardinality.LCRoundTrip`); reading no rows keeps the old rows (`LowCardinality.LCEmpty`); a block with a key type
  above 3 has the wrong number of rows unless stale keys happen to fit (`LowCardinality.DecodedLength`);
  key widths are the narrowest except for exactly 2^32 distinct values (`LowCardinality.NarrowestKeys`).
- The streams handle no column state: a `SelectStream` reads a block that carries state if and only if
  it has no LowCardinality column (`Streams.StreamNeedsStateless`).
- An unlock from outside a stream's `Close` keeps mutual exclusion if and only if nobody holds the
  connection (`Connections.StrayUnlock`), and `Conn.Close` is final under the same condition
  (`Connections.CloseIsFinal`).
- When the loop of `Pool.Close` is done, every sub-pool is closed if and only if the last step on no replica
  is a health check's (`Replicas.CloseShutsAll`, with a failing run in `Replicas.ReviveAfterClose`).
- `Insert` and `Append` send a column through `WriteColumn`, which writes all offsets of an Array or Map into
  one buffer and hands the writer slices of it before the flush. The column is sent as `EncodeColumn` writes
  it, and a reader can get its rows, if and only if the writer copies what it is given or, at every Array and
  Map inside, all offsets are equal (`Writers.SentExact`, `Writers.SentLost`): a writer that keeps the slices
  sends the offsets 1, 2 as 2, 2 (`Writers.OneTwo`). Which kind the library's writer is, the repository does
  not say. `Queries.InsertRoundTrip` and `Streams.AppendNext` carry the condition.
- `SelectStream.Close` leaves the input right behind a response that ends with EndOfStream if and only if
  `Next` was never called, or columns were bound and none of the blocks asked for has another number of
  columns; behind one that ends with an Exception if and only if that holds and `Next` got as far as the
  Exception (`Streams.ClosedClean`, with failing inputs in `Streams.UnboundUnread`, `Streams.UnfitUnread` and
  `Streams.ExceptionOverrun`): a stream whose `Next` failed counts as done and is not drained, and draining
  reads on behind an Exception.
- No idle pooled connection may hold part of a response if and only if no second attempt broke, no stream
  failed to start and no stream that broke was released, other than by an error that leaves nothing unread
  or with the connection's own sub-pool closed (`Pools.PoolStaysClean`, with a failing run in
  `Pools.RetryReturnsDirty`).
- An empty dictionary of uint8 values makes the LowCardinality decoder panic; of every other type it is read
  (`LowCardColumn.LowCardinalityColumn.DecodeDictKeys`).

## Model

| member | source | states |
|---|---|---|
| Wire.VarintRoundTrip | column/array.go:114-121 | every 64-bit number is read back from its varint, whatever follows |
| Wire.VarintBytes | column/array.go:114-121 | byte k of a varint holds bits 7k to 7k + 6, with a continuation bit on all bytes but the last |
| Wire.VarintShortest | column/array.go:114-121 | nothing shorter than what is written for a number is read as that number |
| Wire.VarintExact | column/str.go:29-51 | the value of every accepted input is the sum of its 7-bit groups; exactly the terminated inputs of 2^64 or more, or of more than ten bytes, overflow; unterminated ones are short or too long |
| Wire.StrFormat | column/str.go:143-148 | a string is its length as a varint and then its bytes |
| Strings.StrColumn.ReadUVarint | column/str.go:29-51 | the byte-by-byte loop with shifts computes that reader, and consumes the same bytes |
| Wire.LEAt | column/int256.go:111-133 | byte k of the little-endian form is the number shifted right by 8k bits and cut to a byte |
| Strings.ShlFits | column/str.go:47-48 | shifting a group by 7 per group read loses no bit of it while at most ten groups are read |
| Wire.OrDisjoint | column/str.go:45-47 | the bitwise or of a number below 2^s and a multiple of 2^s is their sum |
| Strings.OrGroup | column/str.go:45-48 | or-ing in the next group adds it with its weight and stays below the weight of the one after |
| Codec.PushRows | column/array.go:43-47 | one Append adds exactly the normalised row at the end, at any nesting, and keeps all offsets sound |
| Codec.PushAllRows | column/array.go:49-53 | AppendArr adds exactly the normalised rows in order and keeps all offsets sound |
| Codec.NormKept | column/fixedstring.go:38-47 | what is stored for a row is the row itself, with every FixedString inside cut or filled up with zeros, at any nesting |
| Codec.MapGrow | column/map.go:92-98 | adding equally many keys and values and the offset of the last adds exactly one row of their pairs |
| Codec.CutAt | column/array.go:55-62 | row i of the offsets is the slice from the previous offset to its own, inside the elements |
| Codec.AscendingBound | column/array.go:86-98 | non-decreasing offsets never exceed the last one |
| Codec.OffsetsRoundTrip | column/array.go:114-121 | written offsets are read back exactly, whatever follows |
| Codec.LeavesRoundTrip | column/fixedstring.go:60-76 | leaf data of every kind is read back exactly, whatever follows |
| Codec.DecodeTyped | column/array.go:86-100 | whatever the input and prior contents, a successful decode leaves only values of the leaf types |
| Codec.GraftClean | column/fixedstring.go:60-69 | decoded contents replace the prior ones exactly when no FixedString inside held rows |
| Codec.DecodeEncode | column/array.go:86-107 | for every nesting, prior content and following bytes, decode consumes exactly the encoded bytes, and what it leaves is known: replaced, with FixedStrings appended |
| Codec.RoundTrip | column/map.go:140-170 | decode of encode gives the same column and stops at the first trailing byte, if and only if the receiver's FixedStrings are reset |
| Codec.EncodeInjective | column/column.go:116-165 | columns of one length whose bytes agree up to what follows are equal, and so is what follows |
| Codec.RowsInjective | column/array.go:55-69 | a column is determined by the rows it shows |
| Codec.BytesOfRows | column/array.go:102-107 | however built, two columns of one length send the same bytes exactly when they show the same rows |
| Codec.RunRows | column/array.go:38-107 | over any run of Append, AppendArr, Reset and decodes the offsets stay sound and the rows are those of a plain list |
| Codec.BuildRoundTrip | column/map.go:92-170 | the column after any such run is read back by any clean column as exactly the rows of the plain list, at the first trailing byte |
| Strings.GrowthBound | column/str.go:103-121 | after an allocation at a string under 128 bytes, the same call allocates again only for a longer string |
| Strings.CapExact | column/str.go:110-121 | an allocation asks for room for the remaining rows at a length under 128, and for nothing to spare from 128 on |
| Strings.CapBound | column/str.go:110-121 | whatever the strings, the buffer never has more than 127 bytes a row to spare, or what it had before |
| Strings.EqualLengthsAllocateOnce | column/str.go:103-121 | equally long strings under 128 bytes allocate at most once |
| Strings.JoinSlice | column/str.go:134-137 | cutting the concatenated buffer at the position table gives back each string |
| Strings.StrColumn.Extend | column/str.go:110-121 | the buffer is extended to end bytes with its contents kept, whether it is reallocated or not, and its capacity follows the heuristic |
| Strings.StrColumn.CutStrings | column/str.go:128-137 | the final loop makes Data the strings read, whatever capacity was left over |
| Strings.StrColumn.ReadStrings | column/str.go:97-126 | the main loop keeps the buffer equal to the concatenation and the table equal to the prefix sums, and agrees with reading one string at a time |
| Strings.StrColumn.DecodeColumn | column/str.go:83-140 | whatever buffers earlier calls left, Data and the bytes consumed are those of the naive decoder, and so are the faults |
| Strings.StrColumn.EncodeColumn | column/str.go:143-148 | appends the length-prefixed strings in order |
| Columns.SafeMulExact | column/column.go:12-20 | the division test refuses exactly the products above the largest int |
| Columns.BulkRead | column/column.go:132-137 | one read of the whole memory block equals reading the elements one by one |
| Columns.BulkWrite | column/column.go:155-160 | copying the memory of all elements at once is writing their little-endian bytes one by one |
| Columns.FixedColumn.DecodeColumn | column/column.go:116-142 | refines the element-wise decoder for every row count, including negative and overflowing ones |
| Columns.FixedColumn.EncodeColumn | column/int128.go:187-200 | appends the elements' bytes; fails exactly when the byte count overflows |
| Columns.FixedStringColumn.Append | column/fixedstring.go:38-47 | appends the first n bytes, padded with zeros, and changes no other row |
| Columns.FixedStringColumn.DecodeColumn | column/fixedstring.go:60-69 | appends the rows read to those there |
| Columns.ReadOffsets | column/array.go:86-94 | the offset loop refines the offset reader |
| Columns.WriteOffsets | column/array.go:114-121 | appends exactly the offsets' varints |
| Columns.ArrayRowAt | column/array.go:55-69 | row i lies between the previous offset and its own, inside the elements |
| Columns.MapRowAt | column/map.go:106-121 | row i is the pairs between the previous offset and its own |
| Columns.ArrayColumn.Append | column/array.go:43-47 | the new state is the specified append, also inside |
| Columns.ArrayColumn.AppendArr | column/array.go:49-53 | the rows one after the other |
| Columns.ArrayColumn.Reset | column/array.go:38-41 | empty, also inside |
| Columns.ArrayColumn.Row | column/array.go:55-69 | returns the i-th row on the slice path and on the copying path |
| Columns.ArrayColumn.DecodeColumn | column/array.go:86-100 | refines the value decoder from any state, and never reads elsewhere |
| Columns.ArrayColumn.EncodeColumn | column/array.go:102-107 | appends the specified bytes; fails exactly when a fixed-width leaf overflows |
| Columns.MapColumn.Append | column/map.go:92-98 | the new state is the specified append of both key and value column |
| Columns.MapColumn.AppendArr | column/map.go:100-104 | the rows one after the other |
| Columns.MapColumn.Row | column/map.go:106-121 | returns the i-th row's pairs |
| Columns.MapColumn.ForEachEntry | column/map.go:123-138 | calls fn on exactly the pairs of Row(i) in order, up to and including the first on which it fails |
| Columns.MapColumn.DecodeColumn | column/map.go:140-160 | refines the value decoder from any state |
| Columns.MapColumn.EncodeColumn | column/map.go:162-170 | appends the specified bytes |
| Columns.Column.Append | column/column.go:33-39 | Append through the interface is the specified append at every nesting |
| Columns.Column.AppendArr | column/column.go:33-39 | AppendArr through the interface is appending row after row |
| Columns.Column.Row | column/column.go:33-39 | Row through the interface is the i-th row at every nesting |
| Columns.Column.DecodeColumn | column/column.go:23-30 | decoding through the interface refines the value decoder at every nesting |
| Columns.Column.EncodeColumn | column/column.go:23-30 | encoding through the interface appends the specified bytes at every nesting |
| Wrappers.NullRoundTrip | column/nullable.go:55-82 | null flags and values come back, with the FixedString exception, at exactly the encoded length |
| Wrappers.Nullable.Append | column/nullable.go:32-40 | stores the flag, and the zero value for a null |
| Wrappers.Nullable.Row | column/nullable.go:50-52 | returns the i-th value and flag |
| Wrappers.Nullable.DecodeColumn | column/nullable.go:55-70 | refines the value decoder |
| Wrappers.Nullable.EncodeColumn | column/nullable.go:73-82 | appends one byte per flag and the values |
| Wrappers.TupleRoundTrip | column/tuple_gen.go:51-69 | both fields come back, with the FixedString exception, at exactly the encoded length |
| Wrappers.Tuple2.Append | column/tuple_gen.go:33-36 | appends each half to its field |
| Wrappers.Tuple2.DecodeColumn | column/tuple_gen.go:51-59 | refines the value decoder |
| Wrappers.Tuple2.EncodeColumn | column/tuple_gen.go:61-69 | appends the fields' bytes in order |
| Writers.OffsetsExact | column/array.go:123-129 | the offsets are sent as EncodeColumn writes them if and only if the writer copies slices or all offsets are equal; their number of bytes is the same |
| Writers.OneTwo | column/array.go:123-129 | a writer that keeps slices sends the offsets 1, 2 as 2, 2 |
| Writers.SentExact | column/array.go:109-112 | at any nesting WriteColumn sends EncodeColumn's bytes if and only if the writer copies slices or all offsets are equal at every Array and Map inside |
| Writers.FirstOffsetLost | column/array.go:86-129 | from offsets sent through kept slices that are not all equal a reader never gets the first offset |
| Writers.SentLost | column/map.go:140-176 | what a kept-slice writer sends is never decoded to the offsets of the column, at any nesting, once some level's offsets are not all equal |
| Writers.WriteUVarInts | column/array.go:123-129 | the loop over one shared buffer leaves pending the offsets' varints, or with kept slices as many bytes each of the buffer as it is at the end |
| Writers.WriteFixed | column/column.go:168-186 | chains the elements' bytes, or nothing when their size overflows |
| Writers.WriteLeaves | column/str.go:151-157 | chains the values' bytes in order |
| Writers.WriteColumn | column/column.go:23-30 | at any nesting, what a flush would send grows by exactly the specified bytes, also for slices chained before |
| Writers.WriteArray | column/array.go:109-112 | offsets, then elements |
| Writers.WriteMap | column/map.go:172-176 | offsets, keys, values |
| Writers.WriteNullable | column/nullable.go:85-96 | one byte per flag, then the values as their WriteColumn leaves them |
| Writers.WriteLowCardinality | column/lowcardinality.go:174-179 | EncodeColumn's block for either kind of writer; the column is expanded afterwards |
| Dictionary.DedupExact | column/lowcardinality.go:189-197 | the dictionary holds exactly the values that occur, each once |
| Dictionary.DedupOrder | column/lowcardinality.go:189-224 | dictionary order is order of first occurrence |
| Dictionary.DedupIsDictionary | column/lowcardinality.go:189-224 | the dictionary lists every value of the rows once, in order of first occurrence |
| Dictionary.ResolveCodes | column/lowcardinality.go:229-249 | looking up the codes gives back the rows |
| Dictionary.DedupResolve | column/lowcardinality.go:75-80 | looking keys up cannot make more of them distinct |
| Dictionary.DistinctRows | column/lowcardinality.go:160-167 | rows looked up with keys below a bound have at most that many distinct values |
| LowCardinality.NarrowestKeys | column/lowcardinality.go:199-210 | the chosen key type is the narrowest that numbers the dictionary, except for exactly 2^32 entries |
| LowCardinality.CodesTyped | column/lowcardinality.go:229-249 | every code fits the chosen key width, so narrowing loses nothing |
| LowCardinality.ExpandKeepsView | column/lowcardinality.go:82-95 | expanding changes no row, and expanding again changes nothing |
| LowCardinality.DecodedView | column/lowcardinality.go:67-80 | the lazy view after reading a block shows exactly the rows encoded |
| LowCardinality.LCRoundTrip | column/lowcardinality.go:115-253 | the same rows at exactly the encoded length, from any prior state, if and only if at most 100,000,000 are distinct; re-encoding gives the same bytes |
| LowCardinality.LCEmpty | column/lowcardinality.go:116-118 | an empty column writes nothing, and the receiver then shows no rows exactly when it showed none before |
| LowCardinality.DecodedLength | column/lowcardinality.go:418-450 | a decoded block shows the requested number of rows exactly when its key type is at most 3 or stale keys are as many |
| LowCardinality.ReencodeNarrower | column/lowcardinality.go:160-210 | the rows of any decoded block are as many as asked for, with a dictionary no larger and keys no wider than received |
| LowCardinality.DictTyped | column/lowcardinality.go:115-142 | a received dictionary holds values of the key type that can be sent again |
| LowCardinality.NormalForm | column/lowcardinality.go:115-253 | re-encoding any decoded block of key type 0 to 3 gives a block that every column reads back to the same rows at exactly its length, with a duplicate-free dictionary in order of first occurrence no larger than the received one and keys no wider; encoding that again gives identical bytes |
| LowCardinality.NarrowDict | column/lowcardinality.go:160-167 | rows looked up through keys have no more distinct values than dictionary entries, and no more than 256 to the key width |
| LowCardColumn.KeyAt | column/lowcardinality.go:39-51 | key i is the number in its bytes, below 256 to the width |
| LowCardColumn.ViewExact | column/lowcardinality.go:67-80 | row i is the inner column's when that is expanded or there is no dictionary, and else the dictionary's entry for the number in the i-th key's bytes |
| LowCardColumn.OrderKeys | column/lowcardinality.go:219-223 | the ordered keys are the dictionary, whatever order the map is walked in |
| LowCardColumn.LowCardinalityColumn.Key | column/lowcardinality.go:39-51 | the width switch reads key i |
| LowCardColumn.LowCardinalityColumn.Length | column/lowcardinality.go:67-72 | the number of rows shown, expanded or not |
| LowCardColumn.LowCardinalityColumn.Row | column/lowcardinality.go:75-80 | the i-th row shown, expanded or not |
| LowCardColumn.LowCardinalityColumn.EnsureExpanded | column/lowcardinality.go:82-95 | the loop computes the expansion |
| LowCardColumn.LowCardinalityColumn.EncodeState | column/lowcardinality.go:98-100 | appends version 1 in eight bytes |
| LowCardColumn.LowCardinalityColumn.DecodeState | column/lowcardinality.go:103-112 | accepts exactly version 1 in eight bytes |
| LowCardColumn.LowCardinalityColumn.DecodeDictKeys | column/lowcardinality.go:321-416 | reads the dictionary's entries, strings one by one and numbers as a block; panics on an empty one of uint8 values |
| LowCardColumn.LowCardinalityColumn.DecodeKeyIndices | column/lowcardinality.go:418-450 | reads the keys of the four widths and leaves old ones for any other key type |
| LowCardColumn.LowCardinalityColumn.KeysInRange | column/lowcardinality.go:160-167 | the validation loop accepts exactly the keys that index the dictionary |
| LowCardColumn.LowCardinalityColumn.DecodeColumn | column/lowcardinality.go:115-171 | refines the block decoder from any state, faults included |
| LowCardColumn.LowCardinalityColumn.BuildDict | column/lowcardinality.go:189-197 | the map numbers the distinct values by first occurrence |
| LowCardColumn.LowCardinalityColumn.KeyIndices | column/lowcardinality.go:229-249 | the index buffer is the rows' codes in the chosen width |
| LowCardColumn.LowCardinalityColumn.EncodeColumn | column/lowcardinality.go:182-253 | appends the block of the rows shown and leaves the column expanded |
| WideInt.Neg128Exact | column/int128.go:17-24 | negation modulo 2^128; the minimum and zero are its only fixed points |
| WideInt.Neg256 | column/int256.go:16-31 | the limb-by-limb increment negates modulo 2^256 |
| WideInt.Neg256Exact | column/int256.go:16-31 | negation modulo 2^256; the minimum and zero are its only fixed points |
| WideInt.Cmp128Exact | column/int128.go:40-63 | Cmp has the sign of the difference, signed and unsigned |
| WideInt.CmpU256Exact | column/uint256.go:21-26 | Cmp has the sign of the difference |
| WideInt.Cmp256Exact | column/int256.go:46-60 | Cmp has the sign of the difference if and only if the high halves differ or the low halves' top bits agree |
| WideInt.Cmp256Wrong | column/int256.go:59-59 | a pair on which Cmp has the wrong sign |
| WideInt.ReverseInPlace | column/int128.go:66-94 | the swap loop reverses the bytes |
| WideInt.ReverseVal | column/int128.go:66-94 | big-endian bytes of a value are its little-endian bytes reversed |
| WideInt.PutWord | column/int256.go:111-128 | the eight shifted and cut bytes are the limb's little-endian form, written at the offset and nowhere else |
| WideInt.Word | column/int256.go:130-133 | the eight shifted bytes joined with bitwise or are the little-endian number |
| WideInt.PutLE128 | column/int256.go:111-128 | writes the limbs' bytes at the offset and nothing else |
| WideInt.MagnitudeBytes | column/int128.go:97-128 | right-aligning and reversing big.Int's bytes gives the value, exactly when it fits |
| WideInt.UInt128ToBigInt | column/uint128.go:38-60 | the value of the limbs |
| WideInt.Int128ToBigInt | column/int128.go:66-94 | the signed value of the limbs, at both ends of the range |
| WideInt.Int128FromBigInt | column/int128.go:97-128 | succeeds exactly on [-2^127, 2^127), with the limbs of that value |
| WideInt.UInt128FromBigInt | column/uint128.go:63-85 | succeeds exactly on [0, 2^128), with the limbs of that value |
| WideInt.UInt256ToBigInt | column/uint256.go:29-37 | the value of the limbs |
| WideInt.Int256ToBigInt | column/int256.go:63-78 | the signed value of the limbs |
| WideInt.Int256FromBigInt | column/int256.go:81-109 | succeeds exactly on [-2^255, 2^255), with the limbs of that value |
| WideInt.UInt256FromBigInt | column/uint256.go:40-60 | succeeds exactly on [0, 2^256), with the limbs of that value |
| WideInt.Int128Back | column/int128.go:66-128 | converting to a big integer and back gives the same limbs |
| WideInt.Int256Back | column/int256.go:63-109 | converting to a big integer and back gives the same limbs |
| WideInt.UInt128Back | column/uint128.go:38-85 | converting to a big integer and back gives the same limbs |
| WideInt.UInt256Back | column/uint256.go:29-60 | converting to a big integer and back gives the same limbs |
| Decimals.QuantiseAt | column/decimal128.go:33-40 | Append stores the value divided toward zero by one unit of the scale |
| Decimals.Cents | column/decimal128.go:33-40 | 123.456 and -123.456 at scale 2 are stored as 12345 and -12345 |
| Decimals.RowBound | column/decimal128.go:48-51 | the row misses the value by less than one unit, on zero's side, and is exact exactly on multiples of the unit |
| Decimals.QuantiseMonotone | column/decimal128.go:33-40 | larger values are never stored as smaller integers |
| Decimals.Decimal128Column.Append | column/decimal128.go:33-40 | stores the quantised integer exactly when it fits 128 bits, and panics otherwise |
| Decimals.Decimal128Column.AppendRow | column/decimal128.go:33-51 | appending a row that was read stores the same limbs |
| TypeNames.SplitAtDepth0 | column/map.go:195-210 | the loop splits at the first comma outside parentheses, or not at all |
| TypeNames.CommaFirst | column/map.go:195-210 | on any string the separator found is the first one with as many opening as closing parentheses before it |
| TypeNames.SkipType | column/map.go:195-210 | every printed type is balanced and has no comma outside its own parentheses |
| TypeNames.ParseMapTypes | column/map.go:179-192 | computes the trimmed halves, or an error when one is empty |
| TypeNames.TrimExact | column/map.go:186-188 | trimming takes ASCII spaces off both ends and nothing else, until neither end is one |
| TypeNames.MapTypesExact | column/map.go:179-192 | there is a key and a value type if and only if a separator is found and both sides hold something other than spaces, and they are the trimmed sides |
| TypeNames.MapOfNames | column/map.go:179-192 | Map(K, V) over plain names gives K and V |
| TypeNames.MapTypeSplits | column/map.go:49-210 | a printed map type gives back exactly the printed key and value type, whatever blanks follow the comma |
| Blocks.DecodeBlockInfoSafe | conn/blockinfo.go:17-52 | the loop terminates on every input and computes the field parser |
| Blocks.InfoRoundTrip | conn/blockinfo.go:17-52 | fields 1, 2 and 3 in any order and number are read up to and including the end marker |
| Blocks.ColumnsRoundTrip | conn/select.go:140-163 | the columns of a frame that was sent intact are read one after the other, each to its own rows |
| Blocks.FrameRoundTrip | conn/select.go:99-168 | reading a frame that was sent intact gives every column its rows and consumes exactly the frame; one beyond the limits or with another number of columns is refused; a frame without rows and columns is passed over |
| Formats.LeafFormat | column/column.go:155-160 | a number is its bytes from the lowest up, a string its length and bytes, a FixedString its bytes |
| Formats.LeavesInOrder | column/str.go:143-148 | leaf data is value after value |
| Formats.OffsetsInOrder | column/array.go:114-121 | offsets are read one by one, the first row's first |
| Formats.ArrayInParts | column/array.go:102-107 | all offsets, then the elements |
| Formats.MapInParts | column/map.go:162-170 | all offsets, then the keys, then the values |
| Formats.NullInParts | column/nullable.go:73-82 | one byte a row, 1 for null and 0 for a value, then the values |
| Formats.NullFlags | column/nullable.go:55-70 | every flag byte but 0 is read as null |
| Formats.TupleInParts | column/tuple_gen.go:61-69 | the first field is read from the front, and the second follows |
| Formats.ZeroBytes | column/nullable.go:32-40 | the value stored beside a null is sent as zero bytes only, at any nesting |
| Formats.BlobAppends | column/fixedstring.go:60-69 | FixedString keeps its rows and puts those it reads behind them |
| Formats.NegativeCount | column/column.go:116-131 | a negative row count is an error for fixed-width elements, a panic for strings and no rows for the others |
| Formats.LastOffsetCounts | column/array.go:86-100 | whatever the offsets read, the elements are as many as the last one says, taken as a signed int |
| Formats.BlockInParts | column/lowcardinality.go:182-253 | a LowCardinality block is its flags 0x600 and key type, the dictionary's size and entries, the number of keys, and the keys in one, two, four or eight bytes by the dictionary's size |
| Formats.HeadRefused | column/lowcardinality.go:120-139 | a block that needs a global dictionary, brings no keys, or has more than 100,000,000 of them is refused |
| Formats.KeyRefused | column/lowcardinality.go:160-167 | so is one with a key that does not index the dictionary |
| Formats.StateRefused | column/lowcardinality.go:103-112 | a column state is accepted exactly when it is version 1 |
| Formats.InfoRefused | conn/blockinfo.go:17-52 | a block info field other than 1 to 3 is refused |
| Formats.CountsRefused | conn/select.go:123-140 | counts below zero, over 1,000,000 columns or 100,000,000 rows, or of other columns than are bound are refused, and an empty block is passed over |
| Formats.BodyInParts | conn/insert.go:79-82 | behind a column's head stand its state, when it has one, its null flags, and EncodeColumn's bytes exactly when they are sent intact |
| Formats.ColumnsInParts | conn/insert.go:71-82 | column after column: name, type, the flag byte 0, then state and data |
| Formats.DataInParts | conn/insert.go:55-82 | code 2, an empty table name, block info with its two fields, the numbers of columns and rows, the columns |
| Queries.CheckRows | conn/insert.go:17-29 | accepts exactly non-empty columns of equal length, and tells the two faults apart |
| Queries.WriteData | conn/insert.go:53-89 | sends, part by part, a data packet with every column under its name and type and as WriteColumn leaves it for the writer's kind, and the blank block, or nothing |
| Queries.InsertInParts | conn/insert.go:55-82 | what Insert and Append send is such a packet with bucket number -1 |
| Queries.BlankInParts | conn/insert.go:84-89 | the blank block is such a packet with bucket number 0 and no columns and rows |
| Queries.PacketCodes | conn/select.go:42-92 | the first byte of every server packet and of the client's Cancel |
| Queries.ReceiveRows | conn/select.go:154-163 | a bound column shows the block's rows exactly when its FixedStrings were reset |
| Queries.InsertRoundTrip | conn/insert.go:58-90 | handleDataBlock reads what Insert sends to the same rows, LowCardinality state included, if and only if it is within the limits, FixedStrings are reset, and the writer copies slices or all offsets inside every Array and Map are equal; without regard to FixedStrings it then consumes exactly the frame |
| Queries.ColumnLost | conn/select.go:140-163 | a column whose offsets went out wrong never arrives with its rows |
| Queries.ColumnsExact | conn/select.go:140-163 | the columns of a block within the limits all arrive with their rows if and only if every FixedString was reset and every column was sent intact |
| Queries.HandleDataBlock | conn/select.go:99-168 | refines the frame reader, faults included |
| Queries.Select | conn/select.go:28-95 | the packet loop computes the turn-by-turn specification, leaves the input right behind the end or the exception, and sends a Cancel packet exactly when its context was done |
| Queries.AfterKeepsPackets | conn/select.go:43-47 | receiving a block changes no column's kind, so later packets mean the same |
| Queries.LoopOver | conn/select.go:28-95 | packets that do not stop the loop are taken one by one, whatever follows them |
| Queries.SelectExact | conn/select.go:28-95 | over every stream of well-formed packets, also one that runs out: no error exactly when EndOfStream comes before an Exception or a block with another number of columns and before the context is done, the server's error at an Exception; the row count is the sum over the packets read, also on a cancellation, and the input stands right behind EndOfStream or the Exception |
| Queries.SelectLeavesLastBlock | conn/select.go:43-47 | a column without FixedString ends with the rows of the last block that had rows, and no others |
| Responses.Patient | conn/exec.go:28-33 | without cancellation the loop's result does not depend on how long it has run |
| Responses.Wait | conn/insert.go:95-159 | the loops compute the turn-by-turn specification, leave the input right behind the end or the exception, and send a Cancel packet exactly when their context was done |
| Responses.WaitForPacket | conn/exec.go:243-264 | what each loop makes of a well-formed packet: passed over whole, end, server error or refusal |
| Responses.WaitExact | conn/exec.go:28-85 | over any response, Exec, Insert and cancel each end at its last packet, right behind it, without an error exactly at EndOfStream and with the server's exactly at an Exception; a context that is done before that halts them with the other packets unread |
| Responses.ToldExact | conn/insert.go:95-159 | the caller is told of no error exactly at EndOfStream, of the server's at an Exception, of a refused packet, and of a cancellation exactly when the context was done first |
| Responses.Await | conn/exec.go:28-85 | Exec and Insert return exactly that on every response, and leave the input right behind it |
| Streams.HeadsSkipped | conn/stream.go:132-154 | a block without rows is passed over, with any number of columns |
| Streams.StreamFrame | conn/stream.go:94-195 | what Next makes of a frame: refused beyond the limits, passed over without rows, left unread behind its counts with another number of columns, read otherwise |
| Streams.StreamReadsState | conn/stream.go:172-195 | a stream refuses a LowCardinality column that carries state and reads any other column |
| Streams.StreamNeedsStateless | conn/stream.go:164-195 | a stream reads a block that carries state if and only if it has no LowCardinality column |
| Streams.NextExact | conn/stream.go:70-268 | Next passes over everything up to the next block with rows, end or exception and stops right behind it, with the block's rows, no error or the server's; a misfit block is refused and its columns left unread; a context that is done before that ends the stream as canceled, and exactly then Cancel is sent |
| Streams.UnknownCode | conn/stream.go:547-549 | an unknown packet code is refused by Insert's loop, and read past by all others |
| Streams.CodeIsAByte | conn/select.go:42-42 | a server code is the low byte of the number read |
| Streams.Unreadable | conn/select.go:54-76 | a packet body that cannot be read ends every loop with an error |
| Streams.SelectStream.Next | conn/stream.go:70-268 | true exactly when a block with rows was read; once false, always false, with nothing read or changed; a Cancel packet exactly when its context was done; the unread input after an end, an exception, a call before Bind and a block that does not fit |
| Streams.SelectStream.Cancel | conn/stream.go:271-325 | asks the server to stop and drains up to EndOfStream, once |
| Streams.SelectStream.Close | conn/stream.go:328-340 | the first call drains an unfinished stream and gives the connection back exactly once; any other does nothing |
| Streams.FirstFitStep | conn/stream.go:163-170 | whether the first n blocks with rows fit is decided packet by packet |
| Streams.ClosedClean | conn/stream.go:70-340 | over any response of well-formed packets, n calls of Next and Close leave the input right behind its end if and only if columns are bound, none of the first n blocks with rows has another number of columns and, for a response that ends with an Exception, Next got as far as that; for one that ends with EndOfStream also when n is 0 |
| Streams.DrainOver | conn/stream.go:271-325 | draining passes over every packet but EndOfStream, Exceptions included |
| Streams.ExceptionOverrun | conn/stream.go:305-309 | Close before Next reached the Exception reads past the end of the response |
| Streams.UnboundUnread | conn/stream.go:74-78 | Next before Bind and then Close leave the whole response unread |
| Streams.UnfitUnread | conn/stream.go:163-170 | a block with another number of columns stays unread, with EndOfStream behind it |
| Streams.InsertStream.Append | conn/stream.go:403-451 | one data packet, part by part, of the bound columns under their names and types, each as WriteColumn leaves it for the writer's kind, or an error and no bytes |
| Streams.InsertStream.Close | conn/stream.go:459-558 | blank block, then no error exactly at EndOfStream, the server's at an Exception, and the cancellation and a Cancel packet exactly when the context was done first; on every way out the connection is given back exactly once |
| Streams.AppendNext | conn/stream.go:425-449 | Next reads the block that Append sent to the same rows if and only if it is within the limits, FixedStrings are reset, and the writer copies slices or all offsets inside every Array and Map are equal; without regard to FixedStrings it then stops at the block's end |
| Connections.Conn.Lock | conn/conn.go:159-168 | succeeds exactly in Ready, which becomes Busy; any other state is refused and kept |
| Connections.Conn.Unlock | conn/conn.go:170-179 | makes the state Ready, whatever it was |
| Connections.Conn.Close | conn/conn.go:141-150 | the state is Closed, and the socket is closed exactly when it was not Closed before |
| Connections.StepOutcome | conn/conn.go:141-179 | what every step does: a lock on a Ready connection makes its caller a holder and it Busy, any other lock is refused; every way out makes it Ready |
| Connections.StepExclusive | conn/conn.go:141-174 | every step of any caller keeps: at most one holder, not Ready while held, Busy only while held |
| Connections.MutualExclusion | conn/stream.go:328-340 | over every interleaving of any number of callers at most one holds the connection, and every use of the wire is by it |
| Connections.OneHolder | conn/conn.go:159-174 | in every run of a new connection at most one caller holds it |
| Connections.StrayUnlock | conn/conn.go:177-179 | an unlock outside Close keeps this if and only if nobody holds the connection |
| Connections.TwoHolders | conn/stream.go:348-352 | after a stray unlock under a holder the next request joins it on the wire |
| Connections.CloseIsFinal | conn/conn.go:141-174 | Closed is final over every continuation if and only if nobody holds the connection at Close |
| Pools.StepInv | pool/pool.go:150-228 | every step of every operation keeps who owns which connection, the locks and the counts |
| Pools.Conservation | pool/pool.go:281-320 | in every run, connections out equal operations in progress plus unclosed streams, none is shared, no request is sent more than twice and no stream's statement more than once |
| Pools.RetryOnNetworkError | pool/pool.go:157-170 | in every run a statement is sent a second time only after a network error ended its first attempt |
| Pools.ReplyOutcome | pool/pool.go:150-175 | a network error on the first attempt leads to a second Acquire, every other end finishes the request; the connection survives exactly when the first attempt succeeded or it was the second, and its sub-pool is open |
| Pools.StreamOutcome | pool/pool.go:281-320 | a stream that started keeps its connection locked, one that did not or was closed gives it back, to be destroyed exactly when its sub-pool is closed |
| Pools.UnlockOutcome | pool/pool.go:293-296 | closing a stream unlocks its connection, which may hold part of the response exactly when it did or the stream ended with an error that leaves some unread |
| Pools.AcquireOutcome | pool/pool.go:83-147 | a connection nobody has, Ready and of an open sub-pool, or the end of the operation |
| Pools.SendFindsReady | pool/pool.go:150-175 | a pooled connection is never refused by its own lock |
| Pools.AllReturned | pool/pool.go:281-320 | once all operations are over and all streams closed, every connection was given back |
| Pools.StaysClean | pool/pool.go:150-228 | from a pool whose idle connections cannot hold an unread response, a step leaves one that may exactly when it returns it so to an open sub-pool |
| Pools.PoolStaysClean | pool/pool.go:150-320 | in a run no idle connection may at any point hold part of a response if and only if no second attempt broke, no stream failed to start and no broken stream was released, other than by an error that leaves nothing unread or with its own sub-pool closed |
| Pools.RetryReturnsDirty | pool/pool.go:150-175 | a request whose two attempts both break leaves its second connection idle and unclean |
| Replicas.TurnsCover | pool/pool.go:101-107 | going around from any start tries every live replica exactly once |
| Replicas.Pool.MarkDead | pool/pool.go:117-122 | marks the replica and closes its sub-pool, once |
| Replicas.Pool.TryInTurn | pool/pool.go:105-131 | tries the live replicas in turn, each at most once, stopping early only at a connection or cancellation |
| Replicas.TriedExact | pool/pool.go:101-107 | the replicas tried are the live ones from the turn on, around the end, as long as they have closed sub-pools or fail to dial |
| Replicas.MarkedExact | pool/pool.go:117-122 | a replica is dead afterwards exactly when it was before or its dial failed |
| Replicas.Pool.Acquire | pool/pool.go:83-147 | the replica picked is the last one tried and has a connection, and all before it in turn had none to give; canceled exactly when the last one tried was; otherwise all live ones were tried and the error says whether one is still live; exactly those whose dial failed are marked dead |
| Replicas.Recent | pool/pool.go:101-102 | the replica whose turn is more recent was picked as often as another, or once more |
| Replicas.Pool.Rounds | pool/pool.go:83-131 | any m calls without failures pick the live replicas with counts that differ by at most one |
| Replicas.DeadStaysShut | pool/pool.go:358-400 | under all interleavings of Acquire, health checks and Close a dead replica's sub-pool is closed |
| Replicas.DeadExact | pool/pool.go:358-400 | over every interleaving a replica is dead exactly when the last failed dial or health check on it was a failed dial |
| Replicas.OpenExact | pool/pool.go:358-400 | over every interleaving a sub-pool is open exactly when the last step on its replica was a health check's, or there was none and it was open before |
| Replicas.CloseShutsAll | pool/pool.go:231-245 | when the loop of Close is done, every sub-pool is closed if and only if the last step on no replica is a health check's |
| Replicas.ReviveAfterClose | pool/pool.go:394-398 | a health check that was running when Close came leaves its replica with an open sub-pool |
| Replicas.ShutUntilRevive | pool/pool.go:231-245 | once all sub-pools are closed they stay closed until a health check revives one |
| Replicas.CloseLeak | pool/pool.go:394-398 | from there, a step opens a sub-pool again if and only if it is a health check's |

## Left out

- Sockets, TLS, timeouts, dialing, the hello handshake, DSN parsing and logging: I/O and library plumbing.
- ch-go's packet bodies (Progress, Profile, Exception, TableColumns) are decoders that take some number of bytes; queries are not printed, and compression is off. The reader is its unread bytes; its varints follow the same format as `readUVarint`, its `Str` refuses lengths of 2^63 and more, its `Bool` takes 0 and 1, a server code is one byte. ch-go is not part of this model.
- Whether ch-go's writer copies or keeps the slices chained to it: both kinds are modelled. Leaf data that is chained without a copy is taken not to change before the flush.
- The array offset format is proved self-consistent, not compatible with a server.
- Memory is unlimited: a failed allocation, and the overflow of `end` in `StrColumn.DecodeColumn` or of `rows*2`, are not modelled.
- What a column or the input holds after a failed decode is not specified.
- Aliasing: strings and slices that share a buffer with a later decode, FixedString rows that keep the caller's array, and `unsafe` casts (modelled as little-endian copies on a 64-bit host).
- Null flags other than 0 and 1 read from the wire count as null.
- LowCardinality keys are strings and integers. Floats are left out because of NaN and signed zeros; for other types the Go code writes no dictionary at all.
- Map columns start with their key and value columns in place; `Infer` beyond splitting the type string is not modelled. Type strings are sequences of characters, of which only the ASCII spaces are trimmed, and an inferred FixedString size is not parsed.
- Tuple2 has no `WriteColumn`, so it cannot be bound to a query. Columns bound to a query are values in Blocks, Queries, Responses and Streams; their objects are in Columns, Wrappers, LowCardColumn and Writers.
- `Connect`, `Ping`'s reply, and `readColumnInfo` before an insert; the request bytes of a query.
- Responses.WaitExact: the packets are those whose bodies the library's decoders take whole, whatever follows; skipping a data block always expects a table name, so it also needs a server that sends one. The decoder of a skipped block depends on its input alone: the columns that `skipBlock` keeps from the last block of the same code (conn/exec.go:251-261) are assumed to have no effect, also where `cancel` uses one code for logs and profile events (conn/stream.go:310).
- Streams.ClosedClean: like Responses.WaitExact, on which it rests; the caller does not bind other columns between calls of Next.
- Streams.NextExact: blocks are framed without column state, as Append frames them; Streams.StreamNeedsStateless says what happens to blocks with state.
- Streams.SelectStream.Next: after a packet that cannot be read, or when the drain after a cancellation meets one, the unread input and the bound columns are not specified.
- Queries.Select: nor are they after a packet that cannot be read or a block that does not fit.
- Replicas.Pool.Acquire: no other call interferes during its loop; Replicas.DeadStaysShut covers the interleavings of its critical sections.
- Two goroutines that close the same stream at once: `closed` is not guarded by a lock in the Go code, so closing is one caller's step here.
- SetRelease and the manual `SelectStream.Release`, apart from Connections.StrayUnlock.
- Liveness: draining waits on the server, and closing a sub-pool may block. Puddle is a bag of connections with a closed flag; health-check timing is not modelled.
- Date, DateTime, DateTime64, UUID, IPv4, IPv6, Enum8, Enum16, Decimal32, Decimal64, Decimal256 and Tuple3 to Tuple12: repeats of members that are covered.
