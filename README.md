# BitReader in Dafny

A model of `BitReader` (index.js), a small Node.js parser object. It holds
an append-only byte buffer, a read offset into it and a default byte order
(`'BE'` or `'LE'`). Its methods eat bytes from the offset as raw slices,
1-, 2- or 4-byte integers, booleans, separator-terminated strings or "the
rest". They can also rewind the offset, peek without consuming, and append
more data.

The project has these modules:

- `Values` (values.dfy): what the JavaScript methods return or throw.
  - `Value` is `null`, a buffer, a number or an array of these.
  - `Outcome` is a value or a thrown `TypeError`/`RangeError`.
  - `Truthy` is JavaScript truthiness on those values.
- `ByteOrder` (byte_order.dfy): `interpretEndian`, with the case-insensitive
  regular expressions written out character by character.
- `Integers` (integers.dfy): the big- and little-endian readings of a byte
  slice and the two's-complement reading that Node's `readInt*` applies.
- `Cursor` (cursor.dfy): each operation as a pure function from
  (buffer, offset, default order, arguments) to (result, new offset). The
  properties are proved about these functions.
- `Reader` (bitreader.dfy): the `BitReader` class itself. Its fields are
  `buffer`, `offset` and `endianness`, and its methods update them in place
  the way the JavaScript does:
  - `eat` advances the offset before it validates the integer options;
  - `eatString` loops over one-byte `eat` calls;
  - `eatRemaining` loops over chunk-sized `eat` calls.
  
  Each method's postcondition gives the whole new state and the result:
  through the matching `Cursor` function where there is one (`eat` and its
  wrappers, `rewind`, `peak`, `eatString`, chunked `eatRemaining`), and
  directly otherwise (`BitReader(...)`, `setEndian`, `write`, `eatBool`,
  `eatRemaining` without a chunk size, `getBuffer`, `remaining`).
- `Scenarios` (scenarios.dfy): client code that replays the assertions of
  test/bitreader.test.js against the method contracts only, plus a few
  extra vectors that are not among the tests' assertions (the big-endian
  signed and unsigned reads of [0xff, 0, 0, 0] in `BigEndianReads`, the
  zero-chunk stop in `IntegerChunkVectors`, `FalsyAmount`):
  - construction and byte-order names;
  - slices, integer reads and the width/order errors;
  - booleans, rewinding and peeking;
  - strings with default, numeric, character and bad separators;
  - remainders, chunks and writes.

Bytes are `int`s in 0..255. A string returned by `eats`, `peaks` or
`eatString` is modelled as the bytes it is decoded from. JavaScript's falsy
numbers are modelled as the natural number 0:

- in `amount || 1`, a falsy amount means one byte;
- in `if (!amount)` of `rewind`, a falsy amount means rewinding to the start;
- in `!opts.chunkSize`, a falsy chunk size means the whole rest.

These behaviours of the code are modelled as written:

- An integer `eat` moves the offset before it throws its RangeError (width
  not 1, 2 or 4) or its TypeError (unknown `opts.endian`).
- `peak()` without an amount rewinds with a falsy amount, which sends the
  offset back to the start of the buffer (`Cursor.PeakWithoutAmountRestarts`).
- `eatString` keeps the separator in the returned string when the separator
  is the last byte of the buffer (index.js:229-230, `Cursor.EatStringField`).
- Chunked integer `eatRemaining` stops at the first chunk that reads as 0,
  because 0 is falsy.
- `eatBool` is false both for a zero byte and for an exhausted buffer.

For the whole-number amounts modelled here, the check `value.length === 0`
at index.js:90 can never succeed once `offset < buflen`, so it has no counterpart in the model. When an integer
`eat` gets a slice shorter than the width it asked for, index.js itself
throws nothing. The `RangeError` comes from Node's `readInt*`/`readUInt*`
bounds check, and the model reproduces it (`Cursor.IntegerValue`).

## Model

| member | source | states |
|---|---|---|
| ByteOrder.Interpret | index.js:19-23 | LE exactly when the name is "le" or "little" in any mix of case, BE exactly when it is "be" or "big", and no order (null) for every other string |
| ByteOrder.LowerMatches | index.js:20-21 | for a lower-case word, the string lower-cases to that word iff each character is the word's letter in either case (what the `/i` flag matches) |
| ByteOrder.NameRoundTrip | index.js:15 | the name stored for an order (the default 'BE' included) is read back as that same order |
| ByteOrder.InterpretVectors | test/bitreader.test.js:9-19 | "le" and "little" give LE; "big" and "BE" give BE; "huge" and "massive" are rejected |
| Integers.BigEndian | index.js:114-119 | the big-endian value of w bytes is below 256^w |
| Integers.LittleEndian | index.js:114-119 | the little-endian value of w bytes is below 256^w |
| Integers.ReversedAt | index.js:116-117 | reversing a slice puts byte w-1-k at position k |
| Integers.LittleIsReversedBig | index.js:116-117 | the little-endian reading equals the big-endian reading of the reversed bytes |
| Integers.BigEndianHead | index.js:114-119 | the big-endian value is the first byte times 256^(w-1) plus the value of the remaining bytes |
| Integers.Unsigned | index.js:111-119 | the unsigned reading in either order is below 256^w |
| Integers.SignBit | index.js:111-119 | the sign weight 128·256^(w-1) is half of 256^w |
| Integers.Read | index.js:111-119 | a signed read lies in [-2^(8w-1), 2^(8w-1)), an unsigned one in [0, 256^w), and the signed value is the unsigned one or that minus 256^w |
| Integers.BigEndianSignBit | index.js:111-119 | the big-endian value reaches the sign weight iff the first byte is at least 0x80 |
| Integers.SignFromTopByte | index.js:111-119 | a signed read is negative iff its most significant byte (first for BE, last for LE) is at least 0x80; then it is the unsigned read minus 256^w, otherwise it equals the unsigned read |
| Integers.WidthOneIgnoresOrder | index.js:116-117 | a one-byte read is the same in both orders (no order suffix is used for width 1) |
| Cursor.Amount | index.js:69 | a falsy amount asks for one byte; any other amount is kept |
| Cursor.IntegerValue | index.js:93-120 | a width other than 1, 2 or 4 throws RangeError; then an unrecognised `opts.endian` throws TypeError; then a short slice throws RangeError; otherwise the result is the integer read in the per-call order (or the reader's default) |
| Cursor.Eat | index.js:65-122 | null exactly when the offset is at the end, and the offset stays; otherwise the offset advances by min(amount, bytes left), and a raw eat returns exactly the non-empty slice consumed, while an integer eat returns the IntegerValue of it |
| Cursor.EatInteger | index.js:93-119 | an integer eat of a full 1-, 2- or 4-byte slice with a usable order returns that slice's two's-complement (or unsigned) value and consumes exactly that slice |
| Cursor.Rewind | index.js:153-157 | a falsy amount returns to offset 0; any other amount k moves back exactly k bytes |
| Cursor.Peak | index.js:176-180 | peak returns what eat returns; when eat throws, the offset stays where eat left it; otherwise a falsy amount sends it to 0 and an amount n ends n bytes before where eat left it, within the buffer |
| Cursor.PeakOvershoots | index.js:176-180 | with fewer than n bytes left, a peak that does not throw ends at n bytes before the end of the buffer, behind where it started; at the end it returns null and still moves back |
| Cursor.PeakKeepsPosition | index.js:176-180 | with n ≥ 1 bytes available, a peak that does not throw leaves the offset where it was; one that throws leaves it n bytes on |
| Cursor.PeakWithoutAmountRestarts | index.js:176-180 | a peak without an amount that does not throw leaves the offset at 0, not where it was |
| Cursor.Separator | index.js:200-217 | TypeError exactly for a non-number or a non-BMP character; an omitted separator is byte 0; a number or one-character string is its code when in [0, 255] and a RangeError otherwise |
| Cursor.ScanEnd | index.js:219-222 | the loop stops after the first separator from the offset on, or at the end of the buffer; no separator lies before that point; it stays put only at the end; if a separator lies ahead, it stops before the end or the last byte is the separator |
| Cursor.EatString | index.js:219-232 | null exactly when nothing is left; a stop before the end returns the bytes before the separator (separator-free); reaching the end returns all remaining bytes; the offset ends where the scan stopped |
| Cursor.EatStringField | index.js:219-232 | a field followed by the separator is consumed together with the separator; the string is the field, or the field plus separator when the separator is the buffer's last byte |
| Cursor.ScanField | index.js:221 | the scan over a separator-free field and its separator stops just after the separator |
| Cursor.EatStringToEnd | index.js:227-232 | with no separator ahead, eatString returns the rest of the buffer and moves to its end |
| Cursor.Chunked | index.js:255-258 | every collected chunk is truthy; chunks of an integer eat are all numbers; a raw chunk loop never throws and always drains the buffer; the offset stays in the buffer |
| Cursor.IntegerChunkStep | index.js:255-258 | over a full 1-, 2- or 4-byte slice with a usable order, a slice that reads as 0 ends the integer chunk loop with nothing more collected and the offset past it; any other value is collected, in front of what the rest of the loop collects |
| Cursor.IntegerChunkEnds | index.js:255-258 | the integer chunk loop collects nothing more at the end of the buffer; it throws RangeError for a width other than 1, 2 or 4 and for a tail shorter than the width, and TypeError for an unknown order, dropping the chunks already collected |
| Cursor.Split | index.js:255-258 | the pieces join back into the input, there are ceil(len/c) of them, each has 1..c bytes, and all but the last have exactly c |
| Cursor.RawChunks | index.js:247-258 | a raw chunked eatRemaining returns the rest of the buffer cut into c-byte chunks and ends at the end of the buffer |
| Reader.BitReader.constructor | index.js:12 | a new reader has an empty buffer, offset 0 and BE order |
| Reader.BitReader.Create | index.js:8-17 | the order name (default 'BE') is interpreted; an unknown one throws TypeError; otherwise a fresh reader holds exactly the data at offset 0 with that order |
| Reader.BitReader.SetEndian | index.js:25-33 | a recognised name sets the order and throws nothing; any other throws TypeError and changes nothing; the offset stays within the buffer |
| Reader.BitReader.Write | index.js:41-48 | the data is appended: the old contents are a prefix of the new buffer, offset and order are unchanged, and the offset stays within the buffer |
| Reader.BitReader.Eat | index.js:65-122 | the result and the new offset are those of Cursor.Eat on the old state; the buffer and the default order are unchanged |
| Reader.BitReader.EatInt | index.js:125-127 | a signed integer eat with the given order name, as Cursor.Eat |
| Reader.BitReader.EatUInt | index.js:128-130 | an unsigned integer eat with the given order name, as Cursor.Eat |
| Reader.BitReader.EatBool | index.js:131-133 | true iff a byte was left and it is non-zero; that byte is consumed, and nothing moves at the end |
| Reader.BitReader.Eats | index.js:141-144 | the bytes a raw eat returns, or none for null, with Cursor.Eat's offset |
| Reader.BitReader.Rewind | index.js:153-157 | the offset becomes Cursor.Rewind of the old one; nothing else changes |
| Reader.BitReader.Position | index.js:166-168 | returns the current offset |
| Reader.BitReader.Peak | index.js:176-180 | result and offset are those of Cursor.Peak: eat, then rewind by the same amount unless eat threw |
| Reader.BitReader.Peaks | index.js:188-191 | the bytes a raw peak returns, or none for null, with Cursor.Peak's offset |
| Reader.BitReader.EatString | index.js:200-233 | an invalid separator throws before the offset moves; a valid one gives Cursor.EatString's string and offset |
| Reader.BitReader.SkipPast | index.js:220-222 | the one-byte eat loop leaves the offset at Cursor.ScanEnd of where it started |
| Reader.BitReader.EatRemaining | index.js:241-259 | without a chunk size: all remaining bytes (null if none) and the offset at the end; with one: Cursor.Chunked's chunks as an array (or its exception) and its offset |
| Reader.BitReader.GetBuffer | index.js:268-270 | returns the whole buffer written so far |
| Reader.BitReader.Remaining | index.js:276-278 | the number of unconsumed bytes: offset plus it is the buffer length |
| Scenarios.ReadVectors | test/bitreader.test.js:101-125 | [0x10,0x80] signed BE is 4224; [0x30,0x20,0x10,0x80] is 807407744; [0xf6] unsigned is 246; [0xff,0,0,0] is 255 LE; two extra vectors that are not among the tests' assertions: [0xff,0,0,0] is -16777216 signed BE and 4278190080 unsigned BE |
| Scenarios.IntegerChunkVectors | test/bitreader.test.js:240-246 | chunked 2-byte integer eating of 00ff00ff00ff gives [255, 255, 255]; on 0000 00ff it stops at the zero chunk with nothing collected |

## Left out

- Stream behaviour is not modelled: the inheritance from `Stream`, the `writable` flag, `end()`, the `'data'`, `'end'` and `'empty'` events, and piping.
- Decoding bytes to a JavaScript string (`toString()` in `eats`, `peaks`, `eatString`) is not modelled; the model returns the bytes.
- `write` of a non-buffer (`Buffer(data.toString())`, UTF-8 encoding) is not modelled; data is always bytes.
- JavaScript coercions of odd arguments are not modelled: negative, fractional or infinite amounts and chunk sizes; numeric strings, booleans or `null` as separators; non-integer numeric separators.
- `opts.signed` is a boolean in the model; any value other than `false` (including omitted) means signed, as in index.js:111.
- Return values used only for chaining (`this` from `setEndian`, `write`, `rewind`) are not modelled. Note that `rewind` returns the reader, not the new offset its doc comment announces.
- `eatRest` is the same function as `eatRemaining` (index.js:260) and has no separate member.
- The `BitReader(data)` call without `new` (index.js:9-10) is the same as `Create`.
- Reader.BitReader.Rewind: requires `amount <= offset`; rewinding past the start to a negative offset (possible in JavaScript) is not modelled.
- Reader.BitReader.Peak: requires that the rewind after a successful eat stays within the buffer (`Cursor.PeakRewindable`). A `peak(n)` that eats fewer than n bytes from a low offset would drive the offset negative in JavaScript, and this is not modelled.
- Reader.BitReader.Peaks: the same requirement as Peak.
- Aliasing through returned buffers is not modelled. In Node, `buf.slice` (index.js:87, 248) returns a view sharing memory with `_buffer`, and `getBuffer` (index.js:269) returns `_buffer` itself, so a caller writing into a returned Buffer changes what later `eat` and `getBuffer` calls see. The model returns immutable sequences.
- The RangeError for an integer eat of a short slice is Node's `Buffer` behaviour, not index.js's; the model states it as Node raises it.
