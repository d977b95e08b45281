# Compact JSON Writer — a Dafny model

This project models the compact serializer of the hjson C++ JSON library, `hjson/Writer.h`.
The `Writer` is a SAX-style handler. It receives the events `Null`, `Bool`, `Int32`, `Int64`, `Double`,
`String`, `Key`, `StartObject`/`EndObject` and `StartArray`/`EndArray`, and appends compact JSON text to an
output stream.

The model covers four parts:

- **The separator state machine of `prefix`.** Its state is a stack of `Level{inArray, valueCount}` plus the
  `seeValue_` flag. It decides when to write `,` and `:`. It enforces the "root not singular" and
  "miss quotation mark" asserts.
- **The event methods.** Each event is a pure function from a `Writer` state to the next state. The output
  stream `os_` is a `string` field that only grows. The source's `assert`s become preconditions. `Run` feeds a
  sequence of events and answers `None` when some assert would fail.
- **The string escaper used by `String`.** A decoder `Unescape` inverts it, so the escaper can be checked by a
  round trip.
- **Integer formatting.**
  - `countDigits` for 32 and 64 bits, with `__builtin_clz` modelled through the bit length.
  - The two-digits-at-a-time `itoa_` as a method with loop invariants.
  - The signed `detail::itoa` wrappers with the `~u + 1` negation.

The non-floating-point part of `Double` is modelled too. That part is the handling of infinity and NaN, and
the ".0" suffix rule. The `%.17g` rendering itself is an input.

The modules are:

- `Maybe`: the option type.
- `Decimal`: reference definitions of decimal notation.
- `WidthTable` and `DigitCount`: `countDigits`.
- `Itoa`: `itoa_` and `itoa`.
- `Escape`: the string escaper and its decoder.
- `DoubleText`: the text of `Double`.
- `JsonWriter`: `prefix` and the events.
- `Handler`: events as data, and the `Run` fold.
- `JsonTree`: an end-to-end theorem. For any JSON tree, replaying its events into a fresh Writer is accepted,
  closes every container, and writes exactly the tree's compact text. That text is defined over the tree: its
  separators and nesting are independent of the Writer's stack, while its scalars reuse the texts the events
  write (`SignedDecimal`, `DoubleText.Text`, `Escape.Quote`).

Unlike `String`, `Key` copies its argument between quotes without escaping; `KeyUnescaped` and
`KeyNewlineRaw` state the consequence.

## Model

| member | source | states |
|---|---|---|
| JsonWriter.PrefixAllowed | hjson/Writer.h:165-182 | The two asserts of `prefix`: once a value was seen the stack must be non-empty (lines 165-166), and at an even count in an object only the string type is allowed (line 182). |
| JsonWriter.Separator | hjson/Writer.h:173-186 | In an array, `,` is written exactly when the top count is positive, and nothing otherwise. In an object, `:` is written exactly when the count is odd, `,` exactly when it is even and positive, and nothing at count 0. |
| JsonWriter.Prefix | hjson/Writer.h:163-188 | `seeValue` becomes true and the stack depth is kept. With an empty stack nothing is written. Otherwise the separator is appended, the top level's count grows by exactly one, and every deeper level is unchanged. |
| JsonWriter.Null | hjson/Writer.h:35-40 | The stream grows by the separator and then exactly `null`. The stack is the one `prefix` leaves. |
| JsonWriter.Bool | hjson/Writer.h:41-46 | The stream grows by the separator and then `true` or `false` according to b. |
| JsonWriter.Int32 | hjson/Writer.h:47-55 | After the separator the Writer appends at most 11 characters, which parse back as the signed decimal i. |
| JsonWriter.Int64 | hjson/Writer.h:56-64 | After the separator the Writer appends at most 20 characters, which parse back as the signed decimal i. |
| JsonWriter.Double | hjson/Writer.h:65-94 | After the separator the Writer appends the text of the double, as `DoubleText.Text` characterises it. |
| JsonWriter.String | hjson/Writer.h:95-122 | After the separator comes a quote, a body and a quote. The body decodes back to s, and no raw character below 0x20 appears. |
| JsonWriter.Key | hjson/Writer.h:130-137 | After the separator comes exactly `"` + s + `"`, with no escaping. |
| JsonWriter.StartObject | hjson/Writer.h:123-129 | The Writer pushes an object level with count 0 on top of the stack `prefix` leaves, and appends `{`. |
| JsonWriter.StartArray | hjson/Writer.h:146-152 | The Writer pushes an array level with count 0, and appends `[`. |
| JsonWriter.EndObject | hjson/Writer.h:138-145 | Requires an open object on top. Pops exactly that level, so the parent's count is untouched. Appends `}`. Leaves `seeValue` as it was. |
| JsonWriter.EndArray | hjson/Writer.h:153-160 | Requires an open array on top. Pops exactly that level and appends `]`. |
| JsonWriter.EmptyContainer | hjson/Writer.h:123-160 | Opening and at once closing a container has the same effect as a scalar event writing `{}` or `[]`. |
| JsonWriter.KeyUnescaped | hjson/Writer.h:95-137 | `Key(s)` and `String(s)` produce the same state if and only if every character of s is copied verbatim by the escaper. |
| JsonWriter.KeyNewlineRaw | hjson/Writer.h:130-137 | A key holding a newline is written with the raw control character between the quotes. |
| Handler.Accepts | hjson/Writer.h:85-182 | When an event passes the source's asserts: `EndObject`/`EndArray` need a non-empty stack with the matching kind on top (lines 140-141, 155-156), `Double` needs a rendering of 1 to 31 characters (line 85), and every other event needs what `prefix` asserts (lines 165-166, 182). |
| Handler.Handle | hjson/Writer.h:35-160 | Every accepted event answers `true` and strictly extends the stream. Every event other than End* sets `seeValue`. Reachable states, meaning an open container only after a value, stay reachable. |
| Handler.SecondRootRejected | hjson/Writer.h:165-166 | Once the root value is complete (empty stack, value seen), no event is accepted. |
| Handler.KeySlot | hjson/Writer.h:179-184 | In the key slot of an object, exactly `Key`, `String` and `EndObject` are accepted. In the value slot, everything except `EndArray` is accepted. |
| Handler.EndObjectAfterKey | hjson/Writer.h:138-145 | The events StartObject, Key("a"), EndObject are all accepted and write `{"a"}`: a key without a value is not detected. |
| Handler.RunAppend | hjson/Writer.h:35-188 | Running two event sequences in turn is the same as running their concatenation; a refusal in the first stops the whole run. |
| Escape.HexUpper | hjson/Writer.h:112 | The digit `%X` prints is a hex digit whose value is k, drawn from `0`-`9` and upper-case `A`-`F` only. |
| Escape.EscapeChar | hjson/Writer.h:99-117 | One character becomes 1, 2 or 6 characters. It becomes 1 exactly when the character is verbatim (not `"`, not `\`, not below 0x20), and that one character is the input. It becomes 6 exactly for a control character without a short escape. Every escape starts with `\`; a six-character escape is `\u00` followed by two digits from `0`-`9` and `A`-`F`. No raw control character is output. |
| Escape.EscapeBody | hjson/Writer.h:98-120 | The escaped body is between 1 and 6 times as long as the input, and holds no raw control character. |
| Escape.UnescapeChar | hjson/Writer.h:101-116 | Decoding the escape of any character, followed by any text, yields that character followed by the decoding of the text. |
| Escape.EscapeRoundTrip | hjson/Writer.h:95-122 | The escaped body decodes back to the original string. |
| Escape.EscapeIdentity | hjson/Writer.h:99-117 | Escaping leaves a string unchanged if and only if every character of it is verbatim. |
| DigitCount.Clz32 | hjson/Writer.h:229 | `__builtin_clz` of a non-zero 32-bit value is below 32, and 32 minus it is the bit length. |
| DigitCount.Clz64 | hjson/Writer.h:257 | `__builtin_clzll` of a non-zero 64-bit value is below 64, and 64 minus it is the bit length. |
| DigitCount.WidthRule | hjson/Writer.h:229-230 | Let b be the bit length of n\|1 and t = b·1233 >> 12. Then t indexes both tables, the 32-bit table agrees with the 64-bit one, and the decimal width of n is t − (n < powers_of_10[t]) + 1. |
| DigitCount.TableFacts | hjson/Writer.h:210-256 | Both `powers_of_10` tables hold 0 at index 0 and 10^t at every other index t. |
| DigitCount.CountDigits32 | hjson/Writer.h:208-231 | `countDigits(uint32_t)` equals the number of decimal digits of n, for every 32-bit n, including 0. |
| DigitCount.CountDigits64 | hjson/Writer.h:233-259 | `countDigits(uint64_t)` equals the number of decimal digits of n, for every 64-bit n. |
| Itoa.CountDigits | hjson/Writer.h:275 | The overload chosen by the operand width returns the number of decimal digits. |
| Itoa.PairDigits | hjson/Writer.h:268-273 | Entries 2m and 2m+1 of the `digits` table are the tens and units digit of m. |
| Itoa.FormatUnsigned | hjson/Writer.h:263-296 | `itoa_` returns `countDigits(val)`, and the buffer holds exactly the decimal digits of val, most significant first. |
| Itoa.FillPairs | hjson/Writer.h:278-284 | After the loop the remaining value is below 100, `next` is one less than its digit count, and the filled suffix follows the digits of the remainder to make the digits of val. |
| Itoa.PairStep | hjson/Writer.h:279-283 | One iteration: the table pair at `(val % 100) * 2` is the last two digits, and the quotient has two digits fewer. |
| Itoa.LastStep | hjson/Writer.h:286-294 | The tail writes one digit `'0' + val` below 10, or one table pair from 10 to 99, and this completes the digits. |
| Itoa.MagnitudeOf | hjson/Writer.h:308-311 | `static_cast` to unsigned keeps non-negative values. For negative values, `~u + 1` yields the magnitude, including for the minimum of the type, where it is half the range. |
| Itoa.SignedDecimalWidth | hjson/Writer.h:51-61 | The text of a 32-bit value has at most 11 characters and that of a 64-bit value at most 20, so it fits `buf[11]` or `buf[20]`. |
| Itoa.SignedDecimalRoundTrip | hjson/Writer.h:306-325 | The text `itoa` writes parses back as the value: a `-` for negatives, then digits. |
| Itoa.FormatInt32 | hjson/Writer.h:306-314 | `itoa(int32_t)` writes the signed decimal text of val, with a `-` for negatives, including the minimum. Its count is the text's length, at most 11, and equals (val < 0) + countDigits(\|val\|). |
| Itoa.FormatInt64 | hjson/Writer.h:317-325 | `itoa(int64_t)` writes the signed decimal text of val, with a `-` for negatives, including the minimum. Its count is the text's length, at most 20, and equals (val < 0) + countDigits(\|val\|). |
| DoubleText.Text | hjson/Writer.h:73-90 | Infinities give `Infinity` and NaN gives `NaN`. A finite rendering is kept as a prefix, and it is lengthened exactly when every character is a digit; the addition is then `.0`. |
| DoubleText.InfinitySignLost | hjson/Writer.h:73-75 | Positive and negative infinity are written identically. |
| DoubleText.FiniteNotAllDigits | hjson/Writer.h:83-89 | The text of a finite double always contains a non-digit. |
| DoubleText.NonNegativeIntegralSuffixed | hjson/Writer.h:86-89 | A non-negative integral rendering x gets `.0` appended. |
| DoubleText.NegativeIntegralNotSuffixed | hjson/Writer.h:86-89 | A negative integral rendering is written bare and reads back as an integer, because `-` is not a digit. |
| DoubleText.MinusOneExample | hjson/Writer.h:86-89 | The rendering "-1" is written as `-1`, while "1" becomes `1.0`. |
| JsonTree.WritesCompact | hjson/Writer.h:35-188 | For every JSON tree, a fresh Writer accepts the tree's events and ends with an empty stack. The stream then holds exactly the tree's compact text. |
| JsonTree.RootNotSingular | hjson/Writer.h:165-166 | After a complete root value, the events of any second value are refused. |

## Left out

- `sprintf("%.17g")`, `std::isinf` and `std::isnan`: these are floating-point numerics. A double enters the model already classified as infinite, NaN or finite. A finite double carries its rendered characters, and these are arbitrary 1..31 characters rather than the exact shapes `%.17g` produces.
- The `strcat(buf, ".0")` into `buf[32]`: the model does not bound the 33 bytes that a 31-digit rendering plus ".0" would need. `%.17g` never prints that many plain digits, but the model does not know the renderer.
- The `WriteStream` template and `os_.put`: byte-sink I/O. The stream is the `out` string of the state, and writes append to it.
- JsonWriter.Int32 and JsonWriter.Int64: these append the `SignedDecimal` text. The method that computes it through a buffer is `Itoa.FormatInt32` / `Itoa.FormatInt64`, and those methods are proved to produce exactly that text.
- Bytes are modelled as `char`. `static_cast<unsigned>(c)` on a negative `char` gives a value above 0x20, so such bytes are copied verbatim, as any character at or above 0x20 is in the model.
- `Level::valueCount` is a C++ `int`. The model uses an unbounded `nat`, so its overflow after 2^31 values in one container is not modelled.
- `Escape.Unescape`: this is the model's own reference decoder, not part of the Writer. It does not recombine surrogate pairs, and rejects a `\u` escape naming a lone surrogate. The escaper never produces one.
- The `digits` table is given by its construction rule ("00" to "99" back to back) rather than as the 200-character literal.
- The `ValueType` enumeration and the `noncopyable` base: these are declared in `hjson/Value.h`, which is not part of this model. Only whether the type is the string tag matters to the Writer.
- The Reader, Value, Document and PrettyWriter: their source is not part of this model.
- The example programs and `hjson/bench/bench_parse.cc`: these are console output, file I/O and timing around the library.
