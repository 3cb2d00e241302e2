# YM2151 envelope bench script, modelled in Dafny

`Episodes/ep07_Envelope_Generator/sim/atten.py` drives a simulation of the
YM2151 envelope generator. For each vector `(ar, rr, kc, ks)` of a fixed
table it

1. computes the rate the chip should use, `calc_rate`: twice the rate
   register plus the key code shifted right by `5 - ks`, saturated at 63;
2. derives three register bytes (`0x28` key code, `0x80` key scale and
   attack rate packed as `ks*0x40 + ar`, `0xe0` release rate under a fixed
   high nibble) and writes a 12-line command file of `<addr><value>` hex
   pairs, `configure`;
3. runs the measurement script and cuts the attack and release times out
   of its output with `split("Attack: ")[1].split(" ")[0]` and the same for
   `"Release: "`, `get_response`;
4. prints one table row per vector.

The model has seven modules:

- `Wrappers`: the `Option` type.
- `Numerals`: Python's `format(v, '02x')` (every integer, negative and
  wider than a byte included) and `int()` over digit strings, with the
  round trip between them.
- `Strings`: Python's `str.split(sep)` (leftmost, non-overlapping
  occurrences) and its inverse `join`.
- `Rate`: `calc_rate`, with Python's `>>` written out as repeated floor
  halving and proved equal to floor division by a power of two.
- `Command`: the register derivation, the 12 lines of the command file,
  a `CommandFile` class whose `lines` the methods append to, `Configure`
  writing the lines one after another, and a decoder for the file that
  serves as the partner of the writer (the file of a vector that fits the
  register fields decodes back to that vector).
- `Response`: the split-based parse of the measurement output, returning
  `None` where Python would raise `IndexError` or `ValueError`.
- `Bench`: the table of 27 vectors and the driver loop `Sweep`, with the
  measurement script as a function parameter that receives the iteration
  number and the text of the command file.

The model follows the code where a failure occurs. `res`, `attack_time`
and `release_time` are local to `get_response`
(`Episodes/ep07_Envelope_Generator/sim/atten.py:31-43`). After a
`CalledProcessError` or an `IndexError`, the next read of the unbound name
raises `UnboundLocalError`, which nothing catches, so the script ends at
the first vector without a reading. `Bench.Sweep` does the same: it
returns the rows before that vector and `completed == false`.

## Model

| member | source | states |
|---|---|---|
| Rate.ShiftRight | Episodes/ep07_Envelope_Generator/sim/atten.py:6 | `x >> n` is the q with q·2ⁿ ≤ x < (q+1)·2ⁿ, for negative x too |
| Rate.ShiftRightIsFloorDivision | Episodes/ep07_Envelope_Generator/sim/atten.py:6 | the shift equals floor division by 2ⁿ |
| Rate.CalcRate | Episodes/ep07_Envelope_Generator/sim/atten.py:5-9 | the rate never exceeds 63; it is exactly 63 when `2*r + (kc >> (5-ks))` reaches 63, and that sum unchanged when it is below 63 |
| Rate.CalcRateRange | Episodes/ep07_Envelope_Generator/sim/atten.py:5-9 | for non-negative r, kc and 0 ≤ ks ≤ 5 the rate lies in [0, 63] |
| Rate.CalcRateMonotoneInKeyCode | Episodes/ep07_Envelope_Generator/sim/atten.py:6-9 | a higher key code never gives a lower rate |
| Rate.ReleaseArg | Episodes/ep07_Envelope_Generator/sim/atten.py:78 | the release argument `rr*2+1` is odd and gives back rr |
| Rate.CalcRateExamples | Episodes/ep07_Envelope_Generator/sim/atten.py:77-78 | the first vector saturates both rates at 63; `calc_rate(21, 0, 0)` is 42 |
| Numerals.DigitValue | Episodes/ep07_Envelope_Generator/sim/atten.py:43 | a character accepted as a digit is the spelling of its value, which is below the base |
| Numerals.DigitRoundTrip | Episodes/ep07_Envelope_Generator/sim/atten.py:18 | every digit below the base reads back as itself |
| Numerals.ParseNumeral | Episodes/ep07_Envelope_Generator/sim/atten.py:43 | `int()` on a digit string: it yields a value exactly when the text is a non-empty string of digits |
| Numerals.NumeralRoundTrip | Episodes/ep07_Envelope_Generator/sim/atten.py:43 | reading back the digits of n gives n, in base 10 and 16 |
| Numerals.Format02xRoundTrip | Episodes/ep07_Envelope_Generator/sim/atten.py:18 | `format(v, '02x')` reads back as v, and it is two characters long exactly when v < 256 |
| Numerals.Format02xAlphabet | Episodes/ep07_Envelope_Generator/sim/atten.py:18 | every character of `format(v, '02x')` is a hex digit or the minus sign |
| Strings.FindFrom | Episodes/ep07_Envelope_Generator/sim/atten.py:39 | the search returns the leftmost occurrence at or after k, or reports that there is none |
| Strings.Split | Episodes/ep07_Envelope_Generator/sim/atten.py:39 | `str.split(sep)` yields at least one piece |
| Strings.SplitAt | Episodes/ep07_Envelope_Generator/sim/atten.py:39 | the first piece is the text before the first occurrence; the rest is the split of what follows it |
| Strings.SplitHeadExtends | Episodes/ep07_Envelope_Generator/sim/atten.py:39 | with no occurrence before n, the first piece begins with the first n characters |
| Strings.SplitJoin | Episodes/ep07_Envelope_Generator/sim/atten.py:39 | joining the pieces with the separator gives back the text |
| Strings.SplitHasSecond | Episodes/ep07_Envelope_Generator/sim/atten.py:39-41 | there is a piece at index 1 if and only if the text contains the separator |
| Strings.JoinSplit | Episodes/ep07_Envelope_Generator/sim/atten.py:17-28 | pieces free of a one-character separator, joined by it, split back into the same pieces |
| Command.PackingRoundTrip | Episodes/ep07_Envelope_Generator/sim/atten.py:12-14 | for vectors in range: `reg_28 == kc`; `reg_80` is a byte whose `/0x40` and `%0x40` are ks and ar; `reg_e0` lies in [0xf0, 0xff] with high nibble 0xf and low nibble rr |
| Command.CommandLinesLayout | Episodes/ep07_Envelope_Generator/sim/atten.py:17-28 | exactly 12 lines in the protocol's shape: the nine fixed tokens of `Layout` at lines 1, 3, 4, 6, 8-12 in order; lines 2, 5, 7 are `28`, `80`, `e0` followed by the formatted register |
| Command.TerminatedIsJoin | Episodes/ep07_Envelope_Generator/sim/atten.py:17-28 | the file text, each line followed by a newline, is the lines joined by newlines with an empty last piece |
| Command.DecodeLine | Episodes/ep07_Envelope_Generator/sim/atten.py:18 | a line that decodes is four characters of two hex bytes |
| Command.NumeralBound | Episodes/ep07_Envelope_Generator/sim/atten.py:18 | two hex digits never exceed a byte |
| Command.RegisterLineDecodes | Episodes/ep07_Envelope_Generator/sim/atten.py:18-23 | a register line for a value below 256 is exactly four hex characters whose halves read back as the address and the value |
| Command.RegisterLineNoNewline | Episodes/ep07_Envelope_Generator/sim/atten.py:18-23 | a register line contains no newline |
| Command.CommandLinesNoNewline | Episodes/ep07_Envelope_Generator/sim/atten.py:17-28 | no line of the file contains a newline |
| Command.CommandTextLines | Episodes/ep07_Envelope_Generator/sim/atten.py:17-28 | splitting the file text on newlines gives back the 12 lines and an empty tail |
| Command.AddressesParse | Episodes/ep07_Envelope_Generator/sim/atten.py:18-23 | the address prefixes read as 0x28, 0x80 and 0xe0 |
| Command.DecodeLinesOf | Episodes/ep07_Envelope_Generator/sim/atten.py:12-28 | lines in the file's layout decode to the vector unpacked from their register values |
| Command.RegisterLinesDecode | Episodes/ep07_Envelope_Generator/sim/atten.py:18-23 | for vectors in range, lines 2, 5 and 7 decode to their address and register value |
| Command.CommandLinesDecode | Episodes/ep07_Envelope_Generator/sim/atten.py:11-28 | for vectors in range, the 12 lines decode to the vector they were written for |
| Command.CommandFileRoundTrip | Episodes/ep07_Envelope_Generator/sim/atten.py:11-29 | for vectors in range, the whole file text decodes back to the vector: no field overflows into another |
| Command.CommandFile.constructor | Episodes/ep07_Envelope_Generator/sim/atten.py:16 | a new file is empty |
| Command.CommandFile.Truncate | Episodes/ep07_Envelope_Generator/sim/atten.py:16 | opening with mode `"w"` empties the file |
| Command.CommandFile.WriteLine | Episodes/ep07_Envelope_Generator/sim/atten.py:17 | one `write` appends one line and leaves the earlier ones |
| Command.Configure | Episodes/ep07_Envelope_Generator/sim/atten.py:11-29 | after `configure`, the file holds exactly the 12 lines for the vector, whatever it held before |
| Response.Field | Episodes/ep07_Envelope_Generator/sim/atten.py:39 | `out.split(tag)[1].split(' ')[0]` has a value if and only if the output contains the tag |
| Response.ParseResponse | Episodes/ep07_Envelope_Generator/sim/atten.py:39-43 | a reading is only found in output that contains both tags, so output missing either tag gives no reading |
| Response.GetResponse | Episodes/ep07_Envelope_Generator/sim/atten.py:31-43 | a failed run gives no reading |
| Response.TokenBeforeSpace | Episodes/ep07_Envelope_Generator/sim/atten.py:39 | text starting with a space-free token and a space splits on spaces into that token first |
| Response.FieldAfter | Episodes/ep07_Envelope_Generator/sim/atten.py:39 | the field is read from what follows the first occurrence of the tag |
| Response.TokenBeforeTag | Episodes/ep07_Envelope_Generator/sim/atten.py:39 | the token before the space is kept whatever follows it |
| Response.FieldAfterReads | Episodes/ep07_Envelope_Generator/sim/atten.py:39 | a token and a space after the first tag are what the field reads |
| Response.FieldReads | Episodes/ep07_Envelope_Generator/sim/atten.py:39-40 | when the first tag is followed by a token and a space, the field is that token |
| Response.ParseResponseReads | Episodes/ep07_Envelope_Generator/sim/atten.py:39-43 | output with `Attack: ` and `Release: ` each first followed by a decimal number and a space yields those two numbers |
| Bench.TestsInRange | Episodes/ep07_Envelope_Generator/sim/atten.py:45-71 | every vector of the table has ar < 64, rr ≤ 15, kc < 256 and ks ≤ 3 |
| Bench.TestsConfigureExactly | Episodes/ep07_Envelope_Generator/sim/atten.py:45-76 | the command file written for each vector of the table decodes back to that vector |
| Bench.FollowsAt | Episodes/ep07_Envelope_Generator/sim/atten.py:75-81 | rows collected one after another are, position by position, the rows expected |
| Bench.Measure | Episodes/ep07_Envelope_Generator/sim/atten.py:76-79 | one pass of the loop leaves the vector's 12 lines in the file and yields the row expected from the device's output for that file, or none |
| Bench.Sweep | Episodes/ep07_Envelope_Generator/sim/atten.py:75-81 | each row is the one expected from the device's output for its vector's file; the sweep is complete exactly when every vector has a row, otherwise the next vector gave no reading; the file holds the lines of the last vector configured, and is left as it was when there are no vectors |
| Bench.FirstVectorExample | Episodes/ep07_Envelope_Generator/sim/atten.py:45-78 | the first vector writes registers 0x60, 0x1f, 0xff and saturates both rates at 63 |

## Left out

- Running `./atten.sh` and the `CalledProcessError` handler (`atten.py:33-37`): the script is a function parameter of `Sweep`; a failure is a `Failed` output and its three diagnostic prints are not modelled.
- The file system (`atten.py:16`, `29`): the command file is a `CommandFile` object holding its lines; opening, flushing and closing are not modelled, and the text the device sees is the lines each followed by a newline.
- Console output: the table header and the formatted rows (`atten.py:73-74`, `80-81`) and the raw output printed after an `IndexError` (`atten.py:42`). `Sweep` returns the rows' values instead of printing them.
- Decoding the process output as UTF-8 (`atten.py:39-40`): output is modelled as an already decoded string.
- Response.ParseResponse: `int()` is modelled on ASCII digit strings only; Python also accepts surrounding whitespace, a sign, underscores and other Unicode digits, which the model reads as no reading.
- Bench.Sweep: the uncaught `UnboundLocalError` and the `ValueError` from `int()` end the script; the model ends the sweep with `completed == false` instead of modelling the traceback.
- Rate.CalcRate: a key scale above 5 makes Python raise `ValueError` for the negative shift; the model requires `ks <= 5` instead, and every vector of the table has `ks <= 3`.
