# Entropy oracle — Dafny model

This project models `SiliconOracle`, the whole of a small command-line "oracle"
(`entropy_oracle.py`). One cast prompts the user six times. After each Enter it
draws one cryptographically random bit and appends it to the object's
`hexagram_stack`, line 1 (bottom) to line 6 (top). The stack is then rendered as
a string of `'0'`/`'1'` digits. The analysis counts yang (`'1'`) and yin (`'0'`)
lines and picks one of four readings in a fixed priority order:

1. six yang lines: Hexagram 1;
2. six yin lines: Hexagram 2;
3. more yang than yin: active dominance;
4. anything else: passive dominance. This includes the 3/3 tie.

An interrupt at any prompt ends the cast with no string and no analysis.

Everything is in `entropy_oracle.dfy`, module `EntropyOracle`:

- `SiliconOracle` is a class whose field `hexagramStack` is reset and appended to
  by the loop in `CastHexagram`, as in the source.
- The entropy source and the keyboard are an input: one `Prompt` per line.
  `Answered(bit)` means Enter was pressed and `bit` was drawn. `Interrupted`
  means the user aborted at that prompt.
- The join into a string (`Join`), the line label (`LineLabel`), the counting
  (`Count`) and the classification (`Classify`) are pure functions. The
  printed texts of the four readings are the datatype `Reading`.

`"110100"` has three ones and three zeros, so it falls to the passive reading
(`KnownReadings`).

## Model

| member | source | states |
|---|---|---|
| `EntropyOracle.SiliconOracle.constructor` | entropy_oracle.py:20-23 | a new oracle starts with an empty stack |
| `EntropyOracle.SiliconOracle.CastHexagram` | entropy_oracle.py:60-83 | the stack is emptied first, so its contents depend only on this cast's prompts; it holds exactly the bits drawn before the first interrupt, in draw order; a string is returned iff no prompt was interrupted, and it is then the join of the six-bit stack: six characters, all `'0'`/`'1'` |
| `EntropyOracle.FirstInterrupt` | entropy_oracle.py:63-78 | the number of loop iterations that complete: every earlier prompt was answered and, if fewer than all, the next one was interrupted |
| `EntropyOracle.Join` | entropy_oracle.py:82 | the string has one character per stack element, character k is the digit `str` gives element k (`Digit`: `'1'` for 1, `'0'` for 0), and it contains only `'0'`/`'1'` |
| `EntropyOracle.Classify` | entropy_oracle.py:93-107 | counts `'1'` and `'0'`, then picks Hexagram 1 (six ones), else Hexagram 2 (six zeros), else active (more ones than zeros), else passive, so exactly one reading applies; what the readings mean for a cast is stated by `ClassifyCast` and `HexagramReading` |
| `EntropyOracle.ParseJoin` | entropy_oracle.py:82 | reading the joined string back as bits gives the stack unchanged |
| `EntropyOracle.JoinParse` | entropy_oracle.py:82 | every `'0'`/`'1'` string is the join of the bits it spells |
| `EntropyOracle.JoinInjective` | entropy_oracle.py:82 | two stacks with the same string are the same stack |
| `EntropyOracle.LineLabel` | entropy_oracle.py:48 | bit 1 is labelled `"(1) YANG"`, every other value `"(0) YIN "`; both labels are 8 characters wide |
| `EntropyOracle.LabelShowsDigit` | entropy_oracle.py:48 | for a drawn bit, the digit in its label is the digit the joined string holds for it |
| `EntropyOracle.Count` | entropy_oracle.py:93-94 | the count is at most the length, zero iff the character is absent, and equal to the length iff every character is that one |
| `EntropyOracle.CountIsMultiplicity` | entropy_oracle.py:93-94 | the count equals the character's multiplicity in the string, so it does not depend on order |
| `EntropyOracle.YangYinSum` | entropy_oracle.py:93-94 | in a `'0'`/`'1'` string the yang and yin counts add up to its length |
| `EntropyOracle.ClassifyCast` | entropy_oracle.py:100-107 | for a six-character `'0'`/`'1'` string: Hexagram 1 iff all lines are `'1'`, Hexagram 2 iff all are `'0'`, active iff four or five are `'1'`, passive iff one to three are `'1'` |
| `EntropyOracle.ClassifyOrderIndependent` | entropy_oracle.py:93-107 | two strings with the same characters in any order get the same reading |
| `EntropyOracle.TieIsPassive` | entropy_oracle.py:104-107 | three yang and three yin lines give the passive reading |
| `EntropyOracle.JoinMultiplicities` | entropy_oracle.py:82 | the joined string holds as many `'1'`/`'0'` as the stack holds 1/0 bits |
| `EntropyOracle.JoinCounts` | entropy_oracle.py:82-94 | the yang and yin counts of the joined string are the numbers of 1 and 0 bits drawn |
| `EntropyOracle.HexagramReading` | entropy_oracle.py:82-107 | for six drawn bits the counts sum to six, and the reading is Hexagram 1 iff six 1s were drawn, Hexagram 2 iff six 0s, active iff four or five 1s, passive iff one to three 1s |
| `EntropyOracle.KnownReadings` | entropy_oracle.py:100-107 | `"111111"` is Hexagram 1, `"000000"` Hexagram 2, `"111000"` and `"110100"` passive, `"111100"` active |

## Left out

- The random draw `secrets.randbits(1)` (entropy_oracle.py:43) is a foreign call. Its results arrive as the bits of `Answered` prompts; each is only known to be 0 or 1.
- `_get_hardware_entropy` (entropy_oracle.py:25-43) is left out apart from that bit: its `time.sleep(0.1)` is cosmetic pacing.
- `input`, `print` and every console text (entropy_oracle.py:56-58, 67, 77, 89-98, 101-110) are terminal I/O. The position argument of `_visualize_line` only appears in printed text, so `LineLabel` takes just the bit.
- The four printed readings are the values of `Reading`, not the strings.
- `KeyboardInterrupt` handling and `sys.exit(0)` (entropy_oracle.py:76-78) are process control. An abort is modelled as the loop stopping at that prompt with no string returned. An interrupt caught by the same `try` after the append (entropy_oracle.py:71), while the line is being printed, is folded into an interrupt at that prompt: the model's stack then lacks the one bit the source's stack already holds (after the sixth append too). The visible outcome (exit, no string) is the same. The stack keeps the bits drawn so far; the source exits the process there, so nobody observes it.
- An end of input at a prompt raises an error the source does not catch. It is not modelled: `CastHexagram` receives exactly one `Prompt` per line.
- The `__main__` driver (entropy_oracle.py:112-115) only wires the two methods together. `HexagramReading` states what that composition gives.
