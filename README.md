# formatDuration, verified

This project models `formatDuration` from the password-search tool (`main.go`).
The function turns a whole number of seconds, the estimated time remaining,
into text such as `"1 days, 1 hours, 1 minutes, 1 seconds"`. It works in two steps:

1. It splits the input into weeks, days, hours, minutes and seconds with Go's
   truncating `/` and `%` on `int`.
2. It writes `"<n> <unit>"` for every count that is positive. Unit words are
   always plural, units run from largest to smallest, and the parts are joined
   with `", "`. When no count is positive, the result is `"0 seconds"`.

Modules:

- `GoInt`: Go's truncating quotient and remainder (`Quot`, `Rem`). Dafny's own
  `/` and `%` are Euclidean.
- `GoFmt`: `%d` for a non-negative count (`NatToString`) and `ParseNat`,
  which reads its output back.
- `GoStrings`: `strings.Join`.
- `Duration`: the split (`Decompose` as a specification, `SplitSeconds` as the
  step-by-step method) and the assembly (`Components`, `Humanize` as a
  specification, `AssembleParts` and `AppendIfPositive` as the methods).
  `FormatDuration` composes the two methods and is proved equal to `Humanize`.
- `DurationParse`: a reader for the output text. It is not part of the program.
  It serves as the partner that the round-trip lemmas are stated against: the
  text names exactly the positive counts, in order, and they add back up to the
  input.

For an input `<= 0`, Go's truncating `/` and `%` make every count `<= 0`
(the clause `s <= 0 ==> AllNonPositive(b)` of `Duration.Decompose`; the
stronger `Duration.DecomposeNegated` shows the split of `-s` is the negated
split of `s`), so none of the five `if … > 0` blocks appends a part, and main.go:155-157
returns `"0 seconds"`. `DurationParse.HumanizeZeroIff` proves the result is
`"0 seconds"` exactly for these inputs.

`Humanize` is a function, so the output is deterministic by construction.

## Model

| member | source | states |
|---|---|---|
| GoInt.TruncatedDivision | main.go:129-136 | Go's `/` and `%` by a positive constant: quotient times divisor plus remainder is the dividend, the remainder is smaller than the divisor in magnitude and has the dividend's sign, and both agree with Euclidean division on non-negative input |
| GoInt.Quot | main.go:129-136 | Go's `/` on `int`, truncating toward zero; its properties are stated by `GoInt.TruncatedDivision` |
| GoInt.Rem | main.go:129-136 | Go's `%` on `int`, taking the dividend's sign; its properties are stated by `GoInt.TruncatedDivision` |
| GoFmt.NatToString | main.go:139-153 | `%d` of a count is a non-empty string of decimal digits, with a leading `0` only for zero |
| GoFmt.ParseNatToString | main.go:139-153 | reading the digits `%d` writes gives back the count |
| GoFmt.NatToStringInjective | main.go:139-153 | different counts are written as different numerals |
| DurationParse.DigitRunOfNumeral | main.go:139-153 | a numeral followed by a non-digit is read to its exact end |
| GoStrings.Join | main.go:159 | `strings.Join` of no parts is empty; otherwise its length is the parts' lengths plus one separator between each pair |
| GoStrings.JoinEnds | main.go:159 | the joined text starts with the first part and ends with the last |
| Duration.Decompose | main.go:129-136 | the five counts sum back to the input, every count below weeks is strictly inside its radix (7, 24, 60, 60), and all counts share the input's sign |
| Duration.DecomposeUnique | main.go:129-136 | the split is the only breakdown with those properties |
| Duration.BreakdownUnique | main.go:129-136 | two in-radix breakdowns of one sign and the same total are equal |
| Duration.DecomposeNegated | main.go:129-136 | truncation toward zero makes the split of `-s` the negated split of `s` |
| Duration.ComponentsSound | main.go:138-153 | every emitted part has a positive count equal to that unit's count, and there are at most five parts |
| Duration.ComponentsOrdered | main.go:138-153 | parts come in strictly descending unit order: weeks, days, hours, minutes, seconds |
| Duration.ComponentsComplete | main.go:138-153 | every unit with a positive count is emitted |
| Duration.Components | main.go:139-153 | which parts the five `if … > 0 { append }` blocks add; see `ComponentsSound`, `ComponentsOrdered`, `ComponentsComplete` and `DurationParse.ComponentsTotal` |
| Duration.PartText | main.go:140-152 | `fmt.Sprintf("%d <unit>", n)` for one part; see `DurationParse.ParsePartText` |
| Duration.Humanize | main.go:128-160 | what `formatDuration` returns; see `DurationParse.HumanizeReadsBack`, `HumanizeRoundTrip`, `HumanizeZeroIff` and `HumanizePartCount` |
| Duration.FormatDuration | main.go:128-160 | the method computes exactly `Humanize` of its input |
| Duration.SplitSeconds | main.go:129-136 | cutting the remainder down one unit at a time yields `Decompose` of the input |
| Duration.AssembleParts | main.go:138-159 | the appended list is the rendered parts; no parts gives `"0 seconds"`, otherwise they are joined with `", "` |
| Duration.AppendIfPositive | main.go:139-153 | the list grows by `"<n> <unit>"` exactly when the count is positive, and is otherwise unchanged |
| DurationParse.ParsePartText | main.go:139-153 | a written part `"<n> <unit>"` reads back as that count and unit, leaving the rest of the text |
| DurationParse.ParseJoin | main.go:159 | the parts joined with `", "` read back as exactly those parts, in order |
| DurationParse.ComponentsTotal | main.go:138-153 | the emitted parts of a non-negative split add up to its total |
| DurationParse.ComponentsOfDecompose | main.go:129-157 | no part is emitted exactly when the input is `<= 0` |
| DurationParse.HumanizeReadsBack | main.go:138-159 | a positive input's text reads back as its emitted parts; any other input's text reads back as a single `0 seconds` |
| DurationParse.HumanizeRoundTrip | main.go:128-160 | the text read back sums to the input when it is non-negative, and to 0 otherwise |
| DurationParse.HumanizeZeroIff | main.go:155-157 | the result is `"0 seconds"` if and only if the input is `<= 0` |
| DurationParse.HumanizePartCount | main.go:138-159 | the result is never empty and holds between one and five parts |
| DurationParse.HumanizeExampleMixed | main.go:128-160 | 90061 seconds is written `"1 days, 1 hours, 1 minutes, 1 seconds"` |
| DurationParse.HumanizeExampleWeek | main.go:128-160 | 604800 seconds is written `"1 weeks"` |

## Left out

- `main` (main.go:16-125): the argument-count check, the `keepassxc-cli` lookup, reading the wordlist file and console output are I/O.
- The per-password call to the external `keepassxc-cli` program (main.go:74-76) is a foreign process.
- The worker goroutines, channels, `sync.WaitGroup`, atomic counters and the timeout (main.go:58-124) are concurrency. Only the pure formatter they call is modelled.
- The floating-point ETA and its conversion to `int` (main.go:87-90) are floating point. The model takes the resulting `int` as its input.
- Go's 64-bit `int` is modelled as an unbounded `int`. The formatter only divides by positive constants, so no overflow can arise and nothing changes for any 64-bit input.
- GoFmt.NatToString: models `%d` only for non-negative values, because the formatter prints only positive counts.
- GoInt.Quot, GoInt.Rem: require a positive divisor, because every divisor in the formatter is a positive constant.
- Duration.FormatDuration: the single Go function is written as two methods, `SplitSeconds` and `AssembleParts`, and `AssembleParts` calls `AppendIfPositive` once per `if` block. The steps, their order and their results are the same.
- The Go slice `parts` is modelled as a value `seq<string>`. Slice aliasing and capacity play no part in the function.
