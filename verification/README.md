# String similarity metrics: Double Metaphone, Levenshtein, Jaro-Winkler, Dice

This project models the computational core of a library of string similarity functions and proves properties about it. The library offers:

- `dmetaphone`, the Double Metaphone phonetic encoder. It turns a word into a primary and a secondary phonetic code.
- `dmetaphone_eq`, which reports whether two words get the same pair of codes.
- `levenshtein_dist`, the edit distance between two strings.
- `jaro_winkler_dist`, the Jaro-Winkler similarity.
- `dice_coeff`, the Dice coefficient over sets of character bigrams.

Every function works on wide strings, modelled as `seq<char>`.

The Dafny modules follow the source files:

- **`MetaphonePrimitives`** (`src/dmetaphone.cc`): the helpers of the encoder.
  - the bounded accessor `get_at` and the setter `set_at`;
  - the vowel test;
  - the Slavo-Germanic origin test;
  - the candidate matcher `string_at`;
  - `make_upper`, which upper-cases an array in place with a loop.

  Every position parameter of these helpers is an `unsigned int`, while callers pass `int` expressions such as `current - 2`. `U32` makes that modulo-2^32 conversion explicit.
- **`MetaphoneRules`**: one pass of the main loop's per-letter cascade. It is a pure function from the upper-cased, padded buffer, the word length and the cursor to an `Emission`. An `Emission` holds what the pass appends to each code and how far the cursor moves (1 to 4).
- **`Metaphone`**: the encoder and its equality test.
  - `DMetaphone` is the encoder as the source runs it: copy and pad, upper-case in place, the two pre-loop rules, the main loop (`MainLoop`, a `while` loop), and the post-loop step.
  - It is proved equal to `Encode`, a recursive specification function in which `Scan` takes one loop pass per call.
  - The encoder's properties are proved as lemmas about `Encode`: the symbol alphabet, the length bound, termination by end of word or by the cap, the empty word, the initial X and GN rules, and reflexivity and symmetry of `dmetaphone_eq`.
- **`MetaphoneExamples`**: complete encodings of the words the library's own self-test uses ("mère", "mer", "peke", "pique", "bloat", "float"). It also has a family of words whose primary code grows past 32 symbols.
- **`Levenshtein`** (`src/levenshtein.cc`): the single-column dynamic-programming loop on an array.
  - It is proved to compute `D`, the textbook edit-distance recurrence.
  - The properties of `D` are proved by induction: lower and upper bounds, symmetry, and zero exactly for equal strings.
- **`JaroWinkler`** (`src/jarowinkler.cc`): the flag arrays, and the matching, transposition and prefix loops as methods on arrays.
  - Each loop is proved against a specification function: `MatchPass`, `Mismatches`/`Matched` and `CommonPrefix`.
  - The two floating-point formulas are modelled over `real`.
  - The result lies in [0, 1] for scaling factors up to 0.25, and is exactly 1 for a non-empty string compared with itself.
- **`Dice`** (`src/dice.cc`): the bigram-set loops and the counting loop over the intersection.
  - The quotient is returned undivided as `Quotient(num, den)`.
  - Lemmas prove `num <= den`, symmetry, exactly 1 for identical strings of two or more characters, and exactly when the denominator is 0.

## Where the code and its intended behaviour differ

The intended behaviour is the one the source states in its own comments (for example "skip these when at start of word" at `src/dmetaphone.cc:125`) and the published Double Metaphone rules it follows. The model follows the code in each of these cases.

- **Silent initial letters.** The pre-loop rule is meant to skip a word-initial "GN", "KN", "PN", "WR" or "PS". But `string_at` goes on to the next candidate only after an empty one (`src/dmetaphone.cc:95`), so only "GN" is ever compared. A word starting with "KN" is therefore encoded with a leading K (`Metaphone.InitialKNotSkipped`).
- **Codes can exceed 32 symbols.** The loop runs while EITHER code is shorter than 32. The post-loop step writes NUL at position 32 with `set_at`, which does not shorten the string. A returned code can therefore be longer than 32 symbols, with NUL at index 32 (`MetaphoneExamples.CodeLongerThanCap`). `dmetaphone_eq` compares the whole strings, including what follows the NUL.
- **Dice 0/0.** For two one-character strings, the Dice quotient is 0/0. The source divides without a guard. The model exposes this as `Quotient(0, 0)`.

## Model

| member | source | states |
|---|---|---|
| MetaphonePrimitives.U32 | src/dmetaphone.cc:56 | the int-to-unsigned conversion: identity on [0, 2^32), plus 2^32 on negative values down to -2^32 |
| MetaphonePrimitives.GetAt | src/dmetaphone.cc:56-63 | the character at pos inside the string, NUL at and beyond its end |
| MetaphonePrimitives.SetAt | src/dmetaphone.cc:66-73 | overwrites exactly position pos when it is inside the string, leaves every other position and the length unchanged, and leaves the string untouched out of range |
| MetaphonePrimitives.IsVowel | src/dmetaphone.cc:29-41 | true iff pos is inside the string and holds one of A, E, I, O, U, Y |
| MetaphonePrimitives.IsSlavoGermanic | src/dmetaphone.cc:44-53 | true iff the word contains W, K or "CZ" (the "WITZ" test is subsumed by W) |
| MetaphonePrimitives.Substr | src/dmetaphone.cc:92 | the substring compared: at most length characters from start, cut short only by the end of the string |
| MetaphonePrimitives.Contains | src/dmetaphone.cc:46-49 | wstring::find succeeds: sub occurs at some offset of s (definition, no contract; see ContainsLetter and WitzHasW) |
| MetaphonePrimitives.CandidateLoop | src/dmetaphone.cc:85-97 | true iff the first non-empty candidate (all before it empty) equals the substring; later candidates are never compared |
| MetaphonePrimitives.StringAt | src/dmetaphone.cc:79-100 | false at or past the end; when the first candidate is non-empty, true iff the substring equals that first candidate |
| MetaphonePrimitives.WrappedOffsets | src/dmetaphone.cc:56-100 | offsets -1..-4 wrapped to unsigned are out of range for every buffer an int-length word makes: NUL, not a vowel, no match |
| MetaphonePrimitives.ToUpper | src/dmetaphone.cc:25 | a-z and every Latin-1 letter U+00E0..U+00FE except U+00F7 move down by 0x20 to their capitals (so c-cedilla and n-tilde become Ç and Ñ); U+00F7 and every character outside both ranges are unchanged |
| MetaphonePrimitives.UpperAll | src/dmetaphone.cc:23-27 | same length, every character mapped by ToUpper |
| MetaphonePrimitives.MakeUpper | src/dmetaphone.cc:23-27 | the array afterwards holds UpperAll of its old contents |
| MetaphoneRules.Char | src/dmetaphone.cc:56-63 | get_at at an int offset, converted to unsigned as at the call sites (definition, no contract) |
| MetaphoneRules.Vowel | src/dmetaphone.cc:29-41 | is_vowel at an int offset, converted to unsigned as at the call sites (definition, no contract) |
| MetaphoneRules.Has | src/dmetaphone.cc:79-100 | string_at at an int offset, converted to unsigned as at the call sites (definition, no contract) |
| MetaphoneRules.StepVowel | src/dmetaphone.cc:144-156 | the emission for a vowel: at most three alphabet symbols per code, advance 1 to 4 |
| MetaphoneRules.StepB | src/dmetaphone.cc:158-167 | the emission for B: at most three alphabet symbols per code, advance 1 to 4 |
| MetaphoneRules.StepC | src/dmetaphone.cc:175-337 | the emission for C: at most three alphabet symbols per code, advance 1 to 4 |
| MetaphoneRules.StepCH | src/dmetaphone.cc:205-260 | the emission for CH: at most three alphabet symbols per code, advance 1 to 4 |
| MetaphoneRules.StepD | src/dmetaphone.cc:339-367 | the emission for D: at most three alphabet symbols per code, advance 1 to 4 |
| MetaphoneRules.StepG | src/dmetaphone.cc:378-515 | the emission for G: at most three alphabet symbols per code, advance 1 to 4 |
| MetaphoneRules.StepGH | src/dmetaphone.cc:379-429 | the emission for GH: at most three alphabet symbols per code, advance 1 to 4 |
| MetaphoneRules.StepH | src/dmetaphone.cc:517-528 | the emission for H: at most three alphabet symbols per code, advance 1 to 4 |
| MetaphoneRules.StepJ | src/dmetaphone.cc:530-576 | the emission for J: at most three alphabet symbols per code, advance 1 to 4 |
| MetaphoneRules.StepL | src/dmetaphone.cc:587-607 | the emission for L: at most three alphabet symbols per code, advance 1 to 4 |
| MetaphoneRules.StepM | src/dmetaphone.cc:609-621 | the emission for M: at most three alphabet symbols per code, advance 1 to 4 |
| MetaphoneRules.StepP | src/dmetaphone.cc:639-654 | the emission for P: at most three alphabet symbols per code, advance 1 to 4 |
| MetaphoneRules.StepR | src/dmetaphone.cc:665-682 | the emission for R: at most three alphabet symbols per code, advance 1 to 4 |
| MetaphoneRules.StepS | src/dmetaphone.cc:684-798 | the emission for S: at most three alphabet symbols per code, advance 1 to 4 |
| MetaphoneRules.StepSC | src/dmetaphone.cc:741-782 | the emission for SC: at most three alphabet symbols per code, advance 1 to 4 |
| MetaphoneRules.StepT | src/dmetaphone.cc:800-838 | the emission for T: at most three alphabet symbols per code, advance 1 to 4 |
| MetaphoneRules.WLead | src/dmetaphone.cc:859-870 | the word-initial W lead appends at most one alphabet symbol to each code |
| MetaphoneRules.WRest | src/dmetaphone.cc:872-893 | the W rules after the lead append at most two alphabet symbols to each code |
| MetaphoneRules.StepW | src/dmetaphone.cc:850-894 | lead plus rest: at most three alphabet symbols per code, advance 1 to 4 |
| MetaphoneRules.StepX | src/dmetaphone.cc:896-910 | the emission for X: at most three alphabet symbols per code, advance 1 to 4 |
| MetaphoneRules.StepZ | src/dmetaphone.cc:912-934 | the emission for Z: at most three alphabet symbols per code, advance 1 to 4 |
| MetaphoneRules.Step | src/dmetaphone.cc:141-937 | every pass of the cascade, including Ç, F, K, N, Ñ, Q and V, appends at most three alphabet symbols per code and advances 1 to 4 |
| MetaphoneRules.StepDefault | src/dmetaphone.cc:936-937 | a character with no rule (a digit, a blank, any other accented letter) appends nothing and advances the cursor by 1 |
| Metaphone.Cascade | src/dmetaphone.cc:141-937 | one pass of the main loop on a buffer, as a function of the cursor (definition, no contract; see CascadeWellFormed) |
| Metaphone.Scan | src/dmetaphone.cc:138-941 | the main loop, one pass per call: stops when both codes reach 32 or the cursor reaches the length (definition, no contract; see ScanProgress) |
| Metaphone.Encode | src/dmetaphone.cc:102-953 | the codes dmetaphone returns: pre-loop rules, loop, post-loop step (definition, no contract; see the Encode lemmas) |
| Metaphone.SoundsAlike | src/dmetaphone.cc:955-960 | primary codes equal and secondary codes equal (definition, no contract) |
| Metaphone.Original | src/dmetaphone.cc:114-123 | the buffer is the word upper-cased followed by five blanks |
| Metaphone.Start | src/dmetaphone.cc:125-135 | the cursor skips one letter exactly for an initial "GN", plus one for an initial X; an initial X puts S in both codes, otherwise both codes are empty |
| Metaphone.Truncate | src/dmetaphone.cc:944-948 | same length; only position 32 of an over-long code changes, to NUL |
| Metaphone.DMetaphone | src/dmetaphone.cc:102-953 | returns exactly the pair Encode gives |
| Metaphone.MainLoop | src/dmetaphone.cc:138-941 | the loop ends in the state Scan reaches from its start state |
| Metaphone.DMetaphoneEq | src/dmetaphone.cc:955-960 | true iff both primary codes and both secondary codes are equal |
| Metaphone.ScanProgress | src/dmetaphone.cc:138-941 | at most one pass per remaining character; the cursor never moves back and ends at most 3 past the word; each pass appends at most 3 symbols; the codes keep their prefix; the loop stops only at the end of the word or with both codes at 32 or more |
| Metaphone.ScanSymbols | src/dmetaphone.cc:138-941 | the loop appends only alphabet symbols |
| Metaphone.CascadeWellFormed | src/dmetaphone.cc:141-937 | every pass over a given buffer is well formed |
| Metaphone.EncodeAlphabet | src/dmetaphone.cc:102-953 | every returned symbol is from "AFHJKLMNPRSTX0", except the NUL at position 32 of an over-long code |
| Metaphone.EncodeLengthBound | src/dmetaphone.cc:138-948 | each code has at most 1 + 3 * length symbols |
| Metaphone.EncodeStopsAtEndOrCap | src/dmetaphone.cc:138-141 | the loop ends with the word consumed or both codes at 32 or more |
| Metaphone.EncodeEmpty | src/dmetaphone.cc:102-953 | the empty word encodes to two empty codes |
| Metaphone.InitialX | src/dmetaphone.cc:130-135 | a word starting with x or X gets codes that both start with S |
| Metaphone.InitialGN | src/dmetaphone.cc:125-128 | a word starting with GN starts the loop at position 1 with empty codes |
| Metaphone.ScanFirstPass | src/dmetaphone.cc:138-941 | what the first pass appends stays at the front of both codes |
| Metaphone.InitialKNotSkipped | src/dmetaphone.cc:125-128 | a word starting with K (including KN) skips nothing, and both codes start with K |
| Metaphone.SoundsAlikeReflexive | src/dmetaphone.cc:955-960 | every word sounds like itself |
| Metaphone.SoundsAlikeSymmetric | src/dmetaphone.cc:955-960 | the equality test is symmetric |
| MetaphoneExamples.EncodePeke | src/mymetrics.cc:142 | "peke" encodes to ("PK", "PK") |
| MetaphoneExamples.EncodePique | src/mymetrics.cc:142 | "pique" encodes to ("PK", "PK") |
| MetaphoneExamples.PekeSoundsLikePique | src/mymetrics.cc:142 | dmetaphone_eq("peke", "pique") holds |
| MetaphoneExamples.EncodeMere | src/mymetrics.cc:141 | "mère" encodes to ("MR", "MR") |
| MetaphoneExamples.EncodeMer | src/mymetrics.cc:141 | "mer" encodes to ("MR", "MR") |
| MetaphoneExamples.MereSoundsLikeMer | src/mymetrics.cc:141 | dmetaphone_eq("mère", "mer") holds |
| MetaphoneExamples.FirstSymbol | src/dmetaphone.cc:125-141 | a word whose first letter is not X or G gets a primary code starting with the first symbol of the first pass |
| MetaphoneExamples.BloatFirst | src/mymetrics.cc:143 | the primary code of "bloat" starts with P |
| MetaphoneExamples.FloatFirst | src/mymetrics.cc:143 | the primary code of "float" starts with F |
| MetaphoneExamples.EncodeBloat | src/mymetrics.cc:143 | "bloat" encodes to ("PLT", "PLT") |
| MetaphoneExamples.EncodeFloat | src/mymetrics.cc:143 | "float" encodes to ("FLT", "FLT") |
| MetaphoneExamples.BloatNotLikeFloat | src/mymetrics.cc:143 | dmetaphone_eq("bloat", "float") does not hold |
| MetaphoneExamples.EncodeAlleWord | src/dmetaphone.cc:587-607 | "A" + k times "LLEA" + "S": every LLE adds L to the primary code only, so the primary code is A, k L's, S (truncated) and the secondary is "AS" |
| MetaphoneExamples.CodeLongerThanCap | src/dmetaphone.cc:138-948 | a word whose primary code is returned with 33 symbols, NUL at index 32 |
| Levenshtein.Cost | src/levenshtein.cc:16 | 0 for equal characters, 1 otherwise (definition, no contract) |
| Levenshtein.D | src/levenshtein.cc:10-18 | the table entry the column holds: x in row 0, y in column 0, otherwise MIN3 of the three neighbours (definition, no contract; see UpperBound, LowerBound, Symmetric, ZeroIffEqual) |
| Levenshtein.Dist | src/levenshtein.cc:20 | the value returned: the table entry for the two full lengths (definition, no contract; see LevenshteinDist and the Dist lemmas) |
| Levenshtein.Min3 | src/levenshtein.cc:3 | the result is one of the three arguments and at most each of them |
| Levenshtein.LevenshteinDist | src/levenshtein.cc:5-21 | for inputs not both empty, returns the edit distance D(s1, s2, \|s1\|, \|s2\|) |
| Levenshtein.NextColumn | src/levenshtein.cc:13-18 | turns the column for s2[..x-1] into the column for s2[..x] |
| Levenshtein.DistToEmpty | src/levenshtein.cc:10-13 | the distance to the empty string is the other string's length |
| Levenshtein.UpperBound | src/levenshtein.cc:16 | every table entry is at most the longer prefix length |
| Levenshtein.LowerBound | src/levenshtein.cc:16 | every table entry is at least the difference of the prefix lengths |
| Levenshtein.DistBounds | src/levenshtein.cc:5-21 | the difference of the lengths <= distance <= the longer length |
| Levenshtein.Symmetric | src/levenshtein.cc:16 | swapping the strings transposes the table |
| Levenshtein.DistSymmetric | src/levenshtein.cc:5-21 | dist(s1, s2) == dist(s2, s1) |
| Levenshtein.ZeroIffEqual | src/levenshtein.cc:16 | a table entry is 0 exactly when the two prefixes are equal |
| Levenshtein.DistZeroIffEqual | src/levenshtein.cc:5-21 | the distance is 0 exactly for equal strings |
| JaroWinkler.Range | src/jarowinkler.cc:31 | the window half-width is 0 exactly when the longer length is below 4, and otherwise 2r + 2 <= longer < 2r + 4 |
| JaroWinkler.Lo | src/jarowinkler.cc:45 | the window starts at most range before i, exactly range before unless clipped at 0 |
| JaroWinkler.Hi | src/jarowinkler.cc:45 | the window ends at i + range + 1 or at the length of s1, whichever is smaller |
| JaroWinkler.Count | src/jarowinkler.cc:44-53 | the number of raised flags among the first n, at most n |
| JaroWinkler.Matched | src/jarowinkler.cc:59-71 | the flagged characters in order; as many as there are flags |
| JaroWinkler.Mismatches | src/jarowinkler.cc:68-69 | the positions where two sequences differ, at most n |
| JaroWinkler.Jaro | src/jarowinkler.cc:75 | (m/s1l + m/s2l + (m-t)/m) / 3 over reals (definition, no contract; see JaroInUnit) |
| JaroWinkler.Winkler | src/jarowinkler.cc:84 | dw + l * scaling * (1 - dw) over reals (definition, no contract; see WinklerInUnit) |
| JaroWinkler.JaroWinkler | src/jarowinkler.cc:25-87 | 0 for an empty string or no matches, else the Winkler-raised Jaro value (definition, no contract; see UnitInterval, IdenticalIsOne) |
| JaroWinkler.FirstFree | src/jarowinkler.cc:45-52 | the first unflagged equal character of s1 in the window, or the window end when there is none |
| JaroWinkler.MatchStep | src/jarowinkler.cc:45-52 | FlagsFirstFree: for s2[i], if some position of s1 in the window [Lo, Hi) holds s2[i] with its flag down, exactly the first such position and i get their flags raised (counts up by one on each side); otherwise nothing changes |
| JaroWinkler.MatchPass | src/jarowinkler.cc:44-53 | after the matching loop, both sides have the same number of flags, and no flag beyond the positions scanned |
| JaroWinkler.Matches | src/jarowinkler.cc:44-53 | m counts the flags of either side and is at most each length |
| JaroWinkler.Flags | src/jarowinkler.cc:44-53 | the two flag vectors after the matching loop over every position of s2 (definition, no contract; see MatchStep and Matches) |
| JaroWinkler.RawTranspositions | src/jarowinkler.cc:59-71 | the count of out-of-order matched pairs is at most m |
| JaroWinkler.Transpositions | src/jarowinkler.cc:72 | twice t is at most m |
| JaroWinkler.CommonPrefix | src/jarowinkler.cc:78-81 | counts agreeing positions, at most the number examined |
| JaroWinkler.PrefixCount | src/jarowinkler.cc:78-81 | l is at most 4 |
| JaroWinkler.PrefixLimit | src/jarowinkler.cc:79 | the prefix loop bound MIN(MIN(s1l, s2l), 4) (definition, no contract) |
| JaroWinkler.JaroWinklerDist | src/jarowinkler.cc:25-87 | returns exactly JaroWinkler(s1, s2, scaling) |
| JaroWinkler.JaroWinklerDistDefault | src/jarowinkler.cc:89-91 | the two-argument form uses scaling 0.1 |
| JaroWinkler.ClearFlags | src/jarowinkler.cc:37-41 | every flag is put down |
| JaroWinkler.MarkMatches | src/jarowinkler.cc:44-53 | the flag arrays end as MatchPass gives them, and m is the number of s2 flags |
| JaroWinkler.MatchPosition | src/jarowinkler.cc:45-52 | the inner loop does what MatchStep gives, and m goes up by one exactly when s2's flag is raised |
| JaroWinkler.CountMismatches | src/jarowinkler.cc:59-71 | counts where the k-th matched character of s2 differs from the k-th matched character of s1 |
| JaroWinkler.NextFlagged | src/jarowinkler.cc:62-67 | when flags remain, returns the next flagged position of s1 (the search never runs off the end) |
| JaroWinkler.CountPrefix | src/jarowinkler.cc:78-81 | returns PrefixCount |
| JaroWinkler.JaroInUnit | src/jarowinkler.cc:75 | the Jaro value lies in [0, 1] when 2t <= m |
| JaroWinkler.WinklerInUnit | src/jarowinkler.cc:84 | the prefix bonus never lowers the value and keeps it at most 1 for l <= 4 and scaling <= 0.25 |
| JaroWinkler.UnitInterval | src/jarowinkler.cc:25-87 | the result lies in [0, 1] for every scaling factor in [0, 0.25] |
| JaroWinkler.IdenticalIsOne | src/jarowinkler.cc:25-87 | a non-empty string compared with itself scores exactly 1 |
| JaroWinkler.MismatchesSelf | src/jarowinkler.cc:59-71 | a sequence compared with itself has no mismatches |
| Dice.Dice | src/dice.cc:14-29 | Zero for an empty string, else twice the shared bigrams over the sum of the two bigram-set sizes (definition, no contract; see NumeratorAtMostDenominator, Symmetric, IdenticalIsOne, ZeroDenominator) |
| Dice.Bigrams | src/dice.cc:19-22 | at most one bigram per position but the last; empty exactly for a one-character string |
| Dice.BigramAt | src/dice.cc:20 | the bigram s.substr(k, 2) at a position before the last (definition, no contract) |
| Dice.BigramsUpTo | src/dice.cc:19-22 | the set of bigrams starting before position n (definition, no contract; see BigramsStep and BigramsUpToSize) |
| Dice.BigramSet | src/dice.cc:19-20 | the loop builds exactly the set of bigrams |
| Dice.CountShared | src/dice.cc:24-26 | the count is the size of the intersection |
| Dice.DiceCoeff | src/dice.cc:14-29 | returns exactly Dice(s1, s2): Zero for an empty string, else twice the shared bigrams over the bigram total |
| Dice.NumeratorAtMostDenominator | src/dice.cc:28 | the numerator never exceeds the denominator |
| Dice.Symmetric | src/dice.cc:14-29 | the coefficient is symmetric in the two strings |
| Dice.IdenticalIsOne | src/dice.cc:14-29 | a string of two or more characters compared with itself gives numerator == denominator > 0 |
| Dice.ZeroDenominator | src/dice.cc:28 | the denominator is 0 exactly when both strings have one character, and then the result is 0/0 |

## Left out

- The host-database binding in `src/mymetrics.cc` is not part of this model: argument checks, `setlocale`, the multibyte-to-wide conversion (`mbstowcs`) and returning results to the host. The strings are taken as already-decoded sequences of code points.
- `towupper` depends on the locale. `ToUpper` models only ASCII a-z and the Latin-1 lower-case block U+00E0..U+00FE (except U+00F7). Every other character is treated as having no upper-case form.
- Floating point: the Jaro and Winkler formulas are computed over exact reals. IEEE rounding is not modelled. For the same reason, the self-test checks of the form `floor(100 * ...) == 70` (`src/mymetrics.cc:145-147`) are not stated.
- The Levenshtein self-test vector (`src/mymetrics.cc:139`, distance 9 between two Cyrillic phrases) is not proved. It is a concrete evaluation of an 18 by 19 table, not a general property.
- JaroWinkler.JaroWinklerDist: the source stores `wcslen` results in `int` (`src/jarowinkler.cc:28-29`), which truncates for strings longer than 2^31 - 1 characters. The model uses unbounded lengths.
- Dice.DiceCoeff: the shared-bigram count is an `int` and is doubled (`src/dice.cc:24-28`). Overflow, for more than 2^30 shared bigrams, is not modelled.
- Levenshtein.LevenshteinDist: requires that the two strings are not both empty. In that case the source returns `column[0]`, which was never written.
- Levenshtein.LevenshteinDist: column entries and lengths are unsigned 32-bit in the source. Wrap-around, for strings of 2^32 characters or more, is not modelled.
- `dmetaphone` keeps the word length in an `int`. Words longer than 2^31 - 1 characters, where that length would overflow, are not modelled.
- The string length comes from `wcslen`, so an embedded NUL ends the string in the source. The model's sequences have no terminator: a string is its whole sequence.
- `dmetaphone` returns its two codes in a `vector`. The model returns a pair, and `dmetaphone_eq`'s element-wise `equal` becomes a comparison of both components.
- `dice_coeff` iterates over a `std::set` in sorted order. `CountShared` picks the elements in arbitrary order, which does not change the count. The final floating-point division is left undone, and the numerator and denominator are returned instead.
- MetaphoneRules.StepVowel: the contract states only the shape of the emission (alphabet symbols, at most three per code, advance 1 to 4); the letter conditions are the function body, transcribed from the cascade and exercised by the worked encodings in `MetaphoneExamples`.
- MetaphoneRules.StepB: the contract states only the shape of the emission (alphabet symbols, at most three per code, advance 1 to 4); the letter conditions are the function body, transcribed from the cascade and exercised by the worked encodings in `MetaphoneExamples`.
- MetaphoneRules.StepC: the contract states only the shape of the emission (alphabet symbols, at most three per code, advance 1 to 4); the letter conditions are the function body, transcribed from the cascade; no worked encoding in `MetaphoneExamples` reaches this rule.
- MetaphoneRules.StepCH: the contract states only the shape of the emission (alphabet symbols, at most three per code, advance 1 to 4); the letter conditions are the function body, transcribed from the cascade; no worked encoding in `MetaphoneExamples` reaches this rule.
- MetaphoneRules.StepD: the contract states only the shape of the emission (alphabet symbols, at most three per code, advance 1 to 4); the letter conditions are the function body, transcribed from the cascade; no worked encoding in `MetaphoneExamples` reaches this rule.
- MetaphoneRules.StepG: the contract states only the shape of the emission (alphabet symbols, at most three per code, advance 1 to 4); the letter conditions are the function body, transcribed from the cascade; no worked encoding in `MetaphoneExamples` reaches this rule.
- MetaphoneRules.StepGH: the contract states only the shape of the emission (alphabet symbols, at most three per code, advance 1 to 4); the letter conditions are the function body, transcribed from the cascade; no worked encoding in `MetaphoneExamples` reaches this rule.
- MetaphoneRules.StepH: the contract states only the shape of the emission (alphabet symbols, at most three per code, advance 1 to 4); the letter conditions are the function body, transcribed from the cascade; no worked encoding in `MetaphoneExamples` reaches this rule.
- MetaphoneRules.StepJ: the contract states only the shape of the emission (alphabet symbols, at most three per code, advance 1 to 4); the letter conditions are the function body, transcribed from the cascade; no worked encoding in `MetaphoneExamples` reaches this rule.
- MetaphoneRules.StepL: the contract states only the shape of the emission (alphabet symbols, at most three per code, advance 1 to 4); the letter conditions are the function body, transcribed from the cascade and exercised by the worked encodings in `MetaphoneExamples`.
- MetaphoneRules.StepM: the contract states only the shape of the emission (alphabet symbols, at most three per code, advance 1 to 4); the letter conditions are the function body, transcribed from the cascade and exercised by the worked encodings in `MetaphoneExamples`.
- MetaphoneRules.StepP: the contract states only the shape of the emission (alphabet symbols, at most three per code, advance 1 to 4); the letter conditions are the function body, transcribed from the cascade and exercised by the worked encodings in `MetaphoneExamples`.
- MetaphoneRules.StepR: the contract states only the shape of the emission (alphabet symbols, at most three per code, advance 1 to 4); the letter conditions are the function body, transcribed from the cascade and exercised by the worked encodings in `MetaphoneExamples`.
- MetaphoneRules.StepS: the contract states only the shape of the emission (alphabet symbols, at most three per code, advance 1 to 4); the letter conditions are the function body, transcribed from the cascade and exercised by the worked encodings in `MetaphoneExamples`.
- MetaphoneRules.StepSC: the contract states only the shape of the emission (alphabet symbols, at most three per code, advance 1 to 4); the letter conditions are the function body, transcribed from the cascade; no worked encoding in `MetaphoneExamples` reaches this rule.
- MetaphoneRules.StepT: the contract states only the shape of the emission (alphabet symbols, at most three per code, advance 1 to 4); the letter conditions are the function body, transcribed from the cascade and exercised by the worked encodings in `MetaphoneExamples`.
- MetaphoneRules.StepW: the contract states only the shape of the emission (alphabet symbols, at most three per code, advance 1 to 4); the letter conditions are the function body, transcribed from the cascade; no worked encoding in `MetaphoneExamples` reaches this rule.
- MetaphoneRules.StepX: the contract states only the shape of the emission (alphabet symbols, at most three per code, advance 1 to 4); the letter conditions are the function body, transcribed from the cascade; no worked encoding in `MetaphoneExamples` reaches this rule.
- MetaphoneRules.StepZ: the contract states only the shape of the emission (alphabet symbols, at most three per code, advance 1 to 4); the letter conditions are the function body, transcribed from the cascade; no worked encoding in `MetaphoneExamples` reaches this rule.
- MetaphoneRules.WLead: the contract states only the shape of the word-initial W lead (at most one alphabet symbol per code); which lead applies is the function body.
- MetaphoneRules.WRest: the contract states only the shape of the W rules after the lead (at most two alphabet symbols per code); the conditions are the function body.
- MetaphoneRules.Step: the contract states only the shape of every emission (the default case is stated by `StepDefault`); the dispatch to the letter rules and the inline Ç, F, K, N, Ñ, Q and V cases are the function body.
- MetaphoneExamples.EncodeAlleWord: stated for fewer than 1000 blocks only. The bound comes from the example's own helper lemmas, whose buffers are required to be shorter than 5000 characters (`n < 5000`, `k < 1000`); the encoding itself has no such limit.
