/**
  Bounded primitives of the Double Metaphone encoder: the character accessor,
  the in-place setter, the vowel test, the Slavo-Germanic origin heuristic,
  the candidate matcher and the upper-casing pass.

  Positions are `unsigned int` in the encoder: every call site passes an `int`
  expression (often `current - 1` .. `current - 4`), which C++ converts modulo
  2^32.  The primitives therefore take the converted value as a `nat`, and
  `U32` is that conversion.
*/
module MetaphonePrimitives {

  type Str = seq<char>

  /** Number of distinct `unsigned int` values. */
  const UintRange: int := 0x1_0000_0000

  /** Largest length an `int` can hold; the encoder keeps the word length in an `int`. */
  const IntMax: int := 0x7FFF_FFFF

  /** The blanks appended after the word so that lookahead stays inside the buffer. */
  const Padding: Str := "     "

  /** The implicit conversion of an `int` argument to an `unsigned int` parameter. */
  function U32(x: int): (u: nat)
    ensures u < UintRange
    ensures 0 <= x < UintRange ==> u == x
    ensures -UintRange <= x < 0 ==> u == x + UintRange
  {
    x % UintRange
  }

  /** get_at: the character at `pos`, or NUL at and past the end of `s`. */
  function GetAt(s: Str, pos: nat): (c: char)
    ensures pos < |s| ==> c == s[pos]
    ensures |s| <= pos ==> c == '\0'
  {
    if pos >= |s| then '\0' else s[pos]
  }

  /** set_at: overwrite one position in place; out of range the string is untouched.
      The length never changes, so writing NUL does not shorten the string. */
  function SetAt(s: Str, pos: nat, c: char): (r: Str)
    ensures |r| == |s|
    ensures forall i :: 0 <= i < |s| && i != pos ==> r[i] == s[i]
    ensures pos < |s| ==> r[pos] == c
    ensures |s| <= pos ==> r == s
  {
    if pos >= |s| then s else s[pos := c]
  }

  predicate IsVowelChar(c: char) {
    c == 'A' || c == 'E' || c == 'I' || c == 'O' || c == 'U' || c == 'Y'
  }

  /** is_vowel: a position inside `s` holding one of A, E, I, O, U, Y. */
  function IsVowel(s: Str, pos: nat): (r: bool)
    ensures r <==> pos < |s| && s[pos] in "AEIOUY"
  {
    if pos >= |s| then false else IsVowelChar(s[pos])
  }

  predicate OccursAt(s: Str, sub: Str, i: nat) {
    i + |sub| <= |s| && s[i..i + |sub|] == sub
  }

  /** `s.find(sub) != npos`: `sub` occurs somewhere in `s`. */
  predicate Contains(s: Str, sub: Str) {
    exists i | 0 <= i <= |s| - |sub| :: OccursAt(s, sub, i)
  }

  /** is_slavo_germanic: the word holds W, K, CZ or WITZ.  The WITZ test can
      never decide the outcome, since WITZ holds a W. */
  function IsSlavoGermanic(s: Str): (r: bool)
    ensures r <==> 'W' in s || 'K' in s || Contains(s, "CZ")
  {
    ContainsLetter(s, 'W');
    ContainsLetter(s, 'K');
    WitzHasW(s);
    Contains(s, "W") || Contains(s, "K") || Contains(s, "CZ") || Contains(s, "WITZ")
  }

  lemma ContainsLetter(s: Str, c: char)
    ensures Contains(s, [c]) <==> c in s
  {
    if c in s {
      var i :| 0 <= i < |s| && s[i] == c;
      assert s[i..i + 1] == [c];
      assert OccursAt(s, [c], i);
    }
    if Contains(s, [c]) {
      var i :| 0 <= i <= |s| - 1 && OccursAt(s, [c], i);
      assert s[i] == s[i..i + 1][0];
    }
  }

  lemma WitzHasW(s: Str)
    ensures Contains(s, "WITZ") ==> 'W' in s
  {
    if Contains(s, "WITZ") {
      var i :| 0 <= i <= |s| - 4 && OccursAt(s, "WITZ", i);
      assert s[i] == s[i..i + 4][0];
    }
  }

  /** `s.compare(start, length, test) == 0`: the at most `length` characters
      from `start` are exactly `test`. */
  function Substr(s: Str, start: nat, length: nat): (r: Str)
    requires start <= |s|
    ensures |r| <= length && start + |r| <= |s|
    ensures forall i :: 0 <= i < |r| ==> r[i] == s[start + i]
    ensures |r| == length || start + |r| == |s|
  {
    if start + length <= |s| then s[start..start + length] else s[start..]
  }

  /** The body of string_at's do-while loop: fetch the next candidate, report a
      match of a non-empty one, and go round again only while the candidate
      just fetched was empty.  A non-empty candidate that fails ends the loop. */
  function CandidateLoop(s: Str, start: nat, length: nat, candidates: seq<Str>): (r: bool)
    requires start < |s|
    ensures r <==> exists k :: 0 <= k < |candidates| && (forall i :: 0 <= i < k ==> candidates[i] == "") &&
                              candidates[k] != "" && Substr(s, start, length) == candidates[k]
    decreases |candidates|
  {
    if candidates == [] then false
    else
      var test := candidates[0];
      if test != "" && Substr(s, start, length) == test then true
      else if test == "" then CandidateLoop(s, start, length, candidates[1..])
      else false
  }

  /** string_at: false at and past the end of `s`, otherwise the candidate loop.
      The loop's guard continues only after an EMPTY candidate, so of a list
      whose first entry is non-empty only that first entry is ever compared. */
  function StringAt(s: Str, start: nat, length: nat, candidates: seq<Str>): (r: bool)
    ensures r ==> start < |s|
    ensures |candidates| > 0 && candidates[0] != "" ==>
              (r <==> start < |s| && Substr(s, start, length) == candidates[0])
  {
    if start >= |s| then false else CandidateLoop(s, start, length, candidates)
  }

  /** Offsets current-1 .. current-4 that fall before the word wrap to huge
      unsigned values: for any buffer an `int`-length word plus its padding can
      make, every primitive sees them as out of range. */
  lemma WrappedOffsets(s: Str, k: int, length: nat, candidates: seq<Str>)
    requires |s| <= IntMax + |Padding|
    requires -4 <= k < 0
    ensures GetAt(s, U32(k)) == '\0'
    ensures !IsVowel(s, U32(k))
    ensures !StringAt(s, U32(k), length, candidates)
  {
  }

  /** towupper restricted to the mapping the encoder relies on: ASCII a-z and the
      Latin-1 lower-case letters U+00E0..U+00FE (except U+00F7) move down by 0x20,
      so that c-cedilla and n-tilde become the letters the cascade knows. */
  function ToUpper(c: char): (u: char)
    ensures 'a' <= c <= 'z' ==> u == (c as int - 32) as char && 'A' <= u <= 'Z'
    ensures c == '\U{E7}' ==> u == '\U{C7}'
    ensures c == '\U{F1}' ==> u == '\U{D1}'
    ensures '\U{E0}' <= c <= '\U{FE}' && c != '\U{F7}' ==> u == (c as int - 32) as char
    ensures c == '\U{F7}' ==> u == c
    ensures !('a' <= c <= 'z') && !('\U{E0}' <= c <= '\U{FE}') ==> u == c
  {
    if 'a' <= c <= 'z' || ('\U{E0}' <= c <= '\U{FE}' && c != '\U{F7}') then
      (c as int - 32) as char
    else
      c
  }

  /** The word after make_upper: every character mapped by ToUpper. */
  function UpperAll(s: Str): (r: Str)
    ensures |r| == |s|
    ensures forall i :: 0 <= i < |s| ==> r[i] == ToUpper(s[i])
  {
    seq(|s|, i requires 0 <= i < |s| => ToUpper(s[i]))
  }

  /** make_upper: upper-case the buffer in place, one position per step. */
  method MakeUpper(s: array<char>)
    modifies s
    ensures s[..] == UpperAll(old(s[..]))
  {
    var i := 0;
    while i < s.Length
      invariant 0 <= i <= s.Length
      invariant forall k :: 0 <= k < i ==> s[k] == ToUpper(old(s[k]))
      invariant forall k :: i <= k < s.Length ==> s[k] == old(s[k])
    {
      s[i] := ToUpper(s[i]);
      i := i + 1;
    }
  }
}
