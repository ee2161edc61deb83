/**
  The Double Metaphone encoder (dmetaphone) and its equality predicate
  (dmetaphone_eq).

  `DMetaphone` is the encoder as the source runs it: copy and pad the word,
  upper-case the copy in place, apply the two pre-loop rules, run the main
  loop until the cursor passes the word or both codes hold 32 symbols, then
  overwrite position 32 of an over-long code with NUL.  `Encode` is the same
  computation written as a recursive function (`Scan` follows the loop one
  pass per call); the lemmas below state the encoder's properties about it.
*/
module Metaphone {
  import opened MetaphonePrimitives
  import opened MetaphoneRules

  /** max_length: the code length the main loop aims at. */
  const MaxLength: nat := 32

  /** The loop's variables: the cursor and the two codes. */
  datatype State = State(current: int, primary: Str, secondary: Str)

  /** The working buffer: the word followed by five blanks, upper-cased. */
  function Original(str: Str): (o: Str)
    ensures |o| == |str| + |Padding|
    ensures forall i :: 0 <= i < |str| ==> o[i] == ToUpper(str[i])
    ensures forall i :: |str| <= i < |o| ==> o[i] == ' '
  {
    var padded := str + Padding;
    assert forall i :: |str| <= i < |padded| ==> padded[i] == ' ';
    UpperAll(padded)
  }

  /** The two pre-loop rules.  Of the silent initial clusters only "GN" is
      tested (the candidate loop stops after its first entry), and an initial
      X writes S to both codes. */
  function Start(o: Str): (st: State)
    ensures st.current == (if |o| >= 2 && o[..2] == "GN" then 1 else 0) + (if GetAt(o, 0) == 'X' then 1 else 0)
    ensures GetAt(o, 0) == 'X' ==> st.primary == "S" && st.secondary == "S"
    ensures GetAt(o, 0) != 'X' ==> st.primary == "" && st.secondary == ""
  {
    var current := if StringAt(o, 0, 2, ["GN", "KN", "PN", "WR", "PS"]) then 1 else 0;
    if GetAt(o, 0) == 'X' then State(current + 1, "S", "S") else State(current, "", "")
  }

  /** One pass of the cascade on the buffer `o`, as a function of the cursor. */
  function Cascade(o: Str, length: int): int -> Emission {
    cur => Step(o, length, cur)
  }

  /** The main loop from state `st`, one call per pass, for a pass function
      `pass` from the cursor to what the pass emits.  The encoder runs it with
      `Cascade(o, length)`; the properties of the loop that do not depend on the
      letter rules are proved for every pass function. */
  function Scan(pass: int -> Emission, length: int, st: State): State
    decreases length - st.current
  {
    if !(|st.primary| < MaxLength || |st.secondary| < MaxLength) then st
    else if st.current >= length then st
    else
      var e := pass(st.current);
      Scan(pass, length, State(st.current + e.advance, st.primary + e.primary, st.secondary + e.secondary))
  }

  /** The post-loop step: an over-long code gets NUL at position 32, through
      set_at, which keeps the length; the code is NOT shortened. */
  function Truncate(code: Str): (r: Str)
    ensures |r| == |code|
    ensures forall i :: 0 <= i < |code| && i != MaxLength ==> r[i] == code[i]
    ensures |code| > MaxLength ==> r[MaxLength] == '\0'
  {
    if |code| > MaxLength then SetAt(code, MaxLength, '\0') else code
  }

  /** The pair of codes dmetaphone returns for `str`. */
  function Encode(str: Str): (Str, Str) {
    var o := Original(str);
    var r := Scan(Cascade(o, |str|), |str|, Start(o));
    (Truncate(r.primary), Truncate(r.secondary))
  }

  /** dmetaphone, as the source runs it. */
  method DMetaphone(str: Str) returns (primary: Str, secondary: Str)
    ensures (primary, secondary) == Encode(str)
  {
    var length := |str|;
    var padded := str + Padding;
    var buffer := new char[|padded|](i requires 0 <= i < |padded| => padded[i]);
    MakeUpper(buffer);
    var original := buffer[..];
    assert original == Original(str);

    var current := 0;
    primary, secondary := "", "";
    if StringAt(original, 0, 2, ["GN", "KN", "PN", "WR", "PS"]) {
      current := current + 1;
    }
    if GetAt(original, 0) == 'X' {
      primary := primary + "S";
      secondary := secondary + "S";
      current := current + 1;
    }

    assert State(current, primary, secondary) == Start(original);
    var r := MainLoop(original, length, State(current, primary, secondary));
    primary, secondary := r.primary, r.secondary;

    if |primary| > MaxLength {
      primary := SetAt(primary, MaxLength, '\0');
    }
    if |secondary| > MaxLength {
      secondary := SetAt(secondary, MaxLength, '\0');
    }
  }

  /** The main loop of dmetaphone: while either code is shorter than 32, stop
      at the end of the word, otherwise apply one pass of the cascade. */
  method MainLoop(original: Str, length: int, st: State) returns (r: State)
    ensures r == Scan(Cascade(original, length), length, st)
  {
    var current, primary, secondary := st.current, st.primary, st.secondary;
    while |primary| < MaxLength || |secondary| < MaxLength
      invariant Scan(Cascade(original, length), length, State(current, primary, secondary)) == Scan(Cascade(original, length), length, st)
      decreases length - current
    {
      if current >= length {
        break;
      }
      var e := Step(original, length, current);
      primary := primary + e.primary;
      secondary := secondary + e.secondary;
      current := current + e.advance;
    }
    r := State(current, primary, secondary);
  }

  /** Words that dmetaphone_eq reports as sounding alike: the primary codes are
      equal and the secondary codes are equal. */
  predicate SoundsAlike(a: Str, b: Str) {
    Encode(a).0 == Encode(b).0 && Encode(a).1 == Encode(b).1
  }

  /** dmetaphone_eq: encode both words and compare the two code pairs in order. */
  method DMetaphoneEq(a: Str, b: Str) returns (eq: bool)
    ensures eq <==> SoundsAlike(a, b)
  {
    var p1, s1 := DMetaphone(a);
    var p2, s2 := DMetaphone(b);
    eq := p1 == p2 && s1 == s2;
  }

  // ---------------------------------------------------------------------------
  // Properties of the main loop

  /** The number of passes the main loop makes from `st`. */
  function Passes(pass: int -> Emission, length: int, st: State): nat
    decreases length - st.current
  {
    if !(|st.primary| < MaxLength || |st.secondary| < MaxLength) then 0
    else if st.current >= length then 0
    else
      var e := pass(st.current);
      1 + Passes(pass, length, State(st.current + e.advance, st.primary + e.primary, st.secondary + e.secondary))
  }

  /** Each pass moves the cursor forward, so the loop makes at most one pass
      per remaining character; each pass appends at most three symbols to a
      code; codes only grow at the end; and the loop stops only with the cursor
      past the word or both codes at 32 or more. */
  lemma {:induction false} ScanProgress(pass: int -> Emission, length: int, st: State)
    requires forall c :: WellFormed(pass(c))
    ensures var r := Scan(pass, length, st);
      && Passes(pass, length, st) <= (if st.current < length then length - st.current else 0)
      && st.current <= r.current
      && (st.current < length ==> r.current <= length + 3)
      && |st.primary| <= |r.primary| <= |st.primary| + 3 * Passes(pass, length, st)
      && |st.secondary| <= |r.secondary| <= |st.secondary| + 3 * Passes(pass, length, st)
      && r.primary[..|st.primary|] == st.primary
      && r.secondary[..|st.secondary|] == st.secondary
      && (r.current >= length || (|r.primary| >= MaxLength && |r.secondary| >= MaxLength))
    decreases length - st.current
  {
    if !(|st.primary| < MaxLength || |st.secondary| < MaxLength) || st.current >= length {
    } else {
      var e := pass(st.current);
      var next := State(st.current + e.advance, st.primary + e.primary, st.secondary + e.secondary);
      ScanProgress(pass, length, next);
      var r := Scan(pass, length, next);
      assert r.primary[..|st.primary|] == r.primary[..|next.primary|][..|st.primary|];
      assert r.secondary[..|st.secondary|] == r.secondary[..|next.secondary|][..|st.secondary|];
    }
  }

  /** Symbols appended by the loop all come from the code alphabet. */
  lemma {:induction false} ScanSymbols(pass: int -> Emission, length: int, st: State)
    requires forall c :: WellFormed(pass(c))
    requires IsCode(st.primary) && IsCode(st.secondary)
    ensures IsCode(Scan(pass, length, st).primary) && IsCode(Scan(pass, length, st).secondary)
    decreases length - st.current
  {
    if !(|st.primary| < MaxLength || |st.secondary| < MaxLength) || st.current >= length {
    } else {
      var e := pass(st.current);
      var next := State(st.current + e.advance, st.primary + e.primary, st.secondary + e.secondary);
      CodeConcat(st.primary, e.primary);
      CodeConcat(st.secondary, e.secondary);
      ScanSymbols(pass, length, next);
    }
  }

  /** Every pass of the cascade is well formed. */
  lemma CascadeWellFormed(o: Str, length: int)
    ensures forall c :: WellFormed(Cascade(o, length)(c))
  {
    forall c ensures WellFormed(Cascade(o, length)(c)) {
      assert Cascade(o, length)(c) == Step(o, length, c);
    }
  }

  // ---------------------------------------------------------------------------
  // Properties of the encoder

  /** A returned code: symbols of the alphabet, except that position 32 of a
      code longer than 32 holds the NUL written by the post-loop step. */
  predicate IsReturnedCode(c: Str) {
    forall i :: 0 <= i < |c| ==> if i == MaxLength then c[i] == '\0' else IsSymbol(c[i])
  }

  lemma EncodeAlphabet(str: Str)
    ensures IsReturnedCode(Encode(str).0) && IsReturnedCode(Encode(str).1)
  {
    var o := Original(str);
    CascadeWellFormed(o, |str|);
    ScanSymbols(Cascade(o, |str|), |str|, Start(o));
  }

  /** The loop makes at most |str| passes, and no more than 3 symbols per pass
      reach either code. */
  lemma EncodeLengthBound(str: Str)
    ensures |Encode(str).0| <= 1 + 3 * |str|
    ensures |Encode(str).1| <= 1 + 3 * |str|
  {
    var o := Original(str);
    CascadeWellFormed(o, |str|);
    ScanProgress(Cascade(o, |str|), |str|, Start(o));
  }

  /** Either both codes reached 32 symbols, or the loop consumed the whole word. */
  lemma EncodeStopsAtEndOrCap(str: Str)
    ensures var o := Original(str); var r := Scan(Cascade(o, |str|), |str|, Start(o));
      r.current >= |str| || (|Encode(str).0| >= MaxLength && |Encode(str).1| >= MaxLength)
  {
    var o := Original(str);
    CascadeWellFormed(o, |str|);
    ScanProgress(Cascade(o, |str|), |str|, Start(o));
  }

  /** The empty word: five blanks, no pre-loop rule, no pass. */
  lemma EncodeEmpty()
    ensures Encode("") == ("", "")
  {
    var o := Original("");
    assert o == "     ";
    assert Substr(o, 0, 2) == "  ";
  }

  /** An initial X is written S in both codes (e.g. 'Xavier'). */
  lemma InitialX(str: Str)
    requires |str| > 0 && ToUpper(str[0]) == 'X'
    ensures |Encode(str).0| > 0 && Encode(str).0[0] == 'S'
    ensures |Encode(str).1| > 0 && Encode(str).1[0] == 'S'
  {
    var o := Original(str);
    var st := Start(o);
    assert st.primary == "S" && st.secondary == "S";
    CascadeWellFormed(o, |str|);
    ScanProgress(Cascade(o, |str|), |str|, st);
    var r := Scan(Cascade(o, |str|), |str|, st);
    assert r.primary[0] == r.primary[..1][0] && r.secondary[0] == r.secondary[..1][0];
    assert Encode(str) == (Truncate(r.primary), Truncate(r.secondary));
  }

  /** An initial "GN" skips the G before the loop starts. */
  lemma InitialGN(str: Str)
    requires |str| >= 2 && ToUpper(str[0]) == 'G' && ToUpper(str[1]) == 'N'
    ensures Start(Original(str)) == State(1, "", "")
  {
    var o := Original(str);
    assert o[..2] == "GN";
  }

  /** What the first pass from `st` appends stays at the front of the codes. */
  lemma ScanFirstPass(pass: int -> Emission, length: int, st: State)
    requires forall c :: WellFormed(pass(c))
    requires (|st.primary| < MaxLength || |st.secondary| < MaxLength) && st.current < length
    ensures var e := pass(st.current); var r := Scan(pass, length, st);
      && |st.primary + e.primary| <= |r.primary| && r.primary[..|st.primary + e.primary|] == st.primary + e.primary
      && |st.secondary + e.secondary| <= |r.secondary| && r.secondary[..|st.secondary + e.secondary|] == st.secondary + e.secondary
  {
    var e := pass(st.current);
    ScanProgress(pass, length, State(st.current + e.advance, st.primary + e.primary, st.secondary + e.secondary));
  }

  /** An initial K is written K in both codes. */
  lemma InitialKStep(o: Str, length: int)
    requires |o| > 0 && o[0] == 'K'
    ensures Step(o, length, 0).primary == "K" && Step(o, length, 0).secondary == "K"
  {
    assert Char(o, 0) == 'K';
  }

  /** An initial "KN" is NOT skipped: only the first candidate of the silent
      clusters is compared, so the K is encoded as the word's first sound
      (e.g. 'Knight' gets codes starting with K). */
  lemma InitialKNotSkipped(str: Str)
    requires |str| >= 1 && ToUpper(str[0]) == 'K'
    ensures Start(Original(str)) == State(0, "", "")
    ensures |Encode(str).0| > 0 && Encode(str).0[0] == 'K'
    ensures |Encode(str).1| > 0 && Encode(str).1[0] == 'K'
  {
    var o := Original(str);
    var pass := Cascade(o, |str|);
    assert Start(o) == State(0, "", "") by {
      assert o[..2] != "GN" by { assert o[0] == 'K'; }
    }
    InitialKStep(o, |str|);
    assert pass(0) == Step(o, |str|, 0);
    CascadeWellFormed(o, |str|);
    ScanFirstPass(pass, |str|, State(0, "", ""));
    var r := Scan(pass, |str|, State(0, "", ""));
    assert "" + "K" == "K";
    assert r.primary[0] == r.primary[..1][0] && r.secondary[0] == r.secondary[..1][0];
    assert Encode(str) == (Truncate(r.primary), Truncate(r.secondary));
  }

  /** dmetaphone_eq is reflexive and symmetric. */
  lemma SoundsAlikeReflexive(a: Str)
    ensures SoundsAlike(a, a)
  {
  }

  lemma SoundsAlikeSymmetric(a: Str, b: Str)
    ensures SoundsAlike(a, b) <==> SoundsAlike(b, a)
  {
  }
}
