/**
  The per-letter rule cascade of the Double Metaphone main loop.

  One pass of the loop looks at the character under the cursor, walks that
  letter's conditions top-down, and the first one that holds decides what is
  appended to the primary and the secondary code and how far the cursor
  moves.  Each pass is modelled as a pure function from the padded, upper-cased
  buffer `o`, the real word length and the cursor to an `Emission`; the loop
  that applies it lives in module Metaphone.

  `length` and `current` are `int` in the encoder, and every offset such as
  `current - 2` is handed to an `unsigned int` parameter; `Char`, `Vowel` and
  `Has` make that conversion explicit.
*/
module MetaphoneRules {
  import opened MetaphonePrimitives

  /** How far one pass moves the cursor: every rule consumes one to four letters. */
  type Advance = n: nat | 1 <= n <= 4 witness 1

  /** What one pass appends to each code, and the cursor advance. */
  datatype Emission = Emission(primary: Str, secondary: Str, advance: Advance)

  /** The symbols the cascade can append; "0" stands for the TH sound. */
  predicate IsSymbol(c: char) {
    c in "AFHJKLMNPRSTX0"
  }

  predicate IsCode(s: Str) {
    forall i :: 0 <= i < |s| ==> IsSymbol(s[i])
  }

  /** Every pass appends at most three symbols of the alphabet to each code. */
  predicate WellFormed(e: Emission) {
    |e.primary| <= 3 && |e.secondary| <= 3 && IsCode(e.primary) && IsCode(e.secondary)
  }

  /** get_at(original, i) with an int offset. */
  function Char(o: Str, i: int): char {
    GetAt(o, U32(i))
  }

  /** is_vowel(original, i) with an int offset. */
  function Vowel(o: Str, i: int): bool {
    IsVowel(o, U32(i))
  }

  /** string_at(original, i, n, candidates...) with an int offset. */
  function Has(o: Str, i: int, n: nat, candidates: seq<Str>): bool {
    StringAt(o, U32(i), n, candidates)
  }

  /** Initial vowels map to A; all others are silent. */
  function StepVowel(cur: int): (e: Emission)
    ensures WellFormed(e)
  {
    if cur == 0 then Emission("A", "A", 1) else Emission("", "", 1)
  }

  /** B is written P; BB is consumed as one letter. */
  function StepB(o: Str, cur: int): (e: Emission)
    ensures WellFormed(e)
  {
    Emission("P", "P", if Char(o, cur + 1) == 'B' then 2 else 1)
  }

  /** The CH digraph, once CHIA has been ruled out. */
  function StepCH(o: Str, cur: int): (e: Emission)
    ensures WellFormed(e)
  {
    if cur > 0 && Has(o, cur, 4, ["CHAE"]) then
      Emission("K", "X", 2)
    else if cur == 0 &&
            (Has(o, cur + 1, 5, ["HARAC", "HARIS"]) ||
             Has(o, cur + 1, 3, ["HOR", "HYM", "HIA", "HEM"])) &&
            !Has(o, 0, 5, ["CHORE"]) then
      Emission("K", "K", 2)
    else if (Has(o, 0, 4, ["VAN ", "VON "]) || Has(o, 0, 3, ["SCH"])) ||
            Has(o, cur - 2, 6, ["ORCHES", "ARCHIT", "ORCHID"]) ||
            Has(o, cur + 2, 1, ["T", "S"]) ||
            ((Has(o, cur - 1, 1, ["A", "O", "U", "E"]) || cur == 0) &&
             Has(o, cur + 2, 1, ["L", "R", "N", "M", "B", "H", "F", "V", "W", " "])) then
      Emission("K", "K", 2)
    else if cur > 0 then
      if Has(o, 0, 2, ["MC"]) then Emission("K", "K", 2) else Emission("X", "K", 2)
    else
      Emission("X", "X", 2)
  }

  function StepC(o: Str, cur: int): (e: Emission)
    ensures WellFormed(e)
  {
    if cur > 1 && !Vowel(o, cur - 2) && Has(o, cur - 1, 3, ["ACH"]) &&
       (Char(o, cur + 2) != 'I' &&
        (Char(o, cur + 2) != 'E' || Has(o, cur - 2, 6, ["BACHER", "MACHER"]))) then
      Emission("K", "K", 2)
    else if cur == 0 && Has(o, cur, 6, ["CAESAR"]) then
      Emission("S", "S", 2)
    else if Has(o, cur, 4, ["CHIA"]) then
      Emission("K", "K", 2)
    else if Has(o, cur, 2, ["CH"]) then
      StepCH(o, cur)
    else if Has(o, cur, 2, ["CZ"]) && !Has(o, cur - 2, 4, ["WICZ"]) then
      Emission("S", "X", 2)
    else if Has(o, cur + 1, 3, ["CIA"]) then
      Emission("X", "X", 3)
    else if Has(o, cur, 2, ["CC"]) && !(cur == 1 && Char(o, 0) == 'M') then
      if Has(o, cur + 2, 1, ["I", "E", "H"]) && !Has(o, cur + 2, 2, ["HU"]) then
        if (cur == 1 && Char(o, cur - 1) == 'A') || Has(o, cur - 1, 5, ["UCCEE", "UCCES"]) then
          Emission("KS", "KS", 3)
        else
          Emission("X", "X", 3)
      else
        Emission("K", "K", 2)
    else if Has(o, cur, 2, ["CK", "CG", "CQ"]) then
      Emission("K", "K", 2)
    else if Has(o, cur, 2, ["CI", "CE", "CY"]) then
      if Has(o, cur, 3, ["CIO", "CIE", "CIA"]) then Emission("S", "X", 2) else Emission("S", "S", 2)
    else
      Emission("K", "K",
        if Has(o, cur + 1, 2, [" C", " Q", " G"]) then 3
        else if Has(o, cur + 1, 1, ["C", "K", "Q"]) && !Has(o, cur + 1, 2, ["CE", "CI"]) then 2
        else 1)
  }

  function StepD(o: Str, cur: int): (e: Emission)
    ensures WellFormed(e)
  {
    if Has(o, cur, 2, ["DG"]) then
      if Has(o, cur + 2, 1, ["I", "E", "Y"]) then Emission("J", "J", 3) else Emission("TK", "TK", 2)
    else if Has(o, cur, 2, ["DT", "DD"]) then
      Emission("T", "T", 2)
    else
      Emission("T", "T", 1)
  }

  /** GH, entered when the next letter is H. */
  function StepGH(o: Str, cur: int): (e: Emission)
    ensures WellFormed(e)
  {
    if cur > 0 && !Vowel(o, cur - 1) then
      Emission("K", "K", 2)
    else if cur < 3 && cur == 0 then
      if Char(o, cur + 2) == 'I' then Emission("J", "J", 2) else Emission("K", "K", 2)
    else if (cur > 1 && Has(o, cur - 2, 1, ["B", "H", "D"])) ||
            (cur > 2 && Has(o, cur - 3, 1, ["B", "H", "D"])) ||
            (cur > 3 && Has(o, cur - 4, 1, ["B", "H"])) then
      Emission("", "", 2)
    else if cur > 2 && Char(o, cur - 1) == 'U' && Has(o, cur - 3, 1, ["C", "G", "L", "R", "T"]) then
      Emission("F", "F", 2)
    else if cur > 0 && Char(o, cur - 1) != 'I' then
      Emission("K", "K", 2)
    else
      Emission("", "", 2)
  }

  function StepG(o: Str, cur: int): (e: Emission)
    ensures WellFormed(e)
  {
    if Char(o, cur + 1) == 'H' then
      StepGH(o, cur)
    else if Char(o, cur + 1) == 'N' then
      if cur == 1 && Vowel(o, 0) && !IsSlavoGermanic(o) then
        Emission("KN", "N", 2)
      else if !Has(o, cur + 2, 2, ["EY"]) && Char(o, cur + 1) != 'Y' && !IsSlavoGermanic(o) then
        Emission("N", "KN", 2)
      else
        Emission("KN", "KN", 2)
    else if Has(o, cur + 1, 2, ["LI"]) && !IsSlavoGermanic(o) then
      Emission("KL", "L", 2)
    else if cur == 0 &&
            (Char(o, cur + 1) == 'Y' ||
             Has(o, cur + 1, 2, ["ES", "EP", "EB", "EL", "EY", "IB", "IL", "IN", "IE", "EI", "ER"])) then
      Emission("K", "J", 2)
    else if (Has(o, cur + 1, 2, ["ER"]) || Char(o, cur + 1) == 'Y') &&
            !Has(o, 0, 6, ["DANGER", "RANGER", "MANGER"]) &&
            !Has(o, cur - 1, 1, ["E", "I"]) &&
            !Has(o, cur - 1, 3, ["RGY", "OGY"]) then
      Emission("K", "J", 2)
    else if Has(o, cur + 1, 1, ["E", "I", "Y"]) || Has(o, cur - 1, 4, ["AGGI", "OGGI"]) then
      if (Has(o, 0, 4, ["VAN ", "VON "]) || Has(o, 0, 3, ["SCH"])) || Has(o, cur + 1, 2, ["ET"]) then
        Emission("K", "K", 2)
      else if Has(o, cur + 1, 4, ["IER "]) then
        Emission("J", "J", 2)
      else
        Emission("J", "K", 2)
    else
      Emission("K", "K", if Char(o, cur + 1) == 'G' then 2 else 1)
  }

  /** H is kept only word-initially or after a vowel, and before a vowel. */
  function StepH(o: Str, cur: int): (e: Emission)
    ensures WellFormed(e)
  {
    if (cur == 0 || Vowel(o, cur - 1)) && Vowel(o, cur + 1) then
      Emission("H", "H", 2)
    else
      Emission("", "", 1)
  }

  function StepJ(o: Str, length: int, cur: int): (e: Emission)
    ensures WellFormed(e)
  {
    var last := length - 1;
    if Has(o, cur, 4, ["JOSE"]) || Has(o, 0, 4, ["SAN "]) then
      if (cur == 0 && Char(o, cur + 4) == ' ') || Has(o, 0, 4, ["SAN "]) then
        Emission("H", "H", 1)
      else
        Emission("J", "H", 1)
    else
      var advance := if Char(o, cur + 1) == 'J' then 2 else 1;
      if cur == 0 && !Has(o, cur, 4, ["JOSE"]) then
        Emission("J", "A", advance)
      else if Vowel(o, cur - 1) && !IsSlavoGermanic(o) &&
              (Char(o, cur + 1) == 'A' || Char(o, cur + 1) == 'O') then
        Emission("J", "H", advance)
      else if cur == last then
        Emission("J", "", advance)
      else if !Has(o, cur + 1, 1, ["L", "T", "K", "S", "N", "M", "B", "Z"]) &&
              !Has(o, cur - 1, 1, ["S", "K", "L"]) then
        Emission("J", "J", advance)
      else
        Emission("", "", advance)
  }

  /** LL, with the Spanish endings that leave the secondary code silent. */
  function StepL(o: Str, length: int, cur: int): (e: Emission)
    ensures WellFormed(e)
  {
    var last := length - 1;
    if Char(o, cur + 1) == 'L' then
      if (cur == length - 3 && Has(o, cur - 1, 4, ["ILLO", "ILLA", "ALLE"])) ||
         ((Has(o, last - 1, 2, ["AS", "OS"]) || Has(o, last, 1, ["A", "O"])) &&
          Has(o, cur - 1, 4, ["ALLE"])) then
        Emission("L", "", 2)
      else
        Emission("L", "L", 2)
    else
      Emission("L", "L", 1)
  }

  /** M, swallowing the B of a final "-UMB" or "-UMBER". */
  function StepM(o: Str, length: int, cur: int): (e: Emission)
    ensures WellFormed(e)
  {
    var last := length - 1;
    Emission("M", "M",
      if (Has(o, cur - 1, 3, ["UMB"]) && (cur + 1 == last || Has(o, cur + 2, 2, ["ER"]))) ||
         Char(o, cur + 1) == 'M' then 2 else 1)
  }

  function StepP(o: Str, cur: int): (e: Emission)
    ensures WellFormed(e)
  {
    if Char(o, cur + 1) == 'H' then
      Emission("F", "F", 2)
    else
      Emission("P", "P", if Has(o, cur + 1, 1, ["P", "B"]) then 2 else 1)
  }

  /** R, silent in the primary code after a French "-IE" at the end. */
  function StepR(o: Str, length: int, cur: int): (e: Emission)
    ensures WellFormed(e)
  {
    var last := length - 1;
    var advance := if Char(o, cur + 1) == 'R' then 2 else 1;
    if cur == last && !IsSlavoGermanic(o) && Has(o, cur - 2, 2, ["IE"]) &&
       !Has(o, cur - 4, 2, ["ME", "MA"]) then
      Emission("", "R", advance)
    else
      Emission("R", "R", advance)
  }

  /** SC, Schlesinger's rule. */
  function StepSC(o: Str, cur: int): (e: Emission)
    ensures WellFormed(e)
  {
    if Char(o, cur + 2) == 'H' then
      if Has(o, cur + 3, 2, ["OO", "ER", "EN", "UY", "ED", "EM"]) then
        if Has(o, cur + 3, 2, ["ER", "EN"]) then Emission("X", "SK", 3) else Emission("SK", "SK", 3)
      else if cur == 0 && !Vowel(o, 3) && Char(o, 3) != 'W' then
        Emission("X", "S", 3)
      else
        Emission("X", "X", 3)
    else if Has(o, cur + 2, 1, ["I", "E", "Y"]) then
      Emission("S", "S", 3)
    else
      Emission("SK", "SK", 3)
  }

  function StepS(o: Str, length: int, cur: int): (e: Emission)
    ensures WellFormed(e)
  {
    var last := length - 1;
    if Has(o, cur - 1, 3, ["ISL", "YSL"]) then
      Emission("", "", 1)
    else if cur == 0 && Has(o, cur, 5, ["SUGAR"]) then
      Emission("X", "S", 1)
    else if Has(o, cur, 2, ["SH"]) then
      if Has(o, cur + 1, 4, ["HEIM", "HOEK", "HOLM", "HOLZ"]) then Emission("S", "S", 2) else Emission("X", "X", 2)
    else if Has(o, cur, 3, ["SIO", "SIA"]) || Has(o, cur, 4, ["SIAN"]) then
      if !IsSlavoGermanic(o) then Emission("S", "X", 3) else Emission("S", "S", 3)
    else if (cur == 0 && Has(o, cur + 1, 1, ["M", "N", "L", "W"])) || Has(o, cur + 1, 1, ["Z"]) then
      Emission("S", "X", if Has(o, cur + 1, 1, ["Z"]) then 2 else 1)
    else if Has(o, cur, 2, ["SC"]) then
      StepSC(o, cur)
    else
      var advance := if Has(o, cur + 1, 1, ["S", "Z"]) then 2 else 1;
      if cur == last && Has(o, cur - 2, 2, ["AI", "OI"]) then
        Emission("", "S", advance)
      else
        Emission("S", "S", advance)
  }

  /** T, with TH written "0" except in 'Thomas', 'Thames' and Germanic names. */
  function StepT(o: Str, cur: int): (e: Emission)
    ensures WellFormed(e)
  {
    if Has(o, cur, 4, ["TION"]) then
      Emission("X", "X", 3)
    else if Has(o, cur, 3, ["TIA", "TCH"]) then
      Emission("X", "X", 3)
    else if Has(o, cur, 2, ["TH"]) || Has(o, cur, 3, ["TTH"]) then
      if Has(o, cur + 2, 2, ["OM", "AM"]) || Has(o, 0, 4, ["VAN ", "VON "]) || Has(o, 0, 3, ["SCH"]) then
        Emission("T", "T", 2)
      else
        Emission("0", "T", 2)
    else
      Emission("T", "T", if Has(o, cur + 1, 1, ["T", "D"]) then 2 else 1)
  }

  /** The word-initial lead of W: A/F before a vowel, A/A before H. */
  function WLead(o: Str, cur: int): (lead: (Str, Str))
    ensures |lead.0| <= 1 && |lead.1| <= 1 && IsCode(lead.0) && IsCode(lead.1)
  {
    if cur == 0 && (Vowel(o, cur + 1) || Has(o, cur, 2, ["WH"])) then
      if Vowel(o, cur + 1) then ("A", "F") else ("A", "A")
    else ("", "")
  }

  /** The W rules that run on after the lead: Polish "-EWSKI" and German
      words get F in the secondary code, "WICZ"/"WITZ" is written TS/FX. */
  function WRest(o: Str, length: int, cur: int): (e: Emission)
    ensures WellFormed(e) && |e.primary| <= 2 && |e.secondary| <= 2
  {
    var last := length - 1;
    if (cur == last && Vowel(o, cur - 1)) ||
       Has(o, cur - 1, 5, ["EWSKI", "EWSKY", "OWSKI", "OWSKY"]) ||
       Has(o, 0, 3, ["SCH"]) then
      Emission("", "F", 1)
    else if Has(o, cur, 4, ["WICZ", "WITZ"]) then
      Emission("TS", "FX", 4)
    else
      Emission("", "", 1)
  }

  lemma CodeConcat(a: Str, b: Str)
    requires IsCode(a) && IsCode(b)
    ensures IsCode(a + b)
  {
    assert forall i :: |a| <= i < |a + b| ==> (a + b)[i] == b[i - |a|];
  }

  /** W: the word-initial lead (A/F or A/A) is appended first and the rest of
      the rules then run on, so a word-initial "WICZ" writes three symbols to
      each code and moves the cursor by four. */
  function StepW(o: Str, length: int, cur: int): (e: Emission)
    ensures WellFormed(e)
  {
    if Has(o, cur, 2, ["WR"]) then
      Emission("R", "R", 2)
    else
      var lead := WLead(o, cur);
      var rest := WRest(o, length, cur);
      CodeConcat(lead.0, rest.primary);
      CodeConcat(lead.1, rest.secondary);
      Emission(lead.0 + rest.primary, lead.1 + rest.secondary, rest.advance)
  }

  /** X, silent after a French "-IAU", "-EAU", "-AU" or "-OU" at the end. */
  function StepX(o: Str, length: int, cur: int): (e: Emission)
    ensures WellFormed(e)
  {
    var last := length - 1;
    var advance := if Has(o, cur + 1, 1, ["C", "X"]) then 2 else 1;
    if !(cur == last && (Has(o, cur - 3, 3, ["IAU", "EAU"]) || Has(o, cur - 2, 2, ["AU", "OU"]))) then
      Emission("KS", "KS", advance)
    else
      Emission("", "", advance)
  }

  function StepZ(o: Str, cur: int): (e: Emission)
    ensures WellFormed(e)
  {
    if Char(o, cur + 1) == 'H' then
      Emission("J", "J", 2)
    else
      var advance := if Char(o, cur + 1) == 'Z' then 2 else 1;
      if Has(o, cur + 1, 2, ["ZO", "ZI", "ZA"]) ||
         (IsSlavoGermanic(o) && (cur > 0 && Char(o, cur - 1) != 'T')) then
        Emission("S", "TS", advance)
      else
        Emission("S", "S", advance)
  }

  /** One pass of the main loop: dispatch on the character under the cursor.
      Characters without a rule (digits, blanks, other accented letters) are
      consumed silently. */
  function Step(o: Str, length: int, cur: int): (e: Emission)
    ensures WellFormed(e)
  {
    match Char(o, cur)
    case 'A' | 'E' | 'I' | 'O' | 'U' | 'Y' => StepVowel(cur)
    case 'B' => StepB(o, cur)
    case '\U{C7}' => Emission("S", "S", 1)
    case 'C' => StepC(o, cur)
    case 'D' => StepD(o, cur)
    case 'F' => Emission("F", "F", if Char(o, cur + 1) == 'F' then 2 else 1)
    case 'G' => StepG(o, cur)
    case 'H' => StepH(o, cur)
    case 'J' => StepJ(o, length, cur)
    case 'K' => Emission("K", "K", if Char(o, cur + 1) == 'K' then 2 else 1)
    case 'L' => StepL(o, length, cur)
    case 'M' => StepM(o, length, cur)
    case 'N' => Emission("N", "N", if Char(o, cur + 1) == 'N' then 2 else 1)
    case '\U{D1}' => Emission("N", "N", 1)
    case 'P' => StepP(o, cur)
    case 'Q' => Emission("K", "K", if Char(o, cur + 1) == 'Q' then 2 else 1)
    case 'R' => StepR(o, length, cur)
    case 'S' => StepS(o, length, cur)
    case 'T' => StepT(o, cur)
    case 'V' => Emission("F", "F", if Char(o, cur + 1) == 'V' then 2 else 1)
    case 'W' => StepW(o, length, cur)
    case 'X' => StepX(o, length, cur)
    case 'Z' => StepZ(o, cur)
    case _ => Emission("", "", 1)
  }

  /** The letters the cascade has a rule for. */
  predicate HasRule(c: char) {
    c in "AEIOUYBCDFGHJKLMNPQRSTVWXZ\U{C7}\U{D1}"
  }

  /** The default case: a character without a rule (a digit, a blank, any
      other accented letter) is consumed silently. */
  lemma StepDefault(o: Str, length: int, cur: int)
    requires !HasRule(Char(o, cur))
    ensures Step(o, length, cur) == Emission("", "", 1)
  {
  }
}
