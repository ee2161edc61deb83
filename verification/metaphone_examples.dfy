/**
  Concrete behaviour of the encoder: the three dmetaphone_eq vectors the
  repository asserts, and a family of words whose primary code grows past 32
  symbols, which the post-loop step does not shorten.

  Each `...Pass` lemma evaluates one pass of the main loop on a buffer
  described by its characters; the vector lemmas chain the passes.
*/
module MetaphoneExamples {
  import opened MetaphonePrimitives
  import opened MetaphoneRules
  import opened Metaphone

  /** The cascade dispatches an S under the cursor to the S rules. */
  lemma StepOnS(o: Str, length: int, cur: int)
    requires Char(o, cur) == 'S'
    ensures Step(o, length, cur) == StepS(o, length, cur)
  {
  }

  // ---------------------------------------------------------------------------
  // "peke" and "pique" both encode to (PK, PK)

  predicate PekeBuffer(o: Str) {
    |o| == 9 && o[0] == 'P' && o[1] == 'E' && o[2] == 'K' && o[3] == 'E' && o[4] == ' '
  }

  lemma PekePasses(o: Str)
    requires PekeBuffer(o)
    ensures Scan(Cascade(o, 4), 4, State(0, "", "")) == State(4, "PK", "PK")
  {
    assert Substr(o, 1, 1) == "E";
    assert Step(o, 4, 0) == Emission("P", "P", 1);
    assert "" + "P" == "P";
    PekeTail(o);
  }

  lemma PekeTail(o: Str)
    requires PekeBuffer(o)
    ensures Scan(Cascade(o, 4), 4, State(1, "P", "P")) == State(4, "PK", "PK")
  {
    assert Step(o, 4, 1) == Emission("", "", 1);
    assert Step(o, 4, 2) == Emission("K", "K", 1);
    assert Step(o, 4, 3) == Emission("", "", 1);
    assert "P" + "" == "P" && "P" + "K" == "PK" && "PK" + "" == "PK";
  }

  lemma EncodePeke()
    ensures Encode("peke") == ("PK", "PK")
  {
    var o := Original("peke");
    assert PekeBuffer(o);
    assert Start(o) == State(0, "", "") by { assert Substr(o, 0, 2) == "PE"; }
    PekePasses(o);
  }

  predicate PiqueBuffer(o: Str) {
    |o| == 10 && o[0] == 'P' && o[1] == 'I' && o[2] == 'Q' && o[3] == 'U' && o[4] == 'E' && o[5] == ' '
  }

  lemma PiquePasses(o: Str)
    requires PiqueBuffer(o)
    ensures Scan(Cascade(o, 5), 5, State(0, "", "")) == State(5, "PK", "PK")
  {
    assert Substr(o, 1, 1) == "I";
    assert Step(o, 5, 0) == Emission("P", "P", 1);
    assert "" + "P" == "P";
    PiqueTail(o);
  }

  lemma PiqueTail(o: Str)
    requires PiqueBuffer(o)
    ensures Scan(Cascade(o, 5), 5, State(1, "P", "P")) == State(5, "PK", "PK")
  {
    assert Step(o, 5, 1) == Emission("", "", 1);
    assert Step(o, 5, 2) == Emission("K", "K", 1);
    assert Step(o, 5, 3) == Emission("", "", 1);
    assert Step(o, 5, 4) == Emission("", "", 1);
    assert "P" + "" == "P" && "P" + "K" == "PK" && "PK" + "" == "PK";
  }

  lemma EncodePique()
    ensures Encode("pique") == ("PK", "PK")
  {
    var o := Original("pique");
    assert PiqueBuffer(o);
    assert Start(o) == State(0, "", "") by { assert Substr(o, 0, 2) == "PI"; }
    PiquePasses(o);
  }

  /** dmetaphone_eq("peke", "pique") holds. */
  lemma PekeSoundsLikePique()
    ensures SoundsAlike("peke", "pique")
  {
    EncodePeke();
    EncodePique();
  }

  // ---------------------------------------------------------------------------
  // "mère" and "mer" both encode to (MR, MR)

  /** The M pass at the start of a word whose second letter is not M. */
  lemma InitialMPass(o: Str, length: int)
    requires 2 <= length && |o| == length + 5 && |o| <= IntMax
    requires o[0] == 'M' && o[1] != 'M'
    ensures Scan(Cascade(o, length), length, State(0, "", "")) == Scan(Cascade(o, length), length, State(1, "M", "M"))
  {
    WrappedOffsets(o, -1, 3, ["UMB"]);
    assert Step(o, length, 0) == Emission("M", "M", 1);
    assert "" + "M" == "M";
  }

  predicate MereBuffer(o: Str) {
    |o| == 9 && o[0] == 'M' && o[1] == '\U{C8}' && o[2] == 'R' && o[3] == 'E' && o[4] == ' '
  }

  lemma MereTail(o: Str)
    requires MereBuffer(o)
    ensures Scan(Cascade(o, 4), 4, State(1, "M", "M")) == State(4, "MR", "MR")
  {
    assert Step(o, 4, 1) == Emission("", "", 1);
    assert Step(o, 4, 2) == Emission("R", "R", 1);
    assert Step(o, 4, 3) == Emission("", "", 1);
    assert "M" + "" == "M" && "M" + "R" == "MR" && "MR" + "" == "MR";
  }

  lemma EncodeMere()
    ensures Encode("m\U{E8}re") == ("MR", "MR")
  {
    var o := Original("m\U{E8}re");
    assert MereBuffer(o);
    assert Start(o) == State(0, "", "") by { assert Substr(o, 0, 2) == "M\U{C8}"; }
    InitialMPass(o, 4);
    MereTail(o);
  }

  predicate MerBuffer(o: Str) {
    |o| == 8 && o[0] == 'M' && o[1] == 'E' && o[2] == 'R' && o[3] == ' '
  }

  lemma MerTail(o: Str)
    requires MerBuffer(o)
    ensures Scan(Cascade(o, 3), 3, State(1, "M", "M")) == State(3, "MR", "MR")
  {
    assert Step(o, 3, 1) == Emission("", "", 1);
    assert Substr(o, 0, 2) == "ME";
    assert Step(o, 3, 2) == Emission("R", "R", 1);
    assert "M" + "" == "M" && "M" + "R" == "MR";
  }

  lemma EncodeMer()
    ensures Encode("mer") == ("MR", "MR")
  {
    var o := Original("mer");
    assert MerBuffer(o);
    assert Start(o) == State(0, "", "") by { assert Substr(o, 0, 2) == "ME"; }
    InitialMPass(o, 3);
    MerTail(o);
  }

  /** dmetaphone_eq("mère", "mer") holds: the accented vowel is consumed
      silently and the final R is kept. */
  lemma MereSoundsLikeMer()
    ensures SoundsAlike("m\U{E8}re", "mer")
  {
    EncodeMere();
    EncodeMer();
  }

  // ---------------------------------------------------------------------------
  // "bloat" and "float" differ in their first symbol

  /** From empty codes, the primary code starts with what the first pass appends. */
  lemma FirstSymbolScan(pass: int -> Emission, length: int)
    requires forall c :: WellFormed(pass(c))
    requires 0 < length && |pass(0).primary| >= 1
    ensures var r := Scan(pass, length, State(0, "", ""));
      |r.primary| >= 1 && r.primary[0] == pass(0).primary[0]
  {
    var e := pass(0);
    ScanFirstPass(pass, length, State(0, "", ""));
    var r := Scan(pass, length, State(0, "", ""));
    assert "" + e.primary == e.primary;
    assert r.primary[0] == r.primary[..|e.primary|][0];
  }

  /** The primary code of a word starts with what the first pass appends,
      when no pre-loop rule fires. */
  lemma FirstSymbol(str: Str, e: Emission)
    requires |str| >= 1 && ToUpper(str[0]) != 'X' && ToUpper(str[0]) != 'G'
    requires Step(Original(str), |str|, 0) == e && |e.primary| >= 1
    ensures |Encode(str).0| >= 1 && Encode(str).0[0] == e.primary[0]
  {
    var o := Original(str);
    var pass := Cascade(o, |str|);
    assert Start(o) == State(0, "", "") by {
      assert o[..2] != "GN" by { assert o[0] != 'G'; }
    }
    CascadeWellFormed(o, |str|);
    FirstSymbolScan(pass, |str|);
  }

  /** An initial B not followed by B is written P. */
  lemma InitialBStep(o: Str, length: int)
    requires |o| >= 2 && o[0] == 'B' && o[1] != 'B'
    ensures Step(o, length, 0) == Emission("P", "P", 1)
  {
    assert Char(o, 0) == 'B' && Char(o, 1) != 'B';
  }

  /** An initial F not followed by F is written F. */
  lemma InitialFStep(o: Str, length: int)
    requires |o| >= 2 && o[0] == 'F' && o[1] != 'F'
    ensures Step(o, length, 0) == Emission("F", "F", 1)
  {
    assert Char(o, 0) == 'F' && Char(o, 1) != 'F';
  }

  lemma BloatFirst()
    ensures |Encode("bloat").0| >= 1 && Encode("bloat").0[0] == 'P'
  {
    var b := Original("bloat");
    assert b[0] == 'B' && b[1] == 'L';
    InitialBStep(b, 5);
    FirstSymbol("bloat", Emission("P", "P", 1));
  }

  lemma FloatFirst()
    ensures |Encode("float").0| >= 1 && Encode("float").0[0] == 'F'
  {
    var f := Original("float");
    assert f[0] == 'F' && f[1] == 'L';
    InitialFStep(f, 5);
    FirstSymbol("float", Emission("F", "F", 1));
  }

  /** The buffer of a five-letter word ending in "LOAT". */
  predicate LoatBuffer(o: Str) {
    |o| == 10 && o[1] == 'L' && o[2] == 'O' && o[3] == 'A' && o[4] == 'T' && o[5..] == "     "
  }

  /** A single L before a vowel is written L. */
  lemma LoatStepL(o: Str)
    requires LoatBuffer(o)
    ensures Step(o, 5, 1) == Emission("L", "L", 1)
  {
    assert Char(o, 1) == 'L' && Char(o, 2) == 'O';
  }

  /** A final T is written T. */
  lemma LoatStepT(o: Str)
    requires LoatBuffer(o)
    ensures Step(o, 5, 4) == Emission("T", "T", 1)
  {
    assert Char(o, 4) == 'T';
    assert Substr(o, 4, 4) == "T   " && Substr(o, 4, 3) == "T  " && Substr(o, 4, 2) == "T ";
    assert Substr(o, 5, 1) == " ";
  }

  /** After the first letter, "LOAT" appends LT to both codes. */
  lemma LoatTail(o: Str, p: Str)
    requires LoatBuffer(o) && |p| == 1
    ensures Scan(Cascade(o, 5), 5, State(1, p, p)) == State(5, p + "LT", p + "LT")
  {
    var pass, pl := Cascade(o, 5), p + "L";
    LoatStepL(o);
    assert Step(o, 5, 2) == Emission("", "", 1) by { assert Char(o, 2) == 'O'; }
    assert Step(o, 5, 3) == Emission("", "", 1) by { assert Char(o, 3) == 'A'; }
    LoatStepT(o);
    assert pl + "" == pl && pl + "T" == p + "LT";
    assert Scan(pass, 5, State(1, p, p)) == Scan(pass, 5, State(2, pl, pl));
    assert Scan(pass, 5, State(2, pl, pl)) == Scan(pass, 5, State(3, pl, pl));
    assert Scan(pass, 5, State(3, pl, pl)) == Scan(pass, 5, State(4, pl, pl));
    assert Scan(pass, 5, State(4, pl, pl)) == Scan(pass, 5, State(5, p + "LT", p + "LT"));
  }

  lemma EncodeBloat()
    ensures Encode("bloat") == ("PLT", "PLT")
  {
    var o := Original("bloat");
    assert LoatBuffer(o) && o[0] == 'B';
    assert Start(o) == State(0, "", "") by { assert Substr(o, 0, 2) == "BL"; }
    InitialBStep(o, 5);
    var pass := Cascade(o, 5);
    assert "" + "P" == "P";
    assert Scan(pass, 5, State(0, "", "")) == Scan(pass, 5, State(1, "P", "P"));
    LoatTail(o, "P");
    assert "P" + "LT" == "PLT";
    assert Encode("bloat") == (Truncate("PLT"), Truncate("PLT"));
  }

  lemma EncodeFloat()
    ensures Encode("float") == ("FLT", "FLT")
  {
    var o := Original("float");
    assert LoatBuffer(o) && o[0] == 'F';
    assert Start(o) == State(0, "", "") by { assert Substr(o, 0, 2) == "FL"; }
    InitialFStep(o, 5);
    var pass := Cascade(o, 5);
    assert "" + "F" == "F";
    assert Scan(pass, 5, State(0, "", "")) == Scan(pass, 5, State(1, "F", "F"));
    LoatTail(o, "F");
    assert "F" + "LT" == "FLT";
    assert Encode("float") == (Truncate("FLT"), Truncate("FLT"));
  }

  /** dmetaphone_eq("bloat", "float") fails: the codes start with P and F. */
  lemma BloatNotLikeFloat()
    ensures !SoundsAlike("bloat", "float")
  {
    BloatFirst();
    FloatFirst();
  }

  // ---------------------------------------------------------------------------
  // Codes longer than 32 symbols

  function Blocks(k: nat): (s: Str)
    ensures |s| == 4 * k
  {
    if k == 0 then "" else Blocks(k - 1) + "LLEA"
  }

  /** "ALLEALLE...ALLEAS": k blocks of LLEA between an initial A and a final S. */
  function AlleWord(k: nat): (w: Str)
    ensures |w| == 4 * k + 2
  {
    "A" + Blocks(k) + "S"
  }

  lemma {:induction false} BlocksAt(k: nat, i: nat)
    requires i < 4 * k
    ensures Blocks(k)[i] == "LLEA"[i % 4]
  {
    if i < 4 * (k - 1) {
      BlocksAt(k - 1, i);
    }
  }

  /** Block j of a buffer: the four characters after position 4j. */
  function Block(o: Str, j: nat): Str {
    if 4 * j + 5 <= |o| then o[4 * j + 1..4 * j + 5] else ""
  }

  /** The working buffer of AlleWord(k): A, k blocks LLEA, S, five blanks. */
  predicate AlleBuffer(o: Str, k: nat) {
    && |o| == 4 * k + 7
    && o[0] == 'A'
    && (forall j :: 0 <= j < k ==> Block(o, j) == "LLEA")
    && o[4 * k + 1..] == "S     "
  }

  lemma AlleOriginal(k: nat)
    ensures AlleBuffer(Original(AlleWord(k)), k)
  {
    var w := AlleWord(k);
    var o := Original(w);
    forall j | 0 <= j < k ensures Block(o, j) == "LLEA" {
      forall i | 0 <= i < 4 ensures o[4 * j + 1 + i] == "LLEA"[i] {
        BlocksAt(k, 4 * j + i);
        assert w[4 * j + 1 + i] == Blocks(k)[4 * j + i];
      }
    }
    assert w[4 * k + 1] == 'S';
  }

  function Ls(j: nat): (s: Str)
    ensures |s| == j
  {
    if j == 0 then "" else Ls(j - 1) + "L"
  }

  /** The first L of an "ALLE" when the word ends in "AS": L goes to the
      primary code only and the cursor skips the LL. */
  lemma AlleStepL(o: Str, n: int, c: int)
    requires |o| == n + 5 && 4 <= n < 5000 && 1 <= c < n - 3
    requires o[c - 1] == 'A' && o[c] == 'L' && o[c + 1] == 'L' && o[c + 2] == 'E'
    requires o[n - 2] == 'A' && o[n - 1] == 'S'
    ensures Step(o, n, c) == Emission("L", "", 2)
  {
    assert Substr(o, n - 2, 2) == "AS";
    assert Substr(o, c - 1, 4) == "ALLE";
    assert StepL(o, n, c) == Emission("L", "", 2);
  }

  /** A vowel after the first position is silent. */
  lemma VowelStep(o: Str, n: int, c: int)
    requires |o| == n + 5 && n < 5000 && 0 < c < n && o[c] in "AEIOUY"
    ensures Step(o, n, c) == Emission("", "", 1)
  {
  }

  /** Around a final S after "EA" (or after the initial A when the word is
      "AS") none of the S rules before the last one applies: neither the
      "ISL" nor the "SH", "SIO", "SIA", "SIAN" rules ... */
  lemma FinalSHead(o: Str, n: int)
    requires |o| == n + 5 && 2 <= n < 5000
    requires o[n - 2] == 'A' && o[n - 1] == 'S' && o[n] == ' '
    ensures var c := n - 1;
      && !Has(o, c - 1, 3, ["ISL", "YSL"]) && !Has(o, c, 2, ["SH"])
      && !Has(o, c, 3, ["SIO", "SIA"]) && !Has(o, c, 4, ["SIAN"])
  {
    var c := n - 1;
    assert Substr(o, c - 1, 3)[0] == 'A';
    assert Substr(o, c, 2)[1] == ' ' && Substr(o, c, 3)[1] == ' ' && Substr(o, c, 4)[1] == ' ';
  }

  /** ... nor the "SZ", "SC" and "-AIS"/"-OIS" rules. */
  lemma FinalSTail(o: Str, n: int)
    requires |o| == n + 5 && 2 <= n < 5000
    requires o[n - 2] == 'A' && o[n] == ' '
    requires n > 2 ==> o[n - 3] == 'E'
    ensures var c := n - 1;
      && !Has(o, c + 1, 1, ["Z"]) && !Has(o, c + 1, 1, ["S", "Z"])
      && !Has(o, c, 2, ["SC"]) && !Has(o, c - 2, 2, ["AI", "OI"])
  {
    var c := n - 1;
    assert Substr(o, c + 1, 1)[0] == ' ' && Substr(o, c, 2)[1] == ' ';
    if n > 2 {
      assert Substr(o, c - 2, 2)[0] == 'E';
    } else {
      WrappedOffsets(o, -1, 2, ["AI", "OI"]);
    }
  }

  /** The final S is written S in both codes. */
  lemma FinalS(o: Str, n: int)
    requires |o| == n + 5 && 2 <= n < 5000
    requires o[n - 2] == 'A' && o[n - 1] == 'S' && o[n] == ' ' && o[n + 1] == ' ' && o[n + 2] == ' '
    requires n > 2 ==> o[n - 3] == 'E'
    ensures Step(o, n, n - 1) == Emission("S", "S", 1)
  {
    FinalSRules(o, n);
    StepOnS(o, n, n - 1);
  }

  lemma FinalSRules(o: Str, n: int)
    requires |o| == n + 5 && 2 <= n < 5000
    requires o[n - 2] == 'A' && o[n - 1] == 'S' && o[n] == ' ' && o[n + 1] == ' ' && o[n + 2] == ' '
    requires n > 2 ==> o[n - 3] == 'E'
    ensures StepS(o, n, n - 1) == Emission("S", "S", 1)
  {
    FinalSHead(o, n);
    FinalSTail(o, n);
  }

  /** The characters around the end of an AlleWord buffer. */
  lemma AlleEnd(o: Str, k: nat)
    requires AlleBuffer(o, k)
    ensures var n := 4 * k + 2;
      && o[n - 2] == 'A' && o[n - 1] == 'S' && o[n] == ' ' && o[n + 1] == ' ' && o[n + 2] == ' '
      && (n > 2 ==> o[n - 3] == 'E')
  {
    var n := 4 * k + 2;
    if k > 0 {
      assert Block(o, k - 1) == "LLEA";
      assert o[n - 2] == Block(o, k - 1)[3];
      assert o[n - 3] == Block(o, k - 1)[2];
    }
    var tail := o[n - 1..];
    assert tail == "S     ";
    assert o[n - 1] == tail[0] && o[n] == tail[1] && o[n + 1] == tail[2] && o[n + 2] == tail[3];
  }

  /** The characters around block j of an AlleWord buffer. */
  lemma AlleBlock(o: Str, k: nat, j: nat)
    requires AlleBuffer(o, k) && j < k
    ensures var c := 4 * j + 1;
      o[c - 1] == 'A' && o[c] == 'L' && o[c + 1] == 'L' && o[c + 2] == 'E' && o[c + 3] == 'A'
  {
    var c := 4 * j + 1;
    var blk := Block(o, j);
    assert blk == "LLEA" && blk == o[c..c + 4];
    assert o[c] == blk[0] && o[c + 1] == blk[1] && o[c + 2] == blk[2] && o[c + 3] == blk[3];
    if j > 0 {
      assert Block(o, j - 1) == "LLEA";
      assert o[c - 1] == Block(o, j - 1)[3];
    }
  }

  /** No pre-loop rule applies to an AlleWord, and its initial A is written A. */
  lemma AlleFirst(o: Str, k: nat)
    requires AlleBuffer(o, k) && k < 1000
    ensures Start(o) == State(0, "", "")
    ensures Step(o, 4 * k + 2, 0) == Emission("A", "A", 1)
  {
    AlleStart(o, k);
  }

  lemma AlleStart(o: Str, k: nat)
    requires AlleBuffer(o, k)
    ensures Start(o) == State(0, "", "")
  {
    assert o[1] == (if k == 0 then 'S' else 'L') by {
      if k == 0 {
        assert o[1] == o[1..][0];
      } else {
        assert Block(o, 0) == "LLEA";
        assert o[1] == Block(o, 0)[0];
      }
    }
    assert Substr(o, 0, 2) != "GN" by { assert Substr(o, 0, 2)[0] == 'A'; }
  }

  /** The passes over block j: L to the primary code only, then two silent vowels. */
  predicate AllePasses(pass: int -> Emission, j: nat) {
    && pass(4 * j + 1) == Emission("L", "", 2)
    && pass(4 * j + 3) == Emission("", "", 1)
    && pass(4 * j + 4) == Emission("", "", 1)
  }

  /** The passes over blocks j .. k-1. */
  predicate AllePassesFrom(pass: int -> Emission, j: nat, k: nat) {
    forall i :: j <= i < k ==> AllePasses(pass, i)
  }

  /** From block j on, each block appends one L to the primary code only, and
      the final S is appended to both. */
  lemma {:induction false} AlleScan(pass: int -> Emission, k: nat, j: nat)
    requires j <= k
    requires AllePassesFrom(pass, j, k)
    requires pass(4 * k + 1) == Emission("S", "S", 1)
    ensures Scan(pass, 4 * k + 2, State(4 * j + 1, "A" + Ls(j), "A")) == State(4 * k + 2, "A" + Ls(k) + "S", "AS")
    decreases k - j
  {
    var n := 4 * k + 2;
    var p := "A" + Ls(j);
    if j == k {
      assert "A" + "S" == "AS";
    } else {
      assert AllePasses(pass, j);
      assert "A" + "" == "A" && p + "L" + "" == p + "L";
      assert Scan(pass, n, State(4 * j + 1, p, "A")) == Scan(pass, n, State(4 * j + 3, p + "L", "A"));
      assert Scan(pass, n, State(4 * j + 3, p + "L", "A")) == Scan(pass, n, State(4 * j + 4, p + "L", "A"));
      assert Scan(pass, n, State(4 * j + 4, p + "L", "A")) == Scan(pass, n, State(4 * j + 5, p + "L", "A"));
      assert p + "L" == "A" + Ls(j + 1);
      AlleScan(pass, k, j + 1);
    }
  }

  /** The passes of the cascade over block i of an AlleWord buffer. */
  lemma AlleBlockPasses(o: Str, k: nat, i: nat)
    requires AlleBuffer(o, k) && i < k < 1000
    ensures AllePasses(Cascade(o, 4 * k + 2), i)
  {
    var n := 4 * k + 2;
    AlleEnd(o, k);
    AlleBlock(o, k, i);
    AlleStepL(o, n, 4 * i + 1);
    VowelStep(o, n, 4 * i + 3);
    VowelStep(o, n, 4 * i + 4);
  }

  /** The passes of the cascade over a whole AlleWord buffer. */
  lemma AlleCascade(o: Str, k: nat)
    requires AlleBuffer(o, k) && k < 1000
    ensures Cascade(o, 4 * k + 2)(0) == Emission("A", "A", 1)
    ensures AllePassesFrom(Cascade(o, 4 * k + 2), 0, k)
    ensures Cascade(o, 4 * k + 2)(4 * k + 1) == Emission("S", "S", 1)
  {
    AlleFirst(o, k);
    AlleEnd(o, k);
    FinalS(o, 4 * k + 2);
    var pass := Cascade(o, 4 * k + 2);
    forall i | 0 <= i < k ensures AllePasses(pass, i) {
      AlleBlockPasses(o, k, i);
    }
  }

  /** The whole loop over an AlleWord of k blocks, for any pass function that
      behaves as the cascade does on it. */
  lemma AlleRun(pass: int -> Emission, k: nat)
    requires pass(0) == Emission("A", "A", 1)
    requires AllePassesFrom(pass, 0, k)
    requires pass(4 * k + 1) == Emission("S", "S", 1)
    ensures Scan(pass, 4 * k + 2, State(0, "", "")) == State(4 * k + 2, "A" + Ls(k) + "S", "AS")
  {
    var n := 4 * k + 2;
    assert "" + "A" == "A" && "A" + Ls(0) == "A";
    assert Scan(pass, n, State(0, "", "")) == Scan(pass, n, State(1, "A" + Ls(0), "A"));
    AlleScan(pass, k, 0);
  }

  /** The primary code of AlleWord(k) is A, then one L per block, then S, while
      the secondary code stays AS; the loop never stops early because the
      secondary code stays short. */
  lemma EncodeAlleWord(k: nat)
    requires k < 1000
    ensures Encode(AlleWord(k)).0 == Truncate("A" + Ls(k) + "S")
    ensures Encode(AlleWord(k)).1 == "AS"
  {
    var o := Original(AlleWord(k));
    AlleOriginal(k);
    AlleStart(o, k);
    AlleCascade(o, k);
    AlleRun(Cascade(o, 4 * k + 2), k);
  }

  /** Returned codes can be longer than 32: for AlleWord(31) the primary code
      has 33 symbols, the NUL written at position 32 does not shorten it, and
      the final S is still there. */
  lemma CodeLongerThanCap()
    ensures |Encode(AlleWord(31)).0| == 33
    ensures Encode(AlleWord(31)).0[MaxLength] == '\0'
    ensures Encode(AlleWord(31)).0[0] == 'A' && Encode(AlleWord(31)).0[31] == 'L'
  {
    EncodeAlleWord(31);
    var p := "A" + Ls(31) + "S";
    assert |p| == 33 && p[31] == Ls(31)[30];
    LsAt(31, 30);
  }

  lemma {:induction false} LsAt(j: nat, i: nat)
    requires i < j
    ensures Ls(j)[i] == 'L'
  {
    if i < j - 1 {
      LsAt(j - 1, i);
    }
  }
}
