/**
 * The amount-to-capitals converter of the quotation program: a non-negative money
 * amount, split into whole yuan and the jiao and fen digits, becomes the capitalised
 * form written on Chinese financial documents (digit words 零..玖, positional units
 * 拾佰仟万亿, and the markers 元, 角, 分, 整).
 *
 * The model follows the routine as written: a zero digit emits no unit (so 万 and 亿
 * are not re-stamped over a zero digit) and a lone 分 gets no 零 in front of it.
 */
module ChineseAmount {
  import opened Wrappers

  /** Positional unit names, indexed by a digit's position counted from the right. */
  const Units: seq<string> :=
    ["", "拾", "佰", "仟", "万", "拾", "佰", "仟", "亿", "拾", "佰", "仟", "万", "拾", "佰", "仟", "亿"]

  /** Digit words, indexed by the digit. */
  const Nums: seq<string> := ["零", "壹", "贰", "叁", "肆", "伍", "陆", "柒", "捌", "玖"]

  /** The characters of the digit words, in digit order. */
  const NumChars: string := "零壹贰叁肆伍陆柒捌玖"

  type Digit = d: nat | d <= 9

  /** Why the routine fails: a '-' reaches the digit loop, or the unit table is too short. */
  datatype AmountError = NegativeAmount | UnitTableOverrun

  function Pow10(k: nat): (r: nat)
    ensures r >= 1
  {
    if k == 0 then 1 else 10 * Pow10(k - 1)
  }

  /** The number written by a digit sequence, most significant digit first. */
  function Value(ds: seq<Digit>): nat
  {
    if ds == [] then 0 else 10 * Value(ds[..|ds| - 1]) + ds[|ds| - 1]
  }

  /** The decimal digits of `n` as `str(n)` writes them: no leading zero, and [0] for 0. */
  function Digits(n: nat): (ds: seq<Digit>)
    ensures |ds| >= 1 && Value(ds) == n
    ensures ds[0] == 0 <==> n == 0
    ensures ds[0] == 0 ==> ds == [0]
  {
    if n < 10 then [n]
    else
      var ds := Digits(n / 10) + [n % 10];
      assert ds[..|ds| - 1] == Digits(n / 10);
      ds
  }

  /** Every digit word is one character, the digit's own entry of NumChars. */
  lemma NumsAreNumChars()
    ensures |Nums| == 10 && |NumChars| == 10
    ensures forall d :: 0 <= d < 10 ==> Nums[d] == [NumChars[d]]
  {
  }

  // ---------------------------------------------------------------------------
  // The integer words, for any unit table and digit-word table
  // ---------------------------------------------------------------------------

  /*
   * The integer words are defined over the two tables the routine reads, passed as
   * parameters; the properties below hold for every pair of tables of the shape the
   * routine's own tables have (DigitWordTable, UnitTable), and RoutineTables shows
   * that `Units` and `Nums` have it.
   */

  /** Ten digit words of one character each, no two of them the same. */
  predicate DigitWordTable(nums: seq<string>)
  {
    && |nums| == 10
    && (forall d :: 0 <= d < 10 ==> |nums[d]| == 1)
    && (forall d, e :: 0 <= d < 10 && 0 <= e < 10 && nums[d][0] == nums[e][0] ==> d == e)
  }

  /** No unit name holds a character of a digit word. */
  predicate UnitTable(units: seq<string>, nums: seq<string>)
    requires DigitWordTable(nums)
  {
    forall p, d :: 0 <= p < |units| && 0 <= d < 10 ==> nums[d][0] !in units[p]
  }

  /** `c` is the character of no digit word. */
  predicate NotDigitChar(nums: seq<string>, c: char)
    requires DigitWordTable(nums)
  {
    forall d :: 0 <= d < 10 ==> nums[d][0] != c
  }

  /** The routine's digit words have the shape the properties below rely on. */
  lemma NumsTable()
    ensures DigitWordTable(Nums)
    ensures forall d :: 0 <= d < 10 ==> Nums[d][0] == NumChars[d]
  {
    NumsAreNumChars();
    forall d, e | 0 <= d < 10 && 0 <= e < 10 && Nums[d][0] == Nums[e][0]
      ensures d == e
    {
      assert DigitOf(NumChars[d]) == d && DigitOf(NumChars[e]) == e;
    }
  }

  /** The unit at position `p` holds no digit-word character. */
  lemma UnitHasNoDigit(p: nat)
    requires p < |Units|
    ensures forall d :: 0 <= d < 10 ==> Nums[d][0] !in Units[p]
  {
    NumsAreNumChars();
    match p
    case 0 => case 1 => case 2 => case 3 => case 4 => case 5 => case 6 => case 7 => case 8 =>
    case 9 => case 10 => case 11 => case 12 => case 13 => case 14 => case 15 => case 16 =>
  }

  /** The routine's own tables have the shape the properties below rely on. */
  lemma RoutineTables()
    ensures |Units| == 17 && DigitWordTable(Nums) && UnitTable(Units, Nums)
    ensures forall d :: 0 <= d < 10 ==> Nums[d][0] == NumChars[d]
  {
    NumsTable();
    forall p | 0 <= p < |Units|
      ensures forall d :: 0 <= d < 10 ==> Nums[d][0] !in Units[p]
    {
      UnitHasNoDigit(p);
    }
  }

  /**
   * What the digit at index `i` of `ds` contributes: nothing when it is zero, and
   * otherwise its digit word and the unit of its position, preceded by one zero word
   * when the digit before it is a zero.
   */
  function DigitChunk(units: seq<string>, nums: seq<string>, ds: seq<Digit>, i: nat): string
    requires i < |ds| <= |units| && |nums| == 10
  {
    if ds[i] == 0 then ""
    else (if i > 0 && ds[i - 1] == 0 then nums[0] else "") + (nums[ds[i]] + units[|ds| - i - 1])
  }

  /** The chunks of the first `k` digits of `ds`, in order. */
  function Chunks(units: seq<string>, nums: seq<string>, ds: seq<Digit>, k: nat): (r: seq<string>)
    requires k <= |ds| <= |units| && |nums| == 10
    ensures |r| == k
  {
    if k == 0 then [] else Chunks(units, nums, ds, k - 1) + [DigitChunk(units, nums, ds, k - 1)]
  }

  /** The strings of `xs` written one after the other. */
  function Concat(xs: seq<string>): string
  {
    if xs == [] then "" else Concat(xs[..|xs| - 1]) + xs[|xs| - 1]
  }

  /** The integer words of the first `k` digits of `ds`: their chunks, one after the other. */
  function IntegerWords(units: seq<string>, nums: seq<string>, ds: seq<Digit>, k: nat): string
    requires k <= |ds| <= |units| && |nums| == 10
  {
    Concat(Chunks(units, nums, ds, k))
  }

  lemma {:induction false} ChunksAt(units: seq<string>, nums: seq<string>, ds: seq<Digit>, k: nat, i: nat)
    requires i < k <= |ds| <= |units| && |nums| == 10
    ensures Chunks(units, nums, ds, k)[i] == DigitChunk(units, nums, ds, i)
  {
    if i < k - 1 {
      ChunksAt(units, nums, ds, k - 1, i);
    }
  }

  /** One more digit of integer words, as the digit loop appends it. */
  lemma WordsStep(units: seq<string>, nums: seq<string>, ds: seq<Digit>, i: nat)
    requires i < |ds| <= |units| && |nums| == 10
    ensures ds[i] == 0 ==> IntegerWords(units, nums, ds, i + 1) == IntegerWords(units, nums, ds, i)
    ensures ds[i] != 0 && i > 0 && ds[i - 1] == 0 ==>
      IntegerWords(units, nums, ds, i + 1)
        == IntegerWords(units, nums, ds, i) + nums[0] + (nums[ds[i]] + units[|ds| - i - 1])
    ensures ds[i] != 0 && !(i > 0 && ds[i - 1] == 0) ==>
      IntegerWords(units, nums, ds, i + 1) == IntegerWords(units, nums, ds, i) + (nums[ds[i]] + units[|ds| - i - 1])
  {
    var xs := Chunks(units, nums, ds, i + 1);
    assert xs[..i] == Chunks(units, nums, ds, i);
    var before := IntegerWords(units, nums, ds, i);
    var tail := nums[ds[i]] + units[|ds| - i - 1];
    assert IntegerWords(units, nums, ds, i + 1) == before + DigitChunk(units, nums, ds, i);
    if ds[i] == 0 {
      assert before + DigitChunk(units, nums, ds, i) == before;
    } else if i > 0 && ds[i - 1] == 0 {
      assert DigitChunk(units, nums, ds, i) == nums[0] + tail;
      assert before + nums[0] + tail == before + (nums[0] + tail);
    } else {
      assert DigitChunk(units, nums, ds, i) == "" + tail == tail;
    }
  }

  /** The jiao and fen words: each non-zero digit's word followed by 角 or 分, in that order. */
  function FractionWords(jiao: Digit, fen: Digit): (r: string)
    ensures r == "" <==> jiao == 0 && fen == 0
    ensures '零' !in r && '整' !in r && '元' !in r
    ensures DecodeFraction(r) == (jiao, fen)
  {
    NumsAreNumChars();
    if jiao == 0 && fen == 0 then ""
    else
      var jiaoWords := if jiao != 0 then Nums[jiao] + "角" else "";
      var fenWords := if fen != 0 then Nums[fen] + "分" else "";
      assert jiaoWords == if jiao != 0 then [NumChars[jiao], '角'] else [];
      assert fenWords == if fen != 0 then [NumChars[fen], '分'] else [];
      jiaoWords + fenWords
  }

  /** The digit a digit-word character stands for (0 for any other character). */
  function DigitOf(c: char): (d: Digit)
    ensures forall k :: 0 <= k < |NumChars| && NumChars[k] == c ==> d == k
  {
    match c
    case '壹' => 1 case '贰' => 2 case '叁' => 3 case '肆' => 4 case '伍' => 5
    case '陆' => 6 case '柒' => 7 case '捌' => 8 case '玖' => 9
    case _ => 0
  }

  /** Reads jiao and fen back from fraction words. */
  function DecodeFraction(s: string): (Digit, Digit)
  {
    if |s| >= 2 && s[1] == '角' then
      (DigitOf(s[0]), if |s| >= 4 && s[3] == '分' then DigitOf(s[2]) else 0)
    else if |s| >= 2 && s[1] == '分' then (0, DigitOf(s[0]))
    else (0, 0)
  }

  /**
   * The capitalised amount: the integer words (零 when there are none), then 元, then
   * the fraction words (整 when there are none). An integer part longer than the unit
   * table fails.
   */
  function AmountWords(yuan: nat, jiao: Digit, fen: Digit): Result<string, AmountError>
  {
    var ds := Digits(yuan);
    if |ds| > |Units| then Err(UnitTableOverrun)
    else
      var iw := YuanWords(yuan);
      var fw := FractionWords(jiao, fen);
      Ok((if iw == "" then Nums[0] else iw) + "元" + (if fw == "" then "整" else fw))
  }

  /**
   * The converter: walks the integer digits from the most significant one, keeping a
   * flag that a zero is pending, then appends 元 and the fraction words.
   */
  method ToChineseAmount(yuan: nat, jiao: Digit, fen: Digit) returns (r: Result<string, AmountError>)
    ensures r == AmountWords(yuan, jiao, fen)
  {
    var digits := Digits(yuan);
    var length := |digits|;
    if length > |Units| {
      // The leading digit of a number this long is not 0, so the first iteration of
      // the digit loop already looks up units[length - 1], past the end of the table.
      return Err(UnitTableOverrun);
    }
    var result := "";
    var zeroFlag := false;
    var i := 0;
    while i < length
      invariant 0 <= i <= length
      invariant result == IntegerWords(Units, Nums, digits, i)
      invariant zeroFlag == (i > 0 && digits[i - 1] == 0)
    {
      WordsStep(Units, Nums, digits, i);
      if digits[i] == 0 {
        zeroFlag := true;
      } else {
        if zeroFlag {
          result := result + Nums[0];
          zeroFlag := false;
        }
        result := result + (Nums[digits[i]] + Units[|digits| - i - 1]);
      }
      i := i + 1;
    }
    var decimalStr := FractionWords(jiao, fen);
    if result == "" {
      result := Nums[0];
    }
    if decimalStr == "" {
      decimalStr := "整";
    }
    return Ok(result + "元" + decimalStr);
  }

  // ---------------------------------------------------------------------------
  // The number of digits and the length of the unit table
  // ---------------------------------------------------------------------------

  /** `n` has at most `k` digits exactly when it is below 10^k. */
  lemma {:induction false} DigitsLength(n: nat, k: nat)
    requires k >= 1
    ensures |Digits(n)| <= k <==> n < Pow10(k)
  {
    if n >= 10 {
      if k == 1 {
        assert |Digits(n)| == |Digits(n / 10)| + 1 >= 2;
      } else {
        DigitsLength(n / 10, k - 1);
        assert n / 10 < Pow10(k - 1) <==> n < 10 * Pow10(k - 1);
      }
    } else {
      assert Pow10(k) == 10 * Pow10(k - 1) >= 10;
    }
  }

  /** The routine fails exactly for amounts of 10^17 yuan or more. */
  lemma OverrunIff(yuan: nat, jiao: Digit, fen: Digit)
    ensures AmountWords(yuan, jiao, fen).Err? <==> yuan >= Pow10(|Units|)
    ensures AmountWords(yuan, jiao, fen).Err? ==> AmountWords(yuan, jiao, fen).error == UnitTableOverrun
  {
    DigitsLength(yuan, |Units|);
  }

  // ---------------------------------------------------------------------------
  // Counting characters
  // ---------------------------------------------------------------------------

  /** How often character `c` occurs in `s`. */
  function Count(c: char, s: string): nat
  {
    if s == [] then 0 else Count(c, s[..|s| - 1]) + (if s[|s| - 1] == c then 1 else 0)
  }

  lemma {:induction false} CountConcat(c: char, a: string, b: string)
    ensures Count(c, a + b) == Count(c, a) + Count(c, b)
  {
    if b != [] {
      assert (a + b)[..|a + b| - 1] == a + b[..|b| - 1];
      CountConcat(c, a, b[..|b| - 1]);
    } else {
      assert a + b == a;
    }
  }

  lemma {:induction false} CountAbsent(c: char, s: string)
    requires c !in s
    ensures Count(c, s) == 0
  {
    if s != [] {
      assert c !in s[..|s| - 1];
      CountAbsent(c, s[..|s| - 1]);
    }
  }

  lemma {:induction false} CountPresent(c: char, s: string)
    requires c in s
    ensures Count(c, s) > 0
  {
    if s[|s| - 1] != c {
      assert c in s[..|s| - 1];
      CountPresent(c, s[..|s| - 1]);
    }
  }

  /** How often `c` occurs in the strings of `xs`, summed. */
  function CountAll(c: char, xs: seq<string>): nat
  {
    if xs == [] then 0 else CountAll(c, xs[..|xs| - 1]) + Count(c, xs[|xs| - 1])
  }

  lemma {:induction false} CountConcatAll(c: char, xs: seq<string>)
    ensures Count(c, Concat(xs)) == CountAll(c, xs)
  {
    if xs != [] {
      CountConcatAll(c, xs[..|xs| - 1]);
      CountConcat(c, Concat(xs[..|xs| - 1]), xs[|xs| - 1]);
    }
  }

  lemma {:induction false} ConcatAbsent(c: char, xs: seq<string>)
    requires forall j :: 0 <= j < |xs| ==> c !in xs[j]
    ensures c !in Concat(xs)
  {
    if xs != [] {
      ConcatAbsent(c, xs[..|xs| - 1]);
    }
  }

  lemma {:induction false} ConcatStart(xs: seq<string>)
    requires |xs| >= 1 && |xs[0]| >= 1
    ensures |Concat(xs)| >= 1 && Concat(xs)[0] == xs[0][0]
  {
    if |xs| == 1 {
      assert Concat(xs) == Concat([]) + xs[0];
    } else {
      ConcatStart(xs[..|xs| - 1]);
    }
  }

  /** The character of digit `d` occurs once in the word of `d` and not in any other digit word. */
  lemma DigitWordOnce(nums: seq<string>, d: Digit, e: Digit)
    requires DigitWordTable(nums)
    ensures Count(nums[d][0], nums[e]) == if e == d then 1 else 0
  {
    assert nums[e] == [] + [nums[e][0]];
    assert nums[e][..0] == [];
  }

  /** A character that is no digit word occurs in a digit's chunk only within its unit. */
  lemma ChunkUnitCount(units: seq<string>, nums: seq<string>, ds: seq<Digit>, i: nat, c: char)
    requires i < |ds| <= |units| && DigitWordTable(nums) && NotDigitChar(nums, c)
    ensures Count(c, DigitChunk(units, nums, ds, i)) == if ds[i] != 0 then Count(c, units[|ds| - i - 1]) else 0
  {
    if ds[i] != 0 {
      var u := units[|ds| - i - 1];
      var prefix := if i > 0 && ds[i - 1] == 0 then nums[0] else "";
      var word := nums[ds[i]];
      assert DigitChunk(units, nums, ds, i) == prefix + (word + u);
      CountConcat(c, prefix, word + u);
      CountConcat(c, word, u);
      assert word == [word[0]];
      CountAbsent(c, word);
      if prefix != "" {
        assert prefix == [nums[0][0]];
        CountAbsent(c, prefix);
      }
    }
  }

  // ---------------------------------------------------------------------------
  // Zero placeholders in the integer words
  // ---------------------------------------------------------------------------

  /** Every `z` in `s` is followed by a character that is not `z`: no `zz`, no trailing `z`. */
  predicate ZeroIsFollowed(z: char, s: string)
  {
    forall k :: 0 <= k < |s| && s[k] == z ==> k + 1 < |s| && s[k + 1] != z
  }

  lemma ZeroIsFollowedConcat(z: char, a: string, b: string)
    requires ZeroIsFollowed(z, a) && ZeroIsFollowed(z, b)
    ensures ZeroIsFollowed(z, a + b)
  {
    forall k | 0 <= k < |a + b| && (a + b)[k] == z
      ensures k + 1 < |a + b| && (a + b)[k + 1] != z
    {
      if k >= |a| {
        assert b[k - |a|] == z;
      }
    }
  }

  lemma {:induction false} ConcatZeroIsFollowed(z: char, xs: seq<string>)
    requires forall j :: 0 <= j < |xs| ==> ZeroIsFollowed(z, xs[j])
    ensures ZeroIsFollowed(z, Concat(xs))
  {
    if xs != [] {
      ConcatZeroIsFollowed(z, xs[..|xs| - 1]);
      ZeroIsFollowedConcat(z, Concat(xs[..|xs| - 1]), xs[|xs| - 1]);
    }
  }

  lemma ChunkZeroIsFollowed(units: seq<string>, nums: seq<string>, ds: seq<Digit>, i: nat)
    requires i < |ds| <= |units| && DigitWordTable(nums) && UnitTable(units, nums)
    ensures ZeroIsFollowed(nums[0][0], DigitChunk(units, nums, ds, i))
  {
    if ds[i] != 0 {
      var z := nums[0][0];
      var u := units[|ds| - i - 1];
      assert z !in u;
      var tail := nums[ds[i]] + u;
      assert tail[0] == nums[ds[i]][0] != z;
      assert z !in tail;
      if i > 0 && ds[i - 1] == 0 {
        var chunk := DigitChunk(units, nums, ds, i);
        assert chunk == [z] + tail;
        assert chunk[1..] == tail;
      } else {
        assert DigitChunk(units, nums, ds, i) == tail;
      }
    }
  }

  /** The integer words never hold two zero words in a row and never end in one. */
  lemma WordsZeroIsFollowed(units: seq<string>, nums: seq<string>, ds: seq<Digit>, k: nat)
    requires k <= |ds| <= |units| && DigitWordTable(nums) && UnitTable(units, nums)
    ensures ZeroIsFollowed(nums[0][0], IntegerWords(units, nums, ds, k))
  {
    var xs := Chunks(units, nums, ds, k);
    forall j | 0 <= j < |xs|
      ensures ZeroIsFollowed(nums[0][0], xs[j])
    {
      ChunksAt(units, nums, ds, k, j);
      ChunkZeroIsFollowed(units, nums, ds, j);
    }
    ConcatZeroIsFollowed(nums[0][0], xs);
  }

  /** The number of runs of zero digits, among the first `k`, that end at a non-zero digit. */
  function ZeroRuns(ds: seq<Digit>, k: nat): nat
    requires k <= |ds|
  {
    if k == 0 then 0
    else ZeroRuns(ds, k - 1) + (if k >= 2 && ds[k - 1] != 0 && ds[k - 2] == 0 then 1 else 0)
  }

  lemma ChunkZeroCount(units: seq<string>, nums: seq<string>, ds: seq<Digit>, i: nat)
    requires i < |ds| <= |units| && DigitWordTable(nums) && UnitTable(units, nums)
    ensures Count(nums[0][0], DigitChunk(units, nums, ds, i))
      == if i > 0 && ds[i] != 0 && ds[i - 1] == 0 then 1 else 0
  {
    if ds[i] != 0 {
      var z := nums[0][0];
      var u := units[|ds| - i - 1];
      assert z !in u;
      CountAbsent(z, u);
      DigitWordOnce(nums, 0, ds[i]);
      CountConcat(z, nums[ds[i]], u);
      var tail := nums[ds[i]] + u;
      if i > 0 && ds[i - 1] == 0 {
        DigitWordOnce(nums, 0, 0);
        CountConcat(z, nums[0], tail);
      } else {
        assert DigitChunk(units, nums, ds, i) == tail;
      }
    }
  }

  lemma {:induction false} ChunksZeroCount(units: seq<string>, nums: seq<string>, ds: seq<Digit>, k: nat)
    requires k <= |ds| <= |units| && DigitWordTable(nums) && UnitTable(units, nums)
    ensures CountAll(nums[0][0], Chunks(units, nums, ds, k)) == ZeroRuns(ds, k)
  {
    if k > 0 {
      var i := k - 1;
      ChunksZeroCount(units, nums, ds, i);
      assert Chunks(units, nums, ds, k)[..i] == Chunks(units, nums, ds, i);
      ChunkZeroCount(units, nums, ds, i);
    }
  }

  /** Each run of zero digits that a non-zero digit ends yields exactly one zero word. */
  lemma ZeroCount(units: seq<string>, nums: seq<string>, ds: seq<Digit>, k: nat)
    requires k <= |ds| <= |units| && DigitWordTable(nums) && UnitTable(units, nums)
    ensures Count(nums[0][0], IntegerWords(units, nums, ds, k)) == ZeroRuns(ds, k)
  {
    ChunksZeroCount(units, nums, ds, k);
    CountConcatAll(nums[0][0], Chunks(units, nums, ds, k));
  }

  // ---------------------------------------------------------------------------
  // Unit markers in the integer words
  // ---------------------------------------------------------------------------

  /** 1 when the digit at position `p` (from the right) is among the first `k` digits and is not zero. */
  function NonZeroAt(ds: seq<Digit>, k: nat, p: nat): nat
    requires k <= |ds|
  {
    if p < |ds| && |ds| - p - 1 < k && ds[|ds| - p - 1] != 0 then 1 else 0
  }

  lemma NonZeroAtStep(ds: seq<Digit>, i: nat, p: nat)
    requires i < |ds|
    ensures NonZeroAt(ds, i + 1, p) == NonZeroAt(ds, i, p) + if ds[i] != 0 && |ds| - i - 1 == p then 1 else 0
  {
  }

  lemma {:induction false} ChunksMarkerCount(units: seq<string>, nums: seq<string>, ds: seq<Digit>, k: nat,
                                             c: char, p1: nat, p2: nat)
    requires k <= |ds| <= |units| && DigitWordTable(nums) && NotDigitChar(nums, c) && p1 != p2
    requires forall p :: 0 <= p < |units| ==> Count(c, units[p]) == if p == p1 || p == p2 then 1 else 0
    ensures CountAll(c, Chunks(units, nums, ds, k)) == NonZeroAt(ds, k, p1) + NonZeroAt(ds, k, p2)
  {
    if k > 0 {
      var i := k - 1;
      ChunksMarkerCount(units, nums, ds, i, c, p1, p2);
      assert Chunks(units, nums, ds, k)[..i] == Chunks(units, nums, ds, i);
      ChunkUnitCount(units, nums, ds, i, c);
      NonZeroAtStep(ds, i, p1);
      NonZeroAtStep(ds, i, p2);
    }
  }

  /**
   * A marker character held once by the units at positions `p1` and `p2` and by no other
   * unit occurs once per non-zero digit at those two positions, and never for a zero digit.
   */
  lemma MarkerCount(units: seq<string>, nums: seq<string>, ds: seq<Digit>, k: nat, c: char, p1: nat, p2: nat)
    requires k <= |ds| <= |units| && DigitWordTable(nums) && NotDigitChar(nums, c) && p1 != p2
    requires forall p :: 0 <= p < |units| ==> Count(c, units[p]) == if p == p1 || p == p2 then 1 else 0
    ensures Count(c, IntegerWords(units, nums, ds, k)) == NonZeroAt(ds, k, p1) + NonZeroAt(ds, k, p2)
  {
    ChunksMarkerCount(units, nums, ds, k, c, p1, p2);
    CountConcatAll(c, Chunks(units, nums, ds, k));
  }

  /** A character in no unit and no digit word never occurs in the integer words. */
  lemma CharAbsent(units: seq<string>, nums: seq<string>, ds: seq<Digit>, k: nat, c: char)
    requires k <= |ds| <= |units| && DigitWordTable(nums) && NotDigitChar(nums, c)
    requires forall p :: 0 <= p < |units| ==> c !in units[p]
    ensures c !in IntegerWords(units, nums, ds, k)
  {
    var xs := Chunks(units, nums, ds, k);
    forall j | 0 <= j < |xs|
      ensures c !in xs[j]
    {
      ChunksAt(units, nums, ds, k, j);
      ChunkUnitCount(units, nums, ds, j, c);
      CountAbsent(c, units[|ds| - j - 1]);
      if c in xs[j] {
        CountPresent(c, xs[j]);
      }
    }
    ConcatAbsent(c, xs);
  }

  // ---------------------------------------------------------------------------
  // Digit words in the integer words
  // ---------------------------------------------------------------------------

  /** How many of the first `k` digits equal `d`. */
  function Occurrences(ds: seq<Digit>, k: nat, d: Digit): nat
    requires k <= |ds|
  {
    if k == 0 then 0 else Occurrences(ds, k - 1, d) + (if ds[k - 1] == d then 1 else 0)
  }

  lemma ChunkDigitCount(units: seq<string>, nums: seq<string>, ds: seq<Digit>, i: nat, d: Digit)
    requires i < |ds| <= |units| && DigitWordTable(nums) && UnitTable(units, nums) && d != 0
    ensures Count(nums[d][0], DigitChunk(units, nums, ds, i)) == if ds[i] == d then 1 else 0
  {
    if ds[i] != 0 {
      var c := nums[d][0];
      var u := units[|ds| - i - 1];
      var prefix := if i > 0 && ds[i - 1] == 0 then nums[0] else "";
      var word := nums[ds[i]];
      assert DigitChunk(units, nums, ds, i) == prefix + (word + u);
      CountConcat(c, prefix, word + u);
      CountConcat(c, word, u);
      DigitWordOnce(nums, d, ds[i]);
      assert c !in u;
      CountAbsent(c, u);
      if prefix != "" {
        DigitWordOnce(nums, d, 0);
      }
    }
  }

  lemma {:induction false} ChunksDigitCount(units: seq<string>, nums: seq<string>, ds: seq<Digit>, k: nat, d: Digit)
    requires k <= |ds| <= |units| && DigitWordTable(nums) && UnitTable(units, nums) && d != 0
    ensures CountAll(nums[d][0], Chunks(units, nums, ds, k)) == Occurrences(ds, k, d)
  {
    if k > 0 {
      var i := k - 1;
      ChunksDigitCount(units, nums, ds, i, d);
      assert Chunks(units, nums, ds, k)[..i] == Chunks(units, nums, ds, i);
      ChunkDigitCount(units, nums, ds, i, d);
    }
  }

  /** Every non-zero digit contributes its digit word exactly once: no digit is lost or repeated. */
  lemma DigitWordCount(units: seq<string>, nums: seq<string>, ds: seq<Digit>, k: nat, d: Digit)
    requires k <= |ds| <= |units| && DigitWordTable(nums) && UnitTable(units, nums) && d != 0
    ensures Count(nums[d][0], IntegerWords(units, nums, ds, k)) == Occurrences(ds, k, d)
  {
    ChunksDigitCount(units, nums, ds, k, d);
    CountConcatAll(nums[d][0], Chunks(units, nums, ds, k));
  }

  /** The integer words begin with the word of the leading digit when that digit is not zero. */
  lemma WordsStart(units: seq<string>, nums: seq<string>, ds: seq<Digit>, k: nat)
    requires 1 <= k <= |ds| <= |units| && DigitWordTable(nums) && ds[0] != 0
    ensures |IntegerWords(units, nums, ds, k)| >= 1 && IntegerWords(units, nums, ds, k)[0] == nums[ds[0]][0]
  {
    ChunksAt(units, nums, ds, k, 0);
    assert DigitChunk(units, nums, ds, 0) == "" + (nums[ds[0]] + units[|ds| - 0 - 1]);
    ConcatStart(Chunks(units, nums, ds, k));
  }

  // ---------------------------------------------------------------------------
  // The routine's integer words
  // ---------------------------------------------------------------------------

  /** The integer words the routine writes for `yuan` yuan, which must fit the unit table. */
  function YuanWords(yuan: nat): string
    requires |Digits(yuan)| <= |Units|
  {
    IntegerWords(Units, Nums, Digits(yuan), |Digits(yuan)|)
  }

  /**
   * Each run of zero digits that a non-zero digit ends yields exactly one 零; the words
   * never hold 零零 and never end in 零 (so 1005 reads 壹仟零伍 and 100 reads 壹佰).
   */
  lemma ZeroPlaceholders(yuan: nat)
    requires |Digits(yuan)| <= |Units|
    ensures Count('零', YuanWords(yuan)) == ZeroRuns(Digits(yuan), |Digits(yuan)|)
    ensures ZeroIsFollowed('零', YuanWords(yuan))
  {
    RoutineTables();
    var ds := Digits(yuan);
    assert Nums[0][0] == '零';
    ZeroCount(Units, Nums, ds, |ds|);
    WordsZeroIsFollowed(Units, Nums, ds, |ds|);
  }

  /** How often 万 occurs among the units at each position: once at 4 and at 12. */
  lemma WanUnits(p: nat)
    requires p < |Units|
    ensures Count('万', Units[p]) == if p == 4 || p == 12 then 1 else 0
  {
    match p
    case 0 => case 1 => case 2 => case 3 => case 4 => case 5 => case 6 => case 7 => case 8 =>
    case 9 => case 10 => case 11 => case 12 => case 13 => case 14 => case 15 => case 16 =>
  }

  /** How often 亿 occurs among the units at each position: once at 8 and at 16. */
  lemma YiUnits(p: nat)
    requires p < |Units|
    ensures Count('亿', Units[p]) == if p == 8 || p == 16 then 1 else 0
  {
    match p
    case 0 => case 1 => case 2 => case 3 => case 4 => case 5 => case 6 => case 7 => case 8 =>
    case 9 => case 10 => case 11 => case 12 => case 13 => case 14 => case 15 => case 16 =>
  }

  /** No unit holds 元. */
  lemma NoYuanUnits(p: nat)
    requires p < |Units|
    ensures '元' !in Units[p]
  {
    match p
    case 0 => case 1 => case 2 => case 3 => case 4 => case 5 => case 6 => case 7 => case 8 =>
    case 9 => case 10 => case 11 => case 12 => case 13 => case 14 => case 15 => case 16 =>
  }

  /** `c` is none of the characters of the routine's digit words. */
  lemma NotNumChar(c: char)
    requires c !in NumChars
    ensures DigitWordTable(Nums) && NotDigitChar(Nums, c)
  {
    RoutineTables();
    forall d | 0 <= d < 10
      ensures Nums[d][0] != c
    {
      assert NumChars[d] in NumChars;
    }
  }

  /**
   * 万 is written once for each non-zero digit at the 万 positions (4 and 12 from the
   * right) and 亿 once for each non-zero digit at the 亿 positions (8 and 16); a zero
   * digit at such a position writes no marker.
   */
  lemma MarkersOnNonZeroDigits(yuan: nat)
    requires |Digits(yuan)| <= |Units|
    ensures var ds := Digits(yuan);
      Count('万', YuanWords(yuan)) == NonZeroAt(ds, |ds|, 4) + NonZeroAt(ds, |ds|, 12)
    ensures var ds := Digits(yuan);
      Count('亿', YuanWords(yuan)) == NonZeroAt(ds, |ds|, 8) + NonZeroAt(ds, |ds|, 16)
  {
    var ds := Digits(yuan);
    NotNumChar('万');
    NotNumChar('亿');
    forall p | 0 <= p < |Units|
      ensures Count('万', Units[p]) == if p == 4 || p == 12 then 1 else 0
      ensures Count('亿', Units[p]) == if p == 8 || p == 16 then 1 else 0
    {
      WanUnits(p);
      YiUnits(p);
    }
    MarkerCount(Units, Nums, ds, |ds|, '万', 4, 12);
    MarkerCount(Units, Nums, ds, |ds|, '亿', 8, 16);
  }

  /** Every non-zero digit is written by its own digit word, exactly once. */
  lemma EveryDigitWritten(yuan: nat, d: Digit)
    requires |Digits(yuan)| <= |Units| && d != 0
    ensures Count(NumChars[d], YuanWords(yuan)) == Occurrences(Digits(yuan), |Digits(yuan)|, d)
  {
    RoutineTables();
    DigitWordCount(Units, Nums, Digits(yuan), |Digits(yuan)|, d);
  }

  // ---------------------------------------------------------------------------
  // The layout of the whole amount
  // ---------------------------------------------------------------------------

  /** The text before the first 元 (all of it when there is none). */
  function BeforeYuan(s: string): string
  {
    if s == [] || s[0] == '元' then [] else [s[0]] + BeforeYuan(s[1..])
  }

  /** The text after the first 元 (nothing when there is none). */
  function AfterYuan(s: string): string
  {
    if s == [] then [] else if s[0] == '元' then s[1..] else AfterYuan(s[1..])
  }

  /** The jiao and fen written after the 元 of a capitalised amount. */
  function FractionOf(s: string): (Digit, Digit)
  {
    var t := AfterYuan(s);
    if t == "整" then (0, 0) else DecodeFraction(t)
  }

  lemma {:induction false} SplitAtYuan(a: string, b: string)
    requires '元' !in a
    ensures BeforeYuan(a + "元" + b) == a && AfterYuan(a + "元" + b) == b
  {
    if a != [] {
      assert (a + "元" + b)[1..] == a[1..] + "元" + b;
      SplitAtYuan(a[1..], b);
    } else {
      assert a + "元" + b == ['元'] + b;
    }
  }

  /** The integer words hold no 元. */
  lemma NoYuanInWords(yuan: nat)
    requires |Digits(yuan)| <= |Units|
    ensures '元' !in YuanWords(yuan)
  {
    var ds := Digits(yuan);
    NotNumChar('元');
    forall p | 0 <= p < |Units|
      ensures '元' !in Units[p]
    {
      NoYuanUnits(p);
    }
    CharAbsent(Units, Nums, ds, |ds|, '元');
  }

  /** The integer words are empty exactly for 0 yuan, and otherwise begin with the leading digit's word. */
  lemma YuanWordsStart(yuan: nat)
    requires |Digits(yuan)| <= |Units|
    ensures YuanWords(yuan) == "" <==> yuan == 0
    ensures yuan > 0 ==> YuanWords(yuan)[0] == NumChars[Digits(yuan)[0]] != '零'
  {
    RoutineTables();
    var ds := Digits(yuan);
    if yuan == 0 {
      assert ds == [0];
      WordsStep(Units, Nums, ds, 0);
      assert Chunks(Units, Nums, ds, 0) == [];
    } else {
      WordsStart(Units, Nums, ds, |ds|);
      assert Nums[ds[0]][0] != Nums[0][0];
    }
  }

  /**
   * A capitalised amount of fewer than 10^17 yuan is split by its first 元: before it
   * stand the integer words, or 零 when there are none; after it the fraction words, or
   * 整 when there are none.
   */
  lemma AmountSplit(yuan: nat, jiao: Digit, fen: Digit)
    requires yuan < Pow10(|Units|)
    ensures AmountWords(yuan, jiao, fen).Ok?
    ensures var s := AmountWords(yuan, jiao, fen).value;
      && BeforeYuan(s) == (if yuan == 0 then "零" else YuanWords(yuan))
      && AfterYuan(s) == (if jiao == 0 && fen == 0 then "整" else FractionWords(jiao, fen))
  {
    OverrunIff(yuan, jiao, fen);
    DigitsLength(yuan, |Units|);
    YuanWordsStart(yuan);
    NoYuanInWords(yuan);
    var iw := YuanWords(yuan);
    var fw := FractionWords(jiao, fen);
    var head := if iw == "" then Nums[0] else iw;
    var tail := if fw == "" then "整" else fw;
    assert AmountWords(yuan, jiao, fen).value == head + "元" + tail;
    assert '元' !in head;
    SplitAtYuan(head, tail);
  }

  /**
   * The layout of a capitalised amount of fewer than 10^17 yuan: 零 stands before the
   * 元 exactly when there are no yuan, and otherwise the leading digit's word opens the
   * amount; 整 stands after it exactly when there are no jiao and no fen, and the jiao
   * and fen can be read back from what stands after it.
   */
  lemma AmountLayout(yuan: nat, jiao: Digit, fen: Digit)
    requires yuan < Pow10(|Units|)
    ensures AmountWords(yuan, jiao, fen).Ok?
    ensures var s := AmountWords(yuan, jiao, fen).value;
      && (BeforeYuan(s) == "零" <==> yuan == 0)
      && (yuan > 0 ==> |BeforeYuan(s)| > 0 && BeforeYuan(s)[0] == NumChars[Digits(yuan)[0]])
      && (AfterYuan(s) == "整" <==> jiao == 0 && fen == 0)
      && FractionOf(s) == (jiao, fen)
  {
    AmountSplit(yuan, jiao, fen);
    DigitsLength(yuan, |Units|);
    YuanWordsStart(yuan);
    if yuan > 0 {
      var iw := YuanWords(yuan);
      assert iw != "零" by {
        assert iw[0] != '零';
      }
    }
    var fw := FractionWords(jiao, fen);
    if fw != "" {
      assert fw != "整" by {
        assert '整' !in fw;
      }
    }
  }

  // ---------------------------------------------------------------------------
  // From an exact amount in cents to the routine's input
  // ---------------------------------------------------------------------------

  /**
   * How the routine splits an amount of `cents` hundredths of a yuan: `int(amount)`
   * truncates toward zero, and a negative integer part puts a '-' into the digit loop,
   * which fails; a negative amount above -1 yuan has integer part 0 and a fraction
   * that is not positive, so it is written with no jiao and no fen.
   */
  function SplitCents(cents: int): (r: Result<(nat, Digit, Digit), AmountError>)
    ensures r.Err? <==> cents <= -100
    ensures r.Err? ==> r.error == NegativeAmount
    ensures r.Ok? && cents >= 0 ==> 100 * r.value.0 + 10 * r.value.1 + r.value.2 == cents
    ensures r.Ok? && cents < 0 ==> r.value == (0, 0, 0)
  {
    if cents <= -100 then Err(NegativeAmount)
    else if cents < 0 then Ok((0, 0, 0))
    else
      var yuan, rest := cents / 100, cents % 100;
      assert cents == 100 * yuan + rest;
      var jiao, fen := rest / 10, rest % 10;
      assert rest == 10 * jiao + fen;
      Ok((yuan, jiao, fen))
  }

  /** The capitalised form of an exact amount in cents, as the routine writes it. */
  function CentsWords(cents: int): Result<string, AmountError>
  {
    match SplitCents(cents)
    case Err(e) => Err(e)
    case Ok((yuan, jiao, fen)) => AmountWords(yuan, jiao, fen)
  }

  // ---------------------------------------------------------------------------
  // Worked values
  // ---------------------------------------------------------------------------

  /**
   * The routine as written does not re-stamp 万 over a zero digit, so 10 yuan and
   * 100000 yuan come out the same: the integer words do not determine the amount.
   */
  lemma TenAndHundredThousandCollide()
    ensures AmountWords(10, 0, 0) == AmountWords(100000, 0, 0) == Ok("壹拾元整")
  {
    TenWords();
    HundredThousandWords();
    assert FractionWords(0, 0) == "";
    assert "壹拾" + "元" + "整" == "壹拾元整";
  }

  /** Zero digits after the first `i` add nothing to the integer words. */
  lemma {:induction false} ZerosAddNothing(units: seq<string>, nums: seq<string>, ds: seq<Digit>, i: nat, k: nat)
    requires i <= k <= |ds| <= |units| && |nums| == 10
    requires forall j :: i <= j < k ==> ds[j] == 0
    ensures IntegerWords(units, nums, ds, k) == IntegerWords(units, nums, ds, i)
  {
    if k > i {
      ZerosAddNothing(units, nums, ds, i, k - 1);
      WordsStep(units, nums, ds, k - 1);
    }
  }

  /** A one followed by `n - 1` zeros, written in the unit at position `n - 1`. */
  lemma LeadingOneWords(ds: seq<Digit>)
    requires 1 <= |ds| <= |Units| && ds[0] == 1
    requires forall j :: 1 <= j < |ds| ==> ds[j] == 0
    ensures IntegerWords(Units, Nums, ds, |ds|) == Nums[1] + Units[|ds| - 1]
  {
    assert Chunks(Units, Nums, ds, 0) == [];
    WordsStep(Units, Nums, ds, 0);
    ZerosAddNothing(Units, Nums, ds, 1, |ds|);
  }

  lemma TenWords()
    ensures |Digits(10)| == 2 && YuanWords(10) == "壹拾"
  {
    var ds: seq<Digit> := [1, 0];
    assert Digits(10) == ds;
    LeadingOneWords(ds);
    assert Nums[1] + Units[1] == "壹拾";
  }

  lemma HundredThousandWords()
    ensures |Digits(100000)| == 6 && YuanWords(100000) == "壹拾"
  {
    var ds: seq<Digit> := [1, 0, 0, 0, 0, 0];
    HundredThousandDigits();
    LeadingOneWords(ds);
    assert Nums[1] + Units[5] == "壹拾";
  }

  lemma HundredThousandDigits()
    ensures Digits(100000) == [1, 0, 0, 0, 0, 0]
  {
    assert Digits(100) == [1, 0, 0];
    assert Digits(10000) == [1, 0, 0, 0, 0];
  }

  /** 19.80 yuan: the zero 分 is dropped and no 整 is written. */
  lemma NineteenEightyWords()
    ensures CentsWords(1980) == Ok("壹拾玖元捌角")
  {
    var ds: seq<Digit> := [1, 9];
    assert Digits(19) == ds;
    assert Chunks(Units, Nums, ds, 0) == [];
    assert IntegerWords(Units, Nums, ds, 0) == "";
    WordsStep(Units, Nums, ds, 0);
    assert IntegerWords(Units, Nums, ds, 1) == "壹拾";
    WordsStep(Units, Nums, ds, 1);
    assert IntegerWords(Units, Nums, ds, 2) == "壹拾" + "玖";
    assert YuanWords(19) == "壹拾玖";
    assert FractionWords(8, 0) == "捌角";
    assert "壹拾玖" + "元" + "捌角" == "壹拾玖元捌角";
    assert AmountWords(19, 8, 0) == Ok("壹拾玖元捌角");
    assert SplitCents(1980) == Ok((19, 8, 0));
  }

  /** 1005 yuan: the run of two zeros is written as a single 零. */
  lemma ThousandFiveWords()
    ensures CentsWords(100500) == Ok("壹仟零伍元整")
  {
    ThousandFiveYuan();
    assert FractionWords(0, 0) == "";
    assert "壹仟零伍" + "元" + "整" == "壹仟零伍元整";
    assert AmountWords(1005, 0, 0) == Ok("壹仟零伍元整");
    assert SplitCents(100500) == Ok((1005, 0, 0));
  }

  lemma ThousandFiveYuan()
    ensures |Digits(1005)| == 4 && YuanWords(1005) == "壹仟零伍"
  {
    var ds: seq<Digit> := [1, 0, 0, 5];
    assert Digits(100) == [1, 0, 0];
    assert Digits(1005) == ds;
    ThousandFiveDigits(ds);
    assert Nums[1] + Units[3] + Nums[0] + (Nums[5] + Units[0]) == "壹仟零伍";
  }

  /** The integer words of the digits 1, 0, 0, 5: the thousands digit, one 零, then the units digit. */
  lemma ThousandFiveDigits(ds: seq<Digit>)
    requires |ds| == 4 && ds[0] == 1 && ds[1] == 0 && ds[2] == 0 && ds[3] == 5
    ensures IntegerWords(Units, Nums, ds, 4) == Nums[1] + Units[3] + Nums[0] + (Nums[5] + Units[0])
  {
    ThousandDigit(ds);
    WordsStep(Units, Nums, ds, 3);
  }

  /** The first three of the digits 1, 0, 0, 5 give only the thousands digit. */
  lemma ThousandDigit(ds: seq<Digit>)
    requires |ds| == 4 && ds[0] == 1 && ds[1] == 0 && ds[2] == 0
    ensures IntegerWords(Units, Nums, ds, 3) == Nums[1] + Units[3]
  {
    assert Chunks(Units, Nums, ds, 0) == [];
    WordsStep(Units, Nums, ds, 0);
    ZerosAddNothing(Units, Nums, ds, 1, 3);
  }

  /** Five fen: the integer part is 零 and the fraction has no 零 before 分. */
  lemma FiveFenWords()
    ensures CentsWords(5) == Ok("零元伍分")
  {
    YuanWordsStart(0);
    assert FractionWords(0, 5) == "伍分";
    assert SplitCents(5) == Ok((0, 0, 5));
    assert "零" + "元" + "伍分" == "零元伍分";
  }
}
