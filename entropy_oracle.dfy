/** A model of the silicon oracle: six prompted draws of one random bit each,
    collected bottom-to-top into a hexagram, rendered as a '0'/'1' string and
    classified by counting solid (yang, '1') and broken (yin, '0') lines. */
module EntropyOracle {

  /** Number of lines in a hexagram, and so of prompts in one cast. */
  const LineCount: nat := 6

  /** One line of a hexagram: 0 is yin (broken), 1 is yang (solid). */
  type Bit = b: int | 0 <= b <= 1

  datatype Option<T> = None | Some(value: T)

  /** What happened at one prompt of a cast. `Answered(bit)` means the user
      pressed Enter and the entropy source then returned `bit`; `Interrupted`
      means the user aborted at that prompt, before its bit reached the stack. */
  datatype Prompt = Answered(bit: Bit) | Interrupted

  /** The four structural readings, in the priority order of the analysis. */
  datatype Reading =
    | Creative          // six yang lines: Hexagram 1
    | Receptive         // six yin lines: Hexagram 2
    | ActiveDominance   // more yang than yin
    | PassiveDominance  // everything else, the 3/3 tie included

  // ---------------------------------------------------------------------------
  // Collection

  /** Index of the first interrupted prompt, or |prompts| when none is. */
  function FirstInterrupt(prompts: seq<Prompt>): (r: nat)
    ensures r <= |prompts|
    ensures forall k :: 0 <= k < r ==> prompts[k].Answered?
    ensures r < |prompts| ==> prompts[r].Interrupted?
  {
    if prompts == [] then 0
    else if prompts[0].Interrupted? then 0
    else 1 + FirstInterrupt(prompts[1..])
  }

  /** The decimal digit of a bit, as `str` renders it. */
  function Digit(b: Bit): char
  {
    if b == 1 then '1' else '0'
  }

  predicate IsBinary(s: string)
  {
    forall k :: 0 <= k < |s| ==> s[k] == '0' || s[k] == '1'
  }

  /** The bits rendered one digit per bit and concatenated, in stack order. */
  function Join(bits: seq<Bit>): (r: string)
    ensures |r| == |bits|
    ensures forall k :: 0 <= k < |bits| ==> r[k] == Digit(bits[k])
    ensures IsBinary(r)
  {
    if bits == [] then "" else Join(bits[..|bits| - 1]) + [Digit(bits[|bits| - 1])]
  }

  /** Reads a binary string back as bits; the inverse of Join. */
  function Parse(s: string): (bits: seq<Bit>)
    requires IsBinary(s)
    ensures |bits| == |s|
  {
    if s == [] then [] else Parse(s[..|s| - 1]) + [if s[|s| - 1] == '1' then 1 else 0]
  }

  lemma {:induction false} ParseJoin(bits: seq<Bit>)
    ensures Parse(Join(bits)) == bits
  {
    if bits != [] {
      var init := bits[..|bits| - 1];
      ParseJoin(init);
      assert Join(bits)[..|bits| - 1] == Join(init);
    }
  }

  lemma {:induction false} JoinParse(s: string)
    requires IsBinary(s)
    ensures Join(Parse(s)) == s
  {
    if s != [] {
      JoinParse(s[..|s| - 1]);
    }
  }

  /** Two different casts never render to the same string. */
  lemma JoinInjective(a: seq<Bit>, b: seq<Bit>)
    requires Join(a) == Join(b)
    ensures a == b
  {
    ParseJoin(a);
    ParseJoin(b);
  }

  /** The object that runs a cast; its stack is kept between calls. */
  class SiliconOracle {
    var hexagramStack: seq<Bit>

    constructor ()
      ensures hexagramStack == []
    {
      hexagramStack := [];
    }

    /** Runs the six prompts from line 1 (bottom) to line 6 (top). The stack is
        emptied first, so nothing from an earlier cast survives; an interrupt
        stops the loop at once and no string is produced. */
    method CastHexagram(prompts: seq<Prompt>) returns (code: Option<string>)
      requires |prompts| == LineCount
      modifies this
      ensures |hexagramStack| == FirstInterrupt(prompts)
      ensures forall k :: 0 <= k < |hexagramStack| ==> hexagramStack[k] == prompts[k].bit
      ensures code.Some? <==> FirstInterrupt(prompts) == LineCount
      ensures code.Some? ==> code.value == Join(hexagramStack)
      ensures code.Some? ==> |code.value| == LineCount && IsBinary(code.value)
    {
      hexagramStack := [];
      for i := 1 to LineCount + 1
        invariant |hexagramStack| == i - 1
        invariant forall k :: 0 <= k < i - 1 ==> prompts[k].Answered? && hexagramStack[k] == prompts[k].bit
      {
        match prompts[i - 1]
        case Interrupted =>
          return None;
        case Answered(bit) =>
          hexagramStack := hexagramStack + [bit];
      }
      code := Some(Join(hexagramStack));
    }
  }

  // ---------------------------------------------------------------------------
  // Line label

  /** The label shown for a freshly drawn line: bit 1 is the solid yang line,
      any other value the broken yin line. Both labels have the same width. */
  function LineLabel(bit: int): (r: string)
    ensures |r| == 8
    ensures r == "(1) YANG" <==> bit == 1
    ensures r == "(0) YIN " <==> bit != 1
  {
    if bit == 1 then "(1) YANG" else "(0) YIN "
  }

  /** For a drawn bit, the digit in the label is the digit the cast's string
      holds at that line. */
  lemma LabelShowsDigit(b: Bit)
    ensures LineLabel(b)[1] == Digit(b)
  {
  }

  // ---------------------------------------------------------------------------
  // Analysis

  /** Occurrences of `c` in `s`, scanning left to right. */
  function Count(s: string, c: char): (n: nat)
    ensures n <= |s|
    ensures n == 0 <==> c !in s
    ensures n == |s| <==> forall k :: 0 <= k < |s| ==> s[k] == c
  {
    if s == [] then 0 else (if s[0] == c then 1 else 0) + Count(s[1..], c)
  }

  /** The count is the multiplicity of `c` in the string, whatever the order. */
  lemma {:induction false} CountIsMultiplicity(s: string, c: char)
    ensures Count(s, c) == multiset(s)[c]
  {
    if s != [] {
      CountIsMultiplicity(s[1..], c);
      assert s == [s[0]] + s[1..];
    }
  }

  /** In a binary string every character is a yang or a yin line. */
  lemma {:induction false} YangYinSum(s: string)
    requires IsBinary(s)
    ensures Count(s, '1') + Count(s, '0') == |s|
  {
    if s != [] {
      YangYinSum(s[1..]);
    }
  }

  /** The structural analysis of a hexagram string: the first matching case
      of Hexagram 1, Hexagram 2, active, passive wins, so exactly one applies. */
  function Classify(code: string): (r: Reading)
    ensures r == Creative <==> Count(code, '1') == 6
    ensures r == Receptive <==> Count(code, '1') != 6 && Count(code, '0') == 6
    ensures r == ActiveDominance <==>
              Count(code, '1') != 6 && Count(code, '0') != 6 && Count(code, '1') > Count(code, '0')
    ensures r == PassiveDominance <==>
              Count(code, '1') != 6 && Count(code, '0') != 6 && Count(code, '1') <= Count(code, '0')
  {
    var yang := Count(code, '1');
    var yin := Count(code, '0');
    if yang == 6 then Creative
    else if yin == 6 then Receptive
    else if yang > yin then ActiveDominance
    else PassiveDominance
  }

  /** What each reading means for the string of a completed cast. */
  lemma ClassifyCast(code: string)
    requires |code| == LineCount && IsBinary(code)
    ensures Classify(code) == Creative <==> forall k :: 0 <= k < |code| ==> code[k] == '1'
    ensures Classify(code) == Receptive <==> forall k :: 0 <= k < |code| ==> code[k] == '0'
    ensures Classify(code) == ActiveDominance <==> 4 <= Count(code, '1') <= 5
    ensures Classify(code) == PassiveDominance <==> 1 <= Count(code, '1') <= 3
  {
    YangYinSum(code);
    if forall k :: 0 <= k < |code| ==> code[k] == '0' {
      assert code[0] == '0';
    }
  }

  /** The reading depends on how many lines are yang, not on their order. */
  lemma ClassifyOrderIndependent(a: string, b: string)
    requires multiset(a) == multiset(b)
    ensures Classify(a) == Classify(b)
  {
    CountIsMultiplicity(a, '1');
    CountIsMultiplicity(b, '1');
    CountIsMultiplicity(a, '0');
    CountIsMultiplicity(b, '0');
  }

  /** A 3/3 split falls through to the passive reading. */
  lemma TieIsPassive(code: string)
    requires Count(code, '1') == 3 && Count(code, '0') == 3
    ensures Classify(code) == PassiveDominance
  {
  }

  /** The yang and yin counts of a cast's string are the numbers of 1 and 0
      bits drawn. */
  lemma {:induction false} JoinCounts(bits: seq<Bit>)
    ensures Count(Join(bits), '1') == multiset(bits)[1]
    ensures Count(Join(bits), '0') == multiset(bits)[0]
  {
    CountIsMultiplicity(Join(bits), '1');
    CountIsMultiplicity(Join(bits), '0');
    JoinMultiplicities(bits);
  }

  lemma {:induction false} JoinMultiplicities(bits: seq<Bit>)
    ensures multiset(Join(bits))['1'] == multiset(bits)[1]
    ensures multiset(Join(bits))['0'] == multiset(bits)[0]
  {
    if bits != [] {
      var init, last := bits[..|bits| - 1], bits[|bits| - 1];
      JoinMultiplicities(init);
      assert bits == init + [last];
      assert multiset(bits) == multiset(init) + multiset{last};
      assert multiset(Join(bits)) == multiset(Join(init)) + multiset{Digit(last)};
    }
  }

  /** The reading of six drawn bits, stated on the bits themselves. */
  lemma HexagramReading(bits: seq<Bit>)
    requires |bits| == LineCount
    ensures Count(Join(bits), '1') + Count(Join(bits), '0') == LineCount
    ensures Classify(Join(bits)) == Creative <==> multiset(bits)[1] == 6
    ensures Classify(Join(bits)) == Receptive <==> multiset(bits)[0] == 6
    ensures Classify(Join(bits)) == ActiveDominance <==> 4 <= multiset(bits)[1] <= 5
    ensures Classify(Join(bits)) == PassiveDominance <==> 1 <= multiset(bits)[1] <= 3
  {
    var s := Join(bits);
    JoinCounts(bits);
    YangYinSum(s);
    ClassifyCast(s);
  }

  /** The outcomes for a few fixed hexagram strings. */
  lemma KnownReadings()
    ensures Classify("111111") == Creative
    ensures Classify("000000") == Receptive
    ensures Classify("111000") == PassiveDominance
    ensures Classify("110100") == PassiveDominance
    ensures Classify("111100") == ActiveDominance
  {
    assert Count("111000", '1') == 3 && Count("111000", '0') == 3;
    assert Count("110100", '1') == 3 && Count("110100", '0') == 3;
    assert Count("111100", '1') == 4 && Count("111100", '0') == 2;
  }
}
