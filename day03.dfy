/**
 * Day 3: a scanner turns corrupted memory into tokens, and a token-driven
 * state machine collects the well-formed `mul(a,b)` instructions. A closed
 * `don't()` switches collecting off and a closed `do()` switches it on again.
 */
module Day03 {
  import opened Wrappers
  import opened Strings
  import opened Lib

  datatype Keyword = Multiply | Do | Dont

  datatype Token =
    | Keyword(keyword: Keyword)
    | BlockOpen
    | BlockClose
    | Seperator
    | NumLiteral(value: int)
    | Unknown

  // --------------------------------------------------------------- scanner

  /** The token of a delimiter character, if it is one. */
  function Delimiter(c: char): Option<Token> {
    if c == '(' then Some(BlockOpen)
    else if c == ')' then Some(BlockClose)
    else if c == ',' then Some(Seperator)
    else None
  }

  /** The text from index `i` on starts with `w`. */
  predicate StartsAt(s: string, i: nat, w: string) {
    i + |w| <= |s| && s[i..i + |w|] == w
  }

  /** The keyword whose name the text at `i` starts with: `mul`, then `don't`, then `do`. */
  function KeywordAt(s: string, i: nat): Option<Keyword> {
    if StartsAt(s, i, "mul") then Some(Multiply)
    else if StartsAt(s, i, "don't") then Some(Dont)
    else if StartsAt(s, i, "do") then Some(Do)
    else None
  }

  /** The characters a keyword token consumes. */
  function KeywordLength(k: Keyword): nat {
    match k
    case Multiply => 3
    case Dont => 5
    case Do => 2
  }

  /** The length of the run of ASCII digits starting at `i`. */
  function DigitRun(s: string, i: nat): (n: nat)
    ensures n > 0 ==> i + n <= |s|
    ensures forall k :: i <= k < i + n ==> IsDigit(s[k])
    ensures i + n < |s| ==> !IsDigit(s[i + n])
    ensures i < |s| && IsDigit(s[i]) ==> n > 0
    decreases |s| - i
  {
    if i < |s| && IsDigit(s[i]) then 1 + DigitRun(s, i + 1) else 0
  }

  /** `ts` in front of a successful scan; a failed scan stays failed. */
  function Prepend(ts: seq<Token>, rest: Option<seq<Token>>): Option<seq<Token>> {
    if rest.None? then None else Some(ts + rest.value)
  }

  /**
   * The token that starts at `i` and the index after it: a delimiter, a
   * maximal run of at most three digits (a longer run has no token), a
   * keyword with its whole name, or `Unknown` for one other character.
   */
  function FirstToken(s: string, i: nat): (r: Option<(Token, nat)>)
    requires i < |s|
    ensures r.Some? ==> i < r.value.1 <= |s|
  {
    if Delimiter(s[i]).Some? then Some((Delimiter(s[i]).value, i + 1))
    else if IsDigit(s[i]) then
      var n := DigitRun(s, i);
      if n > 3 then None
      else Some((NumLiteral(DigitsValue(s[i..i + n])), i + n))
    else
      match KeywordAt(s, i)
      case Some(k) => Some((Keyword(k), i + KeywordLength(k)))
      case None => Some((Unknown, i + 1))
  }

  /** The tokens of `s[i..]`, or `None` when some digit run is too long. */
  function LexFrom(s: string, i: nat): Option<seq<Token>>
    decreases |s| - i
  {
    if i >= |s| then Some([])
    else
      match FirstToken(s, i)
      case None => None
      case Some((t, j)) => Prepend([t], LexFrom(s, j))
  }

  /** The tokens of a whole text. */
  function Lex(s: string): Option<seq<Token>> {
    LexFrom(s, 0)
  }

  /** A scanner over a text, with the tokens read so far. */
  class Tokenizer {
    var phrase: string
    var pos: nat
    var readTokens: seq<Token>

    /** `Tokenizer::new`: nothing consumed, nothing read. */
    constructor (phrase: string)
      ensures this.phrase == phrase && pos == 0 && readTokens == []
    {
      this.phrase := phrase;
      pos := 0;
      readTokens := [];
    }

    /** The iterator's `next`: consumes one character unless the text is exhausted. */
    method Next() returns (c: Option<char>)
      modifies this
      ensures phrase == old(phrase) && readTokens == old(readTokens)
      ensures old(pos) < |phrase| ==> c == Some(phrase[old(pos)]) && pos == old(pos) + 1
      ensures old(pos) >= |phrase| ==> c.None? && pos == old(pos)
    {
      if pos < |phrase| {
        c := Some(phrase[pos]);
        pos := pos + 1;
      } else {
        c := None;
      }
    }

    /**
     * `match_keyword(first_char)`: looks at the character and at most six
     * more; the cut-off never matters, since every keyword name is shorter.
     */
    function MatchKeyword(firstChar: char): (k: Option<Keyword>)
      reads this
      requires pos <= |phrase|
      ensures k == KeywordAt([firstChar] + phrase[pos..], 0)
    {
      var ahead := if pos + 6 <= |phrase| then phrase[pos..pos + 6] else phrase[pos..];
      var window := [firstChar] + ahead;
      ghost var full := [firstChar] + phrase[pos..];
      assert window == full[..|window|];
      assert |window| >= 6 || window == full;
      assert forall w: string :: |w| <= 5 ==> (StartsAt(window, 0, w) <==> StartsAt(full, 0, w)) by {
        forall w: string | |w| <= 5
          ensures StartsAt(window, 0, w) <==> StartsAt(full, 0, w)
        {
          if |w| <= |full| {
            assert window[..|w|] == full[..|w|];
          }
        }
      }
      KeywordAt(window, 0)
    }

    /**
     * `tokenize`: scans the rest of the text, pushing one token per step;
     * it fails (the source panics) on a fourth consecutive digit.
     */
    method Tokenize() returns (ok: bool)
      requires pos <= |phrase|
      modifies this
      ensures phrase == old(phrase)
      ensures ok <==> LexFrom(phrase, old(pos)).Some?
      ensures ok ==> readTokens == old(readTokens) + LexFrom(phrase, old(pos)).value
      ensures ok ==> pos == |phrase|
    {
      ghost var start := pos;
      ghost var produced: seq<Token> := [];
      assert LexFrom(phrase, pos).Some? ==> [] + LexFrom(phrase, pos).value == LexFrom(phrase, pos).value;
      while pos < |phrase|
        invariant pos <= |phrase|
        invariant phrase == old(phrase)
        invariant readTokens == old(readTokens) + produced
        invariant LexFrom(phrase, start) == Prepend(produced, LexFrom(phrase, pos))
        decreases |phrase| - pos
      {
        var token := ReadToken();
        if token.None? {
          PrependNone(produced);
          return false;
        }
        PrependAssoc(produced, [token.value], LexFrom(phrase, pos));
        readTokens := readTokens + [token.value];
        produced := produced + [token.value];
      }
      assert LexFrom(phrase, pos) == Some([]);
      assert produced + [] == produced;
      return true;
    }

    /** One step of `tokenize`: the token that starts at the next character. */
    method ReadToken() returns (token: Option<Token>)
      requires pos < |phrase|
      modifies this
      ensures phrase == old(phrase) && readTokens == old(readTokens)
      ensures token.None? <==> FirstToken(phrase, old(pos)).None?
      ensures token.Some? ==> FirstToken(phrase, old(pos)) == Some((token.value, pos))
    {
      var next := Next();
      var c := next.value;
      if Delimiter(c).Some? {
        token := Delimiter(c);
      } else if IsDigit(c) {
        token := ReadLiteral(c);
      } else {
        token := ReadKeyword(c);
      }
    }

    /** The digit branch of `read_token`: the digit `c` just consumed and the digits after it. */
    method ReadLiteral(c: char) returns (token: Option<Token>)
      requires 0 < pos <= |phrase| && phrase[pos - 1] == c && Delimiter(c).None? && IsDigit(c)
      modifies this
      ensures phrase == old(phrase) && readTokens == old(readTokens)
      ensures token.None? <==> FirstToken(phrase, old(pos) - 1).None?
      ensures token.Some? ==> FirstToken(phrase, old(pos) - 1) == Some((token.value, pos))
    {
      ghost var here := pos - 1;
      var literal := [c];
      while pos < |phrase| && IsDigit(phrase[pos])
        invariant here < pos <= |phrase| && phrase == old(phrase) && readTokens == old(readTokens)
        invariant literal == phrase[here..pos] && |literal| <= 3
        invariant forall k :: here <= k < pos ==> IsDigit(phrase[k])
        decreases |phrase| - pos
      {
        if |literal| == 3 {
          DigitRunAtLeast(phrase, here, pos + 1);
          return None;
        }
        var d := Next();
        literal := literal + [d.value];
      }
      DigitRunExact(phrase, here, pos);
      token := Some(NumLiteral(DigitsValue(literal)));
    }

    /** The other branch of `read_token`: a keyword starting with the character `c` just consumed, or `Unknown`. */
    method ReadKeyword(c: char) returns (token: Option<Token>)
      requires 0 < pos <= |phrase| && phrase[pos - 1] == c && Delimiter(c).None? && !IsDigit(c)
      modifies this
      ensures phrase == old(phrase) && readTokens == old(readTokens)
      ensures token.Some? && FirstToken(phrase, old(pos) - 1) == Some((token.value, pos))
    {
      ghost var here := pos - 1;
      var keyword := MatchKeyword(c);
      assert [c] + phrase[pos..] == phrase[here..];
      KeywordAtShift(phrase, here);
      var next;
      match keyword {
        case Some(Multiply) =>
          next := Next();
          next := Next();
        case Some(Do) =>
          next := Next();
        case Some(Dont) =>
          next := Next();
          next := Next();
          next := Next();
          next := Next();
        case None =>
      }
      token := Some(if keyword.Some? then Keyword(keyword.value) else Unknown);
    }

    /** `sanitize_unknown_tokens`: drops the `Unknown` tokens. */
    method SanitizeUnknownTokens()
      modifies this
      ensures phrase == old(phrase) && pos == old(pos)
      ensures readTokens == Known(old(readTokens))
    {
      readTokens := Known(readTokens);
    }
  }

  lemma PrependAssoc(a: seq<Token>, b: seq<Token>, rest: Option<seq<Token>>)
    ensures Prepend(a, Prepend(b, rest)) == Prepend(a + b, rest)
  {
    if rest.Some? {
      assert a + (b + rest.value) == (a + b) + rest.value;
    }
  }

  lemma PrependNone(a: seq<Token>)
    ensures Prepend(a, None) == None
  {
  }

  /** A stretch of digits from `i` to `j` makes the run from `i` at least that long. */
  lemma {:induction false} DigitRunAtLeast(s: string, i: nat, j: nat)
    requires i <= j <= |s|
    requires forall k :: i <= k < j ==> IsDigit(s[k])
    ensures DigitRun(s, i) >= j - i
    decreases j - i
  {
    if i < j {
      DigitRunAtLeast(s, i + 1, j);
    }
  }

  /** A stretch of digits from `i` to `j` that ends at a non-digit is the run from `i`. */
  lemma DigitRunExact(s: string, i: nat, j: nat)
    requires i <= j <= |s|
    requires forall k :: i <= k < j ==> IsDigit(s[k])
    requires j == |s| || !IsDigit(s[j])
    ensures DigitRun(s, i) == j - i
  {
    DigitRunAtLeast(s, i, j);
  }

  /** Looking at `s[i..]` is looking at `s` from `i`. */
  lemma KeywordAtShift(s: string, i: nat)
    requires i <= |s|
    ensures KeywordAt(s[i..], 0) == KeywordAt(s, i)
  {
    forall w: string
      ensures StartsAt(s[i..], 0, w) <==> StartsAt(s, i, w)
    {
      if i + |w| <= |s| {
        assert s[i..][..|w|] == s[i..i + |w|];
      }
    }
  }

  // ------------------------------------------------------ scanner lemmas

  /** Four ASCII digits in a row start at `k`. */
  predicate FourDigitsAt(s: string, k: nat) {
    k + 3 < |s| && IsDigit(s[k]) && IsDigit(s[k + 1]) && IsDigit(s[k + 2]) && IsDigit(s[k + 3])
  }

  /** No four consecutive digits from index `i` on. */
  predicate NoLongRun(s: string, i: nat) {
    forall k: nat :: i <= k < |s| ==> !FourDigitsAt(s, k)
  }

  predicate IsDelimiterToken(t: Token) {
    t.BlockOpen? || t.BlockClose? || t.Seperator?
  }

  lemma Pow10Small(n: nat)
    requires n <= 3
    ensures Pow10(n) <= 1000
  {
    assert Pow10(1) == 10 && Pow10(2) == 100 && Pow10(3) == 1000;
  }

  /**
   * What the first token takes from the text: a delimiter token exactly
   * for a delimiter character; a number token for a whole run of at most
   * three digits, below 1000; any other token for characters that are no
   * digits and no delimiters. There is none exactly at four digits in a row.
   */
  lemma FirstTokenFacts(s: string, i: nat)
    requires i < |s|
    ensures FirstToken(s, i).None? <==> FourDigitsAt(s, i)
    ensures FirstToken(s, i).Some? ==> var (t, j) := FirstToken(s, i).value;
      && (Delimiter(s[i]).Some? ==> t == Delimiter(s[i]).value && j == i + 1)
      && (Delimiter(s[i]).None? ==> !IsDelimiterToken(t) && forall k :: i <= k < j ==> Delimiter(s[k]).None?)
      && (t.NumLiteral? ==> j - i <= 3 && (j == |s| || !IsDigit(s[j])) && 0 <= t.value < 1000)
      && (!t.NumLiteral? ==> forall k :: i <= k < j ==> !IsDigit(s[k]))
  {
    if Delimiter(s[i]).None? && IsDigit(s[i]) {
      var n := DigitRun(s, i);
      if n <= 3 {
        DigitsValueBound(s[i..i + n]);
        Pow10Small(n);
        assert !FourDigitsAt(s, i) by {
          if i + 3 < |s| {
            assert !IsDigit(s[i + n]);
          }
        }
      } else {
        assert IsDigit(s[i + 3]);
      }
    } else if Delimiter(s[i]).None? && KeywordAt(s, i).Some? {
      KeywordLetters(s, i);
    }
  }

  /** The characters a keyword consumes are letters. */
  lemma KeywordLetters(s: string, i: nat)
    requires KeywordAt(s, i).Some?
    ensures i + KeywordLength(KeywordAt(s, i).value) <= |s|
    ensures forall k :: i <= k < i + KeywordLength(KeywordAt(s, i).value) ==>
      !IsDigit(s[k]) && Delimiter(s[k]).None?
  {
    var w := if KeywordAt(s, i) == Some(Multiply) then "mul"
      else if KeywordAt(s, i) == Some(Dont) then "don't" else "do";
    assert s[i..i + |w|] == w;
    forall k | i <= k < i + |w|
      ensures !IsDigit(s[k]) && Delimiter(s[k]).None?
    {
      assert s[k] == w[k - i];
    }
  }

  /** Scanning succeeds exactly when no four digits stand in a row. */
  lemma {:induction false} LexSomeIff(s: string, i: nat)
    ensures LexFrom(s, i).Some? <==> NoLongRun(s, i)
    decreases |s| - i
  {
    if i < |s| {
      FirstTokenFacts(s, i);
      if FirstToken(s, i).Some? {
        var (t, j) := FirstToken(s, i).value;
        LexSomeIff(s, j);
        forall k: nat | i <= k < j
          ensures !FourDigitsAt(s, k)
        {
          if k > i && t.NumLiteral? && k + 3 < |s| {
            assert !IsDigit(s[j]);
            assert j == k + 1 || j == k + 2 || j == k + 3;
          }
        }
      }
    }
  }

  /** The first token is a `c` delimiter token exactly as often as its characters hold `c`. */
  lemma FirstTokenDelimiterCount(s: string, i: nat, c: char)
    requires i < |s| && Delimiter(c).Some? && FirstToken(s, i).Some?
    ensures var (t, j) := FirstToken(s, i).value;
      i < j <= |s| && CountOccurrences(s[i..j], c) == CountOccurrences([t], Delimiter(c).value)
  {
    FirstTokenFacts(s, i);
    var (t, j) := FirstToken(s, i).value;
    if Delimiter(s[i]).Some? {
      assert s[i..j] == [s[i]];
    } else {
      assert c !in s[i..j];
    }
  }

  /** A successful scan is the first token followed by the scan after it. */
  lemma LexStep(s: string, i: nat)
    requires i < |s| && LexFrom(s, i).Some?
    ensures FirstToken(s, i).Some?
    ensures LexFrom(s, FirstToken(s, i).value.1).Some?
    ensures LexFrom(s, i).value == [FirstToken(s, i).value.0] + LexFrom(s, FirstToken(s, i).value.1).value
  {
  }

  /** Each delimiter character yields exactly one token of its kind. */
  lemma {:induction false} LexDelimiterCount(s: string, i: nat, c: char)
    requires i <= |s| && Delimiter(c).Some? && LexFrom(s, i).Some?
    ensures CountOccurrences(LexFrom(s, i).value, Delimiter(c).value) == CountOccurrences(s[i..], c)
    decreases |s| - i
  {
    var d := Delimiter(c).value;
    if i < |s| {
      LexStep(s, i);
      FirstTokenDelimiterCount(s, i, c);
      var (t, j) := FirstToken(s, i).value;
      var rest := LexFrom(s, j).value;
      LexDelimiterCount(s, j, c);
      assert s[i..] == s[i..j] + s[j..];
      CountAppend(s[i..j], s[j..], c);
      CountAppend([t], rest, d);
    }
  }

  /** Every number token is below 1000: a literal has at most three digits. */
  lemma {:induction false} LexLiteralsSmall(s: string, i: nat)
    requires LexFrom(s, i).Some?
    ensures forall t :: t in LexFrom(s, i).value && t.NumLiteral? ==> 0 <= t.value < 1000
    decreases |s| - i
  {
    if i < |s| {
      FirstTokenFacts(s, i);
      LexLiteralsSmall(s, FirstToken(s, i).value.1);
    }
  }

  // -------------------------------------------------------------- sanitize

  /** `tokens` without its `Unknown` tokens, the rest in order. */
  function Known(tokens: seq<Token>): (r: seq<Token>)
    ensures |r| <= |tokens|
    ensures Unknown !in r
  {
    if tokens == [] then []
    else (if tokens[0] == Unknown then [] else [tokens[0]]) + Known(tokens[1..])
  }

  /** Dropping the `Unknown` tokens of two stretches one after the other. */
  lemma {:induction false} KnownAppend(a: seq<Token>, b: seq<Token>)
    ensures Known(a + b) == Known(a) + Known(b)
  {
    if a == [] {
      assert a + b == b;
    } else {
      var head := if a[0] == Unknown then [] else [a[0]];
      assert (a + b)[0] == a[0] && (a + b)[1..] == a[1..] + b;
      KnownAppend(a[1..], b);
      calc {
        Known(a + b);
        head + Known(a[1..] + b);
        head + (Known(a[1..]) + Known(b));
        (head + Known(a[1..])) + Known(b);
      }
    }
  }

  /** Every other token keeps its number of occurrences. */
  lemma {:induction false} KnownCount(tokens: seq<Token>, t: Token)
    requires t != Unknown
    ensures CountOccurrences(Known(tokens), t) == CountOccurrences(tokens, t)
  {
    if tokens != [] {
      KnownCount(tokens[1..], t);
      var head := if tokens[0] == Unknown then [] else [tokens[0]];
      CountAppend(head, Known(tokens[1..]), t);
    }
  }

  /** Without `Unknown` tokens there is nothing to drop, so sanitizing twice is sanitizing once. */
  lemma {:induction false} KnownFixed(tokens: seq<Token>)
    requires Unknown !in tokens
    ensures Known(tokens) == tokens
  {
    if tokens != [] {
      assert tokens[1..] == tokens[1..];
      assert Unknown !in tokens[1..];
      KnownFixed(tokens[1..]);
      assert [tokens[0]] + tokens[1..] == tokens;
    }
  }

  // ------------------------------------------------------------ operations

  /** An instruction being assembled: its keyword and up to two numbers. */
  datatype Operation = Operation(opType: Keyword, num1: Option<int>, num2: Option<int>) {
    predicate NoNumSet() {
      num1.None? && num2.None?
    }

    predicate OnlyNum1Set() {
      num1.Some? && num2.None?
    }

    predicate IsValidMul() {
      num1.Some? && num2.Some?
    }

    /** `set_num_1`: the first number becomes `num`, nothing else changes. */
    function SetNum1(num: int): (op: Operation)
      ensures op.opType == opType && op.num1 == Some(num) && op.num2 == num2
    {
      this.(num1 := Some(num))
    }

    /** `set_num_2`: demands a first number (the source panics without one). */
    function SetNum2(num: int): (op: Operation)
      requires num1.Some?
      ensures op.opType == opType && op.num1 == num1 && op.num2 == Some(num)
      ensures op.IsValidMul()
    {
      this.(num2 := Some(num))
    }
  }

  /** `Operation::new`: a keyword without numbers. */
  function NewOperation(k: Keyword): (op: Operation)
    ensures op.opType == k && op.NoNumSet()
  {
    Operation(k, None, None)
  }

  /** `current_op_no_num`: there is a current operation and it has no number. */
  predicate CurrentNoNum(current: Option<Operation>) {
    current.Some? && current.value.NoNumSet()
  }

  /** `current_op_only_num_1`: there is a current operation with only its first number. */
  predicate CurrentOnlyNum1(current: Option<Operation>) {
    current.Some? && current.value.OnlyNum1Set()
  }

  // ---------------------------------------------------------------- parser

  /** The fields of `Nice` that parsing changes. */
  datatype ParserState = ParserState(
    lastToken: Token,
    current: Option<Operation>,
    operations: seq<Operation>,
    doMode: bool)

  /** `Nice::new`: no token seen yet, nothing collected, collecting switched on. */
  const Initial := ParserState(Unknown, None, [], true)

  /** `parse_block_open`: an opening bracket not right after a keyword drops the operation. */
  function BlockOpenStep(st: ParserState): ParserState {
    if !st.lastToken.Keyword? then st.(current := None) else st
  }

  /**
   * `parse_block_close`: the current operation is taken; a complete `mul`
   * is collected when collecting is on, `do` and `don't` switch collecting.
   */
  function BlockCloseStep(st: ParserState): ParserState {
    if st.current.None? then st
    else
      var op := st.current.value;
      var taken := st.(current := None);
      if op.opType == Multiply && st.doMode && op.IsValidMul() then
        taken.(operations := st.operations + [op])
      else if op.opType == Do then taken.(doMode := true)
      else if op.opType == Dont then taken.(doMode := false)
      else taken
  }

  /** `parse_seperator`: a comma keeps the operation only right after its first number. */
  function SeperatorStep(st: ParserState): ParserState {
    if !st.lastToken.NumLiteral? || !CurrentOnlyNum1(st.current) then st.(current := None) else st
  }

  /**
   * `parse_num_literal`: a number right after the opening bracket is the
   * first number, one right after the comma the second; any other drops
   * the operation.
   */
  function NumLiteralStep(st: ParserState, num: int): ParserState {
    if st.lastToken == BlockOpen && CurrentNoNum(st.current) then
      st.(current := Some(st.current.value.SetNum1(num)))
    else if st.lastToken == Seperator && CurrentOnlyNum1(st.current) then
      st.(current := Some(st.current.value.SetNum2(num)))
    else st.(current := None)
  }

  /**
   * One iteration of `Nice::parse`: without a current operation only a
   * keyword matters; with one, the token is dispatched to its handler.
   * The token read becomes the last token.
   */
  function Step(st: ParserState, t: Token): ParserState {
    var next :=
      if st.current.None? then
        (if t.Keyword? then st.(current := Some(NewOperation(t.keyword))) else st)
      else
        match t
        case Keyword(k) => st.(current := Some(NewOperation(k)))
        case BlockOpen => BlockOpenStep(st)
        case BlockClose => BlockCloseStep(st)
        case Seperator => SeperatorStep(st)
        case NumLiteral(n) => NumLiteralStep(st, n)
        case Unknown => st.(current := None);
    next.(lastToken := t)
  }

  /** The state after reading `tokens` one after the other from `st`. */
  function Run(st: ParserState, tokens: seq<Token>): ParserState {
    if tokens == [] then st else Step(Run(st, tokens[..|tokens| - 1]), tokens[|tokens| - 1])
  }

  /** The parser over a list of tokens. */
  class Nice {
    var tokens: seq<Token>
    var lastToken: Token
    var currentOperation: Option<Operation>
    var operations: seq<Operation>
    var doMode: bool

    function State(): ParserState
      reads this
    {
      ParserState(lastToken, currentOperation, operations, doMode)
    }

    /** `Nice::new`. */
    constructor (tokens: seq<Token>)
      ensures this.tokens == tokens && State() == Initial
    {
      this.tokens := tokens;
      lastToken := Unknown;
      currentOperation := None;
      operations := [];
      doMode := true;
    }

    /** `parse`: reads every token in order. */
    method Parse()
      modifies this
      ensures tokens == old(tokens)
      ensures State() == Run(old(State()), tokens)
    {
      var i := 0;
      while i < |tokens|
        invariant i <= |tokens| && tokens == old(tokens)
        invariant State() == Run(old(State()), tokens[..i])
      {
        var token := tokens[i];
        assert tokens[..i + 1][..i] == tokens[..i];
        if currentOperation.None? {
          if token.Keyword? {
            currentOperation := Some(NewOperation(token.keyword));
          }
          lastToken := token;
        } else {
          match token {
            case Keyword(k) => currentOperation := Some(NewOperation(k));
            case BlockOpen => ParseBlockOpen();
            case BlockClose => ParseBlockClose();
            case Seperator => ParseSeperator();
            case NumLiteral(n) => ParseNumLiteral(n);
            case Unknown => currentOperation := None;
          }
          lastToken := token;
        }
        i := i + 1;
      }
      assert tokens[..i] == tokens;
    }

    method ParseBlockOpen()
      modifies this
      ensures tokens == old(tokens)
      ensures State() == BlockOpenStep(old(State()))
    {
      if !lastToken.Keyword? {
        currentOperation := None;
      }
    }

    method ParseBlockClose()
      modifies this
      ensures tokens == old(tokens)
      ensures State() == BlockCloseStep(old(State()))
    {
      var taken := currentOperation;
      currentOperation := None;
      if taken.Some? {
        var operation := taken.value;
        if operation.opType == Multiply && doMode && operation.IsValidMul() {
          operations := operations + [operation];
        } else if operation.opType == Do {
          doMode := true;
        } else if operation.opType == Dont {
          doMode := false;
        } else {
          currentOperation := None;
        }
      }
    }

    method ParseSeperator()
      modifies this
      ensures tokens == old(tokens)
      ensures State() == SeperatorStep(old(State()))
    {
      if !lastToken.NumLiteral? || !CurrentOnlyNum1(currentOperation) {
        currentOperation := None;
      }
    }

    method ParseNumLiteral(num: int)
      modifies this
      ensures tokens == old(tokens)
      ensures State() == NumLiteralStep(old(State()), num)
    {
      if lastToken == BlockOpen && CurrentNoNum(currentOperation) {
        currentOperation := Some(currentOperation.value.SetNum1(num));
      } else if lastToken == Seperator && CurrentOnlyNum1(currentOperation) {
        currentOperation := Some(currentOperation.value.SetNum2(num));
      } else {
        currentOperation := None;
      }
    }
  }

  // ---------------------------------------------------------- parser lemmas

  /** Every collected operation is a `mul` with both numbers. */
  ghost predicate WellFormed(st: ParserState) {
    forall op :: op in st.operations ==> op.opType == Multiply && op.IsValidMul()
  }

  /**
   * The only token that collects an operation is a closing bracket in
   * collecting mode on a complete `mul`, and it collects exactly that one.
   */
  lemma StepOperations(st: ParserState, t: Token)
    ensures Step(st, t).operations ==
      if t == BlockClose && st.doMode && st.current.Some? && st.current.value.opType == Multiply
         && st.current.value.IsValidMul()
      then st.operations + [st.current.value]
      else st.operations
  {
  }

  /** Collecting is switched only by closing a `do` (on) or a `don't` (off). */
  lemma StepDoMode(st: ParserState, t: Token)
    ensures Step(st, t).doMode ==
      if t == BlockClose && st.current.Some? && st.current.value.opType == Do then true
      else if t == BlockClose && st.current.Some? && st.current.value.opType == Dont then false
      else st.doMode
  {
  }

  /**
   * How the current operation evolves: a keyword starts a fresh one, a
   * number fills the first slot right after the bracket or the second slot
   * right after the comma, a bracket or comma may keep it, and everything
   * else (in particular a closing bracket and `Unknown`) leaves none.
   */
  lemma StepCurrent(st: ParserState, t: Token)
    ensures Step(st, t).lastToken == t
    ensures t == BlockClose || t == Unknown ==> Step(st, t).current.None?
    ensures Step(st, t).current.Some? ==>
      || (t.Keyword? && Step(st, t).current == Some(NewOperation(t.keyword)))
      || (t.NumLiteral? && st.lastToken == BlockOpen && CurrentNoNum(st.current)
          && Step(st, t).current == Some(st.current.value.SetNum1(t.value)))
      || (t.NumLiteral? && st.lastToken == Seperator && CurrentOnlyNum1(st.current)
          && Step(st, t).current == Some(st.current.value.SetNum2(t.value)))
      || ((t == BlockOpen || t == Seperator) && Step(st, t).current == st.current)
  {
  }

  /** Collected operations are never lost or changed. */
  lemma {:induction false} RunKeepsOperations(st: ParserState, tokens: seq<Token>)
    ensures |st.operations| <= |Run(st, tokens).operations|
    ensures Run(st, tokens).operations[..|st.operations|] == st.operations
  {
    if tokens != [] {
      var before := Run(st, tokens[..|tokens| - 1]);
      RunKeepsOperations(st, tokens[..|tokens| - 1]);
      StepOperations(before, tokens[|tokens| - 1]);
      if |Run(st, tokens).operations| > |before.operations| {
        assert Run(st, tokens).operations[..|before.operations|] == before.operations;
      }
    }
  }

  /** Parsing keeps every collected operation a complete `mul`. */
  lemma {:induction false} RunWellFormed(st: ParserState, tokens: seq<Token>)
    requires WellFormed(st)
    ensures WellFormed(Run(st, tokens))
  {
    if tokens != [] {
      var before := Run(st, tokens[..|tokens| - 1]);
      RunWellFormed(st, tokens[..|tokens| - 1]);
      StepOperations(before, tokens[|tokens| - 1]);
    }
  }

  /** Every number of `st` lies in `0..1000`. */
  ghost predicate NumbersSmall(st: ParserState) {
    && (forall op :: op in st.operations ==> SmallNumbers(op))
    && (st.current.Some? ==> SmallNumbers(st.current.value))
  }

  predicate SmallNumbers(op: Operation) {
    && (op.num1.Some? ==> 0 <= op.num1.value < 1000)
    && (op.num2.Some? ==> 0 <= op.num2.value < 1000)
  }

  /** The parser's numbers come from number tokens only. */
  lemma {:induction false} RunNumbersSmall(st: ParserState, tokens: seq<Token>)
    requires NumbersSmall(st)
    requires forall t :: t in tokens && t.NumLiteral? ==> 0 <= t.value < 1000
    ensures NumbersSmall(Run(st, tokens))
  {
    if tokens != [] {
      var before := Run(st, tokens[..|tokens| - 1]);
      var t := tokens[|tokens| - 1];
      assert forall u :: u in tokens[..|tokens| - 1] ==> u in tokens;
      RunNumbersSmall(st, tokens[..|tokens| - 1]);
      StepOperations(before, t);
      StepCurrent(before, t);
    }
  }

  // ---------------------------------------------------------------- totals

  /**
   * `calculate_operations`: the sum of the products, in order; the first
   * operation that is no `mul` panics (`todo!`) and the first one that
   * lacks a number makes the sum `None`.
   */
  function OperationsSum(ops: seq<Operation>): (r: Result<Option<int>>)
    ensures r.Panic? ==> exists k :: 0 <= k < |ops| && ops[k].opType != Multiply
    ensures r == Ok(None) ==> exists k :: 0 <= k < |ops| && !ops[k].IsValidMul()
  {
    if ops == [] then Ok(Some(0))
    else if ops[0].opType != Multiply then Panic("Unimplemented keyword")
    else if !ops[0].IsValidMul() then Ok(None)
    else
      match OperationsSum(ops[1..])
      case Ok(Some(rest)) => Ok(Some(ops[0].num1.value * ops[0].num2.value + rest))
      case other => other
  }

  /** `calculate_operations`, as the loop that sums the products. */
  method CalculateOperations(ops: seq<Operation>) returns (r: Result<Option<int>>)
    ensures r == OperationsSum(ops)
  {
    var sum := 0;
    var i := 0;
    while i < |ops|
      invariant i <= |ops|
      invariant OperationsSum(ops) == Shift(sum, OperationsSum(ops[i..]))
    {
      assert ops[i..][1..] == ops[i + 1..];
      var op := ops[i];
      if op.opType != Multiply {
        return Panic("Unimplemented keyword");
      }
      if op.num1.None? || op.num2.None? {
        return Ok(None);
      }
      sum := sum + op.num1.value * op.num2.value;
      i := i + 1;
    }
    assert ops[i..] == [];
    r := Ok(Some(sum));
  }

  /** A sum so far in front of the sum of the rest. */
  function Shift(sum: int, rest: Result<Option<int>>): Result<Option<int>> {
    match rest
    case Ok(Some(v)) => Ok(Some(sum + v))
    case other => other
  }

  /** Complete `mul`s always sum, and small numbers give a bounded sum. */
  lemma {:induction false} OperationsSumComplete(ops: seq<Operation>)
    requires forall op :: op in ops ==> op.opType == Multiply && op.IsValidMul()
    ensures OperationsSum(ops).Ok? && OperationsSum(ops).value.Some?
    ensures (forall op :: op in ops ==> SmallNumbers(op)) ==>
      0 <= OperationsSum(ops).value.value <= 998001 * |ops|
  {
    if ops != [] {
      assert forall op :: op in ops[1..] ==> op in ops;
      OperationsSumComplete(ops[1..]);
      var rest := OperationsSum(ops[1..]).value.value;
      var a, b := ops[0].num1.value, ops[0].num2.value;
      assert OperationsSum(ops).value.value == a * b + rest;
      if forall op :: op in ops ==> SmallNumbers(op) {
        assert SmallNumbers(ops[0]);
        ProductBound(a, b);
      }
    }
  }

  /** `999 * 999 == 998001` bounds the product of two numbers below 1000. */
  lemma ProductBound(a: int, b: int)
    requires 0 <= a < 1000 && 0 <= b < 1000
    ensures 0 <= a * b <= 998001
  {
    assert a * b <= a * 999 <= 999 * 999;
  }

  /**
   * The whole of one text: when scanning succeeds, the collected
   * operations are complete `mul`s of numbers below 1000, so the sum is
   * present, never negative and at most 999 * 999 = 998001 per operation.
   */
  lemma TextSum(s: string)
    requires Lex(s).Some?
    ensures var ops := Run(Initial, Lex(s).value).operations;
      && (forall op :: op in ops ==> op.opType == Multiply && op.IsValidMul())
      && OperationsSum(ops).Ok? && OperationsSum(ops).value.Some?
      && 0 <= OperationsSum(ops).value.value <= 998001 * |ops|
  {
    var end := Run(Initial, Lex(s).value);
    RunWellFormed(Initial, Lex(s).value);
    LexLiteralsSmall(s, 0);
    RunNumbersSmall(Initial, Lex(s).value);
    OperationsSumComplete(end.operations);
  }
}
