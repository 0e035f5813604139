/**
 * Day 5: page-ordering rules `a|b` say that page `a` is printed before
 * page `b`. Each update (a list of pages) is rebuilt page by page, inserting
 * a ruled page in front of the first already placed page it must precede;
 * an update that needed such an insertion was printed incorrectly. Part 1
 * sums the middle pages of the correct updates, part 2 those of the
 * incorrect ones after reordering.
 */
module Day05 {
  import opened Wrappers
  import opened Strings

  /** The rules of one page: the pages it must be printed before. */
  datatype Page = Page(number: nat, printedBefore: set<nat>) {
    /** `add_dependant_page`: one more page to precede. */
    function AddDependantPage(page: nat): (p: Page)
      ensures p.number == number && p.printedBefore == printedBefore + {page}
    {
      this.(printedBefore := printedBefore + {page})
    }
  }

  /** `Page::with_dependant`: a page with its first rule. */
  function WithDependant(number: nat, dependant: nat): (p: Page)
    ensures p.number == number && p.printedBefore == {dependant}
  {
    Page(number, {dependant})
  }

  type PageRules = map<nat, Page>

  datatype UpdateKind = Correct | Incorrect

  // ------------------------------------------------------------- reorder

  /** The first index of `printed` holding a page of `before`. */
  function FirstIn(printed: seq<nat>, before: set<nat>): (r: Option<nat>)
    ensures r.Some? ==>
      && r.value < |printed| && printed[r.value] in before
      && (forall j :: 0 <= j < r.value ==> printed[j] !in before)
    ensures r.None? ==> forall j :: 0 <= j < |printed| ==> printed[j] !in before
  {
    if printed == [] then None
    else if printed[0] in before then Some(0)
    else match FirstIn(printed[1..], before)
      case Some(j) => Some(j + 1)
      case None => None
  }

  /** `printed` with `page` inserted at `index`. */
  function InsertAt(printed: seq<nat>, index: nat, page: nat): (r: seq<nat>)
    requires index <= |printed|
    ensures |r| == |printed| + 1 && r[index] == page
    ensures forall j :: 0 <= j < index ==> r[j] == printed[j]
    ensures forall j :: index < j < |r| ==> r[j] == printed[j - 1]
    ensures multiset(r) == multiset(printed) + multiset{page}
  {
    assert printed == printed[..index] + printed[index..];
    printed[..index] + [page] + printed[index..]
  }

  /** Placing one more page: the order so far and whether an insertion happened. */
  function Place(printed: seq<nat>, incorrect: bool, page: nat, rules: PageRules): (seq<nat>, bool) {
    if page in rules then
      match FirstIn(printed, rules[page].printedBefore)
      case Some(index) => (InsertAt(printed, index, page), true)
      case None => (printed + [page], incorrect)
    else (printed + [page], incorrect)
  }

  /** The pages placed one after the other, from an empty order. */
  function Reorder(pages: seq<nat>, rules: PageRules): (seq<nat>, bool) {
    if pages == [] then ([], false)
    else
      var (printed, incorrect) := Reorder(pages[..|pages| - 1], rules);
      Place(printed, incorrect, pages[|pages| - 1], rules)
  }

  /**
   * `parse_with_rules`: rebuilds the update; an even number of pages panics;
   * otherwise the middle page is returned exactly when the update's
   * correctness is the one asked for.
   */
  method ParseWithRules(pages: seq<nat>, rules: PageRules, kind: UpdateKind) returns (r: Result<Option<nat>>)
    ensures r == ParseResult(pages, rules, kind)
  {
    var printed: seq<nat> := [];
    var incorrect := false;
    var i := 0;
    while i < |pages|
      invariant i <= |pages|
      invariant (printed, incorrect) == Reorder(pages[..i], rules)
    {
      var page := pages[i];
      assert pages[..i + 1][..i] == pages[..i];
      if page in rules {
        var rule := rules[page];
        var found := FirstIn(printed, rule.printedBefore);
        if found.Some? {
          incorrect := true;
          printed := InsertAt(printed, found.value, page);
        } else {
          printed := printed + [page];
        }
      } else {
        printed := printed + [page];
      }
      i := i + 1;
    }
    assert pages[..i] == pages;
    var len := |printed|;
    if len % 2 == 0 {
      return Panic("Even number of pages what's the middle?");
    }
    var shouldReturnSome := match kind
      case Correct => !incorrect
      case Incorrect => incorrect;
    r := Ok(if shouldReturnSome then Some(printed[(len - 1) / 2]) else None);
  }

  /** What `parse_with_rules` gives for one update. */
  function ParseResult(pages: seq<nat>, rules: PageRules, kind: UpdateKind): Result<Option<nat>> {
    var (printed, incorrect) := Reorder(pages, rules);
    if |printed| % 2 == 0 then Panic("Even number of pages what's the middle?")
    else if (kind == Correct) != incorrect then Ok(Some(printed[(|printed| - 1) / 2]))
    else Ok(None)
  }

  // -------------------------------------------------------- reorder lemmas

  /** Some page of `printed` is in `s`. */
  predicate Hits(printed: seq<nat>, s: set<nat>) {
    exists j :: 0 <= j < |printed| && printed[j] in s
  }

  /** Some page comes after a page it must precede. */
  predicate Violated(pages: seq<nat>, rules: PageRules) {
    exists i, j :: 0 <= j < i < |pages| && pages[i] in rules && pages[j] in rules[pages[i]].printedBefore
  }

  /** Reordering is a permutation: every page is placed exactly once. */
  lemma {:induction false} ReorderPermutation(pages: seq<nat>, rules: PageRules)
    ensures multiset(Reorder(pages, rules).0) == multiset(pages)
    ensures |Reorder(pages, rules).0| == |pages|
  {
    if pages != [] {
      var prefix := pages[..|pages| - 1];
      ReorderPermutation(prefix, rules);
      assert pages == prefix + [pages[|pages| - 1]];
    }
  }

  /** Whether a page of `q` is in `s` depends only on the pages, not their order. */
  lemma HitsPermutation(p: seq<nat>, q: seq<nat>, s: set<nat>)
    requires multiset(p) == multiset(q)
    ensures Hits(p, s) <==> Hits(q, s)
  {
    if Hits(p, s) {
      var j :| 0 <= j < |p| && p[j] in s;
      assert p[j] in multiset(q);
      var k :| 0 <= k < |q| && q[k] == p[j];
    }
    if Hits(q, s) {
      var j :| 0 <= j < |q| && q[j] in s;
      assert q[j] in multiset(p);
      var k :| 0 <= k < |p| && p[k] == q[j];
    }
  }

  /** One more page violates a rule exactly when it follows a page its rule lists. */
  lemma ViolatedSnoc(prefix: seq<nat>, page: nat, rules: PageRules)
    ensures Violated(prefix + [page], rules) <==>
      Violated(prefix, rules) || (page in rules && Hits(prefix, rules[page].printedBefore))
  {
    var q := prefix + [page];
    if Violated(q, rules) {
      var i, j :| 0 <= j < i < |q| && q[i] in rules && q[j] in rules[q[i]].printedBefore;
      assert q[j] == prefix[j];
      if i < |prefix| {
        assert q[i] == prefix[i];
      }
    }
    if Violated(prefix, rules) {
      var i, j :| 0 <= j < i < |prefix| && prefix[i] in rules && prefix[j] in rules[prefix[i]].printedBefore;
      assert q[i] == prefix[i] && q[j] == prefix[j];
    }
    if page in rules && Hits(prefix, rules[page].printedBefore) {
      var j :| 0 <= j < |prefix| && prefix[j] in rules[page].printedBefore;
      assert q[|prefix|] == page && q[j] == prefix[j];
    }
  }

  /** Placing a page marks the update incorrect exactly when it must go before a printed page. */
  lemma PlaceIncorrect(printed: seq<nat>, incorrect: bool, page: nat, rules: PageRules)
    ensures Place(printed, incorrect, page, rules).1 <==>
      incorrect || (page in rules && Hits(printed, rules[page].printedBefore))
  {
  }

  /**
   * An update is reported incorrect exactly when some page comes after a
   * page its rule says it must precede.
   */
  lemma {:induction false} ReorderIncorrectIff(pages: seq<nat>, rules: PageRules)
    ensures Reorder(pages, rules).1 <==> Violated(pages, rules)
  {
    if pages != [] {
      var n := |pages| - 1;
      var prefix, page := pages[..n], pages[n];
      assert pages == prefix + [page];
      var (printed, incorrect) := Reorder(prefix, rules);
      ReorderIncorrectIff(prefix, rules);
      ReorderPermutation(prefix, rules);
      PlaceIncorrect(printed, incorrect, page, rules);
      if page in rules {
        HitsPermutation(printed, prefix, rules[page].printedBefore);
      }
      ViolatedSnoc(prefix, page, rules);
    }
  }

  /** A correct update is placed in its own order. */
  lemma {:induction false} ReorderCorrectIdentity(pages: seq<nat>, rules: PageRules)
    requires !Reorder(pages, rules).1
    ensures Reorder(pages, rules).0 == pages
  {
    if pages != [] {
      var prefix := pages[..|pages| - 1];
      var (printed, incorrect) := Reorder(prefix, rules);
      assert !incorrect;
      ReorderCorrectIdentity(prefix, rules);
      assert pages == prefix + [pages[|pages| - 1]];
    }
  }

  /**
   * An update of even length panics; otherwise exactly one of the two
   * kinds yields its middle page.
   */
  lemma ExactlyOneKind(pages: seq<nat>, rules: PageRules)
    ensures |Reorder(pages, rules).0| == |pages|
    ensures |pages| % 2 == 0 <==> ParseResult(pages, rules, Correct).Panic?
    ensures ParseResult(pages, rules, Correct).Panic? <==> ParseResult(pages, rules, Incorrect).Panic?
    ensures |pages| % 2 == 1 ==>
      var (printed, incorrect) := Reorder(pages, rules);
      && ParseResult(pages, rules, Correct) == Ok(if incorrect then None else Some(printed[|pages| / 2]))
      && ParseResult(pages, rules, Incorrect) == Ok(if incorrect then Some(printed[|pages| / 2]) else None)
  {
    ReorderPermutation(pages, rules);
    var (printed, incorrect) := Reorder(pages, rules);
    var n := |printed|;
    assert n == |pages|;
    if n % 2 == 1 {
      assert (n - 1) / 2 == n / 2;
    }
  }

  // ------------------------------------------------------------------ sums

  /**
   * One part of `main`: the sum of the middle pages the given kind yields;
   * the first update of even length panics.
   */
  function KindSum(updates: seq<seq<nat>>, rules: PageRules, kind: UpdateKind): Result<nat> {
    if updates == [] then Ok(0)
    else
      match ParseResult(updates[0], rules, kind)
      case Panic(reason) => Panic(reason)
      case Ok(middle) =>
        match KindSum(updates[1..], rules, kind)
        case Panic(reason) => Panic(reason)
        case Ok(rest) => Ok((if middle.Some? then middle.value else 0) + rest)
  }

  /** Some update has an even number of pages. */
  predicate SomeEven(updates: seq<seq<nat>>) {
    exists i :: 0 <= i < |updates| && |updates[i]| % 2 == 0
  }

  /** The middle pages of all reordered updates, summed. */
  function MiddleSum(updates: seq<seq<nat>>, rules: PageRules): nat
    requires !SomeEven(updates)
  {
    if updates == [] then 0
    else
      ReorderPermutation(updates[0], rules);
      assert !SomeEven(updates[1..]) by {
        forall i | 0 <= i < |updates| - 1 ensures |updates[1..][i]| % 2 == 1 {
          assert updates[1..][i] == updates[i + 1];
        }
      }
      Reorder(updates[0], rules).0[|updates[0]| / 2] + MiddleSum(updates[1..], rules)
  }

  /**
   * Both parts panic exactly when some update has an even number of pages;
   * otherwise every update counts in exactly one part, so the two answers
   * add up to the sum of all middle pages.
   */
  lemma {:induction false} PartsAddUp(updates: seq<seq<nat>>, rules: PageRules)
    ensures KindSum(updates, rules, Correct).Panic? <==> SomeEven(updates)
    ensures KindSum(updates, rules, Incorrect).Panic? <==> SomeEven(updates)
    ensures !SomeEven(updates) ==>
      KindSum(updates, rules, Correct).value + KindSum(updates, rules, Incorrect).value == MiddleSum(updates, rules)
  {
    if updates != [] {
      var u, rest := updates[0], updates[1..];
      ExactlyOneKind(u, rules);
      PartsAddUp(rest, rules);
      assert SomeEven(updates) <==> |u| % 2 == 0 || SomeEven(rest) by {
        if SomeEven(rest) {
          var i :| 0 <= i < |rest| && |rest[i]| % 2 == 0;
          assert updates[i + 1] == rest[i];
        }
        if SomeEven(updates) {
          var i :| 0 <= i < |updates| && |updates[i]| % 2 == 0;
          if i > 0 {
            assert rest[i - 1] == updates[i];
          }
        }
      }
    }
  }

  /** `main` after `read_input`: both parts' sums. */
  function Answers(lines: seq<string>): (r: Result<(nat, nat)>)
    ensures r.Panic? <==> ReadLines(lines).Panic? || SomeEven(ReadLines(lines).value.updates)
    ensures r.Ok? ==> ReadLines(lines).Ok? && !SomeEven(ReadLines(lines).value.updates)
    ensures r.Ok? ==>
      r.value.0 + r.value.1 == MiddleSum(ReadLines(lines).value.updates, ReadLines(lines).value.rules)
  {
    match ReadLines(lines)
    case Panic(reason) => Panic(reason)
    case Ok(input) =>
      PartsAddUp(input.updates, input.rules);
      match (KindSum(input.updates, input.rules, Correct), KindSum(input.updates, input.rules, Incorrect))
      case (Ok(part1), Ok(part2)) => Ok((part1, part2))
      case (Panic(reason), _) => Panic(reason)
      case (_, Panic(reason)) => Panic(reason)
  }

  // ----------------------------------------------------------------- input

  /** `part.trim().parse::<u32>()`: digits below `2^32`, an optional `+`. */
  function ParseU32(s: string): Option<nat> {
    match ParseNat(Trim(s))
    case Some(n) => if n < 0x1_0000_0000 then Some(n) else None
    case None => None
  }

  /** Every piece parsed, or `None` when one does not parse (the source panics). */
  function Numbers(pieces: seq<string>): (r: Option<seq<nat>>)
    ensures r.Some? ==> |r.value| == |pieces|
  {
    if pieces == [] then Some([])
    else
      match (ParseU32(pieces[0]), Numbers(pieces[1..]))
      case (Some(n), Some(rest)) => Some([n] + rest)
      case _ => None
  }

  /**
   * A rule line `a|b`: its first two numbers; further pieces are parsed and
   * ignored. A piece that does not parse, or fewer than two pieces, is a panic.
   */
  function RuleOf(line: string): Result<(nat, nat)> {
    match Numbers(Split(line, '|'))
    case None => Panic("failed to parse page_rule")
    case Some(v) => if |v| < 2 then Panic("index out of bounds") else Ok((v[0], v[1]))
  }

  /** An update line: comma-separated pages. */
  function UpdateOf(line: string): Option<seq<nat>> {
    Numbers(Split(line, ','))
  }

  /** Recording the rule `a|b`: a new entry for `a`, or one more page in its entry. */
  function AddRule(rules: PageRules, a: nat, b: nat): (r: PageRules)
    ensures r.Keys == rules.Keys + {a}
    ensures forall x, y :: x in r && y in r[x].printedBefore <==>
      (x in rules && y in rules[x].printedBefore) || (x == a && y == b)
    ensures forall x :: x in r ==> r[x].number == if x in rules then rules[x].number else x
  {
    if a in rules then rules[a := rules[a].AddDependantPage(b)]
    else rules[a := WithDependant(a, b)]
  }

  /** What `read_input` has built so far. */
  datatype Input = Input(rules: PageRules, updates: seq<seq<nat>>, lineBreakOccured: bool)

  const NoInput := Input(map[], [], false)

  /** How a rule line and an update line are parsed. */
  type RuleParser = string -> Result<(nat, nat)>
  type UpdateParser = string -> Option<seq<nat>>

  /**
   * One line of `read_input`, whatever the two line parsers: an empty line
   * marks the break (and is skipped); before the first break a line is a
   * rule, after it an update.
   */
  function StepWith(st: Input, line: string, rule: RuleParser, update: UpdateParser): Result<Input> {
    if line == "" then Ok(st.(lineBreakOccured := true))
    else if st.lineBreakOccured then
      match update(line)
      case Some(u) => Ok(st.(updates := st.updates + [u]))
      case None => Panic("failed to parse update")
    else
      match rule(line)
      case Ok((a, b)) => Ok(st.(rules := AddRule(st.rules, a, b)))
      case Panic(reason) => Panic(reason)
  }

  /** The lines read one after the other; the first panic ends the reading. */
  function LinesWith(lines: seq<string>, rule: RuleParser, update: UpdateParser): Result<Input> {
    if lines == [] then Ok(NoInput)
    else
      match LinesWith(lines[..|lines| - 1], rule, update)
      case Ok(st) => StepWith(st, lines[|lines| - 1], rule, update)
      case Panic(reason) => Panic(reason)
  }

  /** One line of `read_input`. */
  function ReadStep(st: Input, line: string): Result<Input> {
    StepWith(st, line, RuleOf, UpdateOf)
  }

  /** The lines of the file, read by `read_input`. */
  function ReadLines(lines: seq<string>): Result<Input> {
    LinesWith(lines, RuleOf, UpdateOf)
  }

  /** `read_input`, over the lines of the file. */
  method ReadInput(lines: seq<string>) returns (r: Result<(PageRules, seq<seq<nat>>)>)
    ensures r.Panic? <==> ReadLines(lines).Panic?
    ensures r.Ok? ==> r.value == (ReadLines(lines).value.rules, ReadLines(lines).value.updates)
  {
    var pageRules: PageRules := map[];
    var updates: seq<seq<nat>> := [];
    var lineBreakOccured := false;
    var i := 0;
    while i < |lines|
      invariant i <= |lines|
      invariant ReadLines(lines[..i]) == Ok(Input(pageRules, updates, lineBreakOccured))
    {
      assert lines[..i + 1][..i] == lines[..i];
      var next := ReadLine(pageRules, updates, lineBreakOccured, lines[i]);
      if next.Panic? {
        PanicStays(lines, i + 1);
        return Panic(next.reason);
      }
      pageRules, updates, lineBreakOccured := next.value.rules, next.value.updates, next.value.lineBreakOccured;
      i := i + 1;
    }
    assert lines[..i] == lines;
    r := Ok((pageRules, updates));
  }

  /** The body of `read_input`'s loop: one line. */
  method ReadLine(pageRules: PageRules, updates: seq<seq<nat>>, lineBreakOccured: bool, line: string)
    returns (r: Result<Input>)
    ensures r == ReadStep(Input(pageRules, updates, lineBreakOccured), line)
  {
    if line == "" {
      return Ok(Input(pageRules, updates, true));
    }
    if lineBreakOccured {
      var update := UpdateOf(line);
      if update.None? {
        return Panic("failed to parse update");
      }
      return Ok(Input(pageRules, updates + [update.value], lineBreakOccured));
    }
    var pageRule := Numbers(Split(line, '|'));
    if pageRule.None? {
      return Panic("failed to parse page_rule");
    }
    if |pageRule.value| < 2 {
      return Panic("index out of bounds");
    }
    var a, b := pageRule.value[0], pageRule.value[1];
    var rules := pageRules;
    if a in rules {
      var page := rules[a];
      rules := rules[a := page.AddDependantPage(b)];
    } else {
      rules := rules[a := WithDependant(a, b)];
    }
    return Ok(Input(rules, updates, lineBreakOccured));
  }

  /** Once a prefix panics, so does every longer one. */
  lemma {:induction false} PanicStays(lines: seq<string>, i: nat)
    requires i <= |lines| && ReadLines(lines[..i]).Panic?
    ensures ReadLines(lines).Panic?
    decreases |lines| - i
  {
    if i < |lines| {
      assert lines[..i + 1][..i] == lines[..i];
      PanicStays(lines, i + 1);
    } else {
      assert lines[..i] == lines;
    }
  }

  // ----------------------------------------------------------- input lemmas

  /** The index of the first empty line, or the number of lines. */
  function FirstBlank(lines: seq<string>): (k: nat)
    ensures k <= |lines|
    ensures forall j :: 0 <= j < k ==> lines[j] != ""
    ensures k < |lines| ==> lines[k] == ""
  {
    if lines == [] then 0
    else if lines[0] == "" then 0
    else 1 + FirstBlank(lines[1..])
  }

  /** The lines after the first empty line. */
  function AfterBlank(lines: seq<string>): seq<string> {
    if FirstBlank(lines) < |lines| then lines[FirstBlank(lines) + 1..] else []
  }

  /** Every non-empty line is an update. */
  predicate ValidUpdates(ls: seq<string>, update: UpdateParser) {
    forall i :: 0 <= i < |ls| && ls[i] != "" ==> update(ls[i]).Some?
  }

  /** The updates of the non-empty lines, in order. */
  function UpdatesIn(ls: seq<string>, update: UpdateParser): seq<seq<nat>>
    requires ValidUpdates(ls, update)
  {
    if ls == [] then []
    else
      UpdatesIn(ls[..|ls| - 1], update) + (if ls[|ls| - 1] == "" then [] else [update(ls[|ls| - 1]).value])
  }

  /** The first empty line of `lines + [line]`. */
  lemma FirstBlankSnoc(lines: seq<string>, line: string)
    ensures FirstBlank(lines + [line]) ==
      if FirstBlank(lines) < |lines| || line == "" then FirstBlank(lines) else |lines| + 1
  {
    var k := FirstBlank(lines + [line]);
    var k0 := FirstBlank(lines);
    assert forall j :: 0 <= j < |lines| ==> (lines + [line])[j] == lines[j];
    if k0 < |lines| {
      assert (lines + [line])[k0] == "";
    } else if line == "" {
      assert (lines + [line])[|lines|] == "";
    }
  }

  /** Past the first empty line, one more line extends the lines after it. */
  lemma AfterBlankSnoc(prefix: seq<string>, line: string)
    ensures FirstBlank(prefix) < |prefix| ==> AfterBlank(prefix + [line]) == AfterBlank(prefix) + [line]
    ensures FirstBlank(prefix) == |prefix| ==> AfterBlank(prefix + [line]) == []
  {
    FirstBlankSnoc(prefix, line);
    var k := FirstBlank(prefix);
    if k < |prefix| {
      assert (prefix + [line])[k + 1..] == prefix[k + 1..] + [line];
    }
  }

  /** One more line after the break: valid when it is empty or an update, which it adds. */
  lemma {:induction false} ValidUpdatesSnoc(ls: seq<string>, line: string, update: UpdateParser)
    ensures ValidUpdates(ls + [line], update) <==> ValidUpdates(ls, update) && (line != "" ==> update(line).Some?)
    ensures ValidUpdates(ls + [line], update) ==>
      UpdatesIn(ls + [line], update) == UpdatesIn(ls, update) + (if line == "" then [] else [update(line).value])
  {
    var q := ls + [line];
    assert q[..|q| - 1] == ls;
    assert forall i :: 0 <= i < |ls| ==> q[i] == ls[i];
    assert q[|ls|] == line;
  }

  /** The rule lines of `prefix + [line]`: those of `prefix`, and `line` while no break was seen. */
  lemma RulesOkSnoc(prefix: seq<string>, line: string, rule: RuleParser)
    ensures (forall i :: 0 <= i < FirstBlank(prefix + [line]) ==> rule((prefix + [line])[i]).Ok?) <==>
      && (forall i :: 0 <= i < FirstBlank(prefix) ==> rule(prefix[i]).Ok?)
      && (FirstBlank(prefix) == |prefix| && line != "" ==> rule(line).Ok?)
  {
    FirstBlankSnoc(prefix, line);
    var q := prefix + [line];
    assert forall i :: 0 <= i < |prefix| ==> q[i] == prefix[i];
    assert q[|prefix|] == line;
  }

  /**
   * The layout every reading expects, whatever the line parsers: it succeeds
   * exactly when every line before the first empty one is a rule and every
   * non-empty line after it an update; the break flag records that empty
   * line; the updates are those lines' updates in order.
   */
  lemma {:induction false} LinesWithLayout(lines: seq<string>, rule: RuleParser, update: UpdateParser)
    ensures LinesWith(lines, rule, update).Ok? <==>
      (forall i :: 0 <= i < FirstBlank(lines) ==> rule(lines[i]).Ok?) && ValidUpdates(AfterBlank(lines), update)
    ensures LinesWith(lines, rule, update).Ok? ==>
      && (LinesWith(lines, rule, update).value.lineBreakOccured <==> FirstBlank(lines) < |lines|)
      && LinesWith(lines, rule, update).value.updates == UpdatesIn(AfterBlank(lines), update)
  {
    if lines != [] {
      var n := |lines| - 1;
      var prefix, line := lines[..n], lines[n];
      assert lines == prefix + [line];
      LinesWithLayout(prefix, rule, update);
      FirstBlankSnoc(prefix, line);
      AfterBlankSnoc(prefix, line);
      RulesOkSnoc(prefix, line, rule);
      ValidUpdatesSnoc(AfterBlank(prefix), line, update);
      var before := LinesWith(prefix, rule, update);
      if before.Ok? {
        assert LinesWith(lines, rule, update) == StepWith(before.value, line, rule, update);
        StepWithFacts(before.value, line, rule, update);
      } else {
        assert LinesWith(lines, rule, update).Panic?;
      }
    }
  }

  /** One line: when it is accepted, and what it adds. */
  lemma StepWithFacts(st: Input, line: string, rule: RuleParser, update: UpdateParser)
    ensures StepWith(st, line, rule, update).Ok? <==>
      line == "" || (st.lineBreakOccured && update(line).Some?) || (!st.lineBreakOccured && rule(line).Ok?)
    ensures StepWith(st, line, rule, update).Ok? ==>
      && StepWith(st, line, rule, update).value.lineBreakOccured == (st.lineBreakOccured || line == "")
      && StepWith(st, line, rule, update).value.updates ==
           st.updates + (if line != "" && st.lineBreakOccured then [update(line).value] else [])
  {
  }

  /**
   * The rules every reading collects, whatever the line parsers: `b` is in
   * the entry of `a` exactly when some line before the first empty one is
   * the rule `a|b`; every entry carries its own page number.
   */
  lemma {:induction false} LinesWithRules(lines: seq<string>, rule: RuleParser, update: UpdateParser)
    requires LinesWith(lines, rule, update).Ok?
    ensures var rules := LinesWith(lines, rule, update).value.rules;
      forall a, b :: a in rules && b in rules[a].printedBefore <==>
        exists i :: 0 <= i < FirstBlank(lines) && rule(lines[i]) == Ok((a, b))
    ensures var rules := LinesWith(lines, rule, update).value.rules;
      forall a :: a in rules ==> rules[a].number == a
  {
    if lines != [] {
      var n := |lines| - 1;
      var prefix, line := lines[..n], lines[n];
      assert lines == prefix + [line];
      LinesWithLayout(prefix, rule, update);
      LinesWithRules(prefix, rule, update);
      FirstBlankSnoc(prefix, line);
      assert forall j :: 0 <= j < n ==> lines[j] == prefix[j];
      var st := LinesWith(prefix, rule, update).value;
      if line != "" && !st.lineBreakOccured {
        var (a0, b0) := rule(line).value;
        RulesAfterRule(prefix, line, st.rules, a0, b0, rule);
      } else {
        RulesUnchanged(prefix, line, st.rules, FirstBlank(prefix), rule);
      }
    }
  }

  /** A rule line before the break adds exactly its own pair. */
  lemma RulesAfterRule(prefix: seq<string>, line: string, rules: PageRules, a0: nat, b0: nat, rule: RuleParser)
    requires rule(line) == Ok((a0, b0))
    requires forall a, b :: a in rules && b in rules[a].printedBefore <==>
      exists i :: 0 <= i < |prefix| && rule(prefix[i]) == Ok((a, b))
    ensures var added := AddRule(rules, a0, b0);
      forall a, b :: a in added && b in added[a].printedBefore <==>
        exists i :: 0 <= i < |prefix| + 1 && rule((prefix + [line])[i]) == Ok((a, b))
  {
    var lines := prefix + [line];
    var added := AddRule(rules, a0, b0);
    forall a, b
      ensures a in added && b in added[a].printedBefore <==>
        exists i :: 0 <= i < |prefix| + 1 && rule(lines[i]) == Ok((a, b))
    {
      if a == a0 && b == b0 {
        assert rule(lines[|prefix|]) == Ok((a, b));
      }
      if exists i :: 0 <= i < |prefix| + 1 && rule(lines[i]) == Ok((a, b)) {
        var i :| 0 <= i < |prefix| + 1 && rule(lines[i]) == Ok((a, b));
        if i < |prefix| {
          assert rule(prefix[i]) == Ok((a, b));
        }
      }
      if exists i :: 0 <= i < |prefix| && rule(prefix[i]) == Ok((a, b)) {
        var i :| 0 <= i < |prefix| && rule(prefix[i]) == Ok((a, b));
        assert rule(lines[i]) == Ok((a, b));
      }
    }
  }

  /** A line that adds no rule leaves the rules read from the first `k` lines. */
  lemma RulesUnchanged(prefix: seq<string>, line: string, rules: PageRules, k: nat, rule: RuleParser)
    requires k <= |prefix|
    requires forall a, b :: a in rules && b in rules[a].printedBefore <==>
      exists i :: 0 <= i < k && rule(prefix[i]) == Ok((a, b))
    ensures forall a, b :: a in rules && b in rules[a].printedBefore <==>
      exists i :: 0 <= i < k && rule((prefix + [line])[i]) == Ok((a, b))
  {
    var lines := prefix + [line];
    forall a, b
      ensures a in rules && b in rules[a].printedBefore <==>
        exists i :: 0 <= i < k && rule(lines[i]) == Ok((a, b))
    {
      if exists i :: 0 <= i < k && rule(prefix[i]) == Ok((a, b)) {
        var i :| 0 <= i < k && rule(prefix[i]) == Ok((a, b));
        assert rule(lines[i]) == Ok((a, b));
      }
      if exists i :: 0 <= i < k && rule(lines[i]) == Ok((a, b)) {
        var i :| 0 <= i < k && rule(lines[i]) == Ok((a, b));
        assert rule(prefix[i]) == Ok((a, b));
      }
    }
  }

  /**
   * What `read_input` accepts and returns: the layout and the rules above,
   * with the source's own line parsers.
   */
  lemma ReadLinesLayout(lines: seq<string>)
    ensures ReadLines(lines).Ok? <==>
      (forall i :: 0 <= i < FirstBlank(lines) ==> RuleOf(lines[i]).Ok?) && ValidUpdates(AfterBlank(lines), UpdateOf)
    ensures ReadLines(lines).Ok? ==>
      && (ReadLines(lines).value.lineBreakOccured <==> FirstBlank(lines) < |lines|)
      && ReadLines(lines).value.updates == UpdatesIn(AfterBlank(lines), UpdateOf)
    ensures ReadLines(lines).Ok? ==>
      var rules := ReadLines(lines).value.rules;
      && (forall a, b :: a in rules && b in rules[a].printedBefore <==>
           exists i :: 0 <= i < FirstBlank(lines) && RuleOf(lines[i]) == Ok((a, b)))
      && (forall a :: a in rules ==> rules[a].number == a)
  {
    LinesWithLayout(lines, RuleOf, UpdateOf);
    if ReadLines(lines).Ok? {
      LinesWithRules(lines, RuleOf, UpdateOf);
    }
  }

  // ---------------------------------------------------------------- golden

  /** The rule `97|75` moves page 97 in front of 75: the update is incorrect, with middle 75. */
  lemma GoldenInsertion(pages: seq<nat>, rules: PageRules)
    requires pages == [75, 97, 47] && rules == map[97 := Page(97, {75})]
    ensures ParseResult(pages, rules, Incorrect) == Ok(Some(75))
    ensures ParseResult(pages, rules, Correct) == Ok(None)
  {
    GoldenThreePages(pages, rules);
    var (printed, incorrect) := Reorder(pages, rules);
    assert |printed| == 3 && printed[(|printed| - 1) / 2] == 75 && incorrect;
  }

  /** The whole example: 97 goes in front of 75 and 47 comes last. */
  lemma GoldenThreePages(pages: seq<nat>, rules: PageRules)
    requires pages == [75, 97, 47] && rules == map[97 := Page(97, {75})]
    ensures Reorder(pages, rules) == ([97, 75, 47], true)
  {
    GoldenTwoPages(pages[..2], rules);
    assert 47 !in rules;
    assert [97, 75] + [47] == [97, 75, 47];
  }

  /** The first two pages of the example: 97 goes in front of 75. */
  lemma GoldenTwoPages(pages: seq<nat>, rules: PageRules)
    requires pages == [75, 97] && rules == map[97 := Page(97, {75})]
    ensures Reorder(pages, rules) == ([97, 75], true)
  {
    GoldenOnePage(pages[..1], rules);
    assert 97 in rules && rules[97].printedBefore == {75};
    assert FirstIn([75], {75}) == Some(0);
    assert InsertAt([75], 0, 97) == [97, 75];
  }

  /** The first page of the example is printed as it is. */
  lemma GoldenOnePage(pages: seq<nat>, rules: PageRules)
    requires pages == [75] && rules == map[97 := Page(97, {75})]
    ensures Reorder(pages, rules) == ([75], false)
  {
    assert pages[..0] == [];
    assert 75 !in rules;
    assert Reorder([], rules) == ([], false);
    assert [] + [75] == [75];
    assert Place([], false, 75, rules) == ([75], false);
  }

  /**
   * Pages placed earlier are not moved again: with `3|1` and `2|3`, the
   * update `1,2,3` is rebuilt as `3,1,2`, which still prints page 2
   * after page 3 although 2 must precede it.
   */
  lemma ReorderCanBreakRule(pages: seq<nat>, rules: PageRules)
    requires pages == [1, 2, 3] && rules == map[3 := Page(3, {1}), 2 := Page(2, {3})]
    ensures Reorder(pages, rules) == ([3, 1, 2], true)
    ensures Violated(Reorder(pages, rules).0, rules)
  {
    BrokenRuleTwoPages(pages[..2], rules);
    assert 3 in rules && rules[3].printedBefore == {1};
    assert FirstIn([1, 2], {1}) == Some(0);
    assert InsertAt([1, 2], 0, 3) == [3, 1, 2];
    var printed := [3, 1, 2];
    assert printed[2] in rules && printed[0] in rules[printed[2]].printedBefore;
  }

  /** The first two pages: 2 finds no page 3 to precede and goes last. */
  lemma BrokenRuleTwoPages(pages: seq<nat>, rules: PageRules)
    requires pages == [1, 2] && rules == map[3 := Page(3, {1}), 2 := Page(2, {3})]
    ensures Reorder(pages, rules) == ([1, 2], false)
  {
    assert pages[..1] == [1] && pages[..1][..0] == [];
    assert 1 !in rules;
    assert Reorder([], rules) == ([], false);
    assert [] + [1] == [1];
    assert Reorder(pages[..1], rules) == ([1], false);
    assert 2 in rules && rules[2].printedBefore == {3};
    assert FirstIn([1], {3}) == None;
    assert [1] + [2] == [1, 2];
  }
}
