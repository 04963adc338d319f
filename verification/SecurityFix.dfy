/** `--fix-security`: rewrite the security block of every operation to the schemes its guards require. */
module SecurityFix {
  import opened Common
  import opened SwaggerLines

  const PREFERRED: seq<string> := ["CookieAuth", "BearerAuth", "InternalServiceAuth", "WebhookHmacAuth"]

  predicate IsPrimary(scheme: string) {
    scheme in PREFERRED
  }

  /** Expected primary schemes per operation. */
  type Expectation = map<string, set<string>>

  /** The expected schemes are only ever taken from the four primary ones. */
  ghost predicate OnlyPrimary(expected: Expectation) {
    forall key | key in expected :: forall s | s in expected[key] :: IsPrimary(s)
  }

  function NonPrimary(schemes: seq<string>): seq<string> {
    if schemes == [] then []
    else if IsPrimary(schemes[0]) then NonPrimary(schemes[1..])
    else [schemes[0]] + NonPrimary(schemes[1..])
  }

  function Ordered(expected: set<string>, order: seq<string>): seq<string> {
    if order == [] then []
    else if order[0] in expected then [order[0]] + Ordered(expected, order[1..])
    else Ordered(expected, order[1..])
  }

  /** The schemes an operation should document, given the expected ones and those it documents. */
  function Reconciled(expected: set<string>, schemes: seq<string>): seq<string> {
    if expected != {} then Ordered(expected, PREFERRED) else NonPrimary(schemes)
  }

  function BlockLines(schemes: seq<string>): (lines: seq<string>)
    ensures lines != []
  {
    if schemes == [] then [NO_SECURITY] else [SECURITY] + Requirements(schemes)
  }

  /** The schemes that a security line governs: the requirement lines below it, unless it is closed. */
  function Governed(head: string, rest: seq<string>): (schemes: seq<string>)
    ensures |schemes| <= |rest|
  {
    if head == SECURITY then Run(rest) else []
  }

  /** The rewritten lines, for a scan that stands at `at`. */
  function Rewritten(lines: seq<string>, at: Place, expected: Expectation): seq<string>
    decreases |lines|
  {
    if lines == [] then []
    else
      var line, rest, next := lines[0], lines[1..], Advance(at, lines[0]);
      if !IsSecurityLine(line) || KeyAt(next) !in expected then [line] + Rewritten(rest, next, expected)
      else
        var schemes := Governed(line, rest);
        BlockLines(Reconciled(expected[KeyAt(next)], schemes)) + Rewritten(rest[|schemes|..], next, expected)
  }

  // ---- What a file documents

  /**
   * A security block: its operation, whether its line is the bare `security:`, the requirement lines right below, and
   * what else still belongs to its value.
   */
  datatype Block = Block(key: string, open: bool, run: seq<string>, below: Below) {
    /** The requirements that the fixer takes for the block's own. */
    function Schemes(): seq<string> {
      if open then run else []
    }

    /** Requirement lines that follow a closed `security: []` and so belong to nothing. */
    function Stray(): seq<string> {
      if open then [] else run
    }
  }

  function Headed(head: string, key: string, rest: seq<string>): Block {
    Block(key, head == SECURITY, Run(rest), BelowOf(AfterRun(rest)))
  }

  function Blocks(lines: seq<string>, at: Place): seq<Block> {
    if lines == [] then []
    else
      var line, rest, next := lines[0], lines[1..], Advance(at, lines[0]);
      if IsSecurityLine(line) then [Headed(line, KeyAt(next), rest)] + Blocks(rest, next) else Blocks(rest, next)
  }

  /** What the rewrite should make of a block. */
  function Fixed(b: Block, expected: Expectation): Block {
    if b.key !in expected then b
    else if expected[b.key] != {} then Block(b.key, true, Ordered(expected[b.key], PREFERRED) + b.Stray(), b.below)
    else
      var kept := NonPrimary(b.Schemes());
      Block(b.key, kept != [], if kept != [] then kept else b.Stray(), b.below)
  }

  lemma BlocksCons(line: string, tail: seq<string>, at: Place)
    ensures var next := Advance(at, line);
            Blocks([line] + tail, at) ==
            if IsSecurityLine(line) then [Headed(line, KeyAt(next), tail)] + Blocks(tail, next)
            else Blocks(tail, next)
  {
    assert ([line] + tail)[1..] == tail;
  }

  lemma RewrittenCons(line: string, tail: seq<string>, at: Place, expected: Expectation)
    ensures var next, schemes := Advance(at, line), Governed(line, tail);
            Rewritten([line] + tail, at, expected) ==
            if !IsSecurityLine(line) || KeyAt(next) !in expected then [line] + Rewritten(tail, next, expected)
            else BlockLines(Reconciled(expected[KeyAt(next)], schemes)) + Rewritten(tail[|schemes|..], next, expected)
  {
    assert ([line] + tail)[1..] == tail;
  }

  function AllFixed(blocks: seq<Block>, expected: Expectation): seq<Block> {
    if blocks == [] then [] else [Fixed(blocks[0], expected)] + AllFixed(blocks[1..], expected)
  }

  function Recognised(blocks: seq<Block>, expected: Expectation): nat {
    if blocks == [] then 0 else (if blocks[0].key in expected then 1 else 0) + Recognised(blocks[1..], expected)
  }

  // ---- The loops

  method PreserveNonPrimary(lines: seq<string>, start: nat) returns (preserved: seq<string>, index: nat)
    requires start < |lines|
    ensures index == start + |Run(lines[start + 1..])| < |lines|
    ensures preserved == Requirements(NonPrimary(Run(lines[start + 1..])))
  {
    preserved, index := [], start;
    ghost var goal := Requirements(NonPrimary(Run(lines[start + 1..])));
    assert [] + goal == goal;
    while index + 1 < |lines| && RequirementOf(lines[index + 1]).Some?
      invariant start <= index < |lines|
      invariant index + |Run(lines[index + 1..])| == start + |Run(lines[start + 1..])|
      invariant Preserving(preserved, lines[index + 1..], goal)
    {
      index := index + 1;
      var scheme := RequirementOf(lines[index]).value;
      RunStep(lines, index);
      NonPrimaryStep(preserved, scheme, Run(lines[index + 1..]));
      if !IsPrimary(scheme) {
        RequirementIsOwnShape(lines[index]);
        preserved := preserved + [lines[index]];
      }
    }
    assert preserved + [] == preserved;
  }

  ghost predicate Preserving(preserved: seq<string>, left: seq<string>, goal: seq<string>) {
    preserved + Requirements(NonPrimary(Run(left))) == goal
  }

  lemma NonPrimaryStep(preserved: seq<string>, scheme: string, rest: seq<string>)
    ensures preserved + Requirements(NonPrimary([scheme] + rest)) ==
            (if IsPrimary(scheme) then preserved else preserved + [Requirement(scheme)])
                + Requirements(NonPrimary(rest))
  {
    assert ([scheme] + rest)[1..] == rest;
    if !IsPrimary(scheme) {
      assert NonPrimary([scheme] + rest)[1..] == NonPrimary(rest);
      Regroup(preserved, [Requirement(scheme)], Requirements(NonPrimary(rest)));
    }
  }

  lemma RunStep(lines: seq<string>, index: nat)
    requires index < |lines| && RequirementOf(lines[index]).Some?
    ensures Run(lines[index..]) == [RequirementOf(lines[index]).value] + Run(lines[index + 1..])
  {
    assert lines[index..][1..] == lines[index + 1..];
  }

  /** The block headed at `start`, and the index of the line after the lines it replaces. */
  method FixBlock(lines: seq<string>, start: nat, wanted: set<string>) returns (block: seq<string>, next: nat)
    requires start < |lines| && IsSecurityLine(lines[start])
    requires forall s | s in wanted :: IsPrimary(s)
    ensures start < next <= |lines|
    ensures var rest := lines[start + 1..];
            var governed := Governed(lines[start], rest);
            && next == start + 1 + |governed| && lines[next..] == rest[|governed|..]
            && block == BlockLines(Reconciled(wanted, governed))
  {
    var preserved: seq<string>, index := [], start;
    if lines[start] == SECURITY {
      preserved, index := PreserveNonPrimary(lines, index);
    }
    block := Reconcile(wanted, preserved, Governed(lines[start], lines[start + 1..]));
    next := index + 1;
  }

  method FixSecurity(lines: seq<string>, expected: Expectation) returns (output: seq<string>, changes: nat)
    requires OnlyPrimary(expected)
    ensures output == Rewritten(lines, START, expected)
    ensures changes == Recognised(Blocks(lines, START), expected)
  {
    output, changes := [], 0;
    var at := START;
    var index := 0;
    ghost var goal, count := Rewritten(lines, at, expected), Recognised(Blocks(lines, at), expected);
    assert lines[0..] == lines && [] + goal == goal;
    while index < |lines|
      invariant 0 <= index <= |lines|
      invariant Heading(output, changes, lines[index..], at, expected, goal, count)
    {
      var line := lines[index];
      ghost var rest, was := lines[index + 1..], at;
      assert lines[index..] == [line] + rest;
      at := Advance(at, line);
      if !IsSecurityLine(line) || KeyAt(at) !in expected {
        LineIsKept(line, rest, was, expected, output, changes, goal, count);
        output := output + [line];
        index := index + 1;
      } else {
        BlockIsReconciled(line, rest, was, expected, output, changes, goal, count);
        var block;
        block, index := FixBlock(lines, index, expected[KeyAt(at)]);
        output := output + block;
        changes := changes + 1;
      }
    }
    assert lines[index..] == [] && output + [] == output;
  }

  /** What the loop has written, followed by the rewrite of what is left, is the whole rewrite. */
  ghost predicate Heading(output: seq<string>, changes: nat, left: seq<string>, at: Place, expected: Expectation,
                          goal: seq<string>, count: nat) {
    output + Rewritten(left, at, expected) == goal && changes + Recognised(Blocks(left, at), expected) == count
  }

  lemma LineIsKept(line: string, rest: seq<string>, was: Place, expected: Expectation,
                   output: seq<string>, changes: nat, goal: seq<string>, count: nat)
    requires !IsSecurityLine(line) || KeyAt(Advance(was, line)) !in expected
    requires Heading(output, changes, [line] + rest, was, expected, goal, count)
    ensures Heading(output + [line], changes, rest, Advance(was, line), expected, goal, count)
  {
    var at := Advance(was, line);
    BlocksCons(line, rest, was);
    RewrittenCons(line, rest, was, expected);
    RecognisedCons(Headed(line, KeyAt(at), rest), Blocks(rest, at), expected);
    Regroup(output, [line], Rewritten(rest, at, expected));
  }

  lemma BlockIsReconciled(line: string, rest: seq<string>, was: Place, expected: Expectation,
                          output: seq<string>, changes: nat, goal: seq<string>, count: nat)
    requires IsSecurityLine(line) && KeyAt(Advance(was, line)) in expected
    requires Heading(output, changes, [line] + rest, was, expected, goal, count)
    ensures var at, schemes := Advance(was, line), Governed(line, rest);
            var block := BlockLines(Reconciled(expected[KeyAt(at)], schemes));
            Heading(output + block, changes + 1, rest[|schemes|..], at, expected, goal, count)
  {
    var at, schemes := Advance(was, line), Governed(line, rest);
    BlocksCons(line, rest, was);
    RewrittenCons(line, rest, was, expected);
    BlocksSkipGoverned(line, rest, at);
    RecognisedCons(Headed(line, KeyAt(at), rest), Blocks(rest, at), expected);
    Regroup(output, BlockLines(Reconciled(expected[KeyAt(at)], schemes)), Rewritten(rest[|schemes|..], at, expected));
  }

  lemma RecognisedCons(b: Block, blocks: seq<Block>, expected: Expectation)
    ensures Recognised([b] + blocks, expected) == (if b.key in expected then 1 else 0) + Recognised(blocks, expected)
  {
    assert ([b] + blocks)[1..] == blocks;
  }

  method ListInOrder(wanted: set<string>, order: seq<string>) returns (block: seq<string>)
    ensures block == [SECURITY] + Requirements(Ordered(wanted, order))
  {
    block := [SECURITY];
    assert order[0..] == order;
    for i := 0 to |order|
      invariant Listing(block, wanted, order[i..], order)
    {
      OrderedStep(block, wanted, order, i);
      if order[i] in wanted {
        block := block + [Requirement(order[i])];
      }
    }
    assert block + [] == block;
  }

  ghost predicate Listing(block: seq<string>, wanted: set<string>, left: seq<string>, order: seq<string>) {
    block + Requirements(Ordered(wanted, left)) == [SECURITY] + Requirements(Ordered(wanted, order))
  }

  method Reconcile(wanted: set<string>, preserved: seq<string>, ghost governed: seq<string>)
    returns (block: seq<string>)
    requires forall s | s in wanted :: IsPrimary(s)
    requires preserved == Requirements(NonPrimary(governed))
    ensures block == BlockLines(Reconciled(wanted, governed))
  {
    if wanted != {} {
      OrderedIsExact(wanted);
      block := ListInOrder(wanted, PREFERRED);
    } else if |preserved| > 0 {
      block := [SECURITY] + preserved;
    } else {
      block := [NO_SECURITY];
    }
  }

  lemma OrderedStep(block: seq<string>, expected: set<string>, order: seq<string>, i: nat)
    requires i < |order|
    ensures block + Requirements(Ordered(expected, order[i..])) ==
            (if order[i] in expected then block + [Requirement(order[i])] else block)
                + Requirements(Ordered(expected, order[i + 1..]))
  {
    assert order[i..][1..] == order[i + 1..];
    if order[i] in expected {
      assert Ordered(expected, order[i..])[1..] == Ordered(expected, order[i + 1..]);
      Regroup(block, [Requirement(order[i])], Requirements(Ordered(expected, order[i + 1..])));
    }
  }

  lemma {:induction false} OrderedMembers(expected: set<string>, order: seq<string>)
    ensures forall s :: s in Ordered(expected, order) <==> s in expected && s in order
  {
    if order != [] {
      OrderedMembers(expected, order[1..]);
    }
  }

  /** The preferred order lists every expected scheme, and nothing else. */
  lemma OrderedIsExact(expected: set<string>)
    requires forall s | s in expected :: IsPrimary(s)
    ensures forall s :: s in Ordered(expected, PREFERRED) <==> s in expected
    ensures expected != {} ==> Ordered(expected, PREFERRED) != []
  {
    OrderedMembers(expected, PREFERRED);
    if expected != {} {
      var s :| s in expected;
      assert s in Ordered(expected, PREFERRED);
    }
  }

  // ---- Requirement lines are passed over

  /** A scan over the leading requirement lines neither moves nor finds a block. */
  lemma {:induction false} BlocksSkipRun(lines: seq<string>, at: Place)
    ensures Blocks(lines, at) == Blocks(lines[|Run(lines)|..], at)
  {
    if Run(lines) == [] {
      assert lines[0..] == lines;
    } else {
      ShapesAreDisjoint(lines[0]);
      BlocksSkipRun(lines[1..], at);
      assert lines[1..][|Run(lines[1..])|..] == lines[|Run(lines)|..];
    }
  }

  lemma BlocksSkipGoverned(head: string, rest: seq<string>, at: Place)
    ensures Blocks(rest, at) == Blocks(rest[|Governed(head, rest)|..], at)
  {
    BlocksSkipRun(rest, at);
    assert rest[0..] == rest;
  }

  /** The rewrite copies the leading requirement lines and adds none to them. */
  lemma {:induction false} RunSurvives(lines: seq<string>, at: Place, expected: Expectation)
    ensures Run(Rewritten(lines, at, expected)) == Run(lines)
    ensures Rewritten(lines, at, expected) == lines[..|Run(lines)|] + Rewritten(lines[|Run(lines)|..], at, expected)
  {
    if lines == [] {
    } else if RequirementOf(lines[0]).None? {
      HeadIsNoRequirement(lines, at, expected);
      NothingTaken(lines, Rewritten(lines, at, expected));
    } else {
      var n := |Run(lines[1..])|;
      RunSurvives(lines[1..], at, expected);
      RequirementSurvives(lines, at, expected);
      var tail, left := Rewritten(lines[1..], at, expected), Rewritten(lines[1..][n..], at, expected);
      assert |Run(lines)| == n + 1;
      OneTaken(lines, n, left);
    }
  }

  lemma NothingTaken(lines: seq<string>, out: seq<string>)
    ensures lines[0..] == lines && lines[..0] + out == out
  {
  }

  lemma OneTaken(lines: seq<string>, n: nat, out: seq<string>)
    requires n < |lines|
    ensures lines[1..][n..] == lines[n + 1..] && [lines[0]] + (lines[1..][..n] + out) == lines[..n + 1] + out
  {
  }

  lemma RequirementSurvives(lines: seq<string>, at: Place, expected: Expectation)
    requires lines != [] && RequirementOf(lines[0]).Some?
    ensures var tail := Rewritten(lines[1..], at, expected);
            Rewritten(lines, at, expected) == [lines[0]] + tail
                && Run([lines[0]] + tail) == [RequirementOf(lines[0]).value] + Run(tail)
  {
    StaysPut(lines[0], at);
    ShapesAreDisjoint(lines[0]);
    var tail := Rewritten(lines[1..], at, expected);
    assert ([lines[0]] + tail)[1..] == tail;
  }

  lemma HeadIsNoRequirement(lines: seq<string>, at: Place, expected: Expectation)
    requires lines != [] && RequirementOf(lines[0]).None?
    ensures Run(Rewritten(lines, at, expected)) == []
  {
    ShapesAreDisjoint(SECURITY);
    ShapesAreDisjoint(NO_SECURITY);
    assert RequirementOf(Rewritten(lines, at, expected)[0]).None?;
  }

  // ---- The rewrite, block by block

  predicate AllNames(schemes: seq<string>) {
    forall i | 0 <= i < |schemes| :: IsSchemeName(schemes[i])
  }

  lemma RunCons(line: string, tail: seq<string>)
    requires RequirementOf(line).Some?
    ensures Run([line] + tail) == [RequirementOf(line).value] + Run(tail)
  {
    assert ([line] + tail)[1..] == tail;
  }

  lemma {:induction false} RunOfRequirements(schemes: seq<string>, more: seq<string>)
    requires AllNames(schemes)
    ensures Run(Requirements(schemes) + more) == schemes + Run(more)
  {
    if schemes == [] {
      assert Requirements(schemes) + more == more;
    } else {
      var line, tail := Requirement(schemes[0]), Requirements(schemes[1..]) + more;
      RequirementShape(schemes[0]);
      RunCons(line, tail);
      Regroup([line], Requirements(schemes[1..]), more);
      RunOfRequirements(schemes[1..], more);
      Regroup([schemes[0]], schemes[1..], Run(more));
    }
  }

  lemma {:induction false} BlocksOfRequirements(schemes: seq<string>, more: seq<string>, at: Place)
    requires AllNames(schemes)
    ensures Blocks(Requirements(schemes) + more, at) == Blocks(more, at)
  {
    if schemes == [] {
      assert Requirements(schemes) + more == more;
    } else {
      RequirementShape(schemes[0]);
      ShapesAreDisjoint(Requirement(schemes[0]));
      var tail := Requirements(schemes[1..]) + more;
      assert Requirements(schemes) + more == [Requirement(schemes[0])] + tail;
      BlocksOfRequirements(schemes[1..], more, at);
    }
  }

  /** The lines below the head of an emitted block. */
  lemma OpenedOver(schemes: seq<string>, more: seq<string>) returns (tail: seq<string>)
    requires AllNames(schemes) && schemes != []
    ensures BlockLines(schemes) + more == [SECURITY] + tail && Run(tail) == schemes + Run(more)
    ensures AfterRun(tail) == AfterRun(more) && tail == Requirements(schemes) + more
  {
    tail := Requirements(schemes) + more;
    RunOfRequirements(schemes, more);
    RequirementsLength(schemes);
    assert BlockLines(schemes) + more == [SECURITY] + tail;
  }

  /** The block that an emitted one makes with the lines below it. */
  function Opened(key: string, schemes: seq<string>, more: seq<string>): Block {
    Block(key, schemes != [], schemes + Run(more), BelowOf(AfterRun(more)))
  }

  lemma BlocksOfBlock(schemes: seq<string>, more: seq<string>, at: Place)
    requires AllNames(schemes)
    ensures Blocks(BlockLines(schemes) + more, at) == [Opened(KeyAt(at), schemes, more)] + Blocks(more, at)
  {
    if schemes == [] {
      StaysPut(NO_SECURITY, at);
      BlocksCons(NO_SECURITY, more, at);
      assert |NO_SECURITY| != |SECURITY| && [] + Run(more) == Run(more);
    } else {
      var tail := OpenedOver(schemes, more);
      StaysPut(SECURITY, at);
      BlocksCons(SECURITY, tail, at);
      BlocksOfRequirements(schemes, more, at);
    }
  }

  lemma {:induction false} NonPrimaryNames(schemes: seq<string>)
    requires AllNames(schemes)
    ensures AllNames(NonPrimary(schemes))
  {
    if schemes != [] {
      NonPrimaryNames(schemes[1..]);
    }
  }

  lemma ReconciledNames(expected: set<string>, schemes: seq<string>)
    requires AllNames(schemes)
    ensures AllNames(Reconciled(expected, schemes))
  {
    NonPrimaryNames(schemes);
    OrderedMembers(expected, PREFERRED);
    PreferredNames();
    var order := Ordered(expected, PREFERRED);
    forall i | 0 <= i < |order| ensures IsSchemeName(order[i]) {
      assert order[i] in order;
    }
  }

  lemma PreferredNames()
    ensures forall s | s in PREFERRED :: IsSchemeName(s)
  {
  }

  /** The rewrite keeps what stands below the requirement lines of a block. */
  lemma {:induction false} BelowSurvives(lines: seq<string>, at: Place, expected: Expectation)
    ensures BelowOf(Rewritten(lines, at, expected)) == BelowOf(lines)
  {
    if lines != [] {
      var line, rest := lines[0], lines[1..];
      assert lines == [line] + rest;
      RewrittenCons(line, rest, at, expected);
      if IsSecurityLine(line) {
        SecurityLineEnds(line);
        SecurityLineEnds(SECURITY);
        SecurityLineEnds(NO_SECURITY);
      } else {
        BelowSurvives(rest, Advance(at, line), expected);
        BelowCons(line, rest, Rewritten(rest, Advance(at, line), expected));
      }
    }
  }

  lemma BelowCons(line: string, a: seq<string>, b: seq<string>)
    requires BelowOf(a) == BelowOf(b)
    ensures BelowOf([line] + a) == BelowOf([line] + b)
  {
    assert ([line] + a)[1..] == a && ([line] + b)[1..] == b;
  }

  lemma LeadSurvives(lines: seq<string>, at: Place, expected: Expectation)
    ensures var out := Rewritten(lines, at, expected);
            && Run(out) == Run(lines) && AfterRun(out) == Rewritten(AfterRun(lines), at, expected)
            && BelowOf(AfterRun(out)) == BelowOf(AfterRun(lines))
  {
    RunSurvives(lines, at, expected);
    BelowSurvives(AfterRun(lines), at, expected);
  }

  /** Whatever the file holds, the rewrite turns its security blocks into the reconciled ones: same operations,
    * same order, nothing else changed. */
  lemma {:induction false} RewriteFixesBlocks(lines: seq<string>, at: Place, expected: Expectation)
    requires OnlyPrimary(expected)
    ensures Blocks(Rewritten(lines, at, expected), at) == AllFixed(Blocks(lines, at), expected)
    decreases |lines|
  {
    if lines != [] {
      var line, rest, next := lines[0], lines[1..], Advance(at, lines[0]);
      if !IsSecurityLine(line) || KeyAt(next) !in expected {
        RewriteFixesBlocks(rest, next, expected);
        LeadSurvives(rest, next, expected);
        BlocksCons(line, Rewritten(rest, next, expected), at);
      } else {
        StaysPut(line, at);
        var schemes := Governed(line, rest);
        var more := rest[|schemes|..];
        RewriteFixesBlocks(more, next, expected);
        BlocksSkipGoverned(line, rest, next);
        LeadSurvives(more, next, expected);
        RunNames(rest);
        ReconciledNames(expected[KeyAt(next)], schemes);
        BlocksOfBlock(Reconciled(expected[KeyAt(next)], schemes), Rewritten(more, next, expected), next);
        OpenedIsFixed(line, rest, KeyAt(next), expected);
      }
    }
  }

  lemma OpenedIsFixed(line: string, rest: seq<string>, key: string, expected: Expectation)
    requires OnlyPrimary(expected) && key in expected && IsSecurityLine(line)
    ensures var schemes := Governed(line, rest);
            Opened(key, Reconciled(expected[key], schemes), rest[|schemes|..]) ==
                Fixed(Headed(line, key, rest), expected)
  {
    RunEnds(rest);
    OrderedIsExact(expected[key]);
    assert rest[0..] == rest && AfterRun(rest)[0..] == AfterRun(rest);
    assert NonPrimary([]) == [];
    var fixed := NonPrimary(Run(rest));
    assert fixed + [] == fixed;
    var ordered := Ordered(expected[key], PREFERRED);
    assert ordered + [] == ordered && [] + Run(rest) == Run(rest);
  }

  // ---- The check passes afterwards

  function Actual(schemes: seq<string>): set<string> {
    set s | s in schemes && IsPrimary(s)
  }

  /** The check's complaint: schemes that are expected but not documented, or the other way round. */
  predicate Mismatch(expected: set<string>, schemes: seq<string>) {
    expected - Actual(schemes) != {} || Actual(schemes) - expected != {}
  }

  lemma {:induction false} NonPrimaryHasNone(schemes: seq<string>)
    ensures forall s | s in NonPrimary(schemes) :: !IsPrimary(s)
  {
    if schemes != [] {
      NonPrimaryHasNone(schemes[1..]);
    }
  }

  /**
   * The schemes that a YAML reader finds in a block; None where it rejects the file (entries at two indentations, or
   * anything below `security: []`), where the value is missing, and for entries of any other shape.
   */
  function Documents(b: Block): Option<seq<string>> {
    match b.below
    case Ends =>
      if b.run == [] then (if b.open then None else Some([])) else if b.open then Some(b.run) else None
    case Items(indent, more) => if b.open && (b.run == [] || indent == 6) then Some(b.run + more) else None
    case Other => None
  }

  /** The block is read, and its primary schemes are the expected ones. */
  predicate Passes(wanted: set<string>, b: Block) {
    Documents(b).Some? && !Mismatch(wanted, Documents(b).value)
  }

  /** The entries that stay below the emitted ones. */
  function LeftOver(b: Block): seq<string> {
    b.Stray() + if b.below.Items? then b.below.schemes else []
  }

  /** The entries that the fixer leaves stand at six spaces, as its own do, and none of them is an unexpected primary
    * scheme; below an emitted `security: []` there are none. */
  predicate FixWorks(wanted: set<string>, b: Block) {
    && !b.below.Other? && (b.below.Items? ==> b.below.indent == 6)
    && if wanted != {} then forall s | s in LeftOver(b) :: IsPrimary(s) ==> s in wanted
       else (b.Stray() == [] && b.below.Ends?)
            || (NonPrimary(b.Schemes()) != [] && forall s | s in LeftOver(b) :: !IsPrimary(s))
  }

  lemma ActualOfBoth(a: seq<string>, b: seq<string>)
    ensures Actual(a + b) == Actual(a) + Actual(b)
  {
  }

  /** What a fixed block documents, if it can be read. */
  lemma FixedDocuments(b: Block, expected: Expectation)
    requires OnlyPrimary(expected) && b.key in expected
    ensures var wanted, read := expected[b.key], Documents(Fixed(b, expected));
            && (read.Some? <==>
                  && !b.below.Other? && (b.below.Items? ==> b.below.indent == 6)
                  && (wanted == {} && (b.Stray() != [] || b.below.Items?) ==> NonPrimary(b.Schemes()) != []))
            && (read.Some? ==> Actual(read.value) == wanted + Actual(LeftOver(b)))
  {
    var wanted, fixed := expected[b.key], Fixed(b, expected);
    var more := if b.below.Items? then b.below.schemes else [];
    OrderedIsExact(wanted);
    NonPrimaryHasNone(b.Schemes());
    assert NonPrimary([]) == [];
    assert fixed.run + [] == fixed.run && b.Stray() + [] == b.Stray();
    if wanted == {} {
      var kept := NonPrimary(b.Schemes());
      assert Actual(kept) == {};
      ActualOfBoth(fixed.run, more);
      ActualOfBoth(b.Stray(), more);
    } else {
      var ordered := Ordered(wanted, PREFERRED);
      assert Actual(ordered) == wanted;
      ActualOfBoth(ordered, b.Stray());
      ActualOfBoth(fixed.run, more);
      ActualOfBoth(b.Stray(), more);
    }
  }

  /** A fixed block passes the check exactly when the lines the fixer leaves below it allow it. */
  lemma FixPassesIff(b: Block, expected: Expectation)
    requires OnlyPrimary(expected) && b.key in expected
    ensures Passes(expected[b.key], Fixed(b, expected)) <==> FixWorks(expected[b.key], b)
  {
    var wanted, read := expected[b.key], Documents(Fixed(b, expected));
    FixedDocuments(b, expected);
    if read.Some? {
      assert Mismatch(wanted, read.value) <==> Actual(LeftOver(b)) - wanted != {};
      if s :| s in LeftOver(b) && IsPrimary(s) && s !in wanted {
        assert s in Actual(LeftOver(b)) - wanted;
      }
      if LeftOver(b) == [] {
        assert Actual(LeftOver(b)) == {};
      }
    }
  }

  lemma {:induction false} AllFixedAt(blocks: seq<Block>, expected: Expectation, k: nat)
    requires k < |blocks|
    ensures |AllFixed(blocks, expected)| == |blocks|
    ensures AllFixed(blocks, expected)[k] == Fixed(blocks[k], expected)
  {
    if k > 0 {
      AllFixedAt(blocks[1..], expected, k - 1);
    } else if |blocks| > 1 {
      AllFixedAt(blocks[1..], expected, 0);
    }
  }

  /** Afterwards, a block of a known operation passes the check exactly when the fix works on it. */
  lemma FixEstablishesCheck(lines: seq<string>, expected: Expectation, k: nat)
    requires OnlyPrimary(expected) && k < |Blocks(lines, START)|
    ensures var before, after := Blocks(lines, START), Blocks(Rewritten(lines, START, expected), START);
            && |after| == |before| && after[k].key == before[k].key
            && (after[k].key in expected ==>
                  (Passes(expected[after[k].key], after[k]) <==> FixWorks(expected[before[k].key], before[k])))
  {
    RewriteFixesBlocks(lines, START, expected);
    var before := Blocks(lines, START);
    AllFixedAt(before, expected, k);
    if before[k].key in expected {
      FixPassesIff(before[k], expected);
    }
  }

  predicate BlockPasses(b: Block, expected: Expectation) {
    Documents(b).Some? && (b.key in expected ==> Passes(expected[b.key], b))
  }

  predicate PassesOnceFixed(b: Block, expected: Expectation) {
    if b.key in expected then FixWorks(expected[b.key], b) else Documents(b).Some?
  }

  /** The file can be read, and every known operation documents what is expected of it. */
  predicate CheckPasses(blocks: seq<Block>, expected: Expectation) {
    forall k | 0 <= k < |blocks| :: BlockPasses(blocks[k], expected)
  }

  lemma BlockPassesIff(b: Block, expected: Expectation)
    requires OnlyPrimary(expected)
    ensures BlockPasses(Fixed(b, expected), expected) <==> PassesOnceFixed(b, expected)
  {
    if b.key in expected {
      FixPassesIff(b, expected);
    }
  }

  /** The fix makes the check pass exactly when it works on every block of a known operation and the other blocks could
    * be read in the first place: one unreadable block stops the check for all. */
  lemma CheckPassesIff(lines: seq<string>, expected: Expectation)
    requires OnlyPrimary(expected)
    ensures var before := Blocks(lines, START);
            CheckPasses(Blocks(Rewritten(lines, START, expected), START), expected) <==>
              forall k | 0 <= k < |before| :: PassesOnceFixed(before[k], expected)
  {
    var before := Blocks(lines, START);
    var after := AllFixed(before, expected);
    RewriteFixesBlocks(lines, START, expected);
    if before != [] {
      AllFixedAt(before, expected, 0);
    }
    forall k | 0 <= k < |before|
      ensures |after| == |before| && (BlockPasses(after[k], expected) <==> PassesOnceFixed(before[k], expected))
    {
      AllFixedAt(before, expected, k);
      BlockPassesIff(before[k], expected);
    }
  }

  // ---- Conservative: nothing but security blocks changes

  /** The file without the security lines of known operations and the requirement lines below them. */
  function Stripped(lines: seq<string>, at: Place, expected: Expectation): seq<string>
    decreases |lines|
  {
    if lines == [] then []
    else
      var line, rest, next := lines[0], lines[1..], Advance(at, lines[0]);
      if !IsSecurityLine(line) || KeyAt(next) !in expected then [line] + Stripped(rest, next, expected)
      else Stripped(rest[|Run(rest)|..], next, expected)
  }

  lemma StrippedCons(line: string, tail: seq<string>, at: Place, expected: Expectation)
    ensures var next := Advance(at, line);
            Stripped([line] + tail, at, expected) ==
            if !IsSecurityLine(line) || KeyAt(next) !in expected then [line] + Stripped(tail, next, expected)
            else Stripped(tail[|Run(tail)|..], next, expected)
  {
    assert ([line] + tail)[1..] == tail;
  }

  lemma {:induction false} RewriteKeepsTheRest(lines: seq<string>, at: Place, expected: Expectation)
    ensures Stripped(Rewritten(lines, at, expected), at, expected) == Stripped(lines, at, expected)
    decreases |lines|
  {
    if lines != [] {
      var line, rest, next := lines[0], lines[1..], Advance(at, lines[0]);
      if !IsSecurityLine(line) || KeyAt(next) !in expected {
        RewriteKeepsTheRest(rest, next, expected);
        StrippedCons(line, Rewritten(rest, next, expected), at, expected);
      } else {
        StaysPut(line, at);
        var schemes := Governed(line, rest);
        var more := rest[|schemes|..];
        var n := |Run(more)|;
        RunEnds(rest);
        RunNames(rest);
        ReconciledNames(expected[KeyAt(next)], schemes);
        RunSurvives(more, next, expected);
        StrippedBlock(Reconciled(expected[KeyAt(next)], schemes), Rewritten(more, next, expected), next, expected);
        assert Rewritten(more, next, expected)[n..] == Rewritten(more[n..], next, expected);
        RewriteKeepsTheRest(more[n..], next, expected);
        assert rest[0..] == rest && more[0..] == more;
      }
    }
  }

  lemma StrippedHead(head: string, tail: seq<string>, at: Place, expected: Expectation)
    requires IsSecurityLine(head) && KeyAt(at) in expected
    ensures Stripped([head] + tail, at, expected) == Stripped(tail[|Run(tail)|..], at, expected)
  {
    StaysPut(head, at);
    StrippedCons(head, tail, at, expected);
  }

  lemma StrippedBlock(schemes: seq<string>, more: seq<string>, at: Place, expected: Expectation)
    requires AllNames(schemes) && KeyAt(at) in expected
    ensures Stripped(BlockLines(schemes) + more, at, expected) == Stripped(more[|Run(more)|..], at, expected)
  {
    if schemes == [] {
      StrippedHead(NO_SECURITY, more, at, expected);
    } else {
      var tail := OpenedOver(schemes, more);
      StrippedHead(SECURITY, tail, at, expected);
    }
  }

  // ---- A second run

  /** The stray lines that a rewrite opens a block over. */
  function Strays(blocks: seq<Block>, expected: Expectation): nat {
    if blocks == [] then 0
    else
      (if blocks[0].key in expected && expected[blocks[0].key] != {} then |blocks[0].Stray()| else 0)
      + Strays(blocks[1..], expected)
  }

  lemma {:induction false} NonPrimaryTwice(schemes: seq<string>)
    ensures NonPrimary(NonPrimary(schemes)) == NonPrimary(schemes)
  {
    if schemes != [] {
      NonPrimaryTwice(schemes[1..]);
      var rest := NonPrimary(schemes[1..]);
      assert ([schemes[0]] + rest)[1..] == rest;
    }
  }

  lemma RewrittenHead(head: string, tail: seq<string>, at: Place, expected: Expectation)
    requires IsSecurityLine(head) && KeyAt(at) in expected
    ensures var schemes := Governed(head, tail);
            Rewritten([head] + tail, at, expected)
            == BlockLines(Reconciled(expected[KeyAt(at)], schemes)) + Rewritten(tail[|schemes|..], at, expected)
  {
    StaysPut(head, at);
    RewrittenCons(head, tail, at, expected);
  }

  /** Rewriting an emitted block again. */
  lemma RewrittenBlock(schemes: seq<string>, more: seq<string>, at: Place, expected: Expectation)
    requires AllNames(schemes) && KeyAt(at) in expected
    ensures Rewritten(BlockLines(schemes) + more, at, expected) ==
            if schemes == [] then BlockLines(Reconciled(expected[KeyAt(at)], [])) + Rewritten(more, at, expected)
            else
              BlockLines(Reconciled(expected[KeyAt(at)], schemes + Run(more)))
              + Rewritten(more[|Run(more)|..], at, expected)
  {
    if schemes == [] {
      RewrittenHead(NO_SECURITY, more, at, expected);
      assert more[0..] == more;
    } else {
      var tail := OpenedOver(schemes, more);
      RewrittenHead(SECURITY, tail, at, expected);
    }
  }

  /** The file without the stray lines that a rewrite opens a block over. */
  function WithoutStrays(lines: seq<string>, at: Place, expected: Expectation): seq<string>
    decreases |lines|
  {
    if lines == [] then []
    else
      var line, rest, next := lines[0], lines[1..], Advance(at, lines[0]);
      [line] + WithoutStrays(if OpensOver(line, next, expected) then rest[|Run(rest)|..] else rest, next, expected)
  }

  /** A closed security line that the rewrite opens. */
  predicate OpensOver(line: string, at: Place, expected: Expectation) {
    line == NO_SECURITY && KeyAt(at) in expected && expected[KeyAt(at)] != {}
  }

  lemma WithoutStraysCons(line: string, rest: seq<string>, at: Place, expected: Expectation)
    ensures var next := Advance(at, line);
            WithoutStrays([line] + rest, at, expected)
            == [line]
               + WithoutStrays(if OpensOver(line, next, expected) then rest[|Run(rest)|..] else rest, next, expected)
  {
    assert ([line] + rest)[1..] == rest;
  }

  /** Requirement lines that come first are not stray. */
  lemma {:induction false} RunIsNotStray(lines: seq<string>, at: Place, expected: Expectation)
    ensures Run(WithoutStrays(lines, at, expected)) == Run(lines)
    ensures WithoutStrays(lines, at, expected) ==
              lines[..|Run(lines)|] + WithoutStrays(lines[|Run(lines)|..], at, expected)
  {
    if lines == [] {
    } else if RequirementOf(lines[0]).None? {
      NothingTaken(lines, WithoutStrays(lines, at, expected));
    } else {
      var n := |Run(lines[1..])|;
      RunIsNotStray(lines[1..], at, expected);
      RequirementIsKept(lines, at, expected);
      OneTaken(lines, n, WithoutStrays(lines[1..][n..], at, expected));
    }
  }

  lemma RequirementIsKept(lines: seq<string>, at: Place, expected: Expectation)
    requires lines != [] && RequirementOf(lines[0]).Some?
    ensures var tail := WithoutStrays(lines[1..], at, expected);
            WithoutStrays(lines, at, expected) == [lines[0]] + tail
                && Run([lines[0]] + tail) == [RequirementOf(lines[0]).value] + Run(tail)
  {
    StaysPut(lines[0], at);
    ShapesAreDisjoint(lines[0]);
    RunCons(lines[0], WithoutStrays(lines[1..], at, expected));
  }

  /** How many lines go. */
  lemma {:induction false} StraysAreCounted(lines: seq<string>, at: Place, expected: Expectation)
    ensures |WithoutStrays(lines, at, expected)| + Strays(Blocks(lines, at), expected) == |lines|
    ensures Strays(Blocks(lines, at), expected) == 0 ==> WithoutStrays(lines, at, expected) == lines
    decreases |lines|
  {
    if lines != [] {
      var line, rest, next := lines[0], lines[1..], Advance(at, lines[0]);
      var n := |Run(rest)|;
      assert lines == [line] + rest && rest[0..] == rest;
      BlocksSkipRun(rest, next);
      StraysCons(Headed(line, KeyAt(next), rest), Blocks(rest, next), expected);
      StraysAreCounted(if OpensOver(line, next, expected) then rest[n..] else rest, next, expected);
    }
  }

  lemma StraysCons(b: Block, blocks: seq<Block>, expected: Expectation)
    ensures Strays([b] + blocks, expected)
            == (if b.key in expected && expected[b.key] != {} then |b.Stray()| else 0) + Strays(blocks, expected)
  {
    assert ([b] + blocks)[1..] == blocks;
  }

  /** A second run reproduces an emitted block, and drops the requirement lines below one that was opened. */
  lemma SecondRunOfBlock(schemes: seq<string>, more: seq<string>, at: Place, expected: Expectation)
    requires OnlyPrimary(expected) && KeyAt(at) in expected && AllNames(Reconciled(expected[KeyAt(at)], schemes))
    requires schemes == [] || Run(more) == []
    ensures var wanted := expected[KeyAt(at)];
            var block := BlockLines(Reconciled(wanted, schemes));
            var left := if wanted != {} then more[|Run(more)|..] else more;
            Rewritten(block + Rewritten(more, at, expected), at, expected)
            == block + Rewritten(Rewritten(left, at, expected), at, expected)
  {
    var wanted := expected[KeyAt(at)];
    var fixed := Reconciled(wanted, schemes);
    var n := |Run(more)|;
    RewrittenBlock(fixed, Rewritten(more, at, expected), at, expected);
    RunSurvives(more, at, expected);
    NonPrimaryTwice(schemes);
    OrderedIsExact(wanted);
    if fixed != [] {
      assert fixed + [] == fixed;
      assert Rewritten(more, at, expected)[n..] == Rewritten(more[n..], at, expected);
      assert more[0..] == more;
    }
  }

  /** A second run gives what one run gives without the stray lines: exactly those are dropped. */
  lemma {:induction false} SecondRunDropsStrays(lines: seq<string>, at: Place, expected: Expectation)
    requires OnlyPrimary(expected)
    ensures Rewritten(Rewritten(lines, at, expected), at, expected) ==
              Rewritten(WithoutStrays(lines, at, expected), at, expected)
    decreases |lines|
  {
    if lines != [] {
      var line, rest, next := lines[0], lines[1..], Advance(at, lines[0]);
      if !IsSecurityLine(line) || KeyAt(next) !in expected {
        SecondRunDropsStrays(rest, next, expected);
        RewrittenCons(line, Rewritten(rest, next, expected), at, expected);
        RewrittenCons(line, WithoutStrays(rest, next, expected), at, expected);
      } else {
        StaysPut(line, at);
        var schemes := Governed(line, rest);
        var more := rest[|schemes|..];
        var left := if expected[KeyAt(next)] != {} then more[|Run(more)|..] else more;
        RunEnds(rest);
        RunNames(rest);
        ReconciledNames(expected[KeyAt(next)], schemes);
        SecondRunOfBlock(schemes, more, next, expected);
        SecondRunDropsStrays(left, next, expected);
        OneRunOfBlock(line, rest, next, expected);
      }
    }
  }

  /** The same block, seen by one run over the file without stray lines. */
  lemma OneRunOfBlock(line: string, rest: seq<string>, at: Place, expected: Expectation)
    requires IsSecurityLine(line) && KeyAt(at) in expected
    ensures var wanted, schemes := expected[KeyAt(at)], Governed(line, rest);
            var more := rest[|schemes|..];
            var left := if wanted != {} then more[|Run(more)|..] else more;
            Rewritten(WithoutStrays([line] + rest, at, expected), at, expected)
            == BlockLines(Reconciled(wanted, schemes)) + Rewritten(WithoutStrays(left, at, expected), at, expected)
  {
    StaysPut(line, at);
    WithoutStraysCons(line, rest, at, expected);
    assert rest[0..] == rest;
    if line == SECURITY {
      var n := |Run(rest)|;
      RunEnds(rest);
      RunIsNotStray(rest, at, expected);
      RewrittenHead(line, WithoutStrays(rest, at, expected), at, expected);
      assert WithoutStrays(rest, at, expected)[n..] == WithoutStrays(rest[n..], at, expected);
      assert rest[n..][0..] == rest[n..];
    } else {
      var left := if OpensOver(line, at, expected) then rest[|Run(rest)|..] else rest;
      RewrittenHead(line, WithoutStrays(left, at, expected), at, expected);
      assert WithoutStrays(left, at, expected)[0..] == WithoutStrays(left, at, expected);
    }
  }

  /** The lengths alone: the second run is shorter by the number of stray lines. */
  lemma {:induction false} SecondRunShrinks(lines: seq<string>, at: Place, expected: Expectation)
    requires OnlyPrimary(expected)
    ensures var once := Rewritten(lines, at, expected);
            |Rewritten(once, at, expected)| + Strays(Blocks(lines, at), expected) == |once|
    decreases |lines|
  {
    if lines != [] {
      var line, rest, next := lines[0], lines[1..], Advance(at, lines[0]);
      StraysCons(Headed(line, KeyAt(next), rest), Blocks(rest, next), expected);
      if !IsSecurityLine(line) || KeyAt(next) !in expected {
        SecondRunShrinks(rest, next, expected);
        RewrittenCons(line, Rewritten(rest, next, expected), at, expected);
      } else {
        StaysPut(line, at);
        var schemes := Governed(line, rest);
        var more := rest[|schemes|..];
        RunEnds(rest);
        RunNames(rest);
        ReconciledNames(expected[KeyAt(next)], schemes);
        SecondRunOfBlock(schemes, more, next, expected);
        BlocksSkipGoverned(line, rest, next);
        BlocksSkipRun(more, next);
        RunSurvives(more, next, expected);
        assert rest[0..] == rest;
        SecondRunShrinks(if expected[KeyAt(next)] != {} then more[|Run(more)|..] else more, next, expected);
      }
    }
  }

  /** The rewrite is idempotent exactly when no such stray line exists. */
  lemma IdempotentIff(lines: seq<string>, expected: Expectation)
    requires OnlyPrimary(expected)
    ensures var once := Rewritten(lines, START, expected);
            Rewritten(once, START, expected) == once <==> Strays(Blocks(lines, START), expected) == 0
  {
    SecondRunDropsStrays(lines, START, expected);
    SecondRunShrinks(lines, START, expected);
    StraysAreCounted(lines, START, expected);
  }

  lemma {:induction false} FixedHasNoStrays(blocks: seq<Block>, expected: Expectation)
    ensures Strays(AllFixed(blocks, expected), expected) == 0
  {
    if blocks != [] {
      FixedHasNoStrays(blocks[1..], expected);
    }
  }

  /** From the second run on, nothing changes. */
  lemma ThirdRunChangesNothing(lines: seq<string>, expected: Expectation)
    requires OnlyPrimary(expected)
    ensures var twice := Rewritten(Rewritten(lines, START, expected), START, expected);
            Rewritten(twice, START, expected) == twice
  {
    var once := Rewritten(lines, START, expected);
    RewriteFixesBlocks(lines, START, expected);
    FixedHasNoStrays(Blocks(lines, START), expected);
    IdempotentIff(once, expected);
  }

  // ---- A file with a stray line

  /** The text of a path-level description, in a file that is well-formed. */
  const DESCRIPTION: seq<string> := [NO_SECURITY, "      - BearerAuth: []"]

  /** A file with one operation, whose block ends with these lines. */
  function UnderGet(tail: seq<string>): seq<string> {
    ["paths:"] + (["  /a:"] + (["    get:"] + (["      summary: a"] + tail)))
  }

  const FOLDED: seq<string> := UnderGet(["    description: |"] + DESCRIPTION)

  const KEY := "get:/a"

  const COOKIE: Expectation := map[KEY := {"CookieAuth"}]

  predicate IsPlain(line: string) {
    PathOf(line).None? && VerbOf(line).None? && !IsSecurityLine(line)
  }

  lemma PlainShape(line: string)
    requires |line| > 6 && line[2] != '/' && line[|line| - 1] != ':' && line[|line| - 1] != ']'
    ensures IsPlain(line)
  {
    VerbShape(line);
    PathShape(line);
    assert NO_SECURITY[|NO_SECURITY| - 1] == ']' && SECURITY[|SECURITY| - 1] == ':';
  }

  lemma TopShape(line: string)
    requires line == "paths:"
    ensures IsPlain(line)
  {
    VerbShape(line);
    PathShape(line);
  }

  lemma PathOfA(line: string)
    requires line == "  /a:"
    ensures PathOf(line) == Some("/a") && VerbOf(line).None? && !IsSecurityLine(line)
  {
    assert line[..3] == "  /" && line[3..|line| - 1] == "a" && line[2..|line| - 1] == "/a";
    VerbShape(line);
  }

  lemma VerbOfGet(line: string)
    requires line == "    get:"
    ensures VerbOf(line) == Some("get") && PathOf(line).None? && !IsSecurityLine(line)
  {
    assert line == "    " + VERBS[0] + ":";
    PathShape(line);
  }

  lemma PlainBlocks(line: string, rest: seq<string>, at: Place)
    requires IsPlain(line)
    ensures Blocks([line] + rest, at) == Blocks(rest, at)
  {
    BlocksCons(line, rest, at);
  }

  lemma DescriptionBlocks(at: Place, key: string)
    requires KeyAt(at) == key
    ensures Blocks(DESCRIPTION, at) == [Block(key, false, ["BearerAuth"], Ends)]
  {
    var text := Requirement("BearerAuth");
    assert text == "      - BearerAuth: []" && DESCRIPTION == [NO_SECURITY] + [text];
    RequirementShape("BearerAuth");
    StaysPut(NO_SECURITY, at);
    BlocksCons(NO_SECURITY, [text], at);
    assert [text] == [text] + [];
    RunCons(text, []);
    ShapesAreDisjoint(text);
    BlocksCons(text, [], at);
    assert |NO_SECURITY| != |SECURITY|;
    assert Run([text]) == ["BearerAuth"] && Blocks([text], at) == [];
    assert AfterRun([text]) == [];
    assert Headed(NO_SECURITY, key, [text]) == Block(key, false, ["BearerAuth"], Ends);
  }

  lemma UnderGetBlocks(tail: seq<string>)
    ensures KeyAt(Place("/a", "get")) == KEY
    ensures Blocks(UnderGet(tail), START) == Blocks(tail, Place("/a", "get"))
  {
    var at, body := Place("/a", "get"), ["      summary: a"] + tail;
    PlainShape("      summary: a");
    PlainBlocks("      summary: a", tail, at);
    VerbOfGet("    get:");
    BlocksCons("    get:", body, Place("/a", ""));
    PathOfA("  /a:");
    BlocksCons("  /a:", ["    get:"] + body, START);
    TopShape("paths:");
    PlainBlocks("paths:", ["  /a:"] + (["    get:"] + body), START);
  }

  lemma FoldedBlocks()
    ensures Blocks(FOLDED, START) == [Block(KEY, false, ["BearerAuth"], Ends)]
  {
    var at := Place("/a", "get");
    UnderGetBlocks(["    description: |"] + DESCRIPTION);
    PlainShape("    description: |");
    PlainBlocks("    description: |", DESCRIPTION, at);
    DescriptionBlocks(at, KEY);
  }

  /** In this file the fixer takes the description for the security block of the operation: the line below becomes one
    * of its requirements, the check that reads the blocks still complains, and a second run changes the file again. */
  lemma StrayWitness()
    ensures OnlyPrimary(COOKIE) && Strays(Blocks(FOLDED, START), COOKIE) > 0
    ensures Rewritten(Rewritten(FOLDED, START, COOKIE), START, COOKIE) != Rewritten(FOLDED, START, COOKIE)
    ensures var after := Blocks(Rewritten(FOLDED, START, COOKIE), START);
            |after| == 1 && after[0].key == KEY && !Passes(COOKIE[KEY], after[0])
  {
    FoldedBlocks();
    var b := Block(KEY, false, ["BearerAuth"], Ends);
    assert COOKIE[KEY] == {"CookieAuth"};
    assert IsPrimary(PREFERRED[0]) && IsPrimary(PREFERRED[1]);
    assert PREFERRED[0] == "CookieAuth" && PREFERRED[1] == "BearerAuth" && PREFERRED[1][0] != PREFERRED[0][0];
    StraysCons(b, [], COOKIE);
    assert [b] + [] == [b];
    IdempotentIff(FOLDED, COOKIE);
    RewriteFixesBlocks(FOLDED, START, COOKIE);
    assert AllFixed([b], COOKIE) == [Fixed(b, COOKIE)];
    assert b.Stray()[0] == "BearerAuth" && LeftOver(b)[0] == "BearerAuth";
    FixPassesIff(b, COOKIE);
  }

  // ---- The layout of the repository's own file

  /** An entry two columns further in, as docs/swagger.yaml writes them. */
  function Nested(scheme: string): string {
    "  " + Requirement(scheme)
  }

  function NestedFile(scheme: string): seq<string> {
    UnderGet([SECURITY, Nested(scheme)])
  }

  lemma SplitLine(lead: string, dash: string, scheme: string, close: string, line: string)
    requires line == lead + (dash + scheme + close)
    ensures var n := |lead| + |dash|;
            && |line| == n + |scheme| + |close| && (forall i | 0 <= i < n :: line[i] == (lead + dash)[i])
            && line[n..|line| - |close|] == scheme && line[|line| - |close|..] == close
  {
  }

  lemma NestedLead(lead: string)
    requires lead == "  " + "      - "
    ensures |lead| == 10 && (forall i | 0 <= i < 8 :: lead[i] == ' ') && lead[8] == '-' && lead[9] == ' '
  {
  }

  lemma NestedShape(scheme: string, line: string)
    requires IsSchemeName(scheme) && line == Nested(scheme)
    ensures |line| > 14 && (forall i | 0 <= i < 8 :: line[i] == ' ') && line[8..10] == "- "
    ensures line[10..|line| - 4] == scheme && line[|line| - 4..] == ": []"
    ensures Indent(line) == 8
  {
    SplitLine("  ", "      - ", scheme, ": []", line);
    NestedLead("  " + "      - ");
    IndentIs(line, 8);
  }

  lemma NestedIsItem(scheme: string, line: string)
    requires IsSchemeName(scheme) && line == Nested(scheme)
    ensures ItemOf(line) == Some((8, scheme)) && !IsSkipped(line) && Continues(line)
  {
    NestedShape(scheme, line);
  }

  /** The fixer does not see it. */
  lemma NestedIsPlain(scheme: string, line: string)
    requires IsSchemeName(scheme) && line == Nested(scheme)
    ensures RequirementOf(line).None? && IsPlain(line)
  {
    NestedShape(scheme, line);
    assert line[..8][6] == ' ' && "      - "[6] == '-';
    assert SECURITY[6] == 's' && NO_SECURITY[6] == 's';
    VerbShape(line);
    PathShape(line);
  }

  lemma NestedTail(scheme: string, line: string, at: Place)
    requires IsSchemeName(scheme) && line == Nested(scheme)
    ensures Blocks([SECURITY] + [line], at) == [Block(KeyAt(at), true, [], Items(8, [scheme]))]
  {
    NestedIsItem(scheme, line);
    NestedIsPlain(scheme, line);
    StaysPut(SECURITY, at);
    BlocksCons(SECURITY, [line], at);
    PlainBlocks(line, [], at);
    assert [line] == [line] + [] && AfterRun([line]) == [line];
    assert BelowOf([]) == Ends && [line][1..] == [];
  }

  /**
   * A file laid out like this passes the check before the fix, where its scheme is the expected one, and cannot be read
   * after the fix, whatever is expected: the fixer puts its own entries, at six spaces, above those at eight.
   */
  lemma NestedWitness(scheme: string, expected: Expectation)
    requires IsPrimary(scheme) && OnlyPrimary(expected) && KEY in expected
    ensures CheckPasses(Blocks(NestedFile(scheme), START), map[KEY := {scheme}])
    ensures var after := Blocks(Rewritten(NestedFile(scheme), START, expected), START);
            |after| == 1 && Documents(after[0]) == None && !CheckPasses(after, expected)
  {
    NestedFileBlocks(scheme);
    NestedPassed(scheme);
    NestedBreaks(NestedFile(scheme), Block(KEY, true, [], Items(8, [scheme])), expected);
  }

  lemma NestedFileBlocks(scheme: string)
    requires IsPrimary(scheme)
    ensures Blocks(NestedFile(scheme), START) == [Block(KEY, true, [], Items(8, [scheme]))]
  {
    PreferredNames();
    NestedTail(scheme, Nested(scheme), Place("/a", "get"));
    assert [SECURITY] + [Nested(scheme)] == [SECURITY, Nested(scheme)];
    UnderGetBlocks([SECURITY, Nested(scheme)]);
  }

  lemma NestedPassed(scheme: string)
    requires IsPrimary(scheme)
    ensures CheckPasses([Block(KEY, true, [], Items(8, [scheme]))], map[KEY := {scheme}])
  {
    var b := Block(KEY, true, [], Items(8, [scheme]));
    assert [] + [scheme] == [scheme];
    assert Documents(b) == Some([scheme]) && Actual([scheme]) == {scheme};
  }

  /** Entries left at another indentation make the file unreadable. */
  lemma NestedBreaks(lines: seq<string>, b: Block, expected: Expectation)
    requires OnlyPrimary(expected) && Blocks(lines, START) == [b] && b.key in expected
    requires b.below.Items? && b.below.indent != 6
    ensures var after := Blocks(Rewritten(lines, START, expected), START);
            |after| == 1 && Documents(after[0]) == None && !CheckPasses(after, expected)
  {
    RewriteFixesBlocks(lines, START, expected);
    assert AllFixed([b], expected) == [Fixed(b, expected)];
    FixedDocuments(b, expected);
  }
}
