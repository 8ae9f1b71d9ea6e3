/**
 * Wormhole sequences in the flat logs of a Solana transaction (wormhole-vaa-api/src/resolver/svm.rs), and the
 * call tree those logs flatten.
 */
module SolanaLogs {
  import opened Wrappers
  import opened Arithmetic
  import opened Text
  import opened Address

  const SEQUENCE_MARKER: string := "Sequence:"

  // ----- Line classification -----

  predicate IsAsciiSpace(c: char) { c == ' ' || c == '\t' || c == '\n' || c == '\U{C}' || c == '\r' }

  /** The white space of ASCII, without the vertical tab. */
  lemma AsciiSpaceIs(c: char)
    ensures IsAsciiSpace(c) <==> IsWhiteSpace(c) && c < '\U{80}' && c != '\U{B}'
  {
  }

  function SkipSpaces(s: string): (r: string)
    ensures |r| <= |s| && (r == [] || !IsAsciiSpace(r[0]))
  {
    if s != [] && IsAsciiSpace(s[0]) then SkipSpaces(s[1..]) else s
  }

  function TakeWord(s: string): (r: string)
    ensures r <= s
    ensures s != [] && !IsAsciiSpace(s[0]) ==> |r| > 0
  {
    if s != [] && !IsAsciiSpace(s[0]) then [s[0]] + TakeWord(s[1..]) else []
  }

  datatype Token = NoMore | Token(word: string, rest: string)

  /** One step of the iterator `split_ascii_whitespace` returns. */
  function NextWord(s: string): Token {
    var t := SkipSpaces(s);
    if t == [] then NoMore else Token(TakeWord(t), t[|TakeWord(t)|..])
  }

  /** The second and third word of a line whose first word is `Program`. */
  function ProgramLine(line: string): Option<(string, string)> {
    var first := NextWord(line);
    if first.NoMore? || first.word != "Program" then None
    else
      var id := NextWord(first.rest);
      if id.NoMore? then None
      else
        var third := NextWord(id.rest);
        if third.NoMore? then None else Some((id.word, third.word))
  }

  function InvokedProgram(line: string): Option<string> {
    var parts := ProgramLine(line);
    if parts.Some? && parts.value.1 == "invoke" then Some(parts.value.0) else None
  }

  predicate IsProgramEnd(line: string) {
    var parts := ProgramLine(line);
    parts.Some? && (parts.value.1 == "success" || "failed" <= parts.value.1)
  }

  function LeadingDigits(s: string): (r: string)
    ensures r <= s && AllDigits(r)
  {
    if s != [] && IsDigit(s[0]) then [s[0]] + LeadingDigits(s[1..]) else []
  }

  function SequenceFromLog(line: string): Option<nat> {
    match Find(line, SEQUENCE_MARKER)
    case None => None
    case Some(idx) =>
      var digits := LeadingDigits(TrimStart(line[idx + |SEQUENCE_MARKER|..]));
      if digits == "" || DecimalValue(digits) > U64_MAX then None else Some(DecimalValue(digits))
  }

  predicate IsFrameLine(line: string) { InvokedProgram(line).Some? || IsProgramEnd(line) }

  // ----- The scan -----

  datatype Resolution = Resolution(chain: nat, emitter: Emitter, sequence: nat)

  function NextStack(line: string, stack: seq<string>): seq<string> {
    match InvokedProgram(line)
    case Some(id) => stack + [id]
    case None => if IsProgramEnd(line) then Pop(stack) else stack
  }

  function Reported(line: string, stack: seq<string>, program: string): seq<nat> {
    if IsFrameLine(line) || program !in stack then []
    else match SequenceFromLog(line) case Some(n) => [n] case None => []
  }

  /** The sequences a scan of `lines` reports, starting with `stack` as the open invocations. */
  function Scan(lines: seq<string>, stack: seq<string>, program: string): seq<nat> {
    if lines == [] then []
    else Reported(lines[0], stack, program) + Scan(lines[1..], NextStack(lines[0], stack), program)
  }

  function Pop(stack: seq<string>): seq<string> {
    if stack == [] then [] else stack[..|stack| - 1]
  }

  function Stamp(ns: seq<nat>, chain: nat, emitter: Emitter): (r: seq<Resolution>)
    ensures |r| == |ns| && forall i :: 0 <= i < |ns| ==> r[i] == Resolution(chain, emitter, ns[i])
  {
    seq(|ns|, i requires 0 <= i < |ns| => Resolution(chain, emitter, ns[i]))
  }

  /** A JSON array entry is a string or something else; `None` for the array stands for missing logs. */
  function Strings(logs: seq<Option<string>>): (r: seq<string>)
    ensures (forall i :: 0 <= i < |logs| ==> logs[i].Some?) ==>
              |r| == |logs| && forall i :: 0 <= i < |logs| ==> r[i] == logs[i].value
  {
    if logs == [] then []
    else (if logs[0].Some? then [logs[0].value] else []) + Strings(logs[1..])
  }

  /** Entries that are no strings are skipped; those behind them are read. */
  lemma {:induction false} StringsSkip(before: seq<Option<string>>, after: seq<Option<string>>)
    ensures Strings(before + [None] + after) == Strings(before + after)
  {
    var all := before + [None] + after;
    if before == [] {
      assert all[1..] == after && before + after == after;
    } else {
      assert all[1..] == before[1..] + [None] + after && (before + after)[1..] == before[1..] + after;
      StringsSkip(before[1..], after);
    }
  }

  lemma ScanStep(found: seq<nat>, lines: seq<string>, i: nat, stack: seq<string>, program: string)
    requires i < |lines|
    ensures found + Scan(lines[i..], stack, program)
         == (found + Reported(lines[i], stack, program)) + Scan(lines[i + 1..], NextStack(lines[i], stack), program)
  {
    assert lines[i..][1..] == lines[i + 1..];
  }

  lemma StampMore(ns: seq<nat>, more: seq<nat>, chain: nat, emitter: Emitter)
    ensures Stamp(ns + more, chain, emitter) == Stamp(ns, chain, emitter) + Stamp(more, chain, emitter)
    ensures Stamp([], chain, emitter) == []
    ensures |more| == 1 ==> Stamp(more, chain, emitter) == [Resolution(chain, emitter, more[0])]
  {
  }

  method ParseTx(logs: Option<seq<Option<string>>>, chain: nat, emitter: Emitter, program: string)
    returns (out: seq<Resolution>)
    ensures logs.None? ==> out == []
    ensures logs.Some? ==> out == Stamp(Scan(Strings(logs.value), [], program), chain, emitter)
  {
    if logs.None? { return []; }
    var lines := Strings(logs.value);
    var stack: seq<string> := [];
    ghost var found: seq<nat> := [];
    out := [];
    for i := 0 to |lines|
      invariant out == Stamp(found, chain, emitter)
      invariant found + Scan(lines[i..], stack, program) == Scan(lines, [], program)
    {
      var line := lines[i];
      ScanStep(found, lines, i, stack, program);
      StampMore(found, Reported(line, stack, program), chain, emitter);
      ghost var step := Reported(line, stack, program);
      var invoked := InvokedProgram(line);
      if invoked.Some? {
        stack := stack + [invoked.value];
      } else if IsProgramEnd(line) {
        stack := Pop(stack);
      } else {
        var sequence := SequenceFromLog(line);
        if sequence.Some? && program in stack {
          out := out + [Resolution(chain, emitter, sequence.value)];
        }
      }
      found := found + step;
    }
  }

  // ----- The call tree -----

  datatype Exit = Success | Failed(message: string)

  /** What a program did: it logged a line, or invoked another program that did things of its own. */
  datatype Node = Log(line: string) | Call(id: string, depth: nat, body: seq<Node>, exit: Exit)

  function InvokeLine(id: string, depth: nat): string {
    "Program " + (id + (" invoke [" + Decimal(depth) + "]"))
  }

  function ExitLine(id: string, exit: Exit): string {
    match exit
    case Success => "Program " + (id + " success")
    case Failed(message) => "Program " + (id + (" failed: " + message))
  }

  /** The runtime's log of a forest of calls. */
  function Flatten(forest: seq<Node>): seq<string> {
    if forest == [] then [] else FlattenNode(forest[0]) + Flatten(forest[1..])
  }

  function FlattenNode(node: Node): seq<string> {
    match node
    case Log(line) => [line]
    case Call(id, depth, body, exit) => [InvokeLine(id, depth)] + Flatten(body) + [ExitLine(id, exit)]
  }

  /** Sequences logged under `program`, by recursion on the call tree. */
  function TreeSequences(forest: seq<Node>, program: string, inside: bool): seq<nat> {
    if forest == [] then [] else NodeSequences(forest[0], program, inside) + TreeSequences(forest[1..], program, inside)
  }

  function NodeSequences(node: Node, program: string, inside: bool): seq<nat> {
    match node
    case Log(line) => if inside && SequenceFromLog(line).Some? then [SequenceFromLog(line).value] else []
    case Call(id, _, body, _) => TreeSequences(body, program, inside || id == program)
  }

  predicate IsWord(id: string) { id != "" && forall i :: 0 <= i < |id| ==> !IsAsciiSpace(id[i]) }

  predicate WellFormed(forest: seq<Node>) {
    forest != [] ==> WellFormedNode(forest[0]) && WellFormed(forest[1..])
  }

  predicate WellFormedNode(node: Node) {
    match node
    case Log(line) => !IsFrameLine(line)
    case Call(id, _, body, _) => IsWord(id) && WellFormed(body)
  }

  lemma {:induction false} TakeWordOf(w: string, rest: string)
    requires forall i :: 0 <= i < |w| ==> !IsAsciiSpace(w[i])
    requires rest == [] || IsAsciiSpace(rest[0])
    ensures TakeWord(w + rest) == w
  {
    if w == [] {
      assert w + rest == rest;
    } else {
      TakeWordOf(w[1..], rest);
      assert (w + rest)[1..] == w[1..] + rest;
    }
  }

  predicate IsGap(s: string) { forall i :: 0 <= i < |s| ==> IsAsciiSpace(s[i]) }

  predicate AtWordEnd(rest: string) { rest == [] || IsAsciiSpace(rest[0]) }

  lemma {:induction false} SkipGap(gap: string, s: string)
    requires IsGap(gap) && (s == [] || !IsAsciiSpace(s[0]))
    ensures SkipSpaces(gap + s) == s
  {
    if gap == [] {
      assert gap + s == s;
    } else {
      SkipGap(gap[1..], s);
      assert (gap + s)[1..] == gap[1..] + s;
    }
  }

  lemma NextWordAfter(gap: string, w: string, rest: string)
    requires IsGap(gap) && IsWord(w) && AtWordEnd(rest)
    ensures NextWord(gap + (w + rest)) == Token(w, rest)
  {
    assert (w + rest)[0] == w[0];
    SkipGap(gap, w + rest);
    TakeWordOf(w, rest);
    assert (w + rest)[|w|..] == rest;
  }

  lemma NoWordAfter(gap: string)
    requires IsGap(gap)
    ensures NextWord(gap) == NoMore
  {
    SkipGap(gap, []);
    assert gap + [] == gap;
  }

  /** The words of a frame line. */
  lemma FrameWords(id: string, third: string, rest: string)
    requires IsWord(id) && IsWord(third) && AtWordEnd(rest)
    ensures ProgramLine("Program " + (id + (" " + (third + rest)))) == Some((id, third))
  {
    var line, tail := "Program " + (id + (" " + (third + rest))), " " + (id + (" " + (third + rest)));
    assert line == "" + ("Program" + tail);
    assert IsWord("Program") && IsGap("") && IsGap(" ");
    NextWordAfter("", "Program", tail);
    NextWordAfter(" ", id, " " + (third + rest));
    NextWordAfter(" ", third, rest);
    ProgramLineOf(line, tail, id, " " + (third + rest), third, rest);
  }

  lemma ProgramLineOf(line: string, afterFirst: string, id: string, afterId: string, third: string, rest: string)
    requires NextWord(line) == Token("Program", afterFirst)
    requires NextWord(afterFirst) == Token(id, afterId) && NextWord(afterId) == Token(third, rest)
    ensures ProgramLine(line) == Some((id, third))
  {
  }

  // ----- Which lines are frame lines -----

  /** What `first`, `id` and `third`, the first three words of a line, make of it, whatever separates and follows them. */
  lemma FrameLineIff(lead: string, first: string, gap: string, id: string, gap': string, third: string, rest: string)
    requires IsGap(lead) && IsGap(gap) && gap != [] && IsGap(gap') && gap' != [] && AtWordEnd(rest)
    requires IsWord(first) && IsWord(id) && IsWord(third)
    ensures var line := lead + (first + (gap + (id + (gap' + (third + rest)))));
            && InvokedProgram(line) == (if first == "Program" && third == "invoke" then Some(id) else None)
            && (IsProgramEnd(line) <==> first == "Program" && (third == "success" || "failed" <= third))
  {
    NextWordAfter(lead, first, gap + (id + (gap' + (third + rest))));
    NextWordAfter(gap, id, gap' + (third + rest));
    NextWordAfter(gap', third, rest);
  }

  /** A line of fewer than three words is no frame line. */
  lemma ShortLineIsNoFrame(lead: string, first: string, gap: string, id: string, gap': string)
    requires IsGap(lead) && IsGap(gap) && IsGap(gap') && IsWord(first) && IsWord(id)
    ensures !IsFrameLine(lead) && !IsFrameLine(lead + (first + gap))
    ensures gap != [] ==> !IsFrameLine(lead + (first + (gap + (id + gap'))))
  {
    NoWordAfter(lead);
    NextWordAfter(lead, first, gap);
    NoWordAfter(gap);
    if gap != [] {
      NextWordAfter(lead, first, gap + (id + gap'));
      NextWordAfter(gap, id, gap');
      NoWordAfter(gap');
    }
  }

  /** What programs log: text behind `Program log:` or `Program data:` whose first word is not one of the runtime's. */
  ghost predicate IsOrdinary(line: string) {
    exists id, w, rest :: line == OrdinaryLine(id, w, rest) && IsWord(id) && IsWord(w) && AtWordEnd(rest)
                          && w != "invoke" && w != "success" && !("failed" <= w)
  }

  function OrdinaryLine(id: string, w: string, rest: string): string { "Program" + (" " + (id + (" " + (w + rest)))) }

  lemma OrdinaryIsNoFrame(line: string)
    requires IsOrdinary(line)
    ensures !IsFrameLine(line)
  {
    var id, w, rest :| line == OrdinaryLine(id, w, rest) && IsWord(id) && IsWord(w) && AtWordEnd(rest)
                       && w != "invoke" && w != "success" && !("failed" <= w);
    assert IsWord("Program") && IsGap(" ") && IsGap("");
    FrameLineIff("", "Program", " ", id, " ", w, rest);
    assert "" + line == line;
  }

  lemma InvokeText(digits: string)
    ensures " invoke [" + digits + "]" == " " + ("invoke" + (" [" + digits + "]"))
  {
  }

  lemma InvokeLineIsInvoke(id: string, depth: nat)
    requires IsWord(id)
    ensures InvokedProgram(InvokeLine(id, depth)) == Some(id)
  {
    InvokeText(Decimal(depth));
    FrameWords(id, "invoke", " [" + Decimal(depth) + "]");
  }

  lemma SuccessLineWords(id: string)
    requires IsWord(id)
    ensures ProgramLine(ExitLine(id, Success)) == Some((id, "success"))
  {
    assert IsWord("success");
    assert " success" == " " + ("success" + "");
    assert ExitLine(id, Success) == "Program " + (id + (" " + ("success" + "")));
    FrameWords(id, "success", "");
  }

  lemma FailedLineWords(id: string, message: string)
    requires IsWord(id)
    ensures ProgramLine(ExitLine(id, Failed(message))) == Some((id, "failed:"))
  {
    FrameWords(id, "failed:", " " + message);
    assert " failed: " + message == " " + ("failed:" + (" " + message));
  }

  lemma ExitLineIsEnd(id: string, exit: Exit)
    requires IsWord(id)
    ensures InvokedProgram(ExitLine(id, exit)).None? && IsProgramEnd(ExitLine(id, exit))
  {
    match exit
    case Success => SuccessLineWords(id);
    case Failed(message) => FailedLineWords(id, message);
  }

  lemma ScanInvoke(id: string, depth: nat, more: seq<string>, stack: seq<string>, program: string)
    requires IsWord(id)
    ensures Scan([InvokeLine(id, depth)] + more, stack, program) == Scan(more, stack + [id], program)
  {
    InvokeLineIsInvoke(id, depth);
    assert ([InvokeLine(id, depth)] + more)[1..] == more;
  }

  lemma ScanExit(id: string, exit: Exit, more: seq<string>, stack: seq<string>, program: string)
    requires IsWord(id)
    ensures Scan([ExitLine(id, exit)] + more, stack + [id], program) == Scan(more, stack, program)
  {
    ExitLineIsEnd(id, exit);
    assert ([ExitLine(id, exit)] + more)[1..] == more;
    assert Pop(stack + [id]) == stack;
  }

  lemma ScanLog(line: string, more: seq<string>, stack: seq<string>, program: string)
    requires !IsFrameLine(line)
    ensures Scan([line] + more, stack, program)
         == NodeSequences(Log(line), program, program in stack) + Scan(more, stack, program)
  {
    assert ([line] + more)[1..] == more;
  }

  /** Scanning the log of a forest reports the forest's sequences and then goes on with the stack it had. */
  lemma {:induction false} ScanForest(forest: seq<Node>, more: seq<string>, stack: seq<string>, program: string)
    requires WellFormed(forest)
    ensures Scan(Flatten(forest) + more, stack, program)
         == TreeSequences(forest, program, program in stack) + Scan(more, stack, program)
    decreases forest, 1
  {
    if forest == [] {
      assert Flatten(forest) + more == more;
    } else {
      var first, rest := forest[0], forest[1..];
      assert Flatten(forest) + more == FlattenNode(first) + (Flatten(rest) + more);
      ScanNode(first, Flatten(rest) + more, stack, program);
      ScanForest(rest, more, stack, program);
    }
  }

  lemma {:induction false} ScanNode(node: Node, more: seq<string>, stack: seq<string>, program: string)
    requires WellFormedNode(node)
    ensures Scan(FlattenNode(node) + more, stack, program)
         == NodeSequences(node, program, program in stack) + Scan(more, stack, program)
    decreases node, 0
  {
    match node
    case Log(line) =>
      ScanLog(line, more, stack, program);
    case Call(id, depth, body, exit) =>
      var closing := [ExitLine(id, exit)] + more;
      ScanInvoke(id, depth, Flatten(body) + closing, stack, program);
      CallLines(id, depth, body, exit, more);
      ScanForest(body, closing, stack + [id], program);
      ScanExit(id, exit, more, stack, program);
  }

  lemma CallLines(id: string, depth: nat, body: seq<Node>, exit: Exit, more: seq<string>)
    ensures FlattenNode(Call(id, depth, body, exit)) + more
         == [InvokeLine(id, depth)] + (Flatten(body) + ([ExitLine(id, exit)] + more))
  {
  }

  /**
   * Solana log refinement: on the log of any well-formed call forest the stack machine reports exactly the
   * sequences logged under the bridge program, in log order.
   */
  lemma ScanRefinesCallTree(forest: seq<Node>, program: string)
    requires WellFormed(forest)
    ensures Scan(Flatten(forest), [], program) == TreeSequences(forest, program, false)
  {
    ScanForest(forest, [], [], program);
    assert Flatten(forest) + [] == Flatten(forest);
  }

  lemma ScanCons(line: string, more: seq<string>, stack: seq<string>, program: string)
    ensures Scan([line] + more, stack, program)
         == Reported(line, stack, program) + Scan(more, NextStack(line, stack), program)
  {
    assert ([line] + more)[1..] == more;
  }

  lemma ScanIsMonotoneStep(line: string, rest: seq<string>, more: seq<string>, stack: seq<string>, program: string)
    requires Scan(rest, NextStack(line, stack), program) <= Scan(rest + more, NextStack(line, stack), program)
    ensures Scan([line] + rest, stack, program) <= Scan([line] + (rest + more), stack, program)
  {
    ScanCons(line, rest, stack, program);
    ScanCons(line, rest + more, stack, program);
  }

  lemma {:induction false} ScanIsMonotone(lines: seq<string>, more: seq<string>, stack: seq<string>, program: string)
    ensures Scan(lines, stack, program) <= Scan(lines + more, stack, program)
    decreases |lines|
  {
    if lines != [] {
      var line, rest := lines[0], lines[1..];
      assert lines == [line] + rest;
      assert lines + more == [line] + (rest + more);
      ScanIsMonotone(rest, more, NextStack(line, stack), program);
      ScanIsMonotoneStep(line, rest, more, stack, program);
    }
  }

  // ----- Traces as programs write them -----

  /** Every log line of the forest is an ordinary one. */
  ghost predicate Ordinary(forest: seq<Node>) {
    forest != [] ==> OrdinaryNode(forest[0]) && Ordinary(forest[1..])
  }

  ghost predicate OrdinaryNode(node: Node) {
    match node
    case Log(line) => IsOrdinary(line)
    case Call(id, _, body, _) => IsWord(id) && Ordinary(body)
  }

  lemma {:induction false} OrdinaryIsWellFormed(forest: seq<Node>)
    requires Ordinary(forest)
    ensures WellFormed(forest)
    decreases forest, 1
  {
    if forest != [] {
      OrdinaryNodeIsWellFormed(forest[0]);
      OrdinaryIsWellFormed(forest[1..]);
    }
  }

  lemma {:induction false} OrdinaryNodeIsWellFormed(node: Node)
    requires OrdinaryNode(node)
    ensures WellFormedNode(node)
    decreases node, 0
  {
    match node
    case Log(line) => OrdinaryIsNoFrame(line);
    case Call(_, _, body, _) => OrdinaryIsWellFormed(body);
  }

  /** Log refinement with nothing assumed about how lines are classified. */
  lemma ScanRefinesOrdinaryTree(forest: seq<Node>, program: string)
    requires Ordinary(forest)
    ensures Scan(Flatten(forest), [], program) == TreeSequences(forest, program, false)
  {
    OrdinaryIsWellFormed(forest);
    ScanRefinesCallTree(forest, program);
  }

  function BridgeLine(n: nat): string { "Program log: Sequence: " + Decimal(n) }

  /** The line with its words apart, and with its marker apart. */
  lemma BridgeLineParts(digits: string)
    ensures "Program log: Sequence: " + digits == OrdinaryLine("log:", "Sequence:", " " + digits)
    ensures "Program log: Sequence: " + digits == "Program log: " + (SEQUENCE_MARKER + (" " + (digits + "")))
  {
  }

  lemma LeadHasNoMarker()
    ensures !Occurs("Program log: ", SEQUENCE_MARKER)
  {
    var lead := "Program log: ";
    forall j: nat ensures !OccursAt(lead, SEQUENCE_MARKER, j) {
      if j + |SEQUENCE_MARKER| <= |lead| { assert lead[j..j + |SEQUENCE_MARKER|][0] == lead[j] != 'S'; }
    }
  }

  lemma BridgeWords()
    ensures IsWord("log:") && IsWord("Sequence:") && !("failed" <= "Sequence:")
  {
    assert "failed"[0] != "Sequence:"[0];
  }

  lemma OrdinaryWords(line: string, id: string, w: string, rest: string)
    requires line == OrdinaryLine(id, w, rest) && IsWord(id) && IsWord(w) && AtWordEnd(rest)
    requires w != "invoke" && w != "success" && !("failed" <= w)
    ensures IsOrdinary(line)
  {
  }

  lemma BridgeLineIsOrdinary(n: nat)
    ensures IsOrdinary(BridgeLine(n))
  {
    var digits := Decimal(n);
    BridgeLineParts(digits);
    BridgeWords();
    assert (" " + digits)[0] == ' ';
    OrdinaryWords(BridgeLine(n), "log:", "Sequence:", " " + digits);
  }

  lemma BridgeLineValue(n: nat)
    ensures SequenceFromLog(BridgeLine(n)) == if n <= U64_MAX then Some(n) else None
  {
    BridgeLineParts(Decimal(n));
    LeadHasNoMarker();
    SequenceLineRoundTrip("Program log: ", " ", n, "");
  }

  /**
   * The bridge's own line, from end to end: logged anywhere below the bridge program it yields its number, logged
   * anywhere else it yields nothing.
   */
  lemma BridgeLineIsRead(before: seq<Node>, n: nat, after: seq<Node>, program: string, other: string)
    requires Ordinary(before) && Ordinary(after) && IsWord(program) && IsWord(other) && n <= U64_MAX
    ensures Scan(Flatten([Call(program, 1, before + ([Log(BridgeLine(n))] + after), Success)]), [], program)
         == TreeSequences(before, program, true) + ([n] + TreeSequences(after, program, true))
    ensures other != program ==>
              Scan(Flatten([Call(other, 1, [Log(BridgeLine(n))], Success)]), [], program) == []
  {
    BridgeLineIsOrdinary(n);
    BridgeLineValue(n);
    var body := before + ([Log(BridgeLine(n))] + after);
    assert ([Log(BridgeLine(n))] + after)[1..] == after;
    assert Ordinary([Log(BridgeLine(n))] + after);
    OrdinaryConcat(before, [Log(BridgeLine(n))] + after);
    OneCall(program, body, program);
    TreeConcat(before, [Log(BridgeLine(n))] + after, program, true);
    TreeCons(Log(BridgeLine(n)), after, program, true);
    var none: seq<Node> := [];
    assert Ordinary(none);
    assert [Log(BridgeLine(n))] == [Log(BridgeLine(n))] + none;
    assert ([Log(BridgeLine(n))] + none)[1..] == none;
    OneCall(other, [Log(BridgeLine(n))], program);
    TreeCons(Log(BridgeLine(n)), none, program, other == program);
  }

  lemma {:induction false} OrdinaryConcat(a: seq<Node>, b: seq<Node>)
    requires Ordinary(a) && Ordinary(b)
    ensures Ordinary(a + b)
  {
    if a == [] {
      assert a + b == b;
    } else {
      OrdinaryConcat(a[1..], b);
      assert (a + b)[1..] == a[1..] + b;
    }
  }

  lemma {:induction false} TreeConcat(a: seq<Node>, b: seq<Node>, program: string, inside: bool)
    ensures TreeSequences(a + b, program, inside) == TreeSequences(a, program, inside) + TreeSequences(b, program, inside)
  {
    if a == [] {
      assert a + b == b;
    } else {
      var head, rest := a[0], a[1..];
      assert a == [head] + rest && a + b == [head] + (rest + b);
      TreeConcat(rest, b, program, inside);
      TreeCons(head, rest, program, inside);
      TreeCons(head, rest + b, program, inside);
    }
  }

  /** A transaction of one call. */
  lemma OneCall(id: string, body: seq<Node>, program: string)
    requires IsWord(id) && Ordinary(body)
    ensures Scan(Flatten([Call(id, 1, body, Success)]), [], program) == TreeSequences(body, program, id == program)
  {
    var call, none: seq<Node> := Call(id, 1, body, Success), [];
    assert Ordinary(none) && [call] == [call] + none;
    assert ([call] + none)[1..] == none;
    assert OrdinaryNode(call);
    ScanRefinesOrdinaryTree([call], program);
    TreeCons(call, none, program, false);
  }

  /** A truncated log loses sequences at the end only; it never invents or reorders any. */
  lemma ScanOfTruncatedLog(forest: seq<Node>, program: string, n: nat)
    requires WellFormed(forest) && n <= |Flatten(forest)|
    ensures Scan(Flatten(forest)[..n], [], program) <= TreeSequences(forest, program, false)
  {
    ScanRefinesCallTree(forest, program);
    ScanIsMonotone(Flatten(forest)[..n], Flatten(forest)[n..], [], program);
    assert Flatten(forest)[..n] + Flatten(forest)[n..] == Flatten(forest);
  }

  // ----- Sequence lines -----

  lemma {:induction false} LeadingDigitsOf(digits: string, tail: string)
    requires AllDigits(digits) && (tail == [] || !IsDigit(tail[0]))
    ensures LeadingDigits(digits + tail) == digits
  {
    if digits == [] {
      assert digits + tail == tail;
    } else {
      LeadingDigitsOf(digits[1..], tail);
      assert (digits + tail)[1..] == digits[1..] + tail;
    }
  }

  /** The number behind the first marker is read back, whatever surrounds them, unless it does not fit 64 bits. */
  lemma SequenceLineRoundTrip(lead: string, space: string, n: nat, tail: string)
    requires !Occurs(lead, SEQUENCE_MARKER)
    requires Blank(space)
    requires tail == [] || !IsDigit(tail[0])
    ensures SequenceFromLog(lead + (SEQUENCE_MARKER + (space + (Decimal(n) + tail))))
         == if n <= U64_MAX then Some(n) else None
  {
    var digits := Decimal(n);
    var after := space + (digits + tail);
    var line := lead + (SEQUENCE_MARKER + after);
    MarkerPosition(lead, after);
    BehindMarker(lead, after);
    DigitsBehind(space, digits, tail);
    ValueOfDecimal(n);
    SequenceAt(line, |lead|, digits);
  }

  /** A line without the marker has no number, and neither has one without digits right behind it. */
  lemma NoSequenceInLine(lead: string, space: string, tail: string)
    requires !Occurs(lead, SEQUENCE_MARKER) && Blank(space)
    requires tail == "" || (!IsDigit(tail[0]) && !IsWhiteSpace(tail[0]))
    ensures SequenceFromLog(lead) == None
    ensures SequenceFromLog(lead + (SEQUENCE_MARKER + (space + tail))) == None
  {
    MarkerPosition(lead, space + tail);
    BehindMarker(lead, space + tail);
    if tail == "" {
      assert space + tail == space;
      TrimStartBlank(space);
    } else {
      TrimStartAround(space, tail);
    }
    assert LeadingDigits(TrimStart(space + tail)) == "";
  }

  lemma BehindMarker(lead: string, after: string)
    ensures (lead + (SEQUENCE_MARKER + after))[|lead| + |SEQUENCE_MARKER|..] == after
  {
  }

  lemma DigitsBehind(space: string, digits: string, tail: string)
    requires Blank(space)
    requires digits != "" && AllDigits(digits) && (tail == [] || !IsDigit(tail[0]))
    ensures LeadingDigits(TrimStart(space + (digits + tail))) == digits
  {
    assert (digits + tail)[0] == digits[0] && IsDigit(digits[0]);
    TrimStartAround(space, digits + tail);
    LeadingDigitsOf(digits, tail);
  }

  lemma SequenceAt(line: string, at: nat, digits: string)
    requires Find(line, SEQUENCE_MARKER) == Some(at) && AllDigits(digits) && digits != ""
    requires LeadingDigits(TrimStart(line[at + |SEQUENCE_MARKER|..])) == digits
    ensures SequenceFromLog(line) == if DecimalValue(digits) <= U64_MAX then Some(DecimalValue(digits)) else None
  {
  }

  lemma MarkerPosition(lead: string, after: string)
    requires !Occurs(lead, SEQUENCE_MARKER)
    ensures Find(lead + (SEQUENCE_MARKER + after), SEQUENCE_MARKER) == Some(|lead|)
  {
    var line := lead + (SEQUENCE_MARKER + after);
    forall j: nat | j < |lead| ensures !OccursAt(line, SEQUENCE_MARKER, j) {
      if j + |SEQUENCE_MARKER| <= |lead| {
        assert line[j..j + |SEQUENCE_MARKER|] == lead[j..j + |SEQUENCE_MARKER|];
        assert !OccursAt(lead, SEQUENCE_MARKER, j);
      } else {
        var k := |lead| - j;
        assert line[|lead|] == 'S' != SEQUENCE_MARKER[k];
        if j + |SEQUENCE_MARKER| <= |line| { assert line[j..j + |SEQUENCE_MARKER|][k] == line[|lead|]; }
      }
    }
    assert OccursAt(line, SEQUENCE_MARKER, |lead|);
    FindIs(line, SEQUENCE_MARKER, |lead|);
  }

  // ----- Log payloads that look like frame lines -----

  /** A forest in which `line` is logged under the bridge, before one more message there and one outside. */
  function Probe(line: string, inner: string, outer: string, program: string): seq<Node> {
    [Call(program, 1, [Log(line), Log(inner)], Success), Log(outer)]
  }

  /** An ordinary log line that carries a sequence. */
  predicate IsMessage(line: string) { !IsFrameLine(line) && SequenceFromLog(line).Some? }

  /**
   * Well-formed log payloads are exactly the ones the refinement tolerates: a payload that reads as a frame
   * line breaks it already in the probe forest.
   */
  lemma RefinementFailsOnFrameLikeLogs(line: string, inner: string, outer: string, program: string)
    requires IsWord(program) && IsMessage(inner) && IsMessage(outer)
    requires SequenceFromLog(inner) != SequenceFromLog(outer)
    ensures Scan(Flatten(Probe(line, inner, outer, program)), [], program)
         == TreeSequences(Probe(line, inner, outer, program), program, false)
       <==> !IsFrameLine(line)
  {
    var forest := Probe(line, inner, outer, program);
    if !IsFrameLine(line) {
      ProbeIsWellFormed(line, inner, outer, program);
      ScanRefinesCallTree(forest, program);
    } else {
      var n, m := SequenceFromLog(inner).value, SequenceFromLog(outer).value;
      var scan, tree := Scan(Flatten(forest), [], program), TreeSequences(forest, program, false);
      ProbeScan(line, inner, outer, program);
      ProbeTree(line, inner, outer, program);
      assert tree[|tree| - 1] == n;
      assert scan != [] ==> scan[|scan| - 1] == m;
    }
  }

  lemma WellFormedCons(node: Node, rest: seq<Node>)
    requires WellFormedNode(node) && WellFormed(rest)
    ensures WellFormed([node] + rest)
  {
    assert ([node] + rest)[1..] == rest;
  }

  lemma TreeCons(node: Node, rest: seq<Node>, program: string, inside: bool)
    ensures TreeSequences([node] + rest, program, inside)
         == NodeSequences(node, program, inside) + TreeSequences(rest, program, inside)
  {
    assert ([node] + rest)[1..] == rest;
  }

  lemma FlatCons(node: Node, rest: seq<Node>)
    ensures Flatten([node] + rest) == FlattenNode(node) + Flatten(rest)
  {
    assert ([node] + rest)[1..] == rest;
  }

  function ProbeBody(line: string, inner: string): seq<Node> { [Log(line)] + ([Log(inner)] + []) }

  /** The probe forest, put together one node at a time. */
  lemma ProbeParts(line: string, inner: string, outer: string, program: string)
    ensures Probe(line, inner, outer, program) == [Call(program, 1, ProbeBody(line, inner), Success)] + ([Log(outer)] + [])
  {
    assert ProbeBody(line, inner) == [Log(line), Log(inner)];
  }

  lemma ProbeIsWellFormed(line: string, inner: string, outer: string, program: string)
    requires IsWord(program) && !IsFrameLine(line) && !IsFrameLine(inner) && !IsFrameLine(outer)
    ensures WellFormed(Probe(line, inner, outer, program))
  {
    var none: seq<Node> := [];
    assert WellFormed(none);
    WellFormedCons(Log(inner), none);
    WellFormedCons(Log(line), [Log(inner)] + none);
    WellFormedCons(Log(outer), none);
    WellFormedCons(Call(program, 1, ProbeBody(line, inner), Success), [Log(outer)] + none);
    ProbeParts(line, inner, outer, program);
  }

  lemma ProbeTree(line: string, inner: string, outer: string, program: string)
    requires IsWord(program) && SequenceFromLog(inner).Some?
    ensures TreeSequences(Probe(line, inner, outer, program), program, false)
         == NodeSequences(Log(line), program, true) + [SequenceFromLog(inner).value]
  {
    var none: seq<Node> := [];
    var call := Call(program, 1, ProbeBody(line, inner), Success);
    TreeCons(Log(inner), none, program, true);
    TreeCons(Log(line), [Log(inner)] + none, program, true);
    TreeCons(Log(outer), none, program, false);
    TreeCons(call, [Log(outer)] + none, program, false);
    ProbeParts(line, inner, outer, program);
    assert NodeSequences(call, program, false) == TreeSequences(ProbeBody(line, inner), program, true);
  }

  lemma ProbeScan(line: string, inner: string, outer: string, program: string)
    requires IsWord(program) && IsFrameLine(line) && IsMessage(inner) && IsMessage(outer)
    ensures Scan(Flatten(Probe(line, inner, outer, program)), [], program)
         == if InvokedProgram(line).Some? then [SequenceFromLog(inner).value, SequenceFromLog(outer).value] else []
  {
    ProbeFlat(line, inner, outer, program);
    ScanInvoke(program, 1, [line] + ([inner] + ([ExitLine(program, Success)] + [outer])), [], program);
    assert [] + [program] == [program];
    ProbeBodyScan(line, inner, outer, program, [program]);
    ProbeReports(line, inner, outer, program);
  }

  lemma ProbeBodyScan(line: string, inner: string, outer: string, program: string, stack: seq<string>)
    requires IsWord(program) && IsFrameLine(line) && IsMessage(inner)
    ensures Scan([line] + ([inner] + ([ExitLine(program, Success)] + [outer])), stack, program)
         == Reported(inner, NextStack(line, stack), program) + Reported(outer, Pop(NextStack(line, stack)), program)
  {
    var after := NextStack(line, stack);
    ScanCons(line, [inner] + ([ExitLine(program, Success)] + [outer]), stack, program);
    ScanCons(inner, [ExitLine(program, Success)] + [outer], after, program);
    ExitLineIsEnd(program, Success);
    ScanCons(ExitLine(program, Success), [outer], after, program);
    ScanLast(outer, Pop(after), program);
  }

  lemma ProbeReports(line: string, inner: string, outer: string, program: string)
    ensures var stack := NextStack(line, [program]);
            IsFrameLine(line) && IsMessage(inner) && IsMessage(outer) ==>
              Reported(inner, stack, program) + Reported(outer, Pop(stack), program)
              == if InvokedProgram(line).Some? then [SequenceFromLog(inner).value, SequenceFromLog(outer).value] else []
  {
    if InvokedProgram(line).Some? {
      var stack := [program] + [InvokedProgram(line).value];
      assert NextStack(line, [program]) == stack && Pop(stack) == [program];
      assert stack[0] == program;
    } else if IsFrameLine(line) {
      assert NextStack(line, [program]) == [];
    }
  }

  lemma ProbeFlat(line: string, inner: string, outer: string, program: string)
    ensures Flatten(Probe(line, inner, outer, program))
         == [InvokeLine(program, 1)] + ([line] + ([inner] + ([ExitLine(program, Success)] + [outer])))
  {
    var none: seq<Node> := [];
    var call := Call(program, 1, ProbeBody(line, inner), Success);
    FlatCons(Log(inner), none);
    FlatCons(Log(line), [Log(inner)] + none);
    FlatCons(Log(outer), none);
    FlatCons(call, [Log(outer)] + none);
    ProbeParts(line, inner, outer, program);
    assert Flatten(ProbeBody(line, inner)) == [line] + [inner];
    assert FlattenNode(call) == [InvokeLine(program, 1)] + ([line] + [inner]) + [ExitLine(program, Success)];
  }

  lemma ScanLast(line: string, stack: seq<string>, program: string)
    ensures Scan([line], stack, program) == Reported(line, stack, program)
  {
    assert [line][1..] == [];
  }
}
