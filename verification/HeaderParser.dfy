/** Parsing a _headers file: which operations belong to which rule. */
module HeaderParser {
  import opened Paths
  import opened HeaderOps
  import opened Scan

  const HEADER_MAX_RULES: nat := 100
  const HEADER_MAX_LINE_LENGTH: nat := 2000
  const MAX_FILE_SIZE: nat := 0x10_0000

  /** How single lines read: `strings.TrimSpace`, the operation in a header line if it is valid,
      and whether a pattern is valid. */
  datatype Grammar = Grammar(trim: string -> string, header: string -> Option<HeaderOp>, validPattern: string -> bool)

  datatype ParsedRule = ParsedRule(pattern: string, ops: seq<HeaderOp>, line: nat)

  datatype Warning =
    | NoPattern(line: nat)
    | BadHeader(line: nat)
    | BadPattern(line: nat)
    | TooManyRules(line: nat)
    | LineTooLong(line: nat)
    | FileTooLarge(line: nat)
    | Unreadable(error: string)

  predicate IsIndented(line: string) {
    line != "" && (line[0] == ' ' || line[0] == '\t')
  }

  // What the file says, without limits on rules

  /** What an event is to the parser. */
  datatype Kind =
    | Other
    | Header(op: Option<HeaderOp>)
    | Pattern(text: string, valid: bool)
    | LostPattern

  function KindOf(e: Event, g: Grammar): Kind {
    match e
    case Line(_, line) =>
      var trimmed := g.trim(line);
      if trimmed == "" || HasPrefix(trimmed, "#") then Other
      else if IsIndented(line) then Header(g.header(trimmed))
      else Pattern(trimmed, g.validPattern(trimmed))
    case Overlong(_, line) => if IsIndented(line) then Other else LostPattern
    case _ => Other
  }

  /** Header lines after this event do not belong to a rule before it. */
  predicate IsBoundary(e: Event, g: Grammar) {
    KindOf(e, g).Pattern? || KindOf(e, g).LostPattern?
  }

  predicate StartsRule(e: Event, g: Grammar) {
    KindOf(e, g).Pattern? && KindOf(e, g).valid
  }

  function OpOf(e: Event, g: Grammar): seq<HeaderOp> {
    if KindOf(e, g).Header? && KindOf(e, g).op.Some? then [KindOf(e, g).op.value] else []
  }

  /** The operations in the header lines before the next boundary. */
  function OpsAhead(events: seq<Event>, g: Grammar): seq<HeaderOp> {
    if events == [] || IsBoundary(events[0], g) then [] else OpOf(events[0], g) + OpsAhead(events[1..], g)
  }

  /** The rules of a file: each valid pattern line with the operations ahead of it. */
  function RulesOf(events: seq<Event>, g: Grammar): seq<ParsedRule> {
    if events == [] then []
    else
      (if StartsRule(events[0], g) then
         [ParsedRule(KindOf(events[0], g).text, OpsAhead(events[1..], g), events[0].num)]
       else [])
      + RulesOf(events[1..], g)
  }

  function CountRules(events: seq<Event>, g: Grammar): nat {
    if events == [] then 0 else (if StartsRule(events[0], g) then 1 else 0) + CountRules(events[1..], g)
  }

  function OpsIn(events: seq<Event>, g: Grammar): seq<HeaderOp> {
    if events == [] then [] else OpOf(events[0], g) + OpsIn(events[1..], g)
  }

  lemma {:induction false} OpsAheadMeaning(events: seq<Event>, g: Grammar, n: nat)
    requires n <= |events| && (n < |events| ==> IsBoundary(events[n], g))
    requires forall i :: 0 <= i < n ==> !IsBoundary(events[i], g)
    ensures OpsAhead(events, g) == OpsIn(events[..n], g)
    decreases n
  {
    hide IsBoundary, OpOf;
    if n > 0 {
      assert events[..n][1..] == events[1..][..n - 1];
      OpsAheadMeaning(events[1..], g, n - 1);
    } else {
      assert events[..0] == [];
    }
  }

  /** Every valid pattern line starts a rule, in order; the rule's operations are those of the
      valid header lines that follow it up to the next pattern line, valid or not, or overlong
      line that is not indented. */
  lemma {:induction false} RuleMeaning(events: seq<Event>, g: Grammar, b: nat, n: nat)
    requires b < n <= |events| && StartsRule(events[b], g)
    requires n < |events| ==> IsBoundary(events[n], g)
    requires forall i :: b < i < n ==> !IsBoundary(events[i], g)
    ensures var k := CountRules(events[..b], g);
            && k < |RulesOf(events, g)|
            && RulesOf(events, g)[k] == ParsedRule(KindOf(events[b], g).text, OpsIn(events[b + 1..n], g), events[b].num)
    decreases b
  {
    hide KindOf, IsBoundary, OpOf, OpsAhead;
    if b == 0 {
      forall i | 0 <= i < n - 1
        ensures !IsBoundary(events[1..][i], g)
      {
        assert events[1..][i] == events[i + 1];
      }
      OpsAheadMeaning(events[1..], g, n - 1);
      assert events[1..][..n - 1] == events[1..n];
    } else {
      RuleMeaning(events[1..], g, b - 1, n - 1);
      assert events[..b][1..] == events[1..][..b - 1];
      assert events[1..][b..n - 1] == events[b + 1..n];
    }
  }

  lemma {:induction false} RulesCounted(events: seq<Event>, g: Grammar)
    ensures |RulesOf(events, g)| == CountRules(events, g)
  {
    hide KindOf, OpsAhead;
    if events != [] {
      RulesCounted(events[1..], g);
    }
  }

  // Parsing

  /** How far parsing has come; while `current`, header lines add to the last rule. */
  datatype Progress = Progress(rules: seq<ParsedRule>, warnings: seq<Warning>, current: bool, stopped: bool)

  function Warn(p: Progress, w: Warning): Progress {
    p.(warnings := p.warnings + [w])
  }

  function AddOperation(rules: seq<ParsedRule>, ops: seq<HeaderOp>): seq<ParsedRule>
    requires rules != []
  {
    var last := |rules| - 1;
    rules[last := rules[last].(ops := rules[last].ops + ops)]
  }

  function Feed(p: Progress, e: Event, g: Grammar, maxRules: nat): Progress
    requires p.current ==> p.rules != []
  {
    match e
    case TooLarge(num) => Warn(p, FileTooLarge(num))
    case ReadError(error) => Warn(p, Unreadable(error))
    case Overlong(num, line) => Warn(p, LineTooLong(num)).(current := p.current && IsIndented(line))
    case Line(num, line) =>
      match KindOf(e, g)
      case Header(op) =>
        if !p.current then Warn(p, NoPattern(num))
        else if op.None? then Warn(p, BadHeader(num))
        else p.(rules := AddOperation(p.rules, [op.value]))
      case Pattern(text, valid) =>
        if !valid then Warn(p, BadPattern(num)).(current := false)
        else if |p.rules| >= maxRules then Warn(p, TooManyRules(num)).(stopped := true)
        else p.(rules := p.rules + [ParsedRule(text, [], num)], current := true)
      case _ => p
  }

  /** Parsing stops at the event that would start one rule too many. */
  function FeedAll(p: Progress, events: seq<Event>, g: Grammar, maxRules: nat): Progress
    requires p.current ==> p.rules != []
    decreases |events|
  {
    if events == [] || p.stopped then p else FeedAll(Feed(p, events[0], g, maxRules), events[1..], g, maxRules)
  }

  function Take(rules: seq<ParsedRule>, n: nat): seq<ParsedRule> {
    if n < |rules| then rules[..n] else rules
  }

  /** The rules so far, with the operations still ahead of the current one. */
  function Completed(p: Progress, ops: seq<HeaderOp>): seq<ParsedRule>
    requires p.current ==> p.rules != []
  {
    if p.current then AddOperation(p.rules, ops) else p.rules
  }

  lemma FeedMeaning(p: Progress, e: Event, g: Grammar, maxRules: nat)
    requires p.current ==> p.rules != []
    requires !p.stopped && |p.rules| <= maxRules
    ensures var q := Feed(p, e, g, maxRules);
            && (!IsBoundary(e, g) ==> q.rules == Completed(p, OpOf(e, g)) && q.current == p.current && !q.stopped)
            && (IsBoundary(e, g) && !StartsRule(e, g) ==> q.rules == p.rules && !q.current && !q.stopped)
            && (StartsRule(e, g) ==> e.Line?)
            && (StartsRule(e, g) && |p.rules| == maxRules ==> q.rules == p.rules && q.stopped)
            && (StartsRule(e, g) && |p.rules| < maxRules ==>
                  q.rules == p.rules + [ParsedRule(KindOf(e, g).text, [], e.num)] && q.current && !q.stopped)
  {
    NothingAdded(p);
  }

  lemma NothingAdded(p: Progress)
    requires p.current ==> p.rules != []
    ensures Completed(p, []) == p.rules
  {
    if p.current {
      var last := p.rules[|p.rules| - 1];
      assert last.ops + [] == last.ops;
    }
  }

  lemma AddedTwice(p: Progress, q: Progress, ops: seq<HeaderOp>, more: seq<HeaderOp>)
    requires p.current ==> p.rules != []
    requires q.rules == Completed(p, ops) && q.current == p.current
    ensures q.current ==> q.rules != []
    ensures Completed(q, more) == Completed(p, ops + more)
  {
    if p.current {
      var last := p.rules[|p.rules| - 1].ops;
      assert last + ops + more == last + (ops + more);
    }
  }

  lemma NewRule(rules: seq<ParsedRule>, r: ParsedRule, ops: seq<HeaderOp>, more: seq<ParsedRule>, n: nat)
    requires r.ops == [] && n > 0
    ensures AddOperation(rules + [r], ops) + Take(more, n - 1) == rules + Take([r.(ops := ops)] + more, n)
  {
    assert r.ops + ops == ops;
    assert AddOperation(rules + [r], ops) == rules + [r.(ops := ops)];
    assert Take([r.(ops := ops)] + more, n) == [r.(ops := ops)] + Take(more, n - 1);
  }

  /** Parsing with a limit on the number of rules gives the rules so far, with the operations ahead
      of the current one, and then as many more of the file's rules as the limit allows. */
  lemma {:induction false} FeedAllMeaning(p: Progress, events: seq<Event>, g: Grammar, maxRules: nat)
    requires p.current ==> p.rules != []
    requires !p.stopped && |p.rules| <= maxRules
    ensures FeedAll(p, events, g, maxRules).rules ==
            Completed(p, OpsAhead(events, g)) + Take(RulesOf(events, g), maxRules - |p.rules|)
    decreases |events|
  {
    hide Feed, KindOf, IsBoundary, OpOf, Completed, Take, AddOperation;
    NothingAdded(p);
    TakeNothing(RulesOf(events, g), maxRules - |p.rules|);
    if events != [] {
      var e, rest := events[0], events[1..];
      var q := Feed(p, e, g, maxRules);
      FeedMeaning(p, e, g, maxRules);
      if !IsBoundary(e, g) {
        NotBoundary(e, g);
        AddedTwice(p, q, OpOf(e, g), OpsAhead(rest, g));
        CompletedLength(p, OpOf(e, g));
        FeedAllMeaning(q, rest, g, maxRules);
        assert RulesOf(events, g) == RulesOf(rest, g);
      } else if !StartsRule(e, g) {
        FeedAllMeaning(q, rest, g, maxRules);
        NotCurrent(q, OpsAhead(rest, g));
        assert RulesOf(events, g) == RulesOf(rest, g);
      } else if |p.rules| < maxRules {
        var r := ParsedRule(KindOf(e, g).text, [], e.num);
        FeedAllMeaning(q, rest, g, maxRules);
        NewRule(p.rules, r, OpsAhead(rest, g), RulesOf(rest, g), maxRules - |p.rules|);
        IsCurrent(q, OpsAhead(rest, g));
      }
    }
  }

  lemma TakeNothing(rules: seq<ParsedRule>, n: nat)
    ensures rules == [] || n == 0 ==> Take(rules, n) == []
  {
  }

  lemma NotBoundary(e: Event, g: Grammar)
    ensures StartsRule(e, g) ==> IsBoundary(e, g)
  {
  }

  lemma CompletedLength(p: Progress, ops: seq<HeaderOp>)
    requires p.current ==> p.rules != []
    ensures |Completed(p, ops)| == |p.rules|
  {
  }

  lemma NotCurrent(p: Progress, ops: seq<HeaderOp>)
    requires !p.current
    ensures Completed(p, ops) == p.rules
  {
  }

  lemma IsCurrent(p: Progress, ops: seq<HeaderOp>)
    requires p.current && p.rules != []
    ensures Completed(p, ops) == AddOperation(p.rules, ops)
  {
  }

  /** `Parse` keeps its state in these variables, which its callbacks update. */
  class Parser {
    const grammar: Grammar
    const maxRules: nat
    var rules: seq<ParsedRule>
    var warnings: seq<Warning>
    var current: Option<nat>

    constructor (grammar: Grammar, maxRules: nat)
      ensures this.grammar == grammar && this.maxRules == maxRules
      ensures Valid() && At(false) == Progress([], [], false, false)
    {
      this.grammar, this.maxRules := grammar, maxRules;
      rules, warnings, current := [], [], None;
    }

    /** The current rule is the last one. */
    ghost predicate Valid()
      reads this
    {
      current.Some? ==> rules != [] && current.value == |rules| - 1
    }

    ghost function At(stopped: bool): (p: Progress)
      reads this
      requires Valid()
      ensures p.current ==> p.rules != []
    {
      Progress(rules, warnings, current.Some?, stopped)
    }

    /** The callback for a line within the limits. */
    method OnLine(num: nat, line: string) returns (stop: bool)
      requires Valid()
      modifies this
      ensures Valid()
      ensures At(stop) == Feed(old(At(false)), Line(num, line), grammar, maxRules)
    {
      var trimmed := grammar.trim(line);
      if trimmed == "" || HasPrefix(trimmed, "#") {
        return false;
      }
      if IsIndented(line) {
        if current.None? {
          warnings := warnings + [NoPattern(num)];
          return false;
        }
        var op := grammar.header(trimmed);
        if op.None? {
          warnings := warnings + [BadHeader(num)];
          return false;
        }
        var rule := rules[current.value];
        rules := rules[current.value := rule.(ops := rule.ops + [op.value])];
        return false;
      }
      if !grammar.validPattern(trimmed) {
        warnings := warnings + [BadPattern(num)];
        current := None;
        return false;
      }
      if |rules| >= maxRules {
        warnings := warnings + [TooManyRules(num)];
        return true;
      }
      rules := rules + [ParsedRule(trimmed, [], num)];
      current := Some(|rules| - 1);
      return false;
    }

    /** The callback for an overlong line. */
    method OnSkipped(line: string)
      requires Valid()
      modifies this`current
      ensures Valid() && current == if IsIndented(line) then old(current) else None
    {
      if !IsIndented(line) {
        current := None;
      }
    }

    /** What scanning does with an event. */
    method OnEvent(e: Event) returns (stop: bool)
      requires Valid()
      modifies this
      ensures Valid()
      ensures At(stop) == Feed(old(At(false)), e, grammar, maxRules)
    {
      stop := false;
      match e {
        case Line(num, line) => stop := OnLine(num, line);
        case Overlong(num, line) =>
          warnings := warnings + [LineTooLong(num)];
          OnSkipped(line);
        case TooLarge(num) => warnings := warnings + [FileTooLarge(num)];
        case ReadError(error) => warnings := warnings + [Unreadable(error)];
      }
    }
  }

  function OrDefault(limit: int, default: nat): nat {
    if limit <= 0 then default else limit
  }

  /** `Parse`: with the first rules of the file, up to the limit, as they are without a limit. */
  method Parse(source: Source, grammar: Grammar, maxRules: int, maxFileSize: int, maxLineLength: int)
    returns (rules: seq<ParsedRule>, warnings: seq<Warning>)
    ensures var events := Events(source, if maxFileSize > 0 then maxFileSize else 1024 * 1024,
                                         if maxLineLength > 0 then maxLineLength else 2000);
            var limit := if maxRules > 0 then maxRules else 100;
            && rules == Take(RulesOf(events, grammar), limit)
            && warnings == FeedAll(Progress([], [], false, false), events, grammar, limit).warnings
  {
    hide Feed, KindOf, Events, RulesOf, Take, OpsAhead;
    var limit := OrDefault(maxRules, HEADER_MAX_RULES);
    var events := ScanLines(source, OrDefault(maxFileSize, MAX_FILE_SIZE), OrDefault(maxLineLength, HEADER_MAX_LINE_LENGTH));
    var parser := new Parser(grammar, limit);
    ghost var start := parser.At(false);
    FeedAllMeaning(start, events, grammar, limit);
    NothingAdded(start);
    NotCurrent(start, OpsAhead(events, grammar));
    var stopped := false;
    var i := 0;
    while i < |events| && !stopped
      invariant i <= |events| && parser.Valid()
      invariant parser.grammar == grammar && parser.maxRules == limit
      invariant FeedAll(parser.At(stopped), events[i..], grammar, limit) == FeedAll(start, events, grammar, limit)
    {
      assert events[i..][0] == events[i] && events[i..][1..] == events[i + 1..];
      stopped := parser.OnEvent(events[i]);
      i := i + 1;
    }
    rules, warnings := parser.rules, parser.warnings;
  }
}
