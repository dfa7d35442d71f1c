/** Writing a _headers file out and parsing it gives back what was written. */
module HeaderFiles {
  import opened Paths
  import opened HeaderOps
  import opened Scan
  import opened HeaderParser

  /** A line of a file: a pattern, a header line with its first character, or one that says nothing. */
  datatype TextLine =
    | PatternLine(text: string)
    | HeaderLine(indent: char, rest: string, op: HeaderOp)
    | SilentLine(text: string)

  function TextOf(l: TextLine): string {
    match l
    case PatternLine(text) => text
    case HeaderLine(indent, rest, _) => [indent] + rest
    case SilentLine(text) => text
  }

  /** The grammar reads the line as what it is meant to be. */
  ghost predicate Readable(l: TextLine, g: Grammar) {
    var trimmed := g.trim(TextOf(l));
    && '\n' !in TextOf(l) && (TextOf(l) != "" ==> TextOf(l)[|TextOf(l)| - 1] != '\r')
    && match l
       case PatternLine(text) =>
         && text != "" && text[0] != ' ' && text[0] != '\t'
         && trimmed != "" && trimmed[0] != '#' && g.validPattern(trimmed)
       case HeaderLine(indent, _, op) =>
         && (indent == ' ' || indent == '\t')
         && trimmed != "" && trimmed[0] != '#' && g.header(trimmed) == Some(op)
       case SilentLine(_) => trimmed == "" || trimmed[0] == '#'
  }

  /** The file's text; each line ends in a line feed, or in a carriage return and a line feed. */
  function FileText(lines: seq<TextLine>, crlf: seq<bool>): string
    requires |crlf| == |lines|
  {
    if lines == [] then "" else RawOf(lines[0], crlf[0]) + FileText(lines[1..], crlf[1..])
  }

  function RawOf(l: TextLine, crlf: bool): string {
    TextOf(l) + if crlf then "\r\n" else "\n"
  }

  function Raws(lines: seq<TextLine>, crlf: seq<bool>): (raws: seq<string>)
    requires |crlf| == |lines|
    ensures |raws| == |lines|
    ensures forall i :: 0 <= i < |lines| ==> raws[i] == RawOf(lines[i], crlf[i])
  {
    seq(|lines|, i requires 0 <= i < |lines| => RawOf(lines[i], crlf[i]))
  }

  /** The rules that the lines mean: a pattern starts one, and header lines add to the last one. */
  function Meant(lines: seq<TextLine>, g: Grammar): seq<ParsedRule> {
    if lines == [] then []
    else
      var n := |lines| - 1;
      var before := Meant(lines[..n], g);
      match lines[n]
      case PatternLine(text) => before + [ParsedRule(g.trim(text), [], n + 1)]
      case HeaderLine(_, _, op) =>
        if before == [] then [] else
          var last := before[|before| - 1];
          before[..|before| - 1] + [last.(ops := last.ops + [op])]
      case SilentLine(_) => before
  }

  /** Every header line comes after a pattern. */
  ghost predicate Orderly(lines: seq<TextLine>, g: Grammar) {
    forall i :: 0 <= i < |lines| && lines[i].HeaderLine? ==> Meant(lines[..i], g) != []
  }

  // Lines

  lemma RawShape(l: TextLine, crlf: bool, rest: string, g: Grammar)
    requires Readable(l, g)
    ensures FirstRaw(RawOf(l, crlf) + rest) == RawOf(l, crlf) && Trimmed(RawOf(l, crlf)) == TextOf(l)
  {
    var raw, text := RawOf(l, crlf), TextOf(l);
    var k := |raw| - 1;
    var all := raw + rest;
    assert all[k] == raw[k] == '\n';
    assert all[..k] == raw[..k];
    assert '\n' !in raw[..k] by {
      assert raw[..k] == text + if crlf then "\r" else "";
    }
    IndexByteIs(all, '\n', k);
    assert all[..k + 1] == raw;
    assert raw == raw[..k] + "\n";
    if crlf {
      assert raw[..k] == text + "\r" && (text + "\r")[..|text|] == text;
    } else {
      assert raw[..k] == text;
    }
  }

  lemma {:induction false} FileLines(lines: seq<TextLine>, crlf: seq<bool>, g: Grammar)
    requires |crlf| == |lines| && forall i :: 0 <= i < |lines| ==> Readable(lines[i], g)
    ensures RawLines(FileText(lines, crlf)) == Raws(lines, crlf)
    ensures Flatten(Raws(lines, crlf)) == FileText(lines, crlf)
  {
    hide Readable, FirstRaw, RawOf;
    if lines != [] {
      var raw, rest := RawOf(lines[0], crlf[0]), FileText(lines[1..], crlf[1..]);
      RawShape(lines[0], crlf[0], rest, g);
      FileLines(lines[1..], crlf[1..], g);
      RawNonEmpty(lines[0], crlf[0]);
      assert (raw + rest)[|raw|..] == rest;
      assert Raws(lines, crlf) == [raw] + Raws(lines[1..], crlf[1..]);
    }
  }

  lemma RawNonEmpty(l: TextLine, crlf: bool)
    ensures RawOf(l, crlf) != ""
  {
  }

  /** Reading the file within its limits delivers its lines, without their line breaks. */
  lemma FileEvents(lines: seq<TextLine>, crlf: seq<bool>, g: Grammar, maxSize: nat, maxLine: nat) returns (events: seq<Event>)
    requires |crlf| == |lines| && forall i :: 0 <= i < |lines| ==> Readable(lines[i], g) && |TextOf(lines[i])| <= maxLine
    requires |FileText(lines, crlf)| <= maxSize
    ensures events == Events(Source(FileText(lines, crlf), None), maxSize, maxLine)
    ensures |events| == |lines| && forall i :: 0 <= i < |lines| ==> events[i] == Line(i + 1, TextOf(lines[i]))
  {
    hide Readable, RawLines, RawOf, Trimmed, EventsFrom, Flatten;
    var raws := Raws(lines, crlf);
    FileLines(lines, crlf, g);
    assert raws[..|raws|] == raws;
    EventsMeaning(raws, 1, 0, None, maxSize, maxLine, |raws|);
    events := EventsFrom(raws, 1, 0, None, maxSize, maxLine);
    assert events == Deliveries(raws, 1, maxLine);
    forall i | 0 <= i < |lines|
      ensures events[i] == Line(i + 1, TextOf(lines[i]))
    {
      RawShape(lines[i], crlf[i], "", g);
    }
  }

  // Rules

  lemma {:induction false} FeedSnoc(p: Progress, events: seq<Event>, e: Event, g: Grammar, maxRules: nat)
    requires (p.current ==> p.rules != []) && !FeedAll(p, events, g, maxRules).stopped
    ensures var q := FeedAll(p, events, g, maxRules);
            && (q.current ==> q.rules != [])
            && FeedAll(p, events + [e], g, maxRules) == Feed(q, e, g, maxRules)
    decreases |events|
  {
    hide Feed;
    FeedCurrent(p, if events == [] then e else events[0], g, maxRules);
    if events == [] {
      assert ([] + [e])[1..] == [] && ([] + [e])[0] == e;
    } else if !p.stopped {
      assert (events + [e])[1..] == events[1..] + [e] && (events + [e])[0] == events[0];
      FeedSnoc(Feed(p, events[0], g, maxRules), events[1..], e, g, maxRules);
    }
  }

  lemma FeedCurrent(p: Progress, e: Event, g: Grammar, maxRules: nat)
    requires p.current ==> p.rules != []
    ensures var q := Feed(p, e, g, maxRules); q.current ==> q.rules != []
  {
  }

  lemma FeedLine(rules: seq<ParsedRule>, l: TextLine, num: nat, g: Grammar, maxRules: nat)
    requires Readable(l, g) && (l.HeaderLine? ==> rules != []) && (l.PatternLine? ==> |rules| < maxRules)
    ensures Feed(Progress(rules, [], rules != [], false), Line(num, TextOf(l)), g, maxRules) ==
            match l
            case PatternLine(text) => Progress(rules + [ParsedRule(g.trim(text), [], num)], [], true, false)
            case HeaderLine(_, _, op) =>
              var last := rules[|rules| - 1];
              Progress(rules[..|rules| - 1] + [last.(ops := last.ops + [op])], [], true, false)
            case SilentLine(_) => Progress(rules, [], rules != [], false)
  {
    var trimmed := g.trim(TextOf(l));
    if l.HeaderLine? {
      assert TextOf(l)[0] == l.indent;
    }
    if trimmed != "" {
      assert HasPrefix(trimmed, "#") <==> trimmed[0] == '#';
    }
  }

  lemma {:induction false} FeedLines(lines: seq<TextLine>, events: seq<Event>, g: Grammar, maxRules: nat)
    requires |events| == |lines| && Orderly(lines, g) && |Meant(lines, g)| <= maxRules
    requires forall i :: 0 <= i < |lines| ==> Readable(lines[i], g) && events[i] == Line(i + 1, TextOf(lines[i]))
    ensures FeedAll(Progress([], [], false, false), events, g, maxRules) ==
            Progress(Meant(lines, g), [], Meant(lines, g) != [], false)
    decreases |lines|
  {
    hide Readable, Feed, TextOf;
    if lines != [] {
      var n := |lines| - 1;
      var front := lines[..n];
      assert forall i :: 0 <= i < n ==> lines[..i] == front[..i];
      MeantGrows(lines, g);
      FeedLines(front, events[..n], g, maxRules);
      assert events == events[..n] + [events[n]];
      FeedSnoc(Progress([], [], false, false), events[..n], events[n], g, maxRules);
      FeedLine(Meant(front, g), lines[n], n + 1, g, maxRules);
    }
  }

  lemma MeantGrows(lines: seq<TextLine>, g: Grammar)
    requires lines != []
    ensures |Meant(lines[..|lines| - 1], g)| + (if lines[|lines| - 1].PatternLine? then 1 else 0) == |Meant(lines, g)|
  {
  }

  /** Whatever the line breaks, the first characters of header lines, and the silent lines in between: a file
      within the limits is parsed to the rules that were written, without a warning. */
  lemma ParsesAsWritten(lines: seq<TextLine>, crlf: seq<bool>, g: Grammar, maxRules: nat, maxSize: nat, maxLine: nat)
    requires |crlf| == |lines| && Orderly(lines, g)
    requires forall i :: 0 <= i < |lines| ==> Readable(lines[i], g) && |TextOf(lines[i])| <= maxLine
    requires |FileText(lines, crlf)| <= maxSize && |Meant(lines, g)| <= maxRules
    ensures var events := Events(Source(FileText(lines, crlf), None), maxSize, maxLine);
            && Take(RulesOf(events, g), maxRules) == Meant(lines, g)
            && FeedAll(Progress([], [], false, false), events, g, maxRules).warnings == []
  {
    hide Readable, FeedAll, RulesOf, Take, FileText, OpsAhead, Orderly;
    var events := FileEvents(lines, crlf, g, maxSize, maxLine);
    var start := Progress([], [], false, false);
    FeedLines(lines, events, g, maxRules);
    FeedAllMeaning(start, events, g, maxRules);
    NotCurrent(start, OpsAhead(events, g));
    assert [] + Take(RulesOf(events, g), maxRules) == Take(RulesOf(events, g), maxRules);
  }
}
