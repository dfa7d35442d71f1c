/** Reading a file line by line within limits on its size and on the length of its lines. */
module Scan {
  import opened Paths

  /** What a reader delivers: text, then its end or an error. */
  datatype Source = Source(text: string, error: Option<string>)

  /** What scanning a file gives, in line order; line numbers start at 1. */
  datatype Event =
    | Line(num: nat, line: string)
    | Overlong(num: nat, line: string)
    | TooLarge(num: nat)
    | ReadError(error: string)

  // The file as a whole

  /** The first line, with its line break if it has one. */
  function FirstRaw(text: string): (raw: string)
    ensures raw <= text && (text != "" ==> raw != "")
  {
    var k := IndexByte(text, '\n');
    if k < 0 then text else text[..k + 1]
  }

  function RawLines(text: string): seq<string> {
    if text == "" then [] else [FirstRaw(text)] + RawLines(text[|FirstRaw(text)|..])
  }

  function TrimSuffix(s: string, suffix: string): string {
    if HasSuffix(s, suffix) then s[..|s| - |suffix|] else s
  }

  /** A line without its line break. */
  function Trimmed(raw: string): string {
    TrimSuffix(TrimSuffix(raw, "\n"), "\r")
  }

  lemma SuffixTrimmed(s: string, c: char)
    ensures TrimSuffix(s + [c], [c]) == s
    ensures s == "" || s[|s| - 1] != c ==> TrimSuffix(s, [c]) == s
  {
    assert (s + [c])[|s|..] == [c];
  }

  /** A line is delivered without its line break, which may be missing or halved at the end of the file, and
      without no more than that. */
  lemma LineBreaks(text: string)
    requires text == "" || (text[|text| - 1] != '\r' && text[|text| - 1] != '\n')
    ensures Trimmed(text) == text && Trimmed(text + "\n") == text
    ensures Trimmed(text + "\r") == text && Trimmed(text + "\r" + "\n") == text
    ensures Trimmed(text + "\r" + "\r") == text + "\r" && Trimmed(text + "\r" + "\r" + "\n") == text + "\r"
  {
    hide TrimSuffix;
    SuffixTrimmed(text, '\n');
    SuffixTrimmed(text, '\r');
    SuffixTrimmed(text + "\r", '\n');
    SuffixTrimmed(text + "\r", '\r');
    SuffixTrimmed(text + "\r" + "\r", '\n');
  }

  function Delivered(raw: string, num: nat, maxLine: nat): Event {
    if |Trimmed(raw)| > maxLine then Overlong(num, Trimmed(raw)) else Line(num, Trimmed(raw))
  }

  /** What comes after `total` bytes in the lines before line `num`. */
  function EventsFrom(raws: seq<string>, num: nat, total: nat, error: Option<string>, maxSize: nat, maxLine: nat): seq<Event> {
    if raws == [] then (if error.Some? then [ReadError(error.value)] else [])
    else if total + |raws[0]| > maxSize then [TooLarge(num)]
    else [Delivered(raws[0], num, maxLine)] + EventsFrom(raws[1..], num + 1, total + |raws[0]|, error, maxSize, maxLine)
  }

  function Events(source: Source, maxSize: nat, maxLine: nat): seq<Event> {
    EventsFrom(RawLines(source.text), 1, 0, source.error, maxSize, maxLine)
  }

  function Flatten(raws: seq<string>): string {
    if raws == [] then "" else raws[0] + Flatten(raws[1..])
  }

  /** A line break ends each line but possibly the last, and is nowhere else. */
  ghost predicate LineShaped(raws: seq<string>) {
    forall i :: 0 <= i < |raws| ==>
      && raws[i] != "" && '\n' !in raws[i][..|raws[i]| - 1]
      && (i < |raws| - 1 ==> raws[i][|raws[i]| - 1] == '\n')
  }

  /** The lines are the text, cut after each line break. */
  lemma {:induction false} RawLinesAre(text: string)
    ensures Flatten(RawLines(text)) == text && LineShaped(RawLines(text))
  {
    if text != "" {
      var raw := FirstRaw(text);
      var rest := text[|raw|..];
      RawLinesAre(rest);
      FirstShaped(text);
      var raws := RawLines(text);
      assert raws == [raw] + RawLines(rest);
      assert raws[1..] == RawLines(rest);
      forall i | 0 <= i < |raws|
        ensures raws[i] != "" && '\n' !in raws[i][..|raws[i]| - 1]
        ensures i < |raws| - 1 ==> raws[i][|raws[i]| - 1] == '\n'
      {
        if i > 0 {
          assert raws[i] == RawLines(rest)[i - 1];
        }
      }
    }
  }

  lemma FirstShaped(text: string)
    requires text != ""
    ensures var raw := FirstRaw(text);
            && raw != "" && '\n' !in raw[..|raw| - 1]
            && (|raw| < |text| ==> raw[|raw| - 1] == '\n')
  {
    var k := IndexByte(text, '\n');
    if k >= 0 {
      assert text[..k + 1][..k] == text[..k];
    }
  }

  function Deliveries(raws: seq<string>, num: nat, maxLine: nat): seq<Event> {
    seq(|raws|, i requires 0 <= i < |raws| => Delivered(raws[i], num + i, maxLine))
  }

  /** After the `n` lines that fit: the next one is too much, or reading ended. */
  function Ending(raws: seq<string>, n: nat, num: nat, error: Option<string>): seq<Event> {
    if n < |raws| then [TooLarge(num + n)] else if error.Some? then [ReadError(error.value)] else []
  }

  /** `n` is the number of lines that end within the limit, `total` bytes in. */
  ghost predicate Fit(raws: seq<string>, total: nat, maxSize: nat, n: nat) {
    && n <= |raws|
    && total + |Flatten(raws[..n])| <= maxSize
    && (n < |raws| ==> total + |Flatten(raws[..n + 1])| > maxSize)
  }

  lemma FlattenFirst(raws: seq<string>, n: nat)
    requires 0 < n <= |raws|
    ensures |Flatten(raws[..n])| == |raws[0]| + |Flatten(raws[1..][..n - 1])|
  {
    assert raws[..n][1..] == raws[1..][..n - 1];
  }

  /** Exactly the lines that end within the limit are delivered, whole and in order; then the
      next line, if there is one, is reported as too much, or else the error that ended reading. */
  lemma {:induction false} EventsMeaning(raws: seq<string>, num: nat, total: nat, error: Option<string>,
                                         maxSize: nat, maxLine: nat, n: nat)
    requires Fit(raws, total, maxSize, n)
    ensures EventsFrom(raws, num, total, error, maxSize, maxLine) ==
            Deliveries(raws[..n], num, maxLine) + Ending(raws, n, num, error)
    decreases |raws|
  {
    hide Delivered, EventsFrom, Deliveries, Ending, Flatten;
    if n == 0 {
      NoneFits(raws, num, total, error, maxSize, maxLine);
    } else {
      FlattenFirst(raws, n);
      OneFits(raws, num, total, error, maxSize, maxLine);
      if n < |raws| {
        FlattenFirst(raws, n + 1);
      }
      EventsMeaning(raws[1..], num + 1, total + |raws[0]|, error, maxSize, maxLine, n - 1);
      DeliverFirst(raws, num, maxLine, n);
      EndingShift(raws, n, num, error);
      Associate([Delivered(raws[0], num, maxLine)], Deliveries(raws[1..][..n - 1], num + 1, maxLine), Ending(raws, n, num, error));
    }
  }

  lemma NoneFits(raws: seq<string>, num: nat, total: nat, error: Option<string>, maxSize: nat, maxLine: nat)
    requires Fit(raws, total, maxSize, 0)
    ensures EventsFrom(raws, num, total, error, maxSize, maxLine) ==
            Deliveries(raws[..0], num, maxLine) + Ending(raws, 0, num, error)
  {
    if raws != [] {
      FlattenFirst(raws, 1);
    }
    assert Deliveries(raws[..0], num, maxLine) == [];
  }

  lemma OneFits(raws: seq<string>, num: nat, total: nat, error: Option<string>, maxSize: nat, maxLine: nat)
    requires raws != [] && total + |raws[0]| <= maxSize
    ensures EventsFrom(raws, num, total, error, maxSize, maxLine) ==
            [Delivered(raws[0], num, maxLine)] + EventsFrom(raws[1..], num + 1, total + |raws[0]|, error, maxSize, maxLine)
  {
  }

  lemma EndingShift(raws: seq<string>, n: nat, num: nat, error: Option<string>)
    requires 0 < n <= |raws|
    ensures Ending(raws[1..], n - 1, num + 1, error) == Ending(raws, n, num, error)
  {
  }

  lemma Associate(a: seq<Event>, b: seq<Event>, c: seq<Event>)
    ensures a + (b + c) == (a + b) + c
  {
  }

  lemma DeliverFirst(raws: seq<string>, num: nat, maxLine: nat, n: nat)
    requires 0 < n <= |raws|
    ensures Deliveries(raws[..n], num, maxLine) ==
            [Delivered(raws[0], num, maxLine)] + Deliveries(raws[1..][..n - 1], num + 1, maxLine)
  {
    hide Delivered;
  }

  /** Some number of lines fits. */
  lemma {:induction false} SomeFit(raws: seq<string>, total: nat, maxSize: nat) returns (n: nat)
    requires total <= maxSize
    ensures Fit(raws, total, maxSize, n)
    decreases |raws|
  {
    if raws == [] {
      n := 0;
    } else if total + |raws[0]| > maxSize {
      n := 0;
      FlattenFirst(raws, 1);
    } else {
      var m := SomeFit(raws[1..], total + |raws[0]|, maxSize);
      n := m + 1;
      FlattenFirst(raws, n);
      if n < |raws| {
        FlattenFirst(raws, n + 1);
      }
    }
  }

  // Reading

  /** `io.LimitReader`: an error beyond the limit is never seen. */
  function Limited(source: Source, limit: nat): Source {
    if |source.text| >= limit then Source(source.text[..limit], None) else source
  }

  /** `ReadString`: text up to the first line break, or what is left with the end of the input. */
  method ReadLine(data: string, pos: nat) returns (raw: string, ended: bool)
    requires pos <= |data|
    ensures raw == (if pos == |data| then "" else FirstRaw(data[pos..]))
    ensures ended ==> raw == data[pos..]
    ensures !ended ==> raw != ""
  {
    var k := IndexByte(data[pos..], '\n');
    if k < 0 {
      return data[pos..], true;
    }
    return data[pos..][..k + 1], false;
  }

  /** Cutting the text off after `limit` characters cuts its first line off there too. */
  lemma FirstCut(text: string, limit: nat)
    requires 0 < limit <= |text|
    ensures FirstRaw(text[..limit]) == if |FirstRaw(text)| <= limit then FirstRaw(text) else text[..limit]
  {
    var k := IndexByte(text, '\n');
    if 0 <= k < limit {
      assert text[..limit][..k] == text[..k];
      IndexByteIs(text[..limit], '\n', k);
      assert text[..limit][..k + 1] == text[..k + 1];
    } else {
      assert '\n' !in text[..limit] by {
        assert k >= 0 ==> text[..limit] == text[..k][..limit];
      }
    }
  }

  /** `scanLines`: no more than the size limit and one byte is read, and yet the events are those
      of the whole file. */
  method ScanLines(source: Source, maxSize: nat, maxLine: nat) returns (events: seq<Event>)
    ensures events == Events(source, maxSize, maxLine)
  {
    hide IndexByte, FirstRaw, Trimmed;
    var input := Limited(source, maxSize + 1);
    events := [];
    var num, pos := 0, 0;
    while true
      invariant pos <= |input.text| && pos <= maxSize
      invariant Events(source, maxSize, maxLine) ==
                events + EventsFrom(RawLines(source.text[pos..]), num + 1, pos, source.error, maxSize, maxLine)
      decreases |input.text| - pos
    {
      var raw, ended := ReadLine(input.text, pos);
      if raw == "" {
        if input.error.Some? {
          events := events + [ReadError(input.error.value)];
        }
        return;
      }
      NextLine(source, maxSize, pos);
      num := num + 1;
      if pos + |raw| > maxSize {
        events := events + [TooLarge(num)];
        return;
      }
      var line := Trimmed(raw);
      ghost var rest := EventsFrom(RawLines(source.text[pos + |raw|..]), num + 1, pos + |raw|, source.error, maxSize, maxLine);
      AppendNext(events, Delivered(raw, num, maxLine), rest);
      assert Events(source, maxSize, maxLine) == events + [Delivered(raw, num, maxLine)] + rest;
      if |line| > maxLine {
        events := events + [Overlong(num, line)];
      } else {
        events := events + [Line(num, line)];
      }
      pos := pos + |raw|;
      if ended {
        EndReached(source, maxSize, pos);
        if input.error.Some? {
          events := events + [ReadError(input.error.value)];
        }
        return;
      }
    }
  }

  lemma AppendNext(events: seq<Event>, e: Event, rest: seq<Event>)
    ensures events + ([e] + rest) == events + [e] + rest
  {
  }

  lemma NextLine(source: Source, maxSize: nat, pos: nat)
    requires pos < |Limited(source, maxSize + 1).text| && pos <= maxSize
    ensures var raw := FirstRaw(Limited(source, maxSize + 1).text[pos..]);
            && pos < |source.text| && source.text[pos..] != ""
            && RawLines(source.text[pos..])[0] == FirstRaw(source.text[pos..])
            && (pos + |raw| > maxSize <==> pos + |FirstRaw(source.text[pos..])| > maxSize)
            && (pos + |raw| <= maxSize ==>
                  && raw == FirstRaw(source.text[pos..]) && pos + |raw| <= |source.text|
                  && RawLines(source.text[pos..]) == [raw] + RawLines(source.text[pos + |raw|..]))
  {
    hide IndexByte;
    var text, data := source.text, Limited(source, maxSize + 1).text;
    assert data[pos..] == text[pos..][..|data| - pos];
    FirstCut(text[pos..], |data| - pos);
    var raw := FirstRaw(data[pos..]);
    if pos + |raw| <= maxSize {
      assert text[pos..][|raw|..] == text[pos + |raw|..];
    }
  }

  lemma EndReached(source: Source, maxSize: nat, pos: nat)
    requires pos == |Limited(source, maxSize + 1).text| <= maxSize
    ensures Limited(source, maxSize + 1) == source && source.text[pos..] == "" && RawLines(source.text[pos..]) == []
  {
  }
}
