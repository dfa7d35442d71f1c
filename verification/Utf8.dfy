/** UTF-8 as Go's `unicode/utf8` encodes and decodes it, on byte strings. */
module Utf8 {

  predicate IsRune(r: int) {
    0 <= r < 0xD800 || 0xE000 <= r <= 0x10FFFF
  }

  type Rune = r: int | 0 <= r < 0xD800 || 0xE000 <= r <= 0x10FFFF

  const RUNE_SELF: Rune := 0x80
  const RUNE_ERROR: Rune := 0xFFFD

  predicate IsContinuation(c: char) {
    0x80 <= c as int < 0xC0
  }

  function Byte(n: int): char
    requires 0 <= n < 0x100
  {
    n as char
  }

  function EncodeRune(r: Rune): (s: string)
    ensures 1 <= |s| <= 4
  {
    if r < 0x80 then [Byte(r)]
    else if r < 0x800 then [Byte(0xC0 + r / 0x40), Byte(0x80 + r % 0x40)]
    else if r < 0x10000 then
      [Byte(0xE0 + r / 0x1000), Byte(0x80 + r / 0x40 % 0x40), Byte(0x80 + r % 0x40)]
    else
      [Byte(0xF0 + r / 0x40000), Byte(0x80 + r / 0x1000 % 0x40),
       Byte(0x80 + r / 0x40 % 0x40), Byte(0x80 + r % 0x40)]
  }

  function Encode(runes: seq<Rune>): string {
    if runes == [] then "" else EncodeRune(runes[0]) + Encode(runes[1..])
  }

  /** The low six bits that a continuation byte carries. */
  function Bits(c: char): int {
    c as int - 0x80
  }

  /** `utf8.DecodeRuneInString`: the first rune and how many bytes it takes;
      a byte that starts no well-formed sequence reads as U+FFFD of one byte. */
  function DecodeRune(s: string): (d: (Rune, nat))
    requires s != ""
    ensures 1 <= d.1 <= |s|
  {
    var b := s[0] as int;
    if b < 0x80 then (b, 1)
    else if 0xC0 <= b < 0xE0 && |s| >= 2 && IsContinuation(s[1]) then
      var r := (b - 0xC0) * 0x40 + Bits(s[1]);
      if 0x80 <= r then (r, 2) else (RUNE_ERROR, 1)
    else if 0xE0 <= b < 0xF0 && |s| >= 3 && IsContinuation(s[1]) && IsContinuation(s[2]) then
      var r := (b - 0xE0) * 0x1000 + Bits(s[1]) * 0x40 + Bits(s[2]);
      if 0x800 <= r && IsRune(r) then (r, 3) else (RUNE_ERROR, 1)
    else if 0xF0 <= b < 0xF8 && |s| >= 4 && IsContinuation(s[1]) && IsContinuation(s[2]) && IsContinuation(s[3]) then
      var r := (b - 0xF0) * 0x40000 + Bits(s[1]) * 0x1000 + Bits(s[2]) * 0x40 + Bits(s[3]);
      if 0x10000 <= r && IsRune(r) then (r, 4) else (RUNE_ERROR, 1)
    else (RUNE_ERROR, 1)
  }

  /** Where `utf8.DecodeLastRuneInString` starts to decode: at the last byte among the
      final four that is no continuation byte. */
  function LastRuneStart(s: string): (i: nat)
    requires s != ""
    ensures i < |s|
  {
    var n := |s|;
    if !IsContinuation(s[n - 1]) then n - 1
    else if n >= 2 && !IsContinuation(s[n - 2]) then n - 2
    else if n >= 3 && !IsContinuation(s[n - 3]) then n - 3
    else if n >= 4 then n - 4
    else 0
  }

  /** `utf8.DecodeLastRuneInString`. */
  function DecodeLastRune(s: string): (d: (Rune, nat))
    requires s != ""
    ensures 1 <= d.1 <= |s|
  {
    var i := LastRuneStart(s);
    var (r, size) := DecodeRune(s[i..]);
    if i + size == |s| then (r, size) else (RUNE_ERROR, 1)
  }

  /** A rune below 2^(6k+6) is rebuilt from its top bits and one more six-bit digit. */
  lemma Digits(r: int)
    requires r >= 0
    ensures r == r / 0x40 * 0x40 + r % 0x40
    ensures r / 0x40 / 0x40 == r / 0x1000
    ensures r / 0x1000 / 0x40 == r / 0x40000
  {
  }

  lemma DecodeEncoded(r: Rune, rest: string)
    ensures DecodeRune(EncodeRune(r) + rest) == (r, |EncodeRune(r)|)
  {
    if r < 0x80 {
    } else if r < 0x800 {
      DecodeTwo(r, rest);
    } else if r < 0x10000 {
      DecodeThree(r, rest);
    } else {
      DecodeFour(r, rest);
    }
  }

  lemma DecodeTwo(r: Rune, rest: string)
    requires 0x80 <= r < 0x800
    ensures DecodeRune(EncodeRune(r) + rest) == (r, |EncodeRune(r)|)
  {
    var s := EncodeRune(r) + rest;
    Digits(r);
    assert s[0] == Byte(0xC0 + r / 0x40) && s[1] == Byte(0x80 + r % 0x40);
  }

  lemma DecodeThree(r: Rune, rest: string)
    requires 0x800 <= r < 0x10000
    ensures DecodeRune(EncodeRune(r) + rest) == (r, |EncodeRune(r)|)
  {
    var s := EncodeRune(r) + rest;
    Digits(r);
    Digits(r / 0x40);
    assert s[0] == Byte(0xE0 + r / 0x1000) && s[1] == Byte(0x80 + r / 0x40 % 0x40);
    assert s[2] == Byte(0x80 + r % 0x40);
  }

  lemma DecodeFour(r: Rune, rest: string)
    requires 0x10000 <= r
    ensures DecodeRune(EncodeRune(r) + rest) == (r, |EncodeRune(r)|)
  {
    var s := EncodeRune(r) + rest;
    Digits(r);
    Digits(r / 0x40);
    Digits(r / 0x1000);
    assert s[0] == Byte(0xF0 + r / 0x40000) && s[1] == Byte(0x80 + r / 0x1000 % 0x40);
    assert s[2] == Byte(0x80 + r / 0x40 % 0x40) && s[3] == Byte(0x80 + r % 0x40);
  }

  lemma LastStart(rest: string, e: string)
    requires 1 <= |e| <= 4 && !IsContinuation(e[0])
    requires forall i :: 1 <= i < |e| ==> IsContinuation(e[i])
    ensures LastRuneStart(rest + e) == |rest|
  {
    hide IsContinuation;
    var s := rest + e;
    var n := |rest|;
    assert s[n] == e[0];
    assert forall i :: n < i < n + |e| ==> s[i] == e[i - n];
  }

  lemma {:induction false} EncodeConcat(xs: seq<Rune>, ys: seq<Rune>)
    ensures Encode(xs + ys) == Encode(xs) + Encode(ys)
  {
    if xs == [] {
      assert xs + ys == ys;
    } else {
      assert (xs + ys)[1..] == xs[1..] + ys;
      EncodeConcat(xs[1..], ys);
    }
  }

  /** The runes that ranging over `s` yields. */
  function Runes(s: string): (runes: seq<Rune>)
    decreases |s|
  {
    if s == "" then []
    else
      var (r, size) := DecodeRune(s);
      [r] + Runes(s[size..])
  }

  /** Well-formed UTF-8: decoding loses nothing. */
  predicate Valid(s: string) {
    Encode(Runes(s)) == s
  }

  lemma {:induction false} RunesEncode(runes: seq<Rune>)
    ensures Runes(Encode(runes)) == runes
    ensures Valid(Encode(runes))
  {
    if runes != [] {
      var rest := Encode(runes[1..]);
      DecodeEncoded(runes[0], rest);
      assert (EncodeRune(runes[0]) + rest)[|EncodeRune(runes[0])|..] == rest;
      RunesEncode(runes[1..]);
    }
  }

  /** Encoded lengths add up and grow with every rune. */
  lemma WidthSplit(runes: seq<Rune>, n: nat)
    requires n <= |runes|
    ensures Encode(runes) == Encode(runes[..n]) + Encode(runes[n..])
    ensures n < |runes| ==> |Encode(runes[..n])| < |Encode(runes)|
    ensures n > 0 ==> |Encode(runes[n..])| < |Encode(runes)|
  {
    assert runes == runes[..n] + runes[n..];
    EncodeConcat(runes[..n], runes[n..]);
  }

  // Decoding any byte string: where one rune ends and the next begins

  /** How many bytes the first `n` runes of `s` take. */
  function Width(s: string, n: nat): (w: nat)
    requires n <= |Runes(s)|
    ensures w <= |s|
    decreases n
  {
    if n == 0 then 0
    else
      var (_, size) := DecodeRune(s);
      size + Width(s[size..], n - 1)
  }

  /** How many bytes a sequence that starts with the byte `c` takes. */
  function SequenceLength(c: char): (n: nat)
    ensures 1 <= n <= 4
  {
    if c as int < 0xC2 then 1
    else if c as int < 0xE0 then 2
    else if c as int < 0xF0 then 3
    else if c as int < 0xF5 then 4
    else 1
  }

  /** The least second byte after a first byte `c`. */
  function SecondByte(c: char): char {
    if c as int == 0xE0 then Byte(0xA0) else if c as int == 0xF0 then Byte(0x90) else Byte(0x80)
  }

  predicate IsSecondByte(c: char, d: char) {
    && IsContinuation(d) && SecondByte(c) as int <= d as int
    && (c as int == 0xED ==> d as int < 0xA0)
    && (c as int == 0xF4 ==> d as int < 0x90)
  }

  /** `t` is a well-formed sequence that lacks its last bytes. */
  predicate Opens(t: string) {
    && 1 <= |t| < SequenceLength(t[0])
    && (|t| >= 2 ==> IsSecondByte(t[0], t[1]))
    && (|t| >= 3 ==> IsContinuation(t[2]))
  }

  predicate OpensAtEnd(s: string, n: nat) {
    n <= |s| && Opens(s[|s| - n..])
  }

  /** `s` ends within a sequence that more bytes could complete. */
  predicate EndsOpen(s: string) {
    OpensAtEnd(s, 1) || OpensAtEnd(s, 2) || OpensAtEnd(s, 3)
  }

  predicate StartsInside(s: string) {
    s != "" && IsContinuation(s[0])
  }

  /** Bytes that complete an open sequence. */
  function Completion(t: string): string
    requires Opens(t)
  {
    var n := SequenceLength(t[0]);
    if |t| == 1 then [SecondByte(t[0])] + seq(n - 2, _ => Byte(0x80)) else seq(n - |t|, _ => Byte(0x80))
  }

  lemma CompletedDecodes(t: string, rest: string)
    requires Opens(t)
    ensures var d := DecodeRune(t + Completion(t) + rest);
            d.1 == |t| + |Completion(t)| && d.0 != RUNE_ERROR
    ensures !StartsInside(t)
    ensures DecodeRune(t) == (RUNE_ERROR, 1)
  {
    var s := t + Completion(t) + rest;
    var n := SequenceLength(t[0]);
    assert s[0] == t[0];
    assert |t| + |Completion(t)| == n <= |s|;
    assert IsSecondByte(s[0], s[1]);
    if n >= 3 {
      assert IsContinuation(s[2]);
    }
    if n >= 4 {
      assert IsContinuation(s[3]);
    }
    assert s[n - 1] == Completion(t)[|Completion(t)| - 1];
    CompleteDecodes(s);
  }

  lemma CompleteDecodes(s: string)
    requires s != "" && 2 <= SequenceLength(s[0]) <= |s|
    requires IsSecondByte(s[0], s[1])
    requires SequenceLength(s[0]) >= 3 ==> IsContinuation(s[2])
    requires SequenceLength(s[0]) >= 4 ==> IsContinuation(s[3])
    requires SequenceLength(s[0]) == 3 ==> s[2] != Byte(0xBD)
    ensures DecodeRune(s).1 == SequenceLength(s[0]) && DecodeRune(s).0 != RUNE_ERROR
  {
  }

  /** A rune of several bytes is a first byte and continuation bytes, and nothing after it counts. */
  lemma DecodedShape(s: string)
    requires s != "" && DecodeRune(s).1 > 1
    ensures var n := DecodeRune(s).1;
            && n == SequenceLength(s[0]) && IsSecondByte(s[0], s[1])
            && (n >= 3 ==> IsContinuation(s[2])) && (n >= 4 ==> IsContinuation(s[3]))
            && !IsContinuation(s[0])
  {
  }

  lemma DecodeReads(s: string, k: nat)
    requires s != "" && DecodeRune(s).1 <= k <= |s|
    ensures DecodeRune(s[..k]) == DecodeRune(s)
  {
  }

  /** Appending `b` leaves the runes of `a` alone. */
  predicate Joinable(a: string, b: string) {
    !EndsOpen(a) || !StartsInside(b)
  }

  lemma DecodeFirst(a: string, b: string)
    requires a != "" && Joinable(a, b)
    ensures DecodeRune(a + b) == DecodeRune(a)
  {
    var s := a + b;
    assert s[..|a|] == a;
    if DecodeRune(s).1 <= |a| {
      DecodeReads(s, |a|);
    } else {
      PastEnd(a, b);
    }
  }

  lemma PastEnd(a: string, b: string)
    requires a != "" && DecodeRune(a + b).1 > |a|
    ensures EndsOpen(a) && StartsInside(b)
  {
    var s := a + b;
    DecodedShape(s);
    assert a[|a| - |a|..] == a;
    assert s[|a|] == b[0];
    assert Opens(a);
  }

  lemma OpenSuffix(s: string, k: nat)
    requires k <= |s| && EndsOpen(s[k..])
    ensures EndsOpen(s)
  {
    hide OpensAtEnd;
    if OpensAtEnd(s[k..], 1) {
      SameEnd(s, k, 1);
    } else if OpensAtEnd(s[k..], 2) {
      SameEnd(s, k, 2);
    } else {
      SameEnd(s, k, 3);
    }
  }

  lemma SameEnd(s: string, k: nat, n: nat)
    requires k <= |s| && OpensAtEnd(s[k..], n)
    ensures OpensAtEnd(s, n)
  {
    assert s[k..][|s[k..]| - n..] == s[|s| - n..];
  }

  lemma {:induction false} RunesConcat(a: string, b: string)
    requires Joinable(a, b)
    ensures Runes(a + b) == Runes(a) + Runes(b)
    ensures Width(a + b, |Runes(a)|) == |a|
    decreases |a|
  {
    hide DecodeRune, EndsOpen, StartsInside;
    if a == "" {
      assert a + b == b;
    } else {
      DecodeFirst(a, b);
      var size := DecodeRune(a).1;
      if EndsOpen(a[size..]) {
        OpenSuffix(a, size);
      }
      RunesConcat(a[size..], b);
      assert (a + b)[size..] == a[size..] + b;
    }
  }

  /** The first `n` runes of `s` are those of its first bytes. */
  lemma {:induction false} CutAt(s: string, n: nat)
    requires n <= |Runes(s)|
    ensures var w := Width(s, n);
            Runes(s[..w]) == Runes(s)[..n] && Runes(s[w..]) == Runes(s)[n..]
    decreases n
  {
    hide DecodeRune;
    if n == 0 {
      assert s[..0] == "" && s[0..] == s;
    } else {
      var size := DecodeRune(s).1;
      var w := Width(s, n);
      CutAt(s[size..], n - 1);
      DecodeReads(s, w);
      assert s[..w][size..] == s[size..][..w - size];
      assert s[size..][w - size..] == s[w..];
    }
  }

  lemma {:induction false} WidthWhole(s: string)
    ensures Width(s, |Runes(s)|) == |s|
    decreases |s|
  {
    if s != "" {
      WidthWhole(s[DecodeRune(s).1..]);
    }
  }

  lemma {:induction false} WidthGrows(s: string, n: nat, m: nat)
    requires n < m <= |Runes(s)|
    ensures Width(s, n) < Width(s, m)
    decreases n
  {
    hide DecodeRune;
    if n > 0 {
      WidthGrows(s[DecodeRune(s).1..], n - 1, m - 1);
    }
  }

  lemma {:induction false} WidthOfCut(s: string, n: nat, k: nat)
    requires k <= n <= |Runes(s)|
    ensures Runes(s[..Width(s, n)]) == Runes(s)[..n]
    ensures Width(s[..Width(s, n)], k) == Width(s, k)
    decreases k
  {
    hide DecodeRune;
    var w := Width(s, n);
    CutAt(s, n);
    if k > 0 {
      var size := DecodeRune(s).1;
      DecodeReads(s, w);
      WidthOfCut(s[size..], n - 1, k - 1);
      assert s[..w][size..] == s[size..][..w - size];
    }
  }

  /** Decoding from the end of any byte string finds the rune that decoding from its start ends with. */
  lemma LastRuneIsLast(s: string)
    requires s != ""
    ensures var n := |Runes(s)| - 1;
            n >= 0 && DecodeLastRune(s) == (Runes(s)[n], |s| - Width(s, n))
  {
    hide DecodeRune, LastRuneStart, Width;
    var n := |Runes(s)| - 1;
    var w := Width(s, n);
    CutAt(s, n);
    var e := s[w..];
    OneRune(e);
    assert s == s[..w] + e;
    if |e| > 1 {
      LastOfSeveral(s[..w], e);
    } else {
      LastOfOne(s);
      if LastRuneStart(s) < w && LastRuneStart(s) + DecodeRune(s[LastRuneStart(s)..]).1 == |s| {
        StartIsFound(s, LastRuneStart(s));
      }
    }
  }

  /** A rune of several bytes that ends a text is the last one decoded from the start. */
  lemma StartIsFound(s: string, i: nat)
    requires i < |s| && !StartsInside(s[i..]) && i + DecodeRune(s[i..]).1 == |s|
    ensures |Runes(s)| > 0 && Width(s, |Runes(s)| - 1) == i
  {
    hide DecodeRune, Runes, Width, StartsInside, EndsOpen;
    assert s == s[..i] + s[i..];
    RunesConcat(s[..i], s[i..]);
    SingleRune(s[i..]);
  }

  lemma SingleRune(e: string)
    requires e != "" && DecodeRune(e).1 == |e|
    ensures |Runes(e)| == 1
  {
  }

  lemma OneRune(e: string)
    requires |Runes(e)| == 1
    ensures e != "" && DecodeRune(e) == (Runes(e)[0], |e|)
  {
    hide DecodeRune;
    assert Runes(e[DecodeRune(e).1..]) == [];
  }

  lemma LastOfSeveral(front: string, e: string)
    requires |e| > 1 && DecodeRune(e).1 == |e|
    ensures LastRuneStart(front + e) == |front| && (front + e)[|front|..] == e
  {
    DecodedShape(e);
    LastStart(front, e);
  }

  /** Where decoding from the end starts before the last byte, it starts at no continuation byte
      or fails. */
  lemma LastOfOne(s: string)
    requires s != ""
    ensures var i := LastRuneStart(s);
            && (i == |s| - 1 || (IsContinuation(s[|s| - 1]) && DecodeRune(s[|s| - 1..]) == (RUNE_ERROR, 1)))
            && (i < |s| - 1 && i + DecodeRune(s[i..]).1 == |s| ==> !StartsInside(s[i..]))
  {
  }

  // Well-formed text neither ends open nor starts inside a sequence

  lemma {:induction false} EncodeIsNoShorter(s: string)
    ensures |Encode(Runes(s))| >= |s|
    decreases |s|
  {
    if s != "" {
      var (r, size) := DecodeRune(s);
      assert |EncodeRune(r)| >= size;
      EncodeIsNoShorter(s[size..]);
    }
  }

  lemma WholeText(s: string)
    requires Valid(s)
    ensures !EndsOpen(s) && !StartsInside(s)
  {
    hide OpensAtEnd, EncodeRune;
    if OpensAtEnd(s, 1) {
      NotOpen(s, 1);
    } else if OpensAtEnd(s, 2) {
      NotOpen(s, 2);
    } else if OpensAtEnd(s, 3) {
      NotOpen(s, 3);
    }
    if StartsInside(s) {
      BrokenStart(s);
    }
  }

  /** A first byte that decodes to nothing is encoded by more bytes. */
  lemma BrokenStart(s: string)
    requires s != "" && DecodeRune(s) == (RUNE_ERROR, 1)
    ensures |Encode(Runes(s))| > |s|
  {
    EncodeIsNoShorter(s[1..]);
  }

  lemma NotOpen(s: string, n: nat)
    requires OpensAtEnd(s, n)
    ensures !Valid(s)
  {
    hide DecodeRune, EncodeRune;
    var a, t := s[..|s| - n], s[|s| - n..];
    assert s == a + t;
    CompletedDecodes(t, "");
    RunesConcat(a, t);
    EncodeConcat(Runes(a), Runes(t));
    EncodeIsNoShorter(a);
    BrokenStart(t);
  }

  lemma ValidPieces(a: string, b: string)
    requires Valid(a + b) && Joinable(a, b)
    ensures Valid(a) && Valid(b)
  {
    hide Joinable, Runes, Encode;
    RunesConcat(a, b);
    EncodeConcat(Runes(a), Runes(b));
    EncodeIsNoShorter(a);
    EncodeIsNoShorter(b);
    SameLengths(Encode(Runes(a)), Encode(Runes(b)), a, b);
  }

  lemma SameLengths(a: string, b: string, c: string, d: string)
    requires a + b == c + d && |a| >= |c| && |b| >= |d|
    ensures a == c && b == d
  {
    assert |a + b| == |c + d|;
    assert a == (a + b)[..|a|] && c == (c + d)[..|c|];
    assert b == (a + b)[|a|..] && d == (c + d)[|c|..];
  }
}
