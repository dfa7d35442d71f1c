/** Byte strings and the parts of Go's `strings` package that patterns and paths rely on.
    A Go string is a `string` whose characters are its bytes. */
module Paths {

  datatype Option<+T> = None | Some(value: T)

  /** `strings.IndexByte`: the first occurrence of `c`, or -1. */
  function IndexByte(s: string, c: char): (i: int)
    ensures -1 <= i < |s|
    ensures i < 0 ==> c !in s
    ensures 0 <= i ==> s[i] == c && c !in s[..i]
  {
    if s == "" then -1
    else if s[0] == c then 0
    else
      var j := IndexByte(s[1..], c);
      if j < 0 then -1
      else
        assert s[..j + 1] == [s[0]] + s[1..][..j];
        j + 1
  }

  /** `strings.LastIndexByte`: the last occurrence of `c`, or -1. */
  function LastIndexByte(s: string, c: char): (i: int)
    ensures -1 <= i < |s|
    ensures i < 0 ==> c !in s
    ensures 0 <= i ==> s[i] == c && c !in s[i + 1..]
  {
    if s == "" then -1
    else
      var n := |s| - 1;
      if s[n] == c then n
      else
        var j := LastIndexByte(s[..n], c);
        assert s == s[..n] + [s[n]];
        assert 0 <= j ==> s[j + 1..] == s[..n][j + 1..] + [s[n]];
        j
  }

  predicate HasPrefix(s: string, prefix: string) {
    prefix <= s
  }

  predicate HasSuffix(s: string, suffix: string) {
    |suffix| <= |s| && s[|s| - |suffix|..] == suffix
  }

  predicate IsAscii(s: string) {
    forall i :: 0 <= i < |s| ==> s[i] < 128 as char
  }

  /** The same character, or the same ASCII letter in either case. */
  predicate SameLetter(a: char, b: char) {
    || a == b
    || ('a' <= a <= 'z' && b as int == a as int - 32)
    || ('a' <= b <= 'z' && a as int == b as int - 32)
  }

  predicate CaseVariant(n: string, name: string) {
    |n| == |name| && forall i :: 0 <= i < |n| ==> SameLetter(n[i], name[i])
  }

  predicate SlashFree(parts: seq<string>) {
    forall i :: 0 <= i < |parts| ==> '/' !in parts[i]
  }

  /** `strings.Join(parts, "/")`. */
  function Join(parts: seq<string>): string {
    if parts == [] then ""
    else if |parts| == 1 then parts[0]
    else parts[0] + "/" + Join(parts[1..])
  }

  /** `strings.Split(s, "/")`. */
  function Split(s: string): (parts: seq<string>)
    ensures parts != [] && SlashFree(parts)
    ensures Join(parts) == s
    decreases |s|
  {
    var i := IndexByte(s, '/');
    if i < 0 then [s]
    else
      var rest := Split(s[i + 1..]);
      assert s == s[..i] + "/" + s[i + 1..];
      assert ([s[..i]] + rest)[1..] == rest;
      [s[..i]] + rest
  }

  lemma IndexByteIs(s: string, c: char, i: nat)
    requires i < |s| && s[i] == c && c !in s[..i]
    ensures IndexByte(s, c) == i
  {
    if i > 0 {
      assert s[..i] == [s[0]] + s[1..][..i - 1];
      IndexByteIs(s[1..], c, i - 1);
    }
  }

  /** Cutting at the first slash gives the first part. */
  lemma SplitFirst(head: string, rest: string)
    requires '/' !in head
    ensures Split(head + "/" + rest) == [head] + Split(rest)
  {
    var s := head + "/" + rest;
    assert s[..|head|] == head && s[|head| + 1..] == rest;
    IndexByteIs(s, '/', |head|);
  }

  lemma SplitWhole(s: string)
    requires '/' !in s
    ensures Split(s) == [s]
  {
    assert IndexByte(s, '/') < 0;
  }

  lemma AppendAssociates<T>(a: seq<T>, b: seq<T>, c: seq<T>)
    ensures a + (b + c) == a + b + c
  {
  }

  lemma {:induction false} SplitConcat(a: string, b: string)
    ensures Split(a + "/" + b) == Split(a) + Split(b)
    decreases |a|
  {
    var i := IndexByte(a, '/');
    if i < 0 {
      SplitFirst(a, b);
      SplitWhole(a);
    } else {
      var x, y := a[..i], a[i + 1..];
      assert a == x + "/" + y;
      assert a + "/" + b == x + "/" + (y + "/" + b);
      SplitFirst(x, y);
      SplitFirst(x, y + "/" + b);
      SplitConcat(y, b);
      AppendAssociates([x], Split(y), Split(b));
    }
  }

  lemma {:induction false} JoinConcat(xs: seq<string>, ys: seq<string>)
    requires xs != [] && ys != []
    ensures Join(xs + ys) == Join(xs) + "/" + Join(ys)
  {
    if |xs| == 1 {
      assert (xs + ys)[1..] == ys;
    } else {
      assert (xs + ys)[1..] == xs[1..] + ys;
      JoinConcat(xs[1..], ys);
    }
  }

  /** Splitting undoes joining, so the slash-free parts of a path are unique. */
  lemma {:induction false} SplitJoin(parts: seq<string>)
    requires parts != [] && SlashFree(parts)
    ensures Split(Join(parts)) == parts
  {
    assert IndexByte(parts[0], '/') < 0;
    if |parts| > 1 {
      SplitJoin(parts[1..]);
      SplitConcat(parts[0], Join(parts[1..]));
      assert parts == [parts[0]] + parts[1..];
    }
  }

  /** Cutting at the last slash gives the last part. */
  lemma SplitLast(rest: string, last: string)
    requires '/' !in last
    ensures Split(rest + "/" + last) == Split(rest) + [last]
  {
    SplitConcat(rest, last);
    SplitWhole(last);
  }

  /** Splitting a join whose middle part may hold slashes splits that part in place. */
  lemma SplitAround(xs: seq<string>, mid: string, ys: seq<string>)
    requires SlashFree(xs) && SlashFree(ys)
    ensures Split(Join(xs + [mid] + ys)) == xs + Split(mid) + ys
  {
    SplitAfter(xs, mid);
    if ys == [] {
      assert xs + [mid] + ys == xs + [mid];
    } else {
      JoinConcat(xs + [mid], ys);
      SplitConcat(Join(xs + [mid]), Join(ys));
      SplitJoin(ys);
    }
  }

  lemma SplitAfter(xs: seq<string>, mid: string)
    requires SlashFree(xs)
    ensures Split(Join(xs + [mid])) == xs + Split(mid)
  {
    if xs == [] {
      assert xs + [mid] == [mid];
    } else {
      JoinConcat(xs, [mid]);
      SplitConcat(Join(xs), mid);
      SplitJoin(xs);
    }
  }

  /** `normalizePath`: a leading slash for consistent matching. */
  function NormalizePath(path: string): (r: string)
    ensures r != "" && r[0] == '/'
    ensures r == path || r == "/" + path
    ensures path != "" && path[0] == '/' ==> r == path
  {
    if path == "" then "/"
    else if !HasPrefix(path, "/") then "/" + path
    else path
  }
}
