/** Keeping configuration files from being served: quick exits that never change the answer of the
    full comparison of paths. */
module PathAccess {
  import opened Paths

  /** `strings.EqualFold` and `strings.ToUpper`. */
  datatype Case = Case(equalFold: (string, string) -> bool, toUpper: string -> string)

  function Lower(c: char): char {
    if 'A' <= c <= 'Z' then (c as int + 32) as char else c
  }

  function Upper(c: char): char {
    if 'a' <= c <= 'z' then (c as int - 32) as char else c
  }

  function MapChars(s: string, f: char -> char): (r: string)
    ensures |r| == |s|
  {
    seq(|s|, i requires 0 <= i < |s| => f(s[i]))
  }

  /** Letters are all that varies in ASCII, and '_' is no case variant of anything. */
  ghost predicate CaseLaws(k: Case) {
    && (forall a, b :: IsAscii(a) && IsAscii(b) ==> (k.equalFold(a, b) <==> MapChars(a, Lower) == MapChars(b, Lower)))
    && (forall a :: IsAscii(a) ==> k.toUpper(a) == MapChars(a, Upper))
    && (forall a, b :: k.equalFold(a, b) ==> ('_' in a <==> '_' in b))
    && (forall a, b :: k.toUpper(a) == k.toUpper(b) ==> ('_' in a <==> '_' in b))
  }

  // What the full check compares

  function ReplaceBackslashes(p: string): (r: string)
    ensures |r| == |p|
  {
    seq(|p|, i requires 0 <= i < |p| => if p[i] == '\\' then '/' else p[i])
  }

  /** `strings.TrimRight`. */
  function TrimRight(s: string, cut: set<char>): (r: string)
    ensures r <= s
    ensures r != "" ==> r[|r| - 1] !in cut
  {
    if s != "" && s[|s| - 1] in cut then TrimRight(s[..|s| - 1], cut) else s
  }

  function WindowsSegment(s: string): (r: string)
    ensures r <= s
  {
    var t := TrimRight(s, {' '});
    if t == "." || t == ".." then t else TrimRight(s, {'.', ' '})
  }

  function WindowsSegments(segments: seq<string>): (r: seq<string>)
    ensures |r| == |segments|
  {
    seq(|segments|, i requires 0 <= i < |segments| => WindowsSegment(segments[i]))
  }

  function WindowsPathOf(p: string): string {
    Join(WindowsSegments(Split(ReplaceBackslashes(p))))
  }

  /** The segments left after resolving "." and "..". */
  function CleanStack(segments: seq<string>, rooted: bool): seq<string> {
    if segments == [] then []
    else
      var n := |segments| - 1;
      var stack, s := CleanStack(segments[..n], rooted), segments[n];
      if s == "" || s == "." then stack
      else if s != ".." then stack + [s]
      else if stack != [] && stack[|stack| - 1] != ".." then stack[..|stack| - 1]
      else if rooted then stack
      else stack + [".."]
  }

  /** `path.Clean`. */
  function Clean(path: string): string {
    var rooted := path != "" && path[0] == '/';
    var out := (if rooted then "/" else "") + Join(CleanStack(Split(path), rooted));
    if out == "" then "." else out
  }

  predicate SameFile(k: Case, request: string, protectedPath: string) {
    var cleaned := Clean(WindowsPathOf(request));
    k.equalFold(cleaned, protectedPath) || k.toUpper(cleaned) == k.toUpper(protectedPath)
  }

  /** A file of its own name in the root directory: the names "_headers" and "_redirects" are. */
  predicate Protectable(p: string) {
    && |p| >= 2 && p[0] == '/' && p[1] == '_' && IsAscii(p)
    && '/' !in p[1..] && '\\' !in p[1..]
    && p[|p| - 1] != '.' && p[|p| - 1] != ' '
  }

  lemma NamesProtectable()
    ensures Protectable("/_headers") && Protectable("/_redirects")
  {
  }

  // The code

  /** `windowsPath`. */
  method WindowsPath(p: string) returns (r: string)
    ensures r == WindowsPathOf(p)
  {
    hide Split, Join, WindowsSegment;
    var segments := Split(ReplaceBackslashes(p));
    ghost var all := segments;
    for i := 0 to |segments|
      invariant |segments| == |all|
      invariant forall j :: 0 <= j < i ==> segments[j] == WindowsSegment(all[j])
      invariant forall j :: i <= j < |all| ==> segments[j] == all[j]
    {
      segments := segments[i := WindowsSegment(segments[i])];
    }
    assert segments == WindowsSegments(all);
    return Join(segments);
  }

  method IsASCII(s: string) returns (ok: bool)
    ensures ok == IsAscii(s)
  {
    for i := 0 to |s|
      invariant forall j :: 0 <= j < i ==> s[j] < 128 as char
    {
      if s[i] >= 128 as char {
        return false;
      }
    }
    return true;
  }

  /** `sub` is in `s` at `i`, regardless of case. */
  predicate Window(k: Case, s: string, sub: string, i: int) {
    0 <= i && i + |sub| <= |s| && k.equalFold(s[i..i + |sub|], sub)
  }

  /** `containsFold`: jumps from one occurrence of the first character to the next. */
  method ContainsFold(k: Case, s: string, sub: string) returns (found: bool)
    requires sub != ""
    ensures found <==> exists i :: Window(k, s, sub, i) && s[i] == sub[0]
  {
    var i := 0;
    while i + |sub| <= |s|
      invariant 0 <= i
      invariant forall x :: 0 <= x < i && Window(k, s, sub, x) ==> s[x] != sub[0]
      decreases |s| - i
    {
      var j := IndexByte(s[i..], sub[0]);
      if j < 0 {
        assert forall x :: i <= x < |s| ==> s[x] == s[i..][x - i];
        return false;
      }
      assert forall x :: i <= x < i + j ==> s[x] == s[i..][..j][x - i];
      i := i + j;
      if i + |sub| <= |s| && k.equalFold(s[i..i + |sub|], sub) {
        assert Window(k, s, sub, i) && s[i] == sub[0];
        return true;
      }
      i := i + 1;
    }
    return false;
  }

  // Characters

  lemma {:induction false} JoinChars(parts: seq<string>, c: char)
    requires c in Join(parts) && c != '/'
    ensures exists i :: 0 <= i < |parts| && c in parts[i]
  {
    if |parts| > 1 && c !in parts[0] {
      JoinChars(parts[1..], c);
      var i :| 0 <= i < |parts[1..]| && c in parts[1..][i];
      assert c in parts[i + 1];
    }
  }

  lemma {:induction false} PartChars(parts: seq<string>, i: nat, c: char)
    requires i < |parts| && c in parts[i]
    ensures c in Join(parts)
  {
    if |parts| > 1 && i > 0 {
      PartChars(parts[1..], i - 1, c);
    }
  }

  /** What is on the stack is a segment, and no empty one. */
  lemma {:induction false} StackFromSegments(segments: seq<string>, rooted: bool, i: nat)
    requires i < |CleanStack(segments, rooted)|
    ensures CleanStack(segments, rooted)[i] in segments && CleanStack(segments, rooted)[i] != ""
  {
    var n := |segments| - 1;
    if i < |CleanStack(segments[..n], rooted)| {
      StackFromSegments(segments[..n], rooted, i);
    }
  }

  lemma CleanChars(path: string, c: char)
    requires c in Clean(path)
    ensures c in path || c == '/' || c == '.'
  {
    hide CleanStack, Split;
    if c != '/' && c != '.' {
      var rooted := path != "" && path[0] == '/';
      var stack := CleanStack(Split(path), rooted);
      assert c in Join(stack);
      JoinChars(stack, c);
      var i :| 0 <= i < |stack| && c in stack[i];
      StackFromSegments(Split(path), rooted, i);
      var j :| 0 <= j < |Split(path)| && Split(path)[j] == stack[i];
      PartChars(Split(path), j, c);
    }
  }

  lemma WindowsChars(p: string, c: char)
    requires c in WindowsPathOf(p)
    ensures c in p || c == '/'
  {
    hide Split, WindowsSegment;
    if c != '/' {
      var parts := Split(ReplaceBackslashes(p));
      JoinChars(WindowsSegments(parts), c);
      var i :| 0 <= i < |parts| && c in WindowsSegments(parts)[i];
      assert WindowsSegment(parts[i]) <= parts[i];
      assert c in parts[i];
      PartChars(parts, i, c);
      var j :| 0 <= j < |p| && ReplaceBackslashes(p)[j] == c;
      assert p[j] == c;
    }
  }

  /** A request for a protected file has its first character. */
  lemma NeedsUnderscore(k: Case, request: string, p: string)
    requires CaseLaws(k) && Protectable(p) && SameFile(k, request, p)
    ensures '_' in request
  {
    hide Clean, WindowsPathOf;
    var cleaned := Clean(WindowsPathOf(request));
    assert p[1] in p;
    assert '_' in cleaned;
    CleanChars(WindowsPathOf(request), '_');
    WindowsChars(request, '_');
  }

  lemma JoinOne(name: string)
    ensures Join([name]) == name
  {
  }

  // Where a protected name is in the request

  lemma StackSlashFree(path: string, rooted: bool)
    ensures var stack := CleanStack(Split(path), rooted);
            SlashFree(stack) && forall i :: 0 <= i < |stack| ==> stack[i] in Split(path) && stack[i] != ""
  {
    hide Split, CleanStack;
    var stack := CleanStack(Split(path), rooted);
    forall i | 0 <= i < |stack|
      ensures '/' !in stack[i] && stack[i] in Split(path) && stack[i] != ""
    {
      StackFromSegments(Split(path), rooted, i);
    }
  }

  lemma NotRooted(path: string)
    requires path == "" || path[0] != '/'
    ensures Clean(path) != "" && Clean(path)[0] != '/'
  {
    hide Split, CleanStack;
    var stack := CleanStack(Split(path), false);
    StackSlashFree(path, false);
    if stack != [] {
      assert Join(stack)[0] == stack[0][0];
      assert stack[0][0] in stack[0];
    }
  }

  lemma SameShape(cleaned: string, p: string)
    requires Protectable(p) && MapChars(cleaned, Lower) == MapChars(p, Lower)
    ensures |cleaned| == |p| >= 2 && cleaned[0] == '/' && cleaned[1] == '_' && '/' !in cleaned[1..]
  {
    assert |cleaned| == |MapChars(cleaned, Lower)| == |p|;
    forall i | 0 <= i < |p|
      ensures Lower(cleaned[i]) == Lower(p[i])
    {
      assert MapChars(cleaned, Lower)[i] == MapChars(p, Lower)[i];
    }
    forall i | 1 <= i < |p|
      ensures cleaned[i] != '/'
    {
      assert p[i] == p[1..][i - 1];
      assert p[i] != '/';
    }
  }

  /** A clean path that reads like a protected one is one segment of the path it came from. */
  lemma OneSegment(path: string, p: string)
    requires Protectable(p) && MapChars(Clean(path), Lower) == MapChars(p, Lower)
    ensures var cleaned := Clean(path);
            && |cleaned| == |p| && cleaned[0] == '/' && cleaned[1] == '_'
            && '/' !in cleaned[1..] && cleaned[1..] in Split(path)
  {
    hide Split, CleanStack, Protectable;
    SameShape(Clean(path), p);
    if path != "" && path[0] == '/' {
      var stack := CleanStack(Split(path), true);
      StackSlashFree(path, true);
      assert Clean(path)[1..] == Join(stack);
      assert stack != [] by { assert Join([]) == ""; }
      SplitWhole(Join(stack));
      SplitJoin(stack);
      assert stack[0] == Join(stack);
    } else {
      NotRooted(path);
    }
  }

  /** A part of a join is in it. */
  lemma {:induction false} PartWithin(parts: seq<string>, i: nat) returns (at: nat)
    requires i < |parts|
    ensures at + |parts[i]| <= |Join(parts)| && Join(parts)[at..at + |parts[i]|] == parts[i]
  {
    at := 0;
    if |parts| > 1 {
      if i == 0 {
        assert Join(parts)[..|parts[0]|] == parts[0];
      } else {
        var from := PartWithin(parts[1..], i - 1);
        at := |parts[0]| + 1 + from;
        assert Join(parts)[|parts[0]| + 1..] == Join(parts[1..]);
        SliceWithin(Join(parts), |parts[0]| + 1, from, |parts[i]|);
      }
    }
  }

  lemma SliceWithin(s: string, from: nat, at: nat, n: nat)
    requires from + at + n <= |s|
    ensures s[from..][at..at + n] == s[from + at..from + at + n]
  {
  }

  /** A segment of the rewritten path without slashes is text of the request. */
  lemma SegmentInRequest(request: string, seg: string) returns (at: nat)
    requires seg in Split(WindowsPathOf(request)) && '/' !in seg
    ensures at + |seg| <= |request| && request[at..at + |seg|] == seg
  {
    hide Split, WindowsSegment, Join;
    var replaced := ReplaceBackslashes(request);
    var parts := Split(replaced);
    TrimmedSlashFree(parts);
    SplitJoin(WindowsSegments(parts));
    var i :| 0 <= i < |parts| && WindowsSegments(parts)[i] == seg;
    at := PartWithin(parts, i);
    assert seg <= parts[i];
    assert replaced[at..at + |seg|] == replaced[at..at + |parts[i]|][..|seg|] == seg;
    forall j | 0 <= j < |seg|
      ensures request[at..at + |seg|][j] == seg[j]
    {
      assert replaced[at..at + |seg|][j] == replaced[at + j];
      assert seg[j] != '/';
    }
    assert request[at..at + |seg|] == seg;
  }

  lemma TrimmedSlashFree(parts: seq<string>)
    requires SlashFree(parts)
    ensures SlashFree(WindowsSegments(parts))
  {
    hide WindowsSegment;
    forall i | 0 <= i < |parts|
      ensures '/' !in WindowsSegments(parts)[i]
    {
      assert WindowsSegment(parts[i]) <= parts[i];
    }
  }

  lemma CleanedAscii(request: string)
    requires IsAscii(request)
    ensures IsAscii(Clean(WindowsPathOf(request)))
  {
    hide Clean, WindowsPathOf;
    var cleaned := Clean(WindowsPathOf(request));
    forall i | 0 <= i < |cleaned|
      ensures cleaned[i] < 128 as char
    {
      CleanChars(WindowsPathOf(request), cleaned[i]);
      if cleaned[i] != '/' && cleaned[i] != '.' {
        WindowsChars(request, cleaned[i]);
      }
    }
  }

  /** An ASCII request for a protected file holds its name, in some case. */
  lemma NameInRequest(k: Case, request: string, p: string) returns (at: nat)
    requires CaseLaws(k) && Protectable(p) && IsAscii(request) && SameFile(k, request, p)
    ensures Window(k, request, p[1..], at) && request[at] == p[1]
  {
    hide Clean, WindowsPathOf;
    var cleaned := Clean(WindowsPathOf(request));
    CleanedAscii(request);
    VariantsAlike(cleaned, p);
    OneSegment(WindowsPathOf(request), p);
    var seg := cleaned[1..];
    at := SegmentInRequest(request, seg);
    assert seg[0] == request[at..at + |seg|][0];
    LowerRest(cleaned, p);
  }

  lemma LowerRest(a: string, b: string)
    requires |a| == |b| > 0 && MapChars(a, Lower) == MapChars(b, Lower)
    ensures MapChars(a[1..], Lower) == MapChars(b[1..], Lower)
  {
    forall i | 0 <= i < |a| - 1
      ensures MapChars(a[1..], Lower)[i] == MapChars(b[1..], Lower)[i]
    {
      assert MapChars(a, Lower)[i + 1] == MapChars(b, Lower)[i + 1];
    }
  }

  // Spellings of a protected name

  /** Dots and spaces, which Windows ignores at the end of a segment. */
  predicate Ignored(t: string) {
    forall i :: 0 <= i < |t| ==> t[i] == '.' || t[i] == ' '
  }

  lemma {:induction false} TrimmedOff(a: string, t: string, cut: set<char>)
    requires forall i :: 0 <= i < |t| ==> t[i] in cut
    requires a == "" || a[|a| - 1] !in cut
    ensures TrimRight(a + t, cut) == a
    decreases |t|
  {
    if t == "" {
      assert a + t == a;
    } else {
      var n := |t| - 1;
      assert (a + t)[..|a| + n] == a + t[..n] && (a + t)[|a| + n] == t[n];
      TrimmedOff(a, t[..n], cut);
    }
  }

  /** A segment keeps its text up to its last character that is neither a dot nor a space. */
  lemma SegmentKept(a: string, c: char, t: string)
    requires c != '.' && c != ' ' && Ignored(t)
    ensures WindowsSegment(a + [c] + t) == a + [c]
  {
    TrimmedOff(a + [c], t, {'.', ' '});
    var s := a + [c] + t;
    var r := TrimRight(s, {' '});
    if r == "." || r == ".." {
      assert s[|a|] == c;
      SpacesOnly(s, r);
      assert false;
    }
  }

  lemma {:induction false} SpacesOnly(s: string, r: string)
    requires r == TrimRight(s, {' '})
    ensures forall i :: |r| <= i < |s| ==> s[i] == ' '
    ensures forall i :: 0 <= i < |r| ==> s[i] == r[i]
    decreases |s|
  {
    if s != "" && s[|s| - 1] in {' '} {
      SpacesOnly(s[..|s| - 1], r);
    }
  }

  /** A segment of dots and spaces is dropped, unless it is one or two dots, with or without spaces after them. */
  lemma DotSegments(t: string)
    requires forall i :: 0 <= i < |t| ==> t[i] == ' '
    ensures WindowsSegment("." + t) == "." && WindowsSegment(".." + t) == ".." && WindowsSegment(t) == ""
  {
    TrimmedOff(".", t, {' '});
    TrimmedOff("..", t, {' '});
    TrimmedOff("", t, {' '});
    assert "" + t == t;
  }

  /** A detour that leads back to where it started: an empty segment or a dot, or a segment and two dots. */
  datatype Detour = Stay(sep: char, dot: bool) | Back(sep: char, through: string, sep2: char)

  predicate IsSeparator(c: char) {
    c == '/' || c == '\\'
  }

  predicate Solid(s: string) {
    '/' !in s && '\\' !in s && exists i :: 0 <= i < |s| && s[i] != '.' && s[i] != ' '
  }

  ghost predicate ValidDetour(d: Detour) {
    IsSeparator(d.sep) && (d.Back? ==> IsSeparator(d.sep2) && Solid(d.through))
  }

  function DetourText(d: Detour): string {
    match d
    case Stay(sep, dot) => [sep] + if dot then "." else ""
    case Back(sep, through, sep2) => [sep] + through + [sep2] + ".."
  }

  function DetourTexts(ds: seq<Detour>): string {
    if ds == [] then "" else DetourTexts(ds[..|ds| - 1]) + DetourText(ds[|ds| - 1])
  }

  /** The request names the file: detours that lead back to the root, a separator, the name in any case, and
      dots and spaces. */
  ghost predicate Spells(request: string, name: string) {
    exists ds, sep, n, t ::
      && (forall i :: 0 <= i < |ds| ==> ValidDetour(ds[i])) && IsSeparator(sep) && CaseVariant(n, name) && Ignored(t)
      && request == DetourTexts(ds) + [sep] + n + t
  }

  function SegmentsOf(d: Detour): seq<string> {
    match d
    case Stay(_, dot) => [if dot then "." else ""]
    case Back(_, through, _) => [through, ".."]
  }

  /** The segments of detours. */
  function DetourSegments(ds: seq<Detour>): seq<string> {
    if ds == [] then [] else DetourSegments(ds[..|ds| - 1]) + SegmentsOf(ds[|ds| - 1])
  }

  lemma ReplaceConcat(a: string, b: string)
    ensures ReplaceBackslashes(a + b) == ReplaceBackslashes(a) + ReplaceBackslashes(b)
  {
  }

  lemma ReplaceOne(sep: char, s: string)
    requires IsSeparator(sep) && '\\' !in s
    ensures ReplaceBackslashes([sep] + s) == "/" + s
  {
  }

  lemma ReplaceNone(s: string)
    requires '\\' !in s
    ensures ReplaceBackslashes(s) == s
  {
  }

  /** One more segment behind a separator. */
  lemma AddSegment(rest: string, sep: char, s: string)
    requires IsSeparator(sep) && '/' !in s && '\\' !in s
    ensures Split(ReplaceBackslashes(rest + [sep] + s)) == Split(ReplaceBackslashes(rest)) + [s]
  {
    hide Split, ReplaceBackslashes;
    assert rest + [sep] + s == rest + ([sep] + s);
    ReplaceConcat(rest, [sep] + s);
    ReplaceOne(sep, s);
    var r := ReplaceBackslashes(rest);
    assert r + ("/" + s) == r + "/" + s;
    SplitLast(r, s);
  }

  lemma DetourSplit(rest: string, d: Detour)
    requires ValidDetour(d)
    ensures Split(ReplaceBackslashes(rest + DetourText(d))) == Split(ReplaceBackslashes(rest)) + SegmentsOf(d)
  {
    hide Split, ReplaceBackslashes;
    var before := Split(ReplaceBackslashes(rest));
    match d
    case Stay(sep, dot) =>
      var s := if dot then "." else "";
      AddSegment(rest, sep, s);
      assert rest + ([sep] + s) == rest + [sep] + s;
    case Back(sep, through, sep2) =>
      AddSegment(rest, sep, through);
      AddSegment(rest + [sep] + through, sep2, "..");
      assert rest + ([sep] + through + [sep2] + "..") == rest + [sep] + through + [sep2] + "..";
      assert before + [through] + [".."] == before + [through, ".."];
  }

  lemma {:induction false} DetoursSplit(rest: string, ds: seq<Detour>)
    requires forall i :: 0 <= i < |ds| ==> ValidDetour(ds[i])
    ensures Split(ReplaceBackslashes(rest + DetourTexts(ds))) == Split(ReplaceBackslashes(rest)) + DetourSegments(ds)
  {
    hide Split, ReplaceBackslashes, DetourText, SegmentsOf, ValidDetour;
    var before := Split(ReplaceBackslashes(rest));
    if ds == [] {
      assert rest + "" == rest && before + [] == before;
    } else {
      var n := |ds| - 1;
      DetoursSplit(rest, ds[..n]);
      DetourSplit(rest + DetourTexts(ds[..n]), ds[n]);
      assert rest + (DetourTexts(ds[..n]) + DetourText(ds[n])) == rest + DetourTexts(ds[..n]) + DetourText(ds[n]);
      Associate(before, DetourSegments(ds[..n]), SegmentsOf(ds[n]));
    }
  }

  /** Directories below the root. */
  function PathTo(xs: seq<string>): string {
    if xs == [] then "" else PathTo(xs[..|xs| - 1]) + ['/'] + xs[|xs| - 1]
  }

  /** A segment that Windows keeps as it is, and that is not dots. */
  predicate PlainSegment(s: string) {
    s != "" && '/' !in s && '\\' !in s && s[|s| - 1] != '.' && s[|s| - 1] != ' '
  }

  lemma {:induction false} PathSplit(xs: seq<string>)
    requires forall i :: 0 <= i < |xs| ==> PlainSegment(xs[i])
    ensures Split(ReplaceBackslashes(PathTo(xs))) == [""] + xs
  {
    hide Split, ReplaceBackslashes;
    if xs == [] {
      ReplaceNone("");
      SplitWhole("");
      assert [""] + [] == [""];
    } else {
      var n := |xs| - 1;
      PathSplit(xs[..n]);
      AddSegment(PathTo(xs[..n]), '/', xs[n]);
      assert [""] + xs[..n] + [xs[n]] == [""] + xs;
    }
  }

  lemma Associate(a: seq<string>, b: seq<string>, c: seq<string>)
    ensures a + b + c == a + (b + c)
  {
  }

  lemma SolidSegment(s: string)
    requires Solid(s)
    ensures var w := WindowsSegment(s); w != "" && w != "." && w != ".."
  {
    var i :| 0 <= i < |s| && s[i] != '.' && s[i] != ' ';
    var r := TrimRight(s, {'.', ' '});
    KeepsBefore(s, i);
    var k := |r| - 1;
    assert r[k] != '.' && r[k] != ' ' && s == s[..k] + [r[k]] + s[k + 1..];
    AfterTrim(s, r);
    SegmentKept(s[..k], r[k], s[k + 1..]);
  }

  lemma {:induction false} KeepsBefore(s: string, i: nat)
    requires i < |s| && s[i] != '.' && s[i] != ' '
    ensures |TrimRight(s, {'.', ' '})| > i
    decreases |s|
  {
    if s[|s| - 1] in {'.', ' '} {
      KeepsBefore(s[..|s| - 1], i);
    }
  }

  lemma {:induction false} AfterTrim(s: string, r: string)
    requires r == TrimRight(s, {'.', ' '})
    ensures Ignored(s[|r|..])
    decreases |s|
  {
    if s != "" && s[|s| - 1] in {'.', ' '} {
      var n := |s| - 1;
      AfterTrim(s[..n], r);
      assert s[|r|..] == s[..n][|r|..] + [s[n]];
    }
  }

  lemma {:induction false} CleanConcat(front: seq<string>, s: string)
    ensures CleanStack(front + [s], true) ==
            var stack := CleanStack(front, true);
            if s == "" || s == "." then stack
            else if s != ".." then stack + [s]
            else if stack != [] && stack[|stack| - 1] != ".." then stack[..|stack| - 1]
            else stack
  {
    assert (front + [s])[..|front|] == front;
  }

  lemma WindowsConcat(front: seq<string>, s: string)
    ensures WindowsSegments(front + [s]) == WindowsSegments(front) + [WindowsSegment(s)]
  {
    hide WindowsSegment;
  }

  lemma StayClean(front: seq<string>, s: string)
    requires s == "" || s == "."
    ensures CleanStack(WindowsSegments(front + [s]), true) == CleanStack(WindowsSegments(front), true)
  {
    hide CleanStack, WindowsSegments, WindowsSegment;
    DotSegments("");
    assert "." + "" == ".";
    WindowsConcat(front, s);
    CleanConcat(WindowsSegments(front), s);
  }

  lemma BackClean(front: seq<string>, through: string)
    requires Solid(through)
    ensures CleanStack(WindowsSegments(front + [through] + [".."]), true) == CleanStack(WindowsSegments(front), true)
  {
    hide CleanStack, WindowsSegments, WindowsSegment, Solid;
    DotSegments("");
    assert ".." + "" == "..";
    SolidSegment(through);
    var w, stack := WindowsSegment(through), CleanStack(WindowsSegments(front), true);
    WindowsConcat(front, through);
    WindowsConcat(front + [through], "..");
    CleanConcat(WindowsSegments(front), w);
    assert (stack + [w])[..|stack|] == stack;
    CleanConcat(WindowsSegments(front) + [w], "..");
  }

  lemma DetourClean(front: seq<string>, d: Detour)
    requires ValidDetour(d)
    ensures CleanStack(WindowsSegments(front + SegmentsOf(d)), true) == CleanStack(WindowsSegments(front), true)
  {
    hide CleanStack, WindowsSegments, Solid;
    match d
    case Stay(_, dot) => StayClean(front, if dot then "." else "");
    case Back(_, through, _) =>
      BackClean(front, through);
      assert front + [through, ".."] == front + [through] + [".."];
  }

  /** Detours leave nothing behind and take nothing away. */
  lemma {:induction false} DetoursClean(front: seq<string>, ds: seq<Detour>)
    requires forall i :: 0 <= i < |ds| ==> ValidDetour(ds[i])
    ensures CleanStack(WindowsSegments(front + DetourSegments(ds)), true) == CleanStack(WindowsSegments(front), true)
  {
    hide CleanStack, WindowsSegments, SegmentsOf, ValidDetour;
    if ds == [] {
      assert front + [] == front;
    } else {
      var n := |ds| - 1;
      DetoursClean(front, ds[..n]);
      DetourClean(front + DetourSegments(ds[..n]), ds[n]);
      Associate(front, DetourSegments(ds[..n]), SegmentsOf(ds[n]));
    }
  }

  lemma {:induction false} PathClean(xs: seq<string>)
    requires forall i :: 0 <= i < |xs| ==> PlainSegment(xs[i])
    ensures CleanStack(WindowsSegments([""] + xs), true) == xs
  {
    hide CleanStack, WindowsSegments, WindowsSegment;
    if xs == [] {
      EmptyClean();
      assert [""] + xs == [""];
    } else {
      var n := |xs| - 1;
      PathClean(xs[..n]);
      LastKept(xs[n], "");
      assert xs[n] + "" == xs[n] && [""] + xs == [""] + xs[..n] + [xs[n]];
      WindowsConcat([""] + xs[..n], xs[n]);
      CleanConcat(WindowsSegments([""] + xs[..n]), xs[n]);
    }
  }

  lemma EmptyClean()
    ensures CleanStack(WindowsSegments([""]), true) == []
  {
    hide WindowsSegment;
    assert WindowsSegment("") <= "";
    assert WindowsSegments([""]) == [""] && [""][..0] == [];
  }

  lemma VariantShape(n: string, name: string)
    requires Protectable("/" + name) && CaseVariant(n, name)
    ensures PlainSegment(n) && IsAscii(n)
  {
    var p := "/" + name;
    assert p[1..] == name && p[1] == name[0] && p[|p| - 1] == name[|name| - 1];
    forall i | 0 <= i < |n|
      ensures n[i] != '/' && n[i] != '\\' && n[i] < 128 as char
    {
      assert p[i + 1] == name[i] && SameLetter(n[i], name[i]);
      assert name[i] in name;
    }
    assert SameLetter(n[|n| - 1], name[|name| - 1]);
  }

  /** What a request with detours names: directories below the root and a file in the last of them. */
  lemma DetoursResolve(xs: seq<string>, ds: seq<Detour>, sep: char, n: string, t: string)
    requires (forall i :: 0 <= i < |xs| ==> PlainSegment(xs[i])) && (forall i :: 0 <= i < |ds| ==> ValidDetour(ds[i]))
    requires IsSeparator(sep) && Ignored(t) && PlainSegment(n)
    ensures Clean(WindowsPathOf(PathTo(xs) + DetourTexts(ds) + [sep] + n + t)) == "/" + Join(xs + [n])
  {
    hide Clean, WindowsPathOf, WindowsSegments, PathTo, DetourTexts, DetourSegments;
    var before := [""] + xs + DetourSegments(ds);
    SpelledSegments(xs, ds, sep, n, t);
    PathClean(xs);
    DetoursClean([""] + xs, ds);
    FirstEmpty(before, n);
    CleanJoined(WindowsSegments(before), xs, n);
  }

  lemma LastSplit(rest: string, sep: char, n: string, t: string)
    requires IsSeparator(sep) && '/' !in n + t && '\\' !in n + t
    ensures Split(ReplaceBackslashes(rest + [sep] + n + t)) == Split(ReplaceBackslashes(rest)) + [n + t]
  {
    hide Split, ReplaceBackslashes;
    AddSegment(rest, sep, n + t);
    assert rest + [sep] + (n + t) == rest + [sep] + n + t;
  }

  lemma LastKept(n: string, t: string)
    requires Ignored(t) && n != "" && n[|n| - 1] != '.' && n[|n| - 1] != ' '
    ensures WindowsSegment(n + t) == n
    ensures '/' !in n ==> '/' !in n + t
    ensures '\\' !in n ==> '\\' !in n + t
  {
    assert n == n[..|n| - 1] + [n[|n| - 1]];
    SegmentKept(n[..|n| - 1], n[|n| - 1], t);
  }

  lemma SpelledSegments(xs: seq<string>, ds: seq<Detour>, sep: char, n: string, t: string)
    requires (forall i :: 0 <= i < |xs| ==> PlainSegment(xs[i])) && (forall i :: 0 <= i < |ds| ==> ValidDetour(ds[i]))
    requires IsSeparator(sep) && Ignored(t) && PlainSegment(n)
    ensures var before := [""] + xs + DetourSegments(ds);
            && WindowsPathOf(PathTo(xs) + DetourTexts(ds) + [sep] + n + t) == Join(WindowsSegments(before) + [n])
            && SlashFree(WindowsSegments(before) + [n])
  {
    hide WindowsSegments, WindowsSegment, Split, ReplaceBackslashes, Join, PathTo, DetourTexts, DetourSegments, ValidDetour,
         Ignored, IsSeparator;
    var before := [""] + xs + DetourSegments(ds);
    LastKept(n, t);
    PathSplit(xs);
    DetoursSplit(PathTo(xs), ds);
    LastSplit(PathTo(xs) + DetourTexts(ds), sep, n, t);
    WindowsConcat(before, n + t);
    SplitSlashFree(ReplaceBackslashes(PathTo(xs) + DetourTexts(ds) + [sep] + n + t));
    TrimmedSlashFree(before + [n + t]);
  }

  lemma CleanJoined(front: seq<string>, xs: seq<string>, n: string)
    requires front != [] && front[0] == "" && SlashFree(front + [n]) && CleanStack(front, true) == xs
    requires n != "" && n != "." && n != ".."
    ensures Clean(Join(front + [n])) == "/" + Join(xs + [n])
  {
    hide CleanStack, Split, Join;
    var ws := front + [n];
    SplitJoin(ws);
    CleanConcat(front, n);
    JoinRooted(ws);
  }

  lemma SplitSlashFree(s: string)
    ensures SlashFree(Split(s))
  {
  }

  lemma FirstEmpty(before: seq<string>, n: string)
    requires before != [] && before[0] == ""
    ensures WindowsSegments(before) != [] && WindowsSegments(before)[0] == ""
  {
    assert WindowsSegment("") <= "";
  }

  lemma JoinRooted(ws: seq<string>)
    requires |ws| >= 2 && ws[0] == ""
    ensures Join(ws) != "" && Join(ws)[0] == '/'
  {
  }

  /** Such a request is for a file exactly when what it names equals the file's path in either way of folding case. */
  lemma DetoursCompared(k: Case, xs: seq<string>, ds: seq<Detour>, sep: char, n: string, t: string, p: string)
    requires forall i :: 0 <= i < |xs| ==> PlainSegment(xs[i])
    requires forall i :: 0 <= i < |ds| ==> ValidDetour(ds[i])
    requires IsSeparator(sep) && Ignored(t) && PlainSegment(n)
    ensures var named := "/" + Join(xs + [n]);
            SameFile(k, PathTo(xs) + DetourTexts(ds) + [sep] + n + t, p) <==>
            k.equalFold(named, p) || k.toUpper(named) == k.toUpper(p)
  {
    hide Clean, WindowsPathOf, DetourTexts, PathTo, Join, PlainSegment;
    DetoursResolve(xs, ds, sep, n, t);
  }

  /** Among ASCII requests and names: exactly when it names the file in the root, in some case. */
  lemma DetoursProtected(k: Case, xs: seq<string>, ds: seq<Detour>, sep: char, n: string, t: string, name: string)
    requires CaseLaws(k) && Protectable("/" + name)
    requires forall i :: 0 <= i < |xs| ==> PlainSegment(xs[i]) && IsAscii(xs[i])
    requires forall i :: 0 <= i < |ds| ==> ValidDetour(ds[i])
    requires IsSeparator(sep) && Ignored(t) && PlainSegment(n) && IsAscii(n)
    ensures SameFile(k, PathTo(xs) + DetourTexts(ds) + [sep] + n + t, "/" + name) <==> xs == [] && CaseVariant(n, name)
  {
    hide Clean, WindowsPathOf, DetourTexts, PathTo, Join, Protectable, CaseVariant, PlainSegment;
    DetoursCompared(k, xs, ds, sep, n, t, "/" + name);
    ProtectableAscii("/" + name);
    JoinAscii(xs + [n]);
    var cleaned := "/" + Join(xs + [n]);
    VariantsAlike(cleaned, "/" + name);
    RootVariant(Join(xs + [n]), name);
    if xs == [] {
      assert xs + [n] == [n];
      JoinOne(n);
    } else if CaseVariant(Join(xs + [n]), name) {
      JoinHasSlash(xs, n);
      SlashVariant(Join(xs + [n]), name);
      NoSlashInName(name);
    }
  }

  lemma {:induction false} JoinAscii(parts: seq<string>)
    requires forall i :: 0 <= i < |parts| ==> IsAscii(parts[i])
    ensures IsAscii(Join(parts))
  {
    if |parts| > 1 {
      JoinAscii(parts[1..]);
    }
  }

  /** The comparison of ASCII paths is by letters. */
  lemma VariantsAlike(a: string, b: string)
    ensures MapChars(a, Lower) == MapChars(b, Lower) <==> CaseVariant(a, b)
    ensures MapChars(a, Upper) == MapChars(b, Upper) <==> CaseVariant(a, b)
  {
    hide SameLetter, Lower, Upper;
    if |a| == |b| {
      forall i | 0 <= i < |a|
        ensures MapChars(a, Lower)[i] == MapChars(b, Lower)[i] <==> SameLetter(a[i], b[i])
        ensures MapChars(a, Upper)[i] == MapChars(b, Upper)[i] <==> SameLetter(a[i], b[i])
      {
        LettersAlike(a[i], b[i]);
      }
    } else {
      assert |MapChars(a, Lower)| != |MapChars(b, Lower)| && |MapChars(a, Upper)| != |MapChars(b, Upper)|;
    }
  }

  lemma LettersAlike(a: char, b: char)
    ensures Lower(a) == Lower(b) <==> SameLetter(a, b)
    ensures Upper(a) == Upper(b) <==> SameLetter(a, b)
  {
    assert Lower(a) as int == if 'A' <= a <= 'Z' then a as int + 32 else a as int;
    assert Lower(b) as int == if 'A' <= b <= 'Z' then b as int + 32 else b as int;
    assert Upper(a) as int == if 'a' <= a <= 'z' then a as int - 32 else a as int;
    assert Upper(b) as int == if 'a' <= b <= 'z' then b as int - 32 else b as int;
  }

  lemma RootVariant(a: string, b: string)
    ensures CaseVariant("/" + a, "/" + b) <==> CaseVariant(a, b)
  {
    hide SameLetter;
    if CaseVariant("/" + a, "/" + b) {
      forall i | 0 <= i < |a|
        ensures SameLetter(a[i], b[i])
      {
        assert SameLetter(("/" + a)[i + 1], ("/" + b)[i + 1]);
      }
    }
    if CaseVariant(a, b) {
      forall i | 0 <= i < |a| + 1
        ensures SameLetter(("/" + a)[i], ("/" + b)[i])
      {
        if i > 0 {
          assert SameLetter(a[i - 1], b[i - 1]);
        } else {
          SameItself('/');
        }
      }
    }
  }

  lemma SameItself(c: char)
    ensures SameLetter(c, c)
  {
  }

  lemma JoinHasSlash(xs: seq<string>, n: string)
    requires xs != []
    ensures '/' in Join(xs + [n])
  {
    JoinConcat(xs, [n]);
  }

  lemma SlashVariant(a: string, b: string)
    requires CaseVariant(a, b) && '/' in a
    ensures '/' in b
  {
    var i :| 0 <= i < |a| && a[i] == '/';
    assert SameLetter(a[i], b[i]);
  }

  lemma NoSlashInName(name: string)
    requires Protectable("/" + name)
    ensures '/' !in name
  {
    assert ("/" + name)[1..] == name;
  }

  /** Every spelling of a protected name is taken for the file. */
  lemma SpellingIsSame(k: Case, request: string, name: string)
    requires CaseLaws(k) && Protectable("/" + name) && Spells(request, name)
    ensures SameFile(k, request, "/" + name)
  {
    hide SameFile, Protectable, DetourTexts, CaseLaws;
    var ds, sep, n, t :|
      && (forall i :: 0 <= i < |ds| ==> ValidDetour(ds[i])) && IsSeparator(sep) && CaseVariant(n, name) && Ignored(t)
      && request == DetourTexts(ds) + [sep] + n + t;
    VariantShape(n, name);
    DetoursProtected(k, [], ds, sep, n, t, name);
    assert PathTo([]) + DetourTexts(ds) == DetourTexts(ds);
  }

  lemma ProtectableAscii(p: string)
    requires Protectable(p)
    ensures IsAscii(p) && p == "/" + p[1..]
  {
  }

  /** The path without its leading slash. */
  function NameOf(p: string): string {
    if p == "" then "" else p[1..]
  }

  lemma SpellingIfProtectable(k: Case, request: string, p: string)
    ensures CaseLaws(k) && Protectable(p) && Spells(request, NameOf(p)) ==> SameFile(k, request, p)
  {
    hide CaseLaws, SameFile, Spells;
    if CaseLaws(k) && Protectable(p) && Spells(request, NameOf(p)) {
      ProtectableAscii(p);
      SpellingIsSame(k, request, p[1..]);
    }
  }

  /** `isProtectedConfigPath`: for the protected names the quick exits never change the answer. */
  method IsProtectedConfigPath(k: Case, requestPath: string, protectedPath: string) returns (protects: bool)
    ensures CaseLaws(k) && Protectable(protectedPath) ==> protects == SameFile(k, requestPath, protectedPath)
    ensures protects ==> requestPath == protectedPath || SameFile(k, requestPath, protectedPath)
    ensures CaseLaws(k) && Protectable(protectedPath) && Spells(requestPath, NameOf(protectedPath)) ==> protects
  {
    hide Clean, WindowsPathOf, CaseLaws, Spells;
    SpellingIfProtectable(k, requestPath, protectedPath);
    if requestPath == protectedPath {
      SelfIfProtectable(k, protectedPath);
      return true;
    }
    UnderscoreIfSame(k, requestPath, protectedPath);
    if requestPath == "" || protectedPath == "" || protectedPath[0] != '/' {
      return false;
    }
    var name := protectedPath[1..];
    if name == "" || IndexByte(requestPath, name[0]) < 0 {
      return false;
    }
    var ascii := IsASCII(requestPath);
    if ascii {
      WindowIfSame(k, requestPath, protectedPath);
      var contains := ContainsFold(k, requestPath, name);
      if !contains {
        return false;
      }
    }
    var windows := WindowsPath(requestPath);
    var cleaned := Clean(windows);
    return k.equalFold(cleaned, protectedPath) || k.toUpper(cleaned) == k.toUpper(protectedPath);
  }

  lemma SelfIfProtectable(k: Case, p: string)
    ensures CaseLaws(k) && Protectable(p) ==> SameFile(k, p, p)
  {
    hide SameFile, Protectable, CaseLaws;
    if CaseLaws(k) && Protectable(p) {
      ProtectableAscii(p);
      OwnVariant(p[1..]);
      VariantShape(p[1..], p[1..]);
      DetoursProtected(k, [], [], '/', p[1..], "", p[1..]);
      assert PathTo([]) + DetourTexts([]) + ['/'] + p[1..] + "" == "/" + p[1..];
    }
  }

  lemma OwnVariant(name: string)
    ensures CaseVariant(name, name)
  {
  }

  lemma UnderscoreIfSame(k: Case, request: string, p: string)
    ensures CaseLaws(k) && Protectable(p) && SameFile(k, request, p) ==> '_' in request
  {
    hide CaseLaws, SameFile;
    if CaseLaws(k) && Protectable(p) && SameFile(k, request, p) {
      NeedsUnderscore(k, request, p);
    }
  }

  lemma WindowIfSame(k: Case, request: string, p: string)
    requires IsAscii(request)
    ensures CaseLaws(k) && Protectable(p) && SameFile(k, request, p) ==>
              exists at :: Window(k, request, p[1..], at) && request[at] == p[1..][0]
  {
    hide CaseLaws, SameFile;
    if CaseLaws(k) && Protectable(p) && SameFile(k, request, p) {
      var at := NameInRequest(k, request, p);
      assert Window(k, request, p[1..], at) && request[at] == p[1..][0];
    }
  }
}
