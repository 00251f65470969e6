/**
 POSIX paths as sequences of segments: splitting at '/', folding "." and ".." onto a stack,
 and joining. `resolve` is then what a series of `cd` commands does, starting at the root.
 */
module PathSpec {

  const SLASH := '/'

  /** The pieces between separators; always at least one. */
  function Split(s: string): (r: seq<string>)
    ensures |r| >= 1
  {
    if s == "" then [""]
    else
      var n := |s| - 1;
      var r := Split(s[..n]);
      Extend(r, s[n])
  }

  /** One more character: it ends the last piece or belongs to it. */
  function Extend(pieces: seq<string>, c: char): (r: seq<string>)
    requires |pieces| >= 1
    ensures |r| >= 1
  {
    if c == SLASH then pieces + [""] else Init(pieces) + [Last(pieces) + [c]]
  }

  function Join(segments: seq<string>): string {
    if |segments| == 0 then ""
    else if |segments| == 1 then segments[0]
    else Join(segments[..|segments| - 1]) + "/" + segments[|segments| - 1]
  }

  function Last<T>(s: seq<T>): T
    requires |s| > 0
  {
    s[|s| - 1]
  }

  function Init<T>(s: seq<T>): seq<T>
    requires |s| > 0
  {
    s[..|s| - 1]
  }

  /** One segment applied to the stack of those above it. */
  function Step(stack: seq<string>, segment: string, aboveRoot: bool): seq<string> {
    if segment == "" || segment == "." then stack
    else if segment != ".." then stack + [segment]
    else if |stack| > 0 && Last(stack) != ".." then Init(stack)
    else if aboveRoot then stack + [".."]
    else stack
  }

  function Fold(stack: seq<string>, segments: seq<string>, aboveRoot: bool): seq<string> {
    if segments == [] then stack
    else Step(Fold(stack, Init(segments), aboveRoot), Last(segments), aboveRoot)
  }

  /** What `normalizeString` computes. */
  function Normal(path: string, aboveRoot: bool): string {
    Join(Fold([], Split(path), aboveRoot))
  }

  predicate NoSlash(s: string) {
    forall i :: 0 <= i < |s| ==> s[i] != SLASH
  }

  /** What a stack may hold: nothing empty, no ".", nothing with a separator in it. */
  predicate Clean(segment: string) {
    segment != "" && segment != "." && NoSlash(segment)
  }

  predicate CleanAll(stack: seq<string>) {
    forall i :: 0 <= i < |stack| ==> Clean(stack[i])
  }

  // ----- splitting

  lemma {:induction false} SplitNoSlash(s: string)
    ensures forall i :: 0 <= i < |Split(s)| ==> NoSlash(Split(s)[i])
  {
    if s != "" { SplitNoSlash(s[..|s| - 1]); }
  }

  lemma {:induction false} SplitAtSlash(a: string, b: string)
    ensures Split(a + "/" + b) == Split(a) + Split(b)
  {
    var s := a + "/" + b;
    var n := |s| - 1;
    if b == "" {
      assert s[..n] == a;
    } else {
      var b' := b[..|b| - 1];
      SplitAtSlash(a, b');
      assert s[..n] == a + "/" + b' && s[n] == b[|b| - 1];
      ExtendConcat(Split(a), Split(b'), s[n]);
    }
  }

  lemma ExtendConcat(a: seq<string>, b: seq<string>, c: char)
    requires |b| >= 1
    ensures Extend(a + b, c) == a + Extend(b, c)
  {}

  lemma {:induction false} SplitOne(s: string)
    requires NoSlash(s)
    ensures Split(s) == [s]
  {
    if s != "" {
      SplitOne(s[..|s| - 1]);
      assert s == s[..|s| - 1] + [s[|s| - 1]];
    }
  }

  lemma {:induction false} SplitJoin(segments: seq<string>)
    requires |segments| > 0 && forall i :: 0 <= i < |segments| ==> NoSlash(segments[i])
    ensures Split(Join(segments)) == segments
  {
    if |segments| == 1 {
      SplitOne(segments[0]);
    } else {
      SplitJoin(Init(segments));
      SplitAtSlash(Join(Init(segments)), Last(segments));
      SplitOne(Last(segments));
      assert segments == Init(segments) + [Last(segments)];
    }
  }

  // ----- folding

  lemma {:induction false} FoldConcat(stack: seq<string>, a: seq<string>, b: seq<string>, aboveRoot: bool)
    ensures Fold(stack, a + b, aboveRoot) == Fold(Fold(stack, a, aboveRoot), b, aboveRoot)
  {
    if b == [] {
      assert a + b == a;
    } else {
      FoldConcat(stack, a, Init(b), aboveRoot);
      assert Init(a + b) == a + Init(b) && Last(a + b) == Last(b);
    }
  }

  lemma {:induction false} FoldClean(stack: seq<string>, segments: seq<string>, aboveRoot: bool)
    requires CleanAll(stack) && forall i :: 0 <= i < |segments| ==> NoSlash(segments[i])
    ensures CleanAll(Fold(stack, segments, aboveRoot))
  {
    if segments != [] { FoldClean(stack, Init(segments), aboveRoot); }
  }

  /** ".." only below everything else, and not at all where there is no going above the root. */
  predicate Canonical(stack: seq<string>, aboveRoot: bool) {
    && CleanAll(stack)
    && forall i :: 0 <= i < |stack| && stack[i] == ".." ==> aboveRoot && forall j :: 0 <= j < i ==> stack[j] == ".."
  }

  lemma {:induction false} FoldCanonical(stack: seq<string>, segments: seq<string>, aboveRoot: bool)
    requires Canonical(stack, aboveRoot) && forall i :: 0 <= i < |segments| ==> NoSlash(segments[i])
    ensures Canonical(Fold(stack, segments, aboveRoot), aboveRoot)
  {
    if segments != [] {
      FoldCanonical(stack, Init(segments), aboveRoot);
      var s := Fold(stack, Init(segments), aboveRoot);
      StepCanonical(s, Last(segments), aboveRoot);
    }
  }

  lemma StepCanonical(s: seq<string>, segment: string, aboveRoot: bool)
    requires Canonical(s, aboveRoot) && NoSlash(segment)
    ensures Canonical(Step(s, segment, aboveRoot), aboveRoot)
  {}

  /** Folding a canonical stack rebuilds it. */
  lemma {:induction false} FoldFixed(stack: seq<string>, aboveRoot: bool)
    requires Canonical(stack, aboveRoot)
    ensures Fold([], stack, aboveRoot) == stack
  {
    if stack != [] {
      FoldFixed(Init(stack), aboveRoot);
      assert stack == Init(stack) + [Last(stack)];
    }
  }

  // ----- normalize

  predicate IsAbsolute(path: string) {
    |path| > 0 && path[0] == SLASH
  }

  predicate Trails(path: string) {
    |path| > 0 && path[|path| - 1] == SLASH
  }

  function Stack(path: string): seq<string> {
    Fold([], Split(path), !IsAbsolute(path))
  }

  /** What `normalize` returns for a stack. */
  function Render(stack: seq<string>, absolute: bool, trailing: bool): string {
    if stack == [] then (if absolute then "/" else if trailing then "./" else ".")
    else (if absolute then "/" else "") + Join(stack) + (if trailing then "/" else "")
  }

  function Normalized(path: string): string {
    if path == "" then "." else Render(Stack(path), IsAbsolute(path), Trails(path))
  }

  lemma StackCanonical(path: string)
    ensures Canonical(Stack(path), !IsAbsolute(path))
  {
    SplitNoSlash(path);
    FoldCanonical([], Split(path), !IsAbsolute(path));
  }

  /** A clean, joined stack neither starts nor ends with a separator. */
  lemma JoinedEnds(stack: seq<string>)
    requires |stack| > 0 && CleanAll(stack)
    ensures |Join(stack)| > 0 && Join(stack)[0] != SLASH && Last(Join(stack)) != SLASH
    decreases |stack|
  {
    assert Clean(Last(stack));
    if |stack| > 1 { JoinedEnds(Init(stack)); }
  }

  lemma SplitSlashFirst(x: string)
    ensures Split("/" + x) == [""] + Split(x)
  {
    SplitAtSlash("", x);
    assert "" + "/" + x == "/" + x;
  }

  lemma SplitSlashLast(x: string)
    ensures Split(x + "/") == Split(x) + [""]
  {
    SplitAtSlash(x, "");
    assert x + "/" + "" == x + "/";
  }

  lemma FoldEmptyFirst(segments: seq<string>, aboveRoot: bool)
    ensures Fold([], [""] + segments, aboveRoot) == Fold([], segments, aboveRoot)
  {
    FoldConcat([], [""], segments, aboveRoot);
    assert Fold([], [""], aboveRoot) == Step(Fold([], Init([""]), aboveRoot), "", aboveRoot);
  }

  lemma FoldEmptyLast(segments: seq<string>, aboveRoot: bool)
    ensures Fold([], segments + [""], aboveRoot) == Fold([], segments, aboveRoot)
  {
    assert Init(segments + [""]) == segments && Last(segments + [""]) == "";
  }

  lemma SplitDots()
    ensures Split("/") == ["", ""] && Split(".") == ["."] && Split("./") == [".", ""]
  {
    SplitOne(".");
    SplitSlashLast(".");
    assert "." + "/" == "./";
    SplitSlashFirst("");
    assert "/" + "" == "/";
  }

  lemma RenderedEmpty(absolute: bool, trailing: bool)
    ensures var r := Render([], absolute, trailing);
            r != "" && IsAbsolute(r) == absolute && Fold([], Split(r), !absolute) == []
  {
    FoldDots();
    SplitDots();
  }

  lemma TrailingStack(stack: seq<string>, aboveRoot: bool, trailing: bool)
    requires Canonical(stack, aboveRoot) && stack != []
    ensures Fold([], Split(Join(stack) + if trailing then "/" else ""), aboveRoot) == stack
  {
    SplitJoin(stack);
    FoldFixed(stack, aboveRoot);
    if trailing {
      SplitSlashLast(Join(stack));
      FoldEmptyLast(stack, aboveRoot);
    } else {
      assert Join(stack) + "" == Join(stack);
    }
  }

  lemma RenderedAbsolute(stack: seq<string>, trailing: bool)
    requires Canonical(stack, false) && stack != []
    ensures Fold([], Split("/" + (Join(stack) + if trailing then "/" else "")), false) == stack
  {
    var t := Join(stack) + if trailing then "/" else "";
    TrailingStack(stack, false, trailing);
    SplitSlashFirst(t);
    FoldEmptyFirst(Split(t), false);
  }

  /** Reading back what was rendered. */
  lemma RenderedStack(stack: seq<string>, absolute: bool, trailing: bool)
    requires Canonical(stack, !absolute)
    ensures var r := Render(stack, absolute, trailing);
            r != "" && IsAbsolute(r) == absolute && Fold([], Split(r), !absolute) == stack
    ensures stack != [] ==> Trails(Render(stack, absolute, trailing)) == trailing
  {
    if stack == [] {
      RenderedEmpty(absolute, trailing);
    } else {
      var t := Join(stack) + if trailing then "/" else "";
      JoinedEnds(stack);
      if absolute {
        assert Render(stack, absolute, trailing) == "/" + t;
        RenderedAbsolute(stack, trailing);
      } else {
        assert Render(stack, absolute, trailing) == t;
        TrailingStack(stack, true, trailing);
      }
    }
  }

  lemma FoldDots()
    ensures Fold([], ["", ""], false) == [] && Fold([], [".", ""], true) == [] && Fold([], ["."], true) == []
  {
    assert Init(["", ""]) == [""] && Init([".", ""]) == ["."] && Init([""]) == [] && Init(["."]) == [];
    assert Fold([], [""], false) == Step(Fold([], [], false), "", false);
    assert Fold([], ["."], true) == Step(Fold([], [], true), ".", true);
  }

  /** A normalized path means what the path means. */
  lemma NormalizedStack(path: string)
    requires path != ""
    ensures Normalized(path) != "" && IsAbsolute(Normalized(path)) == IsAbsolute(path)
    ensures Stack(Normalized(path)) == Stack(path)
  {
    StackCanonical(path);
    RenderedStack(Stack(path), IsAbsolute(path), Trails(path));
  }

  lemma NormalizeIdempotent(path: string)
    ensures Normalized(Normalized(path)) == Normalized(path)
  {
    if path == "" {
      SplitOne(".");
      FoldDots();
    } else {
      NormalizedStack(path);
      StackCanonical(path);
      RenderedStack(Stack(path), IsAbsolute(path), Trails(path));
    }
  }

  lemma StackConcat(p: string, q: string)
    requires p != ""
    ensures IsAbsolute(p + "/" + q) == IsAbsolute(p)
    ensures Trails(p + "/" + q) == (q == "" || Trails(q))
    ensures Stack(p + "/" + q) == Fold(Stack(p), Split(q), !IsAbsolute(p))
  {
    var s := p + "/" + q;
    assert s[0] == p[0];
    assert s[|s| - 1] == if q == "" then SLASH else q[|q| - 1];
    SplitAtSlash(p, q);
    FoldConcat([], Split(p), Split(q), !IsAbsolute(p));
  }

  /** Normalizing the first part first makes no difference. */
  lemma NormalizeConcat(p: string, q: string)
    requires p != ""
    ensures Normalized(p + "/" + q) == Normalized(Normalized(p) + "/" + q)
  {
    NormalizedStack(p);
    StackConcat(p, q);
    StackConcat(Normalized(p), q);
  }

  // ----- what the segments mean

  lemma FoldOne(stack: seq<string>, x: string, aboveRoot: bool)
    ensures Fold(stack, [x], aboveRoot) == Step(stack, x, aboveRoot)
  {
    assert Init([x]) == [];
  }

  /** ".." takes back the segment before it, whether or not there is going above the root. */
  lemma UpTakesBack(stack: seq<string>, x: string, aboveRoot: bool)
    requires Clean(x) && x != ".."
    ensures Fold(stack, [x, ".."], aboveRoot) == stack
  {
    assert Init([x, ".."]) == [x] && Last([x, ".."]) == "..";
    FoldOne(stack, x, aboveRoot);
    assert Init(stack + [x]) == stack;
  }

  lemma StackOne(p: string, x: string)
    requires p != "" && NoSlash(x)
    ensures Stack(p + "/" + x) == Step(Stack(p), x, !IsAbsolute(p))
  {
    StackConcat(p, x);
    SplitOne(x);
    FoldOne(Stack(p), x, !IsAbsolute(p));
  }

  /** A segment is one directory further down; nothing and "." stay where they are. */
  lemma StackDown(p: string, x: string)
    requires p != "" && Clean(x) && x != ".."
    ensures Stack(p + "/" + x) == Stack(p) + [x]
    ensures Stack(p + "/") == Stack(p) == Stack(p + "/.")
  {
    StackOne(p, x);
    StackOne(p, "");
    StackOne(p, ".");
    assert p + "/" + "" == p + "/" && p + "/" + "." == p + "/.";
  }

  /** ".." takes back one directory of any path; at the top it counts for relative paths only. */
  lemma StackUp(p: string, x: string)
    requires p != "" && Clean(x) && x != ".."
    ensures Stack(p + "/" + x + "/..") == Stack(p)
    ensures Stack(p) == [] || Last(Stack(p)) == ".." ==>
              Stack(p + "/..") == if IsAbsolute(p) then Stack(p) else Stack(p) + [".."]
  {
    hide Stack, Split, Fold, Canonical;
    var q := p + "/" + x;
    StackDown(p, x);
    StackOne(q, "..");
    assert q + "/" + ".." == p + "/" + x + "/..";
    assert IsAbsolute(q) == IsAbsolute(p);
    assert Init(Stack(p) + [x]) == Stack(p);
    StackOne(p, "..");
    assert p + "/" + ".." == p + "/..";
  }

  /** Where paths begin. */
  lemma StackFirst(x: string)
    requires Clean(x)
    ensures Stack(x) == [x] && Stack("/" + x) == if x == ".." then [] else [x]
  {
    SplitOne(x);
    SplitSlashFirst(x);
    FoldEmptyFirst([x], false);
    FoldOne([], x, true);
    FoldOne([], x, false);
  }

  /** A segment and the ".." behind it can be left out anywhere. */
  lemma NormalizeCancels(p: string, x: string, q: string)
    requires p != "" && Clean(x) && x != ".."
    ensures Normalized(p + "/" + x + "/.." + "/" + q) == Normalized(p + "/" + q)
  {
    var up := p + "/" + x + "/..";
    StackUp(p, x);
    StackConcat(up, q);
    StackConcat(p, q);
    assert IsAbsolute(up) == IsAbsolute(p);
  }

  /** What is left of a path that leads nowhere. */
  lemma NormalizeNothing(p: string)
    requires Stack(p) == []
    ensures Normalized(p) == if p != "" && p[0] == '/' then "/" else if p != "" && p[|p| - 1] == '/' then "./" else "."
  {}

  /** A separator at the end is kept, and none is added; the root is one. */
  lemma NormalizeTrails(p: string)
    requires p != ""
    ensures Trails(Normalized(p)) <==> Trails(p) || (IsAbsolute(p) && Stack(p) == [])
  {
    StackCanonical(p);
    RenderedStack(Stack(p), IsAbsolute(p), Trails(p));
  }

  // ----- join

  function NonEmpty(args: seq<string>): seq<string> {
    if args == [] then []
    else if Last(args) == "" then NonEmpty(Init(args))
    else NonEmpty(Init(args)) + [Last(args)]
  }

  function Joined(args: seq<string>): string {
    if NonEmpty(args) == [] then "." else Normalized(Join(NonEmpty(args)))
  }

  lemma {:induction false} NonEmptyConcat(a: seq<string>, b: seq<string>)
    ensures NonEmpty(a + b) == NonEmpty(a) + NonEmpty(b)
  {
    if b == [] {
      assert a + b == a;
    } else {
      assert Init(a + b) == a + Init(b) && Last(a + b) == Last(b);
      NonEmptyConcat(a, Init(b));
    }
  }

  lemma {:induction false} NonEmptyAll(args: seq<string>)
    ensures forall i :: 0 <= i < |NonEmpty(args)| ==> NonEmpty(args)[i] != ""
  {
    if args != [] { NonEmptyAll(Init(args)); }
  }

  lemma {:induction false} JoinConcat(a: seq<string>, b: seq<string>)
    requires |a| > 0 && |b| > 0
    ensures Join(a + b) == Join(a) + "/" + Join(b)
  {
    assert Init(a + b) == a + Init(b) && Last(a + b) == Last(b);
    if |b| > 1 {
      JoinConcat(a, Init(b));
      assert Join(a + Init(b)) + "/" + Last(b) == Join(a) + "/" + (Join(Init(b)) + "/" + Last(b));
    } else {
      assert a + Init(b) == a;
    }
  }

  lemma JoinNotEmpty(segments: seq<string>)
    requires |segments| > 0 && Last(segments) != ""
    ensures Join(segments) != ""
  {}

  lemma NormalizeFirst(p: seq<string>, n: seq<string>)
    requires |p| > 0 && Join(p) != ""
    ensures Normalized(Join([Normalized(Join(p))] + n)) == Normalized(Join(p + n))
  {
    var s, t := Join(p), Normalized(Join(p));
    if n == [] {
      assert p + n == p && [t] + n == [t];
      NormalizeIdempotent(s);
    } else {
      JoinConcat(p, n);
      JoinConcat([t], n);
      NormalizeConcat(s, Join(n));
    }
  }

  lemma NonEmptyOne(t: string, ys: seq<string>)
    requires t != ""
    ensures NonEmpty([t] + ys) == [t] + NonEmpty(ys)
  {
    NonEmptyConcat([t], ys);
    assert Init([t]) == [] && Last([t]) == t;
  }

  /** Joining in two goes is joining in one, unless the first go has nothing to join. */
  lemma JoinAssociates(xs: seq<string>, ys: seq<string>)
    requires NonEmpty(xs) != []
    ensures Joined([Joined(xs)] + ys) == Joined(xs + ys)
  {
    var p := NonEmpty(xs);
    NonEmptyAll(xs);
    JoinNotEmpty(p);
    NormalizedStack(Join(p));
    NonEmptyOne(Joined(xs), ys);
    NonEmptyConcat(xs, ys);
    NormalizeFirst(p, NonEmpty(ys));
  }

  /** Joining none, one and two arguments; empty ones do not count. */
  lemma JoinFew(p: string, q: string, xs: seq<string>, ys: seq<string>)
    ensures Joined([]) == "." && Joined([p]) == Normalized(p) && Joined(xs + [""] + ys) == Joined(xs + ys)
    ensures p != "" && q != "" ==> Joined([p, q]) == Normalized(p + "/" + q)
  {
    NonEmptyConcat([], [p]);
    NonEmptyConcat([p], [q]);
    assert Init([p]) == [] && Init([q]) == [] && Init([""]) == [] && [p] + [q] == [p, q];
    NonEmptyConcat(xs, [""]);
    NonEmptyConcat(xs + [""], ys);
    NonEmptyConcat(xs, ys);
    if p != "" && q != "" {
      assert Init([p, q]) == [p];
      assert Join([p, q]) == Join([p]) + "/" + q;
    }
  }
}
