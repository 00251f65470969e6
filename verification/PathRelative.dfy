/**
 Resolving and relative paths on segments: `resolve` as a series of `cd` commands from the
 root, `relative` as climbing to the deepest common directory and descending from there.
 */
module PathRelative {
  import opened PathSpec
  import opened Sequences

  // ----- resolve

  function CdOne(dir: seq<string>, arg: string): seq<string> {
    Fold(if IsAbsolute(arg) then [] else dir, Split(arg), false)
  }

  /** The directory reached by going through the arguments from left to right. */
  function Cd(args: seq<string>): seq<string> {
    if args == [] then [] else CdOne(Cd(Init(args)), Last(args))
  }

  lemma {:induction false} CdCanonical(args: seq<string>)
    ensures Canonical(Cd(args), false)
  {
    if args != [] {
      CdCanonical(Init(args));
      SplitNoSlash(Last(args));
      FoldCanonical(if IsAbsolute(Last(args)) then [] else Cd(Init(args)), Split(Last(args)), false);
    }
  }

  lemma CdTwo(a: string, b: string)
    ensures Cd([a, b]) == CdOne(Cd([a]), b) && Cd([a]) == CdOne([], a)
  {
    assert Init([a, b]) == [a] && Last([a, b]) == b && Init([a]) == [] && Last([a]) == a;
  }

  lemma CdEmpty(dir: seq<string>)
    ensures CdOne(dir, "") == dir
  {
    assert Split("") == [""] && Init([""]) == [] && Last([""]) == "";
    assert Fold(dir, [""], false) == Step(Fold(dir, Init([""]), false), "", false);
  }

  lemma StackOfJoined(stack: seq<string>)
    requires Canonical(stack, false)
    ensures Stack("/" + Join(stack)) == stack
  {
    if stack == [] {
      SplitDots();
      FoldDots();
      assert "/" + "" == "/";
    } else {
      RenderedAbsolute(stack, false);
      assert Join(stack) + "" == Join(stack);
    }
  }

  /** One more argument: an absolute one counts alone, a relative one goes on from where the others lead. */
  lemma CdFrom(args: seq<string>, path: string)
    ensures IsAbsolute(path) ==> Cd(args + [path]) == Stack(path)
    ensures !IsAbsolute(path) ==> Cd(args + [path]) == Stack("/" + Join(Cd(args)) + "/" + path)
  {
    assert Init(args + [path]) == args && Last(args + [path]) == path;
    CdCanonical(args);
    StackOfJoined(Cd(args));
    StackConcat("/" + Join(Cd(args)), path);
  }

  // ----- relative

  /** Length of the longest common prefix. */
  function Common(a: seq<string>, b: seq<string>): (c: nat)
    ensures c <= |a| && c <= |b|
  {
    if a != [] && b != [] && a[0] == b[0] then 1 + Common(a[1..], b[1..]) else 0
  }

  function Ups(n: nat): (r: seq<string>)
    ensures |r| == n && forall i :: 0 <= i < n ==> r[i] == ".."
  {
    if n == 0 then [] else Ups(n - 1) + [".."]
  }

  /** Up to the deepest common directory, then down. */
  function Route(a: seq<string>, b: seq<string>): seq<string> {
    Ups(|a| - Common(a, b)) + b[Common(a, b)..]
  }

  lemma {:induction false} CommonAgree(a: seq<string>, b: seq<string>)
    ensures a[..Common(a, b)] == b[..Common(a, b)]
  {
    if a != [] && b != [] && a[0] == b[0] {
      CommonAgree(a[1..], b[1..]);
      var c := Common(a[1..], b[1..]);
      assert a[..1 + c] == [a[0]] + a[1..][..c] && b[..1 + c] == [b[0]] + b[1..][..c];
    }
  }

  lemma {:induction false} CommonLongest(a: seq<string>, b: seq<string>)
    ensures var c := Common(a, b); c < |a| && c < |b| ==> a[c] != b[c]
  {
    if a != [] && b != [] && a[0] == b[0] { CommonLongest(a[1..], b[1..]); }
  }

  /** How far apart two directories are. */
  function Distance(a: seq<string>, b: seq<string>): int {
    |a| + |b| - 2 * Common(a, b)
  }

  lemma {:induction false} CommonPush(a: seq<string>, x: string, b: seq<string>)
    ensures Common(a, b) <= Common(a + [x], b) <= Common(a, b) + 1
  {
    if a != [] && b != [] && a[0] == b[0] {
      assert (a + [x])[1..] == a[1..] + [x];
      CommonPush(a[1..], x, b[1..]);
    } else if a == [] && b != [] {
      assert ([x])[1..] == [];
    }
  }

  /** One segment brings the goal nearer by one at most. */
  lemma StepNearer(dir: seq<string>, x: string, goal: seq<string>)
    ensures Distance(Step(dir, x, false), goal) >= Distance(dir, goal) - 1
  {
    CommonPush(dir, x, goal);
    if dir != [] {
      CommonPush(Init(dir), Last(dir), goal);
      assert Init(dir) + [Last(dir)] == dir;
    }
  }

  lemma {:induction false} FoldNearer(dir: seq<string>, segments: seq<string>, goal: seq<string>)
    ensures Distance(Fold(dir, segments, false), goal) >= Distance(dir, goal) - |segments|
  {
    if segments != [] {
      FoldNearer(dir, Init(segments), goal);
      StepNearer(Fold(dir, Init(segments), false), Last(segments), goal);
    }
  }

  /** No other segments lead from one directory to the other in fewer steps. */
  lemma RouteShortest(a: seq<string>, b: seq<string>, segments: seq<string>)
    requires Fold(a, segments, false) == b
    ensures |Route(a, b)| <= |segments|
  {
    FoldNearer(a, segments, b);
    CommonSelf(b);
  }

  /** Whatever is shared up to a point where the two part is the longest common prefix. */
  lemma {:induction false} CommonIs(shared: seq<string>, a: seq<string>, b: seq<string>)
    requires a == [] || b == [] || a[0] != b[0]
    ensures Common(shared + a, shared + b) == |shared|
  {
    if shared == [] {
      assert shared + a == a && shared + b == b;
    } else {
      CommonIs(shared[1..], a, b);
      assert (shared + a)[1..] == shared[1..] + a && (shared + b)[1..] == shared[1..] + b;
    }
  }

  lemma RouteIs(shared: seq<string>, a: seq<string>, b: seq<string>)
    requires a == [] || b == [] || a[0] != b[0]
    ensures Route(shared + a, shared + b) == Ups(|a|) + b
  {
    CommonIs(shared, a, b);
    assert (shared + b)[|shared|..] == b;
  }

  lemma {:induction false} FoldUps(dir: seq<string>, n: nat)
    requires n <= |dir| && Canonical(dir, false)
    ensures Fold(dir, Ups(n), false) == dir[..|dir| - n]
  {
    if n == 0 {
      assert dir[..|dir|] == dir;
    } else {
      FoldUps(dir, n - 1);
      assert Init(Ups(n)) == Ups(n - 1);
      var d := dir[..|dir| - (n - 1)];
      assert Last(d) == dir[|d| - 1] && Last(d) != "..";
      assert Init(d) == dir[..|dir| - n];
    }
  }

  lemma {:induction false} FoldDown(dir: seq<string>, down: seq<string>)
    requires Canonical(down, false)
    ensures Fold(dir, down, false) == dir + down
  {
    if down == [] {
      assert dir + down == dir;
    } else {
      FoldDown(dir, Init(down));
      assert Clean(Last(down)) && Last(down) != "..";
      assert down == Init(down) + [Last(down)];
    }
  }

  lemma FoldRoute(a: seq<string>, b: seq<string>)
    requires Canonical(a, false) && Canonical(b, false)
    ensures Fold(a, Route(a, b), false) == b
  {
    hide Fold, Common, Ups;
    var c := Common(a, b);
    CommonAgree(a, b);
    FoldConcat(a, Ups(|a| - c), b[c..], false);
    FoldUps(a, |a| - c);
    FoldDown(a[..c], b[c..]);
    assert b[..c] + b[c..] == b;
  }

  /** Following the relative path leads to the target. */
  lemma RouteLeadsThere(a: seq<string>, b: seq<string>)
    requires Canonical(a, false) && Canonical(b, false)
    ensures CdOne(a, Join(Route(a, b))) == b
  {
    var r := Route(a, b);
    FoldRoute(a, b);
    if r == [] {
      CdEmpty(a);
    } else {
      forall i | 0 <= i < |r| ensures Clean(r[i]) {
        var n := |a| - Common(a, b);
        if i >= n { assert r[i] == b[Common(a, b) + (i - n)]; }
      }
      JoinedEnds(r);
      SplitJoin(r);
    }
  }

  // ----- pieces of joined paths

  lemma {:induction false} JoinSplit(s: string)
    ensures Join(Split(s)) == s
  {
    if s != "" {
      var n := |s| - 1;
      JoinSplit(s[..n]);
      JoinExtend(Split(s[..n]), s[n]);
      assert s == s[..n] + [s[n]];
    }
  }

  lemma JoinPush(pieces: seq<string>, x: string)
    requires |pieces| >= 1
    ensures Join(pieces + [x]) == Join(pieces) + "/" + x
  {
    assert Init(pieces + [x]) == pieces && Last(pieces + [x]) == x;
  }

  lemma JoinExtend(pieces: seq<string>, c: char)
    requires |pieces| >= 1
    ensures Join(Extend(pieces, c)) == Join(pieces) + [c]
  {
    var init, last := Init(pieces), Last(pieces);
    if c == SLASH {
      JoinPush(pieces, "");
      assert Join(pieces) + "/" + "" == Join(pieces) + [c];
    } else if |pieces| == 1 {
      assert init == [] && init + [last + [c]] == [last + [c]];
    } else {
      JoinPush(init, last + [c]);
      JoinPush(init, last);
      InitLast(pieces);
      Regroup(Join(init) + "/", last, [c]);
    }
  }

  lemma InitLast<T>(s: seq<T>)
    requires |s| > 0
    ensures s == Init(s) + [Last(s)]
  {}

  /** Text without a separator in front of x belongs to the first piece. */
  lemma {:induction false} SplitAfter(w: string, x: string)
    requires NoSlash(w)
    ensures Split(w + x) == [w + Split(x)[0]] + Split(x)[1..]
  {
    hide Extend;
    if x == "" {
      assert w + x == w && w + "" == w;
      SplitOne(w);
    } else {
      var n := |x| - 1;
      var s := w + x;
      assert s[..|s| - 1] == w + x[..n] && s[|s| - 1] == x[n];
      SplitAfter(w, x[..n]);
      ExtendFirst(w, Split(x[..n]), x[n]);
    }
  }

  lemma ExtendFirst(w: string, r: seq<string>, c: char)
    requires |r| >= 1
    ensures Extend([w + r[0]] + r[1..], c) == [w + Extend(r, c)[0]] + Extend(r, c)[1..]
  {
    if c != SLASH && |r| == 1 {
      assert w + r[0] + [c] == w + (r[0] + [c]);
    }
  }

  /** The character that ends or continues the first piece; the end counts as a separator. */
  function Next(x: string): char {
    if x == "" then SLASH else x[0]
  }

  lemma {:induction false} FirstPiece(x: string)
    ensures Split(x)[0] == "" <==> Next(x) == SLASH
    ensures Next(x) != SLASH ==> |Split(x)[0]| > 0 && Split(x)[0][0] == Next(x)
  {
    if x != "" {
      FirstPiece(x[..|x| - 1]);
      assert |x| == 1 ==> Split(x[..0]) == [""];
      assert |x| > 1 ==> Next(x[..|x| - 1]) == Next(x);
    }
  }

  /** Two strings that part after a common text without separators have different first pieces. */
  lemma FirstPiecesDiffer(w: string, x: string, y: string)
    requires NoSlash(w) && Next(x) != Next(y)
    ensures Split(w + x)[0] != Split(w + y)[0]
  {
    SplitAfter(w, x);
    SplitAfter(w, y);
    FirstPiece(x);
    FirstPiece(y);
    var a, b := w + Split(x)[0], w + Split(y)[0];
    if Split(x)[0] != "" { assert a[|w|] == Next(x); }
    if Split(y)[0] != "" { assert b[|w|] == Next(y); }
  }

  // ----- the cases of `relative`, on the texts f and t of the two directories without their leading separator

  /** f and t are the texts of the directories a and b. */
  ghost predicate Texts(a: seq<string>, b: seq<string>, f: string, t: string) {
    Canonical(a, false) && Canonical(b, false) && f == Join(a) && t == Join(b)
  }

  lemma TextPieces(a: seq<string>)
    requires CleanAll(a)
    ensures a == [] <==> Join(a) == ""
    ensures a != [] ==> Split(Join(a)) == a && Join(a)[0] != SLASH
  {
    if a != [] {
      JoinedEnds(a);
      SplitJoin(a);
    }
  }

  lemma CutAt(f: string, k: nat)
    requires k < |f| && f[k] == SLASH
    ensures Split(f) == Split(f[..k]) + Split(f[k + 1..])
  {
    Glue(f, k);
    SplitAtSlash(f[..k], f[k + 1..]);
  }

  lemma Glue(f: string, k: nat)
    requires k < |f| && f[k] == SLASH
    ensures f == f[..k] + "/" + f[k + 1..]
  {}

  /** `to` is below `from`. */
  lemma BelowFrom(a: seq<string>, b: seq<string>, f: string, t: string)
    requires Texts(a, b, f, t) && |f| < |t| && t[..|f|] == f && t[|f|] == SLASH
    ensures Join(Route(a, b)) == t[|f| + 1..]
  {
    TextPieces(a);
    TextPieces(b);
    CutAt(t, |f|);
    var down := Split(t[|f| + 1..]);
    RouteIs(a, [], down);
    assert a + [] == a && Ups(0) + down == down;
    JoinSplit(t[|f| + 1..]);
  }

  /** `from` is the root. */
  lemma FromRoot(b: seq<string>)
    ensures Route([], b) == b
  {}

  /** `to` is above `from`. */
  lemma AboveFrom(a: seq<string>, b: seq<string>, f: string, t: string)
    requires Texts(a, b, f, t) && |t| < |f| && f[..|t|] == t && f[|t|] == SLASH
    ensures Route(a, b) == Ups(|Split(f[|t| + 1..])|)
  {
    TextPieces(a);
    TextPieces(b);
    CutAt(f, |t|);
    var up := Split(f[|t| + 1..]);
    RouteIs(b, up, []);
    assert b + [] == b;
  }

  /** `to` is the root. */
  lemma ToRoot(a: seq<string>, f: string)
    requires Canonical(a, false) && f == Join(a) && f != ""
    ensures Route(a, []) == Ups(|Split(f[1..])|)
  {
    TextPieces(a);
    assert f == f[..1] + f[1..];
    assert NoSlash(f[..1]);
    SplitAfter(f[..1], f[1..]);
    RouteIs([], a, []);
    assert [] + a == a;
  }

  /** The two directories part after the separator at k (or at the root, k = -1), having agreed up to i. */
  lemma Parted(a: seq<string>, b: seq<string>, f: string, t: string, k: int, i: nat)
    requires Texts(a, b, f, t) && f != "" && t != "" && -1 <= k < i <= |f| && i <= |t|
    requires f[..i] == t[..i] && (k >= 0 ==> f[k] == SLASH) && NoSlash(f[k + 1..i])
    requires Next(f[i..]) != Next(t[i..])
    ensures Join(Route(a, b)) == Join(Ups(|Split(f[k + 1..])|)) + "/" + t[k + 1..]
  {
    var g, v, w := f[k + 1..], t[k + 1..], f[k + 1..i];
    assert g == w + f[i..];
    assert v == w + t[i..] by {
      assert t[k + 1..i] == t[..i][k + 1..] == f[..i][k + 1..] == w;
    }
    FirstPiecesDiffer(w, f[i..], t[i..]);
    PartedRoute(a, b, f, t, k, i);
    JoinSplit(v);
    JoinConcat(Ups(|Split(g)|), Split(v));
  }

  lemma PartedRoute(a: seq<string>, b: seq<string>, f: string, t: string, k: int, i: nat)
    requires Texts(a, b, f, t) && f != "" && t != "" && -1 <= k < i <= |f| && i <= |t|
    requires f[..i] == t[..i] && (k >= 0 ==> f[k] == SLASH)
    requires Split(f[k + 1..])[0] != Split(t[k + 1..])[0]
    ensures Route(a, b) == Ups(|Split(f[k + 1..])|) + Split(t[k + 1..])
  {
    TextPieces(a);
    TextPieces(b);
    if k >= 0 {
      SamePrefix(f, t, k, i);
      PiecesPart(f, t, k);
    } else {
      assert f[0..] == f && t[0..] == t;
      RouteIs([], a, b);
      assert [] + a == a && [] + b == b;
    }
  }

  lemma SamePrefix(f: string, t: string, k: nat, i: nat)
    requires k < i <= |f| && i <= |t| && f[..i] == t[..i]
    ensures f[..k] == t[..k] && f[k] == t[k]
  {
    assert f[..k] == f[..i][..k] && t[..k] == t[..i][..k];
    assert f[k] == f[..i][k] && t[k] == t[..i][k];
  }

  lemma PiecesPart(f: string, t: string, k: nat)
    requires k < |f| && k < |t| && f[..k] == t[..k] && f[k] == t[k] == SLASH
    requires Split(f[k + 1..])[0] != Split(t[k + 1..])[0]
    ensures Route(Split(f), Split(t)) == Ups(|Split(f[k + 1..])|) + Split(t[k + 1..])
  {
    CutAt(f, k);
    CutAt(t, k);
    RouteIs(Split(f[..k]), Split(f[k + 1..]), Split(t[k + 1..]));
  }

  lemma {:induction false} CommonSelf(a: seq<string>)
    ensures Common(a, a) == |a|
  {
    if a != [] { CommonSelf(a[1..]); }
  }

  lemma RouteToSelf(a: seq<string>)
    ensures Route(a, a) == []
  {
    CommonSelf(a);
  }

  /** resolve(from, relative(from, to)) is resolve(to), for all strings. */
  lemma RelativeResolves(from: string, to: string)
    ensures Cd([from, Join(Route(Cd([from]), Cd([to])))]) == Cd([to])
  {
    CdCanonical([from]);
    CdCanonical([to]);
    RouteLeadsThere(Cd([from]), Cd([to]));
    CdTwo(from, Join(Route(Cd([from]), Cd([to]))));
  }
}
