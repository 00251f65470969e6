/** `path.posix`: the character loops, each proved to compute what the segments say. */
module Path {
  import opened PathSpec
  import opened PathRelative
  import opened Sequences

  /** res.lastIndexOf('/') */
  function LastSlash(s: string): (r: int)
    ensures -1 <= r < |s|
    ensures r >= 0 ==> s[r] == SLASH
    ensures forall i :: r < i < |s| ==> s[i] != SLASH
  {
    if s == "" then -1
    else if s[|s| - 1] == SLASH then |s| - 1
    else LastSlash(s[..|s| - 1])
  }

  /** Where the last piece of a joined stack starts. */
  lemma JoinEnds(stack: seq<string>)
    requires |stack| > 1 && CleanAll(stack)
    ensures var s, k := Join(stack), |Join(Init(stack))|;
            && 0 < k && k + 1 < |s| && s[k] == SLASH && s[..k] == Join(Init(stack)) && s[k + 1..] == Last(stack)
  {
    JoinNonempty(Init(stack));
    assert Clean(Last(stack));
  }

  lemma LastSlashIs(s: string, k: nat)
    requires k < |s| && s[k] == SLASH && NoSlash(s[k + 1..])
    ensures LastSlash(s) == k
  {
    forall i | k < i < |s| ensures s[i] != SLASH { assert s[i] == s[k + 1..][i - k - 1]; }
  }

  lemma JoinLastSlash(stack: seq<string>)
    requires |stack| > 0 && CleanAll(stack)
    ensures LastSlash(Join(stack)) == if |stack| == 1 then -1 else |Join(Init(stack))|
    ensures |stack| > 1 ==> |Join(stack)| > 2 && Join(stack)[..LastSlash(Join(stack))] == Join(Init(stack))
    ensures 1 <= |Last(stack)| <= |Join(stack)|
    ensures Join(stack)[|Join(stack)| - |Last(stack)|..] == Last(stack)
  {
    assert Clean(Last(stack));
    if |stack| > 1 {
      JoinEnds(stack);
      LastSlashIs(Join(stack), |Join(Init(stack))|);
    }
  }

  lemma JoinNonempty(stack: seq<string>)
    requires |stack| > 0 && CleanAll(stack)
    ensures |Join(stack)| > 0
  {
    assert Clean(Last(stack));
  }

  /** Number of dots if the piece is nothing else, -1 otherwise: the variable `dots`. */
  function Dots(piece: string): int {
    if forall i :: 0 <= i < |piece| ==> piece[i] == '.' then |piece| else -1
  }

  lemma DotsMeaning(piece: string)
    ensures Dots(piece) == 0 <==> piece == ""
    ensures Dots(piece) == 1 <==> piece == "."
    ensures Dots(piece) == 2 <==> piece == ".."
  {}

  /** The variables `res` and `lastSegmentLength` stand for a stack. */
  ghost predicate Represents(res: string, lastSegmentLength: int, stack: seq<string>) {
    res == Join(stack) && CleanAll(stack) && (stack != [] ==> lastSegmentLength == |Last(stack)|)
  }

  predicate LooksLikeDotDot(res: string, lastSegmentLength: int) {
    !(|res| < 2 || lastSegmentLength != 2 || res[|res| - 1] != '.' || res[|res| - 2] != '.')
  }

  lemma DotDotOnTop(res: string, lastSegmentLength: int, stack: seq<string>)
    requires Represents(res, lastSegmentLength, stack)
    ensures LooksLikeDotDot(res, lastSegmentLength) <==> stack != [] && Last(stack) == ".."
  {
    if stack != [] {
      JoinLastSlash(stack);
      var n, last := |res|, Last(stack);
      if |last| == 2 {
        assert res[n - 2] == res[n - 2..][0] && res[n - 1] == res[n - 2..][1];
      }
    }
  }

  /** Cutting `res` at its last separator takes the top off the stack. */
  lemma CutTop(res: string, lastSegmentLength: int, stack: seq<string>)
    requires Represents(res, lastSegmentLength, stack) && stack != []
    ensures |res| > 0
    ensures |stack| == 1 ==> LastSlash(res) == -1 && Init(stack) == []
    ensures |stack| > 1 ==>
              |res| > 2 && LastSlash(res) >= 0 &&
              var cut := res[..LastSlash(res)]; Represents(cut, |cut| - 1 - LastSlash(cut), Init(stack))
  {
    JoinNonempty(stack);
    JoinLastSlash(stack);
    if |stack| > 1 { LastLength(Init(stack)); }
  }

  lemma PushTop(res: string, lastSegmentLength: int, stack: seq<string>, piece: string)
    requires Represents(res, lastSegmentLength, stack) && Clean(piece)
    ensures Represents(if |res| > 0 then res + "/" + piece else piece, |piece|, stack + [piece])
  {
    Pushed(stack, piece);
  }

  /** A ".." in the path. */
  method Ascend(res: string, lastSegmentLength: int, aboveRoot: bool, ghost stack: seq<string>)
    returns (res': string, lastSegmentLength': int)
    requires Represents(res, lastSegmentLength, stack)
    ensures Represents(res', lastSegmentLength', Step(stack, "..", aboveRoot))
  {
    DotDotOnTop(res, lastSegmentLength, stack);
    if stack != [] { CutTop(res, lastSegmentLength, stack); }
    if !LooksLikeDotDot(res, lastSegmentLength) {
      if |res| > 2 {
        var lastSlashIndex := LastSlash(res);
        if lastSlashIndex == -1 {
          return "", 0;
        } else {
          res' := res[..lastSlashIndex];
          lastSegmentLength' := |res'| - 1 - LastSlash(res');
          return;
        }
      } else if |res| != 0 {
        return "", 0;
      }
    }
    res', lastSegmentLength' := res, lastSegmentLength;
    if aboveRoot {
      PushTop(res, lastSegmentLength, stack, "..");
      res' := if |res| > 0 then res + "/.." else "..";
      lastSegmentLength' := 2;
    }
  }

  /** What the loop of `normalizeString` does to `res` at a separator. */
  method AtSeparator(res: string, lastSegmentLength: int, piece: string, dots: int, aboveRoot: bool,
                     ghost stack: seq<string>)
    returns (res': string, lastSegmentLength': int)
    requires Represents(res, lastSegmentLength, stack)
    requires dots == Dots(piece) && NoSlash(piece)
    ensures Represents(res', lastSegmentLength', Step(stack, piece, aboveRoot))
  {
    DotsMeaning(piece);
    if |piece| == 0 || dots == 1 {
      res', lastSegmentLength' := res, lastSegmentLength;
    } else if dots == 2 {
      res', lastSegmentLength' := Ascend(res, lastSegmentLength, aboveRoot, stack);
    } else {
      PushTop(res, lastSegmentLength, stack, piece);
      res' := if |res| > 0 then res + "/" + piece else piece;
      lastSegmentLength' := |piece|;
    }
  }

  lemma LastLength(stack: seq<string>)
    requires |stack| > 0 && CleanAll(stack)
    ensures |Join(stack)| - 1 - LastSlash(Join(stack)) == |Last(stack)|
  {
    JoinLastSlash(stack);
  }

  lemma Pushed(stack: seq<string>, piece: string)
    requires CleanAll(stack)
    ensures Join(stack + [piece]) == if |Join(stack)| > 0 then Join(stack) + "/" + piece else piece
  {
    assert Init(stack + [piece]) == stack;
    if stack != [] { JoinNonempty(stack); }
  }

  /** Where the scan is after i characters: finished pieces folded, the current one counted. */
  ghost predicate Scanned(path: string, i: int, stack: seq<string>, lastSlash: int, dots: int, aboveRoot: bool) {
    && -1 <= lastSlash < i <= |path|
    && stack == Fold([], Init(Split(path[..i])), aboveRoot) && CleanAll(stack)
    && Last(Split(path[..i])) == path[lastSlash + 1..i]
    && NoSlash(path[lastSlash + 1..i])
    && dots == Dots(path[lastSlash + 1..i])
  }

  lemma ScannedNothing(path: string, aboveRoot: bool)
    ensures Scanned(path, 0, [], -1, 0, aboveRoot)
  {
    assert path[..0] == "" && path[0..0] == "";
  }

  lemma SplitPrefix(path: string, i: nat)
    requires i < |path|
    ensures Split(path[..i + 1]) == Extend(Split(path[..i]), path[i])
  {
    assert path[..i + 1][..i] == path[..i];
  }

  lemma ScannedSeparator(path: string, i: nat, stack: seq<string>, lastSlash: int, dots: int, aboveRoot: bool)
    requires Scanned(path, i, stack, lastSlash, dots, aboveRoot)
    ensures Step(stack, path[lastSlash + 1..i], aboveRoot) == Fold([], Split(path[..i]), aboveRoot)
    ensures CleanAll(Fold([], Split(path[..i]), aboveRoot))
    ensures i < |path| && path[i] == SLASH ==> Scanned(path, i + 1, Fold([], Split(path[..i]), aboveRoot), i, 0, aboveRoot)
  {
    SplitNoSlash(path[..i]);
    FoldClean([], Split(path[..i]), aboveRoot);
    if i < |path| && path[i] == SLASH {
      SplitPrefix(path, i);
      assert Init(Split(path[..i]) + [""]) == Split(path[..i]);
      assert path[i + 1..i + 1] == "";
    }
  }

  lemma ScannedCharacter(path: string, i: nat, stack: seq<string>, lastSlash: int, dots: int, aboveRoot: bool)
    requires i < |path| && path[i] != SLASH && Scanned(path, i, stack, lastSlash, dots, aboveRoot)
    ensures Scanned(path, i + 1, stack, lastSlash, if path[i] == '.' && dots != -1 then dots + 1 else -1, aboveRoot)
  {
    SplitPrefix(path, i);
    var piece, piece' := path[lastSlash + 1..i], path[lastSlash + 1..i + 1];
    assert piece' == piece + [path[i]];
    assert Last(Split(path[..i + 1])) == piece';
    DotsOneMore(piece, path[i]);
  }

  lemma DotsOneMore(piece: string, c: char)
    ensures Dots(piece + [c]) == if c == '.' && Dots(piece) != -1 then Dots(piece) + 1 else -1
  {
    var p := piece + [c];
    assert p[|piece|] == c;
    if Dots(piece) == -1 {
      var i :| 0 <= i < |piece| && piece[i] != '.';
      assert p[i] != '.';
    }
  }

  lemma ScannedAll(path: string, stack: seq<string>, lastSlash: int, dots: int, aboveRoot: bool)
    requires Scanned(path, |path|, stack, lastSlash, dots, aboveRoot) && |path| > 0 && path[|path| - 1] == SLASH
    ensures stack == Fold([], Split(path), aboveRoot)
  {
    var n := |path| - 1;
    assert path[..n + 1] == path;
    SplitPrefix(path, n);
    assert Last(Split(path)) == "";
  }

  /** The piece that ends at index i, taken into account. */
  method EndPiece(path: string, i: nat, res: string, lastSegmentLength: int, lastSlash: int, dots: int, aboveRoot: bool,
                  ghost stack: seq<string>)
    returns (res': string, lastSegmentLength': int, ghost stack': seq<string>)
    requires Scanned(path, i, stack, lastSlash, dots, aboveRoot) && Represents(res, lastSegmentLength, stack)
    ensures Represents(res', lastSegmentLength', stack') && stack' == Fold([], Split(path[..i]), aboveRoot)
    ensures i < |path| && path[i] == SLASH ==> Scanned(path, i + 1, stack', i, 0, aboveRoot)
  {
    ScannedSeparator(path, i, stack, lastSlash, dots, aboveRoot);
    res', lastSegmentLength' := AtSeparator(res, lastSegmentLength, path[lastSlash + 1..i], dots, aboveRoot, stack);
    stack' := Fold([], Split(path[..i]), aboveRoot);
  }

  /** One character of the loop. */
  method ScanCharacter(path: string, i: nat, res: string, lastSegmentLength: int, lastSlash: int, dots: int, aboveRoot: bool,
                       ghost stack: seq<string>)
    returns (res': string, lastSegmentLength': int, lastSlash': int, dots': int, ghost stack': seq<string>)
    requires i < |path| && Scanned(path, i, stack, lastSlash, dots, aboveRoot) && Represents(res, lastSegmentLength, stack)
    ensures Scanned(path, i + 1, stack', lastSlash', dots', aboveRoot) && Represents(res', lastSegmentLength', stack')
  {
    var code := path[i];
    if code == SLASH {
      res', lastSegmentLength', stack' := EndPiece(path, i, res, lastSegmentLength, lastSlash, dots, aboveRoot, stack);
      lastSlash', dots' := i, 0;
    } else {
      ScannedCharacter(path, i, stack, lastSlash, dots, aboveRoot);
      res', lastSegmentLength', lastSlash', stack' := res, lastSegmentLength, lastSlash, stack;
      if code == '.' && dots != -1 {
        dots' := dots + 1;
      } else {
        dots' := -1;
      }
    }
  }

  method NormalizeString(path: string, aboveRoot: bool) returns (res: string)
    ensures res == Normal(path, aboveRoot)
  {
    res := "";
    var lastSegmentLength, lastSlash, dots := 0, -1, 0;
    ghost var stack: seq<string> := [];
    ScannedNothing(path, aboveRoot);
    var i := 0;
    while i < |path|
      invariant 0 <= i <= |path|
      invariant Represents(res, lastSegmentLength, stack)
      invariant Scanned(path, i, stack, lastSlash, dots, aboveRoot)
    {
      res, lastSegmentLength, lastSlash, dots, stack :=
        ScanCharacter(path, i, res, lastSegmentLength, lastSlash, dots, aboveRoot, stack);
      i := i + 1;
    }
    // The last round of the source's loop, where i has reached the end.
    if |path| > 0 && path[|path| - 1] == SLASH {
      ScannedAll(path, stack, lastSlash, dots, aboveRoot);
    } else {
      res, lastSegmentLength, stack := EndPiece(path, i, res, lastSegmentLength, lastSlash, dots, aboveRoot, stack);
      assert path[..i] == path;
    }
  }

  method Normalize(path: string) returns (r: string)
    ensures r == Normalized(path)
  {
    if |path| == 0 { return "."; }
    var isAbsolute := path[0] == SLASH;
    var trailingSeparator := path[|path| - 1] == SLASH;
    var p := NormalizeString(path, !isAbsolute);
    StackCanonical(path);
    if Stack(path) != [] { JoinNonempty(Stack(path)); }
    if |p| == 0 {
      if isAbsolute { return "/"; }
      return if trailingSeparator then "./" else ".";
    }
    if trailingSeparator { p := p + "/"; }
    r := if isAbsolute then "/" + p else p;
    Rendered(Stack(path), isAbsolute, trailingSeparator);
  }

  lemma Rendered(stack: seq<string>, absolute: bool, trailing: bool)
    requires stack != []
    ensures var p := if trailing then Join(stack) + "/" else Join(stack);
            Render(stack, absolute, trailing) == if absolute then "/" + p else p
  {}

  method JoinPaths(args: seq<string>) returns (r: string)
    ensures r == Joined(args)
  {
    if |args| == 0 { return "."; }
    var joined: seq<string> := [];   // no string, or the one joined so far
    var i := 0;
    while i < |args|
      invariant 0 <= i <= |args|
      invariant joined == if NonEmpty(args[..i]) == [] then [] else [Join(NonEmpty(args[..i]))]
    {
      assert Init(args[..i + 1]) == args[..i] && Last(args[..i + 1]) == args[i];
      if |args[i]| > 0 {
        if NonEmpty(args[..i]) != [] { JoinPush(NonEmpty(args[..i]), args[i]); }
        joined := if joined == [] then [args[i]] else [joined[0] + "/" + args[i]];
      }
      i := i + 1;
    }
    assert args[..i] == args;
    if joined == [] { return "."; }
    r := Normalize(joined[0]);
  }

  method Resolve(args: seq<string>) returns (r: string)
    ensures r == "/" + Join(Cd(args))
  {
    var resolvedPath, resolvedAbsolute := "", false;
    var i := |args| - 1;
    assert args[..i + 1] == args;
    assert Split("") == [""];
    CdEmpty(Cd(args));
    while i >= -1 && !resolvedAbsolute
      invariant -2 <= i < |args| && (i == -2 ==> resolvedAbsolute)
      invariant !resolvedAbsolute ==> Cd(args) == Fold(Cd(args[..i + 1]), Split(resolvedPath), false)
      invariant resolvedAbsolute ==> Cd(args) == Fold([], Split(resolvedPath), false)
    {
      var path := if i >= 0 then args[i] else "/";
      ResolveStep(args, i, path, resolvedPath);
      if |path| != 0 {
        resolvedPath := path + "/" + resolvedPath;
        resolvedAbsolute := path[0] == SLASH;
      }
      i := i - 1;
    }
    // The working directory is the root, so the path is absolute by now.
    var normal := NormalizeString(resolvedPath, !resolvedAbsolute);
    r := "/" + normal;
  }

  lemma ResolveStep(args: seq<string>, i: int, path: string, resolved: string)
    requires -1 <= i < |args| && path == if i >= 0 then args[i] else "/"
    ensures path == "" ==> Cd(args[..i + 1]) == Cd(args[..i])
    ensures path != "" ==>
              Fold(if IsAbsolute(path) then [] else Cd(args[..i]), Split(path + "/" + resolved), false)
              == Fold(Cd(args[..i + 1]), Split(resolved), false)
  {
    SplitAtSlash(path, resolved);
    if i >= 0 {
      assert Init(args[..i + 1]) == args[..i] && Last(args[..i + 1]) == args[i];
      var dir := if IsAbsolute(path) then [] else Cd(args[..i]);
      FoldConcat(dir, Split(path), Split(resolved), false);
      CdEmpty(Cd(args[..i]));
    } else {
      assert args[..0] == [];
      SplitSlashFirst("");
      assert "/" + "" == "/" && Split("") == [""];
      assert Split("/") == ["", ""] && path == "/";
      FoldConcat([], ["", ""], Split(resolved), false);
      FoldDots();
    }
  }

  /** Separators among the first i characters. */
  function Slashes(g: string, i: nat): nat
    requires i <= |g|
  {
    if i == 0 then 0 else Slashes(g, i - 1) + if g[i - 1] == SLASH then 1 else 0
  }

  lemma {:induction false} PieceCount(g: string, i: nat)
    requires i <= |g|
    ensures |Split(g[..i])| == Slashes(g, i) + 1
  {
    if i > 0 {
      PieceCount(g, i - 1);
      SplitPrefix(g, i - 1);
    }
  }

  lemma PiecesOfAll(g: string)
    ensures |Split(g)| == Slashes(g, |g|) + 1
  {
    PieceCount(g, |g|);
    assert g[..|g|] == g;
  }

  /** out += out.length === 0 ? '..' : '/..' */
  function OneUp(out: string): string {
    out + if |out| == 0 then ".." else "/.."
  }

  lemma UpOnce(n: nat)
    ensures Join(Ups(n + 1)) == OneUp(Join(Ups(n)))
  {
    UpsClean(n);
    Pushed(Ups(n), "..");
    Regroup(Join(Ups(n)), "/", "..");
    assert "/" + ".." == "/..";
  }

  lemma UpsClean(n: nat)
    ensures CleanAll(Ups(n))
  {
    forall i | 0 <= i < n ensures Clean(Ups(n)[i]) { assert Ups(n)[i] == ".."; }
  }

  lemma NothingAfter(s: string, t: string)
    ensures s + t[|t|..] == s
  {}

  /** Fills in one ".." for each piece of g. */
  method Climb(g: string) returns (out: string)
    ensures out == Join(Ups(|Split(g)|))
  {
    out := "";
    var i := 0;
    while i < |g|
      invariant 0 <= i <= |g|
      invariant out == Join(Ups(Slashes(g, i)))
    {
      if g[i] == SLASH {
        UpOnce(Slashes(g, i));
        out := OneUp(out);
      }
      i := i + 1;
    }
    // The last round of the source's loop, where i has reached the end.
    UpOnce(Slashes(g, i));
    PiecesOfAll(g);
    out := OneUp(out);
  }

  /** f and t agree up to i, and k is the last separator on the way, or -1. */
  ghost predicate Agree(f: string, t: string, i: nat, k: int) {
    && i <= |f| && i <= |t| && -1 <= k < i
    && (forall j :: 0 <= j < i ==> f[j] == t[j])
    && (k >= 0 ==> f[k] == SLASH)
    && (forall j :: k < j < i ==> f[j] != SLASH)
  }

  /** How far the two texts agree, and the last separator on the way. */
  method CommonText(f: string, t: string) returns (i: nat, lastCommonSep: int)
    ensures Agree(f, t, i, lastCommonSep)
    ensures i < |f| && i < |t| ==> f[i] != t[i]
  {
    i, lastCommonSep := 0, -1;
    while i < |f| && i < |t|
      invariant Agree(f, t, i, lastCommonSep)
    {
      if f[i] != t[i] { break; }
      if f[i] == SLASH { lastCommonSep := i; }
      i := i + 1;
    }
  }

  method Relative(from: string, to: string) returns (r: string)
    ensures r == Join(Route(Cd([from]), Cd([to])))
  {
    RouteToSelf(Cd([from]));
    if from == to { return ""; }
    var from' := Resolve([from]);
    var to' := Resolve([to]);
    ghost var a, b := Cd([from]), Cd([to]);
    CdCanonical([from]);
    CdCanonical([to]);
    TextPieces(a);
    TextPieces(b);
    if from' == to' {
      assert from'[1..] == Join(a) && to'[1..] == Join(b);
      return "";
    }
    r := RelativeTexts(from'[1..], to'[1..], a, b);
  }

  lemma AgreeTexts(f: string, t: string, i: nat, k: int)
    requires Agree(f, t, i, k)
    ensures f[..i] == t[..i] && NoSlash(f[k + 1..i])
    ensures i == |f| ==> |f| <= |t| && t[..|f|] == f
    ensures i == |t| ==> |t| <= |f| && f[..|t|] == t
  {}

  lemma FromSeparator(t: string, k: nat)
    requires k < |t| && t[k] == SLASH
    ensures t[k..] == "/" + t[k + 1..]
  {}

  /** What `relative` returns when the two directories part below the last common separator. */
  lemma PartedText(f: string, t: string, i: nat, k: int, a: seq<string>, b: seq<string>, out: string)
    requires Texts(a, b, f, t) && f != "" && t != "" && Agree(f, t, i, k) && Next(f[i..]) != Next(t[i..])
    requires out == Join(Ups(|Split(f[k + 1..])|))
    ensures Join(Route(a, b)) == out + if k >= 0 then t[k..] else "/" + t
  {
    AgreeTexts(f, t, i, k);
    Parted(a, b, f, t, k, i);
    Regroup(out, "/", t[k + 1..]);
    if k >= 0 {
      FromSeparator(t, k);
    } else {
      assert t[0..] == t;
    }
  }

  /** One of the two directories lies on the way to the other. */
  method OnTheWay(f: string, t: string, ghost a: seq<string>, ghost b: seq<string>) returns (found: bool, r: string)
    requires Texts(a, b, f, t)
    requires (|f| < |t| && t[..|f|] == f) || (|t| < |f| && f[..|t|] == t)
    ensures found ==> r == Join(Route(a, b))
    ensures !found ==> f != "" && t != "" && if |f| < |t| then t[|f|] != SLASH else f[|t|] != SLASH
  {
    TextPieces(a);
    TextPieces(b);
    if |f| < |t| {
      if t[|f|] == SLASH {
        BelowFrom(a, b, f, t);
        return true, t[|f| + 1..];
      }
      if |f| == 0 {
        FromRoot(b);
        return true, t;
      }
    } else if f[|t|] == SLASH {
      AboveFrom(a, b, f, t);
      var up := Climb(f[|t| + 1..]);
      NothingAfter(up, t);
      return true, up + t[|t|..];
    } else if |t| == 0 {
      ToRoot(a, f);
      var up := Climb(f[1..]);
      NothingAfter(up, t);
      return true, up + t[|t|..];
    }
    return false, "";
  }

  lemma TheyPart(f: string, t: string, i: nat, k: int)
    requires Agree(f, t, i, k)
    requires if i < |f| && i < |t| then f[i] != t[i]
             else if i < |t| then t[i] != SLASH else i < |f| && f[i] != SLASH
    ensures Next(f[i..]) != Next(t[i..])
  {}

  /** `relative` once both paths are resolved, different, and without their leading separator. */
  method RelativeTexts(f: string, t: string, ghost a: seq<string>, ghost b: seq<string>) returns (r: string)
    requires Texts(a, b, f, t) && f != t
    ensures r == Join(Route(a, b))
  {
    var i, lastCommonSep := CommonText(f, t);
    AgreeTexts(f, t, i, lastCommonSep);
    if i == |f| || i == |t| {
      var found;
      found, r := OnTheWay(f, t, a, b);
      if found { return; }
    }
    TheyPart(f, t, i, lastCommonSep);
    var out := Climb(f[lastCommonSep + 1..]);
    PartedText(f, t, i, lastCommonSep, a, b, out);
    r := out + if lastCommonSep >= 0 then t[lastCommonSep..] else "/" + t;
  }
}
