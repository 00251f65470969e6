/**
 The pure side of the furthest-point search of `diff`: what the flat `routes` buffer and the
 array `fp` of furthest points mean, and how one phase of the search moves the frontier.

 A grid point (x, y) stands for "the first x entries of A and the first y of B are done";
 its diagonal is x - y. Each route id stands for one grid point, and following `routes`
 from an id walks a path back to the origin, which has id 0.
 */
module DiffFrontier {
  import opened Options
  import opened EditScript
  import opened Sets

  const REMOVED := 1
  const COMMON := 2
  const ADDED := 3

  datatype FarthestPoint = FarthestPoint(y: int, id: int)

  const Unvisited := FarthestPoint(-1, -1)

  /** What a route id stands for: a grid point and the number of matches on the way to it. */
  datatype Node = Node(x: nat, y: nat, common: nat)

  const Origin := Node(0, 0, 0)

  // ----- the route forest

  ghost predicate InGrid(n: Node, columns: nat, rows: nat) {
    n.x <= columns && n.y <= rows
  }

  ghost predicate SamePoint(n: Node, o: Node) {
    n.x == o.x && n.y == o.y
  }

  ghost predicate Distinct(nodes: seq<Node>) {
    forall i, j {:trigger SamePoint(nodes[i], nodes[j])} :: 0 <= i < j < |nodes| ==> !SamePoint(nodes[i], nodes[j])
  }

  /** One edge of the forest: `kind` is the tag stored for `v`, whose back pointer leads to `u`. */
  ghost predicate Step<T>(a: seq<T>, b: seq<T>, u: Node, kind: int, v: Node) {
    || (kind == ADDED && v == Node(u.x + 1, u.y, u.common))
    || (kind == REMOVED && v == Node(u.x, u.y + 1, u.common))
    || (kind == COMMON && u.x < |a| && u.y < |b| && a[u.x] == b[u.y] && v == Node(u.x + 1, u.y + 1, u.common + 1))
  }

  /** What the buffer holds for id i: a back pointer in its first half, a tag in its second. */
  ghost predicate Edge<T>(a: seq<T>, b: seq<T>, nodes: seq<Node>, routes: seq<int>, half: nat, i: nat)
    requires 1 <= i < |nodes| <= half && |routes| == 2 * half
  {
    0 <= routes[i] < i && Step(a, b, nodes[routes[i]], routes[half + i], nodes[i])
  }

  ghost predicate Forest<T>(a: seq<T>, b: seq<T>, nodes: seq<Node>, routes: seq<int>, half: nat) {
    && |routes| == 2 * half
    && 1 <= |nodes| <= half
    && nodes[0] == Origin && routes[0] == 0 && routes[half] == 0
    && forall i :: 1 <= i < |nodes| ==> Edge(a, b, nodes, routes, half, i)
  }

  ghost predicate AllInGrid(nodes: seq<Node>, columns: nat, rows: nat) {
    forall i :: 0 <= i < |nodes| ==> InGrid(nodes[i], columns, rows)
  }

  lemma ForestGrows<T>(a: seq<T>, b: seq<T>, nodes: seq<Node>, routes: seq<int>, half: nat,
                       prev: nat, kind: int, v: Node)
    requires Forest(a, b, nodes, routes, half) && |nodes| < half && prev < |nodes|
    requires Step(a, b, nodes[prev], kind, v)
    ensures Forest(a, b, nodes + [v], routes[|nodes| := prev][|nodes| + half := kind], half)
  {
    var n := |nodes|;
    var grown, routes' := nodes + [v], routes[n := prev][n + half := kind];
    forall i | 1 <= i < |grown| ensures Edge(a, b, grown, routes', half, i) {
      if i < n { assert Edge(a, b, nodes, routes, half, i); }
    }
  }

  /** No step down is directly followed by a slide. */
  ghost predicate Tidy(routes: seq<int>, half: nat, count: nat) {
    && count <= half && |routes| == 2 * half
    && forall i {:trigger TidyAt(routes, half, i)} :: 1 <= i < count ==> TidyAt(routes, half, i)
  }

  ghost predicate TidyAt(routes: seq<int>, half: nat, i: nat)
    requires i < half && |routes| == 2 * half
  {
    0 <= routes[i] < i && (routes[half + i] == ADDED ==> routes[half + routes[i]] != REMOVED)
  }

  lemma TidyGrows(routes: seq<int>, half: nat, count: nat, prev: nat, kind: int)
    requires Tidy(routes, half, count) && prev < count < half
    requires kind == ADDED ==> routes[half + prev] != REMOVED
    ensures Tidy(routes[count := prev][count + half := kind], half, count + 1)
  {
    var routes' := routes[count := prev][count + half := kind];
    forall i | 1 <= i < count + 1 ensures TidyAt(routes', half, i) {
      if i < count { assert TidyAt(routes, half, i); }
    }
  }

  /** Every route in the forest is a path of the grid, so it matches no more than a common subsequence can. */
  lemma {:induction false} PathMatches<T>(a: seq<T>, b: seq<T>, nodes: seq<Node>, routes: seq<int>, half: nat, id: nat)
    requires Forest(a, b, nodes, routes, half) && id < |nodes|
    requires AllInGrid(nodes, |a|, |b|)
    ensures InGrid(nodes[id], |a|, |b|)
    ensures nodes[id].common <= Lcs(a, b, nodes[id].x, nodes[id].y)
  {
    assert InGrid(nodes[id], |a|, |b|);
    if id > 0 {
      assert Edge(a, b, nodes, routes, half, id);
      PathMatches(a, b, nodes, routes, half, routes[id]);
      LcsStep(a, b, nodes[id].x, nodes[id].y);
    }
  }

  /** How many points the grid has. */
  function GridSize(columns: nat, rows: nat): nat {
    if columns == 0 then rows + 1 else GridSize(columns - 1, rows) + (rows + 1)
  }

  lemma {:induction false} GridSizeIsProduct(columns: nat, rows: nat)
    ensures GridSize(columns, rows) == columns * rows + columns + rows + 1
  {
    if columns > 0 {
      GridSizeIsProduct(columns - 1, rows);
      assert columns * rows == (columns - 1) * rows + rows;
    }
  }

  function Points(columns: nat, rows: nat): set<(nat, nat)> {
    set x: nat, y: nat | x <= columns && y <= rows :: (x, y)
  }

  lemma {:induction false} RowCount(x: nat, rows: nat)
    ensures |Column(x, rows)| == rows + 1
  {
    if rows == 0 {
      assert Column(x, rows) == {(x, 0)};
    } else {
      RowCount(x, rows - 1);
      assert Column(x, rows) == Column(x, rows - 1) + {(x, rows)};
    }
  }

  function Column(x: nat, rows: nat): set<(nat, nat)> {
    set y: nat | y <= rows :: (x, y)
  }

  lemma LastColumn(columns: nat, rows: nat)
    ensures Points(columns, rows) ==
            (if columns == 0 then {} else Points(columns - 1, rows)) + Column(columns, rows)
  {
    forall p | p in Points(columns, rows) ensures p.0 < columns || p in Column(columns, rows) {
      if p.0 == columns { assert p == (columns, p.1); }
    }
  }

  lemma {:induction false} PointCount(columns: nat, rows: nat)
    ensures |Points(columns, rows)| == GridSize(columns, rows)
  {
    LastColumn(columns, rows);
    RowCount(columns, rows);
    if columns > 0 {
      PointCount(columns - 1, rows);
      assert Points(columns - 1, rows) !! Column(columns, rows);
    }
  }

  lemma {:induction false} DistinctCount(nodes: seq<Node>)
    requires Distinct(nodes)
    ensures |set n | n in nodes :: (n.x, n.y)| == |nodes|
  {
    var points := set n | n in nodes :: (n.x, n.y);
    if nodes == [] {
      assert points == {};
    } else {
      var k := |nodes| - 1;
      forall i | 0 <= i < k ensures (nodes[i].x, nodes[i].y) != (nodes[k].x, nodes[k].y) {
        assert !SamePoint(nodes[i], nodes[k]);
      }
      assert Distinct(nodes[..k]) by {
        assert forall i, j :: 0 <= i < j < k ==> !SamePoint(nodes[i], nodes[j]);
      }
      DistinctCount(nodes[..k]);
      var rest := set n | n in nodes[..k] :: (n.x, n.y);
      assert nodes == nodes[..k] + [nodes[k]];
      assert points == rest + {(nodes[k].x, nodes[k].y)};
      assert (nodes[k].x, nodes[k].y) !in rest;
    }
  }

  /** No id stands for the grid point of `v` yet. */
  ghost predicate Fresh(nodes: seq<Node>, v: Node) {
    forall i :: 0 <= i < |nodes| ==> !SamePoint(nodes[i], v)
  }

  lemma GrownDistinct(nodes: seq<Node>, v: Node, columns: nat, rows: nat)
    requires Distinct(nodes) && Fresh(nodes, v)
    requires AllInGrid(nodes, columns, rows) && InGrid(v, columns, rows)
    ensures Distinct(nodes + [v]) && AllInGrid(nodes + [v], columns, rows)
  {
    var grown := nodes + [v];
    forall i, j | 0 <= i < j < |grown| ensures !SamePoint(grown[i], grown[j]) {
      if j < |nodes| { assert !SamePoint(nodes[i], nodes[j]); } else { assert !SamePoint(nodes[i], v); }
    }
    forall i | 0 <= i < |grown| ensures InGrid(grown[i], columns, rows) {
      if i < |nodes| { assert InGrid(nodes[i], columns, rows); }
    }
  }

  /** Distinct grid points are no more than the grid has. */
  lemma GridBound(nodes: seq<Node>, columns: nat, rows: nat)
    requires Distinct(nodes)
    requires AllInGrid(nodes, columns, rows)
    ensures |nodes| <= GridSize(columns, rows)
  {
    var points := set n | n in nodes :: (n.x, n.y);
    DistinctCount(nodes);
    PointCount(columns, rows);
    assert points <= Points(columns, rows);
    SubsetSize(points, Points(columns, rows));
  }

  // ----- the furthest points

  function YOf(point: Option<FarthestPoint>): int {
    if point.Some? then point.value.y else -1
  }

  /** `point` is a route to the grid point at height `point.y` of diagonal k. */
  ghost predicate Reached(nodes: seq<Node>, point: FarthestPoint, k: int) {
    && 0 <= point.id < |nodes|
    && nodes[point.id].y == point.y && nodes[point.id].x == point.y + k
  }

  ghost predicate ReachedIfVisited(nodes: seq<Node>, point: Option<FarthestPoint>, k: int) {
    point.Some? && point.value.y >= 0 ==> Reached(nodes, point.value, k)
  }

  /** Entries of B taken without a match, and entries of A taken without a match. */
  function Downs(n: Node): int { n.y - n.common }
  function Slides(n: Node): int { n.x - n.common }

  /** `n` takes so many entries more than the route of `point`. */
  ghost predicate Extends(nodes: seq<Node>, point: Option<FarthestPoint>, n: Node, downs: int, slides: int) {
    match point
    case None => false
    case Some(p) =>
      && 0 <= p.id < |nodes| && p.y >= 0
      && Downs(n) == Downs(nodes[p.id]) + downs && Slides(n) == Slides(nodes[p.id]) + slides
  }

  /** Which of its two neighbours a new point may come from. */
  ghost predicate ComesFrom(nodes: seq<Node>, slide: Option<FarthestPoint>, down: Option<FarthestPoint>, r: FarthestPoint)
    requires 0 <= r.id < |nodes|
  {
    var n := nodes[r.id];
    || (Downs(n) == 0 && Slides(n) == 0)
    || Extends(nodes, slide, n, 0, 1)
    || Extends(nodes, down, n, 1, 0)
  }

  lemma StillComesFrom(nodes: seq<Node>, grown: seq<Node>, slide: Option<FarthestPoint>, down: Option<FarthestPoint>,
                       r: FarthestPoint, r': FarthestPoint)
    requires nodes <= grown && 0 <= r.id < |nodes| && 0 <= r'.id < |grown|
    requires ComesFrom(nodes, slide, down, r)
    requires Downs(grown[r'.id]) == Downs(nodes[r.id]) && Slides(grown[r'.id]) == Slides(nodes[r.id])
    ensures ComesFrom(grown, slide, down, r')
  {}

  /** The first point tried on diagonal k, given the neighbours. */
  function Start(slide: Option<FarthestPoint>, down: Option<FarthestPoint>): int {
    if YOf(slide) > YOf(down) + 1 then YOf(slide) else YOf(down) + 1
  }

  /** Everything recorded so far on diagonal k lies strictly below `y`. */
  ghost predicate Below(nodes: seq<Node>, k: int, y: int) {
    forall i :: 0 <= i < |nodes| && nodes[i].x - nodes[i].y == k ==> nodes[i].y < y
  }

  /**
   When diagonal k may be advanced. `slide` and `down` are the points of diagonals k - 1 and
   k + 1, undefined outside the array, and the new first point is one that no id stands for.
   */
  ghost predicate Ready(nodes: seq<Node>, columns: nat, rows: nat,
                        slide: Option<FarthestPoint>, down: Option<FarthestPoint>, k: int) {
    && ReachedIfVisited(nodes, slide, k - 1) && ReachedIfVisited(nodes, down, k + 1)
    && Start(slide, down) <= rows && Start(slide, down) + k <= columns
    && if YOf(slide) < 0 && YOf(down) < 0 then
         slide.Some? && slide.value.y == -1 && down.Some? && down.value.y == -1 && k == 0 && Below(nodes, 0, 1)
       else
         && Below(nodes, k, Start(slide, down))
         && (down.None? ==> k == columns)
         && (k == columns ==> YOf(slide) >= 0)
         && YOf(slide) >= -1 && YOf(down) >= -1
         && Passed(nodes, k, YOf(down))
  }

  /** Nothing recorded so far on diagonal k lies above `y`. */
  ghost predicate Passed(nodes: seq<Node>, k: int, y: int) {
    forall i :: 0 <= i < |nodes| && nodes[i].x - nodes[i].y == k ==> nodes[i].y <= y
  }

  /** A slide is only taken where the other neighbour is too low, and a step down is never too high for it. */
  lemma SlideIsTidy<T>(a: seq<T>, b: seq<T>, nodes: seq<Node>, routes: seq<int>, half: nat,
                       slide: Option<FarthestPoint>, down: Option<FarthestPoint>, k: int)
    requires Forest(a, b, nodes, routes, half) && AllInGrid(nodes, |a|, |b|)
    requires Ready(nodes, |a|, |b|, slide, down, k) && YOf(slide) >= 0
    requires YOf(down) == -1 || k == |a| || YOf(slide) > YOf(down) + 1
    ensures routes[half + slide.value.id] != REMOVED
  {
    if slide.value.id > 0 { assert Edge(a, b, nodes, routes, half, slide.value.id); }
  }

  /** Nothing further can be matched on diagonal k. */
  ghost predicate Blocked<T>(a: seq<T>, b: seq<T>, y: int, k: int) {
    0 <= y < |b| && 0 <= y + k < |a| ==> a[y + k] != b[y]
  }

  /** Diagonal k has been followed as far as `r`: new ids on that diagonal only, the last of them for `r`. */
  ghost predicate Followed(columns: nat, rows: nat, nodes: seq<Node>, grown: seq<Node>,
                           slide: Option<FarthestPoint>, down: Option<FarthestPoint>, k: int, r: FarthestPoint) {
    && nodes <= grown
    && Start(slide, down) <= r.y <= rows && r.y + k <= columns
    && Reached(grown, r, k) && ComesFrom(grown, slide, down, r)
    && Below(grown, k, r.y + 1)
    && forall i :: |nodes| <= i < |grown| ==> grown[i].x - grown[i].y == k
  }

  lemma OriginCreates(nodes: seq<Node>, columns: nat, rows: nat, slide: Option<FarthestPoint>, down: Option<FarthestPoint>)
    requires nodes != [] && nodes[0] == Origin && Below(nodes, 0, 1) && YOf(slide) == YOf(down) == -1
    ensures Followed(columns, rows, nodes, nodes, slide, down, 0, FarthestPoint(0, 0))
  {}

  lemma SlideCreates<T>(a: seq<T>, b: seq<T>, nodes: seq<Node>,
                        slide: Option<FarthestPoint>, down: Option<FarthestPoint>, k: int, v: Node)
    requires Ready(nodes, |a|, |b|, slide, down, k)
    requires YOf(slide) >= 0 && YOf(slide) >= YOf(down) + 1
    requires v == Node(nodes[slide.value.id].x + 1, nodes[slide.value.id].y, nodes[slide.value.id].common)
    ensures InGrid(v, |a|, |b|) && Fresh(nodes, v) && Step(a, b, nodes[slide.value.id], ADDED, v)
    ensures Followed(|a|, |b|, nodes, nodes + [v], slide, down, k, FarthestPoint(slide.value.y, |nodes|))
  {}

  lemma DownCreates<T>(a: seq<T>, b: seq<T>, nodes: seq<Node>,
                       slide: Option<FarthestPoint>, down: Option<FarthestPoint>, k: int, v: Node)
    requires Ready(nodes, |a|, |b|, slide, down, k)
    requires YOf(down) >= 0 && YOf(slide) <= YOf(down) + 1
    requires v == Node(nodes[down.value.id].x, nodes[down.value.id].y + 1, nodes[down.value.id].common)
    ensures InGrid(v, |a|, |b|) && Fresh(nodes, v) && Step(a, b, nodes[down.value.id], REMOVED, v)
    ensures Followed(|a|, |b|, nodes, nodes + [v], slide, down, k, FarthestPoint(down.value.y + 1, |nodes|))
  {}

  /** One more matching pair on diagonal k. */
  lemma MatchFollows<T>(a: seq<T>, b: seq<T>, nodes: seq<Node>, grown: seq<Node>,
                        slide: Option<FarthestPoint>, down: Option<FarthestPoint>, k: int, r: FarthestPoint, v: Node)
    requires Followed(|a|, |b|, nodes, grown, slide, down, k, r)
    requires 0 <= r.y + k < |a| && 0 <= r.y < |b| && a[r.y + k] == b[r.y]
    requires v == Node(grown[r.id].x + 1, grown[r.id].y + 1, grown[r.id].common + 1)
    ensures InGrid(v, |a|, |b|) && Fresh(grown, v) && Step(a, b, grown[r.id], COMMON, v)
    ensures Followed(|a|, |b|, nodes, grown + [v], slide, down, k, FarthestPoint(r.y + 1, |grown|))
  {
    StillComesFrom(grown, grown + [v], slide, down, r, FarthestPoint(r.y + 1, |grown|));
  }

  /** What advancing diagonal k to `r` did: it was followed up to a blocked point. */
  ghost predicate Snaked<T>(a: seq<T>, b: seq<T>, nodes: seq<Node>, grown: seq<Node>,
                            slide: Option<FarthestPoint>, down: Option<FarthestPoint>, k: int, r: FarthestPoint) {
    Followed(|a|, |b|, nodes, grown, slide, down, k, r) && Blocked(a, b, r.y, k)
  }

  /** The side of a script that stands for the first, or the second, of the two searched sequences. */
  function SideA<T>(swapped: bool, s: seq<DiffResult<T>>): seq<T> {
    if swapped then NewSide(s) else OldSide(s)
  }

  function SideB<T>(swapped: bool, s: seq<DiffResult<T>>): seq<T> {
    if swapped then OldSide(s) else NewSide(s)
  }

  /** `s` is the script of a path from the point of `n` to the far corner. */
  ghost predicate ScriptFrom<T>(a: seq<T>, b: seq<T>, swapped: bool, s: seq<DiffResult<T>>, n: Node, common: int) {
    && InGrid(n, |a|, |b|)
    && SideA(swapped, s) == a[n.x..]
    && SideB(swapped, s) == b[n.y..]
    && Cost(s) == (|a| - n.x) + (|b| - n.y) - 2 * (common - n.common)
  }

  lemma ScriptFromCorner<T>(a: seq<T>, b: seq<T>, swapped: bool, n: Node)
    requires n.x == |a| && n.y == |b|
    ensures ScriptFrom(a, b, swapped, [], n, n.common)
  {}

  /** The entry that `backTrace` makes of a tag. */
  function Entry<T>(a: seq<T>, b: seq<T>, swapped: bool, u: Node, kind: int): DiffResult<T>
    requires kind == REMOVED ==> u.y < |b|
    requires kind != REMOVED ==> u.x < |a|
  {
    if kind == REMOVED then DiffResult(if swapped then Removed else Added, b[u.y])
    else if kind == ADDED then DiffResult(if swapped then Added else Removed, a[u.x])
    else DiffResult(Common, a[u.x])
  }

  /** What `backTrace` makes of a step down, and of a slide. */
  function DownKind(swapped: bool): DiffType { if swapped then Removed else Added }
  function SlideKind(swapped: bool): DiffType { if swapped then Added else Removed }

  /** No entry of a step down is directly followed by one of a slide, in `s` and in what the tag `kind` puts before it. */
  ghost predicate TidyScript<T>(s: seq<DiffResult<T>>, swapped: bool, kind: int) {
    && NeverBefore(s, DownKind(swapped), SlideKind(swapped))
    && (s != [] && s[0].kind == SlideKind(swapped) ==> kind != REMOVED)
  }

  lemma EmptyScript<T>(swapped: bool, kind: int)
    ensures TidyScript<T>([], swapped, kind)
  {}

  lemma TidyBack<T>(routes: seq<int>, half: nat, count: nat, cur: nat, s: seq<DiffResult<T>>, swapped: bool, e: DiffResult<T>)
    requires Tidy(routes, half, count) && 0 < cur < count && TidyScript(s, swapped, routes[half + cur])
    requires routes[half + cur] in {ADDED, REMOVED, COMMON}
    requires e.kind == if routes[half + cur] == REMOVED then DownKind(swapped)
                       else if routes[half + cur] == ADDED then SlideKind(swapped) else Common
    ensures 0 <= routes[cur] < cur && TidyScript([e] + s, swapped, routes[half + routes[cur]])
  {
    assert TidyAt(routes, half, cur);
  }

  lemma PrependEntry<T>(a: seq<T>, b: seq<T>, swapped: bool, s: seq<DiffResult<T>>, u: Node, kind: int)
    requires kind == REMOVED ==> u.y < |b|
    requires kind != REMOVED ==> u.x < |a|
    requires kind == REMOVED || kind == ADDED || (kind == COMMON && u.y < |b| && a[u.x] == b[u.y])
    ensures var t := [Entry(a, b, swapped, u, kind)] + s;
            && SideA(swapped, t) == (if kind == REMOVED then SideA(swapped, s) else [a[u.x]] + SideA(swapped, s))
            && SideB(swapped, t) == (if kind == ADDED then SideB(swapped, s) else [b[u.y]] + SideB(swapped, s))
            && Cost(t) == Cost(s) + if kind == COMMON then 0 else 1
  {
    var e := Entry(a, b, swapped, u, kind);
    PrependOld(e, s);
    PrependNew(e, s);
    PrependCost(e, s);
  }

  lemma Suffix<T>(s: seq<T>, i: nat)
    requires i < |s|
    ensures s[i..] == [s[i]] + s[i + 1..]
  {}

  lemma ScriptFromPrevious<T>(a: seq<T>, b: seq<T>, swapped: bool, s: seq<DiffResult<T>>,
                              u: Node, kind: int, v: Node, common: int)
    requires ScriptFrom(a, b, swapped, s, v, common)
    requires Step(a, b, u, kind, v)
    ensures ScriptFrom(a, b, swapped, [Entry(a, b, swapped, u, kind)] + s, u, common)
  {
    PrependEntry(a, b, swapped, s, u, kind);
    if kind != REMOVED { Suffix(a, u.x); }
    if kind != ADDED { Suffix(b, u.y); }
  }

  /** One step of the walk back: what the buffer holds for `cur` leads to an earlier id and extends the script. */
  lemma WalkBack<T>(a: seq<T>, b: seq<T>, nodes: seq<Node>, routes: seq<int>, half: nat, swapped: bool,
                    s: seq<DiffResult<T>>, cur: nat, common: int)
    requires Forest(a, b, nodes, routes, half) && 0 < cur < |nodes|
    requires ScriptFrom(a, b, swapped, s, nodes[cur], common)
    ensures 0 <= routes[cur] < cur
    ensures var u, v, kind := nodes[routes[cur]], nodes[cur], routes[half + cur];
            && kind in {ADDED, REMOVED, COMMON}
            && v.x == u.x + (if kind == REMOVED then 0 else 1) <= |a|
            && v.y == u.y + (if kind == ADDED then 0 else 1) <= |b|
            && ScriptFrom(a, b, swapped, [Entry(a, b, swapped, u, kind)] + s, u, common)
  {
    assert Edge(a, b, nodes, routes, half, cur);
    ScriptFromPrevious(a, b, swapped, s, nodes[routes[cur]], routes[half + cur], nodes[cur], common);
  }

  /** Only id 0 carries no tag. */
  lemma NoTag<T>(a: seq<T>, b: seq<T>, nodes: seq<Node>, routes: seq<int>, half: nat, cur: nat)
    requires Forest(a, b, nodes, routes, half) && cur < |nodes|
    ensures routes[half + cur] == 0 ==> cur == 0
  {
    if cur > 0 { assert Edge(a, b, nodes, routes, half, cur); }
  }

  lemma ScriptFromOrigin<T>(a: seq<T>, b: seq<T>, swapped: bool, s: seq<DiffResult<T>>, common: int)
    requires ScriptFrom(a, b, swapped, s, Origin, common)
    ensures if swapped then Transforms(s, b, a) else Transforms(s, a, b)
    ensures Cost(s) == |a| + |b| - 2 * common
  {
    assert a[0..] == a && b[0..] == b;
  }

  // ----- the frontier after a phase, and how a phase moves it

  /** The entry of `f` for diagonal k; undefined outside the array. */
  function At(f: seq<FarthestPoint>, rows: nat, k: int): Option<FarthestPoint> {
    if 0 <= k + rows < |f| then Some(f[k + rows]) else None
  }

  /** Height reached on diagonal k; -1 when the diagonal is unvisited or outside the array. */
  function Y(f: seq<FarthestPoint>, rows: nat, k: int): int {
    YOf(At(f, rows, k))
  }

  predicate OnGrid(columns: nat, rows: nat, k: int) {
    0 <= k + rows <= columns + rows
  }

  /** The diagonals that phase p touches; none before phase 0. */
  predicate Active(columns: nat, rows: nat, p: int, k: int) {
    0 <= p && -p <= k <= columns - rows + p
  }

  /** The compressed cost of a path: the number of phases it takes to find it. */
  function PhaseCost(n: Node, delta: int): int {
    if n.x - n.y <= delta then Downs(n) else Slides(n) - delta
  }

  /** Diagonal k holds a real, fully extended path of compressed cost at most p. */
  ghost predicate Settled<T>(a: seq<T>, b: seq<T>, nodes: seq<Node>, f: seq<FarthestPoint>, p: int, k: int)
    requires |f| == |a| + |b| + 1
  {
    && OnGrid(|a|, |b|, k)
    && var r := f[k + |b|];
    && 0 <= r.y <= |b| && r.y + k <= |a|
    && Reached(nodes, r, k)
    && Blocked(a, b, r.y, k)
    && PhaseCost(nodes[r.id], |a| - |b|) <= p
  }

  /** Every recorded point lies at or below the height reached on its diagonal. */
  ghost predicate Covers(nodes: seq<Node>, f: seq<FarthestPoint>, rows: nat) {
    forall i :: 0 <= i < |nodes| ==>
      nodes[i].y <= Y(f, rows, nodes[i].x - nodes[i].y) || (nodes == [Origin] && Y(f, rows, 0) == -1)
  }

  /** Some path of compressed cost at most p leads to (x, y). */
  ghost predicate Payable<T>(a: seq<T>, b: seq<T>, p: int, x: nat, y: nat) {
    && x <= |a| && y <= |b|
    && y - Lcs(a, b, x, y) <= p && x - Lcs(a, b, x, y) - (|a| - |b|) <= p
  }

  /** No point that a path of compressed cost at most p can reach lies beyond the frontier. */
  ghost predicate Dominates<T>(a: seq<T>, b: seq<T>, f: seq<FarthestPoint>, p: int) {
    forall x: nat, y: nat :: Payable(a, b, p, x, y) ==> y <= Y(f, |b|, x - y)
  }

  /** Around diagonal k, heights rise towards the diagonal of the far corner. */
  ghost predicate Slope(f: seq<FarthestPoint>, columns: nat, rows: nat, k: int) {
    var delta := columns - rows;
    && (k <= delta ==> Y(f, rows, k - 1) <= Y(f, rows, k) <= Y(f, rows, delta))
    && (k > delta && Y(f, rows, k) >= 0 ==>
          && Y(f, rows, k) + 1 <= Y(f, rows, k - 1)
          && Y(f, rows, k) + (k - delta) <= Y(f, rows, delta))
  }

  ghost predicate Ridge(f: seq<FarthestPoint>, columns: nat, rows: nat) {
    forall k {:trigger Slope(f, columns, rows, k)} :: Slope(f, columns, rows, k)
  }

  ghost predicate FrontEntry<T>(a: seq<T>, b: seq<T>, nodes: seq<Node>, f: seq<FarthestPoint>, p: int, k: int)
    requires |f| == |a| + |b| + 1 && OnGrid(|a|, |b|, k)
  {
    if Active(|a|, |b|, p, k) then Settled(a, b, nodes, f, p, k) else f[k + |b|] == Unvisited
  }

  ghost predicate Frontier<T>(a: seq<T>, b: seq<T>, nodes: seq<Node>, f: seq<FarthestPoint>, p: int) {
    && |f| == |a| + |b| + 1
    && (forall k {:trigger FrontEntry(a, b, nodes, f, p, k)} ::
          OnGrid(|a|, |b|, k) ==> FrontEntry(a, b, nodes, f, p, k))
    && Covers(nodes, f, |b|)
    && Ridge(f, |a|, |b|)
    && Dominates(a, b, f, p)
  }

  /** What advancing diagonal k in a phase that started from g makes of it. */
  ghost predicate Pushed(f: seq<FarthestPoint>, g: seq<FarthestPoint>, columns: nat, rows: nat, k: int) {
    var delta := columns - rows;
    && (if k <= delta then Y(f, rows, k - 1) else Y(g, rows, k - 1)) <= Y(f, rows, k)
    && (if k < delta then Y(g, rows, k + 1) else Y(f, rows, k + 1)) < Y(f, rows, k)
  }

  /** In phase p, the diagonals below `lo` and above `hi` have been advanced. */
  predicate Updated(columns: nat, rows: nat, p: int, lo: int, hi: int, k: int) {
    Active(columns, rows, p, k) && (k < lo || hi < k)
  }

  ghost predicate MidEntry<T>(a: seq<T>, b: seq<T>, nodes: seq<Node>, f: seq<FarthestPoint>, g: seq<FarthestPoint>,
                              p: int, lo: int, hi: int, k: int)
    requires |f| == |g| == |a| + |b| + 1 && OnGrid(|a|, |b|, k)
  {
    if Updated(|a|, |b|, p, lo, hi, k) then
      Settled(a, b, nodes, f, p, k) && Pushed(f, g, |a|, |b|, k)
    else
      && f[k + |b|] == g[k + |b|]
      && if Active(|a|, |b|, p - 1, k) then Settled(a, b, nodes, f, p - 1, k) else f[k + |b|] == Unvisited
  }

  ghost predicate MidPhase<T>(a: seq<T>, b: seq<T>, nodes: seq<Node>, f: seq<FarthestPoint>, g: seq<FarthestPoint>,
                              p: int, lo: int, hi: int) {
    && |f| == |g| == |a| + |b| + 1
    && (forall k {:trigger MidEntry(a, b, nodes, f, g, p, lo, hi, k)} ::
          OnGrid(|a|, |b|, k) ==> MidEntry(a, b, nodes, f, g, p, lo, hi, k))
    && Covers(nodes, f, |b|)
  }

  lemma InitialFrontier<T>(a: seq<T>, b: seq<T>, f: seq<FarthestPoint>)
    requires |f| == |a| + |b| + 1
    requires forall i :: 0 <= i < |f| ==> f[i] == Unvisited
    ensures Frontier(a, b, [Origin], f, -1)
  {
    forall x: nat, y: nat | Payable(a, b, -1, x, y) ensures false {
      LcsBound(a, b, x, y);
    }
  }

  lemma StartPhase<T>(a: seq<T>, b: seq<T>, nodes: seq<Node>, g: seq<FarthestPoint>, p: int, lo: int, hi: int)
    requires Frontier(a, b, nodes, g, p - 1)
    requires 0 <= p && lo == -p && hi == |a| - |b| + p
    ensures MidPhase(a, b, nodes, g, g, p, lo, hi)
  {
    forall k | OnGrid(|a|, |b|, k) ensures MidEntry(a, b, nodes, g, g, p, lo, hi, k) {
      assert FrontEntry(a, b, nodes, g, p - 1, k);
    }
  }

  lemma EntryFacts<T>(a: seq<T>, b: seq<T>, nodes: seq<Node>, f: seq<FarthestPoint>, g: seq<FarthestPoint>,
                      p: int, lo: int, hi: int, j: int)
    requires MidPhase(a, b, nodes, f, g, p, lo, hi) && OnGrid(|a|, |b|, j)
    ensures -1 <= Y(f, |b|, j) <= |b| && ReachedIfVisited(nodes, At(f, |b|, j), j)
    ensures 0 <= Y(f, |b|, j) <==> Updated(|a|, |b|, p, lo, hi, j) || Active(|a|, |b|, p - 1, j)
    ensures 0 <= Y(f, |b|, j) ==> Y(f, |b|, j) + j <= |a|
    ensures if Updated(|a|, |b|, p, lo, hi, j) then Pushed(f, g, |a|, |b|, j) else Y(f, |b|, j) == Y(g, |b|, j)
  {
    assert MidEntry(a, b, nodes, f, g, p, lo, hi, j);
  }

  /**
   The next diagonal of a phase may always be advanced. This is where the grid bounds come
   from, and why the undefined neighbours at both ends of the array are never followed.
   */
  lemma LeftReady<T>(a: seq<T>, b: seq<T>, nodes: seq<Node>, f: seq<FarthestPoint>, g: seq<FarthestPoint>,
                     p: int, k: int, hi: int)
    requires 0 <= p <= |b| <= |a| && 0 < |b|
    requires Ridge(g, |a|, |b|) && Y(g, |b|, |a| - |b|) < |b|
    requires MidPhase(a, b, nodes, f, g, p, k, hi)
    requires -p <= k < |a| - |b| <= hi
    ensures Ready(nodes, |a|, |b|, At(f, |b|, k - 1), At(f, |b|, k + 1), k)
    ensures Y(f, |b|, k) < Start(At(f, |b|, k - 1), At(f, |b|, k + 1)) && (Y(f, |b|, 0) == -1 ==> k == 0)
  {
    if OnGrid(|a|, |b|, k - 1) { EntryFacts(a, b, nodes, f, g, p, k, hi, k - 1); }
    EntryFacts(a, b, nodes, f, g, p, k, hi, k);
    EntryFacts(a, b, nodes, f, g, p, k, hi, k + 1);
    EntryFacts(a, b, nodes, f, g, p, k, hi, 0);
    assert Slope(g, |a|, |b|, k) && Slope(g, |a|, |b|, k + 1);
  }

  lemma RightReady<T>(a: seq<T>, b: seq<T>, nodes: seq<Node>, f: seq<FarthestPoint>, g: seq<FarthestPoint>,
                      p: int, lo: int, k: int)
    requires 0 <= p <= |b| <= |a| && 0 < |b|
    requires Ridge(g, |a|, |b|) && Y(g, |b|, |a| - |b|) < |b|
    requires MidPhase(a, b, nodes, f, g, p, lo, k)
    requires lo == |a| - |b| < k <= |a| - |b| + p
    ensures Ready(nodes, |a|, |b|, At(f, |b|, k - 1), At(f, |b|, k + 1), k)
    ensures Y(f, |b|, k) < Start(At(f, |b|, k - 1), At(f, |b|, k + 1)) && (Y(f, |b|, 0) == -1 ==> k == 0)
  {
    EntryFacts(a, b, nodes, f, g, p, lo, k, k - 1);
    EntryFacts(a, b, nodes, f, g, p, lo, k, k);
    if OnGrid(|a|, |b|, k + 1) { EntryFacts(a, b, nodes, f, g, p, lo, k, k + 1); }
    EntryFacts(a, b, nodes, f, g, p, lo, k, 0);
    assert Slope(g, |a|, |b|, k - 1) && Slope(g, |a|, |b|, k);
  }

  lemma MiddleReady<T>(a: seq<T>, b: seq<T>, nodes: seq<Node>, f: seq<FarthestPoint>, g: seq<FarthestPoint>,
                       p: int, k: int)
    requires 0 <= p <= |b| <= |a| && 0 < |b|
    requires MidPhase(a, b, nodes, f, g, p, k, k)
    requires k == |a| - |b|
    ensures Ready(nodes, |a|, |b|, At(f, |b|, k - 1), At(f, |b|, k + 1), k)
    ensures Y(f, |b|, k) < Start(At(f, |b|, k - 1), At(f, |b|, k + 1)) && (Y(f, |b|, 0) == -1 ==> k == 0)
  {
    EntryFacts(a, b, nodes, f, g, p, k, k, k - 1);
    EntryFacts(a, b, nodes, f, g, p, k, k, k);
    EntryFacts(a, b, nodes, f, g, p, k, k, k + 1);
    EntryFacts(a, b, nodes, f, g, p, k, k, 0);
  }

  /** The order of a phase: left diagonals upwards, right diagonals downwards, the middle one last. */
  predicate OneStep(delta: int, k: int, lo: int, hi: int, lo': int, hi': int) {
    || (k < delta && lo == k && hi >= delta && lo' == k + 1 && hi' == hi)
    || (k > delta && hi == k && lo == delta && hi' == k - 1 && lo' == lo)
    || (k == delta && lo == hi == k && lo' == k + 1 && hi' == k)
  }

  lemma StepReady<T>(a: seq<T>, b: seq<T>, nodes: seq<Node>, f: seq<FarthestPoint>, g: seq<FarthestPoint>,
                     p: int, k: int, lo: int, hi: int, lo': int, hi': int)
    requires 0 <= p <= |b| <= |a| && 0 < |b|
    requires Ridge(g, |a|, |b|) && Y(g, |b|, |a| - |b|) < |b|
    requires MidPhase(a, b, nodes, f, g, p, lo, hi)
    requires OneStep(|a| - |b|, k, lo, hi, lo', hi') && Active(|a|, |b|, p, k)
    ensures Ready(nodes, |a|, |b|, At(f, |b|, k - 1), At(f, |b|, k + 1), k)
    ensures Y(f, |b|, k) < Start(At(f, |b|, k - 1), At(f, |b|, k + 1)) && (Y(f, |b|, 0) == -1 ==> k == 0)
  {
    if k < |a| - |b| {
      LeftReady(a, b, nodes, f, g, p, k, hi);
    } else if k > |a| - |b| {
      RightReady(a, b, nodes, f, g, p, lo, k);
    } else {
      MiddleReady(a, b, nodes, f, g, p, k);
    }
  }

  lemma OtherEntry<T>(a: seq<T>, b: seq<T>, nodes: seq<Node>, grown: seq<Node>,
                      f: seq<FarthestPoint>, g: seq<FarthestPoint>, r: FarthestPoint,
                      p: int, k: int, lo: int, hi: int, lo': int, hi': int, j: int)
    requires |f| == |g| == |a| + |b| + 1 && |b| <= |a|
    requires OneStep(|a| - |b|, k, lo, hi, lo', hi') && Active(|a|, |b|, p, k)
    requires OnGrid(|a|, |b|, k) && OnGrid(|a|, |b|, j) && j != k && nodes <= grown
    requires MidEntry(a, b, nodes, f, g, p, lo, hi, j)
    ensures MidEntry(a, b, grown, f[k + |b| := r], g, p, lo', hi', j)
  {
    var f' := f[k + |b| := r];
    assert Y(f', |b|, j) == Y(f, |b|, j);
    assert j - 1 != k ==> Y(f', |b|, j - 1) == Y(f, |b|, j - 1);
    assert j + 1 != k ==> Y(f', |b|, j + 1) == Y(f, |b|, j + 1);
  }

  lemma StillCovers(nodes: seq<Node>, grown: seq<Node>, f: seq<FarthestPoint>, r: FarthestPoint, rows: nat, k: int)
    requires Covers(nodes, f, rows) && 0 <= k + rows < |f| && nodes <= grown
    requires Y(f, rows, k) <= r.y && Below(grown, k, r.y + 1)
    requires Y(f, rows, 0) == -1 ==> k == 0 && r.y >= 0
    requires forall i :: |nodes| <= i < |grown| ==> grown[i].x - grown[i].y == k
    ensures Covers(grown, f[k + rows := r], rows)
  {
    var f' := f[k + rows := r];
    forall i | 0 <= i < |grown| ensures grown[i].y <= Y(f', rows, grown[i].x - grown[i].y) {
      var j := grown[i].x - grown[i].y;
      if j != k {
        assert i < |nodes| && grown[i] == nodes[i];
        assert Y(f', rows, j) == Y(f, rows, j);
      }
    }
  }

  /** Advancing a diagonal by `Snake` is one step of the phase. */
  lemma Advanced<T>(a: seq<T>, b: seq<T>, nodes: seq<Node>, grown: seq<Node>,
                    f: seq<FarthestPoint>, g: seq<FarthestPoint>, r: FarthestPoint,
                    p: int, k: int, lo: int, hi: int, lo': int, hi': int)
    requires 0 <= p <= |b| <= |a| && 0 < |b|
    requires MidPhase(a, b, nodes, f, g, p, lo, hi)
    requires OneStep(|a| - |b|, k, lo, hi, lo', hi') && Active(|a|, |b|, p, k)
    requires Ridge(g, |a|, |b|) && Y(g, |b|, |a| - |b|) < |b|
    requires Snaked(a, b, nodes, grown, At(f, |b|, k - 1), At(f, |b|, k + 1), k, r)
    ensures MidPhase(a, b, grown, f[k + |b| := r], g, p, lo', hi')
  {
    var f' := f[k + |b| := r];
    forall j | OnGrid(|a|, |b|, j) ensures MidEntry(a, b, grown, f', g, p, lo', hi', j) {
      if j == k {
        AdvancedEntry(a, b, nodes, grown, f, g, r, p, k, lo, hi, lo', hi');
      } else {
        assert MidEntry(a, b, nodes, f, g, p, lo, hi, j);
        OtherEntry(a, b, nodes, grown, f, g, r, p, k, lo, hi, lo', hi', j);
      }
    }
    AdvancedCovers(a, b, nodes, grown, f, g, r, p, k, lo, hi, lo', hi');
  }

  lemma AdvancedCovers<T>(a: seq<T>, b: seq<T>, nodes: seq<Node>, grown: seq<Node>,
                          f: seq<FarthestPoint>, g: seq<FarthestPoint>, r: FarthestPoint,
                          p: int, k: int, lo: int, hi: int, lo': int, hi': int)
    requires 0 <= p <= |b| <= |a| && 0 < |b|
    requires MidPhase(a, b, nodes, f, g, p, lo, hi)
    requires OneStep(|a| - |b|, k, lo, hi, lo', hi') && Active(|a|, |b|, p, k)
    requires Ridge(g, |a|, |b|) && Y(g, |b|, |a| - |b|) < |b|
    requires Snaked(a, b, nodes, grown, At(f, |b|, k - 1), At(f, |b|, k + 1), k, r)
    ensures Covers(grown, f[k + |b| := r], |b|)
  {
    StepReady(a, b, nodes, f, g, p, k, lo, hi, lo', hi');
    StillCovers(nodes, grown, f, r, |b|, k);
  }

  lemma AdvancedEntry<T>(a: seq<T>, b: seq<T>, nodes: seq<Node>, grown: seq<Node>,
                         f: seq<FarthestPoint>, g: seq<FarthestPoint>, r: FarthestPoint,
                         p: int, k: int, lo: int, hi: int, lo': int, hi': int)
    requires 0 <= p <= |b| <= |a| && 0 < |b|
    requires MidPhase(a, b, nodes, f, g, p, lo, hi)
    requires OneStep(|a| - |b|, k, lo, hi, lo', hi') && Active(|a|, |b|, p, k)
    requires Snaked(a, b, nodes, grown, At(f, |b|, k - 1), At(f, |b|, k + 1), k, r)
    ensures MidEntry(a, b, grown, f[k + |b| := r], g, p, lo', hi', k)
  {
    AdvancedCost(a, b, nodes, grown, f, g, r, p, k, lo, hi, lo', hi');
    AdvancedPushes(a, b, nodes, f, g, r, p, k, lo, hi, lo', hi');
    SettledEntry(a, b, grown, f[k + |b| := r], g, r, p, k, lo', hi');
  }

  lemma SettledEntry<T>(a: seq<T>, b: seq<T>, grown: seq<Node>,
                         f: seq<FarthestPoint>, g: seq<FarthestPoint>, r: FarthestPoint,
                         p: int, k: int, lo: int, hi: int)
    requires |f| == |g| == |a| + |b| + 1 && OnGrid(|a|, |b|, k)
    requires Updated(|a|, |b|, p, lo, hi, k) && f[k + |b|] == r
    requires 0 <= r.y <= |b| && r.y + k <= |a|
    requires Reached(grown, r, k) && Blocked(a, b, r.y, k)
    requires PhaseCost(grown[r.id], |a| - |b|) <= p && Pushed(f, g, |a|, |b|, k)
    ensures MidEntry(a, b, grown, f, g, p, lo, hi, k)
  {}

  lemma AdvancedPushes<T>(a: seq<T>, b: seq<T>, nodes: seq<Node>,
                          f: seq<FarthestPoint>, g: seq<FarthestPoint>, r: FarthestPoint,
                          p: int, k: int, lo: int, hi: int, lo': int, hi': int)
    requires MidPhase(a, b, nodes, f, g, p, lo, hi)
    requires OneStep(|a| - |b|, k, lo, hi, lo', hi') && OnGrid(|a|, |b|, k)
    requires Start(At(f, |b|, k - 1), At(f, |b|, k + 1)) <= r.y && 0 <= r.y
    ensures Pushed(f[k + |b| := r], g, |a|, |b|, k)
  {
    var f' := f[k + |b| := r];
    if OnGrid(|a|, |b|, k - 1) { EntryFacts(a, b, nodes, f, g, p, lo, hi, k - 1); }
    if OnGrid(|a|, |b|, k + 1) { EntryFacts(a, b, nodes, f, g, p, lo, hi, k + 1); }
    assert Y(f', |b|, k - 1) == Y(f, |b|, k - 1) && Y(f', |b|, k + 1) == Y(f, |b|, k + 1);
  }

  /** The new path costs at most one phase more than the neighbour it comes from, if that is from the last phase. */
  lemma AdvancedCost<T>(a: seq<T>, b: seq<T>, nodes: seq<Node>, grown: seq<Node>,
                        f: seq<FarthestPoint>, g: seq<FarthestPoint>, r: FarthestPoint,
                        p: int, k: int, lo: int, hi: int, lo': int, hi': int)
    requires 0 <= p <= |b| <= |a| && 0 < |b|
    requires MidPhase(a, b, nodes, f, g, p, lo, hi)
    requires OneStep(|a| - |b|, k, lo, hi, lo', hi') && Active(|a|, |b|, p, k)
    requires nodes <= grown
    requires Reached(grown, r, k) && ComesFrom(grown, At(f, |b|, k - 1), At(f, |b|, k + 1), r)
    ensures PhaseCost(grown[r.id], |a| - |b|) <= p
  {
    assert k - 1 + |b| >= 0 ==> MidEntry(a, b, nodes, f, g, p, lo, hi, k - 1);
    assert k + 1 <= |a| ==> MidEntry(a, b, nodes, f, g, p, lo, hi, k + 1);
  }

  // ----- the end of a phase

  /** The ridge, one neighbour at a time. */
  ghost predicate Rises(f: seq<FarthestPoint>, rows: nat, delta: int, k: int) {
    && (k <= delta ==> Y(f, rows, k - 1) <= Y(f, rows, k))
    && (k > delta && Y(f, rows, k) >= 0 ==> Y(f, rows, k) + 1 <= Y(f, rows, k - 1))
  }

  lemma {:induction false} LeftRidge(f: seq<FarthestPoint>, rows: nat, delta: int, k: int)
    requires forall j {:trigger Rises(f, rows, delta, j)} :: Rises(f, rows, delta, j)
    requires k <= delta
    ensures Y(f, rows, k) <= Y(f, rows, delta)
    decreases delta - k
  {
    if k < delta {
      LeftRidge(f, rows, delta, k + 1);
      assert Rises(f, rows, delta, k + 1);
    }
  }

  lemma {:induction false} RightRidge(f: seq<FarthestPoint>, rows: nat, delta: int, k: int)
    requires forall j {:trigger Rises(f, rows, delta, j)} :: Rises(f, rows, delta, j)
    requires delta <= k && Y(f, rows, k) >= 0
    ensures Y(f, rows, k) + (k - delta) <= Y(f, rows, delta)
    decreases k - delta
  {
    if delta < k {
      assert Rises(f, rows, delta, k);
      RightRidge(f, rows, delta, k - 1);
    }
  }

  lemma PhaseRises<T>(a: seq<T>, b: seq<T>, nodes: seq<Node>, f: seq<FarthestPoint>, g: seq<FarthestPoint>,
                      p: int, k: int)
    requires 0 <= p <= |b| <= |a|
    requires MidPhase(a, b, nodes, f, g, p, |a| - |b| + 1, |a| - |b|)
    ensures Rises(f, |b|, |a| - |b|, k)
  {
    var delta := |a| - |b|;
    if OnGrid(|a|, |b|, k) { EntryFacts(a, b, nodes, f, g, p, delta + 1, delta, k); }
    if OnGrid(|a|, |b|, k - 1) { EntryFacts(a, b, nodes, f, g, p, delta + 1, delta, k - 1); }
  }

  lemma PhaseRidge<T>(a: seq<T>, b: seq<T>, nodes: seq<Node>, f: seq<FarthestPoint>, g: seq<FarthestPoint>, p: int)
    requires 0 <= p <= |b| <= |a|
    requires MidPhase(a, b, nodes, f, g, p, |a| - |b| + 1, |a| - |b|)
    ensures Ridge(f, |a|, |b|)
  {
    var delta := |a| - |b|;
    forall k ensures Rises(f, |b|, delta, k) { PhaseRises(a, b, nodes, f, g, p, k); }
    forall k ensures Slope(f, |a|, |b|, k) {
      assert Rises(f, |b|, delta, k);
      if k <= delta { LeftRidge(f, |b|, delta, k); }
      if k > delta && Y(f, |b|, k) >= 0 { RightRidge(f, |b|, delta, k); }
    }
  }

  /** Diagonal k has been advanced past its neighbours, to a point where nothing more matches. */
  ghost predicate PushedAt<T>(a: seq<T>, b: seq<T>, f: seq<FarthestPoint>, g: seq<FarthestPoint>, k: int) {
    Pushed(f, g, |a|, |b|, k) && 0 <= Y(f, |b|, k) && Blocked(a, b, Y(f, |b|, k), k)
  }

  ghost predicate AllPushed<T>(a: seq<T>, b: seq<T>, f: seq<FarthestPoint>, g: seq<FarthestPoint>, p: int) {
    forall k {:trigger PushedAt(a, b, f, g, k)} :: Active(|a|, |b|, p, k) ==> PushedAt(a, b, f, g, k)
  }

  /** The last step of a cheapest path: a match, or one on a path that is already paid for. */
  lemma PaidBefore<T>(a: seq<T>, b: seq<T>, p: int, x: nat, y: nat)
    requires Payable(a, b, p, x, y) && x + y > 0
    ensures if x > 0 && y > 0 && a[x - 1] == b[y - 1] then Payable(a, b, p, x - 1, y - 1)
            else || (x > 0 && Payable(a, b, if x - y <= |a| - |b| then p else p - 1, x - 1, y))
                 || (y > 0 && Payable(a, b, if x - y < |a| - |b| then p - 1 else p, x, y - 1))
  {
    if x > 0 && Lcs(a, b, x, y) == Lcs(a, b, x - 1, y) {
    } else if y > 0 && !(x > 0 && a[x - 1] == b[y - 1]) {
      assert Lcs(a, b, x, y) == Lcs(a, b, x, y - 1);
    }
  }

  lemma PaidDiagonal<T>(a: seq<T>, b: seq<T>, p: int, x: nat, y: nat)
    requires 0 <= p <= |b| <= |a| && Payable(a, b, p, x, y)
    ensures Active(|a|, |b|, p, x - y)
  {
    LcsBound(a, b, x, y);
  }

  /** A phase keeps the frontier ahead of every path it has paid for. */
  lemma {:induction false} PhaseDominates<T>(a: seq<T>, b: seq<T>, f: seq<FarthestPoint>, g: seq<FarthestPoint>,
                                             p: int, x: nat, y: nat)
    requires 0 <= p <= |b| <= |a|
    requires AllPushed(a, b, f, g, p) && Dominates(a, b, g, p - 1)
    requires Payable(a, b, p, x, y)
    ensures y <= Y(f, |b|, x - y)
    decreases x + y
  {
    PaidDiagonal(a, b, p, x, y);
    assert PushedAt(a, b, f, g, x - y);
    if x + y > 0 {
      PaidBefore(a, b, p, x, y);
      if x > 0 && y > 0 && a[x - 1] == b[y - 1] {
        PhaseDominates(a, b, f, g, p, x - 1, y - 1);
      } else if x > 0 && x - y <= |a| - |b| && Payable(a, b, p, x - 1, y) {
        PhaseDominates(a, b, f, g, p, x - 1, y);
      } else if y > 0 && x - y >= |a| - |b| && Payable(a, b, p, x, y - 1) {
        PhaseDominates(a, b, f, g, p, x, y - 1);
      }
    }
  }

  lemma EndPhase<T>(a: seq<T>, b: seq<T>, nodes: seq<Node>, f: seq<FarthestPoint>, g: seq<FarthestPoint>, p: int)
    requires 0 <= p <= |b| <= |a|
    requires MidPhase(a, b, nodes, f, g, p, |a| - |b| + 1, |a| - |b|)
    requires Dominates(a, b, g, p - 1)
    ensures Frontier(a, b, nodes, f, p)
  {
    PhaseRidge(a, b, nodes, f, g, p);
    forall k | OnGrid(|a|, |b|, k) ensures FrontEntry(a, b, nodes, f, p, k) {
      assert MidEntry(a, b, nodes, f, g, p, |a| - |b| + 1, |a| - |b|, k);
    }
    forall k | Active(|a|, |b|, p, k) ensures PushedAt(a, b, f, g, k) {
      assert MidEntry(a, b, nodes, f, g, p, |a| - |b| + 1, |a| - |b|, k);
    }
    forall x: nat, y: nat | Payable(a, b, p, x, y) ensures y <= Y(f, |b|, x - y) {
      PhaseDominates(a, b, f, g, p, x, y);
    }
  }

  /** An unfinished search has not yet paid for the far corner, so phase |b| is the last at the latest. */
  lemma CornerNotPaid<T>(a: seq<T>, b: seq<T>, f: seq<FarthestPoint>, p: int)
    requires |b| <= |a| && Dominates(a, b, f, p) && Y(f, |b|, |a| - |b|) < |b|
    ensures p < |b| - LcsLength(a, b)
  {
    assert !Payable(a, b, p, |a|, |b|);
  }

  /** Once the corner is reached, its route is no dearer than the phases run. */
  lemma CornerReached<T>(a: seq<T>, b: seq<T>, nodes: seq<Node>, f: seq<FarthestPoint>, p: int)
    requires 0 < |b| <= |a| && Frontier(a, b, nodes, f, p) && f[|a|].y >= |b|
    ensures f[|a|].y == |b| && Reached(nodes, f[|a|], |a| - |b|)
    ensures |b| - nodes[f[|a|].id].common <= p
  {
    assert FrontEntry(a, b, nodes, f, p, |a| - |b|);
  }
}
