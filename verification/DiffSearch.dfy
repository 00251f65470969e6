/**
 The search itself, as `diff` runs it: mutable furthest points, one preallocated buffer for
 the routes, and the loops over phases and diagonals.
 */
module DiffSearch {
  import opened Options
  import opened EditScript
  import opened DiffFrontier

  class Differ<T(==)> {
    const A: seq<T>
    const B: seq<T>
    const M: nat
    const N: nat
    const half: nat
    const fp: array<FarthestPoint>
    const routes: array<int>
    var ptr: nat
    ghost var nodes: seq<Node>            // what each id stands for
    ghost var front: seq<FarthestPoint>   // the contents of fp

    ghost predicate Valid()
      reads this, fp, routes
    {
      && M == |A| && N == |B|
      && half == GridSize(M, N) + 1
      && front == fp[..] && |front| == M + N + 1
      && ptr + 1 == |nodes|
      && Forest(A, B, nodes, routes[..], half)
      && Tidy(routes[..], half, |nodes|)
      && Distinct(nodes)
      && AllInGrid(nodes, M, N)
    }

    constructor (a: seq<T>, b: seq<T>)
      ensures Valid() && fresh(fp) && fresh(routes)
      ensures A == a && B == b && nodes == [Origin]
      ensures forall i :: 0 <= i < |front| ==> front[i] == Unvisited
    {
      A, B, M, N := a, b, |a|, |b|;
      GridSizeIsProduct(|a|, |b|);
      half := |a| * |b| + (|a| + |b| + 1) + 1;
      fp := new FarthestPoint[|a| + |b| + 1](_ => Unvisited);
      routes := new int[(|a| * |b| + (|a| + |b| + 1) + 1) * 2](_ => 0);
      ptr := 0;
      nodes := [Origin];
      front := seq(|a| + |b| + 1, _ => Unvisited);
    }

    /**
     Stores one back pointer under the next free id. The write stays inside both halves of
     the buffer because no two ids stand for the same grid point.
     */
    method Record(prev: int, kind: int, ghost v: Node) returns (id: int)
      requires Valid()
      requires 0 <= prev <= ptr
      requires Step(A, B, nodes[prev], kind, v)
      requires kind == ADDED ==> routes[half + prev] != REMOVED
      requires InGrid(v, M, N)
      requires Fresh(nodes, v)
      modifies this, routes
      ensures Valid()
      ensures nodes == old(nodes) + [v] && front == old(front)
      ensures id == ptr == old(ptr) + 1
      ensures ptr < GridSize(M, N)
    {
      ghost var grown := nodes + [v];
      GrownDistinct(nodes, v, M, N);
      GridBound(grown, M, N);
      ForestGrows(A, B, nodes, routes[..], half, prev, kind, v);
      TidyGrows(routes[..], half, |nodes|, prev, kind);
      ghost var updated := routes[..][ptr + 1 := prev][ptr + 1 + half := kind];
      ptr := ptr + 1;
      routes[ptr] := prev;
      routes[ptr + half] := kind;
      assert routes[..] == updated;
      nodes := grown;
      id := ptr;
    }

    method CreateFP(slide: Option<FarthestPoint>, down: Option<FarthestPoint>, k: int) returns (r: FarthestPoint)
      requires Valid()
      requires Ready(nodes, M, N, slide, down, k)
      modifies this, routes
      ensures Valid() && front == old(front)
      ensures r.y == Start(slide, down) && Followed(M, N, old(nodes), nodes, slide, down, k, r)
    {
      if slide.Some? && slide.value.y == -1 && down.Some? && down.value.y == -1 {
        OriginCreates(nodes, M, N, slide, down);
        return FarthestPoint(0, 0);
      }
      if (down.Some? && down.value.y == -1) || k == M ||
         (slide.Some? && down.Some? && slide.value.y > down.value.y + 1)
      {
        ghost var u := nodes[slide.value.id];
        ghost var v := Node(u.x + 1, u.y, u.common);
        SlideCreates(A, B, nodes, slide, down, k, v);
        SlideIsTidy(A, B, nodes, routes[..], half, slide, down, k);
        var id := Record(slide.value.id, ADDED, v);
        r := FarthestPoint(slide.value.y, id);
      } else {
        ghost var u := nodes[down.value.id];
        ghost var v := Node(u.x, u.y + 1, u.common);
        DownCreates(A, B, nodes, slide, down, k, v);
        var id := Record(down.value.id, REMOVED, v);
        r := FarthestPoint(down.value.y + 1, id);
      }
    }

    method Snake(k: int, slide: Option<FarthestPoint>, down: Option<FarthestPoint>) returns (r: FarthestPoint)
      requires Valid()
      requires OnGrid(M, N, k) ==> Ready(nodes, M, N, slide, down, k)
      modifies this, routes
      ensures Valid() && front == old(front)
      ensures if OnGrid(M, N, k) then Snaked(A, B, old(nodes), nodes, slide, down, k, r)
              else r == Unvisited && nodes == old(nodes)
    {
      if k + N < 0 || M < k { return Unvisited; }
      r := CreateFP(slide, down, k);
      r := Follow(k, r, old(nodes), slide, down);
    }

    /** The loop of `snake`: along the matching entries of diagonal k. */
    method Follow(k: int, from: FarthestPoint, ghost before: seq<Node>,
                  ghost slide: Option<FarthestPoint>, ghost down: Option<FarthestPoint>)
      returns (r: FarthestPoint)
      requires Valid() && Followed(M, N, before, nodes, slide, down, k, from)
      modifies this, routes
      ensures Valid() && front == old(front)
      ensures Snaked(A, B, before, nodes, slide, down, k, r)
    {
      r := from;
      while r.y + k < M && r.y < N && A[r.y + k] == B[r.y]
        invariant Valid() && front == old(front)
        invariant Followed(M, N, before, nodes, slide, down, k, r)
        decreases N - r.y
      {
        ghost var u := nodes[r.id];
        ghost var v := Node(u.x + 1, u.y + 1, u.common + 1);
        MatchFollows(A, B, before, nodes, slide, down, k, r, v);
        var id := Record(r.id, COMMON, v);
        r := FarthestPoint(r.y + 1, id);
      }
    }

    /** The entry for a tag, and how far it moves the walk back. */
    method Retrace(kind: int, swapped: bool, a: int, b: int, ghost u: Node)
      returns (entry: DiffResult<T>, a': int, b': int)
      requires kind in {ADDED, REMOVED, COMMON}
      requires a + 1 == u.x + (if kind == REMOVED then 0 else 1) <= |A|
      requires b + 1 == u.y + (if kind == ADDED then 0 else 1) <= |B|
      ensures a' + 1 == u.x && b' + 1 == u.y
      ensures entry == Entry(A, B, swapped, u, kind)
    {
      a', b' := a, b;
      if kind == REMOVED {
        entry := DiffResult(if swapped then Removed else Added, B[b]);
        b' := b - 1;
      } else if kind == ADDED {
        entry := DiffResult(if swapped then Added else Removed, A[a]);
        a' := a - 1;
      } else {
        entry := DiffResult(Common, A[a]);
        a', b' := a - 1, b - 1;
      }
    }

    /** One step of the walk back, from id `cur` to the id its back pointer names. */
    method StepBack(kind: int, swapped: bool, a: int, b: int, result: seq<DiffResult<T>>, ghost cur: nat, ghost total: int)
      returns (result': seq<DiffResult<T>>, a': int, b': int)
      requires Valid() && 0 < cur <= ptr && kind == routes[half + cur]
      requires a + 1 == nodes[cur].x && b + 1 == nodes[cur].y
      requires ScriptFrom(A, B, swapped, result, nodes[cur], total) && TidyScript(result, swapped, kind)
      ensures 0 <= routes[cur] < cur
      ensures a' + 1 == nodes[routes[cur]].x && b' + 1 == nodes[routes[cur]].y
      ensures ScriptFrom(A, B, swapped, result', nodes[routes[cur]], total)
      ensures TidyScript(result', swapped, routes[half + routes[cur]])
    {
      WalkBack(A, B, nodes, routes[..], half, swapped, result, cur, total);
      var entry;
      entry, a', b' := Retrace(kind, swapped, a, b, nodes[routes[cur]]);
      TidyBack(routes[..], half, |nodes|, cur, result, swapped, entry);
      result' := [entry] + result;
    }

    /** Walks back from `current` to id 0, turning every tag into an entry of the result. */
    method BackTrace(current: FarthestPoint, swapped: bool) returns (result: seq<DiffResult<T>>)
      requires Valid()
      requires Reached(nodes, current, M - N) && current.y == N
      ensures if swapped then Transforms(result, B, A) else Transforms(result, A, B)
      ensures Cost(result) == M + N - 2 * nodes[current.id].common
      ensures NeverBefore(result, DownKind(swapped), SlideKind(swapped))
    {
      ghost var cur, total := current.id, nodes[current.id].common;
      ScriptFromCorner(A, B, swapped, nodes[cur]);
      result, cur := WalkAll(current.id, swapped, total);
      ScriptFromOrigin(A, B, swapped, result, total);
    }

    /** The loop of the walk: it ends at id 0, the only one without a tag. */
    method WalkAll(id: nat, swapped: bool, ghost total: int) returns (result: seq<DiffResult<T>>, ghost cur: nat)
      requires Valid() && id <= ptr && nodes[id].x == M && nodes[id].y == N
      requires ScriptFrom(A, B, swapped, [], nodes[id], total)
      ensures ScriptFrom(A, B, swapped, result, Origin, total)
      ensures NeverBefore(result, DownKind(swapped), SlideKind(swapped))
    {
      hide ScriptFrom, Distinct, AllInGrid, Edge, TidyAt, NeverBefore;
      EmptyScript<T>(swapped, routes[half + id]);
      result, cur := [], id;
      var a, b := M - 1, N - 1;
      var j := routes[id];
      var kind := routes[id + half];
      while !(j == 0 && kind == 0)
        invariant 0 <= cur <= ptr && j == routes[cur] && kind == routes[half + cur]
        invariant a + 1 == nodes[cur].x && b + 1 == nodes[cur].y
        invariant ScriptFrom(A, B, swapped, result, nodes[cur], total) && TidyScript(result, swapped, kind)
        decreases cur
      {
        result, a, b := StepBack(kind, swapped, a, b, result, cur, total);
        cur := j;
        kind := routes[j + half];
        j := routes[j];
      }
      NoTag(A, B, nodes, routes[..], half, cur);
    }

    /** fp[k + offset] = snake(k, fp[k - 1 + offset], fp[k + 1 + offset]). */
    method Advance(k: int) returns (ghost r: FarthestPoint)
      requires Valid() && OnGrid(M, N, k)
      requires Ready(nodes, M, N, At(front, N, k - 1), At(front, N, k + 1), k)
      modifies this, fp, routes
      ensures Valid()
      ensures front == old(front)[k + N := r]
      ensures Snaked(A, B, old(nodes), nodes, At(old(front), N, k - 1), At(old(front), N, k + 1), k, r)
    {
      var slide := if 0 <= k - 1 + N < fp.Length then Some(fp[k - 1 + N]) else None;
      var down := if 0 <= k + 1 + N < fp.Length then Some(fp[k + 1 + N]) else None;
      var point := Snake(k, slide, down);
      fp[k + N] := point;
      front := front[k + N := point];
      r := point;
    }

    /** Advancing the next diagonal of phase p. */
    method StepPhase(k: int, ghost g: seq<FarthestPoint>, ghost p: int, ghost lo: int, ghost hi: int,
                     ghost lo': int, ghost hi': int)
      requires Valid() && 0 <= p <= N <= M && 0 < N
      requires MidPhase(A, B, nodes, front, g, p, lo, hi)
      requires OneStep(M - N, k, lo, hi, lo', hi') && Active(M, N, p, k)
      requires Ridge(g, M, N) && Y(g, N, M - N) < N
      modifies this, fp, routes
      ensures Valid()
      ensures MidPhase(A, B, nodes, front, g, p, lo', hi')
    {
      ghost var f, before := front, nodes;
      StepReady(A, B, nodes, f, g, p, k, lo, hi, lo', hi');
      ghost var r := Advance(k);
      Advanced(A, B, before, nodes, f, g, r, p, k, lo, hi, lo', hi');
    }

    /** One phase: left diagonals upwards, right diagonals downwards, then the corner's diagonal. */
    method Phase(p: int)
      requires Valid() && 0 <= p <= N <= M && 0 < N
      requires Frontier(A, B, nodes, front, p - 1) && Y(front, N, M - N) < N
      modifies this, fp, routes
      ensures Valid()
      ensures Frontier(A, B, nodes, front, p)
    {
      var delta := M - N;
      ghost var g := front;
      StartPhase(A, B, nodes, g, p, -p, delta + p);
      var k := -p;
      while k < delta
        invariant Valid() && -p <= k <= delta
        invariant MidPhase(A, B, nodes, front, g, p, k, delta + p)
      {
        StepPhase(k, g, p, k, delta + p, k + 1, delta + p);
        k := k + 1;
      }
      k := delta + p;
      while k > delta
        invariant Valid() && delta <= k <= delta + p
        invariant MidPhase(A, B, nodes, front, g, p, delta, k)
      {
        StepPhase(k, g, p, delta, k, delta, k - 1);
        k := k - 1;
      }
      StepPhase(delta, g, p, delta, delta, delta + 1, delta);
      EndPhase(A, B, nodes, front, g, p);
    }

    /**
     The phase loop. It ends after at most N + 1 phases, at a route to the far corner that
     matches as many entries as any common subsequence has.
     */
    method Search() returns (current: FarthestPoint)
      requires Valid() && 0 < N <= M
      requires nodes == [Origin] && forall i :: 0 <= i < |front| ==> front[i] == Unvisited
      modifies this, fp, routes
      ensures Valid()
      ensures Reached(nodes, current, M - N) && current.y == N
      ensures nodes[current.id].common == LcsLength(A, B)
    {
      var delta := M - N;
      var p := -1;
      InitialFrontier(A, B, front);
      LcsBound(A, B, M, N);
      while fp[delta + N].y < N
        invariant Valid()
        invariant -1 <= p <= N - LcsLength(A, B)
        invariant Frontier(A, B, nodes, front, p)
        decreases N - p
      {
        CornerNotPaid(A, B, front, p);
        p := p + 1;
        Phase(p);
      }
      current := fp[delta + N];
      CornerReached(A, B, nodes, front, p);
      PathMatches(A, B, nodes, routes[..], half, current.id);
    }
  }
}
