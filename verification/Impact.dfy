/** Impact analysis: reducing the path rows of the graph query to one shortest row per affected node. */
module Impact {
  import opened Sorting

  /** The depth limit of the query text. */
  const MAX_DEPTH := 3

  /** A FEEDS or AFFECTS relationship. */
  datatype Edge = Edge(id: nat, src: string, dst: string)

  /** One result row: the equipment it starts from, the affected node, and the path between them. */
  datatype Row = Row(via: string, impacted: string, path: seq<Edge>, depth: nat)

  datatype Result<T> = Ok(value: T) | IndexError

  // ---------------------------------------------------------------- the reduction

  /** The row kept for `key` among the first rows: the first one of minimal depth. */
  ghost predicate IsBest(rows: seq<Row>, key: string, row: Row) {
    exists i :: 0 <= i < |rows| && rows[i] == row && row.impacted == key
      && (forall j :: 0 <= j < |rows| && rows[j].impacted == key ==>
            row.depth <= rows[j].depth && (j < i ==> row.depth < rows[j].depth))
  }

  ghost predicate IsReduced(seen: map<string, Row>, rows: seq<Row>) {
    && (forall i :: 0 <= i < |rows| ==> rows[i].impacted in seen)
    && (forall key :: key in seen ==> IsBest(rows, key, seen[key]))
  }

  predicate Nearer(a: Row, b: Row) {
    a.depth < b.depth || (a.depth == b.depth && StringLess(a.impacted, b.impacted))
  }

  function ByDepth(): (Row, Row) -> bool { (a, b) => Nearer(a, b) }

  lemma DepthIsStrict()
    ensures StrictOrder(ByDepth())
    ensures forall a: Row, b: Row :: a.impacted != b.impacted ==> Nearer(a, b) || Nearer(b, a)
  {
    forall a: Row, b: Row
      ensures !Nearer(a, a)
      ensures a.impacted != b.impacted ==> Nearer(a, b) || Nearer(b, a)
    {
      StringLessTotal(a.impacted, b.impacted);
      StringLessTotal(a.impacted, a.impacted);
    }
    forall a: Row, b: Row, c: Row | Nearer(a, b) && Nearer(b, c) ensures Nearer(a, c) {
      if StringLess(a.impacted, b.impacted) && StringLess(b.impacted, c.impacted) {
        StringLessTransitive(a.impacted, b.impacted, c.impacted);
      }
    }
  }

  lemma ReduceOneMore(rows: seq<Row>, seen: map<string, Row>, row: Row)
    requires IsReduced(seen, rows)
    ensures
      var key := row.impacted;
      IsReduced(if key !in seen || row.depth < seen[key].depth then seen[key := row] else seen, rows + [row])
  {
    var key, next := row.impacted, rows + [row];
    var after := if key !in seen || row.depth < seen[key].depth then seen[key := row] else seen;
    forall k | k in after ensures IsBest(next, k, after[k]) {
      if k in seen {
        BestOfMore(rows, row, k, seen[k]);
      } else {
        assert next[|rows|] == row;
      }
    }
  }

  /** The best row among one row more: the former one, unless the new row is strictly better. */
  lemma BestOfMore(rows: seq<Row>, row: Row, key: string, best: Row)
    requires IsBest(rows, key, best)
    ensures IsBest(rows + [row], key, if row.impacted == key && row.depth < best.depth then row else best)
  {
    var next := rows + [row];
    assert next[|rows|] == row;
    var i :| 0 <= i < |rows| && rows[i] == best && (forall j :: 0 <= j < |rows| && rows[j].impacted == key ==>
      best.depth <= rows[j].depth && (j < i ==> best.depth < rows[j].depth));
    assert next[i] == rows[i];
  }

  /** The row loop and the sort of `impact`; without rows, the access to the first row fails. */
  method ReduceRows(rows: seq<Row>) returns (items: Result<seq<Row>>)
    ensures items.IndexError? <==> rows == []
    ensures items.Ok? ==> exists seen :: IsReduced(seen, rows) && IsListing(ByDepth(), items.value, seen)
  {
    if rows == [] { return IndexError; }
    var seen: map<string, Row> := map[];
    for i := 0 to |rows|
      invariant IsReduced(seen, rows[..i])
    {
      assert rows[..i + 1] == rows[..i] + [rows[i]];
      ReduceOneMore(rows[..i], seen, rows[i]);
      var key := rows[i].impacted;
      if key !in seen || rows[i].depth < seen[key].depth {
        seen := seen[key := rows[i]];
      }
    }
    assert rows[..|rows|] == rows;
    DepthIsStrict();
    forall k, l | k in seen && l in seen && k != l ensures Nearer(seen[k], seen[l]) || Nearer(seen[l], seen[k]) {
      assert IsBest(rows, k, seen[k]) && IsBest(rows, l, seen[l]);
    }
    var sorted := SortedValues(ByDepth(), seen);
    items := Ok(sorted);
  }

  // ---------------------------------------------------------------- paths and distances

  predicate IsWalk(edges: set<Edge>, from: string, to: string, path: seq<Edge>)
    decreases path
  {
    if path == [] then from == to
    else path[0] in edges && path[0].src == from && IsWalk(edges, path[0].dst, to, path[1..])
  }

  /** The paths the query enumerates never use a relationship twice. */
  predicate EdgeDistinct(path: seq<Edge>) {
    forall i, j :: 0 <= i < j < |path| ==> path[i] != path[j]
  }

  /** The nodes that are exactly `k` steps along some walk from the starts. */
  function Frontier(edges: set<Edge>, starts: set<string>, k: nat): set<string> {
    if k == 0 then starts
    else
      var before := Frontier(edges, starts, k - 1);
      set e | e in edges && e.src in before :: e.dst
  }

  /** `k` is the breadth-first distance of `v`: the first positive step at which it is reached. */
  predicate IsDistance(edges: set<Edge>, starts: set<string>, v: string, k: nat) {
    && 0 < k && v in Frontier(edges, starts, k)
    && (forall j :: 0 < j < k ==> v !in Frontier(edges, starts, j))
  }

  /** The rows of the query: exactly the edge-distinct paths of one to three steps from the equipments
      that the root resolves to. */
  ghost predicate IsRow(r: Row, edges: set<Edge>, starts: set<string>) {
    && r.via in starts && IsWalk(edges, r.via, r.impacted, r.path)
    && 1 <= |r.path| <= MAX_DEPTH && EdgeDistinct(r.path) && r.depth == |r.path|
  }

  ghost predicate AreRows(rows: seq<Row>, edges: set<Edge>, starts: set<string>) {
    forall r :: r in rows <==> IsRow(r, edges, starts)
  }

  lemma {:induction false} WalkSplit(edges: set<Edge>, from: string, to: string, p: seq<Edge>, q: seq<Edge>)
      returns (mid: string)
    requires IsWalk(edges, from, to, p + q)
    ensures IsWalk(edges, from, mid, p) && IsWalk(edges, mid, to, q)
    ensures mid == if p == [] then from else p[|p| - 1].dst
    decreases p
  {
    if p == [] {
      assert p + q == q;
      mid := from;
    } else {
      assert (p + q)[0] == p[0] && (p + q)[1..] == p[1..] + q;
      mid := WalkSplit(edges, p[0].dst, to, p[1..], q);
    }
  }

  lemma {:induction false} WalkJoin(edges: set<Edge>, from: string, mid: string, to: string, p: seq<Edge>, q: seq<Edge>)
    requires IsWalk(edges, from, mid, p) && IsWalk(edges, mid, to, q)
    ensures IsWalk(edges, from, to, p + q)
    decreases p
  {
    if p == [] {
      assert p + q == q;
    } else {
      assert (p + q)[0] == p[0] && (p + q)[1..] == p[1..] + q;
      WalkJoin(edges, p[0].dst, mid, to, p[1..], q);
    }
  }

  lemma {:induction false} WalkInFrontier(edges: set<Edge>, starts: set<string>, from: string, to: string,
                                          path: seq<Edge>)
    requires from in starts && IsWalk(edges, from, to, path)
    ensures to in Frontier(edges, starts, |path|)
    decreases path
  {
    if path != [] {
      var n := |path| - 1;
      assert path == path[..n] + [path[n]];
      var mid := WalkSplit(edges, from, to, path[..n], [path[n]]);
      WalkInFrontier(edges, starts, from, mid, path[..n]);
    }
  }

  lemma {:induction false} FrontierHasWalk(edges: set<Edge>, starts: set<string>, to: string, k: nat)
      returns (from: string, path: seq<Edge>)
    requires to in Frontier(edges, starts, k)
    ensures from in starts && |path| == k && IsWalk(edges, from, to, path)
    decreases k
  {
    if k == 0 {
      from, path := to, [];
    } else {
      var e :| e in edges && e.src in Frontier(edges, starts, k - 1) && e.dst == to;
      var p;
      from, p := FrontierHasWalk(edges, starts, e.src, k - 1);
      WalkJoin(edges, from, e.src, to, p, [e]);
      path := p + [e];
    }
  }

  /** A walk cut after its edge `k` continues at the end of that edge. */
  lemma WalkCut(edges: set<Edge>, from: string, to: string, path: seq<Edge>, k: nat)
    requires IsWalk(edges, from, to, path) && k < |path|
    ensures IsWalk(edges, from, path[k].dst, path[..k + 1]) && IsWalk(edges, path[k].dst, to, path[k + 1..])
  {
    assert path == path[..k + 1] + path[k + 1..];
    var mid := WalkSplit(edges, from, to, path[..k + 1], path[k + 1..]);
  }

  /** Cutting out the part between two uses of the same edge leaves a shorter walk. */
  lemma CutLoop(edges: set<Edge>, from: string, to: string, path: seq<Edge>, i: nat, j: nat)
    requires IsWalk(edges, from, to, path) && i < j < |path| && path[i] == path[j]
    ensures IsWalk(edges, from, to, path[..i + 1] + path[j + 1..])
  {
    WalkCut(edges, from, to, path, i);
    WalkCut(edges, from, to, path, j);
    WalkJoin(edges, from, path[i].dst, to, path[..i + 1], path[j + 1..]);
  }

  /** A shortest walk is edge-distinct, so the query does enumerate it. */
  lemma ShortestIsDistinct(edges: set<Edge>, starts: set<string>, from: string, to: string, path: seq<Edge>)
    requires from in starts && IsWalk(edges, from, to, path) && IsDistance(edges, starts, to, |path|)
    ensures EdgeDistinct(path)
  {
    forall i, j | 0 <= i < j < |path| ensures path[i] != path[j] {
      if path[i] == path[j] {
        CutLoop(edges, from, to, path, i, j);
        WalkInFrontier(edges, starts, from, to, path[..i + 1] + path[j + 1..]);
      }
    }
  }

  lemma RowDistance(rows: seq<Row>, edges: set<Edge>, starts: set<string>, v: string, k: nat)
    requires AreRows(rows, edges, starts) && IsDistance(edges, starts, v, k) && k <= MAX_DEPTH
    ensures exists r :: r in rows && r.impacted == v && r.depth == k
  {
    var from, path := FrontierHasWalk(edges, starts, v, k);
    ShortestIsDistinct(edges, starts, from, v, path);
    assert IsRow(Row(from, v, path, k), edges, starts);
  }

  lemma {:induction false} LeastStep(edges: set<Edge>, starts: set<string>, v: string, k: nat) returns (d: nat)
    requires 0 < k && v in Frontier(edges, starts, k)
    ensures d <= k && IsDistance(edges, starts, v, d)
  {
    if j: nat :| 0 < j < k && v in Frontier(edges, starts, j) {
      d := LeastStep(edges, starts, v, j);
    } else {
      d := k;
    }
  }

  // ---------------------------------------------------------------- what the reduction promises

  lemma BestIsDistance(rows: seq<Row>, edges: set<Edge>, starts: set<string>, row: Row)
    requires AreRows(rows, edges, starts) && IsBest(rows, row.impacted, row)
    ensures row.depth <= MAX_DEPTH && IsDistance(edges, starts, row.impacted, row.depth)
  {
    assert row in rows;
    assert IsRow(row, edges, starts);
    WalkInFrontier(edges, starts, row.via, row.impacted, row.path);
    var d := LeastStep(edges, starts, row.impacted, row.depth);
    RowDistance(rows, edges, starts, row.impacted, d);
    var r :| r in rows && r.impacted == row.impacted && r.depth == d;
  }

  /** The order of the result: growing depths, and growing ids at each depth. */
  predicate Ordered(a: Row, b: Row) {
    a.depth <= b.depth && a.impacted != b.impacted && (a.depth == b.depth ==> StringLess(a.impacted, b.impacted))
  }

  /** The reduced rows are the distances: a node is listed exactly when it is reached in one to three steps,
      it is listed once, with its breadth-first distance, and the list is ordered by depth and id. */
  lemma ReductionGivesDistances(rows: seq<Row>, edges: set<Edge>, starts: set<string>, seen: map<string, Row>,
                                items: seq<Row>)
    requires AreRows(rows, edges, starts) && IsReduced(seen, rows) && IsListing(ByDepth(), items, seen)
    ensures forall r :: r in items ==> r.depth <= 3 && IsDistance(edges, starts, r.impacted, r.depth)
    ensures forall v, k: nat :: k <= 3 && IsDistance(edges, starts, v, k) ==>
      exists r :: r in items && r.impacted == v && r.depth == k
    ensures forall i, j :: 0 <= i < j < |items| ==> Ordered(items[i], items[j])
  {
    forall r | r in items ensures r.depth <= 3 && IsDistance(edges, starts, r.impacted, r.depth) {
      var key :| key in seen && seen[key] == r;
      assert IsBest(rows, key, r);
      BestIsDistance(rows, edges, starts, r);
    }
    forall v, k: nat | k <= 3 && IsDistance(edges, starts, v, k)
      ensures exists r :: r in items && r.impacted == v && r.depth == k
    {
      RowDistance(rows, edges, starts, v, k);
      ListedBest(rows, seen, items, v);
      var r :| r in items && r.impacted == v && IsBest(rows, v, r);
      BestIsDistance(rows, edges, starts, r);
    }
    forall i, j | 0 <= i < j < |items|
      ensures Ordered(items[i], items[j])
    {
      ItemsApart(rows, seen, items, i, j);
    }
  }

  lemma ListedBest(rows: seq<Row>, seen: map<string, Row>, items: seq<Row>, v: string)
    requires IsReduced(seen, rows) && IsListing(ByDepth(), items, seen)
    requires exists r :: r in rows && r.impacted == v
    ensures exists r :: r in items && r.impacted == v && IsBest(rows, v, r)
  {
    assert v in seen;
    assert seen[v] in items && IsBest(rows, v, seen[v]);
  }

  lemma ItemsApart(rows: seq<Row>, seen: map<string, Row>, items: seq<Row>, i: nat, j: nat)
    requires IsReduced(seen, rows) && IsListing(ByDepth(), items, seen) && i < j < |items|
    ensures Ordered(items[i], items[j])
  {
    DepthIsStrict();
    assert ByDepth()(items[i], items[j]);
    assert items[i] in items && items[j] in items;
    var k :| k in seen && seen[k] == items[i];
    var l :| l in seen && seen[l] == items[j];
    assert IsBest(rows, k, items[i]) && IsBest(rows, l, items[j]);
  }
}
