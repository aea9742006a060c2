/** Retrieval: neighbour expansion of the best hits, and trimming to the context budget. */
module Retriever {
  import opened Options
  import opened Text
  import opened Sorting

  const MAX_CONTEXT_CHARS := 4000
  const NEIGHBOR_EXPAND_TOP := 3
  const NEIGHBOR_FACTOR := 0.98

  datatype Row = Row(page: int, heading: string, text: string)

  datatype Hit = Hit(docId: string, seqNo: int, row: Row, score: real)

  type Key = (string, int)

  /** The rows of the chunk collection, by document and number. */
  type Index = map<Key, seq<Row>>

  function KeyOf(h: Hit): Key { (h.docId, h.seqNo) }

  function RowsAt(index: Index, key: Key): seq<Row> { if key in index then index[key] else [] }

  /** `{(c.doc_id, c.seq): c for c in chunks}` */
  function ByKey(chunks: seq<Hit>): (m: map<Key, Hit>)
    ensures forall key :: key in m ==> KeyOf(m[key]) == key && m[key] in chunks
    ensures forall i :: 0 <= i < |chunks| ==> KeyOf(chunks[i]) in m
  {
    if chunks == [] then map[]
    else
      var init := chunks[..|chunks| - 1];
      assert forall i :: 0 <= i < |chunks| - 1 ==> chunks[i] == init[i];
      ByKey(init)[KeyOf(chunks[|chunks| - 1]) := chunks[|chunks| - 1]]
  }

  predicate Distinct(chunks: seq<Hit>) {
    forall i, j :: 0 <= i < j < |chunks| ==> KeyOf(chunks[i]) != KeyOf(chunks[j])
  }

  lemma {:induction false} ByKeyKeeps(chunks: seq<Hit>, i: nat)
    requires Distinct(chunks) && i < |chunks|
    ensures ByKey(chunks)[KeyOf(chunks[i])] == chunks[i]
  {
    var n := |chunks| - 1;
    if i < n {
      assert chunks[..n][i] == chunks[i];
      ByKeyKeeps(chunks[..n], i);
      assert KeyOf(chunks[i]) != KeyOf(chunks[n]);
    }
  }

  predicate Adjacent(hit: Hit, key: Key) {
    key.0 == hit.docId && (key.1 == hit.seqNo - 1 || key.1 == hit.seqNo + 1)
  }

  function Neighbor(index: Index, hit: Hit, key: Key): Hit
    requires RowsAt(index, key) != []
  {
    var rows := RowsAt(index, key);
    Hit(key.0, key.1, rows[|rows| - 1], hit.score * NEIGHBOR_FACTOR)
  }

  /** What the expanded dictionary holds for `key` after the neighbours of the first `t` hits: a hit itself,
      or else the chunk found next to the earliest adjacent hit. */
  function Expected(chunks: seq<Hit>, index: Index, t: nat, key: Key): Option<Hit>
    requires t <= |chunks|
  {
    if key in ByKey(chunks) then Some(ByKey(chunks)[key]) else Found(chunks, index, t, key)
  }

  /** The chunk found for `key` next to the earliest adjacent one of the first `t` hits. */
  function Found(chunks: seq<Hit>, index: Index, t: nat, key: Key): Option<Hit>
    requires t <= |chunks|
  {
    if t == 0 then None
    else
      var earlier := Found(chunks, index, t - 1, key);
      if earlier.Some? then earlier
      else if Adjacent(chunks[t - 1], key) && RowsAt(index, key) != [] then Some(Neighbor(index, chunks[t - 1], key))
      else None
  }

  function Top(chunks: seq<Hit>): nat { Min(NEIGHBOR_EXPAND_TOP, |chunks|) }

  ghost predicate IsExpanded(result: map<Key, Hit>, chunks: seq<Hit>, index: Index, t: nat)
    requires t <= |chunks|
  {
    forall key :: (key in result <==> Expected(chunks, index, t, key).Some?)
      && (key in result ==> Some(result[key]) == Expected(chunks, index, t, key))
  }

  /** Best score first, then document and number. */
  predicate Before(a: Hit, b: Hit) {
    || a.score > b.score
    || (a.score == b.score && (StringLess(a.docId, b.docId) || (a.docId == b.docId && a.seqNo < b.seqNo)))
  }

  function ByRank(): (Hit, Hit) -> bool { (a, b) => Before(a, b) }

  lemma RankIsStrict()
    ensures StrictOrder(ByRank())
    ensures forall a, b :: KeyOf(a) != KeyOf(b) ==> Before(a, b) || Before(b, a)
  {
    forall a: Hit, b: Hit
      ensures !Before(a, a)
      ensures KeyOf(a) != KeyOf(b) ==> Before(a, b) || Before(b, a)
    {
      StringLessTotal(a.docId, b.docId);
      StringLessTotal(a.docId, a.docId);
    }
    forall a: Hit, b: Hit, c: Hit | Before(a, b) && Before(b, c) ensures Before(a, c) {
      if StringLess(a.docId, b.docId) && StringLess(b.docId, c.docId) {
        StringLessTransitive(a.docId, b.docId, c.docId);
      }
    }
  }

  /** The result of an expansion. */
  ghost predicate IsExpansion(ordered: seq<Hit>, chunks: seq<Hit>, index: Index, m: map<Key, Hit>) {
    IsExpanded(m, chunks, index, Top(chunks)) && IsListing(ByRank(), ordered, m)
  }

  /** `key` is one of the numbers `seqNos` of the document, and the collection has it. */
  predicate Visited(index: Index, key: Key, docId: string, seqNos: seq<int>) {
    RowsAt(index, key) != [] && key.0 == docId && key.1 in seqNos
  }

  /** `_expand_neighbors` */
  method ExpandNeighbors(chunks: seq<Hit>, index: Index) returns (ordered: seq<Hit>)
    ensures exists m :: IsExpansion(ordered, chunks, index, m)
  {
    var result := ByKey(chunks);
    for t := 0 to Top(chunks)
      invariant IsExpanded(result, chunks, index, t)
    {
      ghost var before := result;
      result := AddNeighbors(result, chunks[t], index);
      ExpandOneMore(before, result, chunks, index, t);
    }
    RankIsStrict();
    KeysOfExpanded(result, chunks, index);
    ordered := SortedValues(ByRank(), result);
    assert IsExpansion(ordered, chunks, index, result);
  }

  /** `after` is `before` with the missing neighbours of `hit`. */
  ghost predicate Extends(before: map<Key, Hit>, after: map<Key, Hit>, hit: Hit, index: Index, seqNos: seq<int>) {
    && (forall key :: key in after <==> key in before || Visited(index, key, hit.docId, seqNos))
    && (forall key :: key in after ==> after[key] == if key in before then before[key] else Neighbor(index, hit, key))
  }

  lemma ExpandOneMore(before: map<Key, Hit>, after: map<Key, Hit>, chunks: seq<Hit>, index: Index, t: nat)
    requires t < |chunks| && IsExpanded(before, chunks, index, t)
    requires Extends(before, after, chunks[t], index, [chunks[t].seqNo - 1, chunks[t].seqNo + 1])
    ensures IsExpanded(after, chunks, index, t + 1)
  {
    var hit := chunks[t];
    forall key
      ensures key in after <==> Expected(chunks, index, t + 1, key).Some?
      ensures key in after ==> Some(after[key]) == Expected(chunks, index, t + 1, key)
    {
      assert key in before <==> Expected(chunks, index, t, key).Some?;
      assert Visited(index, key, hit.docId, [hit.seqNo - 1, hit.seqNo + 1])
        <==> RowsAt(index, key) != [] && Adjacent(hit, key);
    }
  }

  method AddNeighbors(before: map<Key, Hit>, hit: Hit, index: Index) returns (result: map<Key, Hit>)
    ensures Extends(before, result, hit, index, [hit.seqNo - 1, hit.seqNo + 1])
  {
    result := before;
    var around := [hit.seqNo - 1, hit.seqNo + 1];
    for i := 0 to 2
      invariant Extends(before, result, hit, index, around[..i])
    {
      assert around[..i + 1] == around[..i] + [around[i]];
      result := AddNeighbor(result, hit, around[i], index);
    }
    assert around[..2] == around;
  }

  /** One neighbour: skipped when the key is taken, else the last row found. */
  method AddNeighbor(before: map<Key, Hit>, hit: Hit, seqNo: int, index: Index) returns (result: map<Key, Hit>)
    ensures
      var key := (hit.docId, seqNo);
      result == if key in before || RowsAt(index, key) == [] then before else before[key := Neighbor(index, hit, key)]
  {
    result := before;
    var key := (hit.docId, seqNo);
    if key in result { return; }
    var rows := RowsAt(index, key);
    for i := 0 to |rows|
      invariant result == if i == 0 then before
                          else before[key := Hit(hit.docId, seqNo, rows[i - 1], hit.score * NEIGHBOR_FACTOR)]
    {
      result := result[key := Hit(hit.docId, seqNo, rows[i], hit.score * NEIGHBOR_FACTOR)];
    }
  }

  lemma {:induction false} FoundKey(chunks: seq<Hit>, index: Index, t: nat, key: Key)
    requires t <= |chunks| && Found(chunks, index, t, key).Some?
    ensures KeyOf(Found(chunks, index, t, key).value) == key
  {
    if Found(chunks, index, t - 1, key).Some? {
      FoundKey(chunks, index, t - 1, key);
    }
  }

  lemma KeysOfExpanded(m: map<Key, Hit>, chunks: seq<Hit>, index: Index)
    requires IsExpanded(m, chunks, index, Top(chunks))
    ensures forall key :: key in m ==> KeyOf(m[key]) == key
  {
    forall key | key in m ensures KeyOf(m[key]) == key {
      if key !in ByKey(chunks) { FoundKey(chunks, index, Top(chunks), key); }
    }
  }

  // ---------------------------------------------------------------- what expansion promises

  /** Hit `i` is the earliest one adjacent to `key`. */
  ghost predicate Earliest(chunks: seq<Hit>, i: nat, key: Key)
    requires i < |chunks|
  {
    Adjacent(chunks[i], key) && forall j :: 0 <= j < i ==> !Adjacent(chunks[j], key)
  }

  /** The meaning of `Found`: there is a chunk iff one of the first `t` hits is adjacent to it and the
      collection has it, and then it has the score of the earliest such hit, `i`. */
  lemma {:induction false} FoundMeaning(chunks: seq<Hit>, index: Index, t: nat, key: Key) returns (i: nat)
    requires t <= |chunks|
    ensures Found(chunks, index, t, key).None? ==>
      RowsAt(index, key) == [] || forall j :: 0 <= j < t ==> !Adjacent(chunks[j], key)
    ensures Found(chunks, index, t, key).Some? ==>
      i < t && Earliest(chunks, i, key) && RowsAt(index, key) != []
      && Found(chunks, index, t, key) == Some(Neighbor(index, chunks[i], key))
  {
    i := 0;
    if t > 0 {
      i := FoundMeaning(chunks, index, t - 1, key);
      if Found(chunks, index, t - 1, key).None? {
        i := t - 1;
      }
    }
  }

  /** `h` is a stored chunk next to one of the best three hits, and has 0.98 times the score of the earliest one. */
  ghost predicate IsNeighbor(h: Hit, chunks: seq<Hit>, index: Index) {
    IsStored(h, index) && exists i :: 0 <= i < 3 && i < |chunks| && ScoredFrom(h, chunks, i)
  }

  /** The row of `h` is the last one that the collection stores for its key. */
  predicate IsStored(h: Hit, index: Index) {
    var rows := RowsAt(index, KeyOf(h));
    rows != [] && h.row == rows[|rows| - 1]
  }

  /** The numbers of two chunks of one document follow each other. */
  predicate Beside(a: Hit, b: Hit) { a.docId == b.docId && (a.seqNo - b.seqNo == 1 || b.seqNo - a.seqNo == 1) }

  ghost predicate ScoredFrom(h: Hit, chunks: seq<Hit>, i: nat)
    requires i < |chunks|
  {
    h.score == chunks[i].score * 0.98 && Beside(h, chunks[i]) && forall j :: 0 <= j < i ==> !Beside(h, chunks[j])
  }

  /** The order of the result: falling scores, ties by document and number. */
  predicate Ranked(a: Hit, b: Hit) {
    && a.score >= b.score
    && (a.score == b.score ==> a.docId == b.docId || StringLess(a.docId, b.docId))
    && (a.score == b.score && a.docId == b.docId ==> a.seqNo < b.seqNo)
  }

  lemma HitKept(ordered: seq<Hit>, chunks: seq<Hit>, index: Index, m: map<Key, Hit>, i: nat)
    requires Distinct(chunks) && IsExpansion(ordered, chunks, index, m) && i < |chunks|
    ensures chunks[i] in ordered
  {
    ByKeyKeeps(chunks, i);
    var key := KeyOf(chunks[i]);
    assert Expected(chunks, index, Top(chunks), key) == Some(chunks[i]);
    assert key in m;
  }

  lemma OrderedDistinct(ordered: seq<Hit>, chunks: seq<Hit>, index: Index, m: map<Key, Hit>, i: nat, j: nat)
    requires IsExpansion(ordered, chunks, index, m) && i < j < |ordered|
    ensures Ranked(ordered[i], ordered[j]) && KeyOf(ordered[i]) != KeyOf(ordered[j])
  {
    RankIsStrict();
    KeysOfExpanded(m, chunks, index);
    assert ByRank()(ordered[i], ordered[j]);
    assert ordered[i] in ordered && ordered[j] in ordered;
    var k :| k in m && m[k] == ordered[i];
    var l :| l in m && m[l] == ordered[j];
  }

  lemma ExtraJustified(ordered: seq<Hit>, chunks: seq<Hit>, index: Index, m: map<Key, Hit>, h: Hit)
    requires IsExpansion(ordered, chunks, index, m) && h in ordered && h !in chunks
    ensures IsNeighbor(h, chunks, index)
  {
    KeysOfExpanded(m, chunks, index);
    var key :| key in m && m[key] == h;
    assert Some(h) == Expected(chunks, index, Top(chunks), key);
    var i := FoundMeaning(chunks, index, Top(chunks), key);
    assert ScoredFrom(h, chunks, i);
  }

  lemma NeighborPresent(ordered: seq<Hit>, chunks: seq<Hit>, index: Index, m: map<Key, Hit>, key: Key, i: nat)
    requires IsExpansion(ordered, chunks, index, m)
    requires i < Top(chunks) && Adjacent(chunks[i], key) && RowsAt(index, key) != []
    ensures exists h :: h in ordered && KeyOf(h) == key
  {
    if key !in ByKey(chunks) { var j := FoundMeaning(chunks, index, Top(chunks), key); }
    KeysOfExpanded(m, chunks, index);
    assert key in m && m[key] in ordered && KeyOf(m[key]) == key;
  }

  /** Neighbour expansion keeps every hit, is strictly ordered without repeating a chunk, and adds exactly
      the stored chunks adjacent to one of the best three hits, each scored from the earliest of them. */
  lemma ExpansionSound(ordered: seq<Hit>, chunks: seq<Hit>, index: Index, m: map<Key, Hit>)
    requires Distinct(chunks) && IsExpansion(ordered, chunks, index, m)
    ensures forall i :: 0 <= i < |chunks| ==> chunks[i] in ordered
    ensures forall i, j :: 0 <= i < j < |ordered| ==>
      Ranked(ordered[i], ordered[j]) && KeyOf(ordered[i]) != KeyOf(ordered[j])
    ensures forall h :: h in ordered && h !in chunks ==> IsNeighbor(h, chunks, index)
    ensures forall key, i ::
      (0 <= i < 3 && i < |chunks| && key in index && index[key] != []
       && (key == (chunks[i].docId, chunks[i].seqNo - 1) || key == (chunks[i].docId, chunks[i].seqNo + 1)))
      ==> exists h :: h in ordered && KeyOf(h) == key
  {
    forall i | 0 <= i < |chunks| ensures chunks[i] in ordered {
      HitKept(ordered, chunks, index, m, i);
    }
    forall i, j | 0 <= i < j < |ordered|
      ensures Ranked(ordered[i], ordered[j]) && KeyOf(ordered[i]) != KeyOf(ordered[j])
    {
      OrderedDistinct(ordered, chunks, index, m, i, j);
    }
    forall h | h in ordered && h !in chunks ensures IsNeighbor(h, chunks, index) {
      ExtraJustified(ordered, chunks, index, m, h);
    }
    forall key, i | 0 <= i < 3 && i < |chunks| && key in index && index[key] != []
        && (key == (chunks[i].docId, chunks[i].seqNo - 1) || key == (chunks[i].docId, chunks[i].seqNo + 1))
      ensures exists h :: h in ordered && KeyOf(h) == key
    {
      NeighborPresent(ordered, chunks, index, m, key, i);
    }
  }

  /** A neighbour comes after the hit it is scored from exactly when the score is positive, or zero and the neighbour
      has the higher number. */
  lemma NeighborFollows(ordered: seq<Hit>, chunks: seq<Hit>, index: Index, m: map<Key, Hit>, h: nat, i: nat, k: nat)
    requires Distinct(chunks) && IsExpansion(ordered, chunks, index, m)
    requires h < |ordered| && i < |chunks| && ScoredFrom(ordered[h], chunks, i)
    requires k < |ordered| && ordered[k] == chunks[i]
    ensures k < h <==>
      chunks[i].score > 0.0 || (chunks[i].score == 0.0 && ordered[h].seqNo == chunks[i].seqNo + 1)
  {
    if k < h {
      OrderedDistinct(ordered, chunks, index, m, k, h);
    } else if h < k {
      OrderedDistinct(ordered, chunks, index, m, h, k);
    }
  }

  /** Neighbour expansion is deterministic: the result does not depend on dictionary order. */
  lemma ExpansionDeterministic(a: seq<Hit>, b: seq<Hit>, chunks: seq<Hit>, index: Index, m: map<Key, Hit>,
                               n: map<Key, Hit>)
    requires IsExpansion(a, chunks, index, m) && IsExpansion(b, chunks, index, n)
    ensures a == b
  {
    assert m.Keys == n.Keys;
    forall key | key in m ensures m[key] == n[key] {
    }
    assert m == n;
    RankIsStrict();
    AscendingUnique(ByRank(), a, b);
  }

  // ---------------------------------------------------------------- trimming

  function TotalLength(chunks: seq<Hit>): nat {
    if chunks == [] then 0 else TotalLength(chunks[..|chunks| - 1]) + |chunks[|chunks| - 1].row.text|
  }

  /** `_trim_to_budget`: the longest prefix within the context budget. */
  method TrimToBudget(chunks: seq<Hit>) returns (kept: seq<Hit>)
    ensures kept <= chunks && TotalLength(kept) <= 4000
    ensures forall k :: |kept| < k <= |chunks| ==> TotalLength(chunks[..k]) > 4000
  {
    kept := [];
    var total := 0;
    for i := 0 to |chunks|
      invariant kept == chunks[..i] && total == TotalLength(kept) <= MAX_CONTEXT_CHARS
    {
      assert chunks[..i + 1][..i] == chunks[..i];
      if total + |chunks[i].row.text| > MAX_CONTEXT_CHARS {
        forall k | i < k <= |chunks| ensures TotalLength(chunks[..k]) > MAX_CONTEXT_CHARS {
          TotalLengthGrows(chunks, i + 1, k);
        }
        return;
      }
      kept := kept + [chunks[i]];
      total := total + |chunks[i].row.text|;
    }
  }

  lemma {:induction false} TotalLengthGrows(chunks: seq<Hit>, i: nat, k: nat)
    requires i <= k <= |chunks|
    ensures TotalLength(chunks[..i]) <= TotalLength(chunks[..k])
    decreases k - i
  {
    if i < k {
      TotalLengthGrows(chunks, i, k - 1);
      assert chunks[..k][..k - 1] == chunks[..k - 1];
    }
  }

  /** With chunks of at most 900 characters, trimming keeps at least four of them. */
  lemma TrimKeepsFour(chunks: seq<Hit>, kept: seq<Hit>)
    requires kept <= chunks
    requires forall k :: |kept| < k <= |chunks| ==> TotalLength(chunks[..k]) > MAX_CONTEXT_CHARS
    requires forall i :: 0 <= i < |chunks| ==> |chunks[i].row.text| <= 900
    ensures |kept| >= Min(4, |chunks|)
  {
    var n := Min(4, |chunks|);
    if |kept| < n {
      LengthBound(chunks[..n], 900);
    }
  }

  lemma {:induction false} LengthBound(chunks: seq<Hit>, max: nat)
    requires forall i :: 0 <= i < |chunks| ==> |chunks[i].row.text| <= max
    ensures TotalLength(chunks) <= |chunks| * max
  {
    if chunks != [] {
      LengthBound(chunks[..|chunks| - 1], max);
      assert |chunks| * max == (|chunks| - 1) * max + max;
    }
  }
}
