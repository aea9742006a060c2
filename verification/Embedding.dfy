/** Text embedding with a cache in front of a batching model service. */
module Embedding {
  import opened Options

  /** The model service: a deterministic embedding, reached by calls that may fail. */
  datatype Service<!V> = Service(embed: string -> V, answers: nat -> bool)

  /** A batched write of the cache: it succeeds, or it fails with or without having had its effect. */
  datatype Write = Stored | FailedAfter | FailedBefore

  /** The behaviour of the cache store during one call: whether the lookup succeeds, how the write of each
      batch ends, and which keys expire before it. */
  datatype Store = Store(lookup: bool, writes: nat -> Write, expires: nat -> set<string>)

  /** The keys that expired during the first `n` batches. */
  function Expired(store: Store, n: nat): set<string> {
    if n == 0 then {} else Expired(store, n - 1) + store.expires(n - 1)
  }

  /** Cache keys are injective in the text (a cryptographic digest, for a fixed model). */
  ghost predicate Injective(key: string -> string) {
    forall s, t :: key(s) == key(t) ==> s == t
  }

  /** Every cached vector is the embedding of the text it is cached for. */
  ghost predicate Correct<V>(cache: map<string, V>, key: string -> string, embed: string -> V) {
    forall t :: key(t) in cache ==> cache[key(t)] == embed(t)
  }

  function Direct<V>(texts: seq<string>, embed: string -> V): (r: seq<V>)
    ensures |r| == |texts|
    ensures forall i :: 0 <= i < |r| ==> r[i] == embed(texts[i])
  {
    seq(|texts|, i requires 0 <= i < |texts| => embed(texts[i]))
  }

  /** Indices of texts, in ascending order. */
  ghost predicate IndicesOk(missing: seq<nat>, texts: seq<string>) {
    && (forall a :: 0 <= a < |missing| ==> missing[a] < |texts|)
    && (forall a, b :: 0 <= a < b < |missing| ==> missing[a] < missing[b])
  }

  /** The indices of the texts the cache does not have, in order. */
  function Missing<V>(texts: seq<string>, cache: map<string, V>, key: string -> string): (r: seq<nat>)
    ensures IndicesOk(r, texts)
  {
    if texts == [] then []
    else
      var n := |texts| - 1;
      Missing(texts[..n], cache, key) + (if key(texts[n]) in cache then [] else [n])
  }

  lemma {:induction false} MissingIs<V>(texts: seq<string>, cache: map<string, V>, key: string -> string, i: nat)
    ensures i in Missing(texts, cache, key) <==> i < |texts| && key(texts[i]) !in cache
  {
    if texts != [] {
      var n := |texts| - 1;
      MissingIs(texts[..n], cache, key, i);
      assert i < n ==> texts[..n][i] == texts[i];
      var init := Missing(texts[..n], cache, key);
      assert i in init + [n] <==> i in init || i == n;
    }
  }

  function Join<T>(ss: seq<seq<T>>): seq<T> {
    if ss == [] then [] else Join(ss[..|ss| - 1]) + ss[|ss| - 1]
  }

  /** `[vec for vec in result if vec is not None]` */
  function Filled<V>(slots: seq<Option<V>>): seq<V> {
    if slots == [] then []
    else Filled(slots[..|slots| - 1]) + (if slots[|slots| - 1].Some? then [slots[|slots| - 1].value] else [])
  }

  lemma {:induction false} AllFilled<V>(slots: seq<Option<V>>, texts: seq<string>, embed: string -> V)
    requires |slots| == |texts| && forall i :: 0 <= i < |slots| ==> slots[i] == Some(embed(texts[i]))
    ensures Filled(slots) == Direct(texts, embed)
  {
    if slots != [] {
      var n := |slots| - 1;
      AllFilled(slots[..n], texts[..n], embed);
      assert Direct(texts, embed) == Direct(texts[..n], embed) + [embed(texts[n])];
    }
  }

  /** Slot `i` is right once it was cached or sent with one of the first `sent` missing indices. */
  ghost predicate SlotsOk<V>(slots: seq<Option<V>>, texts: seq<string>, missing: seq<nat>, sent: nat,
                             embed: string -> V)
    requires sent <= |missing|
  {
    && |slots| == |texts|
    && (forall i :: 0 <= i < |slots| ==> slots[i] == if i in missing[sent..] then None else Some(embed(texts[i])))
  }

  /** The cache keeps its entries, apart from those that have expired. */
  ghost predicate Keeps<V>(before: map<string, V>, after: map<string, V>, expired: set<string>) {
    forall k :: k in before ==> k in expired || (k in after && after[k] == before[k])
  }

  /** The texts at the indices `sent` are cached, unless they have expired again. */
  ghost predicate Covers<V>(cache: map<string, V>, texts: seq<string>, sent: seq<nat>, key: string -> string,
                            expired: set<string>)
  {
    forall j :: 0 <= j < |sent| ==>
      sent[j] < |texts| && (key(texts[sent[j]]) in cache || key(texts[sent[j]]) in expired)
  }

  /** All entries are cached texts. */
  ghost predicate Keyed<V>(cache: map<string, V>, key: string -> string) {
    forall k :: k in cache ==> exists t :: key(t) == k
  }

  lemma CoversAll<V>(before: map<string, V>, after: map<string, V>, texts: seq<string>, key: string -> string,
                     expired: set<string>)
    requires Keeps(before, after, expired) && Covers(after, texts, Missing(texts, before, key), key, expired)
    ensures forall i :: 0 <= i < |texts| ==> key(texts[i]) in after || key(texts[i]) in expired
  {
    var missing := Missing(texts, before, key);
    forall i | 0 <= i < |texts| ensures key(texts[i]) in after || key(texts[i]) in expired {
      if key(texts[i]) !in before {
        MissingIs(texts, before, key, i);
        var j :| 0 <= j < |missing| && missing[j] == i;
      }
    }
  }

  /** The slots after the cache lookup. */
  function Lookup<V>(texts: seq<string>, cache: map<string, V>, key: string -> string, ghost missing: seq<nat>,
                     ghost embed: string -> V): (slots: seq<Option<V>>)
    requires Correct(cache, key, embed) && missing == Missing(texts, cache, key)
    ensures SlotsOk(slots, texts, missing, 0, embed)
  {
    assert missing[0..] == missing;
    assert forall i {:trigger texts[i]} :: 0 <= i < |texts| ==> (i in missing <==> key(texts[i]) !in cache) by {
      forall i | 0 <= i < |texts| ensures i in missing <==> key(texts[i]) !in cache { MissingIs(texts, cache, key, i); }
    }
    seq(|texts|, i requires 0 <= i < |texts| =>
      if key(texts[i]) in cache then Some(cache[key(texts[i])]) else None)
  }

  lemma AllSent<V>(slots: seq<Option<V>>, texts: seq<string>, missing: seq<nat>, embed: string -> V)
    requires SlotsOk(slots, texts, missing, |missing|, embed)
    ensures Filled(slots) == Direct(texts, embed)
  {
    assert missing[|missing|..] == [];
    AllFilled(slots, texts, embed);
  }

  /** Batch `b` is answered, and its write succeeds. */
  predicate Works<V>(service: Service<V>, store: Store, b: nat) { service.answers(b) && store.writes(b) == Stored }

  /** Filling the slots of one batch in place; `pipe` are the cache writes it queues. */
  method FillBatch<V>(before: seq<Option<V>>, texts: seq<string>, missing: seq<nat>, start: nat, end: nat,
                      key: string -> string, embed: string -> V) returns (slots: seq<Option<V>>, pipe: map<string, V>)
    requires start < end <= |missing| && IndicesOk(missing, texts)
    requires SlotsOk(before, texts, missing, start, embed) && Injective(key)
    ensures SlotsOk(slots, texts, missing, end, embed)
    ensures Correct(pipe, key, embed) && Keyed(pipe, key) && Covers(pipe, texts, missing[start..end], key, {})
  {
    slots, pipe := before, map[];
    for j := start to end
      invariant SlotsOk(slots, texts, missing, j, embed)
      invariant Correct(pipe, key, embed) && Keyed(pipe, key)
      invariant Covers(pipe, texts, missing[start..j], key, {})
    {
      var idx := missing[j];
      assert missing[j..] == [idx] + missing[j + 1..];
      assert idx !in missing[j + 1..];
      assert missing[start..j + 1] == missing[start..j] + [idx];
      var vec := embed(texts[idx]);
      slots := slots[idx := Some(vec)];
      pipe := pipe[key(texts[idx]) := vec];
    }
  }

  /** One more batch is in the cache. */
  lemma CoversMore<V>(before: map<string, V>, pipe: map<string, V>, texts: seq<string>, missing: seq<nat>,
                      start: nat, end: nat, key: string -> string, expired: set<string>, now: set<string>)
    requires start <= end <= |missing|
    requires Covers(before, texts, missing[..start], key, expired)
    requires Covers(pipe, texts, missing[start..end], key, {})
    ensures Covers((before - now) + pipe, texts, missing[..end], key, expired + now)
  {
    forall j | 0 <= j < end
      ensures missing[j] < |texts|
      ensures key(texts[missing[j]]) in (before - now) + pipe || key(texts[missing[j]]) in expired + now
    {
      if j < start {
        assert missing[..start][j] == missing[j];
      } else {
        assert missing[start..end][j - start] == missing[j];
      }
    }
  }

  /** What is written has the right vectors, so entries that do not expire keep their value. */
  lemma KeepsMore<V>(initial: map<string, V>, before: map<string, V>, pipe: map<string, V>, key: string -> string,
                     embed: string -> V, expired: set<string>)
    requires Correct(before, key, embed) && Correct(pipe, key, embed) && Keyed(pipe, key)
    requires Keeps(initial, before, expired)
    ensures Correct(before + pipe, key, embed) && Keeps(initial, before + pipe, expired)
  {
    forall k | k in initial && k !in expired ensures k in before + pipe && (before + pipe)[k] == initial[k] {
      if k in pipe {
        var t :| key(t) == k;
      }
    }
  }

  /** All batches but the last one are full. */
  predicate Full(batches: seq<seq<nat>>, batchSize: nat) {
    && (forall b :: 0 <= b < |batches| ==> 0 < |batches[b]| <= batchSize)
    && (forall b :: 0 <= b < |batches| - 1 ==> |batches[b]| == batchSize)
  }

  /** The batches are the first `sent` missing indices, in order, within the limit, and as few as can be. */
  ghost predicate BatchesOk(batches: seq<seq<nat>>, missing: seq<nat>, sent: nat, batchSize: nat) {
    && sent <= |missing| && Join(batches) == missing[..sent] && Full(batches, batchSize)
    && (batches != [] && sent < |missing| ==> |batches[|batches| - 1]| == batchSize)
  }

  lemma OneMoreBatch(batches: seq<seq<nat>>, missing: seq<nat>, start: nat, end: nat, batchSize: nat)
    requires BatchesOk(batches, missing, start, batchSize) && start < end <= |missing|
    requires end - start <= batchSize && (end < |missing| ==> end - start == batchSize)
    ensures BatchesOk(batches + [missing[start..end]], missing, end, batchSize)
  {
    assert missing[..end] == missing[..start] + missing[start..end];
    assert (batches + [missing[start..end]])[..|batches|] == batches;
  }

  /** The Redis side of the service. */
  class EmbeddingCache<!V> {
    var cache: map<string, V>

    constructor (initial: map<string, V>)
      ensures cache == initial
    {
      cache := initial;
    }

    /** `embed_texts`. `batches` lists the indices sent in each call; the result is None when a call to the
        store or to the service fails. */
    method EmbedTexts(texts: seq<string>, key: string -> string, service: Service<V>, store: Store, batchSize: nat)
        returns (r: Option<seq<V>>, batches: seq<seq<nat>>)
      requires Injective(key) && batchSize > 0 && Correct(cache, key, service.embed)
      modifies this
      // from any correct cache the result is the direct embedding of each text, in order
      ensures r.Some? ==> r.value == Direct(texts, service.embed)
      // the cache stays correct, also on failure, and keeps its entries; after a success it covers all texts
      ensures Correct(cache, key, service.embed) && Keeps(old(cache), cache, Expired(store, |batches|))
      ensures r.Some? ==>
        forall i :: 0 <= i < |texts| ==> key(texts[i]) in cache || key(texts[i]) in Expired(store, |batches|)
      // each missing index is sent exactly once and in order, in batches that are full but for the last one
      ensures Join(batches) <= Missing(texts, old(cache), key)
      ensures r.Some? ==> Join(batches) == Missing(texts, old(cache), key)
      ensures Full(batches, batchSize)
      // a failure is a failed lookup, or a failure of the last batch
      ensures r.None? <==>
        texts != [] && (!store.lookup || (|batches| > 0 && !Works(service, store, |batches| - 1)))
    {
      batches := [];
      if texts == [] { return Some([]), []; }
      if !store.lookup { return None, []; }
      ghost var cached := cache;
      var missing := Missing(texts, cache, key);
      var slots := Lookup(texts, cache, key, missing, service.embed);
      var ok;
      ok, slots, batches := SendBatches(slots, texts, missing, key, service, store, batchSize);
      if !ok { return None, batches; }
      AllSent(slots, texts, missing, service.embed);
      CoversAll(cached, cache, texts, key, Expired(store, |batches|));
      r := Some(Filled(slots));
    }

    /** The batching loop over the missing indices. */
    method SendBatches(before: seq<Option<V>>, texts: seq<string>, missing: seq<nat>, key: string -> string,
                       service: Service<V>, store: Store, batchSize: nat)
        returns (ok: bool, slots: seq<Option<V>>, batches: seq<seq<nat>>)
      requires Injective(key) && batchSize > 0 && Correct(cache, key, service.embed)
      requires IndicesOk(missing, texts) && SlotsOk(before, texts, missing, 0, service.embed)
      modifies this
      ensures Correct(cache, key, service.embed) && Keeps(old(cache), cache, Expired(store, |batches|))
      ensures ok ==>
        SlotsOk(slots, texts, missing, |missing|, service.embed)
        && Covers(cache, texts, missing, key, Expired(store, |batches|))
      ensures Join(batches) <= missing && (ok ==> Join(batches) == missing)
      ensures Full(batches, batchSize)
      ensures !ok <==> |batches| > 0 && !Works(service, store, |batches| - 1)
    {
      slots, batches := before, [];
      var start := 0;
      while start < |missing|
        invariant start <= |missing| && SlotsOk(slots, texts, missing, start, service.embed)
        invariant Correct(cache, key, service.embed) && Keeps(old(cache), cache, Expired(store, |batches|))
        invariant Covers(cache, texts, missing[..start], key, Expired(store, |batches|))
        invariant BatchesOk(batches, missing, start, batchSize)
        invariant |batches| > 0 ==> Works(service, store, |batches| - 1)
      {
        var end := if start + batchSize <= |missing| then start + batchSize else |missing|;
        OneMoreBatch(batches, missing, start, end, batchSize);
        batches := batches + [missing[start..end]];
        ok, slots := SendBatch(slots, texts, missing, start, end, key, service, store, |batches| - 1, old(cache));
        if !ok { return; }
        start := end;
      }
      assert missing[..start] == missing;
      ok := true;
    }

    /** One batch: entries expire, the service is called, the slots are filled and the cache is written. */
    method SendBatch(before: seq<Option<V>>, texts: seq<string>, missing: seq<nat>, start: nat, end: nat,
                     key: string -> string, service: Service<V>, store: Store, b: nat, ghost initial: map<string, V>)
        returns (ok: bool, slots: seq<Option<V>>)
      requires start < end <= |missing| && IndicesOk(missing, texts)
      requires SlotsOk(before, texts, missing, start, service.embed)
      requires Injective(key) && Correct(cache, key, service.embed) && Keeps(initial, cache, Expired(store, b))
      requires Covers(cache, texts, missing[..start], key, Expired(store, b))
      modifies this
      ensures ok <==> Works(service, store, b)
      ensures Correct(cache, key, service.embed) && Keeps(initial, cache, Expired(store, b + 1))
      ensures ok ==>
        SlotsOk(slots, texts, missing, end, service.embed)
        && Covers(cache, texts, missing[..end], key, Expired(store, b + 1))
    {
      slots := before;
      ghost var expired, was := Expired(store, b), cache;
      cache := cache - store.expires(b);
      if !service.answers(b) { return false, slots; }
      var pipe;
      slots, pipe := FillBatch(slots, texts, missing, start, end, key, service.embed);
      KeepsMore(initial, cache, pipe, key, service.embed, expired + store.expires(b));
      CoversMore(was, pipe, texts, missing, start, end, key, expired, store.expires(b));
      if store.writes(b) != FailedBefore {
        cache := cache + pipe;
      }
      ok := store.writes(b) == Stored;
    }
  }
}
