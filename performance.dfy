/** Performance bookkeeping (`pyword/pyword/features/performance.py`): the
    chunk cache of the large-document optimizer and the performance
    monitor's bounded metric histories, warnings, averages and summary. The
    document file is a parameter: `None` when it cannot be opened, otherwise
    its text. */
module Performance {
  import opened Common

  /** Python's `//`, which rounds toward negative infinity. */
  function FloorDiv(a: int, b: int): (q: int)
    requires b != 0
    ensures b > 0 ==> q * b <= a < q * b + b
    ensures b < 0 ==> q * b >= a > q * b + b
  {
    if b > 0 then a / b else (-a) / (-b)
  }

  /** `f.seek(pos); f.read(n)`: at most `n` characters from `pos`, all the
      rest when `n` is negative, nothing past the end. */
  function ReadAt(file: string, pos: nat, n: int): (r: string)
    ensures pos >= |file| ==> r == ""
    ensures pos < |file| ==> pos + |r| <= |file| && r == file[pos..pos + |r|]
    ensures n >= 0 ==> |r| <= n
    ensures n < 0 && pos < |file| ==> r == file[pos..]
  {
    if pos >= |file| then ""
    else if n < 0 || pos + n > |file| then file[pos..]
    else file[pos..pos + n]
  }

  /** The chunks within `keep` of chunk `c`, with their content. */
  function Kept(m: map<int, string>, c: int, keep: int): (r: map<int, string>)
    ensures forall k :: k in r <==> k in m && Abs(k - c) <= keep
    ensures forall k :: k in r ==> r[k] == m[k]
  {
    map k | k in m && Abs(k - c) <= keep :: m[k]
  }

  /** Clearing twice with the same position and range removes nothing more. */
  lemma KeptIdempotent(m: map<int, string>, c: int, keep: int)
    ensures Kept(Kept(m, c, keep), c, keep) == Kept(m, c, keep)
  {
  }

  /** A wider range keeps every chunk a narrower one keeps. */
  lemma KeptMonotone(m: map<int, string>, c: int, k1: int, k2: int)
    requires k1 <= k2
    ensures Kept(m, c, k1).Keys <= Kept(m, c, k2).Keys
  {
  }

  class LargeDocumentOptimizer {
    var chunkSize: int
    var loadedChunks: map<int, string>
    /** The cached chunk indices in insertion order, the order in which
        Python iterates the dictionary's keys. */
    var order: seq<int>
    var totalChunks: int
    var currentChunk: int

    predicate Valid()
      reads this
    {
      Distinct(order) && (forall k :: k in loadedChunks ==> k in order) && (forall k :: k in order ==> k in loadedChunks)
    }

    constructor (chunkSize: int)
      ensures this.chunkSize == chunkSize && loadedChunks == map[] && totalChunks == 0 && currentChunk == 0
      ensures Valid()
    {
      this.chunkSize := chunkSize;
      loadedChunks := map[];
      order := [];
      totalChunks := 0;
      currentChunk := 0;
    }

    /** Caching a chunk under a new index puts the index last. */
    method Cache(index: int, data: string)
      requires Valid()
      modifies this`loadedChunks, this`order
      ensures loadedChunks == old(loadedChunks)[index := data] && Valid()
    {
      if index !in loadedChunks {
        DistinctSnoc(order, index);
        order := order + [index];
      }
      loadedChunks := loadedChunks[index := data];
    }

    /** `load_document_chunked`: fails without a file or with a chunk size
        of zero (the division raises); otherwise counts the chunks and, when
        the file can be opened and read (`readable`), caches the first one
        as chunk 0. An existing file that cannot be read fails with the
        chunk count already set. */
    method LoadDocumentChunked(file: Option<string>, readable: bool) returns (ok: bool)
      requires Valid()
      modifies this
      ensures ok <==> file.Some? && chunkSize != 0 && readable
      ensures file.None? || chunkSize == 0 ==> totalChunks == old(totalChunks)
      ensures file.Some? && chunkSize != 0 ==> totalChunks == FloorDiv(|file.value|, chunkSize) + 1
      ensures !ok ==> loadedChunks == old(loadedChunks) && currentChunk == old(currentChunk)
      ensures ok ==> loadedChunks == old(loadedChunks)[0 := ReadAt(file.value, 0, chunkSize)] && currentChunk == 0
      ensures chunkSize == old(chunkSize) && Valid()
    {
      if file.None? || chunkSize == 0 {
        return false;
      }
      totalChunks := FloorDiv(|file.value|, chunkSize) + 1;
      if !readable {
        return false;
      }
      Cache(0, ReadAt(file.value, 0, chunkSize));
      currentChunk := 0;
      ok := true;
    }

    /** `get_chunk`: a cached chunk is returned as it is; otherwise the
        chunk is read from its offset and cached, and `None` comes back when
        the file cannot be read or the offset is negative. */
    method GetChunk(index: int, file: Option<string>) returns (r: Option<string>)
      requires Valid()
      modifies this`loadedChunks, this`order
      ensures index in old(loadedChunks) ==> r == Some(old(loadedChunks)[index]) && loadedChunks == old(loadedChunks)
      ensures index !in old(loadedChunks) && (file.None? || index * chunkSize < 0) ==>
                r == None && loadedChunks == old(loadedChunks)
      ensures index !in old(loadedChunks) && file.Some? && index * chunkSize >= 0 ==>
                r == Some(ReadAt(file.value, index * chunkSize, chunkSize)) && loadedChunks == old(loadedChunks)[index := r.value]
      ensures r.Some? ==> index in loadedChunks && loadedChunks[index] == r.value
      ensures Valid()
    {
      if index in loadedChunks {
        return Some(loadedChunks[index]);
      }
      if file.None? || index * chunkSize < 0 {
        return None;
      }
      var data := ReadAt(file.value, index * chunkSize, chunkSize);
      Cache(index, data);
      r := Some(data);
    }

    /** `clear_unused_chunks`: gathers the chunks farther than `keep` from
        `current`, then deletes them. */
    method ClearUnusedChunks(current: int, keep: int)
      requires Valid()
      modifies this`loadedChunks, this`order
      ensures loadedChunks == Kept(old(loadedChunks), current, keep) && Valid()
    {
      var toRemove := FarChunks(order, current, keep);
      ghost var m0 := loadedChunks;
      var i := 0;
      while i < |toRemove|
        invariant 0 <= i <= |toRemove| && Valid()
        invariant forall k :: k in loadedChunks <==> k in m0 && k !in toRemove[..i]
        invariant forall k :: k in loadedChunks ==> loadedChunks[k] == m0[k]
      {
        assert toRemove[..i + 1] == toRemove[..i] + [toRemove[i]];
        RemoveFirstDistinct(order, toRemove[i]);
        order := RemoveFirst(order, toRemove[i]);
        loadedChunks := loadedChunks - {toRemove[i]};
        i := i + 1;
      }
      assert toRemove[..i] == toRemove;
      forall k ensures k in loadedChunks <==> k in Kept(m0, current, keep) {
        assert k in toRemove <==> k in m0 && Abs(k - current) > keep;
      }
      assert loadedChunks == Kept(m0, current, keep);
    }
  }

  /** The first loop of `clear_unused_chunks`: the cached indices farther
      than `keep` from `current`, in cache order. */
  method FarChunks(order: seq<int>, current: int, keep: int) returns (toRemove: seq<int>)
    ensures forall k :: k in toRemove <==> k in order && Abs(k - current) > keep
  {
    toRemove := [];
    var i := 0;
    while i < |order|
      invariant 0 <= i <= |order|
      invariant forall k :: k in toRemove <==> k in order[..i] && Abs(k - current) > keep
    {
      assert order[..i + 1] == order[..i] + [order[i]];
      if Abs(order[i] - current) > keep {
        toRemove := toRemove + [order[i]];
      }
      i := i + 1;
    }
    assert order[..i] == order;
  }

  /** `max_metric_history`. */
  const MaxMetricHistory: nat := 100

  /** The last `n` entries, as `h[-n:]` keeps them once `h` is too long. */
  function Recent(h: seq<real>, n: nat): (r: seq<real>)
    ensures |r| == if |h| > n then n else |h|
    ensures r == h[|h| - |r|..]
  {
    if |h| > n then h[|h| - n..] else h
  }

  /** Keeping the recent history of an appended list keeps the new value
      last, as long as anything is kept. */
  lemma RecentSnocLast(h: seq<real>, v: real, n: nat)
    requires n > 0
    ensures Recent(h + [v], n)[|Recent(h + [v], n)| - 1] == v
  {
    var r := Recent(h + [v], n);
    assert r[|r| - 1] == (h + [v])[|h + [v]| - 1];
  }

  function MinReal(xs: seq<real>): (m: real)
    requires xs != []
    ensures forall i :: 0 <= i < |xs| ==> m <= xs[i]
    ensures m in xs
  {
    if |xs| == 1 then xs[0]
    else
      var rest := MinReal(xs[1..]);
      assert forall i :: 1 <= i < |xs| ==> xs[i] == xs[1..][i - 1];
      if xs[0] <= rest then xs[0] else rest
  }

  function MaxReal(xs: seq<real>): (m: real)
    requires xs != []
    ensures forall i :: 0 <= i < |xs| ==> xs[i] <= m
    ensures m in xs
  {
    if |xs| == 1 then xs[0]
    else
      var rest := MaxReal(xs[1..]);
      assert forall i :: 1 <= i < |xs| ==> xs[i] == xs[1..][i - 1];
      if xs[0] >= rest then xs[0] else rest
  }

  /** `sum(values) / len(values)`. */
  function Mean(xs: seq<real>): real
    requires xs != []
  {
    Sum(xs) / (|xs| as real)
  }

  lemma {:induction false} SumBetween(xs: seq<real>, lo: real, hi: real)
    requires forall i :: 0 <= i < |xs| ==> lo <= xs[i] <= hi
    ensures (|xs| as real) * lo <= Sum(xs) <= (|xs| as real) * hi
  {
    if xs != [] {
      SumBetween(xs[1..], lo, hi);
    }
  }

  lemma DivBetween(s: real, n: real, lo: real, hi: real)
    requires n > 0.0 && n * lo <= s <= n * hi
    ensures lo <= s / n <= hi
  {
    var q := s / n;
    assert q * n == s;
  }

  /** The mean lies between the smallest and the largest value. */
  lemma MeanBounds(xs: seq<real>)
    requires xs != []
    ensures MinReal(xs) <= Mean(xs) <= MaxReal(xs)
  {
    var lo, hi := MinReal(xs), MaxReal(xs);
    SumBetween(xs, lo, hi);
    MeanBetween(xs, lo, hi);
  }

  lemma MeanBetween(xs: seq<real>, lo: real, hi: real)
    requires xs != [] && (|xs| as real) * lo <= Sum(xs) <= (|xs| as real) * hi
    ensures lo <= Mean(xs) <= hi
  {
    DivBetween(Sum(xs), |xs| as real, lo, hi);
  }

  /** The warning threshold of a metric, where it has one. */
  function Threshold(name: string): (t: Option<real>)
    ensures t.Some? <==> name in {"memory", "render_time", "save_time"}
  {
    if name == "memory" then Some((500 * 1024 * 1024) as real)
    else if name == "render_time" then Some(1.0)
    else if name == "save_time" then Some(5.0)
    else None
  }

  /** `_check_performance_issues`: a warning is due exactly when the value
      is strictly above the metric's threshold. */
  predicate Exceeds(name: string, value: real)
  {
    Threshold(name).Some? && value > Threshold(name).value
  }

  datatype MetricSummary = MetricSummary(average: real, min: real, max: real, count: nat)

  function Summarize(xs: seq<real>): (s: MetricSummary)
    requires xs != []
    ensures s.min <= s.average <= s.max && s.count == |xs|
    ensures s.min in xs && s.max in xs
  {
    MeanBounds(xs);
    MetricSummary(Mean(xs), MinReal(xs), MaxReal(xs), |xs|)
  }

  /** The stored history of a metric, empty for one never recorded. */
  function History(metrics: map<string, seq<real>>, name: string): seq<real>
  {
    if name in metrics then metrics[name] else []
  }

  class PerformanceMonitor {
    var metrics: map<string, seq<real>>
    /** The metrics `performance_warning` was emitted for, oldest first. */
    var warnings: seq<string>

    /** Every history is within the bound. */
    predicate Valid()
      reads this
    {
      forall k :: k in metrics ==> |metrics[k]| <= MaxMetricHistory
    }

    constructor ()
      ensures metrics == map["memory" := [], "render_time" := [], "save_time" := []]
      ensures warnings == [] && Valid()
    {
      metrics := map["memory" := [], "render_time" := [], "save_time" := []];
      warnings := [];
    }

    /** `record_metric`: appends the value, keeps the last 100 values, and
        warns when the value exceeds the metric's threshold. */
    method RecordMetric(name: string, value: real) returns (warned: bool)
      requires Valid()
      modifies this
      ensures metrics == old(metrics)[name := Recent(History(old(metrics), name) + [value], MaxMetricHistory)]
      ensures |metrics[name]| > 0 && metrics[name][|metrics[name]| - 1] == value
      ensures warned <==> Exceeds(name, value)
      ensures warnings == old(warnings) + (if warned then [name] else [])
      ensures Valid()
    {
      var h := History(metrics, name) + [value];
      if |h| > MaxMetricHistory {
        h := h[|h| - MaxMetricHistory..];
      }
      RecentSnocLast(History(metrics, name), value, MaxMetricHistory);
      assert h == Recent(History(metrics, name) + [value], MaxMetricHistory);
      assert |h| > 0 && |h| <= MaxMetricHistory && h[|h| - 1] == value;
      metrics := metrics[name := h];
      warned := Exceeds(name, value);
      if warned {
        warnings := warnings + [name];
      }
    }

    /** `get_average_metric`: `None` without data, the mean otherwise. */
    function AverageMetric(name: string): (r: Option<real>)
      reads this
      ensures r.None? <==> name !in metrics || metrics[name] == []
      ensures r.Some? ==> r.value == Mean(metrics[name])
      ensures r.Some? ==> MinReal(metrics[name]) <= r.value <= MaxReal(metrics[name])
    {
      if name in metrics && metrics[name] != [] then
        MeanBounds(metrics[name]);
        Some(Mean(metrics[name]))
      else None
    }

    /** `get_metrics_summary`: an entry for each metric with data. */
    function MetricsSummary(): (r: map<string, MetricSummary>)
      reads this
      ensures forall k :: k in r <==> k in metrics && metrics[k] != []
      ensures forall k :: k in r ==> r[k].min <= r[k].average <= r[k].max && r[k].count == |metrics[k]|
      ensures forall k :: k in r ==> r[k].average == Mean(metrics[k])
    {
      map k | k in metrics && metrics[k] != [] :: Summarize(metrics[k])
    }
  }
}
