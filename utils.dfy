/** rag_guard/utils.py: chunk cleaning and batching, plus the length cut that
    the recogniser, the pipeline and the cleaner all apply. */
module Utils {
  import opened Wrappers
  import opened PyStrings

  /** Appended to every text cut at its length limit. */
  const TruncationMarker: string := "...[截断]"

  /** `s[:n] + "...[截断]"` when `s` is longer than `n`, else `s` unchanged. */
  function Truncate(s: string, n: int): string {
    if |s| > n then Take(s, n) + TruncationMarker else s
  }

  /** A cut text is a prefix of the original followed by the marker; with a
      non-negative limit the prefix has exactly the limit's length. */
  lemma TruncateShape(s: string, n: int)
    ensures |s| <= n ==> Truncate(s, n) == s
    ensures |s| > n ==> exists p :: 0 <= p <= |s| && Truncate(s, n) == s[..p] + TruncationMarker
    ensures 0 <= n < |s| ==> Truncate(s, n) == s[..n] + TruncationMarker
  {
    if |s| > n {
      assert Truncate(s, n) == s[..|Take(s, n)|] + TruncationMarker;
    }
  }

  // ------------------------------------------------------------ validate_chunks

  /** The outcome of cleaning `chunks[i..]` with `clean` applied to each
      string chunk; a non-string chunk raises ValueError naming its 1-based
      position. */
  function CleanFrom(chunks: seq<Dyn<string>>, i: nat, clean: string -> Option<string>): Result<seq<string>>
    decreases |chunks| - i
  {
    if i >= |chunks| then Ok([])
    else
      match chunks[i]
      case Other => Err(ValueError(ChunkNotString(i + 1)))
      case Of(c) =>
        var rest := CleanFrom(chunks, i + 1, clean);
        if rest.Err? then rest
        else match clean(c)
          case None => rest
          case Some(t) => Ok([t] + rest.value)
  }

  /** One string chunk: dropped when blank, else stripped and cut. */
  function CleanOne(c: string, maxLength: int): Option<string> {
    var t := Strip(c);
    if t == [] then None else Some(Truncate(t, maxLength))
  }

  function Cleaner(maxLength: int): string -> Option<string> {
    c => CleanOne(c, maxLength)
  }

  /** `validate_chunks(chunks, max_length)` */
  function Cleaned(chunks: seq<Dyn<string>>, maxLength: int): Result<seq<string>> {
    CleanFrom(chunks, 0, Cleaner(maxLength))
  }

  function Prepend(xs: seq<string>, r: Result<seq<string>>): Result<seq<string>> {
    match r
    case Ok(ys) => Ok(xs + ys)
    case Err(e) => Err(e)
  }

  lemma PrependStep(xs: seq<string>, x: string, r: Result<seq<string>>)
    ensures Prepend(xs, if r.Err? then r else Ok([x] + r.value)) == Prepend(xs + [x], r)
  {
    if r.Ok? {
      assert xs + ([x] + r.value) == (xs + [x]) + r.value;
    }
  }

  lemma PrependNothing(r: Result<seq<string>>)
    ensures Prepend([], r) == r
  {
    if r.Ok? {
      assert [] + r.value == r.value;
    }
  }

  /** The loop of validate_chunks, which appends each cleaned chunk in turn. */
  method ValidateChunks(chunks: seq<Dyn<string>>, maxLength: int) returns (r: Result<seq<string>>)
    ensures r == Cleaned(chunks, maxLength)
  {
    var cleaned: seq<string> := [];
    var i := 0;
    PrependNothing(CleanFrom(chunks, 0, Cleaner(maxLength)));
    while i < |chunks|
      invariant 0 <= i <= |chunks|
      invariant Cleaned(chunks, maxLength) == Prepend(cleaned, CleanFrom(chunks, i, Cleaner(maxLength)))
    {
      CleanStep(chunks, i, Cleaner(maxLength), cleaned);
      if chunks[i].Other? {
        return Err(ValueError(ChunkNotString(i + 1)));
      }
      var chunk := Strip(chunks[i].value);
      if chunk != [] {
        if |chunk| > maxLength {
          chunk := Take(chunk, maxLength) + TruncationMarker;
        }
        assert Cleaner(maxLength)(chunks[i].value) == Some(chunk);
        cleaned := cleaned + [chunk];
      } else {
        assert Cleaner(maxLength)(chunks[i].value) == None;
      }
      i := i + 1;
    }
    assert cleaned + [] == cleaned;
    return Ok(cleaned);
  }

  /** One iteration of the cleaning loop against the cleaning outcome: a
      non-string chunk fails, a dropped chunk adds nothing, a kept one is
      appended. */
  lemma CleanStep(chunks: seq<Dyn<string>>, i: nat, clean: string -> Option<string>, cleaned: seq<string>)
    requires i < |chunks|
    ensures chunks[i].Other? ==> Prepend(cleaned, CleanFrom(chunks, i, clean)) == Err(ValueError(ChunkNotString(i + 1)))
    ensures chunks[i].Of? && clean(chunks[i].value).None? ==>
      Prepend(cleaned, CleanFrom(chunks, i, clean)) == Prepend(cleaned, CleanFrom(chunks, i + 1, clean))
    ensures chunks[i].Of? && clean(chunks[i].value).Some? ==>
      Prepend(cleaned, CleanFrom(chunks, i, clean)) == Prepend(cleaned + [clean(chunks[i].value).value], CleanFrom(chunks, i + 1, clean))
  {
    if chunks[i].Of? && clean(chunks[i].value).Some? {
      PrependStep(cleaned, clean(chunks[i].value).value, CleanFrom(chunks, i + 1, clean));
    }
  }

  /** Cleaning fails exactly when some chunk is not a string, and then names
      the first such chunk by its 1-based position. */
  lemma {:induction false} CleanFromFails(chunks: seq<Dyn<string>>, i: nat, clean: string -> Option<string>)
    ensures CleanFrom(chunks, i, clean).Err? <==> exists j :: i <= j < |chunks| && chunks[j].Other?
    ensures CleanFrom(chunks, i, clean).Err? ==>
      exists j :: i <= j < |chunks| && chunks[j].Other?
        && CleanFrom(chunks, i, clean).error == ValueError(ChunkNotString(j + 1))
        && forall l :: i <= l < j ==> chunks[l].Of?
    decreases |chunks| - i
  {
    if i < |chunks| {
      if chunks[i].Other? {
        assert chunks[i].Other?;
      } else {
        CleanFromFails(chunks, i + 1, clean);
        var rest := CleanFrom(chunks, i + 1, clean);
        if rest.Err? {
          var j :| i + 1 <= j < |chunks| && chunks[j].Other?
            && rest.error == ValueError(ChunkNotString(j + 1))
            && forall l :: i + 1 <= l < j ==> chunks[l].Of?;
          assert CleanFrom(chunks, i, clean) == rest;
          assert forall l :: i <= l < j ==> chunks[l].Of?;
        } else {
          assert CleanFrom(chunks, i, clean).Ok?;
        }
      }
    }
  }

  /** What `clean` makes of each chunk on its own, and nothing for a
      non-string. */
  function Cleanings(chunks: seq<Dyn<string>>, clean: string -> Option<string>): (r: seq<Option<string>>)
    ensures |r| == |chunks|
    ensures forall j :: 0 <= j < |chunks| ==> r[j] == if chunks[j].Of? then clean(chunks[j].value) else None
  {
    seq(|chunks|, j requires 0 <= j < |chunks| => if chunks[j].Of? then clean(chunks[j].value) else None)
  }

  /** `out` picks, in order, exactly the present cleanings from position `i`
      on: `idx` says which position each element of `out` comes from. */
  predicate Picks(cs: seq<Option<string>>, i: nat, idx: seq<nat>, out: seq<string>) {
    |idx| == |out|
    && (forall k :: 0 <= k < |idx| ==> i <= idx[k] < |cs| && cs[idx[k]] == Some(out[k]))
    && (forall k, k' :: 0 <= k < k' < |idx| ==> idx[k] < idx[k'])
    && (forall j :: i <= j < |cs| && cs[j].Some? ==> j in idx)
  }

  lemma PicksCons(cs: seq<Option<string>>, i: nat, idx: seq<nat>, out: seq<string>, t: string)
    requires i < |cs| && cs[i] == Some(t)
    requires Picks(cs, i + 1, idx, out)
    ensures Picks(cs, i, [i] + idx, [t] + out)
  {
    var idx', out' := [i] + idx, [t] + out;
    forall k | 0 <= k < |idx'| ensures i <= idx'[k] < |cs| && cs[idx'[k]] == Some(out'[k]) {
      if k > 0 {
        assert idx'[k] == idx[k - 1] && out'[k] == out[k - 1];
      }
    }
    forall k, k' | 0 <= k < k' < |idx'| ensures idx'[k] < idx'[k'] {
      assert idx'[k'] == idx[k' - 1];
      if k > 0 {
        assert idx'[k] == idx[k - 1];
      }
    }
    forall j | i <= j < |cs| && cs[j].Some? ensures j in idx' {
      if j > i {
        assert j in idx;
      }
    }
  }

  lemma PicksSkip(cs: seq<Option<string>>, i: nat, idx: seq<nat>, out: seq<string>)
    requires i < |cs| && cs[i].None?
    requires Picks(cs, i + 1, idx, out)
    ensures Picks(cs, i, idx, out)
  {
  }

  lemma {:induction false} CleanFromPicks(chunks: seq<Dyn<string>>, i: nat, clean: string -> Option<string>)
    requires CleanFrom(chunks, i, clean).Ok?
    ensures exists idx :: Picks(Cleanings(chunks, clean), i, idx, CleanFrom(chunks, i, clean).value)
    decreases |chunks| - i
  {
    var cs := Cleanings(chunks, clean);
    if i >= |chunks| {
      assert Picks(cs, i, [], []);
    } else {
      var rest := CleanFrom(chunks, i + 1, clean);
      CleanFromPicks(chunks, i + 1, clean);
      var idx :| Picks(cs, i + 1, idx, rest.value);
      var o := cs[i];
      assert CleanFrom(chunks, i, clean) == if o.None? then rest else Ok([o.value] + rest.value);
      if o.None? {
        PicksSkip(cs, i, idx, rest.value);
      } else {
        PicksCons(cs, i, idx, rest.value, o.value);
      }
    }
  }

  /** Every cleaned chunk is non-empty and has no whitespace at either end,
      there are at most as many as there were inputs, and they are exactly the
      non-blank inputs, in order, each stripped and cut. */
  lemma CleanedChunks(chunks: seq<Dyn<string>>, maxLength: int)
    requires Cleaned(chunks, maxLength).Ok?
    ensures var out := Cleaned(chunks, maxLength).value;
      |out| <= |chunks|
      && (forall k :: 0 <= k < |out| ==> out[k] != [] && StrippedOf(out[k], Whitespace))
      && exists idx :: Picks(Cleanings(chunks, Cleaner(maxLength)), 0, idx, out)
  {
    CleanFromPicks(chunks, 0, Cleaner(maxLength));
    var cs := Cleanings(chunks, Cleaner(maxLength));
    var out := Cleaned(chunks, maxLength).value;
    var idx :| Picks(cs, 0, idx, out);
    forall k | 0 <= k < |out| ensures out[k] != [] && StrippedOf(out[k], Whitespace) {
      var j := idx[k];
      assert chunks[j].Of? && cs[j] == Some(out[k]);
      CleanOneShape(chunks[j].value, maxLength);
    }
    IncreasingBound(idx, |chunks|);
  }

  /** A kept chunk is non-empty and has no whitespace at either end. */
  lemma CleanOneShape(c: string, maxLength: int)
    ensures Cleaner(maxLength)(c).Some? ==>
      Cleaner(maxLength)(c).value != [] && StrippedOf(Cleaner(maxLength)(c).value, Whitespace)
  {
    var t := Strip(c);
    if t != [] {
      StripCharsSpec(c, Whitespace);
      CutStripped(t, maxLength);
    }
  }

  /** Cutting a stripped, non-empty text keeps it stripped and non-empty. */
  lemma CutStripped(t: string, n: int)
    requires t != [] && StrippedOf(t, Whitespace)
    ensures Truncate(t, n) != [] && StrippedOf(Truncate(t, n), Whitespace)
  {
    var r := Truncate(t, n);
    StripCharsSpec(t, Whitespace);
    if |t| > n {
      var p := Take(t, n);
      assert r == p + TruncationMarker;
      assert r[|r| - 1] == ']';
      assert ']' !in Whitespace;
      if p == [] {
        assert r[0] == '.';
        assert '.' !in Whitespace;
      } else {
        assert r[0] == t[0];
      }
    }
  }

  lemma {:induction false} IncreasingBound(idx: seq<nat>, n: nat)
    requires forall k :: 0 <= k < |idx| ==> idx[k] < n
    requires forall k, k' :: 0 <= k < k' < |idx| ==> idx[k] < idx[k']
    ensures |idx| <= n
    decreases |idx|
  {
    if idx != [] {
      var last := idx[|idx| - 1];
      IncreasingBound(idx[..|idx| - 1], last);
    }
  }

  // -------------------------------------------------------------- batch_process

  /** The successive slices `items[i:i + size]` for `i` in `range(0, len(items), size)`. */
  function Chunked<T>(items: seq<T>, size: nat): (r: seq<seq<T>>)
    requires size > 0
    decreases |items|
  {
    if items == [] then []
    else if |items| <= size then [items]
    else [items[..size]] + Chunked(items[size..], size)
  }

  /** `list(batch_process(items, batch_size))`: a step of 0 raises ValueError
      (as `range` does), a negative step yields nothing. */
  function Batches<T>(items: seq<T>, batchSize: int): Result<seq<seq<T>>> {
    if batchSize == 0 then Err(ValueError(ZeroBatchSize))
    else if batchSize < 0 then Ok([])
    else Ok(Chunked(items, batchSize))
  }

  /** The generator loop of `batch_process`, collected: `i` runs over
      `range(0, len(items), batch_size)` and each step takes
      `items[i:i + batch_size]`. */
  method BatchProcess<T>(items: seq<T>, batchSize: int) returns (r: Result<seq<seq<T>>>)
    ensures r == Batches(items, batchSize)
  {
    if batchSize == 0 {
      return Err(ValueError(ZeroBatchSize));
    }
    if batchSize < 0 {
      return Ok([]);
    }
    var batches: seq<seq<T>> := [];
    var i := 0;
    while i < |items|
      invariant i == |batches| * batchSize
      invariant (|batches| - 1) * batchSize < |items|
      invariant forall k :: 0 <= k < |batches| ==> batches[k] == Slice(items, k * batchSize, k * batchSize + batchSize)
      decreases |items| - i
    {
      MulPred(|batches| + 1, batchSize);
      batches := batches + [Slice(items, i, i + batchSize)];
      i := i + batchSize;
    }
    ChunkedUnique(items, batchSize, batches);
    return Ok(batches);
  }

  /** The three outcomes of `batch_process`: a step of 0 is a ValueError, a
      negative step yields no batch, and a positive one yields the slices
      `items[k*size:(k+1)*size]`, which concatenate back to the items. */
  lemma BatchesSpec<T>(items: seq<T>, batchSize: int)
    ensures Batches(items, batchSize).Err? <==> batchSize == 0
    ensures batchSize == 0 ==> Batches(items, batchSize) == Err(ValueError(ZeroBatchSize))
    ensures batchSize < 0 ==> Batches(items, batchSize) == Ok([])
    ensures batchSize > 0 ==> Concat(Batches(items, batchSize).value) == items
    ensures batchSize > 0 ==> forall k :: 0 <= k < |Batches(items, batchSize).value| ==>
              Batches(items, batchSize).value[k] == Slice(items, k * batchSize, k * batchSize + batchSize)
  {
    if batchSize > 0 {
      ChunkedShape(items, batchSize);
      forall k | 0 <= k < |Chunked(items, batchSize)|
        ensures Chunked(items, batchSize)[k] == Slice(items, k * batchSize, k * batchSize + batchSize)
      {
        ChunkedAt(items, batchSize, k);
      }
    }
  }

  /** The slices at multiples of `size` are the batches once there are just
      enough of them to cover the items. */
  lemma ChunkedUnique<T>(items: seq<T>, size: nat, bs: seq<seq<T>>)
    requires size > 0
    requires |items| <= |bs| * size && (|bs| - 1) * size < |items|
    requires forall k :: 0 <= k < |bs| ==> bs[k] == Slice(items, k * size, k * size + size)
    ensures bs == Chunked(items, size)
  {
    var c := Chunked(items, size);
    ChunkedShape(items, size);
    if |bs| < |c| {
      MulMono(|bs|, |c| - 1, size);
    } else if |c| < |bs| {
      MulMono(|c|, |bs| - 1, size);
    }
    forall k | 0 <= k < |bs| ensures bs[k] == c[k] {
      ChunkedAt(items, size, k);
    }
  }

  lemma MulMono(a: int, b: int, size: nat)
    requires a <= b
    ensures a * size <= b * size
  {
  }

  function Concat<T>(parts: seq<seq<T>>): seq<T> {
    if parts == [] then [] else parts[0] + Concat(parts[1..])
  }

  /** The batches concatenate back to the items, every batch but the last
      holds exactly `size` items, the last is non-empty, and there are
      ⌈n / size⌉ of them: the fewest batches of `size` that hold all items. */
  lemma {:induction false} ChunkedShape<T>(items: seq<T>, size: nat)
    requires size > 0
    ensures Concat(Chunked(items, size)) == items
    ensures (|Chunked(items, size)| - 1) * size < |items| <= |Chunked(items, size)| * size
    ensures forall k :: 0 <= k < |Chunked(items, size)| - 1 ==> |Chunked(items, size)[k]| == size
    ensures Chunked(items, size) != [] ==> 0 < |Chunked(items, size)[|Chunked(items, size)| - 1]| <= size
    decreases |items|
  {
    var r := Chunked(items, size);
    if items == [] {
    } else if |items| <= size {
      assert r == [items];
      assert Concat(r) == items + Concat([]);
    } else {
      var rest := Chunked(items[size..], size);
      ChunkedShape(items[size..], size);
      assert r == [items[..size]] + rest;
      assert r[1..] == rest;
      assert items == items[..size] + items[size..];
      MulPred(|r|, size);
      MulPred(|r| - 1, size);
      assert forall k :: 1 <= k < |r| ==> r[k] == rest[k - 1];
    }
  }

  lemma MulPred(k: int, size: int)
    ensures (k - 1) * size + size == k * size
  {
  }

  /** Batch `k` is the slice `items[k*size:(k+1)*size]`, the view of the range
      loop in the source. */
  lemma {:induction false} ChunkedAt<T>(items: seq<T>, size: nat, k: nat)
    requires size > 0 && k < |Chunked(items, size)|
    ensures Chunked(items, size)[k] == Slice(items, k * size, k * size + size)
    decreases |items|
  {
    if k == 0 {
      assert k * size == 0;
      if |items| <= size {
        assert Chunked(items, size) == [items];
        assert Slice(items, 0, size) == items;
      } else {
        assert Chunked(items, size)[0] == items[..size];
      }
    } else {
      assert |items| > size;
      var rest := items[size..];
      ChunkedAt(rest, size, k - 1);
      assert Chunked(items, size)[k] == Chunked(rest, size)[k - 1];
      var a := (k - 1) * size;
      MulPred(k, size);
      assert a + size == k * size;
      SliceShift(items, size, a, a + size);
      assert Slice(rest, a, a + size) == Slice(items, k * size, k * size + size);
    }
  }

  /** Slicing after dropping a prefix is slicing further along. */
  lemma SliceShift<T>(items: seq<T>, d: nat, a: int, b: int)
    requires d <= |items| && 0 <= a <= b
    ensures Slice(items[d..], a, b) == Slice(items, a + d, b + d)
  {
    var rest := items[d..];
    if b <= |rest| {
      assert rest[a..b] == items[a + d..b + d];
    } else if a <= |rest| {
      assert rest[a..|rest|] == items[a + d..|items|];
    }
  }
}
