/**
 * services/selenium_parser.py: how a list of product URLs is capped per
 * brand, split into contiguous chunks for parallel workers, checked chunk by
 * chunk, routed into per-brand buckets, flattened into a URL-to-status map,
 * and formatted into message blocks.
 *
 * The browser, the thread pool and the two product checkers are not
 * modelled here: checking one supported URL is an input `probe` that gives
 * the status text, or None when the check raises; whether a worker's browser
 * starts is an input `starts`, a function of the chunk it is given; the
 * order in which chunks complete is an arbitrary permutation.
 */
module SeleniumParser {
  import opened Text
  import opened Urls

  const MaxPerBrand: nat := 50
  const Unsupported: string := "❗ Непідтримуваний домен (не Zara/Bershka)"
  const WorkerError: string := "⚠️ Помилка під час перевірки (worker)"
  const NotChecked: string := "⚠️ Не вдалося перевірити URL"

  /** A URL and the status text written for it. */
  type Checked = (string, string)

  /** A computation that returns a value or raises the named Python exception. */
  datatype Outcome<T> = Ok(value: T) | Raises(exception: string)

  // ---------------------------------------------------------------------------
  // The per-brand cap

  /** The URLs that `detect_brand` assigns to `brand` (None: to no brand), in
      input order. */
  function OfBrand(urls: seq<string>, brand: Option<Brand>): (r: seq<string>)
    ensures |r| <= |urls|
    ensures forall i :: 0 <= i < |r| ==> r[i] in urls && DetectBrand(r[i]) == brand
  {
    if urls == [] then []
    else
      var u := urls[|urls| - 1];
      OfBrand(urls[..|urls| - 1], brand) + (if DetectBrand(u) == brand then [u] else [])
  }

  /** Every URL of the brand is kept by `OfBrand`. */
  lemma {:induction false} OfBrandKeeps(urls: seq<string>, brand: Option<Brand>, u: string)
    requires u in urls && DetectBrand(u) == brand
    ensures u in OfBrand(urls, brand)
  {
    var init := urls[..|urls| - 1];
    if u in init {
      OfBrandKeeps(init, brand, u);
    } else {
      assert u == urls[|urls| - 1];
    }
  }

  /** The first `n` elements, or all of them when there are fewer. */
  function Take(s: seq<string>, n: nat): (r: seq<string>)
    ensures |r| == if |s| <= n then |s| else n
    ensures r == s[..|r|]
  {
    if |s| <= n then s else s[..n]
  }

  /** The three lists the capping loop fills. */
  datatype Capped = Capped(zara: seq<string>, bershka: seq<string>, other: seq<string>)

  /** What the capping loop keeps: the first `MaxPerBrand` URLs of each
      brand, in input order, and every URL of no brand. */
  function CapSpec(urls: seq<string>): Capped {
    Capped(
      Take(OfBrand(urls, Some(Zara)), MaxPerBrand),
      Take(OfBrand(urls, Some(Bershka)), MaxPerBrand),
      OfBrand(urls, None))
  }

  /** The capping loop of `check_many_products_selenium_parallel`. */
  method CapPerBrand(urls: seq<string>) returns (zaraUrls: seq<string>, bershkaUrls: seq<string>, otherUrls: seq<string>)
    ensures Capped(zaraUrls, bershkaUrls, otherUrls) == CapSpec(urls)
  {
    zaraUrls, bershkaUrls, otherUrls := [], [], [];
    for k := 0 to |urls|
      invariant Capped(zaraUrls, bershkaUrls, otherUrls) == CapSpec(urls[..k])
    {
      var u := urls[k];
      assert urls[..k + 1] == urls[..k] + [u];
      CapSpecStep(urls[..k], u);
      zaraUrls, bershkaUrls, otherUrls := CapOne(zaraUrls, bershkaUrls, otherUrls, u);
    }
    assert urls[..|urls|] == urls;
  }

  /** The body of the capping loop for one URL. */
  method CapOne(zaraIn: seq<string>, bershkaIn: seq<string>, otherIn: seq<string>, u: string)
    returns (zaraUrls: seq<string>, bershkaUrls: seq<string>, otherUrls: seq<string>)
    ensures Capped(zaraUrls, bershkaUrls, otherUrls) ==
      var c := Capped(zaraIn, bershkaIn, otherIn);
      match DetectBrand(u)
      case Some(Zara) => c.(zara := if |c.zara| < MaxPerBrand then c.zara + [u] else c.zara)
      case Some(Bershka) => c.(bershka := if |c.bershka| < MaxPerBrand then c.bershka + [u] else c.bershka)
      case None => c.(other := c.other + [u])
  {
    zaraUrls, bershkaUrls, otherUrls := zaraIn, bershkaIn, otherIn;
    var brand := DetectBrand(u);
    if brand == Some(Zara) {
      if |zaraUrls| < MaxPerBrand {
        zaraUrls := zaraUrls + [u];
      }
    } else if brand == Some(Bershka) {
      if |bershkaUrls| < MaxPerBrand {
        bershkaUrls := bershkaUrls + [u];
      }
    } else {
      otherUrls := otherUrls + [u];
    }
  }

  /** One more input URL: it joins its brand's list while that is under the
      cap, and the list of no brand always. */
  lemma CapSpecStep(prefix: seq<string>, u: string)
    ensures CapSpec(prefix + [u]) ==
      var c := CapSpec(prefix);
      match DetectBrand(u)
      case Some(Zara) => c.(zara := if |c.zara| < MaxPerBrand then c.zara + [u] else c.zara)
      case Some(Bershka) => c.(bershka := if |c.bershka| < MaxPerBrand then c.bershka + [u] else c.bershka)
      case None => c.(other := c.other + [u])
  {
    var s := prefix + [u];
    assert s[..|s| - 1] == prefix;
    var brand := DetectBrand(u);
    TakeStep(OfBrand(prefix, Some(Zara)), if brand == Some(Zara) then [u] else [], MaxPerBrand);
    TakeStep(OfBrand(prefix, Some(Bershka)), if brand == Some(Bershka) then [u] else [], MaxPerBrand);
  }

  /** Appending at most one element to a list capped at `n` appends it only
      while the cap is not reached. */
  lemma TakeStep(s: seq<string>, extra: seq<string>, n: nat)
    requires |extra| <= 1
    ensures Take(s + extra, n) == if |Take(s, n)| < n then Take(s, n) + extra else Take(s, n)
  {
    if |s| >= n {
      assert (s + extra)[..n] == s[..n];
    }
  }

  /** The cap: at most `MaxPerBrand` URLs of each brand are kept, they are the
      first ones in input order, each has its brand, and a brand under the cap
      loses nothing; URLs of no brand are all kept. */
  lemma CapBounds(urls: seq<string>)
    ensures |CapSpec(urls).zara| <= MaxPerBrand && |CapSpec(urls).bershka| <= MaxPerBrand
    ensures CapSpec(urls).zara == OfBrand(urls, Some(Zara))[..|CapSpec(urls).zara|]
    ensures CapSpec(urls).bershka == OfBrand(urls, Some(Bershka))[..|CapSpec(urls).bershka|]
    ensures forall u :: u in urls && DetectBrand(u) == Some(Zara) && |OfBrand(urls, Some(Zara))| <= MaxPerBrand
              ==> u in CapSpec(urls).zara
    ensures forall u :: u in urls && DetectBrand(u) == Some(Bershka) && |OfBrand(urls, Some(Bershka))| <= MaxPerBrand
              ==> u in CapSpec(urls).bershka
    ensures forall u :: u in urls && DetectBrand(u).None? ==> u in CapSpec(urls).other
  {
    forall u | u in urls && DetectBrand(u) == Some(Zara) ensures u in OfBrand(urls, Some(Zara)) {
      OfBrandKeeps(urls, Some(Zara), u);
    }
    forall u | u in urls && DetectBrand(u) == Some(Bershka) ensures u in OfBrand(urls, Some(Bershka)) {
      OfBrandKeeps(urls, Some(Bershka), u);
    }
    forall u | u in urls && DetectBrand(u).None? ensures u in OfBrand(urls, None) {
      OfBrandKeeps(urls, None, u);
    }
  }

  // ---------------------------------------------------------------------------
  // Workers and chunks

  /** `ceil(n / d)` for a positive divisor. */
  function CeilDiv(n: nat, d: nat): (q: nat)
    requires d > 0
    ensures q * d >= n
    ensures n == 0 ==> q == 0
    ensures n > 0 ==> (q - 1) * d < n
  {
    (n + d - 1) / d
  }

  /** Lines 145-151 of the source for `n` URLs to check: the number of
      workers and the chunk size, or the exception the arithmetic, `range` or
      the thread pool raises. */
  function Plan(n: nat, maxWorkers: int): (r: Outcome<(nat, nat)>)
  {
    var workers := if maxWorkers < (if n < 1 then 1 else n) then maxWorkers else (if n < 1 then 1 else n);
    if workers == 0 then Raises("ZeroDivisionError")
    else if workers < 0 then Raises("ValueError")
    else
      var chunkSize := CeilDiv(n, workers);
      if chunkSize == 0 then Raises("ValueError")
      else Ok((workers, chunkSize))
  }

  /** With at least one worker allowed and one URL to check, the plan uses
      `min(max_workers, n)` workers, chunks of size at least one, and enough
      of them to hold every URL. */
  lemma PlanOk(n: nat, maxWorkers: int)
    requires maxWorkers >= 1 && n >= 1
    ensures Plan(n, maxWorkers).Ok?
    ensures Plan(n, maxWorkers).value.0 == if maxWorkers < n then maxWorkers else n
    ensures Plan(n, maxWorkers).value.1 >= 1
    ensures Plan(n, maxWorkers).value.0 * Plan(n, maxWorkers).value.1 >= n
  {
  }

  /** An empty list to check makes the chunk size zero, and `range` with a
      zero step raises. */
  lemma PlanNothingRaises(maxWorkers: int)
    ensures Plan(0, maxWorkers).Raises?
  {
  }

  /** The list cut into consecutive pieces of `size` URLs, the last one possibly shorter. */
  function Chunks(s: seq<string>, size: nat): (chunks: seq<seq<string>>)
    requires size >= 1
    decreases |s|
  {
    if s == [] then []
    else if |s| <= size then [s]
    else [s[..size]] + Chunks(s[size..], size)
  }

  /** The chunks, in order, are `s`. */
  lemma {:induction false} ChunksConcat(s: seq<string>, size: nat)
    requires size >= 1
    ensures Concat(Chunks(s, size)) == s
    decreases |s|
  {
    if |s| > size {
      ChunksConcat(s[size..], size);
      assert Chunks(s, size)[1..] == Chunks(s[size..], size);
    }
  }

  /** The chunks are non-empty, at most `size` long, and fit in any `k` slots
      with `k * size >= |s|`. */
  lemma {:induction false} ChunksBounds(s: seq<string>, size: nat, k: nat)
    requires size >= 1 && k * size >= |s|
    ensures forall i :: 0 <= i < |Chunks(s, size)| ==> 1 <= |Chunks(s, size)[i]| <= size
    ensures |Chunks(s, size)| <= k
    decreases |s|
  {
    if s == [] {
    } else if |s| <= size {
      assert k >= 1;
    } else {
      assert (k - 1) * size >= |s| - size;
      ChunksBounds(s[size..], size, k - 1);
      var rest := Chunks(s[size..], size);
      assert Chunks(s, size) == [s[..size]] + rest;
    }
  }

  // ---------------------------------------------------------------------------
  // One worker

  /** How one URL of a chunk fares: the probe's status for a supported brand,
      the fixed status for any other URL, or None when the check raises. */
  function StatusOf(url: string, probe: string -> Option<string>): Option<string> {
    if DetectBrand(url).Some? then probe(url) else Some(Unsupported)
  }

  /** What the worker's loop records before a check raises: the statuses of
      the longest prefix of the chunk whose checks all return. */
  function Processed(chunk: seq<string>, probe: string -> Option<string>): (r: seq<Checked>)
    ensures |r| <= |chunk|
    ensures forall i :: 0 <= i < |r| ==> r[i].0 == chunk[i] && StatusOf(chunk[i], probe) == Some(r[i].1)
    ensures |r| < |chunk| ==> StatusOf(chunk[|r|], probe).None?
  {
    if chunk == [] then []
    else match StatusOf(chunk[0], probe)
      case None => []
      case Some(status) =>
        var rest := Processed(chunk[1..], probe);
        assert forall i :: 0 < i <= |rest| ==> ([(chunk[0], status)] + rest)[i] == rest[i - 1];
        [(chunk[0], status)] + rest
  }

  /** Every URL of the chunk with the worker-error status. */
  function Fallback(chunk: seq<string>): seq<Checked> {
    seq(|chunk|, i requires 0 <= i < |chunk| => (chunk[i], WorkerError))
  }

  /** `_worker_chunk` as written: after a fatal error, the worker-error
      status for every URL only when nothing was recorded yet; otherwise just
      what was recorded. */
  function WorkerAsWritten(chunk: seq<string>, starts: bool, probe: string -> Option<string>): seq<Checked>
  {
    if chunk == [] then []
    else
      var done := if starts then Processed(chunk, probe) else [];
      if |done| == |chunk| then done
      else if done == [] then Fallback(chunk)
      else done
  }

  /** `_worker_chunk`: starts a browser (`starts` says whether that works),
      checks the URLs in order and stops at the first check that raises. */
  method WorkerChunk(chunk: seq<string>, starts: bool, probe: string -> Option<string>) returns (results: seq<Checked>)
    ensures results == WorkerAsWritten(chunk, starts, probe)
  {
    if chunk == [] {
      return [];
    }
    results := [];
    var failed := true;
    if starts {
      results, failed := CheckInOrder(chunk, probe);
    }
    if failed && results == [] {
      results := Fallback(chunk);
    }
  }

  /** The worker's loop: the statuses in chunk order until a check raises,
      and whether one did. */
  method CheckInOrder(chunk: seq<string>, probe: string -> Option<string>) returns (results: seq<Checked>, failed: bool)
    ensures results == Processed(chunk, probe)
    ensures failed <==> |results| < |chunk|
  {
    results := [];
    failed := false;
    var k := 0;
    while k < |chunk|
      invariant k <= |chunk| && |results| == k
      invariant forall i :: 0 <= i < k ==> results[i].0 == chunk[i] && StatusOf(chunk[i], probe) == Some(results[i].1)
    {
      var url := chunk[k];
      var status := CheckOne(url, probe);
      if status.None? {
        failed := true;
        break;
      }
      results := results + [(url, status.value)];
      k := k + 1;
    }
    ProcessedUnique(chunk, probe, results);
  }

  /** A run of returned checks that covers the chunk or stops at a check
      that raises is what the loop records. */
  lemma {:induction false} ProcessedUnique(chunk: seq<string>, probe: string -> Option<string>, rs: seq<Checked>)
    requires |rs| <= |chunk|
    requires forall i :: 0 <= i < |rs| ==> rs[i].0 == chunk[i] && StatusOf(chunk[i], probe) == Some(rs[i].1)
    requires |rs| < |chunk| ==> StatusOf(chunk[|rs|], probe).None?
    ensures rs == Processed(chunk, probe)
  {
    if rs != [] {
      ProcessedUnique(chunk[1..], probe, rs[1..]);
      assert rs == [rs[0]] + rs[1..];
    }
  }

  /** The body of the worker's loop for one URL: the checker of its brand,
      or the fixed status for a URL of no supported brand. */
  method CheckOne(url: string, probe: string -> Option<string>) returns (status: Option<string>)
    ensures status == StatusOf(url, probe)
  {
    var brand := DetectBrand(url);
    if brand == Some(Zara) {
      status := probe(url);
    } else if brand == Some(Bershka) {
      status := probe(url);
    } else {
      status := Some(Unsupported);
    }
  }

  /** The worker as evidently intended: after a fatal error, every URL not
      yet recorded gets the worker-error status. */
  function Worker(chunk: seq<string>, starts: bool, probe: string -> Option<string>): seq<Checked>
  {
    var done := if starts then Processed(chunk, probe) else [];
    done + Fallback(chunk[|done|..])
  }

  /** The corrected worker answers for every URL of its chunk, in order: with
      the check's status up to the first failure and the worker error from
      there on. */
  lemma WorkerCovers(chunk: seq<string>, starts: bool, probe: string -> Option<string>)
    ensures |Worker(chunk, starts, probe)| == |chunk|
    ensures forall i :: 0 <= i < |chunk| ==> Worker(chunk, starts, probe)[i].0 == chunk[i]
    ensures forall i :: 0 <= i < |chunk| ==>
      Worker(chunk, starts, probe)[i].1 == WorkerError || StatusOf(chunk[i], probe) == Some(Worker(chunk, starts, probe)[i].1)
  {
  }

  /** Both workers agree except when a check raises after another has
      returned. */
  lemma WorkerAgrees(chunk: seq<string>, starts: bool, probe: string -> Option<string>)
    requires !starts || Processed(chunk, probe) == [] || |Processed(chunk, probe)| == |chunk|
    ensures WorkerAsWritten(chunk, starts, probe) == Worker(chunk, starts, probe)
  {
    if starts && |Processed(chunk, probe)| == |chunk| {
      assert chunk[|chunk|..] == [];
    } else {
      assert chunk[0..] == chunk;
    }
  }

  /** As written, a check that raises after another has returned loses the
      rest of the chunk: the worker answers for fewer URLs than it was given,
      and the URL whose check raised is not among them. */
  lemma WorkerDropsTail(chunk: seq<string>, starts: bool, probe: string -> Option<string>)
    requires starts && 0 < |Processed(chunk, probe)| < |chunk|
    ensures |WorkerAsWritten(chunk, starts, probe)| < |chunk|
    ensures forall i :: 0 <= i < |WorkerAsWritten(chunk, starts, probe)| ==>
      WorkerAsWritten(chunk, starts, probe)[i].0 == chunk[i]
    ensures StatusOf(chunk[|WorkerAsWritten(chunk, starts, probe)|], probe).None?
  {
  }

  // ---------------------------------------------------------------------------
  // Buckets

  /** The `results` dict: the checked URLs per brand key. */
  datatype Buckets = Buckets(zara: seq<Checked>, bershka: seq<Checked>, other: seq<Checked>)

  /** All checked URLs, in the order the flattening loops visit them. */
  function AllChecked(b: Buckets): seq<Checked> {
    b.zara + b.bershka + b.other
  }

  /** Appending one result to the bucket of its URL's brand. */
  function RouteOne(b: Buckets, c: Checked): Buckets {
    match DetectBrand(c.0)
    case Some(Zara) => b.(zara := b.zara + [c])
    case Some(Bershka) => b.(bershka := b.bershka + [c])
    case None => b.(other := b.other + [c])
  }

  /** Appending results in turn. */
  function Route(b: Buckets, results: seq<Checked>): Buckets
  {
    if results == [] then b else RouteOne(Route(b, results[..|results| - 1]), results[|results| - 1])
  }

  /** Routing keeps every result and adds nothing: the routed pairs are the
      pairs there were plus the results. */
  lemma {:induction false} RouteKeeps(b: Buckets, results: seq<Checked>)
    ensures forall c :: c in AllChecked(Route(b, results)) <==> c in AllChecked(b) || c in results
    ensures forall c :: c in Route(b, results).zara ==> DetectBrand(c.0) == Some(Zara) || c in b.zara
    ensures forall c :: c in Route(b, results).bershka ==> DetectBrand(c.0) == Some(Bershka) || c in b.bershka
  {
    if results != [] {
      var init := results[..|results| - 1];
      RouteKeeps(b, init);
      assert results == init + [results[|results| - 1]];
    }
  }

  /** Routing two runs of results is routing their concatenation. */
  lemma {:induction false} RouteAppend(b: Buckets, xs: seq<Checked>, ys: seq<Checked>)
    ensures Route(Route(b, xs), ys) == Route(b, xs + ys)
    decreases |ys|
  {
    if ys == [] {
      assert xs + ys == xs;
    } else {
      var init := ys[..|ys| - 1];
      RouteAppend(b, xs, init);
      assert (xs + ys)[..|xs + ys| - 1] == xs + init;
    }
  }

  /** The bucket loop: each result of each completed chunk, in completion
      order, is appended to the bucket of its URL's brand. */
  method RouteResults(start: Buckets, completed: seq<seq<Checked>>) returns (b: Buckets)
    ensures b == Route(start, Concat(completed))
  {
    b := start;
    for j := 0 to |completed|
      invariant b == Route(start, Concat(completed[..j]))
    {
      var chunkResult := completed[j];
      b := RouteChunk(b, chunkResult);
      RouteAppend(start, Concat(completed[..j]), chunkResult);
      assert completed[..j + 1] == completed[..j] + [chunkResult];
      ConcatAppend(completed[..j], [chunkResult]);
      assert Concat([chunkResult]) == chunkResult;
    }
    assert completed[..|completed|] == completed;
  }

  /** The inner loop over one chunk's results. */
  method RouteChunk(start: Buckets, chunkResult: seq<Checked>) returns (b: Buckets)
    ensures b == Route(start, chunkResult)
  {
    b := start;
    for k := 0 to |chunkResult|
      invariant b == Route(start, chunkResult[..k])
    {
      assert chunkResult[..k + 1][..k] == chunkResult[..k];
      b := RouteOne(b, chunkResult[k]);
    }
    assert chunkResult[..|chunkResult|] == chunkResult;
  }

  // ---------------------------------------------------------------------------
  // check_many_products_selenium_parallel

  /** The URLs of no supported brand, each with the fixed status. */
  function MarkUnsupported(other: seq<string>): seq<Checked> {
    seq(|other|, i requires 0 <= i < |other| => (other[i], Unsupported))
  }

  /** The results of the chunks, in submission order. */
  function ChunkResults(chunks: seq<seq<string>>, starts: seq<string> -> bool, probe: string -> Option<string>,
                        corrected: bool): seq<seq<Checked>>
  {
    seq(|chunks|, i requires 0 <= i < |chunks| =>
      if corrected then Worker(chunks[i], starts(chunks[i]), probe)
      else WorkerAsWritten(chunks[i], starts(chunks[i]), probe))
  }

  /** `check_many_products_selenium_parallel` as written, the chunks
      completing in submission order. */
  function CheckManyAsWritten(urls: seq<string>, maxWorkers: int, starts: seq<string> -> bool,
                              probe: string -> Option<string>): Outcome<Buckets>
  {
    var c := CapSpec(urls);
    var toCheck := c.zara + c.bershka;
    if toCheck == [] && c.other == [] then Ok(Buckets([], [], []))
    else match Plan(|toCheck|, maxWorkers)
      case Raises(e) => Raises(e)
      case Ok(plan) =>
        var completed := ChunkResults(Chunks(toCheck, plan.1), starts, probe, false);
        Ok(Route(Buckets([], [], MarkUnsupported(c.other)), Concat(completed)))
  }

  /** `check_many_products_selenium_parallel` as evidently intended: no
      pool when only unsupported URLs are left, and the corrected worker. */
  function CheckMany(urls: seq<string>, maxWorkers: int, starts: seq<string> -> bool,
                     probe: string -> Option<string>): Outcome<Buckets>
  {
    var c := CapSpec(urls);
    var toCheck := c.zara + c.bershka;
    if toCheck == [] then Ok(Buckets([], [], MarkUnsupported(c.other)))
    else match Plan(|toCheck|, maxWorkers)
      case Raises(e) => Raises(e)
      case Ok(plan) =>
        var completed := ChunkResults(Chunks(toCheck, plan.1), starts, probe, true);
        Ok(Route(Buckets([], [], MarkUnsupported(c.other)), Concat(completed)))
  }

  /** A brand none of the URLs has keeps none of them. */
  lemma {:induction false} NoneOfBrand(urls: seq<string>, brand: Option<Brand>)
    requires forall i :: 0 <= i < |urls| ==> DetectBrand(urls[i]) != brand
    ensures OfBrand(urls, brand) == []
  {
    if urls != [] {
      NoneOfBrand(urls[..|urls| - 1], brand);
    }
  }

  /** As written, a list whose URLs are all of no supported brand raises:
      nothing is left to check, so the chunk size is zero. */
  lemma AllUnsupportedRaises(urls: seq<string>, maxWorkers: int, starts: seq<string> -> bool,
                             probe: string -> Option<string>)
    requires urls != [] && forall i :: 0 <= i < |urls| ==> DetectBrand(urls[i]).None?
    ensures CheckManyAsWritten(urls, maxWorkers, starts, probe).Raises?
  {
    CapBounds(urls);
    NoneOfBrand(urls, Some(Zara));
    NoneOfBrand(urls, Some(Bershka));
    assert urls[0] in CapSpec(urls).other;
  }

  /** Every result of the corrected pipeline answers for one URL of the
      chunks, and every URL of the chunks is answered for. */
  lemma {:induction false} ChunkResultsCover(chunks: seq<seq<string>>, starts: seq<string> -> bool,
                                             probe: string -> Option<string>, u: string)
    ensures (exists c :: c in Concat(ChunkResults(chunks, starts, probe, true)) && c.0 == u) <==> u in Concat(chunks)
  {
    if chunks != [] {
      var rs := ChunkResults(chunks, starts, probe, true);
      assert rs[1..] == ChunkResults(chunks[1..], starts, probe, true);
      ChunkResultsCover(chunks[1..], starts, probe, u);
      var w := Worker(chunks[0], starts(chunks[0]), probe);
      WorkerCovers(chunks[0], starts(chunks[0]), probe);
      if u in chunks[0] {
        var i :| 0 <= i < |chunks[0]| && chunks[0][i] == u;
        assert w[i] in Concat(rs);
      }
      if c :| c in w && c.0 == u {
        var i :| 0 <= i < |w| && w[i] == c;
        assert chunks[0][i] == u;
      }
    }
  }

  /** With at least one worker allowed, the corrected pipeline does not raise,
      and it answers for exactly the URLs the cap keeps. */
  lemma CheckManyCovers(urls: seq<string>, maxWorkers: int, starts: seq<string> -> bool,
                        probe: string -> Option<string>, u: string)
    requires maxWorkers >= 1
    ensures CheckMany(urls, maxWorkers, starts, probe).Ok?
    ensures (exists c :: c in AllChecked(CheckMany(urls, maxWorkers, starts, probe).value) && c.0 == u) <==>
      u in CapSpec(urls).zara + CapSpec(urls).bershka + CapSpec(urls).other
  {
    var c := CapSpec(urls);
    var toCheck := c.zara + c.bershka;
    var start := Buckets([], [], MarkUnsupported(c.other));
    assert (exists x :: x in AllChecked(start) && x.0 == u) <==> u in c.other by {
      assert AllChecked(start) == MarkUnsupported(c.other);
      if u in c.other {
        var i :| 0 <= i < |c.other| && c.other[i] == u;
        assert MarkUnsupported(c.other)[i].0 == u;
      }
    }
    if toCheck != [] {
      PlanOk(|toCheck|, maxWorkers);
      var plan := Plan(|toCheck|, maxWorkers).value;
      var chunks := Chunks(toCheck, plan.1);
      ChunksConcat(toCheck, plan.1);
      var results := Concat(ChunkResults(chunks, starts, probe, true));
      ChunkResultsCover(chunks, starts, probe, u);
      RouteKeeps(start, results);
    }
  }

  // ---------------------------------------------------------------------------
  // URL-to-status maps

  /** The map with each pair's status set for its URL in turn, later pairs winning. */
  function Override(m: map<string, string>, ps: seq<Checked>): map<string, string>
  {
    if ps == [] then m else Override(m, ps[..|ps| - 1])[ps[|ps| - 1].0 := ps[|ps| - 1].1]
  }

  lemma {:induction false} OverrideAppend(m: map<string, string>, xs: seq<Checked>, ys: seq<Checked>)
    ensures Override(Override(m, xs), ys) == Override(m, xs + ys)
    decreases |ys|
  {
    if ys == [] {
      assert xs + ys == xs;
    } else {
      OverrideAppend(m, xs, ys[..|ys| - 1]);
      assert (xs + ys)[..|xs + ys| - 1] == xs + ys[..|ys| - 1];
    }
  }

  /** The map a run of pairs builds from nothing. */
  function MapOf(ps: seq<Checked>): map<string, string> {
    Override(map[], ps)
  }

  /** A URL is a key exactly when some pair is about it, and its value is
      the status of the last such pair. */
  lemma {:induction false} MapOfKeys(ps: seq<Checked>, u: string)
    ensures u in MapOf(ps) <==> exists i :: 0 <= i < |ps| && ps[i].0 == u
    ensures u in MapOf(ps) ==> exists i :: 0 <= i < |ps| && ps[i] == (u, MapOf(ps)[u]) &&
                                  forall j :: i < j < |ps| ==> ps[j].0 != u
  {
    MapOfDomain(ps, u);
    MapOfLatest(ps, u);
  }

  lemma {:induction false} MapOfDomain(ps: seq<Checked>, u: string)
    ensures u in MapOf(ps) <==> exists i :: 0 <= i < |ps| && ps[i].0 == u
  {
    if ps != [] {
      var init := ps[..|ps| - 1];
      MapOfDomain(init, u);
      assert forall i :: 0 <= i < |init| ==> init[i] == ps[i];
    }
  }

  lemma {:induction false} MapOfLatest(ps: seq<Checked>, u: string)
    ensures u in MapOf(ps) ==> exists i :: 0 <= i < |ps| && ps[i] == (u, MapOf(ps)[u]) &&
                                  forall j :: i < j < |ps| ==> ps[j].0 != u
  {
    if ps != [] {
      var init := ps[..|ps| - 1];
      var last := ps[|ps| - 1];
      if last.0 == u {
        assert ps[|ps| - 1] == (u, MapOf(ps)[u]);
      } else if u in MapOf(ps) {
        MapOfLatest(init, u);
        var i :| 0 <= i < |init| && init[i] == (u, MapOf(init)[u]) && forall j :: i < j < |init| ==> init[j].0 != u;
        assert ps[i] == init[i];
        assert forall j :: i < j < |ps| - 1 ==> ps[j] == init[j];
      }
    }
  }

  /** Pairs that never give one URL two different statuses. */
  predicate Functional(ps: seq<Checked>) {
    forall i, j :: 0 <= i < |ps| && 0 <= j < |ps| && ps[i].0 == ps[j].0 ==> ps[i].1 == ps[j].1
  }

  /** Without conflicting statuses, the map depends only on which pairs there
      are, not on their order or repetition. */
  lemma SamePairsSameMap(ps: seq<Checked>, qs: seq<Checked>)
    requires Functional(ps)
    requires forall c :: c in ps <==> c in qs
    ensures MapOf(ps) == MapOf(qs)
  {
    forall u ensures (u in MapOf(ps) <==> u in MapOf(qs)) && (u in MapOf(ps) ==> MapOf(ps)[u] == MapOf(qs)[u]) {
      MapOfKeys(ps, u);
      MapOfKeys(qs, u);
      if u in MapOf(ps) {
        var i :| 0 <= i < |ps| && ps[i] == (u, MapOf(ps)[u]);
        assert ps[i] in qs;
        var j :| 0 <= j < |qs| && qs[j] == (u, MapOf(qs)[u]);
        assert qs[j] in ps;
      } else {
        forall c | c in qs ensures c.0 != u {
          assert c in ps;
          var i :| 0 <= i < |ps| && ps[i] == c;
        }
      }
    }
  }

  /** The pairs of a concatenation are the pairs of its parts. */
  lemma {:induction false} ConcatMembers(outs: seq<seq<Checked>>, c: Checked)
    ensures c in Concat(outs) <==> exists k :: 0 <= k < |outs| && c in outs[k]
  {
    if outs != [] {
      ConcatMembers(outs[1..], c);
      assert forall k :: 1 <= k < |outs| ==> outs[k] == outs[1..][k - 1];
    }
  }

  /** The URL-to-status map of the routed results: the same whatever order
      the chunks complete in, as long as no URL gets two different statuses. */
  lemma CompletionOrderIrrelevant(start: Buckets, outs: seq<seq<Checked>>, reordered: seq<seq<Checked>>)
    requires multiset(outs) == multiset(reordered)
    requires Functional(AllChecked(Route(start, Concat(outs))))
    ensures MapOf(AllChecked(Route(start, Concat(outs)))) == MapOf(AllChecked(Route(start, Concat(reordered))))
  {
    RouteKeeps(start, Concat(outs));
    RouteKeeps(start, Concat(reordered));
    forall c ensures c in Concat(outs) <==> c in Concat(reordered) {
      ConcatMembers(outs, c);
      ConcatMembers(reordered, c);
      if k :| 0 <= k < |outs| && c in outs[k] {
        assert outs[k] in multiset(reordered);
      }
      if k :| 0 <= k < |reordered| && c in reordered[k] {
        assert reordered[k] in multiset(outs);
      }
    }
    SamePairsSameMap(AllChecked(Route(start, Concat(outs))), AllChecked(Route(start, Concat(reordered))));
  }

  /** The flattening loop: every bucket in the order zara, bershka, other,
      each pair setting its URL's status. */
  method FlattenBuckets(b: Buckets) returns (statusMap: map<string, string>)
    ensures statusMap == MapOf(AllChecked(b))
  {
    statusMap := map[];
    statusMap := SetStatuses(statusMap, b.zara);
    statusMap := SetStatuses(statusMap, b.bershka);
    statusMap := SetStatuses(statusMap, b.other);
    OverrideAppend(map[], b.zara, b.bershka);
    OverrideAppend(map[], b.zara + b.bershka, b.other);
  }

  /** The flattening loop over one bucket: each pair sets its URL's status, later pairs winning. */
  method SetStatuses(m: map<string, string>, items: seq<Checked>) returns (statusMap: map<string, string>)
    ensures statusMap == Override(m, items)
  {
    statusMap := m;
    for k := 0 to |items|
      invariant statusMap == Override(m, items[..k])
    {
      assert items[..k + 1][..k] == items[..k];
      statusMap := statusMap[items[k].0 := items[k].1];
    }
    assert items[..|items|] == items;
  }

  /** `check_urls_for_user_parallel` on the corrected pipeline: the
      flattened map of the buckets, with no entry for a URL that was not
      checked. */
  function StatusesParallel(urls: seq<string>, maxWorkers: int, starts: seq<string> -> bool,
                            probe: string -> Option<string>): Outcome<map<string, string>>
  {
    match CheckMany(urls, maxWorkers, starts, probe)
    case Raises(e) => Raises(e)
    case Ok(b) => Ok(MapOf(AllChecked(b)))
  }


  /** The parallel variant has a key for exactly the URLs the cap keeps: a
      URL past its brand's cap gets no entry at all. */
  lemma ParallelKeys(urls: seq<string>, maxWorkers: int, starts: seq<string> -> bool,
                     probe: string -> Option<string>, u: string)
    requires maxWorkers >= 1
    ensures StatusesParallel(urls, maxWorkers, starts, probe).Ok?
    ensures u in StatusesParallel(urls, maxWorkers, starts, probe).value <==>
      u in CapSpec(urls).zara + CapSpec(urls).bershka + CapSpec(urls).other
  {
    CheckManyCovers(urls, maxWorkers, starts, probe, u);
    var ps := AllChecked(CheckMany(urls, maxWorkers, starts, probe).value);
    MapOfKeys(ps, u);
    if u in MapOf(ps) {
      var i :| 0 <= i < |ps| && ps[i].0 == u;
      assert ps[i] in ps;
    } else {
      forall c | c in ps ensures c.0 != u {
        var i :| 0 <= i < |ps| && ps[i] == c;
      }
    }
  }

  /** The fill loop: a URL without a status gets the not-checked status. */
  function Fill(m: map<string, string>, urls: seq<string>): map<string, string>
  {
    if urls == [] then m
    else
      var before := Fill(m, urls[..|urls| - 1]);
      var u := urls[|urls| - 1];
      if u in before then before else before[u := NotChecked]
  }

  /** Filling keeps every status there was and adds the not-checked status
      for exactly the listed URLs that had none. */
  lemma {:induction false} FillKeys(m: map<string, string>, urls: seq<string>, u: string)
    ensures u in Fill(m, urls) <==> u in m || u in urls
    ensures u in m ==> Fill(m, urls)[u] == m[u]
    ensures u !in m && u in urls ==> Fill(m, urls)[u] == NotChecked
  {
    if urls != [] {
      FillKeys(m, urls[..|urls| - 1], u);
      assert urls == urls[..|urls| - 1] + [urls[|urls| - 1]];
    }
  }

  /** `check_urls_for_user` on the corrected pipeline: the parallel check
      with four workers, then the not-checked status for every URL left
      without one. */
  function Statuses(urls: seq<string>, starts: seq<string> -> bool, probe: string -> Option<string>): map<string, string>
  {
    Fill(MapOf(AllChecked(CheckMany(urls, 4, starts, probe).value)), urls)
  }


  lemma CheckManyOk(urls: seq<string>, maxWorkers: int, starts: seq<string> -> bool, probe: string -> Option<string>)
    requires maxWorkers >= 1
    ensures CheckMany(urls, maxWorkers, starts, probe).Ok?
  {
    var c := CapSpec(urls);
    if c.zara + c.bershka != [] {
      PlanOk(|c.zara + c.bershka|, maxWorkers);
    }
  }

  /** `check_urls_for_user` answers for exactly the URLs it was given: the
      checked status for a URL the cap keeps, the not-checked status for any
      other. */
  lemma StatusesCover(urls: seq<string>, starts: seq<string> -> bool, probe: string -> Option<string>, u: string)
    ensures u in Statuses(urls, starts, probe) <==> u in urls
    ensures u in urls && u !in CapSpec(urls).zara + CapSpec(urls).bershka + CapSpec(urls).other ==>
      Statuses(urls, starts, probe)[u] == NotChecked
  {
    ParallelKeys(urls, 4, starts, probe, u);
    var flat := MapOf(AllChecked(CheckMany(urls, 4, starts, probe).value));
    FillKeys(flat, urls, u);
    var c := CapSpec(urls);
    if u in c.zara + c.bershka + c.other {
      assert u in c.zara || u in c.bershka || u in c.other;
    }
  }

  // ---------------------------------------------------------------------------
  // The URL-to-status maps as written

  /** `check_urls_for_user_parallel` on the pipeline as written: the
      exception of the parallel check, or the flattened map of its buckets. */
  function StatusesParallelAsWritten(urls: seq<string>, maxWorkers: int, starts: seq<string> -> bool,
                                     probe: string -> Option<string>): Outcome<map<string, string>>
  {
    match CheckManyAsWritten(urls, maxWorkers, starts, probe)
    case Raises(e) => Raises(e)
    case Ok(b) => Ok(MapOf(AllChecked(b)))
  }

  method CheckUrlsForUserParallel(urls: seq<string>, maxWorkers: int, starts: seq<string> -> bool,
                                  probe: string -> Option<string>) returns (r: Outcome<map<string, string>>)
    ensures r == StatusesParallelAsWritten(urls, maxWorkers, starts, probe)
  {
    var grouped := CheckManyAsWritten(urls, maxWorkers, starts, probe);
    if grouped.Raises? {
      return Raises(grouped.exception);
    }
    var statusMap := FlattenBuckets(grouped.value);
    r := Ok(statusMap);
  }

  /** `check_urls_for_user` on the pipeline as written: the exception of the
      parallel check with four workers, or its map with the not-checked status
      for every URL left without one. */
  function StatusesAsWritten(urls: seq<string>, starts: seq<string> -> bool,
                             probe: string -> Option<string>): Outcome<map<string, string>>
  {
    match CheckManyAsWritten(urls, 4, starts, probe)
    case Raises(e) => Raises(e)
    case Ok(b) => Ok(Fill(MapOf(AllChecked(b)), urls))
  }

  method CheckUrlsForUser(urls: seq<string>, starts: seq<string> -> bool, probe: string -> Option<string>)
    returns (r: Outcome<map<string, string>>)
    ensures r == StatusesAsWritten(urls, starts, probe)
  {
    var parallelResults := CheckManyAsWritten(urls, 4, starts, probe);
    if parallelResults.Raises? {
      return Raises(parallelResults.exception);
    }
    var statusMap := FlattenBuckets(parallelResults.value);
    ghost var flat := statusMap;
    for k := 0 to |urls|
      invariant statusMap == Fill(flat, urls[..k])
    {
      assert urls[..k + 1][..k] == urls[..k];
      var u := urls[k];
      if u !in statusMap {
        statusMap := statusMap[u := NotChecked];
      }
    }
    assert urls[..|urls|] == urls;
    r := Ok(statusMap);
  }

  /** A worker as written answers only for URLs of its chunk. */
  lemma WorkerAsWrittenWithin(chunk: seq<string>, starts: bool, probe: string -> Option<string>)
    ensures forall c :: c in WorkerAsWritten(chunk, starts, probe) ==> c.0 in chunk
  {
    var w := WorkerAsWritten(chunk, starts, probe);
    forall c | c in w ensures c.0 in chunk {
      var i :| 0 <= i < |w| && w[i] == c;
      assert w[i].0 == chunk[i];
    }
  }

  /** The results of the workers as written answer only for URLs of the chunks. */
  lemma {:induction false} ChunkResultsWithin(chunks: seq<seq<string>>, starts: seq<string> -> bool,
                                              probe: string -> Option<string>, c: Checked)
    requires c in Concat(ChunkResults(chunks, starts, probe, false))
    ensures c.0 in Concat(chunks)
  {
    var rs := ChunkResults(chunks, starts, probe, false);
    assert rs[1..] == ChunkResults(chunks[1..], starts, probe, false);
    if c in rs[0] {
      WorkerAsWrittenWithin(chunks[0], starts(chunks[0]), probe);
    } else {
      ChunkResultsWithin(chunks[1..], starts, probe, c);
    }
  }

  /** As written, the parallel map, when it is there, has keys only for URLs
      the cap kept (though not necessarily for all of them). */
  lemma ParallelAsWrittenKeys(urls: seq<string>, maxWorkers: int, starts: seq<string> -> bool,
                              probe: string -> Option<string>, u: string)
    requires StatusesParallelAsWritten(urls, maxWorkers, starts, probe).Ok?
    ensures u in StatusesParallelAsWritten(urls, maxWorkers, starts, probe).value ==>
      u in CapSpec(urls).zara + CapSpec(urls).bershka + CapSpec(urls).other
  {
    var c := CapSpec(urls);
    var toCheck := c.zara + c.bershka;
    var b := CheckManyAsWritten(urls, maxWorkers, starts, probe).value;
    var ps := AllChecked(b);
    MapOfKeys(ps, u);
    if u in MapOf(ps) {
      var i :| 0 <= i < |ps| && ps[i].0 == u;
      assert ps[i] in ps;
      if toCheck != [] || c.other != [] {
        var plan := Plan(|toCheck|, maxWorkers).value;
        var chunks := Chunks(toCheck, plan.1);
        var results := Concat(ChunkResults(chunks, starts, probe, false));
        var start := Buckets([], [], MarkUnsupported(c.other));
        RouteKeeps(start, results);
        if ps[i] in results {
          ChunkResultsWithin(chunks, starts, probe, ps[i]);
          ChunksConcat(toCheck, plan.1);
        } else {
          var j :| 0 <= j < |c.other| && MarkUnsupported(c.other)[j] == ps[i];
          assert c.other[j] == u;
        }
      }
    }
  }

  /** As written, `check_urls_for_user`, when it returns, answers for exactly
      the URLs it was given. */
  lemma StatusesAsWrittenKeys(urls: seq<string>, starts: seq<string> -> bool, probe: string -> Option<string>, u: string)
    requires StatusesAsWritten(urls, starts, probe).Ok?
    ensures u in StatusesAsWritten(urls, starts, probe).value <==> u in urls
  {
    ParallelAsWrittenKeys(urls, 4, starts, probe, u);
    var flat := StatusesParallelAsWritten(urls, 4, starts, probe).value;
    FillKeys(flat, urls, u);
    CapBounds(urls);
    var c := CapSpec(urls);
    if u in c.zara + c.bershka + c.other {
      if u in c.zara {
        var i :| 0 <= i < |c.zara| && c.zara[i] == u;
        assert u in OfBrand(urls, Some(Zara));
      } else if u in c.bershka {
        var i :| 0 <= i < |c.bershka| && c.bershka[i] == u;
        assert u in OfBrand(urls, Some(Bershka));
      } else {
        assert u in OfBrand(urls, None);
      }
    }
  }

  /** As written, both maps raise for a non-empty list of URLs of no
      supported brand, where the corrected maps answer with the fixed status. */
  lemma AllUnsupportedStatusesRaise(urls: seq<string>, maxWorkers: int, starts: seq<string> -> bool,
                                    probe: string -> Option<string>)
    requires urls != [] && forall i :: 0 <= i < |urls| ==> DetectBrand(urls[i]).None?
    ensures StatusesParallelAsWritten(urls, maxWorkers, starts, probe).Raises?
    ensures StatusesAsWritten(urls, starts, probe).Raises?
  {
    AllUnsupportedRaises(urls, maxWorkers, starts, probe);
    AllUnsupportedRaises(urls, 4, starts, probe);
  }

  /** Up to the cap, a list of Zara URLs is kept whole. */
  lemma {:induction false} CapAllZara(urls: seq<string>)
    requires |urls| <= MaxPerBrand && forall i :: 0 <= i < |urls| ==> DetectBrand(urls[i]) == Some(Zara)
    ensures CapSpec(urls) == Capped(urls, [], [])
    ensures CapSpec(urls).zara + CapSpec(urls).bershka == urls
  {
    if urls != [] {
      var init := urls[..|urls| - 1];
      var u := urls[|urls| - 1];
      CapAllZara(init);
      LastSplit(urls);
      ZaraKept(init, u);
    }
  }

  lemma LastSplit<T>(s: seq<T>)
    requires s != []
    ensures s == s[..|s| - 1] + [s[|s| - 1]]
  {
  }

  lemma ZaraKept(init: seq<string>, u: string)
    requires |init| < MaxPerBrand && DetectBrand(u) == Some(Zara)
    requires CapSpec(init) == Capped(init, [], [])
    ensures CapSpec(init + [u]) == Capped(init + [u], [], [])
  {
    CapSpecStep(init, u);
  }

  /** A chunk `[a, b]` whose first check returns and whose second raises:
      the worker as written answers for `a` alone, the corrected one for both. */
  lemma FailingSecond(a: string, b: string, s: string, probe: string -> Option<string>)
    requires DetectBrand(a).Some? && DetectBrand(b).Some?
    requires probe(a) == Some(s) && probe(b).None?
    ensures WorkerAsWritten([a, b], true, probe) == [(a, s)]
    ensures Worker([a, b], true, probe) == [(a, s), (b, WorkerError)]
  {
    assert [a, b][1..] == [b];
    assert Processed([a, b], probe) == [(a, s)];
    assert Fallback([b]) == [(b, WorkerError)];
  }

  /** The one result run of a single chunk. */
  lemma SingleChunk(chunk: seq<string>, starts: seq<string> -> bool, probe: string -> Option<string>, corrected: bool)
    ensures Concat(ChunkResults([chunk], starts, probe, corrected)) ==
      if corrected then Worker(chunk, starts(chunk), probe) else WorkerAsWritten(chunk, starts(chunk), probe)
  {
    var rs := ChunkResults([chunk], starts, probe, corrected);
    assert rs[1..] == [];
  }

  /** What the pipeline routes for a list of Zara URLs up to the cap: the
      results of its chunks, from buckets that start empty. */
  lemma ZaraRun(urls: seq<string>, maxWorkers: int, starts: seq<string> -> bool,
                probe: string -> Option<string>, corrected: bool)
    requires 1 <= |urls| <= MaxPerBrand && forall i :: 0 <= i < |urls| ==> DetectBrand(urls[i]) == Some(Zara)
    requires maxWorkers >= 1
    ensures (if corrected then CheckMany(urls, maxWorkers, starts, probe)
             else CheckManyAsWritten(urls, maxWorkers, starts, probe)) ==
      Ok(Route(Buckets([], [], []),
               Concat(ChunkResults(Chunks(urls, Plan(|urls|, maxWorkers).value.1), starts, probe, corrected))))
  {
    CapAllZara(urls);
    PlanOk(|urls|, maxWorkers);
    var plan := Plan(|urls|, maxWorkers).value;
    assert MarkUnsupported([]) == [];
    var completed := ChunkResults(Chunks(urls, plan.1), starts, probe, corrected);
    if corrected {
      assert CheckMany(urls, maxWorkers, starts, probe) == Ok(Route(Buckets([], [], []), Concat(completed)));
    } else {
      assert CheckManyAsWritten(urls, maxWorkers, starts, probe) == Ok(Route(Buckets([], [], []), Concat(completed)));
    }
  }

  /** The buckets for the Zara chunk `[a, b]` and one worker, `a`'s check
      returning and `b`'s raising. */
  lemma TwoZaraBuckets(a: string, b: string, s: string, starts: seq<string> -> bool,
                       probe: string -> Option<string>)
    requires DetectBrand(a) == Some(Zara) && DetectBrand(b) == Some(Zara)
    requires starts([a, b]) && probe(a) == Some(s) && probe(b).None?
    ensures CheckManyAsWritten([a, b], 1, starts, probe) == Ok(Buckets([(a, s)], [], []))
    ensures CheckMany([a, b], 1, starts, probe) == Ok(Buckets([(a, s), (b, WorkerError)], [], []))
  {
    ZaraRun([a, b], 1, starts, probe, false);
    ZaraRun([a, b], 1, starts, probe, true);
    assert Plan(2, 1) == Ok((1, 2));
    assert Chunks([a, b], 2) == [[a, b]];
    FailingSecond(a, b, s, probe);
    SingleChunk([a, b], starts, probe, false);
    SingleChunk([a, b], starts, probe, true);
    var start := Buckets([], [], []);
    var both := [(a, s), (b, WorkerError)];
    assert both[..1] == [(a, s)];
    assert Route(start, [(a, s)]) == Buckets([(a, s)], [], []);
    assert Route(start, both) == Buckets(both, [], []);
  }

  /** As written, one worker given the Zara chunk `[a, b]`, where `a`'s check
      returns and `b`'s raises, leaves `b` out of the parallel map; the
      corrected pipeline gives it the worker-error status. */
  lemma DroppedTailHasNoStatus(a: string, b: string, s: string, starts: seq<string> -> bool,
                               probe: string -> Option<string>)
    requires DetectBrand(a) == Some(Zara) && DetectBrand(b) == Some(Zara) && a != b
    requires starts([a, b]) && probe(a) == Some(s) && probe(b).None?
    ensures StatusesParallelAsWritten([a, b], 1, starts, probe) == Ok(map[a := s])
    ensures StatusesParallel([a, b], 1, starts, probe) == Ok(map[a := s, b := WorkerError])
  {
    TwoZaraBuckets(a, b, s, starts, probe);
    var both := [(a, s), (b, WorkerError)];
    assert AllChecked(Buckets([(a, s)], [], [])) == [(a, s)];
    assert AllChecked(Buckets(both, [], [])) == both;
    MapOfTwo(a, s, b, WorkerError);
  }

  lemma MapOfTwo(a: string, s: string, b: string, t: string)
    ensures MapOf([(a, s)]) == map[a := s]
    ensures MapOf([(a, s), (b, t)]) == map[a := s][b := t]
  {
    var both := [(a, s), (b, t)];
    assert [(a, s)][..0] == [] && both[..1] == [(a, s)];
    assert Override(map[], [(a, s)]) == Override(map[], [])[a := s];
  }

  /** Five URLs in chunks of two. */
  lemma FiveChunks(urls: seq<string>)
    requires |urls| == 5
    ensures Chunks(urls, 2) == [urls[..2], urls[2..4], urls[4..]]
  {
    assert urls[2..][..2] == urls[2..4];
    assert Chunks(urls[4..], 2) == [urls[4..]];
    assert urls[2..][2..] == urls[4..];
    assert Chunks(urls[2..], 2) == [urls[2..4]] + Chunks(urls[4..], 2);
  }

  /** The results of the five-URL run below: four workers, chunks of two, the
      first chunk answering for its first URL alone. */
  lemma FiveZaraResults(urls: seq<string>, s: string, starts: seq<string> -> bool,
                        probe: string -> Option<string>)
    requires |urls| == 5 && forall i :: 0 <= i < 5 ==> DetectBrand(urls[i]) == Some(Zara)
    requires starts(urls[..2]) && probe(urls[0]) == Some(s) && probe(urls[1]).None?
    ensures CheckManyAsWritten(urls, 4, starts, probe) ==
      Ok(Route(Buckets([], [], []), [(urls[0], s)]
                 + WorkerAsWritten(urls[2..4], starts(urls[2..4]), probe)
                 + WorkerAsWritten(urls[4..], starts(urls[4..]), probe)))
  {
    ZaraRun(urls, 4, starts, probe, false);
    assert Plan(5, 4) == Ok((4, 2));
    FiveChunkResults(urls, s, starts, probe);
  }

  lemma FiveChunkResults(urls: seq<string>, s: string, starts: seq<string> -> bool,
                         probe: string -> Option<string>)
    requires |urls| == 5 && DetectBrand(urls[0]).Some? && DetectBrand(urls[1]).Some?
    requires starts(urls[..2]) && probe(urls[0]) == Some(s) && probe(urls[1]).None?
    ensures Concat(ChunkResults(Chunks(urls, 2), starts, probe, false)) ==
      [(urls[0], s)]
      + WorkerAsWritten(urls[2..4], starts(urls[2..4]), probe)
      + WorkerAsWritten(urls[4..], starts(urls[4..]), probe)
  {
    assert urls[..2] == [urls[0], urls[1]];
    FailingSecond(urls[0], urls[1], s, probe);
    FiveChunks(urls);
    ThreeChunks(urls[..2], urls[2..4], urls[4..], starts, probe);
  }

  /** The results of three chunks, in order. */
  lemma ThreeChunks(c0: seq<string>, c1: seq<string>, c2: seq<string>, starts: seq<string> -> bool,
                    probe: string -> Option<string>)
    ensures Concat(ChunkResults([c0, c1, c2], starts, probe, false)) ==
      WorkerAsWritten(c0, starts(c0), probe) + WorkerAsWritten(c1, starts(c1), probe)
      + WorkerAsWritten(c2, starts(c2), probe)
  {
    var rs := ChunkResults([c0, c1, c2], starts, probe, false);
    assert rs == [rs[0], rs[1], rs[2]];
    ConcatThree(rs[0], rs[1], rs[2]);
  }

  lemma ConcatThree<T>(x: seq<T>, y: seq<T>, z: seq<T>)
    ensures Concat([x, y, z]) == x + y + z
  {
    assert [x, y, z][1..] == [y, z];
    assert [y, z][1..] == [z];
    assert [z][1..] == [];
    assert Concat([z]) == z + [];
  }

  /** As written, four workers take five Zara URLs in chunks of two; when the
      second URL's check raises after the first's returned, the second URL
      has no entry in the parallel map and `check_urls_for_user` reports it
      as not checked. */
  lemma DroppedTailNotChecked(urls: seq<string>, s: string, starts: seq<string> -> bool,
                              probe: string -> Option<string>)
    requires |urls| == 5 && forall i :: 0 <= i < 5 ==> DetectBrand(urls[i]) == Some(Zara)
    requires forall i :: 0 <= i < 5 && i != 1 ==> urls[i] != urls[1]
    requires starts(urls[..2]) && probe(urls[0]) == Some(s) && probe(urls[1]).None?
    ensures StatusesParallelAsWritten(urls, 4, starts, probe).Ok?
    ensures urls[1] !in StatusesParallelAsWritten(urls, 4, starts, probe).value
    ensures StatusesAsWritten(urls, starts, probe).Ok?
    ensures urls[1] in StatusesAsWritten(urls, starts, probe).value
    ensures StatusesAsWritten(urls, starts, probe).value[urls[1]] == NotChecked
  {
    FiveZaraResults(urls, s, starts, probe);
    var w1 := WorkerAsWritten(urls[2..4], starts(urls[2..4]), probe);
    var w2 := WorkerAsWritten(urls[4..], starts(urls[4..]), probe);
    var results := [(urls[0], s)] + w1 + w2;
    var u := urls[1];
    var ps := AllChecked(Route(Buckets([], [], []), results));
    RouteKeeps(Buckets([], [], []), results);
    WorkerAsWrittenWithin(urls[2..4], starts(urls[2..4]), probe);
    WorkerAsWrittenWithin(urls[4..], starts(urls[4..]), probe);
    forall c | c in ps ensures c.0 != u {
      assert c in results;
      if c in w1 {
        assert c.0 in urls[2..4];
      } else if c in w2 {
        assert c.0 in urls[4..];
      }
    }
    MapOfKeys(ps, u);
    if u in MapOf(ps) {
      var i :| 0 <= i < |ps| && ps[i].0 == u;
      assert ps[i] in ps;
    }
    FillKeys(MapOf(ps), urls, u);
  }

  // ---------------------------------------------------------------------------
  // What a status in the maps says

  /** A status the pipeline can report for its URL: the fixed unsupported
      text for a URL of no brand; for a Zara or Bershka URL, what its check
      returned or the worker error. */
  predicate Reported(c: Checked, probe: string -> Option<string>) {
    if DetectBrand(c.0).None? then c.1 == Unsupported
    else Some(c.1) == probe(c.0) || c.1 == WorkerError
  }

  /** The cap keeps only URLs of their brand in the brand lists, and only URLs
      of no brand in the other list. */
  lemma KeptBrands(urls: seq<string>)
    ensures forall u :: u in CapSpec(urls).zara + CapSpec(urls).bershka ==> DetectBrand(u).Some?
    ensures forall u :: u in CapSpec(urls).other ==> DetectBrand(u).None?
  {
    CapBounds(urls);
    var c := CapSpec(urls);
    forall u | u in c.zara + c.bershka ensures DetectBrand(u).Some? {
      if u in c.zara {
        var i :| 0 <= i < |c.zara| && c.zara[i] == u;
        assert OfBrand(urls, Some(Zara))[i] == u;
      } else {
        var i :| 0 <= i < |c.bershka| && c.bershka[i] == u;
        assert OfBrand(urls, Some(Bershka))[i] == u;
      }
    }
  }

  /** The statuses the worker's loop records are reported ones. */
  lemma ProcessedReported(chunk: seq<string>, probe: string -> Option<string>)
    ensures forall c :: c in Processed(chunk, probe) ==> Reported(c, probe)
  {
    var done := Processed(chunk, probe);
    forall c | c in done ensures Reported(c, probe) {
      var i :| 0 <= i < |done| && done[i] == c;
    }
  }

  /** The worker error is a reported status for a Zara or Bershka URL. */
  lemma FallbackReported(chunk: seq<string>, probe: string -> Option<string>)
    requires forall u :: u in chunk ==> DetectBrand(u).Some?
    ensures forall c :: c in Fallback(chunk) ==> Reported(c, probe)
  {
    forall c | c in Fallback(chunk) ensures Reported(c, probe) {
      var i :| 0 <= i < |chunk| && Fallback(chunk)[i] == c;
      assert chunk[i] in chunk;
    }
  }

  /** Both workers report, for a chunk of Zara and Bershka URLs, only
      statuses their URLs can have. */
  lemma WorkerReported(chunk: seq<string>, starts: bool, probe: string -> Option<string>, corrected: bool)
    requires forall u :: u in chunk ==> DetectBrand(u).Some?
    ensures forall c :: c in (if corrected then Worker(chunk, starts, probe) else WorkerAsWritten(chunk, starts, probe))
              ==> Reported(c, probe)
  {
    var done := if starts then Processed(chunk, probe) else [];
    ProcessedReported(chunk, probe);
    if corrected {
      var rest := chunk[|done|..];
      assert forall u :: u in rest ==> u in chunk;
      FallbackReported(rest, probe);
      assert Worker(chunk, starts, probe) == done + Fallback(rest);
    } else {
      FallbackReported(chunk, probe);
    }
  }

  /** The results of the chunks report only statuses their URLs can have. */
  lemma {:induction false} ChunkResultsReported(chunks: seq<seq<string>>, starts: seq<string> -> bool,
                                                probe: string -> Option<string>, corrected: bool, c: Checked)
    requires forall u :: u in Concat(chunks) ==> DetectBrand(u).Some?
    requires c in Concat(ChunkResults(chunks, starts, probe, corrected))
    ensures Reported(c, probe)
  {
    var rs := ChunkResults(chunks, starts, probe, corrected);
    assert rs[1..] == ChunkResults(chunks[1..], starts, probe, corrected);
    assert Concat(chunks) == chunks[0] + Concat(chunks[1..]);
    if c in rs[0] {
      WorkerReported(chunks[0], starts(chunks[0]), probe, corrected);
    } else {
      ChunkResultsReported(chunks[1..], starts, probe, corrected, c);
    }
  }

  /** The buckets of either pipeline, when it returns, report only statuses
      their URLs can have. */
  lemma BucketsReported(urls: seq<string>, maxWorkers: int, starts: seq<string> -> bool,
                        probe: string -> Option<string>, corrected: bool, c: Checked)
    requires var r := if corrected then CheckMany(urls, maxWorkers, starts, probe)
                      else CheckManyAsWritten(urls, maxWorkers, starts, probe);
             r.Ok? && c in AllChecked(r.value)
    ensures Reported(c, probe)
  {
    var cap := CapSpec(urls);
    var toCheck := cap.zara + cap.bershka;
    var start := Buckets([], [], MarkUnsupported(cap.other));
    KeptBrands(urls);
    if c in MarkUnsupported(cap.other) {
      var i :| 0 <= i < |cap.other| && MarkUnsupported(cap.other)[i] == c;
      assert cap.other[i] in cap.other;
    } else if toCheck != [] {
      var plan := Plan(|toCheck|, maxWorkers).value;
      var chunks := Chunks(toCheck, plan.1);
      ChunksConcat(toCheck, plan.1);
      var results := Concat(ChunkResults(chunks, starts, probe, corrected));
      RouteKeeps(start, results);
      assert AllChecked(start) == MarkUnsupported(cap.other);
      ChunkResultsReported(chunks, starts, probe, corrected, c);
    }
  }

  /** Every entry of a map built from reported statuses is reported. */
  lemma MapOfReported(ps: seq<Checked>, probe: string -> Option<string>, u: string)
    requires forall c :: c in ps ==> Reported(c, probe)
    requires u in MapOf(ps)
    ensures Reported((u, MapOf(ps)[u]), probe)
  {
    MapOfKeys(ps, u);
    var i :| 0 <= i < |ps| && ps[i] == (u, MapOf(ps)[u]);
    assert ps[i] in ps;
  }

  /** The parallel map, on either pipeline, maps a URL of no brand to the
      unsupported status, and a Zara or Bershka URL to what its check
      returned or to the worker error. */
  lemma ParallelValues(urls: seq<string>, maxWorkers: int, starts: seq<string> -> bool,
                       probe: string -> Option<string>, corrected: bool, u: string)
    requires var r := if corrected then StatusesParallel(urls, maxWorkers, starts, probe)
                      else StatusesParallelAsWritten(urls, maxWorkers, starts, probe);
             r.Ok? && u in r.value
    ensures var v := (if corrected then StatusesParallel(urls, maxWorkers, starts, probe)
                      else StatusesParallelAsWritten(urls, maxWorkers, starts, probe)).value[u];
            && (DetectBrand(u).None? ==> v == Unsupported)
            && (DetectBrand(u).Some? ==> Some(v) == probe(u) || v == WorkerError)
  {
    var b := (if corrected then CheckMany(urls, maxWorkers, starts, probe)
              else CheckManyAsWritten(urls, maxWorkers, starts, probe)).value;
    forall c | c in AllChecked(b) ensures Reported(c, probe) {
      BucketsReported(urls, maxWorkers, starts, probe, corrected, c);
    }
    MapOfReported(AllChecked(b), probe, u);
  }

  /** A URL of no brand always has an entry in the parallel map. */
  lemma UnsupportedListed(urls: seq<string>, maxWorkers: int, starts: seq<string> -> bool,
                          probe: string -> Option<string>, corrected: bool, u: string)
    requires u in urls && DetectBrand(u).None?
    requires (if corrected then StatusesParallel(urls, maxWorkers, starts, probe)
              else StatusesParallelAsWritten(urls, maxWorkers, starts, probe)).Ok?
    ensures u in (if corrected then StatusesParallel(urls, maxWorkers, starts, probe)
                  else StatusesParallelAsWritten(urls, maxWorkers, starts, probe)).value
  {
    var cap := CapSpec(urls);
    var toCheck := cap.zara + cap.bershka;
    var start := Buckets([], [], MarkUnsupported(cap.other));
    var b := (if corrected then CheckMany(urls, maxWorkers, starts, probe)
              else CheckManyAsWritten(urls, maxWorkers, starts, probe)).value;
    CapBounds(urls);
    var i :| 0 <= i < |cap.other| && cap.other[i] == u;
    var c := MarkUnsupported(cap.other)[i];
    assert c in AllChecked(start);
    if toCheck != [] {
      var plan := Plan(|toCheck|, maxWorkers).value;
      RouteKeeps(start, Concat(ChunkResults(Chunks(toCheck, plan.1), starts, probe, corrected)));
    }
    assert c in AllChecked(b);
    var j :| 0 <= j < |AllChecked(b)| && AllChecked(b)[j] == c;
    MapOfKeys(AllChecked(b), u);
  }

  /** `check_urls_for_user` as written, when it returns, maps a URL of no
      brand to the unsupported status, and a Zara or Bershka URL to what its
      check returned, to the worker error, or to the not-checked status. */
  lemma StatusesAsWrittenValues(urls: seq<string>, starts: seq<string> -> bool,
                                probe: string -> Option<string>, u: string)
    requires StatusesAsWritten(urls, starts, probe).Ok? && u in StatusesAsWritten(urls, starts, probe).value
    ensures var v := StatusesAsWritten(urls, starts, probe).value[u];
            && (DetectBrand(u).None? ==> v == Unsupported)
            && (DetectBrand(u).Some? ==> Some(v) == probe(u) || v == WorkerError || v == NotChecked)
  {
    var flat := StatusesParallelAsWritten(urls, 4, starts, probe).value;
    FillKeys(flat, urls, u);
    if u in flat {
      ParallelValues(urls, 4, starts, probe, false, u);
    } else if DetectBrand(u).None? {
      UnsupportedListed(urls, 4, starts, probe, false, u);
    }
  }

  /** `check_urls_for_user` on the corrected pipeline maps a URL of no brand
      to the unsupported status, a Zara or Bershka URL the cap keeps to what
      its check returned or to the worker error, and a URL the cap drops to
      the not-checked status. */
  lemma StatusesValues(urls: seq<string>, starts: seq<string> -> bool, probe: string -> Option<string>, u: string)
    requires u in Statuses(urls, starts, probe)
    ensures var v := Statuses(urls, starts, probe)[u];
            var kept := CapSpec(urls).zara + CapSpec(urls).bershka;
            && (DetectBrand(u).None? ==> v == Unsupported)
            && (DetectBrand(u).Some? && u in kept ==> Some(v) == probe(u) || v == WorkerError)
            && (DetectBrand(u).Some? && u !in kept ==> v == NotChecked)
  {
    CheckManyOk(urls, 4, starts, probe);
    var flat := StatusesParallel(urls, 4, starts, probe).value;
    var kept := CapSpec(urls).zara + CapSpec(urls).bershka;
    ParallelKeys(urls, 4, starts, probe, u);
    FillKeys(flat, urls, u);
    if u in flat {
      ParallelValues(urls, 4, starts, probe, true, u);
      if DetectBrand(u).Some? {
        KeptOrOther(urls, u);
      }
    } else {
      CapBounds(urls);
    }
  }

  /** A Zara or Bershka URL the cap keeps is in a brand list, not in the
      other list. */
  lemma KeptOrOther(urls: seq<string>, u: string)
    requires DetectBrand(u).Some? && u in CapSpec(urls).zara + CapSpec(urls).bershka + CapSpec(urls).other
    ensures u in CapSpec(urls).zara + CapSpec(urls).bershka
  {
    KeptBrands(urls);
  }

  // ---------------------------------------------------------------------------
  // Message blocks

  const BlockLimit: nat := 3500
  const ZaraTitle: string := "👗 Zara"
  const BershkaTitle: string := "🧥 Bershka"
  const OtherTitle: string := "Інше"

  /** The formatter's state: the finished blocks and the block being filled. */
  datatype Writer = Writer(blocks: seq<string>, current: string)

  /** `add_line`: a line and its newline go to the current block, unless they
      would take it past the limit; then the current block is closed (dropped
      if it is only whitespace) and the line starts a new one. */
  function AfterLine(w: Writer, line: string): Writer
  {
    if |w.current| + |line| + 1 > BlockLimit then
      Writer(if Strip(w.current) != [] then w.blocks + [w.current] else w.blocks, line + "\n")
    else
      Writer(w.blocks, w.current + line + "\n")
  }

  function AfterLines(w: Writer, lines: seq<string>): Writer
    decreases |lines|
  {
    if lines == [] then w else AfterLines(AfterLine(w, lines[0]), lines[1..])
  }

  lemma {:induction false} AfterLinesAppend(w: Writer, a: seq<string>, b: seq<string>)
    ensures AfterLines(w, a + b) == AfterLines(AfterLines(w, a), b)
    decreases |a|
  {
    if a == [] {
      assert a + b == b;
    } else {
      assert (a + b)[1..] == a[1..] + b;
      AfterLinesAppend(AfterLine(w, a[0]), a[1..], b);
    }
  }

  lemma AfterTwoLines(w: Writer, a: string, b: string)
    ensures AfterLines(w, [a, b]) == AfterLine(AfterLine(w, a), b)
  {
    assert [a, b][1..] == [b];
    assert [b][1..] == [];
    assert AfterLines(AfterLine(w, a), [b]) == AfterLines(AfterLine(AfterLine(w, a), b), []);
  }

  /** The last block is kept only when it is not blank. */
  function Finish(w: Writer): seq<string> {
    if Strip(w.current) != [] then w.blocks + [w.current] else w.blocks
  }

  /** Each status followed by an empty spacer line. */
  function ItemLines(items: seq<Checked>): seq<string> {
    if items == [] then [] else ItemLines(items[..|items| - 1]) + [items[|items| - 1].1, ""]
  }

  /** A brand with results: its bold title (which carries its own newline),
      its items, and a spacer line; a brand without results adds nothing. */
  function BrandLines(title: string, items: seq<Checked>): seq<string> {
    if items == [] then [] else ["<b>" + title + "</b>\n"] + ItemLines(items) + [""]
  }

  /** The brands in the order they are printed. */
  function Titled(b: Buckets): seq<(string, seq<Checked>)> {
    [(ZaraTitle, b.zara), (BershkaTitle, b.bershka), (OtherTitle, b.other)]
  }

  function LayoutLines(brands: seq<(string, seq<Checked>)>): seq<string> {
    if brands == [] then []
    else LayoutLines(brands[..|brands| - 1]) + BrandLines(brands[|brands| - 1].0, brands[|brands| - 1].1)
  }

  /** Every line `format_results` hands to `add_line`, in order. */
  function ResultLines(b: Buckets): seq<string> {
    LayoutLines(Titled(b))
  }

  /** The messages `format_results` returns. */
  function Blocks(b: Buckets): seq<string> {
    Finish(AfterLines(Writer([], ""), ResultLines(b)))
  }

  /** The state `format_results` shares with its `add_line` closure. */
  class BlockWriter {
    var blocks: seq<string>
    var current: string

    constructor ()
      ensures blocks == [] && current == ""
    {
      blocks := [];
      current := "";
    }

    function State(): Writer
      reads this
    {
      Writer(blocks, current)
    }

    method AddLine(line: string)
      modifies this
      ensures State() == AfterLine(old(State()), line)
    {
      if |current| + |line| + 1 > BlockLimit {
        if Strip(current) != [] {
          blocks := blocks + [current];
        }
        current := "";
      }
      current := current + line + "\n";
    }
  }

  /** One brand's title, items and spacers. */
  method AddBrand(w: BlockWriter, title: string, items: seq<Checked>)
    requires items != []
    modifies w
    ensures w.State() == AfterLines(old(w.State()), BrandLines(title, items))
  {
    ghost var start := w.State();
    var head := ["<b>" + title + "</b>\n"];
    w.AddLine(head[0]);
    assert w.State() == AfterLines(start, head + ItemLines(items[..0]));
    for k := 0 to |items|
      invariant w.State() == AfterLines(start, head + ItemLines(items[..k]))
    {
      ghost var before := w.State();
      w.AddLine(items[k].1);
      w.AddLine("");
      AfterTwoLines(before, items[k].1, "");
      assert items[..k + 1][..k] == items[..k];
      AfterLinesAppend(start, head + ItemLines(items[..k]), [items[k].1, ""]);
      assert head + ItemLines(items[..k + 1]) == (head + ItemLines(items[..k])) + [items[k].1, ""];
    }
    assert items[..|items|] == items;
    w.AddLine("");
    AfterLinesAppend(start, head + ItemLines(items), [""]);
    assert BrandLines(title, items) == (head + ItemLines(items)) + [""];
  }

  method FormatResults(b: Buckets) returns (blocks: seq<string>)
    ensures blocks == Blocks(b)
  {
    var w := new BlockWriter();
    var brands := Titled(b);
    for k := 0 to |brands|
      invariant w.State() == AfterLines(Writer([], ""), LayoutLines(brands[..k]))
    {
      var (title, items) := brands[k];
      assert brands[..k + 1][..k] == brands[..k];
      AfterLinesAppend(Writer([], ""), LayoutLines(brands[..k]), BrandLines(title, items));
      if items != [] {
        AddBrand(w, title, items);
      } else {
        assert LayoutLines(brands[..k]) + BrandLines(title, items) == LayoutLines(brands[..k]);
      }
    }
    assert brands[..|brands|] == brands;
    blocks := w.blocks;
    if Strip(w.current) != [] {
      blocks := blocks + [w.current];
    }
  }

  /** A block fits the limit, or it is one over-long line of `pool` on its own. */
  predicate Fits(block: string, pool: seq<string>) {
    |block| <= BlockLimit || exists l :: l in pool && block == l + "\n"
  }

  predicate WellFormed(w: Writer, pool: seq<string>) {
    && (forall i :: 0 <= i < |w.blocks| ==> Strip(w.blocks[i]) != [] && Fits(w.blocks[i], pool))
    && Fits(w.current, pool)
  }

  lemma AfterLineWellFormed(w: Writer, line: string, pool: seq<string>)
    requires WellFormed(w, pool) && line in pool
    ensures WellFormed(AfterLine(w, line), pool)
  {
    if |w.current| + |line| + 1 > BlockLimit {
      assert Fits(line + "\n", pool);
    }
  }

  lemma {:induction false} AfterLinesWellFormed(w: Writer, lines: seq<string>, pool: seq<string>)
    requires WellFormed(w, pool)
    requires forall i :: 0 <= i < |lines| ==> lines[i] in pool
    ensures WellFormed(AfterLines(w, lines), pool)
    decreases |lines|
  {
    if lines != [] {
      AfterLineWellFormed(w, lines[0], pool);
      AfterLinesWellFormed(AfterLine(w, lines[0]), lines[1..], pool);
    }
  }

  /** No message is blank, and every message is within the limit unless it is
      a single line that is itself too long. */
  lemma BlocksWellFormed(b: Buckets)
    ensures forall i :: 0 <= i < |Blocks(b)| ==> Strip(Blocks(b)[i]) != []
    ensures forall i :: 0 <= i < |Blocks(b)| ==>
      |Blocks(b)[i]| <= BlockLimit || exists l :: l in ResultLines(b) && Blocks(b)[i] == l + "\n"
  {
    var lines := ResultLines(b);
    AfterLinesWellFormed(Writer([], ""), lines, lines);
    var w := AfterLines(Writer([], ""), lines);
    forall i | 0 <= i < |Blocks(b)|
      ensures Strip(Blocks(b)[i]) != [] && Fits(Blocks(b)[i], lines)
    {
      if i == |w.blocks| {
        assert Blocks(b)[i] == w.current;
      } else {
        assert Blocks(b)[i] == w.blocks[i];
      }
    }
  }

  /** The characters a reader sees: everything but whitespace. */
  function Visible(s: string): string {
    if s == [] then [] else (if IsSpace(s[0]) then [] else [s[0]]) + Visible(s[1..])
  }

  lemma {:induction false} VisibleAppend(a: string, b: string)
    ensures Visible(a + b) == Visible(a) + Visible(b)
  {
    if a == [] {
      assert a + b == b;
    } else {
      assert (a + b)[1..] == a[1..] + b;
      VisibleAppend(a[1..], b);
    }
  }

  lemma {:induction false} VisibleSpaces(s: string)
    requires forall j :: 0 <= j < |s| ==> IsSpace(s[j])
    ensures Visible(s) == []
  {
    if s != [] {
      VisibleSpaces(s[1..]);
    }
  }


  /** Everything written so far: the closed blocks, then the open one. */
  function Written(w: Writer): string {
    Concat(w.blocks) + w.current
  }


  lemma AfterLineVisible(w: Writer, line: string)
    ensures Visible(Written(AfterLine(w, line))) == Visible(Written(w)) + Visible(line + "\n")
  {
    var text := line + "\n";
    if |w.current| + |line| + 1 > BlockLimit {
      VisibleAppend(Written(w), text);
      if Strip(w.current) != [] {
        ConcatSnoc(w.blocks, w.current);
        assert Written(AfterLine(w, line)) == Written(w) + text;
      } else {
        StripEmpty(w.current);
        VisibleSpaces(w.current);
        VisibleAppend(Concat(w.blocks), w.current);
        VisibleAppend(Concat(w.blocks), text);
      }
    } else {
      assert Written(AfterLine(w, line)) == Written(w) + text;
      VisibleAppend(Written(w), text);
    }
  }

  lemma {:induction false} AfterLinesVisible(w: Writer, lines: seq<string>)
    ensures Visible(Written(AfterLines(w, lines))) == Visible(Written(w)) + Visible(Newlined(lines))
    decreases |lines|
  {
    if lines == [] {
      assert Visible(Newlined(lines)) == [];
    } else {
      var next := AfterLine(w, lines[0]);
      var head, tail := lines[0] + "\n", Newlined(lines[1..]);
      AfterLineVisible(w, lines[0]);
      AfterLinesVisible(next, lines[1..]);
      VisibleAppend(head, tail);
      assert Newlined(lines) == head + tail;
      assert AfterLines(w, lines) == AfterLines(next, lines[1..]);
      var vw, vh, vt := Visible(Written(w)), Visible(head), Visible(tail);
      assert Visible(Written(AfterLines(w, lines))) == (vw + vh) + vt;
      assert (vw + vh) + vt == vw + (vh + vt);
    }
  }

  /** Splitting into messages loses nothing but whitespace and keeps the
      order: the visible text of the messages, read one after another, is the
      visible text of all the lines. */
  lemma BlocksKeepText(b: Buckets)
    ensures Visible(Concat(Blocks(b))) == Visible(Newlined(ResultLines(b)))
  {
    var w := AfterLines(Writer([], ""), ResultLines(b));
    AfterLinesVisible(Writer([], ""), ResultLines(b));
    assert Written(Writer([], "")) == [];
    assert Visible([]) == [];
    FinishVisible(w);
  }

  /** Closing the last block, or dropping it when blank, loses no visible text. */
  lemma FinishVisible(w: Writer)
    ensures Visible(Concat(Finish(w))) == Visible(Written(w))
  {
    if Strip(w.current) != [] {
      ConcatSnoc(w.blocks, w.current);
    } else {
      StripEmpty(w.current);
      VisibleSpaces(w.current);
      VisibleAppend(Concat(w.blocks), w.current);
      assert Visible(Written(w)) == Visible(Concat(w.blocks)) + [];
    }
  }

  lemma {:induction false} ItemLinesList(items: seq<Checked>, k: int)
    requires 0 <= k < |items|
    ensures items[k].1 in ItemLines(items)
  {
    if k < |items| - 1 {
      ItemLinesList(items[..|items| - 1], k);
    }
  }

  /** The lines are the Zara section, then the Bershka one, then the rest. */
  lemma ResultLinesSplit(b: Buckets)
    ensures ResultLines(b) == BrandLines(ZaraTitle, b.zara) + BrandLines(BershkaTitle, b.bershka) + BrandLines(OtherTitle, b.other)
  {
    var t := Titled(b);
    assert t[..1][..0] == [];
    assert LayoutLines(t[..1]) == BrandLines(ZaraTitle, b.zara);
    assert t[..2][..1] == t[..1];
    assert LayoutLines(t[..2]) == LayoutLines(t[..1]) + BrandLines(BershkaTitle, b.bershka);
    assert t[..3][..2] == t[..2];
    assert t[..3] == t;
    assert LayoutLines(t) == LayoutLines(t[..2]) + BrandLines(OtherTitle, b.other);
  }

  /** Every checked status is among the lines written. */
  lemma StatusesListed(b: Buckets, c: Checked)
    requires c in AllChecked(b)
    ensures c.1 in ResultLines(b)
  {
    ResultLinesSplit(b);
    if c in b.zara {
      var k :| 0 <= k < |b.zara| && b.zara[k] == c;
      ItemLinesList(b.zara, k);
    } else if c in b.bershka {
      var k :| 0 <= k < |b.bershka| && b.bershka[k] == c;
      ItemLinesList(b.bershka, k);
    } else {
      var k :| 0 <= k < |b.other| && b.other[k] == c;
      ItemLinesList(b.other, k);
    }
  }
}
