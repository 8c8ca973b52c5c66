/**
 * The per-row pipeline `processBoundingBoxes` and the resumable cursor loop
 * shared by the `/get-bboxes/start` and `/get-bboxes/next` routes (index.js).
 * The browser is an oracle: opening the page of a row yields no page, a
 * navigation error, or a page whose DOM and element screenshots are given
 * functions.
 */
module Batch {
  import opened Wrappers
  import opened Bundles
  import opened Extract
  import opened Sanitize

  /** The result quota of one call. */
  const BATCH_SIZE: nat := 5

  /** The target selector list passed for every row. */
  const TARGET_SELECTORS: seq<string> := ["form", "button", ".form", ".button"]

  const DATA_URI_PREFIX: string := "data:image/jpeg;base64,"

  /**
   * What the mobile snapshot step meets for one source selector: `page.$`
   * throws, finds nothing, the screenshots fail (caught and logged), or both
   * screenshots succeed with the given base64 text.
   */
  datatype Capture = LookupThrows | NoElement | ShotFailed | Shot(elementImage: string, viewportImage: string)

  /** An open page: its DOM as the in-page code sees it, and its screenshot behaviour. */
  datatype Page = Page(dom: Dom, capture: string -> Capture)

  /** What opening and navigating a row's page gives. */
  datatype PageLoad = NoPage | NavigationFailed | Loaded(page: Page)

  /** The browser: the page each row opens to (after the mobile viewport, if any, is set). */
  datatype Browser = Browser(open: Row -> PageLoad)

  /** The exceptions that escape a row and fail the whole request. */
  datatype RowError = Extraction(cause: Extract.Error) | Navigation(url: string) | ElementLookup(selector: string)

  /** The JSON reply `{result, cursor, total}`. */
  datatype Reply = Reply(result: seq<Graph>, cursor: int, total: nat)

  /** The `/start` reply, which also returns the combined rows as `raw`. */
  datatype StartReply = StartReply(batch: Reply, raw: seq<Row>)

  /** The source selector text as the page receives it: a missing source key reaches the page as `undefined`. */
  function SourceSelector(source: Option<string>): string
  {
    if source.Some? then source.value else "undefined"
  }

  /** The box after one snapshot attempt that did not throw. */
  function Snapshotted(b: Box, c: Capture): Box
    requires c != LookupThrows
  {
    match c
    case Shot(e, v) => b.(snapshots := Some(Snapshots(DATA_URI_PREFIX + e, DATA_URI_PREFIX + v)))
    case _ => b
  }

  /** Reference for the mobile snapshot pass over the source boxes, in order; the first throwing lookup aborts it. */
  function SnapshotSources(boxes: seq<Box>, capture: string -> Capture): (r: Result<seq<Box>, RowError>)
    ensures r.Success? ==> |r.value| == |boxes|
    decreases |boxes|
  {
    if boxes == [] then Success([])
    else
      var c := capture(boxes[0].selector);
      if c == LookupThrows then Failure(ElementLookup(boxes[0].selector))
      else
        match SnapshotSources(boxes[1..], capture)
        case Failure(e) => Failure(e)
        case Success(rest) => Success([Snapshotted(boxes[0], c)] + rest)
  }

  /** Box `i` is the first whose `page.$` lookup throws. */
  predicate FirstThrow(boxes: seq<Box>, capture: string -> Capture, i: int)
  {
    0 <= i < |boxes| && capture(boxes[i].selector) == LookupThrows &&
    forall k :: 0 <= k < i ==> capture(boxes[k].selector) != LookupThrows
  }

  /**
   * The snapshot pass keeps every box, its rectangle and its selector; a box
   * gains the two data URIs exactly when both screenshots succeed, and a
   * failed screenshot leaves it as it was. It throws exactly when some lookup
   * throws, with the error of the first lookup that throws.
   */
  lemma {:induction false} SnapshotSourcesEffect(boxes: seq<Box>, capture: string -> Capture)
    ensures SnapshotSources(boxes, capture).Success? ==> forall i :: 0 <= i < |boxes| ==>
      var c := capture(boxes[i].selector);
      var b := SnapshotSources(boxes, capture).value[i];
      c != LookupThrows && b.rect == boxes[i].rect && b.selector == boxes[i].selector &&
      b.snapshots == if c.Shot? then Some(Snapshots(DATA_URI_PREFIX + c.elementImage, DATA_URI_PREFIX + c.viewportImage))
                     else boxes[i].snapshots
    ensures SnapshotSources(boxes, capture).Failure? <==> exists i :: 0 <= i < |boxes| && capture(boxes[i].selector) == LookupThrows
    ensures SnapshotSources(boxes, capture).Failure? ==>
      exists i :: FirstThrow(boxes, capture, i) && SnapshotSources(boxes, capture).error == ElementLookup(boxes[i].selector)
    decreases |boxes|
  {
    if boxes != [] {
      SnapshotSourcesEffect(boxes[1..], capture);
      var r := SnapshotSources(boxes, capture);
      if r.Success? {
        assert forall i :: 1 <= i < |boxes| ==> r.value[i] == SnapshotSources(boxes[1..], capture).value[i - 1] && boxes[i] == boxes[1..][i - 1];
      } else {
        if capture(boxes[0].selector) == LookupThrows {
          assert FirstThrow(boxes, capture, 0);
        } else {
          var i :| FirstThrow(boxes[1..], capture, i) && SnapshotSources(boxes[1..], capture).error == ElementLookup(boxes[1..][i].selector);
          assert boxes[i + 1] == boxes[1..][i];
          assert forall k :: 0 < k < i + 1 ==> boxes[k] == boxes[1..][k - 1];
          assert FirstThrow(boxes, capture, i + 1);
          assert boxes[1..][i] == boxes[i + 1];
        }
      }
      if exists i :: 0 <= i < |boxes| && capture(boxes[i].selector) == LookupThrows {
        var i :| 0 <= i < |boxes| && capture(boxes[i].selector) == LookupThrows;
        if i > 0 {
          assert boxes[1..][i - 1] == boxes[i];
        }
      }
    }
  }

  /** `for (const src of bbData.sources || [])`: take the two screenshots of each source element. */
  method AttachSnapshots(boxes: seq<Box>, capture: string -> Capture) returns (r: Result<seq<Box>, RowError>)
    ensures r == SnapshotSources(boxes, capture)
  {
    var done: seq<Box> := [];
    assert boxes[0..] == boxes;
    for i := 0 to |boxes|
      invariant SnapshotSources(boxes, capture) == Prefix(done, SnapshotSources(boxes[i..], capture))
    {
      var src := boxes[i];
      assert boxes[i..][0] == src && boxes[i..][1..] == boxes[i + 1..];
      var c := capture(src.selector);
      if c == LookupThrows {
        return Failure(ElementLookup(src.selector));
      }
      var rest := SnapshotSources(boxes[i + 1..], capture);
      assert SnapshotSources(boxes[i..], capture) == Prefix([Snapshotted(src, c)], rest);
      if rest.Success? {
        AppendAssoc(done, [Snapshotted(src, c)], rest.value);
      }
      done := done + [Snapshotted(src, c)];
    }
    assert boxes[|boxes|..] == [];
    assert done + [] == done;
    r := Success(done);
  }

  /**
   * One row of `processBoundingBoxes`: no page skips the row, a navigation
   * error, a throwing selector or a throwing `page.$` lookup fails it, and
   * otherwise the row gives exactly one graph (with snapshots on its sources
   * when the row is mobile).
   */
  function RowGraph(row: Row, browser: Browser): (r: Result<Option<Graph>, RowError>)
    ensures r == Success(None) <==> browser.open(row).NoPage?
    ensures browser.open(row).NavigationFailed? ==> r == Failure(Navigation(row.url))
    ensures browser.open(row).Loaded? ==>
      var bb := BoundingBoxes(browser.open(row).page.dom, SourceSelector(row.source), TARGET_SELECTORS);
      (bb.Failure? ==> r == Failure(Extraction(bb.error))) &&
      (r.Success? ==> bb.Success? && r.value.Some? && r.value.value.targets == bb.value.targets &&
                      |r.value.value.sources| == |bb.value.sources| &&
                      (!IsMobile(row.userAgent) ==> r.value.value == bb.value))
    ensures browser.open(row).Loaded? ==>
      var page := browser.open(row).page;
      var bb := BoundingBoxes(page.dom, SourceSelector(row.source), TARGET_SELECTORS);
      (bb.Success? && !IsMobile(row.userAgent) ==> r == Success(Some(bb.value))) &&
      (bb.Success? && IsMobile(row.userAgent) ==>
        var snap := SnapshotSources(bb.value.sources, page.capture);
        (snap.Failure? ==> r == Failure(snap.error)) &&
        (snap.Success? ==> r == Success(Some(Graph(snap.value, bb.value.targets)))))
  {
    match browser.open(row)
    case NoPage => Success(None)
    case NavigationFailed => Failure(Navigation(row.url))
    case Loaded(page) =>
      match BoundingBoxes(page.dom, SourceSelector(row.source), TARGET_SELECTORS)
      case Failure(e) => Failure(Extraction(e))
      case Success(g) =>
        if IsMobile(row.userAgent) then
          match SnapshotSources(g.sources, page.capture)
          case Failure(e) => Failure(e)
          case Success(sources) => Success(Some(Graph(sources, g.targets)))
        else Success(Some(g))
  }

  /** Puts `done` in front of a successful result. */
  function Prefix<T>(done: seq<T>, r: Result<seq<T>, RowError>): (p: Result<seq<T>, RowError>)
    ensures done == [] ==> p == r
  {
    match r
    case Failure(e) => Failure(e)
    case Success(rest) => assert [] + rest == rest; Success(done + rest)
  }

  function OptionList(o: Option<Graph>): seq<Graph>
  {
    if o.Some? then [o.value] else []
  }

  /** `allBbxes` after the loop over a chunk: one graph per row that was not skipped, in row order. */
  function Collect(rows: seq<Row>, browser: Browser): (r: Result<seq<Graph>, RowError>)
    ensures r.Success? ==> |r.value| <= |rows|
    decreases |rows|
  {
    if rows == [] then Success([])
    else
      match RowGraph(rows[0], browser)
      case Failure(e) => Failure(e)
      case Success(o) => Prefix(OptionList(o), Collect(rows[1..], browser))
  }

  /** Reference for `processBoundingBoxes(chunk)`: the collected graphs, cleaned by `removeZeros` and flattened. */
  function ProcessChunk(rows: seq<Row>, browser: Browser): (r: Result<seq<Graph>, RowError>)
    ensures r.Success? ==> |r.value| <= |rows|
  {
    match Collect(rows, browser)
    case Failure(e) => Failure(e)
    case Success(all) => Success(CleanAll(all))
  }

  /** A one-row chunk gives nothing for a skipped row and exactly its cleaned graph otherwise, even an empty one. */
  lemma OneRowChunk(row: Row, browser: Browser)
    ensures RowGraph(row, browser).Failure? ==> ProcessChunk([row], browser) == Failure(RowGraph(row, browser).error)
    ensures RowGraph(row, browser) == Success(None) ==> ProcessChunk([row], browser) == Success([])
    ensures RowGraph(row, browser).Success? && RowGraph(row, browser).value.Some? ==>
      ProcessChunk([row], browser) == Success([Clean(RowGraph(row, browser).value.value)])
  {
    assert [row][0] == row && [row][1..] == [];
    if RowGraph(row, browser).Success? {
      var o := RowGraph(row, browser).value;
      assert OptionList(o) + [] == OptionList(o);
      assert Collect([row], browser) == Success(OptionList(o));
      if o.Some? {
        assert CleanAll([o.value]) == [Clean(o.value)];
      } else {
        assert CleanAll([]) == [];
      }
    }
  }

  /** `processBoundingBoxes(dataChunk, browser)`. */
  method ProcessBoundingBoxes(chunk: seq<Row>, browser: Browser) returns (r: Result<seq<Graph>, RowError>)
    ensures r == ProcessChunk(chunk, browser)
  {
    var allBbxes: seq<Graph> := [];
    assert chunk[0..] == chunk;
    for i := 0 to |chunk|
      invariant Collect(chunk, browser) == Prefix(allBbxes, Collect(chunk[i..], browser))
    {
      var row := chunk[i];
      assert chunk[i..][0] == row && chunk[i..][1..] == chunk[i + 1..];
      match browser.open(row) {
        case NoPage =>
        case NavigationFailed =>
          return Failure(Navigation(row.url));
        case Loaded(page) =>
          var isMobile := IsMobile(row.userAgent);
          var bbData := GetBoundingBoxes(page.dom, SourceSelector(row.source), TARGET_SELECTORS);
          if bbData.Failure? {
            return Failure(Extraction(bbData.error));
          }
          var g := bbData.value;
          if isMobile {
            var sources := AttachSnapshots(g.sources, page.capture);
            if sources.Failure? {
              return Failure(sources.error);
            }
            g := Graph(sources.value, g.targets);
          }
          var rest := Collect(chunk[i + 1..], browser);
          assert Collect(chunk[i..], browser) == Prefix([g], rest);
          if rest.Success? {
            AppendAssoc(allBbxes, [g], rest.value);
          }
          allBbxes := allBbxes + [g];
      }
    }
    assert chunk[|chunk|..] == [];
    assert allBbxes + [] == allBbxes;
    var cleaned := RemoveZeros(allBbxes);
    FlattenRemoveZeros(cleaned, allBbxes);
    r := Success(Flatten(cleaned));
  }

  /** The index `Array.prototype.slice` uses for an argument: negative counts from the end; clamped to the length. */
  function SliceIndex(i: int, n: nat): (k: nat)
    ensures k <= n
  {
    if i < 0 then (if n + i < 0 then 0 else n + i) else if i < n then i else n
  }

  /** `s.slice(begin, end)` with JavaScript's index rules. */
  function JsSlice<T>(s: seq<T>, begin: int, end: int): (r: seq<T>)
    ensures end == begin + 1 ==> |r| <= 1
    ensures 0 <= begin <= end <= |s| ==> r == s[begin..end]
  {
    var lo := SliceIndex(begin, |s|);
    var hi := SliceIndex(end, |s|);
    assert end == begin + 1 && lo < hi ==> hi - lo <= 1;
    if lo < hi then s[lo..hi] else []
  }

  /**
   * A one-row chunk `slice(o, o + 1)`: row `o` for an in-range offset; for a
   * negative offset from `-length` to `-2`, the row that many places from the
   * end; nothing for `-1`.
   */
  lemma JsSliceOne<T>(s: seq<T>, o: int)
    ensures 0 <= o < |s| ==> JsSlice(s, o, o + 1) == [s[o]]
    ensures -|s| <= o < -1 ==> JsSlice(s, o, o + 1) == [s[|s| + o]]
    ensures o == -1 || o < -|s| || o >= |s| ==> JsSlice(s, o, o + 1) == []
  {
  }

  /**
   * Reference for the batch loop: scan rows one at a time from `offset`,
   * appending each row's results, until the quota is reached or the rows run
   * out; any exception aborts the call.
   */
  function Scan(data: seq<Row>, offset: int, processed: seq<Graph>, browser: Browser): (r: Result<Reply, RowError>)
    ensures r.Success? ==> r.value.total == |data| && offset <= r.value.cursor
    ensures r.Success? ==> |r.value.result| >= BATCH_SIZE || r.value.cursor >= |data|
    ensures r.Success? && offset <= |data| ==> r.value.cursor <= |data|
    ensures r.Success? && offset < |data| && |processed| < BATCH_SIZE ==> offset < r.value.cursor
    ensures r.Success? && |processed| <= BATCH_SIZE ==> |r.value.result| <= BATCH_SIZE
    decreases |data| - offset
  {
    if |processed| >= BATCH_SIZE || offset >= |data| then Success(Reply(processed, offset, |data|))
    else
      match ProcessChunk(JsSlice(data, offset, offset + 1), browser)
      case Failure(e) => Failure(e)
      case Success(result) => Scan(data, offset + 1, processed + result, browser)
  }

  /** The `while (processed.length < batchSize && cursor < data.length)` loop of both routes. */
  method RunBatch(data: seq<Row>, start: int, browser: Browser) returns (r: Result<Reply, RowError>)
    ensures r == Scan(data, start, [], browser)
  {
    var offset := start;
    var processed: seq<Graph> := [];
    while |processed| < BATCH_SIZE && offset < |data|
      invariant Scan(data, offset, processed, browser) == Scan(data, start, [], browser)
      decreases |data| - offset
    {
      var chunk := JsSlice(data, offset, offset + 1);
      var result := ProcessBoundingBoxes(chunk, browser);
      if result.Failure? {
        return Failure(result.error);
      }
      if |result.value| > 0 {
        processed := processed + result.value;
      } else {
        assert processed + result.value == processed;
      }
      offset := offset + 1;
    }
    r := Success(Reply(processed, offset, |data|));
  }

  /**
   * `parseInt(cursor) || 0`, with `None` standing for a cursor that parses to
   * NaN: a falsy parse (NaN or 0) becomes 0, and any other integer is kept.
   */
  function CursorOffset(cursor: Option<int>): (o: int)
    ensures o == 0 <==> cursor.None? || cursor.value == 0
    ensures o != 0 ==> cursor == Some(o)
  {
    if cursor.Some? && cursor.value != 0 then cursor.value else 0
  }

  /** `/get-bboxes/next`: resume the scan of the posted rows at the posted cursor. */
  method Next(data: seq<Row>, cursor: Option<int>, browser: Browser) returns (r: Result<Reply, RowError>)
    ensures r == Scan(data, CursorOffset(cursor), [], browser)
  {
    var offset := CursorOffset(cursor);
    r := RunBatch(data, offset, browser);
  }

  /** `/get-bboxes/start`: combine the rows of every day and scan them from cursor 0. */
  method Start(days: seq<seq<Bundle>>, ckpt: Option<string>, browser: Browser) returns (r: Result<StartReply, RowError>)
    ensures r.Success? <==> Scan(CombinedRows(days, ckpt), 0, [], browser).Success?
    ensures r.Success? ==> r.value == StartReply(Scan(CombinedRows(days, ckpt), 0, [], browser).value, CombinedRows(days, ckpt))
  {
    var combined := CombinedRows(days, ckpt);
    var batch := RunBatch(combined, 0, browser);
    match batch {
      case Failure(e) => r := Failure(e);
      case Success(b) => r := Success(StartReply(b, combined));
    }
  }

  /** The result of processing each row on its own, as a one-row chunk. */
  function RowResults(data: seq<Row>, browser: Browser): (r: seq<Result<seq<Graph>, RowError>>)
    ensures |r| == |data|
  {
    seq(|data|, k requires 0 <= k < |data| => ProcessChunk([data[k]], browser))
  }

  /** Step results `lo` to `hi - 1`, concatenated in order; the first failure aborts. */
  function Chain(steps: seq<Result<seq<Graph>, RowError>>, lo: nat, hi: nat): Result<seq<Graph>, RowError>
    requires lo <= hi <= |steps|
    decreases hi - lo
  {
    if lo == hi then Success([])
    else
      match steps[lo]
      case Failure(e) => Failure(e)
      case Success(x) => Prefix(x, Chain(steps, lo + 1, hi))
  }

  /** Chaining `lo..hi` is chaining `lo..mid` and then `mid..hi`. */
  lemma {:induction false} ChainSplit(steps: seq<Result<seq<Graph>, RowError>>, lo: nat, mid: nat, hi: nat)
    requires lo <= mid <= hi <= |steps|
    ensures Chain(steps, lo, mid).Failure? ==> Chain(steps, lo, hi) == Chain(steps, lo, mid)
    ensures Chain(steps, lo, mid).Success? ==>
      Chain(steps, lo, hi) == Prefix(Chain(steps, lo, mid).value, Chain(steps, mid, hi))
    decreases mid - lo
  {
    if lo < mid {
      ChainSplit(steps, lo + 1, mid, hi);
      if steps[lo].Success? {
        var head := steps[lo].value;
        var tail := Chain(steps, lo + 1, mid);
        var rest := Chain(steps, mid, hi);
        if tail.Success? && rest.Success? {
          AppendAssoc(head, tail.value, rest.value);
        }
      }
    }
  }

  /** Reference for a full scan: rows `lo` to `hi - 1`, each processed once as its own chunk, in order. */
  function Gathered(data: seq<Row>, lo: nat, hi: nat, browser: Browser): Result<seq<Graph>, RowError>
    requires lo <= hi <= |data|
  {
    Chain(RowResults(data, browser), lo, hi)
  }

  /** Scanning `lo..hi` is scanning `lo..mid` and then `mid..hi`. */
  lemma GatheredSplit(data: seq<Row>, lo: nat, mid: nat, hi: nat, browser: Browser)
    requires lo <= mid <= hi <= |data|
    ensures Gathered(data, lo, mid, browser).Failure? ==> Gathered(data, lo, hi, browser) == Gathered(data, lo, mid, browser)
    ensures Gathered(data, lo, mid, browser).Success? ==>
      Gathered(data, lo, hi, browser) == Prefix(Gathered(data, lo, mid, browser).value, Gathered(data, mid, hi, browser))
  {
    ChainSplit(RowResults(data, browser), lo, mid, hi);
  }

  /** What was processed before a step stays at the front of the result. */
  lemma {:induction false} ScanKeepsProcessed(data: seq<Row>, offset: int, processed: seq<Graph>, browser: Browser)
    ensures Scan(data, offset, processed, browser).Success? ==>
      |processed| <= |Scan(data, offset, processed, browser).value.result| &&
      Scan(data, offset, processed, browser).value.result[..|processed|] == processed
    decreases |data| - offset
  {
    if |processed| < BATCH_SIZE && offset < |data| {
      var chunk := ProcessChunk(JsSlice(data, offset, offset + 1), browser);
      if chunk.Success? {
        var x := chunk.value;
        assert Scan(data, offset, processed, browser) == Scan(data, offset + 1, processed + x, browser);
        ScanKeepsProcessed(data, offset + 1, processed + x, browser);
        var r := Scan(data, offset + 1, processed + x, browser);
        if r.Success? {
          assert r.value.result[..|processed|] == (r.value.result[..|processed + x|])[..|processed|];
        }
      }
    }
  }

  /**
   * One call returns exactly the in-order results of the rows from `offset` to
   * the returned cursor minus one, after what was already processed; a call
   * that throws meets the same error as the full scan from `offset`.
   */
  lemma {:induction false} ScanGathers(data: seq<Row>, offset: nat, processed: seq<Graph>, browser: Browser)
    requires offset <= |data|
    ensures Scan(data, offset, processed, browser).Success? ==>
      var b := Scan(data, offset, processed, browser).value;
      |processed| <= |b.result| && b.cursor <= |data| &&
      Gathered(data, offset, b.cursor, browser) == Success(b.result[|processed|..])
    ensures Scan(data, offset, processed, browser).Failure? ==>
      Gathered(data, offset, |data|, browser) == Failure(Scan(data, offset, processed, browser).error)
    decreases |data| - offset
  {
    ScanKeepsProcessed(data, offset, processed, browser);
    if |processed| < BATCH_SIZE && offset < |data| {
      JsSliceOne(data, offset);
      var chunk := ProcessChunk([data[offset]], browser);
      if chunk.Success? {
        var x := chunk.value;
        assert Scan(data, offset, processed, browser) == Scan(data, offset + 1, processed + x, browser);
        ScanGathers(data, offset + 1, processed + x, browser);
        ScanKeepsProcessed(data, offset + 1, processed + x, browser);
        var r := Scan(data, offset + 1, processed + x, browser);
        if r.Success? {
          var b := r.value;
          assert b.result[|processed|..] == x + b.result[|processed + x|..] by {
            assert b.result[..|processed + x|] == processed + x;
            assert b.result[|processed|..|processed + x|] == x;
          }
        }
      }
    } else {
      assert processed[|processed|..] == [];
    }
  }

  /** A scan of `lo..hi` whose first row succeeds is that row's graphs followed by the scan of `lo + 1..hi`. */
  lemma GatheredStep(data: seq<Row>, lo: nat, hi: nat, browser: Browser)
    requires lo < hi <= |data| && ProcessChunk([data[lo]], browser).Success?
    ensures Gathered(data, lo, hi, browser) == Prefix(ProcessChunk([data[lo]], browser).value, Gathered(data, lo + 1, hi, browser))
  {
    assert RowResults(data, browser)[lo] == ProcessChunk([data[lo]], browser);
  }

  /** Cursor `c` follows the last row a call processed: the rows before that one left the quota open. */
  predicate StopsAt(data: seq<Row>, offset: nat, processed: seq<Graph>, browser: Browser, c: nat)
  {
    offset < c <= |data| && Gathered(data, offset, c - 1, browser).Success? &&
    |processed| + |Gathered(data, offset, c - 1, browser).value| < BATCH_SIZE
  }

  /** One row earlier: a successful row in front of a stop point that leaves the quota open leaves it open too. */
  lemma StopsAtStep(data: seq<Row>, offset: nat, processed: seq<Graph>, browser: Browser, c: nat)
    requires offset < |data| && ProcessChunk([data[offset]], browser).Success?
    requires StopsAt(data, offset + 1, processed + ProcessChunk([data[offset]], browser).value, browser, c)
    ensures StopsAt(data, offset, processed, browser, c)
  {
    var x := ProcessChunk([data[offset]], browser).value;
    var g := Gathered(data, offset + 1, c - 1, browser).value;
    GatheredStep(data, offset, c - 1, browser);
    assert Gathered(data, offset, c - 1, browser) == Success(x + g);
  }

  /**
   * A call stops at the first row that fills the quota: the rows before the
   * last one it processed left the quota open, so it never goes on past the
   * row where the quota is met.
   */
  lemma {:induction false} ScanStopsAtQuota(data: seq<Row>, offset: nat, processed: seq<Graph>, browser: Browser)
    requires offset <= |data|
    ensures Scan(data, offset, processed, browser).Success? && offset < Scan(data, offset, processed, browser).value.cursor ==>
      StopsAt(data, offset, processed, browser, Scan(data, offset, processed, browser).value.cursor)
    decreases |data| - offset
  {
    if |processed| < BATCH_SIZE && offset < |data| {
      JsSliceOne(data, offset);
      var chunk := ProcessChunk([data[offset]], browser);
      if chunk.Failure? {
        assert Scan(data, offset, processed, browser) == Failure(chunk.error);
      } else {
        var x := chunk.value;
        assert Scan(data, offset, processed, browser) == Scan(data, offset + 1, processed + x, browser);
        var r := Scan(data, offset + 1, processed + x, browser);
        if r.Success? {
          var c := r.value.cursor;
          if c == offset + 1 {
            assert Gathered(data, offset, offset, browser) == Success([]);
            assert StopsAt(data, offset, processed, browser, c);
          } else {
            ScanStopsAtQuota(data, offset + 1, processed + x, browser);
            StopsAtStep(data, offset, processed, browser, c);
          }
        }
      }
    } else {
      assert Scan(data, offset, processed, browser) == Success(Reply(processed, offset, |data|));
    }
  }

  /** The row of a scan that throws: reached with the quota still open, and the first row from the offset that throws. */
  predicate FailsAt(data: seq<Row>, offset: nat, processed: seq<Graph>, browser: Browser, c: nat, error: RowError)
  {
    offset <= c < |data| && Gathered(data, offset, c, browser).Success? &&
    |processed| + |Gathered(data, offset, c, browser).value| < BATCH_SIZE &&
    ProcessChunk([data[c]], browser) == Failure(error)
  }

  /** A call throws only on a row it reaches before the quota is met, with that row's error. */
  lemma {:induction false} ScanFailsBeforeQuota(data: seq<Row>, offset: nat, processed: seq<Graph>, browser: Browser)
    requires offset <= |data|
    ensures Scan(data, offset, processed, browser).Failure? ==>
      exists c :: FailsAt(data, offset, processed, browser, c, Scan(data, offset, processed, browser).error)
    decreases |data| - offset
  {
    if |processed| < BATCH_SIZE && offset < |data| {
      JsSliceOne(data, offset);
      var chunk := ProcessChunk([data[offset]], browser);
      if chunk.Failure? {
        assert FailsAt(data, offset, processed, browser, offset, chunk.error);
      } else {
        var x := chunk.value;
        assert Scan(data, offset, processed, browser) == Scan(data, offset + 1, processed + x, browser);
        var r := Scan(data, offset + 1, processed + x, browser);
        if r.Failure? {
          ScanFailsBeforeQuota(data, offset + 1, processed + x, browser);
          var c :| FailsAt(data, offset + 1, processed + x, browser, c, r.error);
          GatheredStep(data, offset, c, browser);
          assert FailsAt(data, offset, processed, browser, c, r.error);
        }
      }
    }
  }

  /** The replies of chaining calls: each call starts at the cursor the previous one returned. */
  function Pages(data: seq<Row>, cursor: nat, browser: Browser): Result<seq<Reply>, RowError>
    requires cursor <= |data|
    decreases |data| - cursor
  {
    if cursor == |data| then Success([])
    else
      match Scan(data, cursor, [], browser)
      case Failure(e) => Failure(e)
      case Success(b) =>
        match Pages(data, b.cursor, browser)
        case Failure(e) => Failure(e)
        case Success(rest) => Success([b] + rest)
  }

  /** The results of a list of replies, in reply order. */
  function AllResults(pages: seq<Reply>): seq<Graph>
    decreases |pages|
  {
    if pages == [] then [] else pages[0].result + AllResults(pages[1..])
  }

  /**
   * Chaining calls from any cursor scans every remaining row exactly once, in
   * order: the replies together hold exactly the full scan's results, and the
   * chain throws exactly when the full scan does, with the same error.
   */
  lemma {:induction false} PagesCoverRows(data: seq<Row>, cursor: nat, browser: Browser)
    requires cursor <= |data|
    ensures Pages(data, cursor, browser).Failure? <==> Gathered(data, cursor, |data|, browser).Failure?
    ensures Pages(data, cursor, browser).Failure? ==> Pages(data, cursor, browser).error == Gathered(data, cursor, |data|, browser).error
    ensures Pages(data, cursor, browser).Success? ==>
      AllResults(Pages(data, cursor, browser).value) == Gathered(data, cursor, |data|, browser).value
    decreases |data| - cursor
  {
    if cursor < |data| {
      ScanGathers(data, cursor, [], browser);
      var r := Scan(data, cursor, [], browser);
      if r.Success? {
        var b := r.value;
        assert b.result[0..] == b.result;
        PagesCoverRows(data, b.cursor, browser);
        GatheredSplit(data, cursor, b.cursor, |data|, browser);
        var rest := Pages(data, b.cursor, browser);
        if rest.Success? {
          var ps := [b] + rest.value;
          assert ps[1..] == rest.value;
          assert AllResults(ps) == b.result + AllResults(rest.value);
        }
      }
    }
  }

  /** Every reply of the chain reports the row count as total and holds at most the quota; the last cursor is the total. */
  lemma {:induction false} PagesEndAtTotal(data: seq<Row>, cursor: nat, browser: Browser)
    requires cursor <= |data|
    ensures Pages(data, cursor, browser).Success? ==>
      var ps := Pages(data, cursor, browser).value;
      (cursor < |data| ==> |ps| > 0 && ps[|ps| - 1].cursor == |data|) &&
      (forall i :: 0 <= i < |ps| ==> ps[i].total == |data| && |ps[i].result| <= BATCH_SIZE)
    decreases |data| - cursor
  {
    if cursor < |data| {
      var r := Scan(data, cursor, [], browser);
      if r.Success? {
        var b := r.value;
        PagesEndAtTotal(data, b.cursor, browser);
        var rest := Pages(data, b.cursor, browser);
        if rest.Success? {
          var ps := [b] + rest.value;
          assert forall i :: 1 <= i < |ps| ==> ps[i] == rest.value[i - 1];
          if b.cursor == |data| {
            assert rest.value == [];
          }
        }
      }
    }
  }

  /** From cursor 0, the chained replies cover all the rows: the calls together equal one full scan. */
  lemma AllPagesFromZero(data: seq<Row>, browser: Browser)
    ensures Pages(data, 0, browser).Success? <==> Gathered(data, 0, |data|, browser).Success?
    ensures Pages(data, 0, browser).Success? ==> AllResults(Pages(data, 0, browser).value) == Gathered(data, 0, |data|, browser).value
  {
    PagesCoverRows(data, 0, browser);
  }

  /** A posted cursor of -1 takes the empty chunk `slice(-1, 0)` first and then scans as if the cursor were 0. */
  lemma MinusOneCursor(data: seq<Row>, browser: Browser)
    ensures Scan(data, -1, [], browser) == Scan(data, 0, [], browser)
  {
    JsSliceOne(data, -1);
    assert Collect([], browser) == Success([]);
    assert CleanAll([]) == [];
  }

  /** A cursor between `-length` and `-2` first rescans the row that many places from the end. */
  lemma NegativeCursor(data: seq<Row>, o: int, browser: Browser)
    requires -|data| <= o < -1
    ensures Scan(data, o, [], browser) ==
      match ProcessChunk([data[|data| + o]], browser)
      case Failure(e) => Failure(e)
      case Success(x) => Scan(data, o + 1, x, browser)
  {
    JsSliceOne(data, o);
    var chunk := ProcessChunk([data[|data| + o]], browser);
    if chunk.Success? {
      assert [] + chunk.value == chunk.value;
    }
  }
}
