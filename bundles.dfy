/**
 * The row list that `loadBundles` builds from the decoded bundle data
 * (index.js), and the mobile predicate used per row.
 */
module Bundles {
  import opened Wrappers
  import opened JsString

  /** One event of a bundle; either key may be missing from the JSON (`undefined`; an explicit `null` is not modelled). */
  datatype Event = Event(source: Option<string>, checkpoint: Option<string>)

  /** One decoded entry of `rumBundles`. */
  datatype Bundle = Bundle(url: string, userAgent: Option<string>, weight: Option<int>, events: seq<Event>)

  /** One unit of work for the batch pipeline. */
  datatype Row = Row(url: string, userAgent: Option<string>, source: Option<string>, weight: Option<int>)

  /** The row pushed for `ev` of bundle `b`: url, agent and weight from the bundle, source from the event. */
  function RowOf(b: Bundle, ev: Event): Row
  {
    Row(b.url, b.userAgent, ev.source, b.weight)
  }

  /** The rows of one bundle: one per event whose checkpoint is `ckpt` (strict equality), in event order. */
  function EventRows(b: Bundle, events: seq<Event>, ckpt: Option<string>): seq<Row>
    decreases |events|
  {
    if events == [] then []
    else (if events[0].checkpoint == ckpt then [RowOf(b, events[0])] else []) + EventRows(b, events[1..], ckpt)
  }

  /** The rows of a bundle list, bundle by bundle. */
  function BundleRows(bundles: seq<Bundle>, ckpt: Option<string>): seq<Row>
    decreases |bundles|
  {
    if bundles == [] then [] else EventRows(bundles[0], bundles[0].events, ckpt) + BundleRows(bundles[1..], ckpt)
  }

  lemma {:induction false} EventRowsAppend(b: Bundle, e1: seq<Event>, e2: seq<Event>, ckpt: Option<string>)
    ensures EventRows(b, e1 + e2, ckpt) == EventRows(b, e1, ckpt) + EventRows(b, e2, ckpt)
    decreases |e1|
  {
    if e1 != [] {
      assert (e1 + e2)[1..] == e1[1..] + e2;
      EventRowsAppend(b, e1[1..], e2, ckpt);
    } else {
      assert e1 + e2 == e2;
    }
  }

  /** Rows keep bundle order: the rows of a concatenation are the concatenated rows. */
  lemma {:induction false} BundleRowsAppend(b1: seq<Bundle>, b2: seq<Bundle>, ckpt: Option<string>)
    ensures BundleRows(b1 + b2, ckpt) == BundleRows(b1, ckpt) + BundleRows(b2, ckpt)
    decreases |b1|
  {
    if b1 != [] {
      assert (b1 + b2)[1..] == b1[1..] + b2;
      BundleRowsAppend(b1[1..], b2, ckpt);
    } else {
      assert b1 + b2 == b2;
    }
  }

  /** A row of one bundle comes from exactly such an event, and every such event gives its row. */
  lemma {:induction false} EventRowsMembership(b: Bundle, events: seq<Event>, ckpt: Option<string>, r: Row)
    ensures r in EventRows(b, events, ckpt) <==>
      exists j :: 0 <= j < |events| && events[j].checkpoint == ckpt && r == RowOf(b, events[j])
    decreases |events|
  {
    if events != [] {
      EventRowsMembership(b, events[1..], ckpt, r);
      if r in EventRows(b, events[1..], ckpt) {
        var j :| 0 <= j < |events[1..]| && events[1..][j].checkpoint == ckpt && r == RowOf(b, events[1..][j]);
        assert events[j + 1] == events[1..][j];
      }
      if exists j :: 0 <= j < |events| && events[j].checkpoint == ckpt && r == RowOf(b, events[j]) {
        var j :| 0 <= j < |events| && events[j].checkpoint == ckpt && r == RowOf(b, events[j]);
        if j > 0 {
          assert events[1..][j - 1] == events[j];
        }
      }
    }
  }

  /** Event `j` of bundle `i` has checkpoint `ckpt` and its row is `r`. */
  predicate FromMatchingEvent(bundles: seq<Bundle>, ckpt: Option<string>, i: int, j: int, r: Row)
  {
    0 <= i < |bundles| && 0 <= j < |bundles[i].events| &&
    bundles[i].events[j].checkpoint == ckpt && r == RowOf(bundles[i], bundles[i].events[j])
  }

  /** `loadBundles` emits a row exactly for each (bundle, event) pair whose checkpoint matches. */
  lemma {:induction false} BundleRowsMembership(bundles: seq<Bundle>, ckpt: Option<string>, r: Row)
    ensures r in BundleRows(bundles, ckpt) <==> exists i, j :: FromMatchingEvent(bundles, ckpt, i, j, r)
    decreases |bundles|
  {
    if bundles != [] {
      var b := bundles[0];
      EventRowsMembership(b, b.events, ckpt, r);
      BundleRowsMembership(bundles[1..], ckpt, r);
      if r in BundleRows(bundles[1..], ckpt) {
        var i, j :| FromMatchingEvent(bundles[1..], ckpt, i, j, r);
        assert FromMatchingEvent(bundles, ckpt, i + 1, j, r);
      }
      if r in EventRows(b, b.events, ckpt) {
        var j :| 0 <= j < |b.events| && b.events[j].checkpoint == ckpt && r == RowOf(b, b.events[j]);
        assert FromMatchingEvent(bundles, ckpt, 0, j, r);
      }
      if exists i, j :: FromMatchingEvent(bundles, ckpt, i, j, r) {
        var i, j :| FromMatchingEvent(bundles, ckpt, i, j, r);
        if i > 0 {
          assert bundles[1..][i - 1] == bundles[i];
          assert FromMatchingEvent(bundles[1..], ckpt, i - 1, j, r);
        } else {
          assert 0 <= j < |b.events| && b.events[j].checkpoint == ckpt && r == RowOf(b, b.events[j]);
        }
      }
    }
  }

  /** `loadBundles` after the fetch: the nested `forEach` that pushes one row per matching event. */
  method LoadBundles(bundles: seq<Bundle>, ckpt: Option<string>) returns (rows: seq<Row>)
    ensures rows == BundleRows(bundles, ckpt)
  {
    rows := [];
    for i := 0 to |bundles|
      invariant rows == BundleRows(bundles[..i], ckpt)
    {
      var item := bundles[i];
      for j := 0 to |item.events|
        invariant rows == BundleRows(bundles[..i], ckpt) + EventRows(item, item.events[..j], ckpt)
      {
        var ev := item.events[j];
        EventRowsAppend(item, item.events[..j], [ev], ckpt);
        assert item.events[..j + 1] == item.events[..j] + [ev];
        if ev.checkpoint == ckpt {
          rows := rows + [RowOf(item, ev)];
        }
      }
      assert item.events[..|item.events|] == item.events;
      BundleRowsAppend(bundles[..i], [item], ckpt);
      assert bundles[..i + 1] == bundles[..i] + [item];
    }
    assert bundles[..|bundles|] == bundles;
  }

  /** `allData.flat()`: the rows of every day's bundles, day after day. */
  function CombinedRows(days: seq<seq<Bundle>>, ckpt: Option<string>): seq<Row>
    decreases |days|
  {
    if days == [] then [] else BundleRows(days[0], ckpt) + CombinedRows(days[1..], ckpt)
  }

  function FlattenBundles(days: seq<seq<Bundle>>): seq<Bundle>
    decreases |days|
  {
    if days == [] then [] else days[0] + FlattenBundles(days[1..])
  }

  /** Loading day by day and concatenating equals loading all the days' bundles at once. */
  lemma {:induction false} CombinedRowsFlatten(days: seq<seq<Bundle>>, ckpt: Option<string>)
    ensures CombinedRows(days, ckpt) == BundleRows(FlattenBundles(days), ckpt)
    decreases |days|
  {
    if days != [] {
      CombinedRowsFlatten(days[1..], ckpt);
      BundleRowsAppend(days[0], FlattenBundles(days[1..]), ckpt);
    }
  }

  /**
   * `user_agent && user_agent.toLowerCase().includes('mobile')`: the agent is
   * present, non-empty, and mentions "mobile" in any letter case.
   */
  function IsMobile(userAgent: Option<string>): (r: bool)
    ensures r ==> userAgent.Some? && |userAgent.value| >= |"mobile"|
  {
    userAgent.Some? && userAgent.value != "" && Contains(ToLower(userAgent.value), "mobile")
  }

  /** The truthiness test is implied by the substring test: mobile iff the lower-cased agent contains "mobile". */
  lemma IsMobileIff(userAgent: Option<string>)
    ensures IsMobile(userAgent) <==> userAgent.Some? && Contains(ToLower(userAgent.value), "mobile")
  {
    if userAgent.Some? && Contains(ToLower(userAgent.value), "mobile") {
      var i := ContainsWitness(ToLower(userAgent.value), "mobile");
    }
  }

  /** Case does not matter: an agent containing `w` in any case is mobile when `w` lower-cases to "mobile". */
  lemma MobileAnyCase(agent: string, w: string)
    requires ToLower(w) == "mobile" && Contains(agent, w)
    ensures IsMobile(Some(agent))
  {
    ContainsLower(agent, w);
    IsMobileIff(Some(agent));
  }

  /** Lower-casing the agent first does not change the answer. */
  lemma IsMobileCaseInsensitive(agent: string)
    ensures IsMobile(Some(agent)) <==> IsMobile(Some(ToLower(agent)))
  {
    ToLowerIdempotent(agent);
    IsMobileIff(Some(agent));
    IsMobileIff(Some(ToLower(agent)));
  }
}
