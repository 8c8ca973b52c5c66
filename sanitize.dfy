/**
 * `removeZeros` (utils/utils.js): keep, in each graph, only the boxes that
 * are not all-zero, and wrap each cleaned graph in a one-element list.
 */
module Sanitize {
  import opened Wrappers
  import opened Extract

  /** A JSON value as `Object.values` sees it in a box. */
  datatype Value = Num(n: int) | Str(s: string) | Obj

  /**
   * `Object.values(box)` in key order: the eight rectangle fields of
   * `toJSON()`, then `selector`, then `mobile_snapshots` when present.
   */
  function Values(b: Box): (vs: seq<Value>)
    ensures |vs| >= 9 && vs[8] == Str(b.selector)
    ensures vs[..8] == [Num(b.rect.x), Num(b.rect.y), Num(b.rect.width), Num(b.rect.height),
                        Num(b.rect.top), Num(b.rect.right), Num(b.rect.bottom), Num(b.rect.left)]
    ensures vs[9..] == if b.snapshots.Some? then [Obj] else []
  {
    [Num(b.rect.x), Num(b.rect.y), Num(b.rect.width), Num(b.rect.height),
     Num(b.rect.top), Num(b.rect.right), Num(b.rect.bottom), Num(b.rect.left),
     Str(b.selector)]
    + (if b.snapshots.Some? then [Obj] else [])
  }

  /** `Object.values(objRect).every(value => value === 0)`. */
  predicate AllZero(b: Box)
  {
    forall v :: v in Values(b) ==> v == Num(0)
  }

  /** A box carries its selector string as a value, so it is never all-zero. */
  lemma NeverAllZero(b: Box)
    ensures !AllZero(b)
  {
    assert Values(b)[8] in Values(b);
  }

  /** `boxes.filter(objRect => !allZero(objRect))`. */
  function KeepNonZero(boxes: seq<Box>): (r: seq<Box>)
    ensures |r| <= |boxes|
    decreases |boxes|
  {
    if boxes == [] then []
    else (if AllZero(boxes[0]) then [] else [boxes[0]]) + KeepNonZero(boxes[1..])
  }

  /** `a` is `b` with some entries deleted, the rest in their order. */
  predicate IsSubsequence(a: seq<Box>, b: seq<Box>)
    decreases |b|
  {
    if a == [] then true
    else if b == [] then false
    else (a[0] == b[0] && IsSubsequence(a[1..], b[1..])) || IsSubsequence(a, b[1..])
  }

  /** Kept boxes keep their relative order. */
  lemma {:induction false} KeepNonZeroSubsequence(boxes: seq<Box>)
    ensures IsSubsequence(KeepNonZero(boxes), boxes)
    decreases |boxes|
  {
    if boxes != [] {
      KeepNonZeroSubsequence(boxes[1..]);
      var r := KeepNonZero(boxes);
      if !AllZero(boxes[0]) {
        assert r[0] == boxes[0] && r[1..] == KeepNonZero(boxes[1..]);
      } else {
        assert r == KeepNonZero(boxes[1..]);
      }
    }
  }

  /** A box is in the output exactly when it is in the input and not all-zero. */
  lemma {:induction false} KeepNonZeroMembership(boxes: seq<Box>, b: Box)
    ensures b in KeepNonZero(boxes) <==> b in boxes && !AllZero(b)
    decreases |boxes|
  {
    if boxes != [] {
      KeepNonZeroMembership(boxes[1..], b);
    }
  }

  /** Filtering twice is filtering once. */
  lemma {:induction false} KeepNonZeroIdempotent(boxes: seq<Box>)
    ensures KeepNonZero(KeepNonZero(boxes)) == KeepNonZero(boxes)
    decreases |boxes|
  {
    if boxes != [] {
      KeepNonZeroIdempotent(boxes[1..]);
      var r := KeepNonZero(boxes);
      if !AllZero(boxes[0]) {
        assert r[0] == boxes[0] && r[1..] == KeepNonZero(boxes[1..]);
      } else {
        assert r == KeepNonZero(boxes[1..]);
      }
    }
  }

  /** Since every box carries its selector string, the filter removes nothing. */
  lemma {:induction false} KeepNonZeroKeepsAll(boxes: seq<Box>)
    ensures KeepNonZero(boxes) == boxes
    decreases |boxes|
  {
    if boxes != [] {
      NeverAllZero(boxes[0]);
      KeepNonZeroKeepsAll(boxes[1..]);
    }
  }

  /** The cleaned graph: filtered sources and targets, and no other field. */
  function Clean(g: Graph): (c: Graph)
    ensures IsSubsequence(c.sources, g.sources) && IsSubsequence(c.targets, g.targets)
  {
    KeepNonZeroSubsequence(g.sources);
    KeepNonZeroSubsequence(g.targets);
    Graph(KeepNonZero(g.sources), KeepNonZero(g.targets))
  }

  /** A graph is never dropped, not even when both its lists are empty. */
  lemma CleanEmpty()
    ensures Clean(Graph([], [])) == Graph([], [])
  {
  }

  /** `removeZeros(obj)`: the `forEach` that pushes `[{sources, targets}]` for every graph. */
  method RemoveZeros(graphs: seq<Graph>) returns (res: seq<seq<Graph>>)
    ensures |res| == |graphs|
    ensures forall i :: 0 <= i < |graphs| ==> res[i] == [Clean(graphs[i])]
  {
    res := [];
    for i := 0 to |graphs|
      invariant |res| == i
      invariant forall k :: 0 <= k < i ==> res[k] == [Clean(graphs[k])]
    {
      var graph := graphs[i];
      var subRes: seq<Graph> := [];
      var srcFiltered := KeepNonZero(graph.sources);
      var trgFiltered := KeepNonZero(graph.targets);
      subRes := subRes + [Graph(srcFiltered, trgFiltered)];
      res := res + [subRes];
    }
  }

  /** `Array.prototype.flat()` one level deep. */
  function Flatten<T>(xss: seq<seq<T>>): seq<T>
    decreases |xss|
  {
    if xss == [] then [] else xss[0] + Flatten(xss[1..])
  }

  /** Each graph cleaned, in order: the reference for `removeZeros(...).flat()`. */
  function CleanAll(graphs: seq<Graph>): seq<Graph>
  {
    seq(|graphs|, i requires 0 <= i < |graphs| => Clean(graphs[i]))
  }

  /** Flattening the one-element lists of `removeZeros` gives one cleaned graph per input graph. */
  lemma {:induction false} FlattenRemoveZeros(res: seq<seq<Graph>>, graphs: seq<Graph>)
    requires |res| == |graphs|
    requires forall i :: 0 <= i < |graphs| ==> res[i] == [Clean(graphs[i])]
    ensures Flatten(res) == CleanAll(graphs)
    decreases |graphs|
  {
    if graphs != [] {
      FlattenRemoveZeros(res[1..], graphs[1..]);
      assert CleanAll(graphs) == [Clean(graphs[0])] + CleanAll(graphs[1..]);
    }
  }
}
