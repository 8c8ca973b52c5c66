/**
 * The element-selection rules of `getBoundingBoxes` (utils/utils.js), run
 * over an abstract DOM: `querySelectorAll` is a given function from selector
 * text to the matched elements in document order, or `None` when the
 * selector is not valid CSS (the browser throws a SyntaxError).
 */
module Extract {
  import opened Wrappers
  import opened JsString

  /** The geometry that `getBoundingClientRect().toJSON()` reports, in its key order. */
  datatype Rect = Rect(x: int, y: int, width: int, height: int, top: int, right: int, bottom: int, left: int)

  /** The three computed-style properties the visibility test reads. */
  datatype Style = Style(display: string, visibility: string, opacity: string)

  /** What the in-page code can observe of one element. */
  datatype Element = Element(id: string, className: string, style: Style,
                             offsetWidth: int, offsetHeight: int, rect: Rect)

  /** The two data-URI snapshots a mobile row attaches to a source box. */
  datatype Snapshots = Snapshots(element: string, viewport: string)

  /** One output box: the rectangle's fields, the derived selector, and the optional mobile snapshots. */
  datatype Box = Box(rect: Rect, selector: string, snapshots: Option<Snapshots>)

  /** The object `getBoundingBoxes` returns. */
  datatype Graph = Graph(sources: seq<Box>, targets: seq<Box>)

  /** The page's DOM as the in-page code queries it. */
  datatype Dom = Dom(querySelectorAll: string -> Option<seq<Element>>)

  /** `querySelectorAll` threw on this selector text, which rejects the whole evaluation. */
  datatype Error = InvalidSelector(selector: string)

  const NO_SELECTOR: string := "No Selector"

  /**
   * `isVisible`: not hidden by style and with non-zero offset size. The
   * viewport test and the centre-point obstruction test the source computes
   * are not part of the returned value, so they are not inputs here.
   */
  function IsVisible(el: Element): (r: bool)
    ensures r ==> el.offsetWidth != 0 && el.offsetHeight != 0
    ensures r ==> el.style.display != "none" && el.style.visibility != "hidden" && el.style.opacity != "0"
  {
    var hidden := el.style.display == "none" || el.style.visibility == "hidden" || el.style.opacity == "0";
    var zeroSize := el.offsetWidth == 0 || el.offsetHeight == 0;
    !hidden && !zeroSize
  }

  /** An element that is shown and has a non-zero offset size is visible. */
  lemma VisibleWhenShownAndSized(el: Element)
    requires el.offsetWidth != 0 && el.offsetHeight != 0
    requires el.style.display != "none" && el.style.visibility != "hidden" && el.style.opacity != "0"
    ensures IsVisible(el)
  {
  }

  /**
   * The viewport and obstruction tests do not decide visibility: an element
   * is visible or not whatever its rectangle, id and class list.
   */
  lemma VisibilityIgnoresGeometry(el: Element, rect: Rect, id: string, className: string)
    ensures IsVisible(el) == IsVisible(el.(rect := rect, id := id, className := className))
  {
  }

  /**
   * The selector written into each box: `#id` when the id is non-empty, else
   * the class list with every space turned into a dot, else "No Selector".
   */
  function DeriveSelector(el: Element): (r: string)
    ensures el.id != "" ==> r == "#" + el.id
    ensures el.id == "" && el.className != "" ==> r == "." + ReplaceChar(el.className, ' ', '.')
    ensures el.id == "" && el.className == "" ==> r == NO_SELECTOR
  {
    if el.id != "" then "#" + el.id
    else if el.className != "" then
      JoinSplitReplaces(el.className, ' ', '.');
      "." + Join(Split(el.className, ' '), ".")
    else NO_SELECTOR
  }

  /** A class-derived selector never contains a space. */
  lemma ClassSelectorHasNoSpace(el: Element)
    requires el.id == "" && el.className != ""
    ensures ' ' !in DeriveSelector(el) && DeriveSelector(el)[0] == '.'
  {
    var r := DeriveSelector(el);
    forall i | 0 <= i < |r| ensures r[i] != ' ' {
      if i > 0 {
        assert r[i] == ReplaceChar(el.className, ' ', '.')[i - 1];
      }
    }
  }

  /** The box of one matched element: `{...bbx.toJSON(), selector}`. */
  function ToBox(el: Element): Box
  {
    Box(el.rect, DeriveSelector(el), None)
  }

  /** `Array.from(elements).filter(isVisible).map(toBox)`. */
  function VisibleBoxes(els: seq<Element>): (r: seq<Box>)
    ensures |r| <= |els|
    decreases |els|
  {
    if els == [] then []
    else (if IsVisible(els[0]) then [ToBox(els[0])] else []) + VisibleBoxes(els[1..])
  }

  /** Every visible match has its box in the list, and every box in it is that of a visible match. */
  lemma {:induction false} VisibleBoxesMembership(els: seq<Element>, b: Box)
    ensures b in VisibleBoxes(els) <==> exists e :: e in els && IsVisible(e) && b == ToBox(e)
    decreases |els|
  {
    if els != [] {
      VisibleBoxesMembership(els[1..], b);
      if exists e :: e in els && IsVisible(e) && b == ToBox(e) {
        var e :| e in els && IsVisible(e) && b == ToBox(e);
        if e != els[0] {
          assert e in els[1..];
        }
      }
    }
  }

  /** Match order is kept: the boxes of concatenated matches are the concatenated boxes. */
  lemma {:induction false} VisibleBoxesAppend(a: seq<Element>, b: seq<Element>)
    ensures VisibleBoxes(a + b) == VisibleBoxes(a) + VisibleBoxes(b)
    decreases |a|
  {
    if a == [] {
      assert a + b == b;
    } else {
      assert (a + b)[0] == a[0] && (a + b)[1..] == a[1..] + b;
      VisibleBoxesAppend(a[1..], b);
      var h := if IsVisible(a[0]) then [ToBox(a[0])] else [];
      assert VisibleBoxes(a + b) == h + (VisibleBoxes(a[1..]) + VisibleBoxes(b));
      AppendAssoc(h, VisibleBoxes(a[1..]), VisibleBoxes(b));
    }
  }

  /** An element in the middle contributes its one box exactly when it is visible, in its place. */
  lemma VisibleBoxesAround(a: seq<Element>, e: Element, b: seq<Element>)
    ensures IsVisible(e) ==> VisibleBoxes(a + [e] + b) == VisibleBoxes(a) + [ToBox(e)] + VisibleBoxes(b)
    ensures !IsVisible(e) ==> VisibleBoxes(a + [e] + b) == VisibleBoxes(a) + VisibleBoxes(b)
  {
    VisibleBoxesAppend(a + [e], b);
    VisibleBoxesAppend(a, [e]);
    assert [e][1..] == [];
    assert VisibleBoxes([e]) == (if IsVisible(e) then [ToBox(e)] else []) + VisibleBoxes([]);
  }

  /** The `sources` list: the visible matches of the source selector, or `[]` when nothing matches. */
  function SourceBoxes(dom: Dom, source: string): (r: Result<seq<Box>, Error>)
    ensures dom.querySelectorAll(source).None? <==> r == Failure(InvalidSelector(source))
    ensures r.Success? ==> r.value == VisibleBoxes(dom.querySelectorAll(source).value)
    ensures r.Failure? <==> dom.querySelectorAll(source).None?
    ensures dom.querySelectorAll(source).Some? ==> r == Success(VisibleBoxes(dom.querySelectorAll(source).value))
  {
    match dom.querySelectorAll(source)
    case None => Failure(InvalidSelector(source))
    case Some(els) => if |els| > 0 then Success(VisibleBoxes(els)) else Success([])
  }

  /** Reference for `targets`: the visible matches of each target selector, concatenated in list order. */
  function TargetBoxes(dom: Dom, targets: seq<string>): (r: Result<seq<Box>, Error>)
    ensures r.Failure? ==> r.error.selector in targets && dom.querySelectorAll(r.error.selector).None?
    decreases |targets|
  {
    if targets == [] then Success([])
    else
      match dom.querySelectorAll(targets[0])
      case None => Failure(InvalidSelector(targets[0]))
      case Some(els) =>
        match TargetBoxes(dom, targets[1..])
        case Failure(e) => Failure(e)
        case Success(rest) => Success(VisibleBoxes(els) + rest)
  }

  /** The target selectors of two lists, queried one list after the other. */
  lemma {:induction false} TargetBoxesAppend(dom: Dom, t1: seq<string>, t2: seq<string>)
    ensures TargetBoxes(dom, t1).Success? && TargetBoxes(dom, t2).Success? ==>
      TargetBoxes(dom, t1 + t2) == Success(TargetBoxes(dom, t1).value + TargetBoxes(dom, t2).value)
    ensures TargetBoxes(dom, t1).Failure? ==> TargetBoxes(dom, t1 + t2) == TargetBoxes(dom, t1)
    ensures TargetBoxes(dom, t1).Success? && TargetBoxes(dom, t2).Failure? ==> TargetBoxes(dom, t1 + t2) == TargetBoxes(dom, t2)
    decreases |t1|
  {
    if t1 == [] {
      assert t1 + t2 == t2;
      if TargetBoxes(dom, t2).Success? {
        assert [] + TargetBoxes(dom, t2).value == TargetBoxes(dom, t2).value;
      }
    } else {
      assert (t1 + t2)[0] == t1[0];
      assert (t1 + t2)[1..] == t1[1..] + t2;
      TargetBoxesAppend(dom, t1[1..], t2);
      if dom.querySelectorAll(t1[0]).Some? {
        var head := VisibleBoxes(dom.querySelectorAll(t1[0]).value);
        var tail := TargetBoxes(dom, t1[1..]);
        var both := TargetBoxes(dom, t1[1..] + t2);
        assert TargetBoxes(dom, t1) == if tail.Failure? then tail else Success(head + tail.value);
        assert TargetBoxes(dom, t1 + t2) == if both.Failure? then both else Success(head + both.value);
        if tail.Success? && TargetBoxes(dom, t2).Success? {
          var r2 := TargetBoxes(dom, t2).value;
          AppendAssoc(head, tail.value, r2);
        }
      }
    }
  }

  /** The query throws for some target selector exactly when the targets fail, naming the first such selector. */
  lemma {:induction false} TargetBoxesFailure(dom: Dom, targets: seq<string>)
    ensures TargetBoxes(dom, targets).Failure? <==> exists i :: 0 <= i < |targets| && dom.querySelectorAll(targets[i]).None?
    ensures TargetBoxes(dom, targets).Failure? ==>
      exists i :: 0 <= i < |targets| && TargetBoxes(dom, targets).error == InvalidSelector(targets[i]) &&
        dom.querySelectorAll(targets[i]).None? && forall k :: 0 <= k < i ==> dom.querySelectorAll(targets[k]).Some?
    decreases |targets|
  {
    if targets != [] {
      TargetBoxesFailure(dom, targets[1..]);
      if dom.querySelectorAll(targets[0]).Some? {
        if TargetBoxes(dom, targets).Failure? {
          var i :| 0 <= i < |targets[1..]| && TargetBoxes(dom, targets[1..]).error == InvalidSelector(targets[1..][i]) &&
            dom.querySelectorAll(targets[1..][i]).None? && forall k :: 0 <= k < i ==> dom.querySelectorAll(targets[1..][k]).Some?;
          assert targets[i + 1] == targets[1..][i];
          assert forall k :: 0 < k < i + 1 ==> targets[k] == targets[1..][k - 1];
        }
        if exists i :: 0 <= i < |targets| && dom.querySelectorAll(targets[i]).None? {
          var i :| 0 <= i < |targets| && dom.querySelectorAll(targets[i]).None?;
          assert targets[1..][i - 1] == targets[i];
        }
      }
    }
  }

  /**
   * An element matched by two target selectors gives two boxes: one among the
   * first selector's boxes and one among the second's.
   */
  lemma TargetDuplicates(dom: Dom, t1: string, t2: string, e: Element)
    requires dom.querySelectorAll(t1).Some? && e in dom.querySelectorAll(t1).value
    requires dom.querySelectorAll(t2).Some? && e in dom.querySelectorAll(t2).value
    requires IsVisible(e)
    ensures TargetBoxes(dom, [t1, t2]).Success?
    ensures var r := TargetBoxes(dom, [t1, t2]).value;
      var n := |VisibleBoxes(dom.querySelectorAll(t1).value)|;
      n <= |r| && ToBox(e) in r[..n] && ToBox(e) in r[n..]
  {
    var b1 := VisibleBoxes(dom.querySelectorAll(t1).value);
    var b2 := VisibleBoxes(dom.querySelectorAll(t2).value);
    TargetBoxesSingle(dom, t1);
    TargetBoxesSingle(dom, t2);
    TargetBoxesAppend(dom, [t1], [t2]);
    assert [t1] + [t2] == [t1, t2];
    VisibleBoxesMembership(dom.querySelectorAll(t1).value, ToBox(e));
    VisibleBoxesMembership(dom.querySelectorAll(t2).value, ToBox(e));
    var r := b1 + b2;
    assert r[..|b1|] == b1 && r[|b1|..] == b2;
  }

  /** The targets of a one-selector list are that selector's visible matches. */
  lemma TargetBoxesSingle(dom: Dom, t: string)
    ensures dom.querySelectorAll(t).None? ==> TargetBoxes(dom, [t]) == Failure(InvalidSelector(t))
    ensures dom.querySelectorAll(t).Some? ==> TargetBoxes(dom, [t]) == Success(VisibleBoxes(dom.querySelectorAll(t).value))
  {
    assert [t][0] == t;
    assert [t][1..] == [];
    if dom.querySelectorAll(t).Some? {
      var boxes := VisibleBoxes(dom.querySelectorAll(t).value);
      assert boxes + [] == boxes;
    }
  }

  /** `result.targets = []; target.forEach(targ => result.targets.push(...visibleTargets))`. */
  method CollectTargets(dom: Dom, targets: seq<string>) returns (r: Result<seq<Box>, Error>)
    ensures r == TargetBoxes(dom, targets)
  {
    var acc: seq<Box> := [];
    for i := 0 to |targets|
      invariant TargetBoxes(dom, targets[..i]) == Success(acc)
    {
      var targ := targets[i];
      TargetBoxesAppend(dom, targets[..i], [targ]);
      TargetBoxesSingle(dom, targ);
      assert targets[..i + 1] == targets[..i] + [targ];
      match dom.querySelectorAll(targ) {
        case None =>
          TargetBoxesAppend(dom, targets[..i + 1], targets[i + 1..]);
          assert targets[..i + 1] + targets[i + 1..] == targets;
          return Failure(InvalidSelector(targ));
        case Some(els) =>
          acc := acc + VisibleBoxes(els);
      }
    }
    assert targets[..|targets|] == targets;
    r := Success(acc);
  }

  /** Reference for `getBoundingBoxes`: the source query first, then the target queries. */
  function BoundingBoxes(dom: Dom, source: string, targets: seq<string>): (r: Result<Graph, Error>)
    ensures r.Success? <==> SourceBoxes(dom, source).Success? && TargetBoxes(dom, targets).Success?
    ensures SourceBoxes(dom, source).Failure? ==> r == Failure(SourceBoxes(dom, source).error)
    ensures r.Success? ==> r.value == Graph(SourceBoxes(dom, source).value, TargetBoxes(dom, targets).value)
    ensures SourceBoxes(dom, source).Success? && TargetBoxes(dom, targets).Failure? ==>
      r == Failure(TargetBoxes(dom, targets).error)
  {
    match SourceBoxes(dom, source)
    case Failure(e) => Failure(e)
    case Success(sources) =>
      match TargetBoxes(dom, targets)
      case Failure(e) => Failure(e)
      case Success(ts) => Success(Graph(sources, ts))
  }

  /** `getBoundingBoxes(page, source, target)` as the in-page code runs it. */
  method GetBoundingBoxes(dom: Dom, source: string, targets: seq<string>) returns (r: Result<Graph, Error>)
    ensures r == BoundingBoxes(dom, source, targets)
  {
    var sources: seq<Box>;
    match dom.querySelectorAll(source) {
      case None =>
        return Failure(InvalidSelector(source));
      case Some(els) =>
        if |els| > 0 {
          sources := VisibleBoxes(els);
        } else {
          sources := [];
        }
    }
    var ts := CollectTargets(dom, targets);
    match ts {
      case Failure(e) => r := Failure(e);
      case Success(t) => r := Success(Graph(sources, t));
    }
  }
}
