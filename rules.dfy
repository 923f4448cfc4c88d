/** The rules both mappers apply the same way: the FRAME classes for flex
    direction, wrap, gap, alignment and padding (src/main.refactored.js:88-101,
    src/main.js:51-87), the background chosen from the first painted solid
    fill (src/main.refactored.js:117-125, src/main.js:159-170), and the font
    size and line height of a TEXT node (src/main.refactored.js:135-142,
    src/main.js:209-229). Each rule is a function; the methods compute the
    same lists by pushing, as the code does. */
module Rules {
  import opened Common
  import opened Tailwind
  import opened Scene

  /** `flex flex-row` for HORIZONTAL, `flex flex-col` for VERTICAL. The two
      tests exclude each other, so the refactored file's two `if`s and the
      older file's `if`/`else if` push the same classes. */
  function LayoutClasses(n: Node): seq<string>
  {
    (if n.layoutMode == "HORIZONTAL" then ["flex", "flex-row"] else []) +
    (if n.layoutMode == "VERTICAL" then ["flex", "flex-col"] else [])
  }

  function WrapClass(n: Node): seq<string>
  {
    if n.layoutWrap == "WRAP" then ["flex-wrap"] else ["flex-nowrap"]
  }

  /** `if (v) classes.push(prefix + pxToTailwind(v))` */
  function StepClass(prefix: string, v: int): seq<string>
  {
    if v != 0 then [prefix + PxToTailwind(v)] else []
  }

  function GapClass(n: Node): seq<string>
  {
    StepClass("gap-", n.itemSpacing)
  }

  function AlignClasses(n: Node): seq<string>
  {
    AlignClass(PrimaryAxisMap, n.primaryAxisAlignItems) + AlignClass(CounterAxisMap, n.counterAxisAlignItems)
  }

  function PaddingClasses(n: Node): seq<string>
  {
    StepClass("pt-", n.paddingTop) + StepClass("pb-", n.paddingBottom) +
    StepClass("pl-", n.paddingLeft) + StepClass("pr-", n.paddingRight)
  }

  /** The first painted solid fill decides the background: a palette class,
      or else the literal `background-color` declaration. */
  function Background(n: Node): Sized
  {
    match FirstSolidFill(n.fills)
    case None => NoSize
    case Some(c) =>
      var bg := BgOf(c);
      if bg.tailwind.Some? then Sized([bg.tailwind.value], "")
      else if bg.style.Some? then Sized([], bg.style.value)
      else NoSize
  }

  predicate IsWrapClass(c: string) { c == "flex-wrap" || c == "flex-nowrap" }

  /** No class of the list is a wrap class. */
  predicate NoWrap(cs: seq<string>)
  {
    forall i :: 0 <= i < |cs| ==> !IsWrapClass(cs[i])
  }

  /** The list holds exactly one wrap class, at index `i`. */
  predicate OneWrapAt(cs: seq<string>, i: nat)
  {
    i < |cs| && IsWrapClass(cs[i]) && forall j :: 0 <= j < |cs| && j != i ==> !IsWrapClass(cs[j])
  }

  lemma NoWrapAppend(a: seq<string>, b: seq<string>)
    requires NoWrap(a) && NoWrap(b)
    ensures NoWrap(a + b)
  {
  }

  /** A single wrap class between two lists without one. */
  lemma OneWrapBetween(a: seq<string>, w: string, b: seq<string>)
    requires NoWrap(a) && IsWrapClass(w) && NoWrap(b)
    ensures OneWrapAt(a + [w] + b, |a|)
  {
    var cs := a + [w] + b;
    forall j | 0 <= j < |cs| && j != |a| ensures !IsWrapClass(cs[j]) {
      if j < |a| {
        assert cs[j] == a[j];
      } else {
        assert cs[j] == b[j - |a| - 1];
      }
    }
  }

  lemma StepClassNotWrap(prefix: string, v: int)
    requires prefix != [] && prefix[0] != 'f'
    ensures NoWrap(StepClass(prefix, v))
  {
    if v != 0 {
      var c := prefix + PxToTailwind(v);
      assert c[0] == prefix[0];
    }
  }

  lemma AlignNotWrap(n: Node)
    ensures NoWrap(AlignClasses(n))
  {
    var p, q := n.primaryAxisAlignItems, n.counterAxisAlignItems;
    if p != "" && p in PrimaryAxisMap {
      assert PrimaryAxisMap[p][0] == 'j';
    }
    if q != "" && q in CounterAxisMap {
      assert CounterAxisMap[q][0] == 'i';
    }
  }

  lemma LayoutNotWrap(n: Node)
    ensures NoWrap(LayoutClasses(n))
  {
  }

  lemma PaddingNotWrap(n: Node)
    ensures NoWrap(PaddingClasses(n))
  {
    StepClassNotWrap("pt-", n.paddingTop);
    StepClassNotWrap("pb-", n.paddingBottom);
    StepClassNotWrap("pl-", n.paddingLeft);
    StepClassNotWrap("pr-", n.paddingRight);
    var a, b, c, d := StepClass("pt-", n.paddingTop), StepClass("pb-", n.paddingBottom),
      StepClass("pl-", n.paddingLeft), StepClass("pr-", n.paddingRight);
    NoWrapAppend(a, b);
    NoWrapAppend(a + b, c);
    NoWrapAppend(a + b + c, d);
  }

  lemma BackgroundNotWrap(n: Node)
    ensures NoWrap(Background(n).classes)
  {
    match FirstSolidFill(n.fills)
    case None =>
    case Some(c) =>
      var m := FirstMatchFrom(c, 0);
      if m.Some? {
        assert Palette[m.value].0[0] == 'b';
      }
  }

  lemma SnapNotWrap(prefix: string, prop: string, px: int)
    requires prefix != [] && prefix[0] != 'f'
    ensures NoWrap(SnapOrLiteral(prefix, prop, px).classes)
  {
    var c := prefix + NatToString(NearestBucket(px).key);
    assert c[0] == prefix[0];
  }

  /** The classes a frame pushes after the wrap class. */
  function TailClasses(n: Node): seq<string>
  {
    GapClass(n) + AlignClasses(n) + PaddingClasses(n)
  }

  lemma TailNotWrap(n: Node)
    ensures NoWrap(TailClasses(n))
  {
    StepClassNotWrap("gap-", n.itemSpacing);
    AlignNotWrap(n);
    PaddingNotWrap(n);
    NoWrapAppend(GapClass(n), AlignClasses(n));
    NoWrapAppend(GapClass(n) + AlignClasses(n), PaddingClasses(n));
  }

  /** Whatever sizing classes follow, as long as none of them is a wrap
      class, a frame's list holds exactly one wrap class, right after the
      direction classes: `flex-wrap` for WRAP and `flex-nowrap` otherwise. */
  lemma FrameWrapOne(n: Node, ws: seq<string>, hs: seq<string>)
    requires NoWrap(ws) && NoWrap(hs)
    ensures var cs := LayoutClasses(n) + WrapClass(n) + TailClasses(n) + ws + hs + Background(n).classes;
      && OneWrapAt(cs, |LayoutClasses(n)|)
      && (cs[|LayoutClasses(n)|] == "flex-wrap" <==> n.layoutWrap == "WRAP")
  {
    var l, w, t, bs := LayoutClasses(n), WrapClass(n), TailClasses(n), Background(n).classes;
    LayoutNotWrap(n);
    TailNotWrap(n);
    BackgroundNotWrap(n);
    NoWrapAppend(t, ws);
    NoWrapAppend(t + ws, hs);
    NoWrapAppend(t + ws + hs, bs);
    var rest := t + ws + hs + bs;
    OneWrapBetween(l, w[0], rest);
    assert w == [w[0]];
    ConcatRegroup(l + w, t, ws, hs);
    ConcatAssoc(l + w, t + ws + hs, bs);
  }

  // ------------------------------------------------------------ markup

  /** The zero-width space that keeps an empty `div` rendered. */
  const Marker := "&#8203;"

  /** `style ? ` style="${style}"` : ''` */
  function StyleAttr(style: string): string
  {
    if style == "" then "" else " style=\"" + style + "\""
  }

  /** `<div class="..."${styleAttr} title="...">body</div>` */
  function DivHtml(classes: seq<string>, styleAttr: string, title: string, body: string): (r: string)
    ensures |r| > 0 && r[0] == '<'
  {
    "<div class=\"" + Join(classes, " ") + "\"" + styleAttr + " title=\"" + title + "\">" + body + "</div>"
  }

  /** `<span class="...">body</span>`, with a style attribute when there are
      declarations. */
  function SpanHtml(classes: seq<string>, style: string, body: string): (r: string)
    ensures |r| > 0 && r[0] == '<'
  {
    "<span class=\"" + Join(classes, " ") + "\"" + StyleAttr(style) + ">" + body + "</span>"
  }

  // ---------------------------------------------------------- TEXT sizing

  /** A non-zero font size, snapped or written as a literal. */
  function FontSizing(n: Node): Sized
  {
    if n.fontSize != 0 then SnapOrLiteral("text-", "font-size", n.fontSize) else NoSize
  }

  /** A non-zero line height in pixels, snapped or written as a literal;
      any other unit contributes nothing. */
  function LeadingSizing(n: Node): Sized
  {
    if n.lineHeight.Some? && n.lineHeight.value.unit == "PIXELS" && n.lineHeight.value.value != 0
    then SnapOrLiteral("leading-", "line-height", n.lineHeight.value.value) else NoSize
  }

  /** Font size first, then line height. */
  function TextSizing(n: Node): Sized
  {
    Sized(FontSizing(n).classes + LeadingSizing(n).classes, FontSizing(n).style + LeadingSizing(n).style)
  }

  // -------------------------------------------------------- imperative

  /** Four conditional pushes, one per side, append `PaddingClasses`. */
  lemma PaddingUnfolds(n: Node, a: seq<string>, t: seq<string>, b: seq<string>, l: seq<string>, r: seq<string>)
    requires t == a + StepClass("pt-", n.paddingTop)
    requires b == t + StepClass("pb-", n.paddingBottom)
    requires l == b + StepClass("pl-", n.paddingLeft)
    requires r == l + StepClass("pr-", n.paddingRight)
    ensures r == a + PaddingClasses(n)
  {
    var pt, pb, pl, pr := StepClass("pt-", n.paddingTop), StepClass("pb-", n.paddingBottom),
      StepClass("pl-", n.paddingLeft), StepClass("pr-", n.paddingRight);
    ConcatRegroup(a, pt, pb, pl);
    ConcatRegroup(a, pt + pb, pl, pr);
  }

  /** The alignment pushes: a recognised primary-axis token, then a
      recognised counter-axis token. */
  method AlignRule(node: Node) returns (classes: seq<string>)
    ensures classes == AlignClasses(node)
  {
    classes := [];
    var p, q := node.primaryAxisAlignItems, node.counterAxisAlignItems;
    if p != "" && p in PrimaryAxisMap { classes := classes + [PrimaryAxisMap[p]]; }
    assert classes == AlignClass(PrimaryAxisMap, p);
    if q != "" && q in CounterAxisMap { classes := classes + [CounterAxisMap[q]]; }
  }

  /** The padding pushes: top, bottom, left, right. */
  method PaddingRule(node: Node) returns (classes: seq<string>)
    ensures classes == PaddingClasses(node)
  {
    classes := [];
    ghost var start := classes;
    if node.paddingTop != 0 { classes := classes + ["pt-" + PxToTailwind(node.paddingTop)]; }
    ghost var top := classes;
    if node.paddingBottom != 0 { classes := classes + ["pb-" + PxToTailwind(node.paddingBottom)]; }
    ghost var bottom := classes;
    if node.paddingLeft != 0 { classes := classes + ["pl-" + PxToTailwind(node.paddingLeft)]; }
    ghost var left := classes;
    if node.paddingRight != 0 { classes := classes + ["pr-" + PxToTailwind(node.paddingRight)]; }
    PaddingUnfolds(node, start, top, bottom, left, classes);
  }

  /** Direction, wrap, gap, alignment and padding, in push order. */
  method LeadClassList(node: Node) returns (classes: seq<string>)
    ensures classes == LayoutClasses(node) + WrapClass(node) + TailClasses(node)
  {
    classes := [];
    if node.layoutMode == "HORIZONTAL" { classes := classes + ["flex", "flex-row"]; }
    if node.layoutMode == "VERTICAL" { classes := classes + ["flex", "flex-col"]; }
    assert classes == LayoutClasses(node);
    if node.layoutWrap == "WRAP" { classes := classes + ["flex-wrap"]; } else { classes := classes + ["flex-nowrap"]; }
    ghost var lead := classes;
    if node.itemSpacing != 0 { classes := classes + ["gap-" + PxToTailwind(node.itemSpacing)]; }
    assert classes == lead + GapClass(node);
    var align := AlignRule(node);
    classes := classes + align;
    var padding := PaddingRule(node);
    classes := classes + padding;
    ConcatRegroup(lead, GapClass(node), AlignClasses(node), PaddingClasses(node));
  }

  /** The palette class, or the literal colour declaration, of the first
      painted solid fill. */
  method BackgroundRule(node: Node) returns (s: Sized)
    ensures s == Background(node)
  {
    s := NoSize;
    if |node.fills| > 0 {
      var fill := FirstSolidFill(node.fills);
      if fill.Some? {
        var bg := RgbToTailwindBg(fill.value);
        if bg.tailwind.Some? {
          s := Sized([bg.tailwind.value], "");
        } else if bg.style.Some? {
          s := Sized([], bg.style.value);
        }
      }
    }
  }

  /** The font-size and line-height steps of a TEXT node. */
  method TextSizingRule(node: Node) returns (classes: seq<string>, styleStr: string)
    ensures classes == TextSizing(node).classes && styleStr == TextSizing(node).style
  {
    classes := [];
    styleStr := "";
    if node.fontSize != 0 {
      var s := SnapToScale("text-", "font-size", node.fontSize);
      classes := classes + s.classes;
      styleStr := styleStr + s.style;
    }
    assert classes == FontSizing(node).classes && styleStr == FontSizing(node).style;
    if node.lineHeight.Some? && node.lineHeight.value.unit == "PIXELS" && node.lineHeight.value.value != 0 {
      var s := SnapToScale("leading-", "line-height", node.lineHeight.value.value);
      classes := classes + s.classes;
      styleStr := styleStr + s.style;
    }
  }
}
