/** `mapFigmaNodeToHtml` of src/main.refactored.js: the recursive walk from a
    Figma node to markup. INSTANCE nodes become a registered component tag or
    a placeholder, FRAME nodes a flex `div` around their children, TEXT nodes
    a `span`, and every other node nothing. `Emit` is the specification;
    `MapFigmaNodeToHtml` builds the same string the way the code does, by
    pushing classes and appending style declarations. */
module RefactoredMapper {
  import opened Common
  import opened Tailwind
  import opened Scene
  import opened Markup
  import opened Rules

  /** The names `componentRegistry` maps to a component. */
  type Registry = set<string>

  predicate IsInstance(n: Node) { n.nodeType == "INSTANCE" || n.nodeType == "InstanceNode" }

  /** A node that produces markup: visible and of a kind the walk renders. */
  predicate Rendered(n: Node)
  {
    n.visible && (IsInstance(n) || n.nodeType == "FRAME" || n.nodeType == "TEXT")
  }

  // ------------------------------------------------------------ INSTANCE

  /** The component tag, with the properties written as the code writes
      them, or the placeholder naming the missing component. */
  function InstanceHtml(reg: Registry, n: Node): (r: string)
    ensures |r| > 0 && r[0] == '<'
  {
    var compName := AlnumOnly(n.name);
    if compName in reg then "<" + compName + " " + FigmaPropsToJsxPropsAsWritten(n.componentProperties) + " />"
    else "<div class=\"component-placeholder\">" + "Unknown component: " + compName + "</div>"
  }

  // --------------------------------------------------------------- FRAME

  /** Horizontal sizing: FILL stretches along a horizontal parent and fills
      the width otherwise, HUG is `w-auto`, and a non-zero FIXED width snaps
      to the scale or is written as a literal. */
  function WidthSizing(n: Node, parent: Option<Node>): Sized
  {
    if n.layoutSizingHorizontal == "FILL" then
      Sized([if parent.Some? && parent.value.layoutMode == "HORIZONTAL" then "flex-1" else "w-full"], "")
    else if n.layoutSizingHorizontal == "HUG" then Sized(["w-auto"], "")
    else if n.layoutSizingHorizontal == "FIXED" && n.width != 0 then SnapOrLiteral("w-", "width", n.width)
    else NoSize
  }

  /** Vertical sizing, the mirror image of `WidthSizing`. */
  function HeightSizing(n: Node, parent: Option<Node>): Sized
  {
    if n.layoutSizingVertical == "FILL" then
      Sized([if parent.Some? && parent.value.layoutMode == "VERTICAL" then "flex-1" else "h-full"], "")
    else if n.layoutSizingVertical == "HUG" then Sized(["h-auto"], "")
    else if n.layoutSizingVertical == "FIXED" && n.height != 0 then SnapOrLiteral("h-", "height", n.height)
    else NoSize
  }

  /** Every class a frame pushes, in push order. */
  function FrameClasses(n: Node, parent: Option<Node>): seq<string>
  {
    LayoutClasses(n) + WrapClass(n) + TailClasses(n) +
    WidthSizing(n, parent).classes + HeightSizing(n, parent).classes + Background(n).classes
  }

  /** The declarations appended to `styleStr`, in order. */
  function FrameStyle(n: Node, parent: Option<Node>): string
  {
    WidthSizing(n, parent).style + HeightSizing(n, parent).style + Background(n).style
  }

  /** `childrenHtml || '&#8203;'` */
  function OrMarker(html: string): string
  {
    if html == "" then Marker else html
  }

  // ---------------------------------------------------------------- TEXT

  function TextHtml(n: Node): string
  {
    var s := TextSizing(n);
    SpanHtml(s.classes, s.style, EscapeHtml(n.characters))
  }

  // ---------------------------------------------------------------- walk

  /** `mapFigmaNodeToHtml(n, parent)` */
  function Emit(reg: Registry, n: Node, parent: Option<Node>): string
    decreases n, |n.children| + 2
  {
    if !n.visible then ""
    else if IsInstance(n) then InstanceHtml(reg, n)
    else if n.nodeType == "FRAME" then FrameHtml(reg, n, parent)
    else if n.nodeType == "TEXT" then TextHtml(n)
    else ""
  }

  /** The `div` of a frame: its classes, its style declarations if any, its
      escaped name as title, and its children's markup or the marker when
      that markup is empty. */
  function FrameHtml(reg: Registry, n: Node, parent: Option<Node>): string
    decreases n, |n.children| + 1
  {
    DivHtml(FrameClasses(n, parent), StyleAttr(FrameStyle(n, parent)), EscapeHtml(n.name),
            OrMarker(EmitChildren(reg, n, 0)))
  }

  /** The markup of the children of `p` from index `k` on, each mapped with
      `p` as its parent and concatenated in order. */
  function EmitChildren(reg: Registry, p: Node, k: nat): string
    requires k <= |p.children|
    decreases p, |p.children| - k
  {
    if k == |p.children| then "" else Emit(reg, p.children[k], Some(p)) + EmitChildren(reg, p, k + 1)
  }

  // -------------------------------------------------------- imperative

  /** src/main.refactored.js:103-108. */
  method WidthRule(node: Node, parent: Option<Node>) returns (s: Sized)
    ensures s == WidthSizing(node, parent)
  {
    s := NoSize;
    if node.layoutSizingHorizontal == "FILL" {
      s := Sized([if parent.Some? && parent.value.layoutMode == "HORIZONTAL" then "flex-1" else "w-full"], "");
    } else if node.layoutSizingHorizontal == "HUG" {
      s := Sized(["w-auto"], "");
    } else if node.layoutSizingHorizontal == "FIXED" && node.width != 0 {
      s := SnapToScale("w-", "width", node.width);
    }
  }

  /** src/main.refactored.js:110-115. */
  method HeightRule(node: Node, parent: Option<Node>) returns (s: Sized)
    ensures s == HeightSizing(node, parent)
  {
    s := NoSize;
    if node.layoutSizingVertical == "FILL" {
      s := Sized([if parent.Some? && parent.value.layoutMode == "VERTICAL" then "flex-1" else "h-full"], "");
    } else if node.layoutSizingVertical == "HUG" {
      s := Sized(["h-auto"], "");
    } else if node.layoutSizingVertical == "FIXED" && node.height != 0 {
      s := SnapToScale("h-", "height", node.height);
    }
  }

  /** The TEXT branch, src/main.refactored.js:133-143. */
  method TextMarkup(node: Node) returns (html: string)
    ensures html == TextHtml(node)
  {
    var classes, styleStr := TextSizingRule(node);
    html := SpanHtml(classes, styleStr, EscapeHtml(node.characters));
  }

  /** The class list and style text of a frame, src/main.refactored.js:85-125. */
  method FrameClassList(node: Node, parent: Option<Node>) returns (classes: seq<string>, styleStr: string)
    ensures classes == FrameClasses(node, parent)
    ensures styleStr == FrameStyle(node, parent)
  {
    classes := LeadClassList(node);
    styleStr := "";
    var w := WidthRule(node, parent);
    classes, styleStr := classes + w.classes, styleStr + w.style;
    var h := HeightRule(node, parent);
    classes, styleStr := classes + h.classes, styleStr + h.style;
    var bg := BackgroundRule(node);
    classes, styleStr := classes + bg.classes, styleStr + bg.style;
    ConcatEmpty(w.style);
  }

  /** `mapFigmaNodeToHtml(node, parent)`: the dispatch on visibility and
      node type. */
  method MapFigmaNodeToHtml(reg: Registry, node: Node, parent: Option<Node>) returns (html: string)
    ensures html == Emit(reg, node, parent)
    decreases node, 1
  {
    if !node.visible {
      return "";
    }
    if IsInstance(node) {
      return InstanceHtml(reg, node);
    }
    if node.nodeType == "FRAME" {
      var classes, styleStr := FrameClassList(node, parent);
      var childrenHtml := MapChildren(reg, node);
      if childrenHtml == "" {
        childrenHtml := Marker;
      }
      return DivHtml(classes, StyleAttr(styleStr), EscapeHtml(node.name), childrenHtml);
    }
    if node.nodeType == "TEXT" {
      html := TextMarkup(node);
      return;
    }
    return "";
  }

  /** `(node.children || []).map(c => mapFigmaNodeToHtml(c, node)).join('')` */
  method MapChildren(reg: Registry, node: Node) returns (html: string)
    ensures html == EmitChildren(reg, node, 0)
    decreases node, 0
  {
    html := "";
    var i := 0;
    while i < |node.children|
      invariant 0 <= i <= |node.children|
      invariant html + EmitChildren(reg, node, i) == EmitChildren(reg, node, 0)
    {
      var c := MapFigmaNodeToHtml(reg, node.children[i], Some(node));
      assert EmitChildren(reg, node, i) == c + EmitChildren(reg, node, i + 1);
      ConcatAssoc(html, c, EmitChildren(reg, node, i + 1));
      html := html + c;
      i := i + 1;
    }
  }

  // ------------------------------------------------------------ properties

  /** An invisible node yields nothing, whatever its children. */
  lemma InvisibleIsEmpty(reg: Registry, n: Node, parent: Option<Node>, cs: seq<Node>)
    requires !n.visible
    ensures Emit(reg, n, parent) == "" && Emit(reg, n.(children := cs), parent) == ""
  {
  }

  /** Every node type other than INSTANCE, FRAME and TEXT yields nothing. */
  lemma OtherKindsAreEmpty(reg: Registry, n: Node, parent: Option<Node>)
    requires !IsInstance(n) && n.nodeType != "FRAME" && n.nodeType != "TEXT"
    ensures Emit(reg, n, parent) == ""
  {
  }

  /** A visible instance is replaced by its registered component, tagged with
      the letters and digits of its name and carrying the property
      attributes, or else by a placeholder naming that component; its
      children never matter. */
  lemma InstanceSubstitution(reg: Registry, n: Node, parent: Option<Node>, cs: seq<Node>)
    requires n.visible && IsInstance(n)
    ensures var name := AlnumOnly(n.name);
      && Emit(reg, n.(children := cs), parent) == Emit(reg, n, parent)
      && (forall i :: 0 <= i < |name| ==> IsAlnumAscii(name[i]))
      && (name in reg ==>
            Emit(reg, n, parent) == "<" + name + " " + FigmaPropsToJsxPropsAsWritten(n.componentProperties) + " />")
      && (name !in reg ==>
            Emit(reg, n, parent) == "<div class=\"component-placeholder\">" + "Unknown component: " + name + "</div>")
  {
  }

  /** A registered instance whose property values hold no double quote is
      tagged with exactly the attributes of the corrected serialiser. */
  lemma InstancePropsWithoutQuotes(reg: Registry, n: Node, parent: Option<Node>)
    requires n.visible && IsInstance(n) && AlnumOnly(n.name) in reg
    requires forall i :: 0 <= i < |n.componentProperties| ==> '"' !in PropText(n.componentProperties[i].1.value)
    ensures Emit(reg, n, parent) ==
      "<" + AlnumOnly(n.name) + " " + FigmaPropsToJsxProps(n.componentProperties) + " />"
  {
    FigmaPropsAgreeWithoutQuotes(n.componentProperties);
  }

  lemma WidthNotWrap(n: Node, parent: Option<Node>)
    ensures NoWrap(WidthSizing(n, parent).classes)
  {
    SnapNotWrap("w-", "width", n.width);
  }

  lemma HeightNotWrap(n: Node, parent: Option<Node>)
    ensures NoWrap(HeightSizing(n, parent).classes)
  {
    SnapNotWrap("h-", "height", n.height);
  }

  /** A frame's class list holds exactly one wrap class, right after the
      direction classes: `flex-wrap` for WRAP and `flex-nowrap` otherwise. */
  lemma FrameWrapExactlyOne(n: Node, parent: Option<Node>)
    ensures var cs := FrameClasses(n, parent);
      && OneWrapAt(cs, |LayoutClasses(n)|)
      && (cs[|LayoutClasses(n)|] == "flex-wrap" <==> n.layoutWrap == "WRAP")
  {
    WidthNotWrap(n, parent);
    HeightNotWrap(n, parent);
    FrameWrapOne(n, WidthSizing(n, parent).classes, HeightSizing(n, parent).classes);
  }

  /** FILL stretches with `flex-1` exactly when there is a parent laid out
      along the same axis, and fills the whole extent otherwise; only the
      parent's `layoutMode` is consulted, not its type. */
  lemma FillSizing(n: Node, parent: Option<Node>, t: string)
    ensures n.layoutSizingHorizontal == "FILL" ==>
      && WidthSizing(n, parent).style == ""
      && (WidthSizing(n, parent).classes == ["flex-1"] <==> parent.Some? && parent.value.layoutMode == "HORIZONTAL")
      && (WidthSizing(n, parent).classes != ["flex-1"] ==> WidthSizing(n, parent).classes == ["w-full"])
    ensures n.layoutSizingVertical == "FILL" ==>
      && HeightSizing(n, parent).style == ""
      && (HeightSizing(n, parent).classes == ["flex-1"] <==> parent.Some? && parent.value.layoutMode == "VERTICAL")
      && (HeightSizing(n, parent).classes != ["flex-1"] ==> HeightSizing(n, parent).classes == ["h-full"])
    ensures parent.Some? ==>
      var other := Some(parent.value.(nodeType := t));
      WidthSizing(n, parent) == WidthSizing(n, other) && HeightSizing(n, parent) == HeightSizing(n, other)
  {
    assert ["w-full"][0][0] != ["flex-1"][0][0];
    assert ["h-full"][0][0] != ["flex-1"][0][0];
  }

  /** A non-zero FIXED width snaps to the nearest bucket when one lies within
      2px and is otherwise written as an exact `width:` declaration; a zero
      width contributes nothing. */
  lemma FixedWidth(n: Node, parent: Option<Node>)
    requires n.layoutSizingHorizontal == "FIXED"
    ensures var s := WidthSizing(n, parent);
      && (n.width == 0 ==> s == NoSize)
      && (n.width != 0 ==>
            && (s.classes != [] <==> exists j :: 0 <= j < |SpacingScale| && Dist(n.width, j) <= 2)
            && (s.classes != [] ==> s.classes == ["w-" + NatToString(NearestBucket(n.width).key)] && s.style == "")
            && (s.classes == [] ==> s.style == "width:" + IntToString(n.width) + "px;"))
  {
    SnapOrLiteralThreshold("w-", "width", n.width);
  }

  /** The vertical mirror of `FixedWidth`. */
  lemma FixedHeight(n: Node, parent: Option<Node>)
    requires n.layoutSizingVertical == "FIXED"
    ensures var s := HeightSizing(n, parent);
      && (n.height == 0 ==> s == NoSize)
      && (n.height != 0 ==>
            && (s.classes != [] <==> exists j :: 0 <= j < |SpacingScale| && Dist(n.height, j) <= 2)
            && (s.classes != [] ==> s.classes == ["h-" + NatToString(NearestBucket(n.height).key)] && s.style == "")
            && (s.classes == [] ==> s.style == "height:" + IntToString(n.height) + "px;"))
  {
    SnapOrLiteralThreshold("h-", "height", n.height);
  }

  /** The children's markup is empty exactly when no child is rendered. */
  lemma {:induction false} EmitChildrenEmpty(reg: Registry, p: Node, k: nat)
    requires k <= |p.children|
    ensures EmitChildren(reg, p, k) == "" <==> forall j :: k <= j < |p.children| ==> !Rendered(p.children[j])
    decreases |p.children| - k
  {
    if k < |p.children| {
      EmitChildrenEmpty(reg, p, k + 1);
      EmitShape(reg, p.children[k], Some(p));
      var e, rest := Emit(reg, p.children[k], Some(p)), EmitChildren(reg, p, k + 1);
      assert EmitChildren(reg, p, k) == e + rest;
      assert |e + rest| == |e| + |rest|;
    }
  }

  /** The markup of each child, in order: `children.map(...)`. */
  function ChildMarkups(reg: Registry, p: Node): (ms: seq<string>)
    ensures |ms| == |p.children|
    ensures forall i :: 0 <= i < |ms| ==> ms[i] == Emit(reg, p.children[i], Some(p))
  {
    seq(|p.children|, i requires 0 <= i < |p.children| => Emit(reg, p.children[i], Some(p)))
  }

  /** The recursive walk over the children is `children.map(...).join('')`. */
  lemma {:induction false} EmitChildrenIsConcat(reg: Registry, p: Node, k: nat)
    requires k <= |p.children|
    ensures EmitChildren(reg, p, k) == Concat(ChildMarkups(reg, p)[k..])
    decreases |p.children| - k
  {
    var ms := ChildMarkups(reg, p);
    if k < |p.children| {
      EmitChildrenIsConcat(reg, p, k + 1);
      assert ms[k..][1..] == ms[k + 1..];
    }
  }

  /** A visible frame is a `div` whose body is its children's markup, or the
      marker when that markup is empty; in particular a frame whose children
      are all invisible, or which has none, holds only the marker. */
  lemma FrameBody(reg: Registry, n: Node, parent: Option<Node>)
    requires n.visible && n.nodeType == "FRAME"
    ensures var body := EmitChildren(reg, n, 0);
      Emit(reg, n, parent) ==
        DivHtml(FrameClasses(n, parent), StyleAttr(FrameStyle(n, parent)), EscapeHtml(n.name),
                if body == "" then Marker else body)
    ensures (forall j :: 0 <= j < |n.children| ==> !n.children[j].visible) ==>
      Emit(reg, n, parent) ==
        DivHtml(FrameClasses(n, parent), StyleAttr(FrameStyle(n, parent)), EscapeHtml(n.name), Marker)
  {
    EmitChildrenEmpty(reg, n, 0);
  }

  /** A frame's title is its name escaped: it holds no double quote, so it
      cannot end the attribute early, and decoding it gives the name back. */
  lemma FrameTitleEscaped(reg: Registry, n: Node, parent: Option<Node>)
    requires n.visible && n.nodeType == "FRAME"
    ensures var title := EscapeHtml(n.name);
      && Emit(reg, n, parent) ==
           DivHtml(FrameClasses(n, parent), StyleAttr(FrameStyle(n, parent)), title, OrMarker(EmitChildren(reg, n, 0)))
      && '"' !in title && UnescapeHtml(title) == n.name
  {
    EscapeHtmlSafe(n.name);
    UnescapeEscapeHtml(n.name);
  }

  /** A text node's characters are escaped: the body holds no tag delimiter
      and decoding it gives the characters back. */
  lemma TextBodyEscaped(reg: Registry, n: Node, parent: Option<Node>)
    requires n.visible && n.nodeType == "TEXT"
    ensures var body := EscapeHtml(n.characters);
      && Emit(reg, n, parent) == SpanHtml(TextSizing(n).classes, TextSizing(n).style, body)
      && '<' !in body && '>' !in body && UnescapeHtml(body) == n.characters
  {
    EscapeHtmlSafe(n.characters);
    UnescapeEscapeHtml(n.characters);
  }

  /** Every node yields markup that opens with a tag, or nothing exactly
      when it is not rendered. */
  lemma EmitShape(reg: Registry, n: Node, parent: Option<Node>)
    ensures Emit(reg, n, parent) == "" <==> !Rendered(n)
    ensures Emit(reg, n, parent) != "" ==> Emit(reg, n, parent)[0] == '<'
  {
  }

}
