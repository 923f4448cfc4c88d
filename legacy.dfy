/** `mapFigmaNodeToHtml` of src/main.js, the earlier variant of the walk. It
    shares the frame and text rules of `Rules`, but differs from the
    refactored walk in five ways: FILL stretches only under a parent that is
    itself a flex FRAME; the size declarations are merged into the
    background's `style` attribute; the marker stands in only for a frame
    with no children at all; titles and text are written unescaped; an
    INSTANCE becomes a dashed yellow placeholder of the instance's footprint,
    and any other node type a grey placeholder. `Emit` is the specification
    and `MapFigmaNodeToHtml` builds the same string the way the code does.
    `JSON.stringify(node, null, 2)` is the parameter `dump`. */
module LegacyMapper {
  import opened Common
  import opened Tailwind
  import opened Scene
  import opened Markup
  import opened Rules
  import RefactoredMapper

  /** `JSON.stringify(node, null, 2)` */
  type Dump = Node -> string

  predicate IsInstance(n: Node) { n.nodeType == "INSTANCE" || n.nodeType == "InstanceNode" }

  // --------------------------------------------------------------- FRAME

  /** The parent is a FRAME laid out as a flex row or column. */
  predicate FlexFrameParent(parent: Option<Node>)
  {
    parent.Some? && parent.value.nodeType == "FRAME" &&
    (parent.value.layoutMode == "HORIZONTAL" || parent.value.layoutMode == "VERTICAL")
  }

  /** Horizontal sizing: FILL is `flex-1` in a flex row and `w-full`
      otherwise, HUG is `w-auto`, and a non-zero FIXED width snaps to the
      scale or is written as a literal. */
  function WidthSizing(n: Node, parent: Option<Node>): Sized
  {
    if n.layoutSizingHorizontal == "FILL" then
      if FlexFrameParent(parent) then
        Sized([if parent.value.layoutMode == "HORIZONTAL" then "flex-1" else "w-full"], "")
      else Sized(["w-full"], "")
    else if n.layoutSizingHorizontal == "HUG" then Sized(["w-auto"], "")
    else if n.layoutSizingHorizontal == "FIXED" && n.width != 0 then SnapOrLiteral("w-", "width", n.width)
    else NoSize
  }

  /** Vertical sizing, the mirror image of `WidthSizing`. */
  function HeightSizing(n: Node, parent: Option<Node>): Sized
  {
    if n.layoutSizingVertical == "FILL" then
      if FlexFrameParent(parent) then
        Sized([if parent.value.layoutMode == "VERTICAL" then "flex-1" else "h-full"], "")
      else Sized(["h-full"], "")
    else if n.layoutSizingVertical == "HUG" then Sized(["h-auto"], "")
    else if n.layoutSizingVertical == "FIXED" && n.height != 0 then SnapOrLiteral("h-", "height", n.height)
    else NoSize
  }

  /** Every class a frame pushes, in push order. */
  function FrameClasses(n: Node, parent: Option<Node>): seq<string>
  {
    LayoutClasses(n) + WrapClass(n) + TailClasses(n) +
    WidthSizing(n, parent).classes + HeightSizing(n, parent).classes + Background(n).classes
  }

  /** `extraStyle`: the width and height declarations. */
  function SizeStyle(n: Node, parent: Option<Node>): string
  {
    WidthSizing(n, parent).style + HeightSizing(n, parent).style
  }

  /** Merging `extraStyle` into `styleAttr`: inserted at the start of an
      existing `style` attribute, or written as one of its own. */
  function MergeStyle(styleAttr: string, extra: string): string
  {
    if extra == "" then styleAttr
    else if styleAttr != "" then ReplaceFirst(styleAttr, "style=\"", "style=\"" + extra)
    else " style=\"" + extra + "\""
  }

  /** `combinedStyleAttr` of a frame. */
  function FrameStyleAttr(n: Node, parent: Option<Node>): string
  {
    MergeStyle(StyleAttr(Background(n).style), SizeStyle(n, parent))
  }

  // ---------------------------------------------------------------- TEXT

  /** The characters are written as they are. */
  function TextHtml(n: Node): string
  {
    var s := TextSizing(n);
    SpanHtml(s.classes, s.style, n.characters)
  }

  // ------------------------------------------------------------ INSTANCE

  /** The classes of every instance placeholder. */
  const InstanceBase: seq<string> :=
    ["bg-yellow-100", "border", "border-dashed", "border-yellow-400", "text-yellow-800",
     "flex", "items-center", "justify-center"]

  /** `if (node.width)`: any non-zero width, whatever the sizing mode. */
  function InstanceWidth(n: Node): Sized
  {
    if n.width != 0 then SnapOrLiteral("w-", "width", n.width) else NoSize
  }

  function InstanceHeight(n: Node): Sized
  {
    if n.height != 0 then SnapOrLiteral("h-", "height", n.height) else NoSize
  }

  function InstanceClasses(n: Node): seq<string>
  {
    InstanceBase + InstanceWidth(n).classes + InstanceHeight(n).classes
  }

  function InstanceStyle(n: Node): string
  {
    InstanceWidth(n).style + InstanceHeight(n).style
  }

  /** `node.name || node.type` */
  function InstanceLabel(n: Node): string
  {
    if n.name != "" then n.name else n.nodeType
  }

  /** The escaped tooltip: the label, a newline and the node's JSON. */
  function Tooltip(dump: Dump, n: Node): string
  {
    EscapeHtml("Component: " + InstanceLabel(n) + "\n" + dump(n))
  }

  /** A placeholder of the instance's footprint holding only the marker. */
  function InstanceHtml(dump: Dump, n: Node): string
  {
    DivHtml(InstanceClasses(n), StyleAttr(InstanceStyle(n)), Tooltip(dump, n), Marker)
  }

  // ------------------------------------------------------------- unknown

  const UnknownClasses: seq<string> :=
    ["bg-gray-200", "text-xs", "p-2", "border", "border-dashed", "border-gray-400"]

  /** `node.type || 'Unknown'` */
  function UnknownLabel(n: Node): string
  {
    if n.nodeType != "" then n.nodeType else "Unknown"
  }

  function UnknownHtml(n: Node): string
  {
    DivHtml(UnknownClasses, "", "Component: " + UnknownLabel(n), Marker)
  }

  // ---------------------------------------------------------------- walk

  /** `mapFigmaNodeToHtml(n, parent)` */
  function Emit(dump: Dump, n: Node, parent: Option<Node>): string
    decreases n, |n.children| + 2
  {
    if !n.visible then ""
    else if n.nodeType == "FRAME" then FrameHtml(dump, n, parent)
    else if n.nodeType == "TEXT" then TextHtml(n)
    else if IsInstance(n) then InstanceHtml(dump, n)
    else UnknownHtml(n)
  }

  /** The `div` of a frame: its classes, the merged style attribute, its
      name as title, and its children's markup, or the marker when it has
      no children. */
  function FrameHtml(dump: Dump, n: Node, parent: Option<Node>): string
    decreases n, |n.children| + 1
  {
    DivHtml(FrameClasses(n, parent), FrameStyleAttr(n, parent), n.name,
            if |n.children| > 0 then EmitChildren(dump, n, 0) else Marker)
  }

  /** The markup of the children of `p` from index `k` on, each mapped with
      `p` as its parent and concatenated in order. */
  function EmitChildren(dump: Dump, p: Node, k: nat): string
    requires k <= |p.children|
    decreases p, |p.children| - k
  {
    if k == |p.children| then "" else Emit(dump, p.children[k], Some(p)) + EmitChildren(dump, p, k + 1)
  }

  // -------------------------------------------------------- imperative

  /** src/main.js:110-131. */
  method WidthRule(node: Node, parent: Option<Node>) returns (s: Sized)
    ensures s == WidthSizing(node, parent)
  {
    s := NoSize;
    if node.layoutSizingHorizontal == "FILL" {
      if parent.Some? && parent.value.nodeType == "FRAME" &&
         (parent.value.layoutMode == "HORIZONTAL" || parent.value.layoutMode == "VERTICAL") {
        if parent.value.layoutMode == "HORIZONTAL" {
          s := Sized(["flex-1"], "");
        } else {
          s := Sized(["w-full"], "");
        }
      } else {
        s := Sized(["w-full"], "");
      }
    } else if node.layoutSizingHorizontal == "HUG" {
      s := Sized(["w-auto"], "");
    } else if node.layoutSizingHorizontal == "FIXED" && node.width != 0 {
      s := SnapToScale("w-", "width", node.width);
    }
  }

  /** src/main.js:135-156. */
  method HeightRule(node: Node, parent: Option<Node>) returns (s: Sized)
    ensures s == HeightSizing(node, parent)
  {
    s := NoSize;
    if node.layoutSizingVertical == "FILL" {
      if parent.Some? && parent.value.nodeType == "FRAME" &&
         (parent.value.layoutMode == "HORIZONTAL" || parent.value.layoutMode == "VERTICAL") {
        if parent.value.layoutMode == "VERTICAL" {
          s := Sized(["flex-1"], "");
        } else {
          s := Sized(["h-full"], "");
        }
      } else {
        s := Sized(["h-full"], "");
      }
    } else if node.layoutSizingVertical == "HUG" {
      s := Sized(["h-auto"], "");
    } else if node.layoutSizingVertical == "FIXED" && node.height != 0 {
      s := SnapToScale("h-", "height", node.height);
    }
  }

  /** The class list, `extraStyle` and background `styleAttr` of a frame,
      src/main.js:51-170. */
  method FrameClassList(node: Node, parent: Option<Node>)
    returns (classes: seq<string>, extraStyle: string, styleAttr: string)
    ensures classes == FrameClasses(node, parent)
    ensures extraStyle == SizeStyle(node, parent)
    ensures styleAttr == StyleAttr(Background(node).style)
  {
    classes := LeadClassList(node);
    extraStyle := "";
    var w := WidthRule(node, parent);
    classes, extraStyle := classes + w.classes, extraStyle + w.style;
    var h := HeightRule(node, parent);
    classes, extraStyle := classes + h.classes, extraStyle + h.style;
    ConcatEmpty(w.style);
    styleAttr := "";
    var bg := BackgroundRule(node);
    classes := classes + bg.classes;
    if bg.style != "" {
      styleAttr := " style=\"" + bg.style + "\"";
    }
  }

  /** The TEXT branch, src/main.js:187-230. */
  method TextMarkup(node: Node) returns (html: string)
    ensures html == TextHtml(node)
  {
    var classes, styleStr := TextSizingRule(node);
    html := SpanHtml(classes, styleStr, node.characters);
  }

  /** The footprint of an instance, src/main.js:248-272. */
  method InstanceSizeRule(node: Node) returns (classes: seq<string>, extraStyle: string)
    ensures classes == InstanceClasses(node) && extraStyle == InstanceStyle(node)
  {
    classes := InstanceBase;
    extraStyle := "";
    if node.width != 0 {
      var s := SnapToScale("w-", "width", node.width);
      classes, extraStyle := classes + s.classes, extraStyle + s.style;
    }
    assert classes == InstanceBase + InstanceWidth(node).classes;
    assert extraStyle == InstanceWidth(node).style;
    if node.height != 0 {
      var s := SnapToScale("h-", "height", node.height);
      classes, extraStyle := classes + s.classes, extraStyle + s.style;
    }
  }

  /** The INSTANCE branch, src/main.js:231-285. */
  method InstanceMarkup(dump: Dump, node: Node) returns (html: string)
    ensures html == InstanceHtml(dump, node)
  {
    var classes, extraStyle := InstanceSizeRule(node);
    var caption := if node.name != "" then node.name else node.nodeType;
    var tooltip := EscapeHtml("Component: " + caption + "\n" + dump(node));
    html := DivHtml(classes, StyleAttr(extraStyle), tooltip, Marker);
  }

  /** `mapFigmaNodeToHtml(node, parent)`: the dispatch on visibility and
      node type. */
  method MapFigmaNodeToHtml(dump: Dump, node: Node, parent: Option<Node>) returns (html: string)
    ensures html == Emit(dump, node, parent)
    decreases node, 1
  {
    if !node.visible {
      return "";
    }
    if node.nodeType == "FRAME" {
      var classes, extraStyle, styleAttr := FrameClassList(node, parent);
      var childrenHtml;
      if |node.children| > 0 {
        childrenHtml := MapChildren(dump, node);
      } else {
        childrenHtml := Marker;
      }
      var combined := styleAttr;
      if extraStyle != "" {
        if combined != "" {
          combined := ReplaceFirst(combined, "style=\"", "style=\"" + extraStyle);
        } else {
          combined := " style=\"" + extraStyle + "\"";
        }
      }
      return DivHtml(classes, combined, node.name, childrenHtml);
    } else if node.nodeType == "TEXT" {
      html := TextMarkup(node);
    } else if IsInstance(node) {
      html := InstanceMarkup(dump, node);
    } else {
      var caption := if node.nodeType != "" then node.nodeType else "Unknown";
      html := DivHtml(UnknownClasses, "", "Component: " + caption, Marker);
    }
  }

  /** `node.children.map(child => mapFigmaNodeToHtml(child, node)).join('')` */
  method MapChildren(dump: Dump, node: Node) returns (html: string)
    ensures html == EmitChildren(dump, node, 0)
    decreases node, 0
  {
    html := "";
    var i := 0;
    while i < |node.children|
      invariant 0 <= i <= |node.children|
      invariant html + EmitChildren(dump, node, i) == EmitChildren(dump, node, 0)
    {
      var c := MapFigmaNodeToHtml(dump, node.children[i], Some(node));
      assert EmitChildren(dump, node, i) == c + EmitChildren(dump, node, i + 1);
      ConcatAssoc(html, c, EmitChildren(dump, node, i + 1));
      html := html + c;
      i := i + 1;
    }
  }

  // ------------------------------------------------------------ properties

  /** Every visible node yields markup opening with a tag, and only an
      invisible node yields nothing: unlike the refactored walk, no node
      type is dropped. */
  lemma EmitShape(dump: Dump, n: Node, parent: Option<Node>)
    ensures Emit(dump, n, parent) == "" <==> !n.visible
    ensures Emit(dump, n, parent) != "" ==> Emit(dump, n, parent)[0] == '<'
  {
  }

  lemma WidthNotWrap(n: Node, parent: Option<Node>)
    ensures NoWrap(WidthSizing(n, parent).classes)
  {
    SnapNotWrap("w-", "width", n.width);
  }

  lemma HeightNotWrap(n: Node, parent: Option<Node>)
    ensures NoWrap(HeightSizing(n, parent).classes)
  {
    SnapNotWrap("h-", "height", n.height);
  }

  /** A frame's class list holds exactly one wrap class, right after the
      direction classes: `flex-wrap` for WRAP and `flex-nowrap` otherwise. */
  lemma FrameWrapExactlyOne(n: Node, parent: Option<Node>)
    ensures var cs := FrameClasses(n, parent);
      && OneWrapAt(cs, |LayoutClasses(n)|)
      && (cs[|LayoutClasses(n)|] == "flex-wrap" <==> n.layoutWrap == "WRAP")
  {
    WidthNotWrap(n, parent);
    HeightNotWrap(n, parent);
    FrameWrapOne(n, WidthSizing(n, parent).classes, HeightSizing(n, parent).classes);
  }

  /** FILL stretches with `flex-1` exactly when the parent is a FRAME laid
      out along the same axis, and fills the whole extent otherwise. */
  lemma FillSizing(n: Node, parent: Option<Node>)
    ensures n.layoutSizingHorizontal == "FILL" ==>
      && WidthSizing(n, parent).style == ""
      && (WidthSizing(n, parent).classes == ["flex-1"] <==>
            parent.Some? && parent.value.nodeType == "FRAME" && parent.value.layoutMode == "HORIZONTAL")
      && (WidthSizing(n, parent).classes != ["flex-1"] ==> WidthSizing(n, parent).classes == ["w-full"])
    ensures n.layoutSizingVertical == "FILL" ==>
      && HeightSizing(n, parent).style == ""
      && (HeightSizing(n, parent).classes == ["flex-1"] <==>
            parent.Some? && parent.value.nodeType == "FRAME" && parent.value.layoutMode == "VERTICAL")
      && (HeightSizing(n, parent).classes != ["flex-1"] ==> HeightSizing(n, parent).classes == ["h-full"])
  {
    assert ["w-full"][0][0] != ["flex-1"][0][0];
    assert ["h-full"][0][0] != ["flex-1"][0][0];
  }

  /** Under a FRAME parent, and at the top of the tree, the two variants size
      a node alike. The walk only ever passes a FRAME as parent, so inside a
      tree the extra test on the parent's type never changes the result. */
  lemma SizingAgreesUnderFrame(n: Node, parent: Option<Node>)
    requires parent.None? || parent.value.nodeType == "FRAME"
    ensures WidthSizing(n, parent) == RefactoredMapper.WidthSizing(n, parent)
    ensures HeightSizing(n, parent) == RefactoredMapper.HeightSizing(n, parent)
  {
  }

  /** Under a parent of another type laid out as a row, the variants
      disagree on a FILL width. */
  lemma SizingDiffersUnderOtherParent(n: Node, p: Node)
    requires n.layoutSizingHorizontal == "FILL"
    requires p.nodeType != "FRAME" && p.layoutMode == "HORIZONTAL"
    ensures WidthSizing(n, Some(p)).classes == ["w-full"]
    ensures RefactoredMapper.WidthSizing(n, Some(p)).classes == ["flex-1"]
  {
  }

  /** The size declarations never depend on the parent, and the two
      variants write the same ones. */
  lemma SizeStyleAgrees(n: Node, parent: Option<Node>)
    ensures SizeStyle(n, parent) ==
      RefactoredMapper.WidthSizing(n, parent).style + RefactoredMapper.HeightSizing(n, parent).style
  {
  }

  /** Merging declarations into an existing attribute puts them first. */
  lemma MergeIntoStyleAttr(b: string, e: string)
    ensures MergeStyle(StyleAttr(b), e) == StyleAttr(e + b)
  {
    if e != "" && b != "" {
      var pat, q := "style=\"", "\"";
      calc {
        MergeStyle(StyleAttr(b), e);
        ReplaceFirst(StyleAttr(b), pat, pat + e);
        { assert StyleAttr(b) == [' '] + pat + (b + q); }
        ReplaceFirst([' '] + pat + (b + q), pat, pat + e);
        { ReplaceFirstAfter(' ', pat, b + q, pat + e); }
        [' '] + (pat + e) + (b + q);
        [' '] + pat + (e + b) + q;
        StyleAttr(e + b);
      }
    } else if e == "" {
      assert e + b == b;
    } else {
      assert e + b == e;
    }
  }

  /** The merge yields one `style` attribute holding the size declarations
      then the background declaration: the same attribute the refactored
      walk writes. */
  lemma StyleMerge(n: Node, parent: Option<Node>)
    ensures FrameStyleAttr(n, parent) == StyleAttr(SizeStyle(n, parent) + Background(n).style)
    ensures FrameStyleAttr(n, parent) == StyleAttr(RefactoredMapper.FrameStyle(n, parent))
  {
    MergeIntoStyleAttr(Background(n).style, SizeStyle(n, parent));
    SizeStyleAgrees(n, parent);
  }

  /** The marker stands in only for a frame without children: a frame whose
      children are all invisible is an empty `div`. */
  lemma FrameBody(dump: Dump, n: Node, parent: Option<Node>)
    requires n.visible && n.nodeType == "FRAME"
    ensures n.children == [] ==>
      Emit(dump, n, parent) == DivHtml(FrameClasses(n, parent), FrameStyleAttr(n, parent), n.name, Marker)
    ensures n.children != [] ==>
      Emit(dump, n, parent) ==
        DivHtml(FrameClasses(n, parent), FrameStyleAttr(n, parent), n.name, EmitChildren(dump, n, 0))
    ensures n.children != [] && (forall j :: 0 <= j < |n.children| ==> !n.children[j].visible) ==>
      Emit(dump, n, parent) == DivHtml(FrameClasses(n, parent), FrameStyleAttr(n, parent), n.name, "")
  {
    EmitChildrenEmpty(dump, n, 0);
  }

  /** The children's markup is empty exactly when every child is invisible. */
  lemma {:induction false} EmitChildrenEmpty(dump: Dump, p: Node, k: nat)
    requires k <= |p.children|
    ensures EmitChildren(dump, p, k) == "" <==> forall j :: k <= j < |p.children| ==> !p.children[j].visible
    decreases |p.children| - k
  {
    if k < |p.children| {
      EmitChildrenEmpty(dump, p, k + 1);
      EmitShape(dump, p.children[k], Some(p));
      var e, rest := Emit(dump, p.children[k], Some(p)), EmitChildren(dump, p, k + 1);
      assert EmitChildren(dump, p, k) == e + rest;
      assert |e + rest| == |e| + |rest|;
    }
  }

  /** A visible instance is a placeholder of its footprint holding only the
      marker, whatever its parent. */
  lemma InstanceFootprint(dump: Dump, n: Node, parent: Option<Node>, other: Option<Node>)
    requires n.visible && IsInstance(n)
    ensures Emit(dump, n, parent) ==
      DivHtml(InstanceClasses(n), StyleAttr(InstanceStyle(n)), Tooltip(dump, n), Marker)
    ensures Emit(dump, n, parent) == Emit(dump, n, other)
  {
  }

  /** The footprint starts with the fixed classes. */
  lemma InstanceSizes(n: Node)
    ensures InstanceClasses(n)[..|InstanceBase|] == InstanceBase
  {
  }

  /** For any non-zero width, whatever the sizing mode, the footprint has a
      `w-` step when a bucket lies within 2px and an exact `width:`
      declaration otherwise. */
  lemma InstanceWidthSnap(n: Node)
    ensures var s := InstanceWidth(n);
      && (n.width == 0 ==> s == NoSize)
      && (n.width != 0 ==>
            && (s.classes != [] <==> exists j :: 0 <= j < |SpacingScale| && Dist(n.width, j) <= 2)
            && (s.classes != [] ==> s.classes == ["w-" + NatToString(NearestBucket(n.width).key)] && s.style == "")
            && (s.classes == [] ==> s.style == "width:" + IntToString(n.width) + "px;"))
  {
    if n.width != 0 {
      assert InstanceWidth(n) == SnapOrLiteral("w-", "width", n.width);
      SnapOrLiteralThreshold("w-", "width", n.width);
    }
  }

  /** Likewise the height, with an `h-` step or a `height:` declaration. */
  lemma InstanceHeightSnap(n: Node)
    ensures var s := InstanceHeight(n);
      && (n.height == 0 ==> s == NoSize)
      && (n.height != 0 ==>
            && (s.classes != [] <==> exists j :: 0 <= j < |SpacingScale| && Dist(n.height, j) <= 2)
            && (s.classes != [] ==> s.classes == ["h-" + NatToString(NearestBucket(n.height).key)] && s.style == "")
            && (s.classes == [] ==> s.style == "height:" + IntToString(n.height) + "px;"))
  {
    if n.height != 0 {
      assert InstanceHeight(n) == SnapOrLiteral("h-", "height", n.height);
      SnapOrLiteralThreshold("h-", "height", n.height);
    }
  }

  /** Replacing an instance's children changes its markup only through the
      JSON of the tooltip. */
  lemma InstanceSkipsChildren(dump: Dump, n: Node, parent: Option<Node>, cs: seq<Node>)
    requires n.visible && IsInstance(n)
    ensures Emit(dump, n.(children := cs), parent) ==
      DivHtml(InstanceClasses(n), StyleAttr(InstanceStyle(n)), Tooltip(dump, n.(children := cs)), Marker)
  {
  }

  /** The tooltip is escaped: it holds no double quote, so it cannot end the
      attribute early, and it decodes to the label and the node's JSON. */
  lemma TooltipEscaped(dump: Dump, n: Node)
    ensures '"' !in Tooltip(dump, n)
    ensures UnescapeHtml(Tooltip(dump, n)) == "Component: " + InstanceLabel(n) + "\n" + dump(n)
  {
    var raw := "Component: " + InstanceLabel(n) + "\n" + dump(n);
    EscapeHtmlSafe(raw);
    UnescapeEscapeHtml(raw);
  }

  /** A visible node of any other type is the grey placeholder naming its
      type, where the refactored walk writes nothing. */
  lemma UnknownPlaceholder(dump: Dump, n: Node, parent: Option<Node>, reg: RefactoredMapper.Registry)
    requires n.visible && n.nodeType != "FRAME" && n.nodeType != "TEXT" && !IsInstance(n)
    ensures Emit(dump, n, parent) == DivHtml(UnknownClasses, "", "Component: " + UnknownLabel(n), Marker)
    ensures UnknownLabel(n) != ""
    ensures RefactoredMapper.Emit(reg, n, parent) == ""
  {
  }

  /** A frame's title and a text node's characters are written unescaped;
      the two variants agree on text without HTML special characters. */
  lemma RawTitleAndText(dump: Dump, n: Node, parent: Option<Node>, reg: RefactoredMapper.Registry)
    requires n.visible
    ensures n.nodeType == "FRAME" ==>
      Emit(dump, n, parent) ==
        DivHtml(FrameClasses(n, parent), FrameStyleAttr(n, parent), n.name,
                if |n.children| > 0 then EmitChildren(dump, n, 0) else Marker)
    ensures n.nodeType == "TEXT" ==>
      Emit(dump, n, parent) == SpanHtml(TextSizing(n).classes, TextSizing(n).style, n.characters)
    ensures n.nodeType == "TEXT" && (forall i :: 0 <= i < |n.characters| ==> !IsHtmlSpecial(n.characters[i])) ==>
      Emit(dump, n, parent) == RefactoredMapper.Emit(reg, n, parent)
  {
    EscapeHtmlSafe(n.characters);
  }
}
