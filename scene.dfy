/** The parsed Figma scene graph both mappers walk. A node is a JSON object,
    so every node carries every field the mappers read, whatever its `type`:
    the mappers, not the data, decide which fields matter. An absent string
    field is "" and an absent numeric field is 0, because every rule tests
    those fields with `===` or for truthiness, under which absent and
    ""/0 behave alike. */
module Scene {
  import opened Common
  import opened Tailwind

  /** One entry of `fills`; the colour is already converted to 0..255. */
  datatype Fill = Fill(fillType: string, visible: Option<bool>, color: Option<Rgb>)

  datatype LineHeight = LineHeight(unit: string, value: int)

  /** The `value` of a component property: a string, a boolean or a number. */
  datatype PropValue = PStr(s: string) | PBool(b: bool) | PNum(n: int)

  /** An entry of `componentProperties`: `{ type, value }`. */
  datatype ComponentProp = ComponentProp(propType: string, value: PropValue)

  datatype Node = Node(
    nodeType: string,
    visible: bool,
    name: string,
    layoutMode: string,
    layoutWrap: string,
    itemSpacing: int,
    primaryAxisAlignItems: string,
    counterAxisAlignItems: string,
    paddingTop: int,
    paddingBottom: int,
    paddingLeft: int,
    paddingRight: int,
    layoutSizingHorizontal: string,
    layoutSizingVertical: string,
    width: int,
    height: int,
    fills: seq<Fill>,
    children: seq<Node>,
    characters: string,
    fontSize: int,
    lineHeight: Option<LineHeight>,
    /** `Object.entries(node.componentProperties)`, in order. */
    componentProperties: seq<(string, ComponentProp)>)

  /** A node with every field absent; examples update the fields they need. */
  const Blank: Node :=
    Node("", false, "", "", "", 0, "", "", 0, 0, 0, 0, "", "", 0, 0, [], [], "", 0, None, [])

  /** The filter of `fills.find(...)`: a visible SOLID fill with a colour
      (`visible` absent counts as visible). */
  predicate IsPaintedSolid(f: Fill)
  {
    f.fillType == "SOLID" && f.visible != Some(false) && f.color.Some?
  }

  /** `fills.find(...)`: the colour of the first painted solid fill. */
  function FirstSolidFill(fills: seq<Fill>): (c: Option<Rgb>)
    ensures c.Some? <==> exists i :: 0 <= i < |fills| && IsPaintedSolid(fills[i])
    ensures c.Some? ==>
      exists i :: 0 <= i < |fills| && IsPaintedSolid(fills[i]) && fills[i].color == c &&
        forall j :: 0 <= j < i ==> !IsPaintedSolid(fills[j])
  {
    if fills == [] then None
    else if IsPaintedSolid(fills[0]) then fills[0].color
    else
      var c := FirstSolidFill(fills[1..]);
      assert forall j :: 1 <= j < |fills| ==> fills[j] == fills[1..][j - 1];
      c
  }
}
