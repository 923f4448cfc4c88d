# Figma-to-Tailwind markup compiler: a Dafny model

The repository turns a Figma scene graph into HTML styled with Tailwind
utility classes. It also generates CSS custom properties from design-token
JSON. This project models that core in Dafny and proves properties of the
model:

- **Tailwind** (`tailwind.dfy`):
  - the spacing scale and `pxToTailwind`;
  - the nearest-bucket scan `pxToTailwindSpacing`, proved against a
    specification that picks the closest bucket, with ties going to the
    smaller key;
  - the background palette match `rgbToTailwindBg`: the first palette colour
    within 2 on every channel, otherwise an inline `rgb(...)` declaration;
  - the shared "snap to the scale within 2px, otherwise write a literal"
    rule.
- **Scene** (`scene.dfy`): a scene node as one record holding every JSON
  field the two mappers read. An absent number is `0` and an absent string
  is `""`, since every rule tests fields by truthiness or by `===`.
- **Markup** (`markup.dfy`): `escapeHtml`, `cleanPropName` and
  `figmaPropsToJsxProps`.
- **Rules** (`rules.dfy`): the class and style rules the two mapper variants
  share, and the `<div>` and `<span>` templates.
- **RefactoredMapper** (`refactored.dfy`): `mapFigmaNodeToHtml` of
  `src/main.refactored.js`. Instances become component tags, or a placeholder
  when the component is missing from the registry. A tag's attributes are
  written as the code writes them, with the unescaped quote of the finding
  below; on values without `"` they equal those of the corrected serialiser.
  Frame titles and text are escaped. TEXT and FRAME are the only other node
  types rendered.
- **LegacyMapper** (`legacy.dfy`): `mapFigmaNodeToHtml` of `src/main.js`.
  Instances become a yellow placeholder of their size, with a JSON tooltip.
  Unknown types become a grey placeholder. A FILL size uses `flex-1` only
  under a FRAME parent. Extra size declarations are merged into the
  background's `style` attribute. Titles and text are written raw. Lemmas
  connect this variant to the refactored one.
- **PrettyPrint** (`pretty.dfy`): `prettyPrintHtml`, with a four-space
  indentation per open level.
- **CssVars** (`cssvars.dfy`): `resolveRefs` and `extractCssVars` of
  `scripts/generate-css-vars.js`, over a JSON datatype. A JavaScript
  exception is modelled as an `Err` result.

Each loop in the source is a Dafny `method` whose `ensures` ties its result
to a specification function. The properties the source promises are
lemmas about those functions. The mappers' recursive walks are methods
proved equal to `Emit`, a function over the node tree.

A grey fill of `0.9` (about `(230,230,230)`) is sometimes expected to
map to `bg-gray-200`. The code does not do this, and the model follows the
code: gray-200 is `(229,231,235)`, and its blue channel is 5 away, outside
the tolerance of 2. The colour therefore falls back to a literal
(`Tailwind.PaletteBoundaries`).

A quirk of the pretty printer, recorded as behaviour: the pattern
`^<[^!][^>]*[^/]>` needs at least two characters between `<` and `>`.
A line starting with a one-letter tag such as `<p>` therefore does not
open an indentation level, unless a second `>` follows at once (in `<p>>x`
the pattern's `[^/]` matches the tag's own `>`). A line starting with a
longer tag name that is not a comment matches the pattern, but it opens a
level only when it holds no `</`. An element opened and closed on one line,
such as `<li>x</li>`, opens none (`PrettyPrint.TagNameLength`,
`PrettyPrint.OneLineElementStays`).

## Model

| member | source | states |
|---|---|---|
| Common.IntToString | src/main.refactored.js:14 | a template literal's text of an integer: it starts with `-` exactly when the integer is negative, and what follows is all digits that read back to its magnitude |
| Common.IntToStringInjective | src/main.refactored.js:14 | distinct integers print differently |
| Common.ParseNatToString | src/main.refactored.js:13 | reading the decimal text back gives the number |
| Common.Trim | src/main.refactored.js:48 | the result neither starts nor ends with whitespace; it is the slice of the input after the leading whitespace, and everything before and after that slice is whitespace |
| Common.TrimStart | src/main.refactored.js:48 | the result is a suffix of the input that does not start with whitespace, and what was dropped is whitespace |
| Common.TrimEnd | src/main.refactored.js:48 | the result is a prefix of the input that does not end with whitespace, and what was dropped is whitespace |
| Common.Split | src/main.refactored.js:48 | at least one piece, and no piece holds the separator |
| Common.JoinSplit | src/main.js:297 | joining the pieces of a split with the separator gives the text back |
| Common.ReplaceFirstAfter | src/main.js:181 | when the character before `style="` cannot start it, that occurrence is the leftmost and is the one replaced |
| Common.LowerAscii | scripts/generate-css-vars.js:32 | same length and no upper-case letter left; each upper-case letter becomes its lower-case letter, and every other character is kept |
| Tailwind.ScaleSteps | src/main.refactored.js:5-10 | the scale's keys strictly ascend from entry to entry |
| Tailwind.ScaleFourPerKey | src/main.refactored.js:5-10 | every bucket is four pixels per key |
| Tailwind.KeyAscending | src/main.refactored.js:19 | entries come in ascending key order, as `Object.entries` lists integer keys |
| Tailwind.KeyOrder | src/main.refactored.js:19 | a smaller key is an earlier entry |
| Tailwind.NearestUnique | src/main.refactored.js:17-24 | at most one entry is closest with every earlier entry strictly farther |
| Tailwind.ScanStep | src/main.refactored.js:20-21 | one loop step: entry `i` replaces the kept one exactly when it is strictly closer |
| Tailwind.NearestFrom | src/main.refactored.js:18-22 | the scan continued from any point ends on the closest entry, first among ties |
| Tailwind.NearestIndex | src/main.refactored.js:17-24 | the whole scan ends on the closest entry, first among ties |
| Tailwind.NearestBucketIsOptimal | src/main.refactored.js:17-24 | the bucket is on the scale, `diff` is its distance, no bucket is closer, and every smaller key is strictly farther |
| Tailwind.NearestBucketExact | src/main.refactored.js:20-23 | `diff` is 0 exactly when the value is one of the scale's pixel values |
| Tailwind.ScalePxFromAt | src/main.refactored.js:23 | looking a scale key up finds its pixel value |
| Tailwind.NearestBucketAt | src/main.refactored.js:23 | the returned record is the kept entry's key, its pixel value and its distance |
| Tailwind.PxToTailwindSpacing | src/main.refactored.js:17-24 | the loop returns the nearest bucket (also src/main.js:93-104) |
| Tailwind.PxToTailwindCases | src/main.refactored.js:12-15 | 0 gives `""`; a positive multiple of 4 up to 384 gives its step; a negative multiple of 4 gives its negative step (`-4` gives `-1`); any other value gives `[Npx]` (also src/main.js:8-14) |
| Tailwind.PxToTailwindInjective | src/main.refactored.js:12-15 | distinct pixel values never give the same class suffix |
| Tailwind.FirstMatchFrom | src/main.refactored.js:39-43 | a match is within tolerance and no earlier entry is; no match means no entry is within tolerance |
| Tailwind.RgbToTailwindBg | src/main.refactored.js:30-45 | the loop with its early return computes `BgOf` (also src/main.js:24-40) |
| Tailwind.BgOfSpec | src/main.refactored.js:30-45 | exactly one of class and style is set; the class is the first palette entry within 2 on every channel, iff one exists; otherwise the style is the literal `rgb(r,g,b)` |
| Tailwind.PaletteBandsDisjoint | src/main.refactored.js:31-38 | no colour is within tolerance of two palette entries |
| Tailwind.PaletteBoundaries | src/main.refactored.js:31-44 | white and near white map to `bg-white`; (230,230,230) falls back to a literal |
| Tailwind.SnapOrLiteralThreshold | src/main.refactored.js:105-108 | a class exactly when some bucket is within 2px, naming the nearest bucket's key, otherwise the exact `prop:Npx;` declaration |
| Tailwind.SnapToScale | src/main.refactored.js:106-107 | the scanned snap agrees with `SnapOrLiteral` |
| Scene.FirstSolidFill | src/main.refactored.js:117-118 | a colour exactly when some fill is a visible SOLID fill with a colour; it is the colour of the first such fill |
| Markup.EscapeHtmlAppend | src/main.refactored.js:61-68 | escaping distributes over concatenation |
| Markup.EscapeHtmlPlain | src/main.refactored.js:61-68 | a character other than `& < > " '` is kept |
| Markup.EscapeHtmlAmp | src/main.refactored.js:63 | `&` becomes `&amp;` |
| Markup.EscapeHtmlLt | src/main.refactored.js:64 | `<` becomes `&lt;` |
| Markup.EscapeHtmlGt | src/main.refactored.js:65 | `>` becomes `&gt;` |
| Markup.EscapeHtmlQuot | src/main.refactored.js:66 | `"` becomes `&quot;` |
| Markup.EscapeHtmlApos | src/main.refactored.js:67 | `'` becomes `&#39;` |
| Markup.EscapeHtmlChar | src/main.refactored.js:61-68 | the chained replacements escape one character to its entity |
| Markup.EscapeHtmlIsPerChar | src/main.refactored.js:61-68 | the five chained global replacements, `&` first, equal escaping each character independently |
| Markup.EscapeHtmlSafe | src/main.refactored.js:61-68 | the result holds none of `< > " '`, and a text without special characters is unchanged |
| Markup.UnescapeEscapeHtml | src/main.refactored.js:61-68 | decoding the five entities gives the original text back |
| Markup.AlnumOnly | src/main.refactored.js:75 | the result holds only ASCII letters and digits and is no longer than the name |
| Markup.AlnumOnlyIdentity | src/main.refactored.js:75 | a name of letters and digits is kept |
| Markup.AlnumOnlyAppend | src/main.refactored.js:75 | stripping distributes over concatenation |
| Markup.AlnumOnlyDropsSeparator | src/main.refactored.js:75 | a separator such as ` / ` vanishes and its two sides are joined |
| Markup.AlnumOnlyDropsEmpty | src/main.refactored.js:75 | any piece that strips to nothing vanishes between its neighbours |
| Markup.AlnumOnlyNone | src/main.refactored.js:75 | a name without letters or digits becomes empty |
| Markup.RemoveSpaces | src/main.refactored.js:49 | no whitespace is left and nothing is added |
| Markup.CaseMapStartsUpper | src/main.refactored.js:49 | every word start after a non-word character is upper case, the first character is not, and whitespace and `#` keep their places |
| Markup.RemoveSpacesStartsUpper | src/main.refactored.js:49 | removing whitespace keeps every word start upper case |
| Markup.RemoveSpacesIdentity | src/main.refactored.js:49 | a text without whitespace is kept |
| Markup.RemoveSpacesJoin | src/main.refactored.js:49 | two texts around one space are joined |
| Markup.TrimPlain | src/main.refactored.js:48 | a text without whitespace is its own trim |
| Markup.PropBaseSelf | src/main.refactored.js:48 | a key without `#` or surrounding whitespace is its own base |
| Markup.CaseMapWord | src/main.refactored.js:49 | a single word keeps everything but the case of its first letter |
| Markup.CaseMapTwoWords | src/main.refactored.js:49 | the second of two words is capitalised |
| Markup.CleanPropNameShape | src/main.refactored.js:47-50 | a cleaned name has no whitespace and no `#`, every word start is upper case, and the first letter is not |
| Markup.CleanPropNameIdempotent | src/main.refactored.js:47-50 | cleaning a cleaned name changes nothing |
| Markup.CleanPropNameDropsId | src/main.refactored.js:48 | everything from the first `#` on is ignored |
| Markup.CleanPropNameWord | src/main.refactored.js:47-50 | `Label` becomes `label` |
| Markup.CleanPropNameTwoWords | src/main.refactored.js:47-50 | `Show icon` becomes `showIcon` |
| Markup.PropAttrQuotedAsWritten | src/main.refactored.js:57 | a property of an unknown type is double-quoted as it is |
| Markup.TextEscapeAsWrittenIsIdentity | src/main.refactored.js:55 | the TEXT escape as written changes nothing: a TEXT value is emitted exactly like an unknown type's |
| Markup.QuoteEndsAttributeAsWritten | src/main.refactored.js:55 | a `"` in a TEXT value lands inside the attribute before its closing quote |
| Markup.PropAttrTextQuoted | src/main.refactored.js:55 | with the escape corrected, a TEXT attribute is `name="inner"` with no `"` inside; on values without `"` it equals the code's output |
| Markup.PropAttrExpression | src/main.refactored.js:56 | BOOLEAN and NUMBER properties become `name={value}` |
| Markup.FigmaPropsToJsxPropsCons | src/main.refactored.js:52-59 | for both the serialiser as written and the corrected one: no properties give `""`; otherwise the first attribute, then the rest after one space |
| Markup.FigmaPropsAgreeWithoutQuotes | src/main.refactored.js:52-59 | when no TEXT value holds `"`, the corrected serialiser writes exactly what the code writes |
| Rules.FrameWrapOne | src/main.refactored.js:88-125 | whatever non-wrap sizing classes follow, the frame's list holds exactly one wrap class, right after the direction classes, `flex-wrap` iff WRAP |
| Rules.PaddingUnfolds | src/main.refactored.js:98-101 | four conditional pushes append the padding classes in order top, bottom, left, right |
| Rules.AlignRule | src/main.refactored.js:93-96 | the pushed alignment classes are the recognised primary-axis class, then the recognised counter-axis class |
| Rules.PaddingRule | src/main.refactored.js:98-101 | the pushed padding classes |
| Rules.LeadClassList | src/main.refactored.js:88-101 | direction, wrap, gap, alignment and padding classes, in push order |
| Rules.BackgroundRule | src/main.refactored.js:117-125 | the background of the first painted solid fill: a palette class or a literal declaration |
| Rules.TextSizingRule | src/main.refactored.js:135-142 | font-size then line-height classes and declarations; a non-pixel line height contributes nothing |
| RefactoredMapper.WidthRule | src/main.refactored.js:103-108 | the width pushes computed by the branch equal `WidthSizing` |
| RefactoredMapper.HeightRule | src/main.refactored.js:110-115 | the height pushes computed by the branch equal `HeightSizing` |
| RefactoredMapper.TextMarkup | src/main.refactored.js:132-144 | the TEXT branch's markup |
| RefactoredMapper.FrameClassList | src/main.refactored.js:85-125 | the frame's class list and style text in push order |
| RefactoredMapper.MapFigmaNodeToHtml | src/main.refactored.js:70-147 | the recursive method computes `Emit`, whose instances carry the attributes as the code writes them |
| RefactoredMapper.MapChildren | src/main.refactored.js:127 | the loop over the children computes their concatenated markup |
| RefactoredMapper.InvisibleIsEmpty | src/main.refactored.js:71 | an invisible node yields nothing, whatever its children |
| RefactoredMapper.OtherKindsAreEmpty | src/main.refactored.js:146 | a type other than INSTANCE, FRAME and TEXT yields nothing |
| RefactoredMapper.InstanceSubstitution | src/main.refactored.js:74-81 | a registered name gives `<Name props />` with the properties serialised as the code writes them, an unregistered one the placeholder; the name holds only letters and digits; children never matter |
| RefactoredMapper.InstancePropsWithoutQuotes | src/main.refactored.js:74-81 | a registered instance whose TEXT values hold no `"` gets exactly the corrected attributes |
| RefactoredMapper.FrameWrapExactlyOne | src/main.refactored.js:88-125 | exactly one wrap class, right after the direction classes, `flex-wrap` iff WRAP |
| RefactoredMapper.FillSizing | src/main.refactored.js:103-110 | FILL gives `flex-1` iff the parent is laid out along the same axis, else the full extent; the parent's type is never consulted |
| RefactoredMapper.FixedWidth | src/main.refactored.js:105-108 | FIXED with no width contributes nothing; otherwise a `w-` class iff a bucket is within 2px, else the exact declaration |
| RefactoredMapper.FixedHeight | src/main.refactored.js:112-115 | the vertical mirror of `FixedWidth` |
| RefactoredMapper.EmitChildrenEmpty | src/main.refactored.js:127 | the children's markup is empty exactly when no child is rendered |
| RefactoredMapper.EmitChildrenIsConcat | src/main.refactored.js:127 | the walk over the children is `map(...).join('')` |
| RefactoredMapper.FrameBody | src/main.refactored.js:127-128 | a frame is its `div` with the children's markup, or the marker when that is empty, including when every child is invisible |
| RefactoredMapper.FrameTitleEscaped | src/main.refactored.js:128 | the title is the escaped name, holds no `"`, and decodes to the name |
| RefactoredMapper.TextBodyEscaped | src/main.refactored.js:143 | a text span's body is the escaped characters, holds no `<` or `>`, and decodes to them |
| RefactoredMapper.EmitShape | src/main.refactored.js:70-147 | the output is empty exactly when the node is not rendered, and otherwise opens with `<` |
| LegacyMapper.WidthRule | src/main.js:110-131 | the nested width branch equals `WidthSizing` |
| LegacyMapper.HeightRule | src/main.js:135-156 | the nested height branch equals `HeightSizing` |
| LegacyMapper.FrameClassList | src/main.js:49-170 | the class list, `extraStyle` and background `styleAttr` of a frame |
| LegacyMapper.TextMarkup | src/main.js:187-230 | the TEXT branch's markup |
| LegacyMapper.InstanceSizeRule | src/main.js:248-272 | the instance's classes and extra declarations |
| LegacyMapper.InstanceMarkup | src/main.js:231-285 | the INSTANCE branch's markup |
| LegacyMapper.MapFigmaNodeToHtml | src/main.js:42-290 | the recursive method computes `Emit` |
| LegacyMapper.MapChildren | src/main.js:172-173 | the loop over the children computes their concatenated markup |
| LegacyMapper.EmitShape | src/main.js:42-290 | the output is empty exactly when the node is invisible, and otherwise opens with `<` (every visible type is rendered) |
| LegacyMapper.FrameWrapExactlyOne | src/main.js:51-55 | exactly one wrap class, right after the direction classes, `flex-wrap` iff WRAP |
| LegacyMapper.FillSizing | src/main.js:110-144 | FILL gives `flex-1` iff the parent is a FRAME laid out along the same axis, else the full extent |
| LegacyMapper.SizingAgreesUnderFrame | src/main.js:110-156 | with no parent or a FRAME parent, the two variants size a node identically |
| LegacyMapper.SizingDiffersUnderOtherParent | src/main.js:110-119 | under a non-FRAME row parent, FILL is `w-full` here and `flex-1` in the refactored walk |
| LegacyMapper.SizeStyleAgrees | src/main.js:120-156 | the size declarations are the refactored variant's |
| LegacyMapper.MergeIntoStyleAttr | src/main.js:177-185 | merging declarations into a `style` attribute puts them first, and an attribute of its own otherwise |
| LegacyMapper.StyleMerge | src/main.js:158-185 | the merged attribute is the size declarations followed by the background's, which is the refactored variant's style |
| LegacyMapper.FrameBody | src/main.js:172-176 | the marker appears only for a frame without children; a frame whose children are all invisible is an empty `div` |
| LegacyMapper.EmitChildrenEmpty | src/main.js:173 | the children's markup is empty exactly when every child is invisible |
| LegacyMapper.InstanceFootprint | src/main.js:231-285 | a visible instance is its footprint `div` with the tooltip and only the marker, whatever its parent |
| LegacyMapper.InstanceSizes | src/main.js:248-250 | the fixed classes come first |
| LegacyMapper.InstanceWidthSnap | src/main.js:251-261 | any non-zero width, whatever the sizing mode, gives a `w-` class exactly when a bucket is within 2px, and the exact `width:` declaration otherwise; a zero width gives neither |
| LegacyMapper.InstanceHeightSnap | src/main.js:262-272 | likewise the height, with `h-` and `height:` |
| LegacyMapper.InstanceSkipsChildren | src/main.js:283-285 | the children are never mapped; they change the markup only through the tooltip's JSON |
| LegacyMapper.TooltipEscaped | src/main.js:274-283 | the tooltip holds no `"` and decodes to `Component: label`, a newline and the node's JSON |
| LegacyMapper.UnknownPlaceholder | src/main.js:286-289 | any other visible type is the grey placeholder naming its type, never empty, where the refactored walk writes nothing |
| LegacyMapper.RawTitleAndText | src/main.js:186-230 | frame titles and text are written unescaped; on text without special characters the two variants agree |
| PrettyPrint.Pretty | src/main.js:292-303 | the printed markup neither starts nor ends with whitespace |
| PrettyPrint.PrettyPrintHtml | src/main.js:292-303 | the method computes `Pretty` |
| PrettyPrint.LayoutLines | src/main.js:297-301 | the `forEach` computes `Layout` from no indentation |
| PrettyPrint.IndentLine | src/main.js:298-300 | a closing line dedents before it is printed; an opening line without `</` indents after |
| PrettyPrint.LayoutStep | src/main.js:297-301 | each line is printed at its indentation, and the rest continues from the next one |
| PrettyPrint.DedentSpaces | src/main.js:298 | removing a tab from `d` tabs leaves `d-1`, and never less than none |
| PrettyPrint.LayoutIsByDepth | src/main.js:294-300 | the indentation is always four spaces per open level, never below none |
| PrettyPrint.OpenThenClose | src/main.js:298-300 | a line that opens followed by one that closes share an indentation and leave the level where it was |
| PrettyPrint.TagNameLength | src/main.js:298-300 | a line starting with a one-character tag such as `<p>`, not directly followed by another `>`, does not match the pattern and opens no level; one starting with a longer tag name that is not a comment matches, and opens a level when it holds no `</` |
| PrettyPrint.OneLineElementStays | src/main.js:298-300 | `<li>x</li>` matches the pattern but, holding `</`, leaves the indentation unchanged |
| PrettyPrint.SelfClosingDoesNotOpen | src/main.js:298-300 | a line whose only `>` is its last character, right after `/`, does not match the pattern and opens no level; a `>` earlier in the line, as in `<Comp label="a>b" />`, is not covered |
| PrettyPrint.ReplaceSplitsTags | src/main.js:297 | after the replacement no `>` is directly followed by `<` |
| PrettyPrint.LinesShape | src/main.js:297 | the lines hold no line break and no `><`, and joined with line breaks they give the replaced markup |
| CssVars.WalkPath | scripts/generate-css-vars.js:13-14 | the loop computes `Walk`, stopping with an exception on `undefined` or `null` |
| CssVars.SetValue | scripts/generate-css-vars.js:15 | the copy keeps the keys in order |
| CssVars.ResolveRefs | scripts/generate-css-vars.js:10-26 | arrays keep their length, objects their keys in order, and every other value is returned as it is |
| CssVars.ResolveItems | scripts/generate-css-vars.js:17-18 | one resolved item per item |
| CssVars.ResolveEntries | scripts/generate-css-vars.js:20-23 | the resolved entries keep the keys in order |
| CssVars.ResolveNoRefs | scripts/generate-css-vars.js:10-26 | a tree without references is returned unchanged |
| CssVars.ResolveItemsNoRefs | scripts/generate-css-vars.js:17-18 | an array without references is returned unchanged |
| CssVars.ResolveEntriesNoRefs | scripts/generate-css-vars.js:20-23 | an object without references is returned unchanged |
| CssVars.ResolveRefOneStep | scripts/generate-css-vars.js:11-16 | a reference is replaced, one step deep, by the named node's `value`, or by the node when it has none; every other entry is kept |
| CssVars.ResolveMissing | scripts/generate-css-vars.js:12-15 | a reference that names nothing, or passes through a missing key or `null`, throws |
| CssVars.WalkPastMissing | scripts/generate-css-vars.js:14 | reading past a missing key throws |
| CssVars.CollapseSpace | scripts/generate-css-vars.js:32 | no whitespace is left |
| CssVars.CollapseSpaceRun | scripts/generate-css-vars.js:32 | a whitespace run of any length between two whitespace-free texts becomes exactly one `-` |
| CssVars.CollapseSpaceExample | scripts/generate-css-vars.js:32 | `Brand  Blue` becomes `Brand-Blue` |
| CssVars.CollapseSpaceIdentity | scripts/generate-css-vars.js:32 | a key without whitespace is kept |
| CssVars.VarNameShape | scripts/generate-css-vars.js:32 | a name starts with the prefix, and the rest has no whitespace and no upper-case letter |
| CssVars.Entries | scripts/generate-css-vars.js:30 | every entry's value is part of the object |
| CssVars.ExtractCssVars | scripts/generate-css-vars.js:28-41 | the recursive loop computes `CssVars` |
| CssVars.CssVarsWellFormed | scripts/generate-css-vars.js:28-41 | every line declares `  --<prefix>…` and ends with `;` |
| CssVars.CssVarsFromWellFormed | scripts/generate-css-vars.js:30-39 | the same for the entries from any index on |
| CssVars.FlatGroup | scripts/generate-css-vars.js:30-35 | a group of tokens yields exactly one line per token, in entry order |
| CssVars.PrimitivesYieldNothing | scripts/generate-css-vars.js:30-39 | strings, numbers and booleans outside a token yield no line |
| CssVars.NullEntryThrows | scripts/generate-css-vars.js:36-37 | a `null` entry makes the whole extraction throw |

## Left out

- DOM wiring (src/main.js:3-6, 305-319): reading the input, parsing it and writing the previews are I/O. The model's entry point is the walk with no parent.
- `rgbTo255` (src/main.refactored.js:26-28, src/main.js:16-22): floating-point rounding is not modelled. A fill colour is given with channels already in 0..255.
- Numbers are integers. Fractional sizes, `NaN` and the JavaScript text of non-integral numbers are not modelled.
- `JSON.stringify(node, null, 2)` in the instance tooltip is the parameter `dump`, a function of the node.
- `componentRegistry` (src/components/registry.js) is a set of names. The components themselves are not modelled.
- An absent `name` is modelled as `""`. In JavaScript, reading `node.name.replace` would throw, and a title would print `undefined`.
- `Markup.PropText`: a property value is a string, a boolean or an integer. A property entry without `value` (printed as `undefined`) and a `null` entry (where reading `v.type` throws) are not modelled.
- `fills` as `figma.mixed` or another non-array value is not modelled: `fills` is always a sequence.
- `Common.IsSpace` is the ASCII whitespace of `\s` and `trim`: space, tab, line feed, vertical tab, form feed and carriage return. Unicode whitespace such as U+00A0 and U+FEFF is not modelled, and `\w` and letter case cover ASCII only.
- `componentRegistry`, `pMap` and `cMap` are plain objects, so a prototype key such as `constructor` or `toString` reads as present and truthy. The model's registry is a set and its maps hold only the listed keys, so such names are not modelled.
- `CssVars.Step`: indexing a string, and built-in properties such as `length` or those of the prototype, read as `undefined`.
- `CssVars.Lookup`: a duplicated JSON key takes its first occurrence, where `JSON.parse` keeps the last.
- `Object.entries` lists integer-like keys first in ascending order. The model keeps the order in which entries were parsed.
- `CssVars.CssVars`: a top-level argument that is a string is taken to have no entries. `undefined` as an argument (for example a missing `primitives.spacing`) is not a `Json` value.
- The top-level script of scripts/generate-css-vars.js:2-8, 43-74 is file I/O and the assembly of the output: it is not part of this model.
- The React UI (src/App.jsx, src/Preview.jsx, src/main.jsx) and the theme files are not part of this model.

## Findings

| source | as written | input that shows it | evidently intended | confidence | as-written member | corrected member |
|---|---|---|---|---|---|---|
| src/main.refactored.js:55 | a TEXT value has `"` replaced by `'\"'`, which is the one-character string `"`, so nothing is escaped | a TEXT property `Say "hi"` gives `label="Say "hi""`, where the value ends at the second quote | replace `"` by `&quot;`, so that the attribute value cannot end early | not executed | Markup.QuoteEndsAttributeAsWritten | Markup.PropAttrTextQuoted |
