/** The fixed Tailwind vocabulary both mappers share, and the quantizers that
    choose from it: the spacing scale with its nearest-bucket search, the
    linear spacing step, the background palette with its first-match search,
    the two alignment tables, and the class-or-literal rule used for widths,
    heights, font sizes and line heights. */
module Tailwind {
  import opened Common

  // ------------------------------------------------------- spacing scale

  /** TAILWIND_SPACING as `Object.entries` yields it: integer keys in
      ascending order, each with its pixel value. */
  const SpacingScale: seq<(nat, nat)> :=
    [(0, 0), (1, 4), (2, 8), (3, 12), (4, 16), (5, 20), (6, 24), (7, 28), (8, 32), (9, 36),
     (10, 40), (11, 44), (12, 48), (14, 56), (16, 64), (20, 80), (24, 96), (28, 112),
     (32, 128), (36, 144), (40, 160), (44, 176), (48, 192), (52, 208), (56, 224),
     (60, 240), (64, 256), (72, 288), (80, 320), (96, 384)]

  /** Keys ascend strictly from one entry to the next. */
  lemma ScaleSteps()
    ensures forall i :: 0 < i < |SpacingScale| ==> SpacingScale[i - 1].0 < SpacingScale[i].0
  {
  }

  /** Every bucket is four pixels per key step. */
  lemma ScaleFourPerKey()
    ensures forall i :: 0 <= i < |SpacingScale| ==> SpacingScale[i].1 == 4 * SpacingScale[i].0
  {
  }

  /** Keys ascend strictly across the whole scale. */
  lemma {:induction false} KeyAscending(k: nat, j: nat)
    requires j < |SpacingScale|
    ensures k < j ==> SpacingScale[k].0 < SpacingScale[j].0
    decreases j
  {
    if k < j {
      ScaleSteps();
      if k < j - 1 {
        KeyAscending(k, j - 1);
      }
    }
  }

  function Abs(x: int): nat { if x < 0 then -x else x }

  /** Distance from `px` to the pixel value of scale entry `j`. */
  function Dist(px: int, j: nat): nat
    requires j < |SpacingScale|
  {
    Abs(px - SpacingScale[j].1)
  }

  /** Entry `k` is the one the scan keeps: no entry is closer, and every
      earlier entry is strictly farther (ties go to the first). */
  predicate IsNearest(px: int, k: nat)
  {
    && k < |SpacingScale|
    && (forall j :: 0 <= j < |SpacingScale| ==> Dist(px, k) <= Dist(px, j))
    && (forall j :: 0 <= j < k ==> Dist(px, j) > Dist(px, k))
  }

  /** At most one entry satisfies IsNearest. */
  lemma NearestUnique(px: int, a: nat, b: nat)
    requires IsNearest(px, a) && IsNearest(px, b)
    ensures a == b
  {
    assert Dist(px, a) <= Dist(px, b);
    assert Dist(px, b) <= Dist(px, a);
  }

  /** Scale keys are in ascending order, so a smaller key is an earlier entry. */
  lemma KeyOrder(j: nat, k: nat)
    requires j < |SpacingScale| && k < |SpacingScale|
    requires SpacingScale[j].0 < SpacingScale[k].0
    ensures j < k
  {
    KeyAscending(k, j);
  }

  /** After the scan has looked at the first `i` entries, `best` is the
      first of them that no other is closer than. */
  predicate Scanned(px: int, i: nat, best: nat)
  {
    && best < i <= |SpacingScale|
    && (forall j :: 0 <= j < i ==> Dist(px, best) <= Dist(px, j))
    && (forall j :: 0 <= j < best ==> Dist(px, j) > Dist(px, best))
  }

  /** One step of the scan: entry `i` replaces the kept one exactly when it
      is strictly closer. */
  lemma ScanStep(px: int, i: nat, best: nat)
    requires Scanned(px, i, best) && i < |SpacingScale|
    ensures Dist(px, i) < Dist(px, best) ==> Scanned(px, i + 1, i)
    ensures Dist(px, i) >= Dist(px, best) ==> Scanned(px, i + 1, best)
  {
  }

  /** Continue the scan at entry `i`, with `best` the entry kept so far. */
  function NearestFrom(px: int, i: nat, best: nat): (k: nat)
    requires Scanned(px, i, best)
    ensures IsNearest(px, k)
    decreases |SpacingScale| - i
  {
    if i == |SpacingScale| then best
    else
      ScanStep(px, i, best);
      if Dist(px, i) < Dist(px, best) then NearestFrom(px, i + 1, i)
      else NearestFrom(px, i + 1, best)
  }

  /** Index of the bucket `pxToTailwindSpacing` settles on. */
  function NearestIndex(px: int): (k: nat)
    ensures IsNearest(px, k)
  {
    NearestFrom(px, 1, 0)
  }

  /** The record `{ key, px, diff }` that `pxToTailwindSpacing` returns. */
  datatype Bucket = Bucket(key: nat, px: nat, diff: nat)

  function NearestBucket(px: int): Bucket
  {
    var k := NearestIndex(px);
    Bucket(SpacingScale[k].0, SpacingScale[k].1, Dist(px, k))
  }

  /** The bucket is a scale entry, its `diff` is its distance from `px`, no
      entry is strictly closer, and every entry with a smaller key is strictly
      farther: among equally close buckets the smallest key wins. */
  lemma NearestBucketIsOptimal(px: int)
    ensures (NearestBucket(px).key, NearestBucket(px).px) in SpacingScale
    ensures NearestBucket(px).diff == Abs(px - NearestBucket(px).px)
    ensures forall j :: 0 <= j < |SpacingScale| ==> NearestBucket(px).diff <= Dist(px, j)
    ensures forall j :: 0 <= j < |SpacingScale| && SpacingScale[j].0 < NearestBucket(px).key ==>
              Dist(px, j) > NearestBucket(px).diff
  {
    var k := NearestIndex(px);
    forall j | 0 <= j < |SpacingScale| && SpacingScale[j].0 < NearestBucket(px).key
      ensures Dist(px, j) > NearestBucket(px).diff
    {
      KeyOrder(j, k);
    }
  }

  /** `diff` is 0 exactly when `px` is one of the scale's pixel values. */
  lemma NearestBucketExact(px: int)
    ensures NearestBucket(px).diff == 0 <==> exists j :: 0 <= j < |SpacingScale| && SpacingScale[j].1 == px
  {
    var k := NearestIndex(px);
    if exists j :: 0 <= j < |SpacingScale| && SpacingScale[j].1 == px {
      var j :| 0 <= j < |SpacingScale| && SpacingScale[j].1 == px;
      assert Dist(px, k) <= Dist(px, j) == 0;
    }
  }

  /** `TAILWIND_SPACING[key]` */
  function ScalePx(key: nat): Option<nat>
  {
    ScalePxFrom(key, 0)
  }

  function ScalePxFrom(key: nat, i: nat): Option<nat>
    requires i <= |SpacingScale|
    decreases |SpacingScale| - i
  {
    if i == |SpacingScale| then None
    else if SpacingScale[i].0 == key then Some(SpacingScale[i].1)
    else ScalePxFrom(key, i + 1)
  }

  lemma {:induction false} ScalePxFromAt(i: nat, k: nat)
    requires i <= k < |SpacingScale|
    ensures ScalePxFrom(SpacingScale[k].0, i) == Some(SpacingScale[k].1)
    decreases |SpacingScale| - i
  {
    KeyAscending(i, k);
    if SpacingScale[i].0 != SpacingScale[k].0 {
      ScalePxFromAt(i + 1, k);
    } else {
      assert i == k;
    }
  }

  /** The entry the scan keeps is the nearest bucket, and looking its key up
      again in the scale gives back its pixel value. */
  lemma NearestBucketAt(px: int, k: nat)
    requires IsNearest(px, k)
    ensures ScalePx(SpacingScale[k].0) == Some(SpacingScale[k].1)
    ensures NearestBucket(px) == Bucket(SpacingScale[k].0, SpacingScale[k].1, Dist(px, k))
  {
    NearestUnique(px, k, NearestIndex(px));
    ScalePxFromAt(0, k);
  }

  /** `pxToTailwindSpacing(px)`: the scan of src/main.refactored.js:17-24
      (duplicated at src/main.js:93-104), keeping the first entry strictly
      closer than every entry before it. The initial `Infinity` is `None`. */
  method PxToTailwindSpacing(px: int) returns (b: Bucket)
    ensures b == NearestBucket(px)
  {
    var closestKey: nat := 0;
    var minDiff: Option<nat> := None;
    ghost var best: nat := 0;
    var i := 0;
    while i < |SpacingScale|
      invariant 0 <= i <= |SpacingScale|
      invariant minDiff.None? <==> i == 0
      invariant i > 0 ==> Scanned(px, i, best) && minDiff == Some(Dist(px, best))
      invariant i > 0 ==> closestKey == SpacingScale[best].0
    {
      var (key, value) := SpacingScale[i];
      var diff := Abs(px - value);
      if i > 0 {
        ScanStep(px, i, best);
      }
      if minDiff.None? || diff < minDiff.value {
        minDiff := Some(diff);
        closestKey := key;
        best := i;
      }
      i := i + 1;
    }
    NearestBucketAt(px, best);
    b := Bucket(closestKey, ScalePx(closestKey).value, minDiff.value);
  }

  // ---------------------------------------------------------- linear step

  /** `pxToTailwind(val)`: the spacing step `val / 4` for a multiple of 4 whose
      step is at most 96, nothing for 0, and a bracketed arbitrary value
      otherwise. The step is a JavaScript number printed in decimal. */
  function PxToTailwind(val: int): string
  {
    if val % 4 == 0 && val / 4 <= 96 then
      (if val == 0 then "" else IntToString(val / 4))
    else "[" + IntToString(val) + "px]"
  }

  /** A positive multiple of 4 up to 384 maps to its step and 0 to the empty
      string. A negative multiple of 4 also passes the test (`-4 % 4` is `-0`
      in JavaScript) and maps to its negative step, `-4` to `-1`. Every other
      value maps to the bracketed `[Npx]` literal. */
  lemma PxToTailwindCases(val: int)
    ensures val == 0 ==> PxToTailwind(val) == ""
    ensures 0 < val <= 384 && val % 4 == 0 ==> PxToTailwind(val) == NatToString(val / 4)
    ensures val < 0 && val % 4 == 0 ==> PxToTailwind(val) == "-" + NatToString(-val / 4)
    ensures (val > 384 || val % 4 != 0) ==> PxToTailwind(val) == "[" + IntToString(val) + "px]"
  {
  }

  /** Distinct pixel values never give the same class suffix. */
  lemma PxToTailwindInjective(a: int, b: int)
    ensures PxToTailwind(a) == PxToTailwind(b) ==> a == b
  {
    var sa, sb := PxToTailwind(a), PxToTailwind(b);
    if sa == sb {
      var stepA := a % 4 == 0 && a / 4 <= 96;
      var stepB := b % 4 == 0 && b / 4 <= 96;
      assert stepA ==> sa == [] || sa[0] == '-' || IsDigit(sa[0]);
      assert stepB ==> sb == [] || sb[0] == '-' || IsDigit(sb[0]);
      assert !stepA ==> sa[0] == '[';
      assert !stepB ==> sb[0] == '[';
      if stepA && stepB {
        if a != 0 && b != 0 {
          IntToStringInjective(a / 4, b / 4);
        }
      } else if !stepA && !stepB {
        var ta, tb := IntToString(a), IntToString(b);
        assert sa == "[" + ta + "px]" && sb == "[" + tb + "px]";
        assert ta == sa[1..|sa| - 3];
        assert tb == sb[1..|sb| - 3];
        IntToStringInjective(a, b);
      }
    }
  }

  // ------------------------------------------------------------- palette

  /** A colour with channels already rounded to 0..255. */
  datatype Rgb = Rgb(r: int, g: int, b: int)

  /** The background palette, in declaration order. */
  const Palette: seq<(string, Rgb)> :=
    [("bg-white", Rgb(255, 255, 255)),
     ("bg-gray-100", Rgb(245, 245, 245)),
     ("bg-gray-200", Rgb(229, 231, 235)),
     ("bg-gray-300", Rgb(209, 213, 219)),
     ("bg-gray-400", Rgb(156, 163, 175)),
     ("bg-black", Rgb(0, 0, 0))]

  /** Every channel within 2 of the palette colour. */
  predicate Within(c: Rgb, p: Rgb)
  {
    Abs(c.r - p.r) <= 2 && Abs(c.g - p.g) <= 2 && Abs(c.b - p.b) <= 2
  }

  /** Index of the first palette entry at or after `i` within tolerance. */
  function FirstMatchFrom(c: Rgb, i: nat): (m: Option<nat>)
    requires i <= |Palette|
    ensures m.Some? ==> i <= m.value < |Palette| && Within(c, Palette[m.value].1)
    ensures m.Some? ==> forall j :: i <= j < m.value ==> !Within(c, Palette[j].1)
    ensures m.None? ==> forall j :: i <= j < |Palette| ==> !Within(c, Palette[j].1)
    decreases |Palette| - i
  {
    if i == |Palette| then None
    else if Within(c, Palette[i].1) then Some(i)
    else FirstMatchFrom(c, i + 1)
  }

  /** The record `{ tailwind, style }` of `rgbToTailwindBg`, `null` as None. */
  datatype BgResult = BgResult(tailwind: Option<string>, style: Option<string>)

  /** The inline fallback `background-color: rgb(r,g,b)`. */
  function RgbStyle(c: Rgb): string
  {
    "background-color: rgb(" + IntToString(c.r) + "," + IntToString(c.g) + "," + IntToString(c.b) + ")"
  }

  function BgOf(c: Rgb): BgResult
  {
    match FirstMatchFrom(c, 0)
    case Some(i) => BgResult(Some(Palette[i].0), None)
    case None => BgResult(None, Some(RgbStyle(c)))
  }

  /** `rgbToTailwindBg`: the loop with its early return of
      src/main.refactored.js:30-45 (duplicated at src/main.js:24-40). */
  method RgbToTailwindBg(c: Rgb) returns (bg: BgResult)
    ensures bg == BgOf(c)
  {
    for i := 0 to |Palette|
      invariant forall j :: 0 <= j < i ==> !Within(c, Palette[j].1)
    {
      var (name, rgb) := Palette[i];
      if Abs(c.r - rgb.r) <= 2 && Abs(c.g - rgb.g) <= 2 && Abs(c.b - rgb.b) <= 2 {
        assert FirstMatchFrom(c, 0) == Some(i);
        return BgResult(Some(name), None);
      }
    }
    assert FirstMatchFrom(c, 0) == None;
    bg := BgResult(None, Some(RgbStyle(c)));
  }

  /** Exactly one of `tailwind` and `style` is set; the class is that of the
      first palette entry (in declaration order) within 2 on every channel,
      and without such an entry the style is the literal `rgb(...)`. */
  lemma BgOfSpec(c: Rgb)
    ensures BgOf(c).tailwind.Some? != BgOf(c).style.Some?
    ensures forall n :: BgOf(c).tailwind == Some(n) <==>
              exists i :: 0 <= i < |Palette| && Within(c, Palette[i].1) && Palette[i].0 == n &&
                (forall j :: 0 <= j < i ==> !Within(c, Palette[j].1))
    ensures BgOf(c).tailwind.None? <==> forall i :: 0 <= i < |Palette| ==> !Within(c, Palette[i].1)
    ensures BgOf(c).tailwind.None? ==> BgOf(c).style == Some(RgbStyle(c))
  {
    var m := FirstMatchFrom(c, 0);
    forall n ensures BgOf(c).tailwind == Some(n) <==>
      exists i :: 0 <= i < |Palette| && Within(c, Palette[i].1) && Palette[i].0 == n &&
        (forall j :: 0 <= j < i ==> !Within(c, Palette[j].1))
    {
      if exists i :: 0 <= i < |Palette| && Within(c, Palette[i].1) && Palette[i].0 == n &&
           (forall j :: 0 <= j < i ==> !Within(c, Palette[j].1)) {
        var i :| 0 <= i < |Palette| && Within(c, Palette[i].1) && Palette[i].0 == n &&
          (forall j :: 0 <= j < i ==> !Within(c, Palette[j].1));
        assert m == Some(i);
      }
    }
  }

  /** The palette's tolerance bands are disjoint, so the first match is also
      the only match. */
  lemma PaletteBandsDisjoint(c: Rgb, i: nat, j: nat)
    requires i < |Palette| && j < |Palette|
    requires Within(c, Palette[i].1) && Within(c, Palette[j].1)
    ensures i == j
  {
  }

  /** Pure white maps to `bg-white`; (254, 254, 254), the rounding of 0.999,
      is still within tolerance of it; (230, 230, 230), the rounding of 0.9,
      is 5 away from gray-200's blue channel and falls back to a literal. */
  lemma PaletteBoundaries()
    ensures BgOf(Rgb(255, 255, 255)) == BgResult(Some("bg-white"), None)
    ensures BgOf(Rgb(254, 254, 254)) == BgResult(Some("bg-white"), None)
    ensures BgOf(Rgb(230, 230, 230)) == BgResult(None, Some("background-color: rgb(230,230,230)"))
  {
    assert NatToString(2) == "2";
    assert NatToString(23) == "23";
    assert IntToString(230) == "230";
    var gray := Rgb(230, 230, 230);
    assert !Within(gray, Palette[2].1);
    assert FirstMatchFrom(gray, 0) == None;
    assert RgbStyle(gray) == "background-color: rgb(230,230,230)";
  }

  // ---------------------------------------------------------- alignment

  /** `pMap`: primary-axis alignment to `justify-*`. */
  const PrimaryAxisMap: map<string, string> :=
    map["MIN" := "justify-start", "CENTER" := "justify-center", "MAX" := "justify-end",
        "SPACE_BETWEEN" := "justify-between", "SPACE_AROUND" := "justify-around",
        "SPACE_EVENLY" := "justify-evenly"]

  /** `cMap`: counter-axis alignment to `items-*`. */
  const CounterAxisMap: map<string, string> :=
    map["MIN" := "items-start", "CENTER" := "items-center", "MAX" := "items-end",
        "BASELINE" := "items-baseline", "STRETCH" := "items-stretch"]

  /** `if (x && map[x]) classes.push(map[x])`: a present, recognised token
      contributes its class, anything else contributes nothing. */
  function AlignClass(m: map<string, string>, token: string): seq<string>
  {
    if token != "" && token in m then [m[token]] else []
  }

  // ------------------------------------------------ class-or-literal rule

  /** Classes pushed and style declarations appended by one sizing rule. */
  datatype Sized = Sized(classes: seq<string>, style: string)

  const NoSize := Sized([], "")

  /** Snap `px` to the nearest bucket: the class `<prefix><key>` when the
      bucket is at most 2px away, else the declaration `<prop>:<px>px;`. */
  function SnapOrLiteral(prefix: string, prop: string, px: int): Sized
  {
    var b := NearestBucket(px);
    if b.diff <= 2 then Sized([prefix + NatToString(b.key)], "")
    else Sized([], prop + ":" + IntToString(px) + "px;")
  }

  /** The class is emitted exactly when some bucket lies within 2px of `px`,
      and it names the nearest bucket; otherwise no class is emitted and the
      declaration carries the exact pixel value. */
  lemma SnapOrLiteralThreshold(prefix: string, prop: string, px: int)
    ensures var s := SnapOrLiteral(prefix, prop, px);
      && (s.classes != [] <==> exists j :: 0 <= j < |SpacingScale| && Dist(px, j) <= 2)
      && (s.classes != [] ==> s.classes == [prefix + NatToString(NearestBucket(px).key)] && s.style == "")
      && (s.classes == [] ==> s.style == prop + ":" + IntToString(px) + "px;")
  {
    var k := NearestIndex(px);
    if exists j :: 0 <= j < |SpacingScale| && Dist(px, j) <= 2 {
      var j :| 0 <= j < |SpacingScale| && Dist(px, j) <= 2;
      assert Dist(px, k) <= Dist(px, j);
    }
  }

  /** `const { key, diff } = pxToTailwindSpacing(px); if (diff <= 2)
      classes.push(prefix + key); else styleStr += ...`: the class-or-literal
      step of a sizing rule, computed with the scanning loop. */
  method SnapToScale(prefix: string, prop: string, px: int) returns (s: Sized)
    ensures s == SnapOrLiteral(prefix, prop, px)
  {
    var b := PxToTailwindSpacing(px);
    if b.diff <= 2 {
      s := Sized([prefix + NatToString(b.key)], "");
    } else {
      s := Sized([], prop + ":" + IntToString(px) + "px;");
    }
  }
}
