/** The two tree transforms of scripts/generate-css-vars.js over parsed JSON
    design tokens: `resolveRefs`, which replaces every `{a.b.c}` reference
    in a token's `value` by what it names, one step deep, and
    `extractCssVars`, which flattens a token tree into `--name: value;`
    custom-property lines. A JavaScript exception is an `Err`. */
module CssVars {
  import opened Common

  datatype Json =
    | JNull
    | JBool(b: bool)
    | JNum(n: int)
    | JStr(s: string)
    | JArr(items: seq<Json>)
    | JObj(entries: seq<(string, Json)>)

  /** The exception of reading a property of `undefined` or `null`. */
  const TypeError := "TypeError"

  /** `obj[key]` of an object: the first entry with that key. */
  function Lookup(es: seq<(string, Json)>, key: string): Option<Json>
  {
    if es == [] then None
    else if es[0].0 == key then Some(es[0].1)
    else Lookup(es[1..], key)
  }

  function Keys(es: seq<(string, Json)>): (ks: seq<string>)
    ensures |ks| == |es| && forall i :: 0 <= i < |es| ==> ks[i] == es[i].0
  {
    seq(|es|, i requires 0 <= i < |es| => es[i].0)
  }

  // ------------------------------------------------------------ resolveRefs

  /** The array index a property key names, when it is one. */
  function ArrayIndex(key: string, n: nat): Option<nat>
  {
    if key != "" && AllDigits(key) && (|key| == 1 || key[0] != '0') && ParseDigits(key) < n
    then Some(ParseDigits(key)) else None
  }

  /** `curr[key]`, where `None` is `undefined`. */
  function Step(curr: Option<Json>, key: string): Result<Option<Json>>
  {
    match curr
    case None => Err(TypeError)
    case Some(JNull) => Err(TypeError)
    case Some(JObj(es)) => Ok(Lookup(es, key))
    case Some(JArr(items)) =>
      var i := ArrayIndex(key, |items|);
      Ok(if i.Some? then Some(items[i.value]) else None)
    case Some(_) => Ok(None)
  }

  /** `for (const key of path) curr = curr[key]` */
  function Walk(curr: Option<Json>, path: seq<string>): Result<Option<Json>>
    decreases |path|
  {
    if path == [] then Ok(curr)
    else match Step(curr, path[0])
      case Err(e) => Err(e)
      case Ok(next) => Walk(next, path[1..])
  }

  /** The walk, as the code writes it. */
  method WalkPath(root: Json, path: seq<string>) returns (r: Result<Option<Json>>)
    ensures r == Walk(Some(root), path)
  {
    var curr := Some(root);
    var i := 0;
    while i < |path|
      invariant 0 <= i <= |path|
      invariant Walk(Some(root), path) == Walk(curr, path[i..])
    {
      assert path[i..][0] == path[i] && path[i..][1..] == path[i + 1..];
      var next := Step(curr, path[i]);
      if next.Err? {
        return Err(next.error);
      }
      curr := next.value;
      i := i + 1;
    }
    assert path[i..] == [];
    return Ok(curr);
  }

  /** `obj.value.slice(1, -1).split('.')` */
  function RefPath(s: string): seq<string>
  {
    Split(if |s| >= 2 then s[1..|s| - 1] else "", '.')
  }

  /** A token whose `value` is a string starting with `{`. */
  predicate IsRef(obj: Json)
  {
    obj.JObj? &&
    var v := Lookup(obj.entries, "value");
    v.Some? && v.value.JStr? && StartsWith(v.value.s, "{")
  }

  /** The reference string of a token. */
  function RefOf(obj: Json): string
    requires IsRef(obj)
  {
    Lookup(obj.entries, "value").value.s
  }

  /** `curr.value ?? curr` */
  function ValueOrSelf(curr: Option<Json>): Result<Json>
  {
    match curr
    case None => Err(TypeError)
    case Some(JNull) => Err(TypeError)
    case Some(JObj(es)) =>
      var v := Lookup(es, "value");
      Ok(if v.Some? && !v.value.JNull? then v.value else JObj(es))
    case Some(j) => Ok(j)
  }

  /** `{ ...obj, value: v }`: the same keys in the same order. */
  function SetValue(es: seq<(string, Json)>, v: Json): (r: seq<(string, Json)>)
    ensures Keys(r) == Keys(es)
  {
    seq(|es|, i requires 0 <= i < |es| => if es[i].0 == "value" then ("value", v) else es[i])
  }

  /** `resolveRefs(obj, root)`: arrays keep their length, objects their keys
      in order, and every other value is returned as it is. */
  function ResolveRefs(obj: Json, root: Json): (r: Result<Json>)
    ensures r.Ok? && obj.JArr? ==> r.value.JArr? && |r.value.items| == |obj.items|
    ensures r.Ok? && obj.JObj? ==> r.value.JObj? && Keys(r.value.entries) == Keys(obj.entries)
    ensures r.Ok? && !obj.JArr? && !obj.JObj? ==> r.value == obj
    decreases obj, 1
  {
    if IsRef(obj) then
      match Walk(Some(root), RefPath(RefOf(obj)))
      case Err(e) => Err(e)
      case Ok(curr) =>
        match ValueOrSelf(curr)
        case Err(e) => Err(e)
        case Ok(v) => Ok(JObj(SetValue(obj.entries, v)))
    else match obj
      case JArr(items) =>
        (match ResolveItems(obj, root, 0)
         case Err(e) => Err(e)
         case Ok(rs) => Ok(JArr(rs)))
      case JObj(es) =>
        (match ResolveEntries(obj, root, 0)
         case Err(e) => Err(e)
         case Ok(rs) => Ok(JObj(rs)))
      case _ => Ok(obj)
  }

  /** `obj.map(item => resolveRefs(item, root))` from index `k` on. */
  function ResolveItems(obj: Json, root: Json, k: nat): (r: Result<seq<Json>>)
    requires obj.JArr? && k <= |obj.items|
    ensures r.Ok? ==> |r.value| == |obj.items| - k
    decreases obj, 0, |obj.items| - k
  {
    if k == |obj.items| then Ok([])
    else match ResolveRefs(obj.items[k], root)
      case Err(e) => Err(e)
      case Ok(x) =>
        match ResolveItems(obj, root, k + 1)
        case Err(e) => Err(e)
        case Ok(xs) => Ok([x] + xs)
  }

  /** `Object.entries(obj).map(([k, v]) => [k, resolveRefs(v, root)])` from
      index `k` on. */
  function ResolveEntries(obj: Json, root: Json, k: nat): (r: Result<seq<(string, Json)>>)
    requires obj.JObj? && k <= |obj.entries|
    ensures r.Ok? ==> Keys(r.value) == Keys(obj.entries[k..])
    decreases obj, 0, |obj.entries| - k
  {
    if k == |obj.entries| then Ok([])
    else
      var e := obj.entries[k];
      assert e.1 < obj;
      match ResolveRefs(e.1, root)
      case Err(err) => Err(err)
      case Ok(x) =>
        match ResolveEntries(obj, root, k + 1)
        case Err(err) => Err(err)
        case Ok(xs) =>
          KeysCons(e.0, x, xs);
          KeysSuffix(obj.entries, k);
          Ok([(e.0, x)] + xs)
  }

  lemma KeysCons(key: string, x: Json, xs: seq<(string, Json)>)
    ensures Keys([(key, x)] + xs) == [key] + Keys(xs)
  {
  }

  lemma KeysSuffix(es: seq<(string, Json)>, k: nat)
    requires k < |es|
    ensures Keys(es[k..]) == [es[k].0] + Keys(es[k + 1..])
  {
  }

  /** A tree without references anywhere. */
  predicate NoRefs(j: Json)
  {
    !IsRef(j) &&
    match j
    case JArr(items) => forall i :: 0 <= i < |items| ==> NoRefs(items[i])
    case JObj(es) => forall i :: 0 <= i < |es| ==> NoRefs(es[i].1)
    case _ => true
  }

  /** A tree without references is returned unchanged. */
  lemma {:induction false} ResolveNoRefs(obj: Json, root: Json)
    requires NoRefs(obj)
    ensures ResolveRefs(obj, root) == Ok(obj)
    decreases obj, 1
  {
    match obj
    case JArr(items) => ResolveItemsNoRefs(obj, root, 0);
    case JObj(es) => ResolveEntriesNoRefs(obj, root, 0);
    case _ =>
  }

  lemma {:induction false} ResolveItemsNoRefs(obj: Json, root: Json, k: nat)
    requires obj.JArr? && k <= |obj.items| && NoRefs(obj)
    ensures ResolveItems(obj, root, k) == Ok(obj.items[k..])
    decreases obj, 0, |obj.items| - k
  {
    if k < |obj.items| {
      ResolveNoRefs(obj.items[k], root);
      ResolveItemsNoRefs(obj, root, k + 1);
      assert obj.items[k..] == [obj.items[k]] + obj.items[k + 1..];
    } else {
      assert obj.items[k..] == [];
    }
  }

  lemma {:induction false} ResolveEntriesNoRefs(obj: Json, root: Json, k: nat)
    requires obj.JObj? && k <= |obj.entries| && NoRefs(obj)
    ensures ResolveEntries(obj, root, k) == Ok(obj.entries[k..])
    decreases obj, 0, |obj.entries| - k
  {
    if k < |obj.entries| {
      var e := obj.entries[k];
      assert e.1 < obj;
      ResolveNoRefs(e.1, root);
      ResolveEntriesNoRefs(obj, root, k + 1);
      assert obj.entries[k..] == [e] + obj.entries[k + 1..];
      assert (e.0, e.1) == e;
    } else {
      assert obj.entries[k..] == [];
    }
  }

  /** A reference is resolved one step deep into a copy of the token: its
      `value` becomes the named node's `value`, or the node itself when it
      has none, even when that is a reference again; every other entry is
      kept as it is, unresolved. */
  lemma ResolveRefOneStep(obj: Json, root: Json, target: Json)
    requires IsRef(obj)
    requires Walk(Some(root), RefPath(RefOf(obj))) == Ok(Some(target)) && !target.JNull?
    ensures var v := if target.JObj? && Lookup(target.entries, "value").Some? &&
                        !Lookup(target.entries, "value").value.JNull?
                     then Lookup(target.entries, "value").value else target;
      && ResolveRefs(obj, root).Ok?
      && ResolveRefs(obj, root).value.JObj?
      && var es := ResolveRefs(obj, root).value.entries;
      && |es| == |obj.entries|
      && forall i :: 0 <= i < |es| ==>
           es[i] == (if obj.entries[i].0 == "value" then ("value", v) else obj.entries[i])
  {
  }

  /** A reference that names no node, or that passes through a missing key
      or `null` on the way, throws. */
  lemma ResolveMissing(obj: Json, root: Json)
    requires IsRef(obj)
    requires var w := Walk(Some(root), RefPath(RefOf(obj)));
      w.Err? || w.value.None? || w.value == Some(JNull)
    ensures ResolveRefs(obj, root).Err?
  {
  }

  /** Reading past a missing key throws: the key after it is looked up on
      `undefined`. */
  lemma WalkPastMissing(es: seq<(string, Json)>, key: string, rest: seq<string>)
    requires Lookup(es, key).None? && rest != []
    ensures Walk(Some(JObj(es)), [key] + rest).Err?
  {
    assert ([key] + rest)[0] == key && ([key] + rest)[1..] == rest;
    assert rest == [rest[0]] + rest[1..];
  }

  // ---------------------------------------------------------- extractCssVars

  /** `key.replace(/\s+/g, '-')`: every run of whitespace becomes one `-`. */
  function CollapseSpace(s: string): (r: string)
    ensures forall i :: 0 <= i < |r| ==> !IsSpace(r[i])
    decreases |s|
  {
    if s == [] then []
    else if IsSpace(s[0]) then "-" + CollapseSpace(TrimStart(s[1..]))
    else [s[0]] + CollapseSpace(s[1..])
  }

  /** A key without whitespace is kept as it is. */
  lemma {:induction false} CollapseSpaceIdentity(s: string)
    requires forall i :: 0 <= i < |s| ==> !IsSpace(s[i])
    ensures CollapseSpace(s) == s
    decreases |s|
  {
    if s != [] {
      CollapseSpaceIdentity(s[1..]);
    }
  }

  /** Whitespace in front of text that does not start with whitespace is
      dropped, and nothing else. */
  lemma {:induction false} TrimStartRun(w: string, b: string)
    requires forall i :: 0 <= i < |w| ==> IsSpace(w[i])
    requires b == [] || !IsSpace(b[0])
    ensures TrimStart(w + b) == b
    decreases |w|
  {
    if w != [] {
      assert (w + b)[0] == w[0];
      assert (w + b)[1..] == w[1..] + b;
      TrimStartRun(w[1..], b);
    } else {
      assert w + b == b;
    }
  }

  /** Leading whitespace in front of whitespace-free text becomes one `-`. */
  lemma CollapseSpaceLead(w: string, b: string)
    requires w != [] && forall i :: 0 <= i < |w| ==> IsSpace(w[i])
    requires forall i :: 0 <= i < |b| ==> !IsSpace(b[i])
    ensures CollapseSpace(w + b) == "-" + b
  {
    var s := w + b;
    assert s[0] == w[0];
    assert s[1..] == w[1..] + b;
    TrimStartRun(w[1..], b);
    CollapseSpaceIdentity(b);
  }

  /** A run of whitespace, however long, between two whitespace-free texts
      becomes exactly one `-`. */
  lemma {:induction false} CollapseSpaceRun(a: string, w: string, b: string)
    requires forall i :: 0 <= i < |a| ==> !IsSpace(a[i])
    requires w != [] && forall i :: 0 <= i < |w| ==> IsSpace(w[i])
    requires forall i :: 0 <= i < |b| ==> !IsSpace(b[i])
    ensures CollapseSpace(a + w + b) == a + "-" + b
    decreases |a|
  {
    if a == [] {
      assert a + w + b == w + b;
      CollapseSpaceLead(w, b);
    } else {
      var s := a + w + b;
      assert s[0] == a[0] && s[1..] == a[1..] + w + b;
      calc {
        CollapseSpace(s);
        [a[0]] + CollapseSpace(a[1..] + w + b);
        { CollapseSpaceRun(a[1..], w, b); }
        [a[0]] + (a[1..] + "-" + b);
        { assert a == [a[0]] + a[1..]; }
        a + "-" + b;
      }
    }
  }

  /** `Brand  Blue` becomes `Brand-Blue`. */
  lemma CollapseSpaceExample()
    ensures CollapseSpace("Brand  Blue") == "Brand-Blue"
  {
    calc {
      CollapseSpace("Brand  Blue");
      { assert "Brand  Blue" == "Brand" + "  " + "Blue"; }
      CollapseSpace("Brand" + "  " + "Blue");
      { CollapseSpaceRun("Brand", "  ", "Blue"); }
      "Brand" + "-" + "Blue";
      "Brand-Blue";
    }
  }

  /** `${prefix}${key.replace(/\s+/g, '-').toLowerCase()}` */
  function VarName(prefix: string, key: string): string
  {
    prefix + LowerAscii(CollapseSpace(key))
  }

  /** The part of a custom-property name taken from the key holds no
      whitespace and no upper-case letter. */
  lemma VarNameShape(prefix: string, key: string)
    ensures var name := VarName(prefix, key);
      && StartsWith(name, prefix)
      && forall i :: |prefix| <= i < |name| ==> !IsSpace(name[i]) && !IsUpperAscii(name[i])
  {
    var c := CollapseSpace(key);
    var name := VarName(prefix, key);
    assert name[..|prefix|] == prefix;
    var lower := LowerAscii(c);
    forall i | |prefix| <= i < |name| ensures !IsSpace(name[i]) && !IsUpperAscii(name[i]) {
      var j := i - |prefix|;
      assert name[i] == lower[j] && !IsSpace(c[j]);
    }
  }

  /** `String(v)`, as a template literal prints a JSON value. */
  function Str(j: Json): string
    decreases j, 1
  {
    match j
    case JNull => "null"
    case JBool(b) => if b then "true" else "false"
    case JNum(n) => IntToString(n)
    case JStr(s) => s
    case JObj(_) => "[object Object]"
    case JArr(items) => JoinItems(j, 0)
  }

  /** `items.join(',')` from index `k` on: `null` prints as nothing. */
  function JoinItems(j: Json, k: nat): string
    requires j.JArr? && k <= |j.items|
    decreases j, 0, |j.items| - k
  {
    if k == |j.items| then ""
    else
      var x := if j.items[k].JNull? then "" else Str(j.items[k]);
      if k + 1 == |j.items| then x else x + "," + JoinItems(j, k + 1)
  }

  /** A number is given the `px` unit; anything else is printed as it is. */
  function ValueText(v: Json): string
  {
    if v.JNum? then IntToString(v.n) + "px" else Str(v)
  }

  /** `  --${varName}: ${v};` */
  function VarLine(prefix: string, key: string, v: Json): string
  {
    "  --" + VarName(prefix, key) + ": " + ValueText(v) + ";"
  }

  /** `val && typeof val.value !== 'undefined'` */
  predicate HasValue(val: Json)
  {
    val.JObj? && Lookup(val.entries, "value").Some?
  }

  /** `val.value` of a token. */
  function TokenValue(val: Json): Json
    requires HasValue(val)
  {
    Lookup(val.entries, "value").value
  }

  /** `typeof val === 'object'`, which holds for `null` too. */
  predicate IsObjectType(val: Json)
  {
    val.JNull? || val.JArr? || val.JObj?
  }

  /** `Object.entries(obj)`: an array's entries are keyed by index. */
  function Entries(j: Json): (es: seq<(string, Json)>)
    ensures forall i :: 0 <= i < |es| ==> es[i].1 < j
  {
    match j
    case JObj(es) =>
      assert forall i :: 0 <= i < |es| ==> es[i].1 < es[i];
      es
    case JArr(items) => seq(|items|, i requires 0 <= i < |items| => (NatToString(i), items[i]))
    case _ => []
  }

  /** The lines of one entry: one line for a token, the lines of its
      entries under `prefix + key + '-'` for a group, none otherwise. */
  function EntryVars(prefix: string, key: string, val: Json): Result<seq<string>>
    decreases val, 2
  {
    if HasValue(val) then Ok([VarLine(prefix, key, TokenValue(val))])
    else if IsObjectType(val) then CssVars(val, prefix + key + "-")
    else Ok([])
  }

  /** `extractCssVars(obj, prefix)`: `Object.entries(null)` throws. */
  function CssVars(obj: Json, prefix: string): Result<seq<string>>
    decreases obj, 1
  {
    if obj.JNull? then Err(TypeError) else CssVarsFrom(obj, prefix, 0)
  }

  /** The lines of the entries of `obj` from index `k` on, in order. */
  function CssVarsFrom(obj: Json, prefix: string, k: nat): Result<seq<string>>
    requires k <= |Entries(obj)|
    decreases obj, 0, |Entries(obj)| - k
  {
    if k == |Entries(obj)| then Ok([])
    else
      var e := Entries(obj)[k];
      Then(EntryVars(prefix, e.0, e.1), CssVarsFrom(obj, prefix, k + 1))
  }

  /** The lines of `a` followed by those of `b`; the first exception wins. */
  function Then(a: Result<seq<string>>, b: Result<seq<string>>): Result<seq<string>>
  {
    if a.Err? then a else if b.Err? then b else Ok(a.value + b.value)
  }

  lemma ThenEmpty(r: Result<seq<string>>)
    ensures Then(Ok([]), r) == r
  {
    if r.Ok? {
      assert [] + r.value == r.value;
    }
  }

  lemma ThenAssoc(a: seq<string>, b: seq<string>, r: Result<seq<string>>)
    ensures Then(Ok(a), Then(Ok(b), r)) == Then(Ok(a + b), r)
  {
    if r.Ok? {
      ConcatAssoc(a, b, r.value);
    }
  }

  /** `extractCssVars(obj, prefix)`, pushing one line per token and
      concatenating the lines of each group. */
  /** One entry of the scan: an exception ends it with that exception, and
      otherwise its lines join those gathered so far. */
  lemma CssVarsStep(obj: Json, prefix: string, i: nat, vars: seq<string>, here: Result<seq<string>>)
    requires i < |Entries(obj)|
    requires here == EntryVars(prefix, Entries(obj)[i].0, Entries(obj)[i].1)
    requires CssVarsFrom(obj, prefix, 0) == Then(Ok(vars), CssVarsFrom(obj, prefix, i))
    ensures here.Err? ==> CssVarsFrom(obj, prefix, 0) == here
    ensures here.Ok? ==>
      CssVarsFrom(obj, prefix, 0) == Then(Ok(vars + here.value), CssVarsFrom(obj, prefix, i + 1))
  {
    if here.Ok? {
      ThenAssoc(vars, here.value, CssVarsFrom(obj, prefix, i + 1));
    }
  }

  /** The body of the loop over the entries: a token's line, a group's
      lines, or nothing. */
  method ExtractEntry(prefix: string, key: string, val: Json) returns (here: Result<seq<string>>)
    ensures here == EntryVars(prefix, key, val)
    decreases val, 2
  {
    if val.JObj? && Lookup(val.entries, "value").Some? {
      here := Ok([VarLine(prefix, key, Lookup(val.entries, "value").value)]);
    } else if val.JNull? || val.JArr? || val.JObj? {
      here := ExtractCssVars(val, prefix + key + "-");
    } else {
      here := Ok([]);
    }
  }

  method ExtractCssVars(obj: Json, prefix: string) returns (r: Result<seq<string>>)
    ensures r == CssVars(obj, prefix)
    decreases obj, 1
  {
    if obj.JNull? {
      return Err(TypeError);
    }
    var es := Entries(obj);
    var vars: seq<string> := [];
    var i := 0;
    ThenEmpty(CssVarsFrom(obj, prefix, 0));
    while i < |es|
      invariant 0 <= i <= |es|
      invariant CssVarsFrom(obj, prefix, 0) == Then(Ok(vars), CssVarsFrom(obj, prefix, i))
    {
      var here := ExtractEntry(prefix, es[i].0, es[i].1);
      CssVarsStep(obj, prefix, i, vars, here);
      if here.Err? {
        return here;
      }
      vars := vars + here.value;
      i := i + 1;
    }
    assert vars + [] == vars;
    return Ok(vars);
  }

  // ------------------------------------------------------------ properties

  /** Every line names a custom property under `prefix` and ends the
      declaration. */
  predicate WellFormedLines(lines: seq<string>, prefix: string)
  {
    forall i :: 0 <= i < |lines| ==> StartsWith(lines[i], "  --" + prefix) && lines[i][|lines[i]| - 1] == ';'
  }

  lemma WellFormedAppend(a: seq<string>, b: seq<string>, prefix: string)
    requires WellFormedLines(a, prefix) && WellFormedLines(b, prefix)
    ensures WellFormedLines(a + b, prefix)
  {
    forall i | 0 <= i < |a + b| ensures StartsWith((a + b)[i], "  --" + prefix) {
      if i >= |a| {
        assert (a + b)[i] == b[i - |a|];
      }
    }
  }

  /** Lines under a longer prefix are lines under a shorter one. */
  lemma WellFormedWiden(lines: seq<string>, prefix: string, ext: string)
    requires WellFormedLines(lines, prefix + ext)
    ensures WellFormedLines(lines, prefix)
  {
    forall i | 0 <= i < |lines| ensures StartsWith(lines[i], "  --" + prefix) {
      var p := "  --" + prefix;
      assert ("  --" + (prefix + ext))[..|p|] == p;
      assert lines[i][..|p|] == lines[i][..|"  --" + (prefix + ext)|][..|p|];
    }
  }

  /** Every line of the output declares a property whose name starts with
      the prefix. */
  lemma {:induction false} CssVarsWellFormed(obj: Json, prefix: string)
    ensures CssVars(obj, prefix).Ok? ==> WellFormedLines(CssVars(obj, prefix).value, prefix)
    decreases obj, 1
  {
    if !obj.JNull? {
      CssVarsFromWellFormed(obj, prefix, 0);
    }
  }

  lemma {:induction false} CssVarsFromWellFormed(obj: Json, prefix: string, k: nat)
    requires k <= |Entries(obj)|
    ensures CssVarsFrom(obj, prefix, k).Ok? ==> WellFormedLines(CssVarsFrom(obj, prefix, k).value, prefix)
    decreases obj, 0, |Entries(obj)| - k
  {
    if k < |Entries(obj)| {
      var e := Entries(obj)[k];
      var here := EntryVars(prefix, e.0, e.1);
      CssVarsFromWellFormed(obj, prefix, k + 1);
      if here.Ok? {
        if HasValue(e.1) {
          var line := VarLine(prefix, e.0, TokenValue(e.1));
          assert line[..|"  --" + prefix|] == "  --" + prefix;
        } else if IsObjectType(e.1) {
          CssVarsWellFormed(e.1, prefix + e.0 + "-");
          assert prefix + e.0 + "-" == prefix + (e.0 + "-");
          WellFormedWiden(here.value, prefix, e.0 + "-");
        }
        var rest := CssVarsFrom(obj, prefix, k + 1);
        if rest.Ok? {
          WellFormedAppend(here.value, rest.value, prefix);
        }
      }
    }
  }

  /** A token entry contributes its one line ahead of the rest. */
  lemma FlatHead(obj: Json, prefix: string, k: nat)
    requires obj.JObj? && k < |obj.entries| && HasValue(obj.entries[k].1)
    requires CssVarsFrom(obj, prefix, k + 1).Ok?
    ensures CssVarsFrom(obj, prefix, k) ==
      Ok([VarLine(prefix, obj.entries[k].0, TokenValue(obj.entries[k].1))] + CssVarsFrom(obj, prefix, k + 1).value)
  {
  }

  /** A flat group of tokens yields exactly one line per token, in entry
      order. */
  lemma {:induction false} FlatGroup(obj: Json, prefix: string, k: nat)
    requires obj.JObj? && k <= |obj.entries|
    requires forall i :: 0 <= i < |obj.entries| ==> HasValue(obj.entries[i].1)
    ensures CssVarsFrom(obj, prefix, k).Ok?
    ensures var lines := CssVarsFrom(obj, prefix, k).value;
      && |lines| == |obj.entries| - k
      && forall i :: k <= i < |obj.entries| ==>
           lines[i - k] == VarLine(prefix, obj.entries[i].0, TokenValue(obj.entries[i].1))
    decreases |obj.entries| - k
  {
    if k < |obj.entries| {
      FlatGroup(obj, prefix, k + 1);
      var e := obj.entries[k];
      var rest := CssVarsFrom(obj, prefix, k + 1).value;
      var lines := [VarLine(prefix, e.0, TokenValue(e.1))] + rest;
      FlatHead(obj, prefix, k);
      forall i | k <= i < |obj.entries|
        ensures lines[i - k] == VarLine(prefix, obj.entries[i].0, TokenValue(obj.entries[i].1))
      {
        if i > k {
          ConsIndex(VarLine(prefix, e.0, TokenValue(e.1)), rest, i - k);
        }
      }
    }
  }

  /** Strings, numbers and booleans outside a token yield no line. */
  lemma {:induction false} PrimitivesYieldNothing(obj: Json, prefix: string, k: nat)
    requires k <= |Entries(obj)|
    requires forall i :: 0 <= i < |Entries(obj)| ==> !IsObjectType(Entries(obj)[i].1)
    ensures CssVarsFrom(obj, prefix, k) == Ok([])
    decreases |Entries(obj)| - k
  {
    if k < |Entries(obj)| {
      PrimitivesYieldNothing(obj, prefix, k + 1);
      var e := Entries(obj)[k];
      assert !IsObjectType(e.1);
      assert EntryVars(prefix, e.0, e.1) == Ok([]);
      var none: seq<string> := [];
      assert none + none == none;
    }
  }

  /** An entry that is `null` makes the whole extraction throw: it is taken
      for a group, and `Object.entries(null)` throws. */
  lemma {:induction false} NullEntryThrows(obj: Json, prefix: string, k: nat, j: nat)
    requires k <= j < |Entries(obj)| && Entries(obj)[j].1 == JNull
    ensures CssVarsFrom(obj, prefix, k).Err?
    decreases j - k
  {
    if k < j {
      NullEntryThrows(obj, prefix, k + 1, j);
    }
  }
}
