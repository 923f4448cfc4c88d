/** Serialisation helpers of src/main.refactored.js: HTML escaping, the
    component-name and property-name normalisation of INSTANCE nodes, and the
    rendering of an instance's property bag as JSX attributes. */
module Markup {
  import opened Common
  import opened Scene

  // ---------------------------------------------------------- escapeHtml

  /** `escapeHtml(str)`: the five chained global replacements, `&` first. */
  function EscapeHtml(s: string): string
  {
    var s1 := ReplaceChar(s, '&', "&amp;");
    var s2 := ReplaceChar(s1, '<', "&lt;");
    var s3 := ReplaceChar(s2, '>', "&gt;");
    var s4 := ReplaceChar(s3, '"', "&quot;");
    ReplaceChar(s4, '\'', "&#39;")
  }

  /** The entity one character escapes to. */
  function EscapeChar(c: char): string
  {
    if c == '&' then "&amp;"
    else if c == '<' then "&lt;"
    else if c == '>' then "&gt;"
    else if c == '"' then "&quot;"
    else if c == '\'' then "&#39;"
    else [c]
  }

  /** Escaping character by character. */
  function EscapeEach(s: string): string
  {
    if s == [] then "" else EscapeChar(s[0]) + EscapeEach(s[1..])
  }

  lemma EscapeHtmlAppend(a: string, b: string)
    ensures EscapeHtml(a + b) == EscapeHtml(a) + EscapeHtml(b)
  {
    ReplaceCharAppend(a, b, '&', "&amp;");
    var a1, b1 := ReplaceChar(a, '&', "&amp;"), ReplaceChar(b, '&', "&amp;");
    ReplaceCharAppend(a1, b1, '<', "&lt;");
    var a2, b2 := ReplaceChar(a1, '<', "&lt;"), ReplaceChar(b1, '<', "&lt;");
    ReplaceCharAppend(a2, b2, '>', "&gt;");
    var a3, b3 := ReplaceChar(a2, '>', "&gt;"), ReplaceChar(b2, '>', "&gt;");
    ReplaceCharAppend(a3, b3, '"', "&quot;");
    var a4, b4 := ReplaceChar(a3, '"', "&quot;"), ReplaceChar(b3, '"', "&quot;");
    ReplaceCharAppend(a4, b4, '\'', "&#39;");
  }

  lemma ReplaceCharSingle(c: char, d: char, rep: string)
    ensures ReplaceChar([c], d, rep) == if c == d then rep else [c]
  {
    assert [c][1..] == [];
  }

  /** One escaping stage applied to a text that holds none of its character. */
  lemma StageAbsent(s: string, c: char, rep: string)
    requires c !in s
    ensures ReplaceChar(s, c, rep) == s
  {
    ReplaceCharAbsent(s, c, rep);
  }

  lemma EscapeHtmlPlain(c: char)
    requires !IsHtmlSpecial(c)
    ensures EscapeHtml([c]) == [c]
  {
    ReplaceCharAbsent([c], '&', "&amp;");
    ReplaceCharAbsent([c], '<', "&lt;");
    ReplaceCharAbsent([c], '>', "&gt;");
    ReplaceCharAbsent([c], '"', "&quot;");
    ReplaceCharAbsent([c], '\'', "&#39;");
  }

  lemma EscapeHtmlAmp()
    ensures EscapeHtml("&") == "&amp;"
  {
    var e := "&amp;";
    ReplaceCharSingle('&', '&', e);
    assert '<' !in e && '>' !in e && '"' !in e && '\'' !in e;
    StageAbsent(e, '<', "&lt;");
    StageAbsent(e, '>', "&gt;");
    StageAbsent(e, '"', "&quot;");
    StageAbsent(e, '\'', "&#39;");
  }

  lemma EscapeHtmlLt()
    ensures EscapeHtml("<") == "&lt;"
  {
    var e := "&lt;";
    StageAbsent("<", '&', "&amp;");
    ReplaceCharSingle('<', '<', e);
    assert '>' !in e && '"' !in e && '\'' !in e;
    StageAbsent(e, '>', "&gt;");
    StageAbsent(e, '"', "&quot;");
    StageAbsent(e, '\'', "&#39;");
  }

  lemma EscapeHtmlGt()
    ensures EscapeHtml(">") == "&gt;"
  {
    StageAbsent(">", '&', "&amp;");
    StageAbsent(">", '<', "&lt;");
    ReplaceCharSingle('>', '>', "&gt;");
    StageAbsent("&gt;", '"', "&quot;");
    StageAbsent("&gt;", '\'', "&#39;");
  }

  lemma EscapeHtmlQuot()
    ensures EscapeHtml("\"") == "&quot;"
  {
    StageAbsent("\"", '&', "&amp;");
    StageAbsent("\"", '<', "&lt;");
    StageAbsent("\"", '>', "&gt;");
    ReplaceCharSingle('"', '"', "&quot;");
    StageAbsent("&quot;", '\'', "&#39;");
  }

  lemma EscapeHtmlApos()
    ensures EscapeHtml("'") == "&#39;"
  {
    StageAbsent("'", '&', "&amp;");
    StageAbsent("'", '<', "&lt;");
    StageAbsent("'", '>', "&gt;");
    StageAbsent("'", '"', "&quot;");
    ReplaceCharSingle('\'', '\'', "&#39;");
  }

  lemma EscapeHtmlChar(c: char)
    ensures EscapeHtml([c]) == EscapeChar(c)
  {
    if c == '&' { EscapeHtmlAmp(); }
    else if c == '<' { EscapeHtmlLt(); }
    else if c == '>' { EscapeHtmlGt(); }
    else if c == '"' { EscapeHtmlQuot(); }
    else if c == '\'' { EscapeHtmlApos(); }
    else { EscapeHtmlPlain(c); }
  }

  /** The chained replacements escape each character independently: because
      `&` is replaced first, no entity produced later is escaped again. */
  lemma {:induction false} EscapeHtmlIsPerChar(s: string)
    ensures EscapeHtml(s) == EscapeEach(s)
  {
    if s == [] {
      assert EscapeHtml(s) == "";
    } else {
      assert s == [s[0]] + s[1..];
      EscapeHtmlAppend([s[0]], s[1..]);
      EscapeHtmlChar(s[0]);
      EscapeHtmlIsPerChar(s[1..]);
    }
  }

  predicate IsHtmlSpecial(c: char) { c == '&' || c == '<' || c == '>' || c == '"' || c == '\'' }

  lemma EscapeCharSafe(c: char)
    ensures '<' !in EscapeChar(c) && '>' !in EscapeChar(c)
    ensures '"' !in EscapeChar(c) && '\'' !in EscapeChar(c)
    ensures !IsHtmlSpecial(c) ==> EscapeChar(c) == [c]
  {
  }

  lemma {:induction false} EscapeEachSafe(s: string)
    ensures '<' !in EscapeEach(s) && '>' !in EscapeEach(s)
    ensures '"' !in EscapeEach(s) && '\'' !in EscapeEach(s)
    ensures (forall i :: 0 <= i < |s| ==> !IsHtmlSpecial(s[i])) ==> EscapeEach(s) == s
  {
    if s != [] {
      EscapeCharSafe(s[0]);
      EscapeEachSafe(s[1..]);
      assert EscapeEach(s) == EscapeChar(s[0]) + EscapeEach(s[1..]);
      assert s == [s[0]] + s[1..];
    }
  }

  /** The escaped text contains none of `<`, `>`, `"`, `'`, and a text
      without any of `& < > " '` is returned unchanged. */
  lemma EscapeHtmlSafe(s: string)
    ensures '<' !in EscapeHtml(s) && '>' !in EscapeHtml(s)
    ensures '"' !in EscapeHtml(s) && '\'' !in EscapeHtml(s)
    ensures (forall i :: 0 <= i < |s| ==> !IsHtmlSpecial(s[i])) ==> EscapeHtml(s) == s
  {
    EscapeHtmlIsPerChar(s);
    EscapeEachSafe(s);
  }

  /** What an HTML parser reads back: the five entities decoded. */
  function UnescapeHtml(s: string): string
    decreases |s|
  {
    if s == [] then ""
    else if StartsWith(s, "&amp;") then "&" + UnescapeHtml(s[5..])
    else if StartsWith(s, "&lt;") then "<" + UnescapeHtml(s[4..])
    else if StartsWith(s, "&gt;") then ">" + UnescapeHtml(s[4..])
    else if StartsWith(s, "&quot;") then "\"" + UnescapeHtml(s[6..])
    else if StartsWith(s, "&#39;") then "'" + UnescapeHtml(s[5..])
    else [s[0]] + UnescapeHtml(s[1..])
  }

  /** Decoding a text that starts with an entity reads that entity. */
  lemma UnescapeEntity(c: char, rest: string)
    requires IsHtmlSpecial(c)
    ensures UnescapeHtml(EscapeChar(c) + rest) == [c] + UnescapeHtml(rest)
  {
    if c == '&' { UnescapeAmp(rest); }
    else if c == '<' { UnescapeLt(rest); }
    else if c == '>' { UnescapeGt(rest); }
    else if c == '"' { UnescapeQuot(rest); }
    else { UnescapeApos(rest); }
  }

  lemma UnescapeAmp(rest: string)
    ensures UnescapeHtml("&amp;" + rest) == "&" + UnescapeHtml(rest)
  {
    var e := "&amp;" + rest;
    assert e[..5] == "&amp;" && e[5..] == rest;
  }

  lemma UnescapeLt(rest: string)
    ensures UnescapeHtml("&lt;" + rest) == "<" + UnescapeHtml(rest)
  {
    var e := "&lt;" + rest;
    assert e[1] == 'l';
    assert e[..4] == "&lt;" && e[4..] == rest;
  }

  lemma UnescapeGt(rest: string)
    ensures UnescapeHtml("&gt;" + rest) == ">" + UnescapeHtml(rest)
  {
    var e := "&gt;" + rest;
    assert e[1] == 'g';
    assert e[..4] == "&gt;" && e[4..] == rest;
  }

  lemma UnescapeQuot(rest: string)
    ensures UnescapeHtml("&quot;" + rest) == "\"" + UnescapeHtml(rest)
  {
    var e := "&quot;" + rest;
    assert e[1] == 'q';
    assert e[..6] == "&quot;" && e[6..] == rest;
  }

  lemma UnescapeApos(rest: string)
    ensures UnescapeHtml("&#39;" + rest) == "'" + UnescapeHtml(rest)
  {
    var e := "&#39;" + rest;
    assert e[1] == '#';
    assert e[..5] == "&#39;" && e[5..] == rest;
  }

  lemma UnescapeChar(c: char, rest: string)
    ensures UnescapeHtml(EscapeChar(c) + rest) == [c] + UnescapeHtml(rest)
  {
    if IsHtmlSpecial(c) {
      UnescapeEntity(c, rest);
    } else {
      var e := [c] + rest;
      assert e[0] == c && e[1..] == rest;
      assert !StartsWith(e, "&amp;") && !StartsWith(e, "&lt;") && !StartsWith(e, "&gt;");
      assert !StartsWith(e, "&quot;") && !StartsWith(e, "&#39;");
    }
  }

  /** Escaping loses nothing: decoding the entities gives the text back. */
  lemma {:induction false} UnescapeEscapeHtml(s: string)
    ensures UnescapeHtml(EscapeHtml(s)) == s
  {
    EscapeHtmlIsPerChar(s);
    UnescapeEscapeEach(s);
  }

  lemma {:induction false} UnescapeEscapeEach(s: string)
    ensures UnescapeHtml(EscapeEach(s)) == s
  {
    if s != [] {
      UnescapeChar(s[0], EscapeEach(s[1..]));
      UnescapeEscapeEach(s[1..]);
    }
  }

  // ------------------------------------------------------ component name

  /** `name.replace(/[^a-zA-Z0-9]/g, '')`: the ASCII letters and digits of
      the name, in order. */
  function AlnumOnly(s: string): (r: string)
    ensures |r| <= |s| && forall i :: 0 <= i < |r| ==> IsAlnumAscii(r[i])
  {
    if s == [] then ""
    else (if IsAlnumAscii(s[0]) then [s[0]] else "") + AlnumOnly(s[1..])
  }

  /** A name made of letters and digits only is kept as is. */
  lemma {:induction false} AlnumOnlyIdentity(s: string)
    requires forall i :: 0 <= i < |s| ==> IsAlnumAscii(s[i])
    ensures AlnumOnly(s) == s
  {
    if s != [] {
      AlnumOnlyIdentity(s[1..]);
    }
  }

  lemma {:induction false} AlnumOnlyAppend(a: string, b: string)
    ensures AlnumOnly(a + b) == AlnumOnly(a) + AlnumOnly(b)
  {
    if a == [] {
      assert a + b == b;
    } else {
      var h := if IsAlnumAscii(a[0]) then [a[0]] else "";
      assert (a + b)[0] == a[0] && (a + b)[1..] == a[1..] + b;
      assert AlnumOnly(a + b) == h + AlnumOnly(a[1..] + b);
      AlnumOnlyAppend(a[1..], b);
      assert h + (AlnumOnly(a[1..]) + AlnumOnly(b)) == (h + AlnumOnly(a[1..])) + AlnumOnly(b);
    }
  }

  /** A separator such as the ` / ` of `Card / Primary` disappears: the
      name keeps exactly the letters and digits on either side of it. */
  lemma AlnumOnlyDropsSeparator(a: string, sep: string, b: string)
    requires forall i :: 0 <= i < |sep| ==> !IsAlnumAscii(sep[i])
    ensures AlnumOnly(a + sep + b) == AlnumOnly(a) + AlnumOnly(b)
  {
    AlnumOnlyNone(sep);
    AlnumOnlyDropsEmpty(a, sep, b);
  }

  lemma AlnumOnlyDropsEmpty(a: string, sep: string, b: string)
    requires AlnumOnly(sep) == ""
    ensures AlnumOnly(a + sep + b) == AlnumOnly(a) + AlnumOnly(b)
  {
    var ab := a + sep;
    AlnumOnlyAppend(a, sep);
    assert AlnumOnly(ab) == AlnumOnly(a);
    AlnumOnlyAppend(ab, b);
  }

  lemma {:induction false} AlnumOnlyNone(s: string)
    requires forall i :: 0 <= i < |s| ==> !IsAlnumAscii(s[i])
    ensures AlnumOnly(s) == ""
  {
    if s != [] {
      AlnumOnlyNone(s[1..]);
    }
  }

  // ---------------------------------------------------- cleanPropName

  /** A character the regular expression `/(?:^\w|[A-Z]|\b\w)/g` matches at
      index `i`: a word character at the start, an upper-case letter, or a
      word character right after a non-word character. */
  predicate CaseMatch(s: string, i: nat)
    requires i < |s|
  {
    (i == 0 && IsWordChar(s[0])) || IsUpperAscii(s[i]) ||
    (IsWordChar(s[i]) && (i == 0 || !IsWordChar(s[i - 1])))
  }

  /** The replacement callback: lower case at offset 0, upper case elsewhere. */
  function CaseAt(s: string, i: nat): char
    requires i < |s|
  {
    if CaseMatch(s, i) then (if i == 0 then ToLowerAscii(s[i]) else ToUpperAscii(s[i])) else s[i]
  }

  function CaseMap(s: string): (r: string)
    ensures |r| == |s| && forall i :: 0 <= i < |s| ==> r[i] == CaseAt(s, i)
  {
    seq(|s|, i requires 0 <= i < |s| => CaseAt(s, i))
  }

  /** `s.replace(/\s+/g, '')` */
  function RemoveSpaces(s: string): (r: string)
    ensures |r| <= |s| && forall i :: 0 <= i < |r| ==> !IsSpace(r[i])
  {
    if s == [] then ""
    else RemoveSpaces(s[..|s| - 1]) + (if IsSpace(s[|s| - 1]) then "" else [s[|s| - 1]])
  }

  /** `key.split('#')[0].trim()` */
  function PropBase(key: string): string
  {
    Trim(Split(key, '#')[0])
  }

  /** `cleanPropName(key)` */
  function CleanPropName(key: string): string
  {
    RemoveSpaces(CaseMap(PropBase(key)))
  }

  /** `s` contains no whitespace and no `#`. */
  predicate Plain(s: string)
  {
    forall i :: 0 <= i < |s| ==> !IsSpace(s[i]) && s[i] != '#'
  }

  /** A word character that follows a non-word character is not lower case. */
  predicate WordStartsUpper(s: string)
  {
    forall i :: 0 < i < |s| && IsWordChar(s[i]) && !IsWordChar(s[i - 1]) ==> !IsLowerAscii(s[i])
  }

  lemma CaseMapStartsUpper(s: string)
    ensures WordStartsUpper(CaseMap(s))
    ensures CaseMap(s) != [] ==> !IsUpperAscii(CaseMap(s)[0])
    ensures forall i :: 0 <= i < |s| ==> (IsSpace(CaseMap(s)[i]) <==> IsSpace(s[i]))
    ensures forall i :: 0 <= i < |s| ==> (CaseMap(s)[i] == '#' <==> s[i] == '#')
  {
    var m := CaseMap(s);
    forall i | 0 < i < |s| && IsWordChar(m[i]) && !IsWordChar(m[i - 1])
      ensures !IsLowerAscii(m[i])
    {
      assert IsWordChar(s[i]) && !IsWordChar(s[i - 1]);
    }
  }

  /** Removing whitespace adds no character. */
  lemma {:induction false} RemoveSpacesAbsent(s: string, c: char)
    requires c !in s
    ensures c !in RemoveSpaces(s)
    decreases |s|
  {
    if s != [] {
      var p := s[..|s| - 1];
      assert forall i :: 0 <= i < |p| ==> p[i] == s[i];
      RemoveSpacesAbsent(p, c);
    }
  }

  lemma {:induction false} RemoveSpacesLast(s: string)
    requires s != [] && !IsSpace(s[|s| - 1])
    ensures RemoveSpaces(s) != [] && RemoveSpaces(s)[|RemoveSpaces(s)| - 1] == s[|s| - 1]
  {
  }

  lemma {:induction false} RemoveSpacesFirst(s: string)
    requires s != [] && !IsSpace(s[0])
    ensures RemoveSpaces(s) != [] && RemoveSpaces(s)[0] == s[0]
    decreases |s|
  {
    if |s| > 1 {
      var p := s[..|s| - 1];
      RemoveSpacesFirst(p);
    }
  }

  /** Removing whitespace keeps every word start upper case, because the
      character before a word start is either kept or is itself whitespace. */
  lemma {:induction false} RemoveSpacesStartsUpper(s: string)
    requires WordStartsUpper(s)
    ensures WordStartsUpper(RemoveSpaces(s))
    decreases |s|
  {
    if s != [] {
      var p := s[..|s| - 1];
      var c := s[|s| - 1];
      assert WordStartsUpper(p) by {
        forall i | 0 < i < |p| && IsWordChar(p[i]) && !IsWordChar(p[i - 1])
          ensures !IsLowerAscii(p[i])
        {
          assert p[i] == s[i] && p[i - 1] == s[i - 1];
        }
      }
      RemoveSpacesStartsUpper(p);
      var rp := RemoveSpaces(p);
      var r := RemoveSpaces(s);
      if !IsSpace(c) && rp != [] && IsWordChar(c) && !IsWordChar(rp[|rp| - 1]) {
        if !IsSpace(p[|p| - 1]) {
          RemoveSpacesLast(p);
        }
        assert !IsWordChar(s[|s| - 2]);
      }
      assert r == rp + (if IsSpace(c) then "" else [c]);
    }
  }

  lemma {:induction false} RemoveSpacesIdentity(s: string)
    requires forall i :: 0 <= i < |s| ==> !IsSpace(s[i])
    ensures RemoveSpaces(s) == s
    decreases |s|
  {
    if s != [] {
      var p := s[..|s| - 1];
      RemoveSpacesIdentity(p);
      assert s == p + [s[|s| - 1]];
    }
  }

  lemma TrimPlain(s: string)
    requires Plain(s)
    ensures Trim(s) == s
  {
    assert TrimStart(s) == s;
    assert TrimEnd(s) == s;
  }

  /** A cleaned name is plain and its word starts are upper case. */
  lemma CleanPropNameShape(key: string)
    ensures Plain(CleanPropName(key))
    ensures WordStartsUpper(CleanPropName(key))
    ensures CleanPropName(key) != [] ==> !IsUpperAscii(CleanPropName(key)[0])
  {
    var b := PropBase(key);
    var m := CaseMap(b);
    var r := RemoveSpaces(m);
    CaseMapStartsUpper(b);
    RemoveSpacesStartsUpper(m);
    assert '#' !in Split(key, '#')[0];
    assert '#' !in b;
    assert '#' !in m;
    RemoveSpacesAbsent(m, '#');
    if r != [] {
      assert b != [];
      RemoveSpacesFirst(m);
    }
  }

  /** Cleaning an already cleaned name changes nothing. */
  lemma CleanPropNameIdempotent(key: string)
    ensures CleanPropName(CleanPropName(key)) == CleanPropName(key)
  {
    var r := CleanPropName(key);
    CleanPropNameShape(key);
    assert '#' !in r;
    assert Split(r, '#')[0] == r;
    TrimPlain(r);
    assert CaseMap(r) == r by {
      forall i | 0 <= i < |r| ensures CaseAt(r, i) == r[i] {
        if i > 0 && CaseMatch(r, i) && !IsUpperAscii(r[i]) {
          assert !IsLowerAscii(r[i]);
        }
      }
    }
    RemoveSpacesIdentity(r);
  }

  /** Everything from the first `#` on (the instance-property id Figma
      appends, as in `Label#123`) is ignored. */
  lemma CleanPropNameDropsId(base: string, id: string)
    requires '#' !in base
    ensures CleanPropName(base + "#" + id) == CleanPropName(base)
  {
    var key := base + "#" + id;
    assert key[|base|] == '#';
    var i := IndexOf(key, '#');
    assert key[..i] == base;
    SplitHead(key, '#');
    SplitHead(base, '#');
  }

  /** `s[i]` is a word character for every index. */
  predicate AllWord(s: string)
  {
    forall i :: 0 <= i < |s| ==> IsWordChar(s[i])
  }

  lemma {:induction false} RemoveSpacesAppend(a: string, b: string)
    ensures RemoveSpaces(a + b) == RemoveSpaces(a) + RemoveSpaces(b)
    decreases |b|
  {
    if b == [] {
      assert a + b == a;
    } else {
      var b' := b[..|b| - 1];
      assert (a + b)[..|a + b| - 1] == a + b';
      RemoveSpacesAppend(a, b');
    }
  }

  /** A key without `#` and without surrounding whitespace is its own base. */
  lemma PropBaseSelf(s: string)
    requires '#' !in s
    requires s == [] || (!IsSpace(s[0]) && !IsSpace(s[|s| - 1]))
    ensures PropBase(s) == s
  {
    SplitHead(s, '#');
    assert TrimStart(s) == s;
    assert TrimEnd(s) == s;
  }

  lemma CaseMapWord(w: string)
    requires w != [] && AllWord(w)
    ensures CaseMap(w) == [ToLowerAscii(w[0])] + w[1..]
  {
    var m := CaseMap(w);
    forall i | 0 < i < |w| ensures m[i] == w[i] {
      assert IsWordChar(w[i - 1]);
    }
  }

  lemma CaseMapTwoWords(a: string, b: string)
    requires a != [] && AllWord(a) && b != [] && AllWord(b)
    ensures CaseMap(a + " " + b) == ([ToLowerAscii(a[0])] + a[1..]) + " " + ([ToUpperAscii(b[0])] + b[1..])
  {
    var k := a + " " + b;
    var m := CaseMap(k);
    var r := ([ToLowerAscii(a[0])] + a[1..]) + " " + ([ToUpperAscii(b[0])] + b[1..]);
    forall i | 0 <= i < |k| ensures m[i] == r[i] {
      if i == 0 {
      } else if i < |a| {
        assert k[i] == a[i] && k[i - 1] == a[i - 1];
      } else if i == |a| {
      } else if i == |a| + 1 {
        assert k[i] == b[0];
      } else {
        assert k[i] == b[i - |a| - 1] && k[i - 1] == b[i - |a| - 2];
      }
    }
  }

  /** A single word loses the case of its first letter only, as `Label`
      becomes `label`. */
  lemma CleanPropNameWord(w: string)
    requires w != [] && AllWord(w)
    ensures CleanPropName(w) == [ToLowerAscii(w[0])] + w[1..]
  {
    assert '#' !in w by {
      assert forall i :: 0 <= i < |w| ==> w[i] != '#';
    }
    PropBaseSelf(w);
    CaseMapWord(w);
    var m := CaseMap(w);
    assert forall i :: 0 <= i < |m| ==> !IsSpace(m[i]);
    RemoveSpacesIdentity(m);
  }

  /** Two words separated by a space become one camel-case name, as
      `Show left icon` becomes `showLeftIcon`. */
  lemma CleanPropNameTwoWords(a: string, b: string)
    requires a != [] && AllWord(a) && b != [] && AllWord(b)
    ensures CleanPropName(a + " " + b) == ([ToLowerAscii(a[0])] + a[1..]) + ([ToUpperAscii(b[0])] + b[1..])
  {
    var k := a + " " + b;
    assert '#' !in k by {
      assert forall i :: 0 <= i < |k| ==> k[i] != '#';
    }
    assert k[0] == a[0] && k[|k| - 1] == b[|b| - 1];
    PropBaseSelf(k);
    CaseMapTwoWords(a, b);
    var a' := [ToLowerAscii(a[0])] + a[1..];
    var b' := [ToUpperAscii(b[0])] + b[1..];
    assert forall i :: 0 <= i < |a'| ==> !IsSpace(a'[i]);
    assert forall i :: 0 <= i < |b'| ==> !IsSpace(b'[i]);
    RemoveSpacesJoin(a', b');
  }

  /** Two whitespace-free texts around one space are joined. */
  lemma RemoveSpacesJoin(x: string, y: string)
    requires forall i :: 0 <= i < |x| ==> !IsSpace(x[i])
    requires forall i :: 0 <= i < |y| ==> !IsSpace(y[i])
    ensures RemoveSpaces(x + " " + y) == x + y
  {
    RemoveSpacesIdentity(x);
    RemoveSpacesIdentity(y);
    var xs := x + " ";
    assert xs[..|x|] == x;
    assert RemoveSpaces(xs) == x;
    RemoveSpacesAppend(xs, y);
  }

  // ------------------------------------------------ figmaPropsToJsxProps

  /** `String(v.value)`, equally `${v.value}`. */
  function PropText(v: PropValue): string
  {
    match v
    case PStr(s) => s
    case PBool(b) => if b then "true" else "false"
    case PNum(n) => IntToString(n)
  }

  /** One attribute as src/main.refactored.js:54-57 writes it. The TEXT
      branch replaces `"` by the JavaScript string `'\"'`, which is the
      one-character string `"`. */
  function PropAttrAsWritten(entry: (string, ComponentProp)): string
  {
    var (k, v) := entry;
    var name := CleanPropName(k);
    if v.propType == "TEXT" then name + "=\"" + ReplaceChar(PropText(v.value), '"', "\"") + "\""
    else if v.propType == "BOOLEAN" || v.propType == "NUMBER" then name + "={" + PropText(v.value) + "}"
    else name + "=\"" + PropText(v.value) + "\""
  }

  /** `figmaPropsToJsxProps(props)` as src/main.refactored.js:52-59 computes
      it: one attribute per entry, in entry order, separated by single
      spaces; `''` when there are none. */
  function FigmaPropsToJsxPropsAsWritten(props: seq<(string, ComponentProp)>): string
  {
    Join(seq(|props|, i requires 0 <= i < |props| => PropAttrAsWritten(props[i])), " ")
  }

  /** Any type other than TEXT, BOOLEAN and NUMBER is double-quoted as is. */
  lemma PropAttrQuotedAsWritten(t: string, k: string, v: PropValue)
    requires t != "TEXT" && t != "BOOLEAN" && t != "NUMBER"
    ensures PropAttrAsWritten((k, ComponentProp(t, v))) == CleanPropName(k) + "=\"" + PropText(v) + "\""
  {
  }

  /** The TEXT "escape" as written is the identity, so a TEXT value is
      emitted verbatim, exactly like a value of an unknown type. */
  lemma TextEscapeAsWrittenIsIdentity(k: string, v: PropValue, t: string)
    requires t != "TEXT" && t != "BOOLEAN" && t != "NUMBER"
    ensures PropAttrAsWritten((k, ComponentProp("TEXT", v))) ==
            CleanPropName(k) + "=\"" + PropText(v) + "\""
    ensures PropAttrAsWritten((k, ComponentProp("TEXT", v))) ==
            PropAttrAsWritten((k, ComponentProp(t, v)))
  {
    ReplaceCharSelf(PropText(v), '"');
    PropAttrQuotedAsWritten(t, k, v);
  }

  /** A TEXT value holding a double quote, such as `Say "hi"`, puts that
      quote inside the attribute as written, before the closing one: the
      attribute value ends early and the rest of the text leaks into the tag. */
  lemma QuoteEndsAttributeAsWritten(k: string, s: string, i: nat)
    requires i < |s| && s[i] == '"'
    ensures var attr := PropAttrAsWritten((k, ComponentProp("TEXT", PStr(s))));
      var n := |CleanPropName(k)|;
      n + 2 + i < |attr| - 1 && attr[n + 1] == '"' && attr[n + 2 + i] == '"' && attr[|attr| - 1] == '"'
  {
    ReplaceCharSelf(s, '"');
  }

  /** One attribute: a TEXT value is double-quoted with its double quotes
      written as `&quot;`, a BOOLEAN or NUMBER becomes the expression
      `{value}`, and any other type is double-quoted as is. */
  function PropAttr(entry: (string, ComponentProp)): string
  {
    var (k, v) := entry;
    var name := CleanPropName(k);
    if v.propType == "TEXT" then name + "=\"" + ReplaceChar(PropText(v.value), '"', "&quot;") + "\""
    else if v.propType == "BOOLEAN" || v.propType == "NUMBER" then name + "={" + PropText(v.value) + "}"
    else name + "=\"" + PropText(v.value) + "\""
  }

  /** With the escape in place a TEXT attribute is `name="inner"` where the
      inner text has no double quote, so the value cannot end early; and on
      values without a double quote the result is the one the code produces. */
  lemma PropAttrTextQuoted(k: string, v: PropValue)
    ensures exists inner ::
      PropAttr((k, ComponentProp("TEXT", v))) == CleanPropName(k) + "=\"" + inner + "\"" && '"' !in inner
    ensures '"' !in PropText(v) ==>
      PropAttr((k, ComponentProp("TEXT", v))) == PropAttrAsWritten((k, ComponentProp("TEXT", v)))
  {
    ReplaceCharRemoves(PropText(v), '"', "&quot;");
    if '"' !in PropText(v) {
      ReplaceCharAbsent(PropText(v), '"', "&quot;");
      ReplaceCharSelf(PropText(v), '"');
    }
  }

  /** BOOLEAN and NUMBER properties become unquoted JSX expressions. */
  lemma PropAttrExpression(k: string, t: string, v: PropValue)
    requires t == "BOOLEAN" || t == "NUMBER"
    ensures PropAttr((k, ComponentProp(t, v))) == CleanPropName(k) + "={" + PropText(v) + "}"
    ensures PropAttr((k, ComponentProp(t, v)))[|CleanPropName(k)| + 1] == '{'
  {
  }

  /** The attribute list with the corrected TEXT escape. */
  function FigmaPropsToJsxProps(props: seq<(string, ComponentProp)>): string
  {
    Join(seq(|props|, i requires 0 <= i < |props| => PropAttr(props[i])), " ")
  }

  /** The attribute list starts with the first property and continues with
      the rest after one space, both as the code writes it and with the
      corrected TEXT escape. */
  lemma FigmaPropsToJsxPropsCons(props: seq<(string, ComponentProp)>)
    ensures props == [] ==> FigmaPropsToJsxPropsAsWritten(props) == "" && FigmaPropsToJsxProps(props) == ""
    ensures |props| == 1 ==>
      && FigmaPropsToJsxPropsAsWritten(props) == PropAttrAsWritten(props[0])
      && FigmaPropsToJsxProps(props) == PropAttr(props[0])
    ensures |props| > 1 ==>
      && FigmaPropsToJsxPropsAsWritten(props) ==
           PropAttrAsWritten(props[0]) + " " + FigmaPropsToJsxPropsAsWritten(props[1..])
      && FigmaPropsToJsxProps(props) == PropAttr(props[0]) + " " + FigmaPropsToJsxProps(props[1..])
  {
    if |props| > 1 {
      var written := seq(|props|, i requires 0 <= i < |props| => PropAttrAsWritten(props[i]));
      assert written[1..] ==
        seq(|props[1..]|, i requires 0 <= i < |props[1..]| => PropAttrAsWritten(props[1..][i]));
      var attrs := seq(|props|, i requires 0 <= i < |props| => PropAttr(props[i]));
      assert attrs[1..] == seq(|props[1..]|, i requires 0 <= i < |props[1..]| => PropAttr(props[1..][i]));
    }
  }

  /** When no property value holds a double quote, the corrected serialiser
      writes exactly what the code writes. */
  lemma FigmaPropsAgreeWithoutQuotes(props: seq<(string, ComponentProp)>)
    requires forall i :: 0 <= i < |props| ==> '"' !in PropText(props[i].1.value)
    ensures FigmaPropsToJsxProps(props) == FigmaPropsToJsxPropsAsWritten(props)
  {
    var attrs := seq(|props|, i requires 0 <= i < |props| => PropAttr(props[i]));
    var written := seq(|props|, i requires 0 <= i < |props| => PropAttrAsWritten(props[i]));
    forall i | 0 <= i < |props| ensures attrs[i] == written[i] {
      PropAttrTextQuoted(props[i].0, props[i].1.value);
      assert props[i] == (props[i].0, props[i].1);
    }
    assert attrs == written;
  }
}
