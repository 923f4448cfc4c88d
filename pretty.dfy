/** `prettyPrintHtml` of src/main.js: a line break is put between every `><`,
    and each line is indented by one tab of four spaces per open level. A
    line starting with `</` closes a level before it is printed; a line
    matching `/^<[^!][^>]*[^/]>/` that holds no `</` opens one after it.
    `Pretty` is the specification, `Layout` the text the loop builds, and
    `LayoutByDepth` the same text computed from a count of open levels. */
module PrettyPrint {
  import opened Common

  const Tab := "    "

  /** `indent.slice(0, -tab.length)`: one tab less, and never below none. */
  function Dedent(indent: string): string
  {
    if |indent| >= |Tab| then indent[..|indent| - |Tab|] else ""
  }

  /** `/^<\//` */
  predicate ClosesTag(line: string) { StartsWith(line, "</") }

  /** The regular expression `^<[^!][^>]*[^/]>` matches with its `[^/]` at
      index `k`. */
  predicate OpensTagAt(line: string, k: nat)
  {
    2 <= k && k + 1 < |line| && line[0] == '<' && line[1] != '!' &&
    (forall j :: 2 <= j < k ==> line[j] != '>') && line[k] != '/' && line[k + 1] == '>'
  }

  /** `/^<[^!][^>]*[^/]>/` */
  predicate OpensTag(line: string)
  {
    exists k: nat | k < |line| :: OpensTagAt(line, k)
  }

  /** `html.replace(/></g, '>\n<').split('\n')` */
  function Lines(html: string): seq<string>
  {
    Split(ReplaceAllStr(html, "><", ">\n<"), '\n')
  }

  /** The indentation a line is printed with. */
  function LineIndent(indent: string, line: string): string
  {
    if ClosesTag(line) then Dedent(indent) else indent
  }

  /** The indentation after a line. */
  function NextIndent(indent: string, line: string): string
  {
    var i := LineIndent(indent, line);
    if OpensTag(line) && !Contains(line, "</") then i + Tab else i
  }

  /** What the loop appends to `result` for `lines`, starting at `indent`. */
  function Layout(lines: seq<string>, indent: string): string
  {
    if lines == [] then ""
    else LineIndent(indent, lines[0]) + lines[0] + "\n" + Layout(lines[1..], NextIndent(indent, lines[0]))
  }

  /** `prettyPrintHtml(html)`: the laid-out lines, trimmed. */
  function Pretty(html: string): (r: string)
    ensures r == [] || (!IsSpace(r[0]) && !IsSpace(r[|r| - 1]))
  {
    Trim(Layout(Lines(html), ""))
  }

  /** `prettyPrintHtml(html)` */
  method PrettyPrintHtml(html: string) returns (r: string)
    ensures r == Pretty(html)
  {
    var lines := Split(ReplaceAllStr(html, "><", ">\n<"), '\n');
    var result := LayoutLines(lines);
    r := Trim(result);
  }

  /** The `forEach` over the lines, appending each indented line to `result`. */
  method LayoutLines(lines: seq<string>) returns (result: string)
    ensures result == Layout(lines, "")
  {
    result := "";
    var indent := "";
    var i := 0;
    while i < |lines|
      invariant 0 <= i <= |lines|
      invariant result + Layout(lines[i..], indent) == Layout(lines, "")
    {
      var line := lines[i];
      LayoutStep(lines, i, indent);
      var printed, next := IndentLine(indent, line);
      var piece := printed + line + "\n";
      ConcatAssoc(result, piece, Layout(lines[i + 1..], next));
      result := result + piece;
      indent := next;
      i := i + 1;
    }
    assert lines[i..] == [];
  }

  /** The indentation of one line and the one after it: a closing line
      dedents first, an opening line indents after. */
  method IndentLine(indent: string, line: string) returns (printed: string, next: string)
    ensures printed == LineIndent(indent, line) && next == NextIndent(indent, line)
  {
    printed := indent;
    if StartsWith(line, "</") {
      printed := Dedent(printed);
    }
    next := printed;
    if OpensTag(line) && !Contains(line, "</") {
      next := next + Tab;
    }
  }

  /** One step of the loop: the first remaining line and the rest. */
  lemma LayoutStep(lines: seq<string>, i: nat, indent: string)
    requires i < |lines|
    ensures Layout(lines[i..], indent) ==
      LineIndent(indent, lines[i]) + lines[i] + "\n" + Layout(lines[i + 1..], NextIndent(indent, lines[i]))
  {
    assert lines[i..][0] == lines[i] && lines[i..][1..] == lines[i + 1..];
  }

  // ------------------------------------------------------------ depth

  /** The open levels before a line is printed, from `d` levels before it. */
  function DepthBefore(d: nat, line: string): nat
  {
    if ClosesTag(line) then (if d > 0 then d - 1 else 0) else d
  }

  /** The open levels after a line. */
  function DepthAfter(d: nat, line: string): nat
  {
    var b := DepthBefore(d, line);
    if OpensTag(line) && !Contains(line, "</") then b + 1 else b
  }

  /** Each line indented by four spaces per open level. */
  function LayoutByDepth(lines: seq<string>, d: nat): string
  {
    if lines == [] then ""
    else Spaces(4 * DepthBefore(d, lines[0])) + lines[0] + "\n" + LayoutByDepth(lines[1..], DepthAfter(d, lines[0]))
  }

  lemma DedentSpaces(d: nat)
    ensures Dedent(Spaces(4 * d)) == Spaces(if d > 0 then 4 * (d - 1) else 0)
  {
  }

  lemma TabSpaces(d: nat)
    ensures Spaces(4 * d) + Tab == Spaces(4 * (d + 1))
  {
  }

  /** The indentation is always a whole number of four-space tabs, one per
      open level, and never drops below none. */
  lemma {:induction false} LayoutIsByDepth(lines: seq<string>, d: nat)
    ensures Layout(lines, Spaces(4 * d)) == LayoutByDepth(lines, d)
  {
    if lines != [] {
      var line := lines[0];
      DedentSpaces(d);
      assert LineIndent(Spaces(4 * d), line) == Spaces(4 * DepthBefore(d, line));
      TabSpaces(DepthBefore(d, line));
      assert NextIndent(Spaces(4 * d), line) == Spaces(4 * DepthAfter(d, line));
      LayoutIsByDepth(lines[1..], DepthAfter(d, line));
    }
  }

  /** An opening line followed by a closing one leaves the two at the same
      indentation and the level where it was. */
  lemma OpenThenClose(open: string, close: string, rest: seq<string>, d: nat)
    requires OpensTag(open) && !Contains(open, "</") && ClosesTag(close)
    ensures LayoutByDepth([open, close] + rest, d) ==
      Spaces(4 * DepthBefore(d, open)) + open + "\n" + (Spaces(4 * DepthBefore(d, open)) + close + "\n" +
      LayoutByDepth(rest, DepthBefore(d, open)))
  {
    var lines := [open, close] + rest;
    assert lines[0] == open && lines[1..] == [close] + rest;
    assert ([close] + rest)[0] == close && ([close] + rest)[1..] == rest;
    assert OccursAt(close, "</", 0);
  }

  // ------------------------------------------------------------ the match

  /** The expression needs two characters between `<` and `>`: a line
      starting with a one-character tag such as `<p>`, not followed by a
      second `>`, does not match and leaves the indentation as it is
      printed. A line starting with a longer tag name that is not a comment
      does match, and it opens a level when it holds no `</`. */
  lemma TagNameLength(indent: string, c: char, c2: char, rest: string)
    requires c != '!'
    ensures rest == [] || rest[0] != '>' ==>
      var short := "<" + [c] + ">" + rest;
      !OpensTag(short) && NextIndent(indent, short) == LineIndent(indent, short)
    ensures c2 != '/' && c2 != '>' ==> OpensTag("<" + [c, c2] + ">" + rest)
    ensures c2 != '/' && c2 != '>' && !Contains("<" + [c, c2] + ">" + rest, "</") ==>
      NextIndent(indent, "<" + [c, c2] + ">" + rest) == indent + Tab
  {
    var short := "<" + [c] + ">" + rest;
    if rest == [] || rest[0] != '>' {
      forall k: nat | k < |short| ensures !OpensTagAt(short, k) {
        if 2 < k {
          assert short[2] == '>';
        }
      }
    }
    if c2 != '/' && c2 != '>' {
      var long := "<" + [c, c2] + ">" + rest;
      assert OpensTagAt(long, 2);
      if !Contains(long, "</") {
        assert OccursAt(long, "</", 0) ==> Contains(long, "</");
        assert !ClosesTag(long);
      }
    }
  }

  /** A line whose only `>` is its last character, right after a `/`, as in
      a self-closing `<Comp />`, does not match, so it opens no level. */
  lemma SelfClosingDoesNotOpen(indent: string, line: string)
    requires |line| >= 2 && line[|line| - 2] == '/' && line[|line| - 1] == '>'
    requires forall j :: 0 <= j < |line| - 1 ==> line[j] != '>'
    ensures !OpensTag(line)
    ensures NextIndent(indent, line) == LineIndent(indent, line)
  {
  }

  /** An element opened and closed on one line, such as `<li>x</li>`,
      matches the expression but, holding `</`, opens no level. */
  lemma OneLineElementStays(indent: string)
    ensures OpensTag("<li>x</li>")
    ensures NextIndent(indent, "<li>x</li>") == indent
  {
    var line := "<li>x</li>";
    assert OpensTagAt(line, 2);
    assert OccursAt(line, "</", 5);
    assert !StartsWith(line, "</");
  }

  // ------------------------------------------------------------ the lines

  /** No `>` is directly followed by `<`. */
  predicate NoTagJoin(s: string)
  {
    forall i :: 0 < i < |s| ==> !(s[i - 1] == '>' && s[i] == '<')
  }

  /** The replacement keeps the first character. */
  lemma ReplaceJoinsFirst(s: string)
    requires |s| > 0
    ensures |ReplaceAllStr(s, "><", ">\n<")| > 0 && ReplaceAllStr(s, "><", ">\n<")[0] == s[0]
  {
  }

  /** After the replacement no two tags are joined. */
  lemma {:induction false} ReplaceSplitsTags(s: string)
    ensures NoTagJoin(ReplaceAllStr(s, "><", ">\n<"))
    decreases |s|
  {
    var pat, rep := "><", ">\n<";
    if |s| >= |pat| {
      if s[..2] == pat {
        var t := ReplaceAllStr(s[2..], pat, rep);
        ReplaceSplitsTags(s[2..]);
        var r := rep + t;
        forall i | 0 < i < |r| ensures !(r[i - 1] == '>' && r[i] == '<') {
          if i > 3 {
            assert r[i - 1] == t[i - 4] && r[i] == t[i - 3];
          }
        }
      } else {
        var t := ReplaceAllStr(s[1..], pat, rep);
        ReplaceSplitsTags(s[1..]);
        ReplaceJoinsFirst(s[1..]);
        var r := [s[0]] + t;
        forall i | 0 < i < |r| ensures !(r[i - 1] == '>' && r[i] == '<') {
          if i > 1 {
            assert r[i - 1] == t[i - 2] && r[i] == t[i - 1];
          } else {
            assert s[..2] == [s[0], s[1]];
          }
        }
      }
    }
  }

  /** Splitting keeps every piece free of joined tags. */
  lemma {:induction false} SplitKeepsNoTagJoin(s: string, c: char)
    requires NoTagJoin(s)
    ensures forall k :: 0 <= k < |Split(s, c)| ==> NoTagJoin(Split(s, c)[k])
    decreases |s|
  {
    if c in s {
      var i := IndexOf(s, c);
      var head, tail := s[..i], s[i + 1..];
      assert NoTagJoin(head) by {
        forall j | 0 < j < |head| ensures !(head[j - 1] == '>' && head[j] == '<') {
          assert head[j - 1] == s[j - 1] && head[j] == s[j];
        }
      }
      assert NoTagJoin(tail) by {
        forall j | 0 < j < |tail| ensures !(tail[j - 1] == '>' && tail[j] == '<') {
          assert tail[j - 1] == s[i + j] && tail[j] == s[i + 1 + j];
        }
      }
      SplitKeepsNoTagJoin(tail, c);
      var parts := Split(s, c);
      assert parts == [head] + Split(tail, c);
      forall k | 0 <= k < |parts| ensures NoTagJoin(parts[k]) {
        if k > 0 {
          assert parts[k] == Split(tail, c)[k - 1];
        }
      }
    }
  }

  /** The lines hold no line break and no `><`, and joined with line breaks
      they give the markup with a break between every two joined tags. */
  lemma LinesShape(html: string)
    ensures forall k :: 0 <= k < |Lines(html)| ==> '\n' !in Lines(html)[k] && NoTagJoin(Lines(html)[k])
    ensures Join(Lines(html), "\n") == ReplaceAllStr(html, "><", ">\n<")
  {
    var s := ReplaceAllStr(html, "><", ">\n<");
    ReplaceSplitsTags(html);
    SplitKeepsNoTagJoin(s, '\n');
    JoinSplit(s, '\n');
  }
}
