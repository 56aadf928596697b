/** The fenced metadata block at the head of a command template: cutting it off, and putting one back on. */
module Frontmatter {
  import opened Text
  import opened Wrappers

  datatype Field = Field(key: string, value: string)

  /** A mapping in the order its keys were written. */
  type Fields = seq<Field>

  /** YAML, as far as templates need it: a text read as a mapping, and a mapping printed without its trailing space. */
  datatype Yaml = Yaml(parse: string -> Fields, dump: Fields -> string)

  const FENCE: string := "---"

  predicate IsFence(line: string) {
    StripEnding(line) == FENCE
  }

  // ---- splitting -----------------------------------------------------------------------------

  /** The first fence at or after line `from`, or the number of lines. */
  function NextFence(lines: seq<string>, from: nat): (i: nat)
    requires from <= |lines|
    ensures from <= i <= |lines|
    ensures i < |lines| ==> IsFence(lines[i])
    ensures forall j :: from <= j < i ==> !IsFence(lines[j])
    decreases |lines| - from
  {
    if from == |lines| || IsFence(lines[from]) then from else NextFence(lines, from + 1)
  }

  datatype Parts = Parts(block: Option<string>, body: string)

  /** The block with its fences, and what follows it; a text that does not open with a closed block is all body. */
  function Split(text: string): Parts {
    var lines := SplitLines(text);
    if lines == [] || !IsFence(lines[0]) then Parts(None, text)
    else
      var end := NextFence(lines, 1);
      if end == |lines| then Parts(None, text)
      else Parts(Some(StripEnding(Concat(lines[..end + 1]))), Concat(lines[end + 1..]))
  }

  /** Lines that a reader takes to open with a closed block. */
  ghost predicate Fenced(lines: seq<string>) {
    lines != [] && IsFence(lines[0]) && exists j :: 1 <= j < |lines| && IsFence(lines[j])
  }

  lemma FencedIff(text: string)
    ensures Split(text).block.Some? <==> Fenced(SplitLines(text))
    ensures Split(text).block.None? ==> Split(text) == Parts(None, text)
  {
    hide IsFence, SplitLines, Concat, StripEnding;
  }

  /** A text that does not open with a dash has no block. */
  predicate Undashed(text: string) {
    text == "" || text[0] != '-'
  }

  lemma FenceIsDashed(line: string)
    ensures IsFence(line) ==> line != "" && line[0] == '-'
  {
    assert StripEnding(line) <= line && FENCE[0] == '-';
  }

  lemma UndashedIsPlain(text: string)
    requires Undashed(text)
    ensures Split(text) == Parts(None, text)
  {
    if text != "" {
      var line := SplitLines(text)[0];
      assert line[0] == text[0];
      FenceIsDashed(line);
    }
  }

  /** Two texts with an empty line between them, line by line. */
  lemma LinesOfTwo(a: string, b: string)
    ensures SplitLines(a + "\n\n" + b) == SplitLines(a + "\n") + ["\n"] + SplitLines(b)
  {
    assert SplitLines("\n") == ["\n"] by { OneLine(""); assert "" + "\n" == "\n"; }
    hide SplitLines;
    LinesOfMore(a + "\n", "\n" + b);
    LinesOfMore("\n", b);
    assert a + "\n\n" + b == (a + "\n") + ("\n" + b);
  }

  method SplitFrontmatter(text: string) returns (parts: Parts)
    ensures parts == Split(text)
  {
    var lines := SplitLines(text);
    if lines == [] || !IsFence(lines[0]) {
      return Parts(None, text);
    }
    var end := -1;
    var i := 1;
    while i < |lines| && end == -1
      invariant 1 <= i <= |lines|
      invariant if end == -1 then NextFence(lines, 1) == NextFence(lines, i) else 0 <= end == NextFence(lines, 1) < |lines|
    {
      if IsFence(lines[i]) {
        end := i;
      }
      i := i + 1;
    }
    if end == -1 {
      return Parts(None, text);
    }
    return Parts(Some(StripEnding(Concat(lines[..end + 1]))), Concat(lines[end + 1..]));
  }

  /** Only line endings: what may stand between a block and its body. */
  predicate IsEnding(s: string) {
    forall i :: 0 <= i < |s| ==> s[i] == '\r' || s[i] == '\n'
  }

  lemma StripLosesEndingOnly(s: string)
    ensures exists ending :: IsEnding(ending) && s == StripEnding(s) + ending
  {
    assert s == StripEnding(s) + s[|StripEnding(s)|..];
  }

  lemma CutLines(text: string, lines: seq<string>, at: nat)
    requires lines == SplitLines(text) && at <= |lines|
    ensures text == Concat(lines[..at]) + Concat(lines[at..])
  {
    LinesMakeTheText(text);
    assert lines == lines[..at] + lines[at..];
    ConcatAppend(lines[..at], lines[at..]);
  }

  /** Only the line ending of the closing fence is dropped. */
  lemma SplitIsLossless(text: string)
    ensures var parts := Split(text);
            match parts.block
            case None => parts.body == text
            case Some(block) => FENCE <= block && exists ending :: IsEnding(ending) && text == block + ending + parts.body
  {
    var lines := SplitLines(text);
    if Split(text).block.Some? {
      hide SplitLines, Concat, StripEnding, NextFence;
      var end := NextFence(lines, 1);
      CutLines(text, lines, end + 1);
      StripLosesEndingOnly(Concat(lines[..end + 1]));
      assert lines[..end + 1] == [lines[0]] + lines[1..end + 1];
      FenceOpens(lines[0], lines[1..end + 1]);
    }
  }

  /** A block starts with its fence even after stripping. */
  lemma FenceOpens(first: string, rest: seq<string>)
    requires IsFence(first)
    ensures FENCE <= StripEnding(Concat([first] + rest))
  {
    assert ([first] + rest)[1..] == rest;
    StrippedKeepsPrefix(FENCE, Concat([first] + rest));
  }

  lemma {:induction false} StrippedKeepsPrefix(p: string, s: string)
    requires p <= s && (p != "" ==> p[|p| - 1] != '\r' && p[|p| - 1] != '\n')
    ensures p <= StripEnding(s)
  {
    if s != "" && (s[|s| - 1] == '\r' || s[|s| - 1] == '\n') && |s| > |p| {
      StrippedKeepsPrefix(p, s[..|s| - 1]);
    }
  }

  // ---- attaching -----------------------------------------------------------------------------

  /** A printed mapping has no line that is a bare fence. */
  ghost predicate Printed(dump: string) {
    forall l :: l in SplitLines(dump + "\n") ==> !IsFence(l)
  }

  ghost predicate PrintsMappings(yaml: Yaml) {
    forall fields :: fields != [] ==> Printed(yaml.dump(fields))
  }

  function Block(dump: string): string {
    "---\n" + dump + "\n---"
  }

  lemma StripAfterFence(head: string)
    ensures StripEnding(head + "---\n") == head + "---"
  {
    assert (head + "---\n")[..|head| + 3] == head + "---";
  }

  lemma {:induction false} FirstFenceIs(lines: seq<string>, from: nat, i: nat)
    requires from <= i < |lines| && IsFence(lines[i]) && forall j :: from <= j < i ==> !IsFence(lines[j])
    ensures NextFence(lines, from) == i
    decreases i - from
  {
    if from < i { FirstFenceIs(lines, from + 1, i); }
  }

  lemma FenceLine()
    ensures IsFence("---\n")
  {
    StripAfterFence("");
    assert "" + "---\n" == "---\n" && "" + "---" == FENCE;
  }

  /** Lines that open with a fence, hold none and close with one. */
  lemma SplitOfLines(text: string, mid: seq<string>, tail: seq<string>)
    requires SplitLines(text) == ["---\n"] + mid + ["---\n"] + tail
    requires forall l :: l in mid ==> !IsFence(l)
    ensures Split(text) == Parts(Some(StripEnding(Concat(["---\n"] + mid + ["---\n"]))), Concat(tail))
  {
    var lines := ["---\n"] + mid + ["---\n"] + tail;
    FenceLine();
    hide IsFence, SplitLines, Concat, StripEnding;
    forall j | 1 <= j < |mid| + 1 ensures !IsFence(lines[j]) {
      assert lines[j] == mid[j - 1];
    }
    FirstFenceIs(lines, 1, |mid| + 1);
    assert lines[..|mid| + 2] == ["---\n"] + mid + ["---\n"] && lines[|mid| + 2..] == tail;
  }

  lemma BlockOfLines(dump: string, mid: seq<string>)
    requires Concat(mid) == dump + "\n"
    ensures StripEnding(Concat(["---\n"] + mid + ["---\n"])) == Block(dump)
  {
    ConcatAppend(["---\n"] + mid, ["---\n"]);
    ConcatAppend(["---\n"], mid);
    assert Concat(["---\n"]) == "---\n" by { assert ["---\n"][1..] == []; }
    StripAfterFence("---\n" + (dump + "\n"));
    assert "---\n" + (dump + "\n") + "---" == Block(dump);
  }

  /** Splitting a text that was put together from a printed mapping and a body recovers both. */
  lemma SplitOfAttached(dump: string, body: string)
    requires Printed(dump)
    ensures Split(Block(dump) + "\n\n" + body) == Parts(Some(Block(dump)), "\n" + body)
  {
    var text := Block(dump) + "\n\n" + body;
    LineByLine(dump, body);
    assert text == "---\n" + (dump + "\n" + ("---\n" + ("\n" + body)));
    hide Split, SplitLines, Concat, StripEnding, Block;
    SplitOfLines(text, SplitLines(dump + "\n"), SplitLines("\n" + body));
    LinesMakeTheText(dump + "\n");
    LinesMakeTheText("\n" + body);
    BlockOfLines(dump, SplitLines(dump + "\n"));
  }

  lemma LineByLine(dump: string, body: string)
    ensures SplitLines("---\n" + (dump + "\n" + ("---\n" + ("\n" + body))))
         == ["---\n"] + SplitLines(dump + "\n") + ["---\n"] + SplitLines("\n" + body)
  {
    assert SplitLines("---\n") == ["---\n"] by { OneLine("---"); assert "---" + "\n" == "---\n"; }
    LinesAround("---\n", dump + "\n", "\n" + body);
  }

  lemma LinesAround(fence: string, mid: string, tail: string)
    requires fence != "" && fence[|fence| - 1] == '\n' && SplitLines(fence) == [fence]
    requires mid != "" && mid[|mid| - 1] == '\n'
    ensures SplitLines(fence + (mid + (fence + tail))) == [fence] + SplitLines(mid) + [fence] + SplitLines(tail)
  {
    hide SplitLines;
    LinesOfMore(fence, mid + (fence + tail));
    LinesOfMore(mid, fence + tail);
    LinesOfMore(fence, tail);
  }

  /** Nothing after the first block is taken for a second one. */
  lemma NoSecondBlock(body: string)
    ensures Split("\n" + body) == Parts(None, "\n" + body)
  {
    LinesOfMore("\n", body);
    assert SplitLines("\n") == ["\n"] by { OneLine(""); assert "" + "\n" == "\n"; }
    assert SplitLines("\n" + body)[0] == "\n";
    assert StripEnding("\n") == "" by { assert "\n"[..0] == ""; }
  }

  // ---- the fields of a block -----------------------------------------------------------------

  predicate HasKey(fields: Fields, key: string) {
    exists i :: 0 <= i < |fields| && fields[i].key == key
  }

  function Lookup(fields: Fields, key: string): (r: Option<string>)
    ensures r.Some? <==> HasKey(fields, key)
  {
    if fields == [] then None
    else if fields[|fields| - 1].key == key then Some(fields[|fields| - 1].value)
    else
      assert fields == fields[..|fields| - 1] + [fields[|fields| - 1]];
      Lookup(fields[..|fields| - 1], key)
  }

  function Without(fields: Fields, key: string): (r: Fields)
    ensures !HasKey(r, key)
    ensures forall k :: k != key ==> Lookup(r, k) == Lookup(fields, k)
  {
    if fields == [] then []
    else
      var last := |fields| - 1;
      var r := Without(fields[..last], key);
      assert (r + [fields[last]])[..|r|] == r;
      if fields[last].key == key then r else r + [fields[last]]
  }

  /** A key that is missing comes from the base, at the end. */
  function InheritKey(fields: Fields, base: Fields, key: string): (r: Fields)
    ensures Lookup(r, key) == if HasKey(fields, key) then Lookup(fields, key) else Lookup(base, key)
    ensures forall k :: k != key ==> Lookup(r, k) == Lookup(fields, k)
  {
    if HasKey(fields, key) || !HasKey(base, key) then fields
    else
      var r := fields + [Field(key, Lookup(base, key).value)];
      assert r[..|fields|] == fields;
      r
  }

  /** The fields of the top block as they are printed: completed from the base block, without the internal strategy key. */
  function Rendered(top: Fields, base: Fields): Fields {
    Without(InheritKey(InheritKey(top, base, "scripts"), base, "agent_scripts"), "strategy")
  }

  lemma RenderedField(top: Fields, base: Fields, key: string)
    ensures Lookup(Rendered(top, base), key)
         == if key == "strategy" then None
            else if (key == "scripts" || key == "agent_scripts") && !HasKey(top, key) then Lookup(base, key)
            else Lookup(top, key)
  {
    KeysDiffer();
    hide Without, InheritKey, Lookup, HasKey;
    var one := InheritKey(top, base, "scripts");
    var two := InheritKey(one, base, "agent_scripts");
    var three := Without(two, "strategy");
    assert Lookup(one, key).Some? <==> HasKey(one, key);
    assert Lookup(top, "agent_scripts") == Lookup(one, "agent_scripts");
    assert HasKey(one, "agent_scripts") <==> HasKey(top, "agent_scripts");
  }

  lemma KeysDiffer()
    ensures "scripts" != "agent_scripts" && "scripts" != "strategy" && "agent_scripts" != "strategy"
  {
    assert "scripts"[1] == 'c' && "agent_scripts"[1] == 'g' && "strategy"[1] == 't';
  }

  /** The text between the fences of a block. */
  function Interior(block: string): string {
    var lines := Bare(SplitLines(block));
    if |lines| >= 2 then JoinLines(lines[1..|lines| - 1]) else ""
  }

  /** The lines without their endings, whatever those are. */
  function Bare(lines: seq<string>): (r: seq<string>)
    ensures |r| == |lines|
  {
    if lines == [] then [] else [WithoutEnding(lines[0])] + Bare(lines[1..])
  }

  function WithoutEnding(line: string): string {
    if line == "" || !EndsLine(line[|line| - 1]) then line
    else if |line| > 1 && line[|line| - 1] == '\n' && line[|line| - 2] == '\r' then line[..|line| - 2]
    else line[..|line| - 1]
  }

  function JoinLines(lines: seq<string>): string {
    if lines == [] then "" else Join(lines, "\n")
  }

  function FieldsOf(yaml: Yaml, block: string): Fields {
    yaml.parse(Interior(block))
  }

  /** Lines are ended by newlines only. */
  ghost predicate PlainLines(s: string) {
    forall c :: c in s && EndsLine(c) ==> c == '\n'
  }

  lemma {:induction false} FirstLineEnds(s: string)
    requires s != "" && s[|s| - 1] == '\n' && PlainLines(s)
    ensures s[FirstLine(s) - 1] == '\n' && forall i :: 0 <= i < FirstLine(s) - 1 ==> !EndsLine(s[i])
  {
    assert s[0] in s;
    if !EndsLine(s[0]) {
      assert forall c :: c in s[1..] ==> c in s;
      FirstLineEnds(s[1..]);
      assert forall i :: 0 < i < |s| ==> s[i] == s[1..][i - 1];
    }
  }

  lemma BareLine(line: string)
    requires PlainLines(line)
    ensures WithoutEnding(line + "\n") == line == WithoutEnding(line + "\r\n")
  {
    assert (line + "\n")[..|line|] == line && (line + "\r\n")[..|line|] == line;
    if line != "" { assert line[|line| - 1] in line; }
  }

  /** Lines without their endings, joined by newlines, are the text. */
  lemma {:induction false} BareLinesMakeTheText(s: string)
    requires PlainLines(s)
    ensures JoinLines(Bare(SplitLines(s + "\n"))) == s
    decreases |s|
  {
    var t := s + "\n";
    var n := FirstLine(t);
    assert PlainLines(t);
    FirstLineEnds(t);
    var first := t[..n - 1];
    assert PlainLines(first) && t[..n] == first + "\n";
    BareLine(first);
    var lines := SplitLines(t);
    assert lines == [t[..n]] + SplitLines(t[n..]);
    assert lines[1..] == SplitLines(t[n..]);
    if n == |t| {
      assert first == s && t[n..] == "";
      assert Bare(lines) == [first] + [];
    } else {
      var rest := s[n..];
      assert t[n..] == rest + "\n" && PlainLines(rest) && s == first + "\n" + rest;
      BareLinesMakeTheText(rest);
      assert Bare(lines) == [first] + Bare(SplitLines(rest + "\n"));
      assert Bare(lines)[1..] == Bare(SplitLines(rest + "\n"));
      assert SplitLines(rest + "\n") != [];
    }
  }

  lemma {:induction false} BareOfMore(a: seq<string>, b: seq<string>)
    ensures Bare(a + b) == Bare(a) + Bare(b)
  {
    if a == [] {
      assert a + b == b;
    } else {
      assert (a + b)[1..] == a[1..] + b;
      BareOfMore(a[1..], b);
    }
  }

  lemma BlockLines(dump: string)
    ensures SplitLines(Block(dump)) == ["---\n"] + SplitLines(dump + "\n") + ["---"]
  {
    assert SplitLines("---\n") == ["---\n"] by { OneLine("---"); assert "---" + "\n" == "---\n"; }
    LastFence();
    hide SplitLines;
    assert Block(dump) == "---\n" + (dump + "\n" + "---");
    LinesOfMore("---\n", dump + "\n" + "---");
    LinesOfMore(dump + "\n", "---");
  }

  lemma InteriorOfLines(first: string, mid: seq<string>, last: string)
    ensures var bare := Bare([first] + mid + [last]);
            |bare| == |mid| + 2 && bare[1..|bare| - 1] == Bare(mid)
  {
    hide WithoutEnding;
    BareOfMore([first], mid);
    BareOfMore([first] + mid, [last]);
  }

  /** A block's interior is the mapping that was printed into it. */
  lemma InteriorOfBlock(dump: string)
    requires PlainLines(dump)
    ensures Interior(Block(dump)) == dump
  {
    hide SplitLines, Bare, JoinLines, Block;
    BlockLines(dump);
    BareLinesMakeTheText(dump);
    InteriorOfLines("---\n", SplitLines(dump + "\n"), "---");
  }

  lemma LastFence()
    ensures SplitLines("---") == ["---"]
  {
    assert "---"[1..] == "--" && "--"[1..] == "-";
    assert FirstLine("---") == 3 && "---"[..3] == "---" && "---"[3..] == "";
  }

  /** So a printed block has the fields of the printed text. */
  lemma FieldsOfPrinted(yaml: Yaml, dump: string)
    requires PlainLines(dump)
    ensures FieldsOf(yaml, Block(dump)) == yaml.parse(dump)
  {
    InteriorOfBlock(dump);
    hide Interior, Block;
  }
}
