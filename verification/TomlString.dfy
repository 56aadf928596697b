/**
 Command texts printed as TOML basic strings, and a reader for them after the "String" section of TOML v1.0.0.
 */
module TomlString {
  import opened Text
  import opened Wrappers

  // ---- the printer ---------------------------------------------------------------------------

  /** Five replacements, one after the other. */
  function Escaped(value: string): string {
    ReplaceAll(ReplaceAll(ReplaceAll(ReplaceAll(ReplaceAll(value, "\\", "\\\\"), "\"", "\\\""), "\n", "\\n"), "\r", "\\r"), "\t", "\\t")
  }

  function RenderBasicTomlString(value: string): string {
    "\"" + Escaped(value) + "\""
  }

  /** What becomes of one character. */
  function Escape(c: char): string {
    if c == '\\' then "\\\\"
    else if c == '"' then "\\\""
    else if c == '\n' then "\\n"
    else if c == '\r' then "\\r"
    else if c == '\t' then "\\t"
    else [c]
  }

  function EscapeEach(value: string): string {
    if value == "" then "" else Escape(value[0]) + EscapeEach(value[1..])
  }

  /** Replacing one character goes piece by piece. */
  lemma {:induction false} ReplaceCharInPieces(a: string, b: string, c: char, fill: string)
    ensures ReplaceAll(a + b, [c], fill) == ReplaceAll(a, [c], fill) + ReplaceAll(b, [c], fill)
  {
    if a == "" {
      assert a + b == b;
    } else {
      assert (a + b)[1..] == a[1..] + b;
      ReplaceCharInPieces(a[1..], b, c, fill);
      OneCharPrefix(a + b, c);
      OneCharPrefix(a, c);
      Regrouped(if a[0] == c then fill else [a[0]], ReplaceAll(a[1..], [c], fill), ReplaceAll(b, [c], fill));
    }
  }

  lemma Regrouped(a: string, b: string, c: string)
    ensures a + (b + c) == a + b + c
  {
  }

  lemma OneCharPrefix(s: string, c: char)
    requires s != ""
    ensures [c] <= s <==> s[0] == c
  {
  }

  lemma ReplaceInChar(x: char, c: char, fill: string)
    ensures ReplaceAll([x], [c], fill) == if x == c then fill else [x]
  {
    OneCharPrefix([x], c);
    assert [x][1..] == "";
    assert ReplaceAll("", [c], fill) == "";
  }

  /** A pair whose characters are not replaced stays. */
  lemma ReplaceInPair(x: char, y: char, c: char, fill: string)
    requires x != c && y != c
    ensures ReplaceAll([x, y], [c], fill) == [x, y]
  {
    assert [x, y] == [x] + [y];
    ReplaceCharInPieces([x], [y], c, fill);
    ReplaceInChar(x, c, fill);
    ReplaceInChar(y, c, fill);
  }


  lemma EscapedInPieces(a: string, b: string)
    ensures Escaped(a + b) == Escaped(a) + Escaped(b)
  {
    hide ReplaceAll;
    ReplaceCharInPieces(a, b, '\\', "\\\\");
    var a1, b1 := ReplaceAll(a, "\\", "\\\\"), ReplaceAll(b, "\\", "\\\\");
    ReplaceCharInPieces(a1, b1, '"', "\\\"");
    var a2, b2 := ReplaceAll(a1, "\"", "\\\""), ReplaceAll(b1, "\"", "\\\"");
    ReplaceCharInPieces(a2, b2, '\n', "\\n");
    var a3, b3 := ReplaceAll(a2, "\n", "\\n"), ReplaceAll(b2, "\n", "\\n");
    ReplaceCharInPieces(a3, b3, '\r', "\\r");
    var a4, b4 := ReplaceAll(a3, "\r", "\\r"), ReplaceAll(b3, "\r", "\\r");
    ReplaceCharInPieces(a4, b4, '\t', "\\t");
  }

  lemma EscapedChar(x: char)
    ensures Escaped([x]) == Escape(x)
  {
    hide ReplaceAll;
    ReplaceInChar(x, '\\', "\\\\");
    if x == '\\' {
      ReplaceInPair('\\', '\\', '"', "\\\"");
      ReplaceInPair('\\', '\\', '\n', "\\n");
      ReplaceInPair('\\', '\\', '\r', "\\r");
      ReplaceInPair('\\', '\\', '\t', "\\t");
    } else {
      ReplaceInChar(x, '"', "\\\"");
      if x == '"' {
        ReplaceInPair('\\', '"', '\n', "\\n");
        ReplaceInPair('\\', '"', '\r', "\\r");
        ReplaceInPair('\\', '"', '\t', "\\t");
      } else {
        ReplaceInChar(x, '\n', "\\n");
        if x == '\n' {
          ReplaceInPair('\\', 'n', '\r', "\\r");
          ReplaceInPair('\\', 'n', '\t', "\\t");
        } else {
          ReplaceInChar(x, '\r', "\\r");
          if x == '\r' {
            ReplaceInPair('\\', 'r', '\t', "\\t");
          } else {
            ReplaceInChar(x, '\t', "\\t");
          }
        }
      }
    }
  }

  /** The replacements in a row are one map over the characters: none of them sees what another put in. */
  lemma {:induction false} EscapedIsEscapeEach(value: string)
    ensures Escaped(value) == EscapeEach(value)
  {
    if value == "" {
      assert Escaped("") == "";
    } else {
      assert value == [value[0]] + value[1..];
      EscapedInPieces([value[0]], value[1..]);
      EscapedChar(value[0]);
      EscapedIsEscapeEach(value[1..]);
    }
  }

  // ---- the reader ----------------------------------------------------------------------------

  /** Characters a basic string may hold as they are, besides quotation mark and backslash. */
  predicate Plain(c: char) {
    c != '"' && c != '\\' && (c == '\t' || (c >= ' ' && c != '\U{7F}'))
  }

  function HexDigit(c: char): Option<nat> {
    if '0' <= c <= '9' then Some((c as int) - ('0' as int))
    else if 'a' <= c <= 'f' then Some((c as int) - ('a' as int) + 10)
    else if 'A' <= c <= 'F' then Some((c as int) - ('A' as int) + 10)
    else None
  }

  function HexValue(s: string): Option<nat> {
    if s == "" then Some(0)
    else
      match (HexValue(s[..|s| - 1]), HexDigit(s[|s| - 1]))
      case (Some(high), Some(low)) => Some(16 * high + low)
      case _ => None
  }

  /** The character of an escape sequence, and how long the sequence is after its backslash. */
  function ReadEscape(s: string): (r: Option<(char, nat)>)
    ensures r.Some? ==> 0 < r.value.1 <= |s|
  {
    if s == "" then None
    else
      match s[0]
      case 'b' => Some(('\U{08}', 1))
      case 't' => Some(('\t', 1))
      case 'n' => Some(('\n', 1))
      case 'f' => Some(('\U{0C}', 1))
      case 'r' => Some(('\r', 1))
      case '"' => Some(('"', 1))
      case '\\' => Some(('\\', 1))
      case 'u' => ReadCode(s, 4)
      case 'U' => ReadCode(s, 8)
      case _ => None
  }

  function ReadCode(s: string, digits: nat): (r: Option<(char, nat)>)
    ensures r.Some? ==> 0 < r.value.1 <= |s|
  {
    if |s| <= digits then None
    else
      match HexValue(s[1..digits + 1])
      case None => None
      case Some(n) => if n < 0xD800 || 0xE000 <= n < 0x11_0000 then Some((n as char, digits + 1)) else None
  }

  /** The text up to the closing quotation mark, which must end the literal. */
  function ReadBody(s: string): Option<string>
    decreases |s|
  {
    if s == "" then None
    else if s[0] == '"' then (if |s| == 1 then Some("") else None)
    else if s[0] == '\\' then
      match ReadEscape(s[1..])
      case None => None
      case Some((c, n)) => (match ReadBody(s[1 + n..]) case Some(rest) => Some([c] + rest) case None => None)
    else if Plain(s[0]) then
      match ReadBody(s[1..])
      case Some(rest) => Some([s[0]] + rest)
      case None => None
    else None
  }

  function ReadBasicString(literal: string): Option<string> {
    if literal != "" && literal[0] == '"' then ReadBody(literal[1..]) else None
  }

  // ---- round trip ----------------------------------------------------------------------------

  /** Control characters the printer does not escape. */
  predicate Unprintable(c: char) {
    (c < ' ' && c != '\n' && c != '\r' && c != '\t') || c == '\U{7F}'
  }

  lemma ReadOneMore(c: char, rest: string)
    ensures ReadBody(Escape(c) + rest)
         == if Unprintable(c) then None else match ReadBody(rest) case Some(tail) => Some([c] + tail) case None => None
  {
    var s := Escape(c) + rest;
    if |Escape(c)| == 2 {
      assert s[0] == '\\' && s[1..][0] == Escape(c)[1] && s[1 + 1..] == rest;
    } else {
      assert s[0] == c && s[1..] == rest;
    }
  }

  lemma {:induction false} ReadBodyOfPrinted(value: string)
    ensures ReadBody(EscapeEach(value) + "\"") == if exists c :: c in value && Unprintable(c) then None else Some(value)
  {
    if value == "" {
      assert "" + "\"" == "\"";
    } else {
      var c, rest := value[0], value[1..];
      ReadBodyOfPrinted(rest);
      Regrouped(Escape(c), EscapeEach(rest), "\"");
      hide ReadBody, Escape, Unprintable;
      ReadOneMore(c, EscapeEach(rest) + "\"");
      assert value == [c] + rest;
      assert forall x :: x in value <==> x == c || x in rest;
    }
  }

  /** Reading the literal back gives the text exactly when its only control characters are newline, carriage return and tab. */
  lemma RoundTripIff(value: string)
    ensures ReadBasicString(RenderBasicTomlString(value)) == Some(value) <==> forall c :: c in value ==> !Unprintable(c)
    ensures ReadBasicString(RenderBasicTomlString(value)).Some? ==> ReadBasicString(RenderBasicTomlString(value)) == Some(value)
  {
    EscapedIsEscapeEach(value);
    ReadBodyOfPrinted(value);
    var literal := RenderBasicTomlString(value);
    assert literal[1..] == EscapeEach(value) + "\"";
    hide Escaped, EscapeEach, ReadBody, Unprintable;
  }

  /** The literal stays on one line, and its quotation marks inside are all escaped. */
  lemma {:induction false} EscapedIsSafe(value: string)
    ensures forall c :: c in EscapeEach(value) ==> c != '\n' && c != '\r' && c != '\t'
    ensures forall i :: 0 <= i < |EscapeEach(value)| && EscapeEach(value)[i] == '"' ==> Backslashes(EscapeEach(value), i) % 2 == 1
  {
    if value != "" {
      var last := |value| - 1;
      EscapedIsSafe(value[..last]);
      EscapeEachLast(value);
      var head, tail := EscapeEach(value[..last]), Escape(value[last]);
      RunsAreWhole(value[..last]);
      forall i | 0 <= i < |head + tail| && (head + tail)[i] == '"' ensures Backslashes(head + tail, i) % 2 == 1 {
        if i < |head| {
          BackslashesOfPrefix(head, tail, i);
        } else {
          assert value[last] == '"' && i == |head| + 1;
          BackslashesOfPrefix(head, tail, |head|);
        }
      }
    }
  }

  /** How many backslashes stand directly before a position. */
  function Backslashes(s: string, i: nat): nat
    requires i <= |s|
  {
    if i == 0 || s[i - 1] != '\\' then 0 else 1 + Backslashes(s, i - 1)
  }

  lemma {:induction false} BackslashesOfPrefix(a: string, b: string, i: nat)
    requires i <= |a|
    ensures Backslashes(a + b, i) == Backslashes(a, i)
  {
    if i > 0 { BackslashesOfPrefix(a, b, i - 1); }
  }

  lemma {:induction false} EscapeEachLast(value: string)
    requires value != ""
    ensures EscapeEach(value) == EscapeEach(value[..|value| - 1]) + Escape(value[|value| - 1])
  {
    if |value| > 1 {
      var rest := value[1..];
      EscapeEachLast(rest);
      assert rest[..|rest| - 1] == value[..|value| - 1][1..];
      Regrouped(Escape(value[0]), EscapeEach(rest[..|rest| - 1]), Escape(rest[|rest| - 1]));
    } else {
      assert EscapeEach(value[1..]) == "" && Escape(value[0]) + "" == "" + Escape(value[0]);
    }
  }

  lemma PairAtEnd(head: string)
    ensures Backslashes(head + ['\\', '\\'], |head| + 2) == 2 + Backslashes(head, |head|)
  {
    var s := head + ['\\', '\\'];
    BackslashesOfPrefix(head, ['\\', '\\'], |head|);
    assert s[|head|] == '\\' && s[|head| + 1] == '\\';
    assert Backslashes(s, |head| + 1) == 1 + Backslashes(s, |head|);
  }

  lemma OtherAtEnd(head: string, tail: string)
    requires tail != "" && tail[|tail| - 1] != '\\'
    ensures Backslashes(head + tail, |head + tail|) == 0
  {
    assert (head + tail)[|head + tail| - 1] == tail[|tail| - 1];
  }

  lemma EscapeEnds(c: char)
    ensures Escape(c) != ""
    ensures if c == '\\' then Escape(c) == ['\\', '\\'] else Escape(c)[|Escape(c)| - 1] != '\\'
  {
  }

  /** Printed backslashes come in pairs at the end of what is printed. */
  lemma {:induction false} RunsAreWhole(value: string)
    ensures Backslashes(EscapeEach(value), |EscapeEach(value)|) % 2 == 0
  {
    if value != "" {
      var last := |value| - 1;
      RunsAreWhole(value[..last]);
      EscapeEachLast(value);
      EscapeEnds(value[last]);
      hide Escape, EscapeEach, Backslashes;
      if value[last] == '\\' {
        PairAtEnd(EscapeEach(value[..last]));
      } else {
        OtherAtEnd(EscapeEach(value[..last]), Escape(value[last]));
      }
    } else {
      assert EscapeEach("") == "";
    }
  }
}
