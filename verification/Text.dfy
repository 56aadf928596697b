/** Strings as the template code cuts them: into lines, and at the occurrences of a placeholder. */
module Text {

  function Concat(parts: seq<string>): string {
    if parts == [] then "" else parts[0] + Concat(parts[1..])
  }

  lemma {:induction false} ConcatAppend(a: seq<string>, b: seq<string>)
    ensures Concat(a + b) == Concat(a) + Concat(b)
  {
    if a == [] {
      assert a + b == b;
    } else {
      assert (a + b)[1..] == a[1..] + b;
      ConcatAppend(a[1..], b);
    }
  }

  // ---- lines ---------------------------------------------------------------------------------

  /** The characters that end a line; "\r\n" counts as one ending. */
  predicate EndsLine(c: char) {
    c in {'\n', '\r', '\U{0B}', '\U{0C}', '\U{1C}', '\U{1D}', '\U{1E}', '\U{85}', '\U{2028}', '\U{2029}'}
  }

  /** How much of a text its first line takes, its ending included. */
  function FirstLine(s: string): (n: nat)
    requires s != ""
    ensures 0 < n <= |s|
  {
    if |s| > 1 && s[0] == '\r' && s[1] == '\n' then 2
    else if EndsLine(s[0]) || |s| == 1 then 1
    else 1 + FirstLine(s[1..])
  }

  /** The lines of a text, each with its ending. */
  function SplitLines(s: string): (lines: seq<string>)
    ensures forall l :: l in lines ==> l != ""
  {
    if s == "" then [] else [s[..FirstLine(s)]] + SplitLines(s[FirstLine(s)..])
  }

  lemma {:induction false} LinesMakeTheText(s: string)
    ensures Concat(SplitLines(s)) == s
  {
    if s != "" {
      var n := FirstLine(s);
      LinesMakeTheText(s[n..]);
      assert SplitLines(s)[1..] == SplitLines(s[n..]);
    }
  }

  /** A newline closes a line whatever follows. */
  lemma {:induction false} FirstLineOfMore(a: string, b: string)
    requires a != "" && a[|a| - 1] == '\n'
    ensures FirstLine(a + b) == FirstLine(a)
  {
    if |a| > 1 {
      assert (a + b)[1..] == a[1..] + b;
      FirstLineOfMore(a[1..], b);
    }
  }

  lemma {:induction false} LinesOfMore(a: string, b: string)
    requires a != "" ==> a[|a| - 1] == '\n'
    ensures SplitLines(a + b) == SplitLines(a) + SplitLines(b)
  {
    if a == "" {
      assert a + b == b;
    } else {
      var n := FirstLine(a);
      FirstLineOfMore(a, b);
      assert (a + b)[..n] == a[..n] && (a + b)[n..] == a[n..] + b;
      LinesOfMore(a[n..], b);
    }
  }

  /** A text without line endings, terminated, is one line. */
  lemma {:induction false} OneLine(s: string)
    requires forall c :: c in s ==> !EndsLine(c)
    ensures SplitLines(s + "\n") == [s + "\n"]
  {
    FirstLineOfPlain(s);
    assert (s + "\n")[..|s| + 1] == s + "\n" && (s + "\n")[|s| + 1..] == "";
  }

  lemma {:induction false} FirstLineOfPlain(s: string)
    requires forall c :: c in s ==> !EndsLine(c)
    ensures FirstLine(s + "\n") == |s| + 1
  {
    if s != "" {
      assert (s + "\n")[1..] == s[1..] + "\n";
      assert s[0] in s;
      FirstLineOfPlain(s[1..]);
    }
  }

  /** A text without its trailing carriage returns and newlines. */
  function StripEnding(s: string): (r: string)
    ensures r <= s && (r != "" ==> r[|r| - 1] != '\r' && r[|r| - 1] != '\n')
    ensures forall i :: |r| <= i < |s| ==> s[i] == '\r' || s[i] == '\n'
  {
    if s != "" && (s[|s| - 1] == '\r' || s[|s| - 1] == '\n') then StripEnding(s[..|s| - 1]) else s
  }

  // ---- placeholders --------------------------------------------------------------------------

  predicate HasAt(s: string, p: string, i: nat)
    requires i <= |s|
  {
    p <= s[i..]
  }

  predicate Contains(s: string, p: string) {
    exists i :: 0 <= i <= |s| && HasAt(s, p, i)
  }

  /** Replace every occurrence, left to right, without looking again at what was put in. */
  function ReplaceAll(s: string, p: string, fill: string): string
    requires p != ""
    decreases |s|
  {
    if s == "" then ""
    else if p <= s then fill + ReplaceAll(s[|p|..], p, fill)
    else [s[0]] + ReplaceAll(s[1..], p, fill)
  }

  /** The text between the occurrences, left to right. */
  function Pieces(s: string, p: string): (pieces: seq<string>)
    requires p != ""
    ensures pieces != []
    decreases |s|
  {
    if s == "" then [""]
    else if p <= s then [""] + Pieces(s[|p|..], p)
    else
      var rest := Pieces(s[1..], p);
      [[s[0]] + rest[0]] + rest[1..]
  }

  function Join(pieces: seq<string>, fill: string): string
    requires pieces != []
  {
    if |pieces| == 1 then pieces[0] else pieces[0] + fill + Join(pieces[1..], fill)
  }

  lemma JoinEmptyFirst(rest: seq<string>, fill: string)
    requires rest != []
    ensures Join([""] + rest, fill) == fill + Join(rest, fill)
  {
    assert ([""] + rest)[1..] == rest;
  }

  lemma JoinLongerFirst(c: char, pieces: seq<string>, fill: string)
    requires pieces != []
    ensures Join([[c] + pieces[0]] + pieces[1..], fill) == [c] + Join(pieces, fill)
  {
    var longer := [[c] + pieces[0]] + pieces[1..];
    assert longer[1..] == pieces[1..];
    if |pieces| > 1 {
      assert [c] + pieces[0] + fill + Join(pieces[1..], fill) == [c] + (pieces[0] + fill + Join(pieces[1..], fill));
    }
  }

  /** Replacing puts the new text between the pieces. */
  lemma {:induction false} ReplaceJoinsPieces(s: string, p: string, fill: string)
    requires p != ""
    ensures ReplaceAll(s, p, fill) == Join(Pieces(s, p), fill)
    decreases |s|
  {
    if s != "" {
      if p <= s {
        ReplaceJoinsPieces(s[|p|..], p, fill);
        JoinEmptyFirst(Pieces(s[|p|..], p), fill);
      } else {
        ReplaceJoinsPieces(s[1..], p, fill);
        JoinLongerFirst(s[0], Pieces(s[1..], p), fill);
      }
    }
  }

  lemma {:induction false} ReplaceByItself(s: string, p: string)
    requires p != ""
    ensures ReplaceAll(s, p, p) == s
    decreases |s|
  {
    if s != "" {
      if p <= s {
        ReplaceByItself(s[|p|..], p);
        assert p + s[|p|..] == s;
      } else {
        ReplaceByItself(s[1..], p);
        assert [s[0]] + s[1..] == s;
      }
    }
  }

  /** A placeholder that occurs once, with nothing around it that could be mistaken for it, is where the new text goes. */
  lemma {:induction false} ReplaceOnce(before: string, p: string, after: string, fill: string)
    requires p != "" && !Contains(after, p)
    requires forall i :: 0 <= i < |before| ==> !HasAt(before + p + after, p, i)
    ensures ReplaceAll(before + p + after, p, fill) == before + fill + after
    decreases |before|
  {
    var s := before + p + after;
    if before == "" {
      assert s[|p|..] == after;
      ReplaceNothing(after, p, fill);
    } else {
      assert !HasAt(s, p, 0) && s[0..] == s;
      assert s[1..] == before[1..] + p + after;
      forall i | 0 <= i < |before[1..]| ensures !HasAt(s[1..], p, i) {
        assert s[1..][i..] == s[i + 1..];
        assert !HasAt(s, p, i + 1);
      }
      ReplaceOnce(before[1..], p, after, fill);
      assert [s[0]] + (before[1..] + fill + after) == before + fill + after;
    }
  }

  lemma {:induction false} ReplaceNothing(s: string, p: string, fill: string)
    requires p != "" && !Contains(s, p)
    ensures ReplaceAll(s, p, fill) == s
    decreases |s|
  {
    if s != "" {
      assert !HasAt(s, p, 0) && s[0..] == s;
      if Contains(s[1..], p) {
        var i :| 0 <= i <= |s[1..]| && HasAt(s[1..], p, i);
        assert s[1..][i..] == s[i + 1..];
        assert HasAt(s, p, i + 1);
      }
      ReplaceNothing(s[1..], p, fill);
    }
  }

  /** There is a second piece exactly when the placeholder occurs. */
  lemma {:induction false} PiecesIffContains(s: string, p: string)
    requires p != ""
    ensures |Pieces(s, p)| > 1 <==> Contains(s, p)
    decreases |s|
  {
    if s != "" {
      if p <= s {
        assert HasAt(s, p, 0);
      } else {
        PiecesIffContains(s[1..], p);
        if Contains(s, p) {
          var i :| 0 <= i <= |s| && HasAt(s, p, i);
          assert s[1..][i - 1..] == s[i..];
          assert HasAt(s[1..], p, i - 1);
        }
        if Contains(s[1..], p) {
          var i :| 0 <= i <= |s[1..]| && HasAt(s[1..], p, i);
          assert s[1..][i..] == s[i + 1..];
          assert HasAt(s, p, i + 1);
        }
      }
    } else {
      assert forall i :: 0 <= i <= |s| ==> !HasAt(s, p, i);
    }
  }

  // ---- order ---------------------------------------------------------------------------------

  /** Code point order. */
  predicate Less(a: string, b: string) {
    if b == "" then false
    else a == "" || a[0] < b[0] || (a[0] == b[0] && Less(a[1..], b[1..]))
  }

  lemma {:induction false} LessIsTotal(a: string, b: string)
    ensures a == b || Less(a, b) || Less(b, a)
    ensures !(Less(a, b) && Less(b, a)) && !Less(a, a)
  {
    if a != "" {
      LessIsTotal(a[1..], a[1..]);
      if b != "" {
        LessIsTotal(a[1..], b[1..]);
        assert a == [a[0]] + a[1..] && b == [b[0]] + b[1..];
      }
    }
  }

  lemma {:induction false} LessIsTransitive(a: string, b: string, c: string)
    requires Less(a, b) && Less(b, c)
    ensures Less(a, c)
  {
    if a != "" && a[0] == b[0] == c[0] {
      LessIsTransitive(a[1..], b[1..], c[1..]);
    }
  }
}
