/**
 * JavaScript and Python string helpers shared by the models: `trim`, ASCII lower-casing,
 * dropping one final punctuation mark, Python's `str.split("\n")` and JavaScript's
 * `Array.prototype.join("\n")`.
 */
module Text {
  /** The characters JavaScript's `trim` removes (WhiteSpace and LineTerminator). */
  predicate IsSpace(c: char)
  {
    var n := c as int;
    n == 0x09 || n == 0x0A || n == 0x0B || n == 0x0C || n == 0x0D || n == 0x20 || n == 0xA0
    || n == 0x1680 || (0x2000 <= n <= 0x200A) || n == 0x2028 || n == 0x2029 || n == 0x202F
    || n == 0x205F || n == 0x3000 || n == 0xFEFF
  }

  /** `trimEnd`: drops the trailing run of white space. */
  function TrimEnd(s: string): string
  {
    if |s| > 0 && IsSpace(s[|s| - 1]) then TrimEnd(s[..|s| - 1]) else s
  }

  /** `trimStart`: drops the leading run of white space. */
  function TrimStart(s: string): string
  {
    if |s| > 0 && IsSpace(s[0]) then TrimStart(s[1..]) else s
  }

  /** Trimming the end removes the run of white space at the end, and nothing else. */
  lemma {:induction false} TrimEndShape(s: string)
    ensures var r := TrimEnd(s);
      && |r| <= |s| && r == s[..|r|]
      && (forall i :: |r| <= i < |s| ==> IsSpace(s[i]))
      && (|r| == 0 || !IsSpace(r[|r| - 1]))
  {
    if |s| > 0 && IsSpace(s[|s| - 1]) {
      TrimEndShape(s[..|s| - 1]);
    }
  }

  /** Trimming the start removes the run of white space at the start, and nothing else. */
  lemma {:induction false} TrimStartShape(s: string)
    ensures var r := TrimStart(s);
      && |r| <= |s| && r == s[|s| - |r|..]
      && (forall i :: 0 <= i < |s| - |r| ==> IsSpace(s[i]))
      && (|r| == 0 || !IsSpace(r[0]))
  {
    if |s| > 0 && IsSpace(s[0]) {
      TrimStartShape(s[1..]);
    }
  }

  function Trim(s: string): string
  {
    TrimStart(TrimEnd(s))
  }

  /** A trimmed text neither starts nor ends with white space. */
  lemma TrimEnds(s: string)
    ensures var c := Trim(s); |c| == 0 || (!IsSpace(c[0]) && !IsSpace(c[|c| - 1]))
  {
    var t := TrimEnd(s);
    var c := TrimStart(t);
    TrimEndShape(s);
    TrimStartShape(t);
    if |c| > 0 {
      assert c[|c| - 1] == t[|t| - 1];
    }
  }

  /** Trimming twice is trimming once. */
  lemma TrimIdempotent(s: string)
    ensures Trim(Trim(s)) == Trim(s)
  {
    var c := Trim(s);
    TrimEnds(s);
    assert TrimEnd(c) == c;
  }

  // ---------------------------------------------------------------------------
  // Case and final punctuation
  // ---------------------------------------------------------------------------

  predicate IsUpper(c: char)
  {
    'A' <= c <= 'Z'
  }

  /** `toLowerCase` on one character, for the ASCII letters. */
  function LowerChar(c: char): (d: char)
    ensures !IsUpper(d)
    ensures IsUpper(c) ==> d as int == c as int + 32
    ensures !IsUpper(c) ==> d == c
  {
    if IsUpper(c) then (c as int + 32) as char else c
  }

  /** `toLowerCase`: every character lowered, the length unchanged. */
  function Lower(s: string): (r: string)
    ensures |r| == |s|
    ensures forall i :: 0 <= i < |s| ==> r[i] == LowerChar(s[i])
  {
    seq(|s|, i requires 0 <= i < |s| => LowerChar(s[i]))
  }

  /** Lower-casing a lower-cased text changes nothing. */
  lemma LowerIdempotent(s: string)
    ensures Lower(Lower(s)) == Lower(s)
  {
  }

  predicate IsFinalMark(c: char)
  {
    c == '.' || c == '!' || c == '?'
  }

  /** `.replace(/[.!?]$/, '')`: one '.', '!' or '?' at the very end is removed. */
  function DropFinalMark(s: string): string
  {
    if |s| > 0 && IsFinalMark(s[|s| - 1]) then s[..|s| - 1] else s
  }

  /**
   * Dropping the final mark removes at most one character, and only a mark: the result
   * is the input, or the input without its last character when that is a mark.
   */
  lemma DropFinalMarkShape(s: string)
    ensures var r := DropFinalMark(s);
      && r == s[..|r|]
      && (|r| == |s| || (|r| == |s| - 1 && IsFinalMark(s[|s| - 1])))
      && (|r| == |s| <==> |s| == 0 || !IsFinalMark(s[|s| - 1]))
  {
  }

  // ---------------------------------------------------------------------------
  // Lines
  // ---------------------------------------------------------------------------

  /** Python's `text.split("\n")`: the pieces between newlines, at least one. */
  function Split(s: string): (pieces: seq<string>)
    ensures |pieces| >= 1
  {
    if |s| == 0 then [""]
    else
      var rest := Split(s[1..]);
      if s[0] == '\n' then [""] + rest else [[s[0]] + rest[0]] + rest[1..]
  }

  /** JavaScript's `lines.join("\n")`. */
  function Join(lines: seq<string>): string
  {
    if |lines| == 0 then ""
    else if |lines| == 1 then lines[0]
    else lines[0] + "\n" + Join(lines[1..])
  }

  predicate NoNewline(s: string)
  {
    forall i :: 0 <= i < |s| ==> s[i] != '\n'
  }

  /** No piece of a split holds a newline. */
  lemma {:induction false} SplitPieces(s: string)
    ensures forall k :: 0 <= k < |Split(s)| ==> NoNewline(Split(s)[k])
  {
    if |s| > 0 {
      SplitPieces(s[1..]);
    }
  }

  /** Joining the pieces of a split gives the text back. */
  lemma {:induction false} JoinSplit(s: string)
    ensures Join(Split(s)) == s
  {
    if |s| > 0 {
      var rest := Split(s[1..]);
      JoinSplit(s[1..]);
      if s[0] == '\n' {
        assert Join([""] + rest) == "" + "\n" + Join(rest);
      } else {
        var p := [[s[0]] + rest[0]] + rest[1..];
        assert p[1..] == rest[1..];
      }
    }
  }

  /** Splitting a text that continues after a newline-free first line. */
  lemma {:induction false} SplitFirst(a: string, b: string)
    requires NoNewline(a)
    ensures Split(a + "\n" + b) == [a] + Split(b)
  {
    if |a| > 0 {
      SplitFirst(a[1..], b);
      assert (a + "\n" + b)[0] == a[0] && (a + "\n" + b)[1..] == a[1..] + "\n" + b;
      assert [a[0]] + a[1..] == a;
    } else {
      assert a + "\n" + b == "\n" + b;
    }
  }

  /** Newline-free pieces joined, then a newline and more text: the pieces, then the pieces of the rest. */
  lemma {:induction false} SplitJoinBreak(pieces: seq<string>, b: string)
    requires |pieces| >= 1
    requires forall k :: 0 <= k < |pieces| ==> NoNewline(pieces[k])
    ensures Split(Join(pieces) + "\n" + b) == pieces + Split(b)
  {
    if |pieces| == 1 {
      SplitFirst(pieces[0], b);
    } else {
      var rest := pieces[1..];
      var x := Join(rest) + "\n" + b;
      SplitJoinBreak(rest, b);
      assert Join(pieces) == pieces[0] + "\n" + Join(rest);
      assert Join(pieces) + "\n" + b == pieces[0] + "\n" + x;
      SplitFirst(pieces[0], x);
      assert pieces == [pieces[0]] + rest;
    }
  }

  /** A newline splits the text in two: the pieces of each side, one after the other. */
  lemma SplitBreak(a: string, b: string)
    ensures Split(a + "\n" + b) == Split(a) + Split(b)
  {
    JoinSplit(a);
    SplitPieces(a);
    SplitJoinBreak(Split(a), b);
  }

  /** Splitting a newline-free text gives it back as the only piece. */
  lemma {:induction false} SplitOne(a: string)
    requires NoNewline(a)
    ensures Split(a) == [a]
  {
    if |a| > 0 {
      SplitOne(a[1..]);
      assert a[0] != '\n' && [a[0]] + a[1..] == a;
    }
  }

  /** Splitting the join of newline-free lines gives the lines back. */
  lemma {:induction false} SplitJoin(lines: seq<string>)
    requires |lines| >= 1
    requires forall k :: 0 <= k < |lines| ==> NoNewline(lines[k])
    ensures Split(Join(lines)) == lines
  {
    if |lines| == 1 {
      SplitOne(lines[0]);
    } else {
      SplitJoin(lines[1..]);
      SplitFirst(lines[0], Join(lines[1..]));
    }
  }
}
