/** The JavaScript string primitives the browser client relies on:
    `String.prototype.trim` and `String.prototype.split` with a one-character
    separator or the line-break pattern `/\r?\n/` (app.js:30, 33, 37). */
module JsString {

  /** The code points `trim` removes: the WhiteSpace and LineTerminator
      productions of ECMA-262 (TAB, VT, FF, SPACE, NBSP, ZWNBSP, the other
      space separators, LF, CR, LS, PS). */
  predicate IsSpace(c: char) {
    || c == '\t' || c == '\n' || c == '\U{B}' || c == '\U{C}' || c == '\r'
    || c == ' ' || c == '\U{A0}' || c == '\U{1680}'
    || ('\U{2000}' <= c <= '\U{200A}')
    || c == '\U{2028}' || c == '\U{2029}' || c == '\U{202F}' || c == '\U{205F}'
    || c == '\U{3000}' || c == '\U{FEFF}'
  }

  /** Leading white space removed: the result is a suffix of `s`, everything
      dropped is white space, and the result does not start with white space. */
  function TrimStart(s: string): (r: string)
    ensures |r| <= |s| && r == s[|s| - |r|..]
    ensures forall i :: 0 <= i < |s| - |r| ==> IsSpace(s[i])
    ensures r == [] || !IsSpace(r[0])
  {
    if |s| > 0 && IsSpace(s[0]) then TrimStart(s[1..]) else s
  }

  /** Trailing white space removed: the result is a prefix of `s`, everything
      dropped is white space, and the result does not end with white space. */
  function TrimEnd(s: string): (r: string)
    ensures |r| <= |s| && r == s[..|r|]
    ensures forall i :: |r| <= i < |s| ==> IsSpace(s[i])
    ensures r == [] || !IsSpace(r[|r| - 1])
  {
    if |s| > 0 && IsSpace(s[|s| - 1]) then TrimEnd(s[..|s| - 1]) else s
  }

  /** `r` is the slice of `s` from `a` that `trim` keeps: everything before
      and after it is white space, and it neither starts nor ends with white
      space. */
  predicate TrimmedSlice(s: string, a: int, r: string) {
    && 0 <= a && a + |r| <= |s| && r == s[a..a + |r|]
    && (forall i :: 0 <= i < a ==> IsSpace(s[i]))
    && (forall i :: a + |r| <= i < |s| ==> IsSpace(s[i]))
    && (r == [] || (!IsSpace(r[0]) && !IsSpace(r[|r| - 1])))
  }

  /** `String.prototype.trim`. */
  function Trim(s: string): string {
    TrimEnd(TrimStart(s))
  }

  /** What `trim` keeps of a text: the slice left once the white space at
      both ends is cut off. */
  lemma TrimSpec(s: string)
    ensures TrimmedSlice(s, |s| - |TrimStart(s)|, Trim(s))
  {
    TrimParts(s, TrimStart(s), Trim(s));
  }

  /** Trimming a suffix `t` of `s` down to its prefix `r`, where everything
      cut off at either end is white space and neither cut leaves white space
      behind, leaves a slice of `s` that is `trim`'s result. */
  lemma TrimParts(s: string, t: string, r: string)
    requires |t| <= |s| && t == s[|s| - |t|..]
    requires forall i :: 0 <= i < |s| - |t| ==> IsSpace(s[i])
    requires t == [] || !IsSpace(t[0])
    requires |r| <= |t| && r == t[..|r|]
    requires forall i :: |r| <= i < |t| ==> IsSpace(t[i])
    requires r == [] || !IsSpace(r[|r| - 1])
    ensures TrimmedSlice(s, |s| - |t|, r)
  {
    var a := |s| - |t|;
    forall i | a + |r| <= i < |s| ensures IsSpace(s[i]) {
      assert s[i] == t[i - a];
    }
    if r != [] {
      assert r[0] == t[0];
    }
  }

  /** A string that neither starts nor ends with white space. */
  predicate IsTrimmed(s: string) {
    s == [] || (!IsSpace(s[0]) && !IsSpace(s[|s| - 1]))
  }

  lemma TrimOfTrimmed(s: string)
    requires IsTrimmed(s)
    ensures Trim(s) == s
  {
    assert TrimStart(s) == s;
  }

  /** Trimming twice is trimming once. */
  lemma TrimIdempotent(s: string)
    ensures Trim(Trim(s)) == Trim(s)
  {
    TrimOfTrimmed(Trim(s));
  }

  /** How many times `c` occurs in `s`. */
  function Count(s: string, c: char): nat {
    if s == [] then 0 else (if s[0] == c then 1 else 0) + Count(s[1..], c)
  }

  /** The inverse of `Split`: the pieces glued together with `sep`. */
  function Join(pieces: seq<string>, sep: char): string
    requires |pieces| >= 1
  {
    if |pieces| == 1 then pieces[0] else pieces[0] + [sep] + Join(pieces[1..], sep)
  }

  /** `s.split(sep)` for a one-character separator: never empty (the empty
      string gives `[""]`), one more piece than there are separators, no piece
      holds the separator, and joining the pieces gives back `s`. */
  function Split(s: string, sep: char): (r: seq<string>)
    ensures |r| == Count(s, sep) + 1
    ensures forall i :: 0 <= i < |r| ==> sep !in r[i]
    ensures Join(r, sep) == s
  {
    if s == [] then [""]
    else
      var rest := Split(s[1..], sep);
      if s[0] == sep then
        assert s == [sep] + s[1..];
        [""] + rest
      else
        var r := [[s[0]] + rest[0]] + rest[1..];
        assert r[1..] == rest[1..];
        assert s == [s[0]] + s[1..];
        r
  }

  /** Splitting a join gives back the pieces, provided none holds the separator:
      together with `Split`'s contract, `Split` and `Join` are inverse. */
  lemma {:induction false} SplitJoin(pieces: seq<string>, sep: char)
    requires |pieces| >= 1
    requires forall i :: 0 <= i < |pieces| ==> sep !in pieces[i]
    ensures Split(Join(pieces, sep), sep) == pieces
  {
    if |pieces| == 1 {
      SplitNoSeparator(pieces[0], sep);
    } else {
      SplitJoin(pieces[1..], sep);
      SplitAppend(pieces[0], Join(pieces[1..], sep), sep);
    }
  }

  lemma {:induction false} SplitNoSeparator(s: string, sep: char)
    requires sep !in s
    ensures Split(s, sep) == [s]
  {
    if s != [] {
      SplitNoSeparator(s[1..], sep);
    }
  }

  lemma {:induction false} SplitAppend(a: string, b: string, sep: char)
    requires sep !in a
    ensures Split(a + [sep] + b, sep) == [a] + Split(b, sep)
  {
    if a == [] {
      assert a + [sep] + b == [sep] + b;
      assert ([sep] + b)[1..] == b;
    } else {
      assert (a + [sep] + b)[1..] == a[1..] + [sep] + b;
      SplitAppend(a[1..], b, sep);
      assert [a[0]] + a[1..] == a;
    }
  }

  /** One trailing carriage return removed from every piece but the last:
      what the optional `\r` of `/\r?\n/` consumes before each line feed. */
  function DropCarriageReturns(pieces: seq<string>): (r: seq<string>)
    ensures |r| == |pieces|
  {
    if |pieces| <= 1 then pieces
    else
      var p := pieces[0];
      var q := if |p| > 0 && p[|p| - 1] == '\r' then p[..|p| - 1] else p;
      [q] + DropCarriageReturns(pieces[1..])
  }

  /** `s.split(/\r?\n/)`. */
  function SplitLines(s: string): (r: seq<string>) {
    DropCarriageReturns(Split(s, '\n'))
  }

  /** A text splits into one more line than it has line feeds, and no line
      holds a line feed. */
  lemma {:induction false} SplitLinesShape(s: string)
    ensures |SplitLines(s)| == Count(s, '\n') + 1
    ensures forall i :: 0 <= i < |SplitLines(s)| ==> '\n' !in SplitLines(s)[i]
  {
    DropKeepsNoSeparator(Split(s, '\n'), '\n');
  }

  lemma {:induction false} DropKeepsNoSeparator(pieces: seq<string>, c: char)
    requires forall i :: 0 <= i < |pieces| ==> c !in pieces[i]
    ensures forall i :: 0 <= i < |pieces| ==> c !in DropCarriageReturns(pieces)[i]
  {
    if |pieces| > 1 {
      DropKeepsNoSeparator(pieces[1..], c);
      var r := DropCarriageReturns(pieces);
      forall i | 0 <= i < |pieces| ensures c !in r[i] {
        if i > 0 {
          assert r[i] == DropCarriageReturns(pieces[1..])[i - 1];
        } else {
          var p := pieces[0];
          if |p| > 0 && p[|p| - 1] == '\r' {
            assert forall x :: x in p[..|p| - 1] ==> x in p;
          }
        }
      }
    }
  }
  /** The lines glued back together, `seps[i]` standing between `lines[i]`
      and `lines[i + 1]`. */
  function Interleave(lines: seq<string>, seps: seq<string>): string
    requires |lines| >= 1 && |seps| == |lines| - 1
  {
    if |lines| == 1 then lines[0] else lines[0] + seps[0] + Interleave(lines[1..], seps[1..])
  }

  predicate EndsWithCarriageReturn(line: string) {
    |line| > 0 && line[|line| - 1] == '\r'
  }

  /** What `/\r?\n/` takes out between two lines: each separator is "\n" or
      "\r\n", and a carriage return right before a line feed always belongs
      to the separator (the match starts at the leftmost position), so a line
      followed by a bare "\n" never ends in '\r'. Gluing the lines together
      with these separators gives the text back. */
  lemma SplitLinesJoin(s: string) returns (seps: seq<string>)
    ensures |seps| == |SplitLines(s)| - 1
    ensures forall i :: 0 <= i < |seps| ==> seps[i] == "\n" || seps[i] == "\r\n"
    ensures forall i :: 0 <= i < |seps| && seps[i] == "\n" ==> !EndsWithCarriageReturn(SplitLines(s)[i])
    ensures Interleave(SplitLines(s), seps) == s
  {
    seps := DropInterleave(Split(s, '\n'));
  }

  lemma {:induction false} DropInterleave(pieces: seq<string>) returns (seps: seq<string>)
    requires |pieces| >= 1
    ensures |seps| == |pieces| - 1
    ensures forall i :: 0 <= i < |seps| ==> seps[i] == "\n" || seps[i] == "\r\n"
    ensures forall i :: 0 <= i < |seps| && seps[i] == "\n" ==> !EndsWithCarriageReturn(DropCarriageReturns(pieces)[i])
    ensures Interleave(DropCarriageReturns(pieces), seps) == Join(pieces, '\n')
  {
    if |pieces| == 1 {
      seps := [];
    } else {
      var tail := DropInterleave(pieces[1..]);
      var p := pieces[0];
      var lines := DropCarriageReturns(pieces);
      assert lines[1..] == DropCarriageReturns(pieces[1..]);
      if EndsWithCarriageReturn(p) {
        seps := ["\r\n"] + tail;
        assert lines[0] + seps[0] == p + "\n";
      } else {
        seps := ["\n"] + tail;
      }
      assert seps[1..] == tail;
    }
  }

  /** A CRLF text splits into its lines without the carriage returns. */
  lemma SplitLinesCrLf()
    ensures SplitLines("a\r\nb") == ["a", "b"]
  {
    assert Split("a\r\nb", '\n') == ["a\r", "b"] by {
      SplitAppend("a\r", "b", '\n');
      SplitNoSeparator("b", '\n');
      assert "a\r" + ['\n'] + "b" == "a\r\nb";
    }
  }

  /** Only the carriage return right before the line feed is consumed. */
  lemma SplitLinesDoubleCr()
    ensures SplitLines("a\r\r\nb") == ["a\r", "b"]
  {
    assert Split("a\r\r\nb", '\n') == ["a\r\r", "b"] by {
      SplitAppend("a\r\r", "b", '\n');
      SplitNoSeparator("b", '\n');
      assert "a\r\r" + ['\n'] + "b" == "a\r\r\nb";
    }
    assert "a\r\r"[..2] == "a\r";
  }
}
