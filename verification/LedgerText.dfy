/**
 The text of a ledger file.  Entries are written one to a line and read back by splitting at every
 character that the reader takes for the end of a line; that is more than the newline which the
 writer puts there.
 */
module LedgerText {
  import opened Strings

  /** The characters at which the reader ends a line. */
  predicate IsBreak(c: char) {
    c == '\n' || c == '\r' || c == '\U{0B}' || c == '\U{0C}' || '\U{1C}' <= c <= '\U{1E}'
    || c == '\U{85}' || c == '\U{2028}' || c == '\U{2029}'
  }

  /** A line that the reader skips. */
  predicate IsBlank(s: string) {
    forall i :: 0 <= i < |s| ==> IsSpace(s[i])
  }

  predicate IsClean(s: string) {
    forall i :: 0 <= i < |s| ==> !IsBreak(s[i])
  }

  function TextOf(lines: seq<string>): string {
    if lines == [] then "" else lines[0] + "\n" + TextOf(lines[1..])
  }

  /** The pieces between breaks. */
  function Pieces(s: string): (parts: seq<string>)
    ensures |parts| >= 1
  {
    if s == [] then [[]]
    else
      var rest := Pieces(s[1..]);
      if IsBreak(s[0]) then [[]] + rest else [[s[0]] + rest[0]] + rest[1..]
  }

  function NonBlank(parts: seq<string>): seq<string> {
    if parts == [] then []
    else (if IsBlank(parts[0]) then [] else [parts[0]]) + NonBlank(parts[1..])
  }

  /** The lines that the reader sees in a text. */
  function ReadLines(text: string): seq<string> {
    NonBlank(Pieces(text))
  }

  lemma {:induction false} PiecesClean(s: string)
    ensures forall i :: 0 <= i < |Pieces(s)| ==> IsClean(Pieces(s)[i])
  {
    if s != [] {
      PiecesClean(s[1..]);
      var rest := Pieces(s[1..]);
      assert IsClean(rest[0]);
      forall i | 0 <= i < |Pieces(s)| ensures IsClean(Pieces(s)[i]) {
        if i > 0 {
          assert Pieces(s)[i] == if IsBreak(s[0]) then rest[i - 1] else rest[i];
        }
      }
    }
  }

  lemma {:induction false} NonBlankMembers(parts: seq<string>)
    ensures forall x :: x in NonBlank(parts) ==> x in parts
  {
    if parts != [] {
      NonBlankMembers(parts[1..]);
    }
  }

  lemma {:induction false} FirstPiece(line: string, rest: string)
    requires IsClean(line)
    ensures Pieces(line + "\n" + rest) == [line] + Pieces(rest)
  {
    if line == [] {
      assert line + "\n" + rest == ['\n'] + rest;
      assert (['\n'] + rest)[1..] == rest;
    } else {
      FirstPiece(line[1..], rest);
      var whole := line + "\n" + rest;
      assert whole[1..] == line[1..] + "\n" + rest;
      assert ([line[1..]] + Pieces(rest))[1..] == Pieces(rest);
      assert line == [line[0]] + line[1..];
    }
  }

  lemma {:induction false} CleanLinesReadBack(lines: seq<string>)
    requires forall i :: 0 <= i < |lines| ==> IsClean(lines[i]) && !IsBlank(lines[i])
    ensures ReadLines(TextOf(lines)) == lines
  {
    if lines != [] {
      CleanLinesReadBack(lines[1..]);
      FirstPiece(lines[0], TextOf(lines[1..]));
      assert ([lines[0]] + Pieces(TextOf(lines[1..])))[1..] == Pieces(TextOf(lines[1..]));
    }
  }

  /** What is written is read back, line by line, exactly if no line contains a character that ends lines. */
  lemma ReadsBackIff(lines: seq<string>)
    requires forall i :: 0 <= i < |lines| ==> !IsBlank(lines[i])
    ensures ReadLines(TextOf(lines)) == lines <==> forall i :: 0 <= i < |lines| ==> IsClean(lines[i])
  {
    if forall i :: 0 <= i < |lines| ==> IsClean(lines[i]) {
      CleanLinesReadBack(lines);
    }
    if ReadLines(TextOf(lines)) == lines {
      var parts := Pieces(TextOf(lines));
      PiecesClean(TextOf(lines));
      NonBlankMembers(parts);
      forall i | 0 <= i < |lines| ensures IsClean(lines[i]) {
        assert lines[i] in parts;
        var k :| 0 <= k < |parts| && parts[k] == lines[i];
      }
    }
  }

  lemma FirstLine(line: string, rest: string)
    requires IsClean(line) && !IsBlank(line)
    ensures ReadLines(line + "\n" + rest) == [line] + ReadLines(rest)
  {
    FirstPiece(line, rest);
    assert ([line] + Pieces(rest))[1..] == Pieces(rest);
  }

  /** Of a line that contains a line end, the reader first sees a proper prefix. */
  lemma {:induction false} BrokenLine(line: string, rest: string)
    requires !IsClean(line)
    ensures Pieces(line + rest)[0] < line
    ensures !IsBreak(line[0]) ==> Pieces(line + rest)[0] != [] && Pieces(line + rest)[0][0] == line[0]
  {
    assert (line + rest)[1..] == line[1..] + rest;
    if !IsBreak(line[0]) {
      assert line == [line[0]] + line[1..];
      BrokenLine(line[1..], rest);
    }
  }

  lemma BrokenFirstLine(line: string, rest: string) returns (seen: string)
    requires !IsClean(line) && !IsSpace(line[0])
    ensures seen < line && seen in ReadLines(line + "\n" + rest)
  {
    BrokenLine(line, "\n" + rest);
    assert line + "\n" + rest == line + ("\n" + rest);
    seen := Pieces(line + "\n" + rest)[0];
  }
}
