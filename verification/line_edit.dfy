/** The server's line commands: writeT replaces one line of a file, readF sends
    one line. Both are streaming loops; here they are compared with the list of
    the file's lines. */
module LineEdit {
  import opened CStrings
  import opened Sequences

  /** writeT reads with a buffer of 4096 characters, one kept for the terminator. */
  const PIECE: nat := 4095

  // ----- Lines and pieces ------------------------------------------------------

  /** Up to and including the first newline. */
  function FirstLine(s: string): (l: string)
    ensures l <= s
    ensures s != "" ==> l != ""
  {
    if s == "" then "" else if s[0] == '\n' then "\n" else [s[0]] + FirstLine(s[1..])
  }

  /** `fgets`: up to and including the first newline, but at most `limit` characters. */
  function Fgets(s: string, limit: nat): (l: string)
    ensures l <= s && |l| <= limit
    ensures s != "" && limit > 0 ==> l != ""
  {
    if s == "" || limit == 0 then ""
    else if s[0] == '\n' then "\n"
    else [s[0]] + Fgets(s[1..], limit - 1)
  }

  ghost function Lines(s: string): (ls: seq<string>)
    decreases |s|
  {
    if s == "" then [] else var l := FirstLine(s); [l] + Lines(s[|l|..])
  }

  /** What successive calls of `fgets` deliver. */
  ghost function Pieces(s: string): (ps: seq<string>)
    decreases |s|
  {
    if s == "" then [] else var p := Fgets(s, PIECE); [p] + Pieces(s[|p|..])
  }

  ghost function Concat(ls: seq<string>): string {
    if ls == [] then "" else ls[0] + Concat(ls[1..])
  }

  lemma {:induction false} ConcatSnoc(ls: seq<string>, l: string)
    ensures Concat(ls + [l]) == Concat(ls) + l
  {
    if ls == [] {
      assert ls + [l] == [l] && [l][1..] == [];
    } else {
      ConcatSnoc(ls[1..], l);
      assert (ls + [l])[1..] == ls[1..] + [l];
    }
  }

  lemma {:induction false} ConcatLines(s: string)
    ensures Concat(Lines(s)) == s
    decreases |s|
  {
    if s != "" {
      var l := FirstLine(s);
      ConcatLines(s[|l|..]);
      assert s == l + s[|l|..];
    }
  }

  lemma {:induction false} ConcatPieces(s: string)
    ensures Concat(Pieces(s)) == s
    decreases |s|
  {
    if s != "" {
      var p := Fgets(s, PIECE);
      ConcatPieces(s[|p|..]);
      assert s == p + s[|p|..];
    }
  }

  /** Every line fits the buffer. */
  ghost predicate AllFit(s: string) {
    forall i :: 0 <= i < |Lines(s)| ==> |Lines(s)[i]| <= 4095
  }

  lemma {:induction false} FgetsIsLine(s: string, limit: nat)
    ensures |FirstLine(s)| <= limit ==> Fgets(s, limit) == FirstLine(s)
    ensures |FirstLine(s)| > limit ==> Fgets(s, limit) == s[..limit] && FirstLine(s[limit..]) == FirstLine(s)[limit..]
  {
    if s != "" && s[0] != '\n' && limit > 0 {
      FgetsIsLine(s[1..], limit - 1);
      if |FirstLine(s)| > limit {
        var l := FirstLine(s[1..]);
        assert s[1..][limit - 1..] == s[limit..];
        assert FirstLine(s) == [s[0]] + l;
        assert ([s[0]] + l)[limit..] == l[limit - 1..];
      }
    } else if limit == 0 {
      assert s[0..] == s && FirstLine(s)[0..] == FirstLine(s);
    }
  }

  /** The loop of writeT sees the file's lines exactly when every line fits the
      buffer; a line that does not fit counts as several. */
  lemma {:induction false} PiecesAreLinesExactly(s: string)
    ensures AllFit(s) <==> Pieces(s) == Lines(s)
    ensures |Pieces(s)| >= |Lines(s)|
    ensures !AllFit(s) ==> |Pieces(s)| > |Lines(s)|
    decreases |s|
  {
    if s != "" {
      var l, p := FirstLine(s), Fgets(s, PIECE);
      FgetsIsLine(s, PIECE);
      PiecesAreLinesExactly(s[|p|..]);
      if |l| <= PIECE {
        var rest := s[|l|..];
        assert Lines(s) == [l] + Lines(rest) && Pieces(s) == [l] + Pieces(rest);
        assert AllFit(s) <==> AllFit(rest) by {
          forall i | 0 <= i < |Lines(rest)| ensures Lines(s)[i + 1] == Lines(rest)[i] {}
        }
        assert Lines(s)[1..] == Lines(rest) && Pieces(s)[1..] == Pieces(rest);
      } else {
        LongLine(s);
      }
    }
  }

  lemma LinesFrom(s: string, l: string, tail: string)
    requires s != "" && FirstLine(s) == l && s[|l|..] == tail
    ensures Lines(s) == [l] + Lines(tail)
  {
  }

  /** Cutting the beginning of a line off leaves as many lines. */
  lemma CutLine(s: string, n: nat)
    requires n < |FirstLine(s)|
    ensures var l, l' := FirstLine(s), FirstLine(s[n..]); var tail := Lines(s[|l|..]);
            |l'| == |l| - n && Lines(s) == [l] + tail && Lines(s[n..]) == [l'] + tail
  {
    var l := FirstLine(s);
    var tail := s[|l|..];
    FgetsIsLine(s, n);
    LinesFrom(s, l, tail);
    DropDrop(s, n, |l|);
    LinesFrom(s[n..], l[n..], tail);
  }

  /** A line that is too long is read as more than one. */
  lemma LongLine(s: string)
    requires |FirstLine(s)| > PIECE
    ensures !AllFit(s)
    ensures Fgets(s, PIECE) == s[..PIECE] && |Lines(s[PIECE..])| == |Lines(s)|
  {
    FgetsIsLine(s, PIECE);
    CutLine(s, PIECE);
    assert Lines(s)[0] == FirstLine(s);
  }

  // ----- The line lists of built files -----------------------------------------

  /** A line as it stands in a file: one newline, at its end. */
  ghost predicate IsLine(l: string) {
    l != "" && l[|l| - 1] == '\n' && '\n' !in l[..|l| - 1]
  }

  /** Lines one after the other; only the last may lack its newline. */
  ghost predicate LineList(ls: seq<string>) {
    forall i :: 0 <= i < |ls| ==> IsLine(ls[i]) || (i == |ls| - 1 && ls[i] != "" && '\n' !in ls[i])
  }

  /** The file is empty or ends with a newline. */
  predicate Terminated(s: string) {
    s == "" || s[|s| - 1] == '\n'
  }

  function Newlines(s: string): nat {
    if s == "" then 0 else (if s[0] == '\n' then 1 else 0) + Newlines(s[1..])
  }

  lemma {:induction false} NewlinesConcat(a: string, b: string)
    ensures Newlines(a + b) == Newlines(a) + Newlines(b)
  {
    if a == "" {
      assert a + b == b;
    } else {
      NewlinesConcat(a[1..], b);
      assert (a + b)[1..] == a[1..] + b;
    }
  }

  lemma {:induction false} FirstLineAfter(a: string, rest: string)
    requires '\n' !in a
    ensures FirstLine(a + rest) == a + FirstLine(rest) && Newlines(a) == 0
  {
    if a == "" {
      assert a + rest == rest;
    } else {
      FirstLineAfter(a[1..], rest);
      assert (a + rest)[1..] == a[1..] + rest;
    }
  }

  /** A line at the front of a text is its first line. */
  lemma FinishedLine(l: string, rest: string)
    requires IsLine(l)
    ensures FirstLine(l + rest) == l
    ensures Lines(l + rest) == [l] + Lines(rest) && Newlines(l + rest) == 1 + Newlines(rest)
  {
    var a := l[..|l| - 1];
    assert l == a + "\n" && l + rest == a + ("\n" + rest);
    FirstLineAfter(a, "\n" + rest);
    NewlinesConcat(a, "\n" + rest);
    assert ("\n" + rest)[1..] == rest;
    assert (l + rest)[|l|..] == rest;
  }

  lemma UnfinishedLine(l: string)
    requires '\n' !in l
    ensures Newlines(l) == 0 && Lines(l) == if l == "" then [] else [l]
  {
    FirstLineAfter(l, "");
    assert l + "" == l;
  }

  /** The lines of a file are such a list, and their text is the file. */
  lemma {:induction false} LinesShape(s: string)
    ensures LineList(Lines(s))
    ensures Newlines(s) <= |Lines(s)| <= Newlines(s) + 1
    ensures |Lines(s)| == Newlines(s) <==> Terminated(s)
    ensures forall i :: 0 <= i < |Lines(s)| ==> (IsLine(Lines(s)[i]) <==> i < Newlines(s))
    decreases |s|
  {
    if '\n' in s {
      var l, rest := FirstLine(s), s[|FirstLine(s)|..];
      SplitLine(s);
      FinishedLine(l, rest);
      LinesShape(rest);
      forall i | 0 < i < |Lines(s)| ensures Lines(s)[i] == Lines(rest)[i - 1] {}
      assert rest == "" <==> |l| == |s|;
      assert rest != "" ==> rest[|rest| - 1] == s[|s| - 1];
    } else {
      UnfinishedLine(s);
    }
  }

  /** A text with a newline begins with a line. */
  lemma {:induction false} SplitLine(s: string)
    requires '\n' in s
    ensures IsLine(FirstLine(s)) && s == FirstLine(s) + s[|FirstLine(s)|..]
  {
    if s[0] != '\n' {
      assert s == [s[0]] + s[1..];
      SplitLine(s[1..]);
      var l := FirstLine(s[1..]);
      assert FirstLine(s)[..|l|] == [s[0]] + l[..|l| - 1];
    }
  }

  /** A list of lines put together has the lines of the list. */
  lemma {:induction false} LinesOfConcat(ls: seq<string>)
    requires LineList(ls)
    ensures Lines(Concat(ls)) == ls
  {
    if ls != [] {
      var l, rest := ls[0], ls[1..];
      forall i | 0 <= i < |rest| ensures IsLine(rest[i]) || (i == |rest| - 1 && rest[i] != "" && '\n' !in rest[i]) {
        assert rest[i] == ls[i + 1];
      }
      LinesOfConcat(rest);
      if IsLine(l) {
        FinishedLine(l, Concat(rest));
      } else {
        assert rest == [] && Concat(ls) == l;
        UnfinishedLine(l);
      }
    }
  }

  lemma {:induction false} ConcatSplit(a: seq<string>, b: seq<string>)
    ensures Concat(a + b) == Concat(a) + Concat(b)
  {
    var whole := a + b;
    if a == [] {
      assert whole == b;
    } else {
      ConcatSplit(a[1..], b);
      assert whole[0] == a[0] && whole[1..] == a[1..] + b;
      Regroup(a[0], Concat(a[1..]), Concat(b));
    }
  }

  // ----- writeT ----------------------------------------------------------------

  ghost function Edited(ps: seq<string>, k: int, str: string): (es: seq<string>)
    ensures |es| == |ps|
  {
    seq(|ps|, i requires 0 <= i < |ps| => if i + 1 == k then UpToNul(str) + "\n" else UpToNul(ps[i]))
  }

  /** What writeT makes of a file: whether it found the line, and the new file. */
  ghost function WriteResult(file: string, k: int, str: string): (bool, string) {
    if 1 <= k <= |Pieces(file)| then (true, Concat(Edited(Pieces(file), k, str))) else (false, file)
  }

  /** The piece that the first loop writes for the piece it read. */
  function Written(i: nat, k: int, str: string, piece: string): string {
    if i + 1 == k then UpToNul(str) + "\n" else UpToNul(piece)
  }

  lemma EditedSnoc(ps: seq<string>, k: int, str: string, p: string)
    ensures Edited(ps + [p], k, str) == Edited(ps, k, str) + [Written(|ps|, k, str, p)]
  {
  }

  /** One turn of the first loop. */
  lemma PieceStep(seen: seq<string>, k: int, str: string, rest: string)
    requires rest != ""
    ensures var p := Fgets(rest, PIECE);
            && seen + Pieces(rest) == (seen + [p]) + Pieces(rest[|p|..])
            && Concat(Edited(seen + [p], k, str)) == Concat(Edited(seen, k, str)) + Written(|seen|, k, str, p)
  {
    var p := Fgets(rest, PIECE);
    Regroup(seen, [p], Pieces(rest[|p|..]));
    EditedSnoc(seen, k, str, p);
    ConcatSnoc(Edited(seen, k, str), Written(|seen|, k, str, p));
  }

  /** The first loop of writeT: into a temporary file, with the line replaced. */
  method CopyReplacing(file: string, lineNumber: int, str: string) returns (placed: bool, temp: string)
    ensures placed <==> 1 <= lineNumber <= |Pieces(file)|
    ensures temp == Concat(Edited(Pieces(file), lineNumber, str))
    ensures NUL !in temp
  {
    placed := false;
    temp := "";
    var currentLine := 0;
    var rest := file;
    ghost var seen: seq<string> := [];
    while rest != ""
      invariant Pieces(file) == seen + Pieces(rest) && currentLine == |seen|
      invariant temp == Concat(Edited(seen, lineNumber, str))
      invariant placed <==> 1 <= lineNumber <= |seen|
      invariant NUL !in temp
      decreases |rest|
    {
      var buffer := Fgets(rest, PIECE);
      PieceStep(seen, lineNumber, str, rest);
      currentLine := currentLine + 1;
      if lineNumber == currentLine {
        temp := temp + (UpToNul(str) + "\n");
        placed := true;
      } else {
        temp := temp + UpToNul(buffer);
      }
      seen := seen + [buffer];
      rest := rest[|buffer|..];
    }
    assert seen + Pieces("") == seen;
  }

  /** The second loop of writeT: the temporary file back over the original. */
  method CopyBack(temp: string) returns (newFile: string)
    requires NUL !in temp
    ensures newFile == temp
  {
    newFile := "";
    var rest := temp;
    while rest != ""
      invariant newFile + rest == temp && NUL !in rest
      decreases |rest|
    {
      var buffer := Fgets(rest, PIECE);
      assert rest == buffer + rest[|buffer|..];
      newFile := newFile + UpToNul(buffer);
      rest := rest[|buffer|..];
    }
  }

  /** writeT with a line number: copy with the line replaced, and copy back if
      the line was found. */
  method WriteLine(file: string, lineNumber: int, str: string) returns (placed: bool, newFile: string)
    ensures (placed, newFile) == WriteResult(file, lineNumber, str)
  {
    var temp;
    placed, temp := CopyReplacing(file, lineNumber, str);
    newFile := file;
    if placed {
      newFile := CopyBack(temp);
    }
  }

  // ----- readF -----------------------------------------------------------------

  /** readF collects a line in a buffer of 4096 characters. */
  const LINE: nat := 4096

  /** What readF sends for a line number, and whether it reports the number as
      beyond the file. */
  ghost function ReadResult(file: string, k: int): (string, bool) {
    var n := Newlines(file);
    LinesShape(file);
    (if 1 <= k <= n then Lines(file)[k - 1] else "", k < 1 || k > n + 1)
  }

  /** How many characters of line `i` are stored: its newline only if it is sent. */
  ghost function Stored(l: string, i: nat, k: int): nat {
    if IsLine(l) && i + 1 != k then |l| - 1 else |l|
  }

  /** The lines that are read, up to the one sent, fit the line buffer. */
  ghost predicate ReadFits(file: string, k: int) {
    forall i :: 0 <= i < |Lines(file)| && (i < k || !(1 <= k <= Newlines(file))) ==> Stored(Lines(file)[i], i, k) <= 4096
  }

  /** `before` are the first lines of the file, `ahead` is what follows them. */
  ghost predicate Behind(file: string, before: seq<string>, ahead: string) {
    Lines(file) == before + Lines(ahead) && Newlines(file) == |before| + Newlines(ahead)
  }

  /** A finished line moves from what is ahead to what is behind. */
  lemma LineStep(file: string, before: seq<string>, line: string, rest: string)
    requires IsLine(line) && Behind(file, before, line + rest)
    ensures Behind(file, before + [line], rest)
    ensures |before| < Newlines(file) && |before| < |Lines(file)| && Lines(file)[|before|] == line
  {
    FinishedLine(line, rest);
    Regroup(before, [line], Lines(rest));
  }

  lemma CharStep(line: string, file: string, pos: nat)
    requires pos < |file|
    ensures line + file[pos..] == (line + [file[pos]]) + file[pos + 1..]
  {
  }

  /** A full buffer and one more character to store: the line does not fit. */
  lemma Overflow(file: string, k: int, before: seq<string>, line: string, ch: char, rest: string)
    requires '\n' !in line && |line| == LINE && Behind(file, before, (line + [ch]) + rest)
    requires ch == '\n' ==> |before| + 1 == k
    requires 1 <= k ==> |before| < k
    ensures !ReadFits(file, k)
  {
    var ahead, i := (line + [ch]) + rest, |before|;
    assert ahead == line + ([ch] + rest);
    FirstLineAfter(line, [ch] + rest);
    var l := FirstLine(ahead);
    assert Lines(ahead)[0] == l && Lines(file)[i] == l;
    assert |FirstLine([ch] + rest)| >= 1 && (ch != '\n' && IsLine(l) ==> |l| > LINE + 1) by {
      assert l[LINE] == ch;
    }
  }

  /** At the end of the file the lines behind and the unfinished one are all. */
  lemma EndOfFile(file: string, k: int, before: seq<string>, line: string)
    requires Behind(file, before, line) && '\n' !in line && |line| <= LINE
    requires forall i :: 0 <= i < |before| ==> Stored(before[i], i, k) <= LINE
    ensures Newlines(file) == |before| && ReadFits(file, k)
  {
    UnfinishedLine(line);
    forall i | 0 <= i < |Lines(file)| ensures Stored(Lines(file)[i], i, k) <= LINE {
      assert i < |before| ==> Lines(file)[i] == before[i];
    }
  }

  /** The line sent and those behind it fit. */
  lemma SentFits(file: string, k: int, before: seq<string>, line: string, rest: string)
    requires IsLine(line) && |line| <= LINE && Behind(file, before, line + rest) && |before| + 1 == k
    requires forall i :: 0 <= i < |before| ==> Stored(before[i], i, k) <= LINE
    ensures ReadFits(file, k)
  {
    LineStep(file, before, line, rest);
    forall i | 0 <= i < |Lines(file)| && i < k ensures Stored(Lines(file)[i], i, k) <= LINE {
      assert i < |before| ==> Lines(file)[i] == before[i];
    }
  }

  /** The character loop of readF. A store beyond the line buffer, which is not
      checked there, ends the model's loop with `inBounds` false. */
  method ReadLine(file: string, lineNumber: int) returns (sent: string, beyond: bool, inBounds: bool)
    ensures inBounds <==> ReadFits(file, lineNumber)
    ensures inBounds ==> (sent, beyond) == ReadResult(file, lineNumber)
  {
    var currentLine := 1;
    var line := "";
    sent, beyond, inBounds := "", false, false;
    var pos := 0;
    ghost var before: seq<string> := [];
    assert line + file[pos..] == file;
    while pos < |file|
      invariant 0 <= pos <= |file|
      invariant '\n' !in line && |line| <= LINE
      invariant currentLine == |before| + 1 && (1 <= lineNumber ==> currentLine <= lineNumber)
      invariant forall i :: 0 <= i < |before| ==> Stored(before[i], i, lineNumber) <= LINE
      invariant Behind(file, before, line + file[pos..])
      invariant sent == "" && !inBounds
    {
      CharStep(line, file, pos);
      var ch := file[pos];
      pos := pos + 1;
      ghost var longer := line + [ch];
      if |line| == LINE && (ch != '\n' || currentLine == lineNumber) {
        Overflow(file, lineNumber, before, line, ch, file[pos..]);
        return;
      }
      if ch == '\n' {
        assert longer[..|line|] == line;
        LineStep(file, before, longer, file[pos..]);
        if currentLine == lineNumber {
          SentFits(file, lineNumber, before, longer, file[pos..]);
          line := line + [ch];
          sent, inBounds := line, true;
          beyond := currentLine < lineNumber || lineNumber < 1;
          return;
        }
        before := before + [longer];
        line := "";
        assert line + file[pos..] == file[pos..];
        currentLine := currentLine + 1;
      } else {
        line := line + [ch];
      }
    }
    assert line + file[pos..] == line;
    EndOfFile(file, lineNumber, before, line);
    inBounds := true;
    beyond := currentLine < lineNumber || lineNumber < 1;
  }

  /** readF is silent, sending nothing and reporting nothing, for exactly one
      number in every file. */
  lemma SilentExactly(file: string, k: int)
    ensures var (sent, beyond) := ReadResult(file, k); sent == "" && !beyond <==> k == Newlines(file) + 1
  {
    LinesShape(file);
  }

  /** A line is sent if and only if it is finished, so in a file that does not
      end with a newline the last line is passed over in silence. */
  lemma SentExactly(file: string, k: nat)
    requires 1 <= k <= |Lines(file)|
    ensures ReadResult(file, k) == (Lines(file)[k - 1], false) <==> k < |Lines(file)| || Terminated(file)
    ensures k == |Lines(file)| && !Terminated(file) ==> ReadResult(file, k) == ("", false)
  {
    LinesShape(file);
  }

  lemma LastLineUnsent()
    ensures Lines("a\nb") == ["a\n", "b"] && ReadResult("a\nb", 2) == ("", false)
  {
    assert "a\nb" == "a\n" + "b";
    FinishedLine("a\n", "b");
    UnfinishedLine("b");
    assert ["a\n"] + ["b"] == ["a\n", "b"];
  }
}
