/** What writeT does to the numbered line, exactly, and the round trip with readF. */
module LineWrite {
  import opened CStrings
  import opened LineEdit
  import opened Sequences

  // ----- Where lines and pieces end --------------------------------------------

  /** The first parts of a text, and the rest. */
  lemma PrefixOfParts(s: string, ps: seq<string>, k: nat)
    requires Concat(ps) == s && k <= |ps|
    ensures var e := |Concat(ps[..k])|;
            e <= |s| && Concat(ps[..k]) == s[..e] && Concat(ps[k..]) == s[e..]
  {
    assert ps == ps[..k] + ps[k..];
    ConcatSplit(ps[..k], ps[k..]);
  }

  /** Where the k-th line ends, and where the k-th piece ends. */
  ghost function LineEnd(s: string, k: nat): (e: nat)
    requires k <= |Lines(s)|
    ensures e <= |s|
  {
    ConcatLines(s);
    PrefixOfParts(s, Lines(s), k);
    |Concat(Lines(s)[..k])|
  }

  ghost function PieceEnd(s: string, k: nat): (e: nat)
    requires k <= |Pieces(s)|
    ensures e <= |s|
  {
    ConcatPieces(s);
    PrefixOfParts(s, Pieces(s), k);
    |Concat(Pieces(s)[..k])|
  }

  /** The lines up to number `k` fit the buffer. */
  ghost predicate FirstFit(s: string, k: int) {
    forall i :: 0 <= i < |Lines(s)| && i < k ==> |Lines(s)[i]| <= 4095
  }

  lemma EndSteps(s: string, k: nat)
    requires 0 < k
    ensures k <= |Lines(s)| ==> LineEnd(s, k) == LineEnd(s, k - 1) + |Lines(s)[k - 1]|
    ensures k <= |Pieces(s)| ==> PieceEnd(s, k) == PieceEnd(s, k - 1) + |Pieces(s)[k - 1]|
  {
    if k <= |Lines(s)| {
      assert Lines(s)[..k] == Lines(s)[..k - 1] + [Lines(s)[k - 1]];
      ConcatSnoc(Lines(s)[..k - 1], Lines(s)[k - 1]);
    }
    if k <= |Pieces(s)| {
      assert Pieces(s)[..k] == Pieces(s)[..k - 1] + [Pieces(s)[k - 1]];
      ConcatSnoc(Pieces(s)[..k - 1], Pieces(s)[k - 1]);
    }
  }

  lemma LineEndsGrow(s: string, k: nat)
    requires 0 < k <= |Lines(s)|
    ensures LineEnd(s, k - 1) < LineEnd(s, k)
  {
    EndSteps(s, k);
    LinesShape(s);
    assert Lines(s)[k - 1] != "";
  }

  lemma FirstFitBehind(s: string, k: nat)
    requires s != "" && 0 < k
    ensures FirstFit(s, k) <==> |FirstLine(s)| <= PIECE && FirstFit(s[|FirstLine(s)|..], k - 1)
  {
    var l := FirstLine(s);
    var rest := s[|l|..];
    assert Lines(s) == [l] + Lines(rest) && Lines(s)[0] == l;
    forall i | 0 <= i < |Lines(rest)| ensures Lines(s)[i + 1] == Lines(rest)[i] {}
  }

  lemma ConcatPrefix(p: string, ps: seq<string>, k: nat)
    requires 0 < k <= |ps| + 1
    ensures |Concat(([p] + ps)[..k])| == |p| + |Concat(ps[..k - 1])|
  {
    assert ([p] + ps)[..k] == [p] + ps[..k - 1] && ([p] + ps[..k - 1])[1..] == ps[..k - 1];
  }

  /** Behind a first line that fits, everything starts again. */
  lemma EndsBehindLine(s: string, k: nat)
    requires s != "" && |FirstLine(s)| <= PIECE && 0 < k
    ensures var l := FirstLine(s); var rest := s[|l|..];
            && Pieces(s) == [l] + Pieces(rest) && Lines(s) == [l] + Lines(rest)
            && (k <= |Lines(s)| ==> LineEnd(s, k) == |l| + LineEnd(rest, k - 1))
            && (k <= |Pieces(s)| ==> PieceEnd(s, k) == |l| + PieceEnd(rest, k - 1))
  {
    FgetsIsLine(s, PIECE);
    var l := FirstLine(s);
    var rest := s[|l|..];
    if k <= |Lines(s)| {
      ConcatPrefix(l, Lines(rest), k);
    }
    if k <= |Pieces(s)| {
      ConcatPrefix(l, Pieces(rest), k);
    }
  }

  /** Behind the first piece of a line that does not fit, the lines end where
      they did, and the pieces are one behind. */
  lemma EndsBehindPiece(s: string, k: nat)
    requires |FirstLine(s)| > PIECE && 0 < k
    ensures var rest := s[PIECE..];
            && |Lines(rest)| == |Lines(s)| && Pieces(s) == [s[..PIECE]] + Pieces(rest)
            && (k <= |Lines(s)| ==> LineEnd(s, k) == PIECE + LineEnd(rest, k))
            && (k <= |Pieces(s)| ==> PieceEnd(s, k) == PIECE + PieceEnd(rest, k - 1))
  {
    LongLine(s);
    CutLine(s, PIECE);
    var l, rest := FirstLine(s), s[PIECE..];
    var tail := Lines(s[|l|..]);
    if k <= |Lines(s)| {
      ConcatPrefix(l, tail, k);
      ConcatPrefix(FirstLine(rest), tail, k);
    }
    if k <= |Pieces(s)| {
      ConcatPrefix(s[..PIECE], Pieces(rest), k);
    }
  }

  /** The k-th piece never ends behind the k-th line, and ends with it exactly if
      all lines so far fit. */
  lemma {:induction false} PiecesLagBehind(s: string, k: nat)
    requires k <= |Lines(s)|
    ensures k <= |Pieces(s)| && PieceEnd(s, k) <= LineEnd(s, k)
    ensures PieceEnd(s, k) == LineEnd(s, k) <==> FirstFit(s, k)
    decreases |s|, 1
  {
    if k > 0 {
      var l := FirstLine(s);
      FirstFitBehind(s, k);
      if |l| <= PIECE {
        EndsBehindLine(s, k);
        PiecesLagBehind(s[|l|..], k - 1);
      } else {
        LagBehindPiece(s, k);
      }
    }
  }

  lemma {:induction false} LagBehindPiece(s: string, k: nat)
    requires |FirstLine(s)| > PIECE && 0 < k <= |Lines(s)|
    ensures k <= |Pieces(s)| && PieceEnd(s, k) < LineEnd(s, k)
    decreases |s|, 0
  {
    var rest := s[PIECE..];
    EndsBehindPiece(s, k);
    PiecesLagBehind(rest, k - 1);
    LineEndsGrow(rest, k);
  }

  lemma {:induction false} PieceNotEmpty(s: string, j: nat)
    requires j < |Pieces(s)|
    ensures Pieces(s)[j] != ""
    decreases |s|
  {
    if j > 0 {
      PieceNotEmpty(s[|Fgets(s, PIECE)|..], j - 1);
    }
  }

  lemma {:induction false} PieceEndsGrow(s: string, i: nat, j: nat)
    requires i < j <= |Pieces(s)|
    ensures PieceEnd(s, i) < PieceEnd(s, j)
    decreases j
  {
    EndSteps(s, j);
    PieceNotEmpty(s, j - 1);
    if i < j - 1 {
      PieceEndsGrow(s, i, j - 1);
    }
  }

  ghost predicate EndsTogether(s: string, k: nat, m: nat) {
    k <= |Lines(s)| && k <= m <= |Pieces(s)| && PieceEnd(s, m) == LineEnd(s, k)
  }

  lemma StartTogether(s: string)
    ensures EndsTogether(s, 0, 0)
  {
    assert Lines(s)[..0] == [] && Pieces(s)[..0] == [];
  }

  /** If the k-th line of what is behind the first ends with a piece ... */
  lemma EndBehindLine(s: string, k: nat, m: nat)
    requires s != "" && |FirstLine(s)| <= PIECE && EndsTogether(s[|FirstLine(s)|..], k, m)
    ensures EndsTogether(s, k + 1, m + 1)
  {
    EndsBehindLine(s, k + 1);
    EndsBehindLine(s, m + 1);
  }

  /** ... or of what is behind the first piece. */
  lemma EndBehindPiece(s: string, k: nat, m: nat)
    requires |FirstLine(s)| > PIECE && 0 < k && EndsTogether(s[PIECE..], k, m)
    ensures EndsTogether(s, k, m + 1)
  {
    EndsBehindPiece(s, k);
    EndsBehindPiece(s, m + 1);
  }

  /** Where a line ends, a piece ends. */
  lemma {:induction false} LineEndIsPieceEnd(s: string, k: nat) returns (m: nat)
    requires k <= |Lines(s)|
    ensures EndsTogether(s, k, m)
    decreases |s|, 1
  {
    if k == 0 {
      m := 0;
      StartTogether(s);
    } else if |FirstLine(s)| <= PIECE {
      m := PieceEndBehindLine(s, k);
    } else {
      m := PieceEndBehindPiece(s, k);
    }
  }

  lemma {:induction false} PieceEndBehindLine(s: string, k: nat) returns (m: nat)
    requires 0 < k <= |Lines(s)| && |FirstLine(s)| <= PIECE
    ensures EndsTogether(s, k, m)
    decreases |s|, 0
  {
    var l := FirstLine(s);
    var rest := s[|l|..];
    LinesFrom(s, l, rest);
    var behind := LineEndIsPieceEnd(rest, k - 1);
    EndBehindLine(s, k - 1, behind);
    m := behind + 1;
  }

  lemma {:induction false} PieceEndBehindPiece(s: string, k: nat) returns (m: nat)
    requires 0 < k <= |Lines(s)| && |FirstLine(s)| > PIECE
    ensures EndsTogether(s, k, m)
    decreases |s|, 0
  {
    LongLine(s);
    var behind := LineEndIsPieceEnd(s[PIECE..], k);
    EndBehindPiece(s, k, behind);
    m := behind + 1;
  }

  // ----- What is left of pieces with NULs --------------------------------------

  ghost function Cut(ps: seq<string>): (cs: seq<string>)
    ensures |cs| == |ps|
  {
    seq(|ps|, i requires 0 <= i < |ps| => UpToNul(ps[i]))
  }

  /** What `fputs` writes of the pieces. */
  ghost function Kept(ps: seq<string>): string {
    Concat(Cut(ps))
  }

  lemma KeptFirst(ps: seq<string>)
    requires ps != []
    ensures Kept(ps) == UpToNul(ps[0]) + Kept(ps[1..])
  {
    assert Cut(ps)[1..] == Cut(ps[1..]);
  }

  lemma KeptSplit(a: seq<string>, b: seq<string>)
    ensures Kept(a + b) == Kept(a) + Kept(b)
  {
    assert Cut(a + b) == Cut(a) + Cut(b);
    ConcatSplit(Cut(a), Cut(b));
  }

  ghost predicate NoNuls(ps: seq<string>) {
    forall i :: 0 <= i < |ps| ==> NUL !in ps[i]
  }

  lemma NoNulsFirst(ps: seq<string>)
    requires ps != []
    ensures NoNuls(ps) <==> NUL !in ps[0] && NoNuls(ps[1..])
  {
    forall i | 0 <= i < |ps| - 1 ensures ps[1..][i] == ps[i + 1] {}
  }

  /** Pieces are written whole exactly if they have no NUL. */
  lemma {:induction false} KeptWhole(ps: seq<string>)
    ensures NUL !in Kept(ps) && |Kept(ps)| <= |Concat(ps)|
    ensures NoNuls(ps) <==> NUL !in Concat(ps)
    ensures |Kept(ps)| == |Concat(ps)| <==> NoNuls(ps)
    ensures NoNuls(ps) ==> Kept(ps) == Concat(ps)
  {
    if ps != [] {
      KeptFirst(ps);
      NoNulsFirst(ps);
      KeptWhole(ps[1..]);
    }
  }

  ghost predicate AllLost(ps: seq<string>) {
    forall i :: 0 <= i < |ps| ==> [NUL] <= ps[i]
  }

  /** Nothing of them is written exactly if each begins with a NUL. */
  lemma {:induction false} KeptNothing(ps: seq<string>)
    requires forall i :: 0 <= i < |ps| ==> ps[i] != ""
    ensures Kept(ps) == "" <==> AllLost(ps)
  {
    if ps != [] {
      KeptFirst(ps);
      KeptNothing(ps[1..]);
      forall i | 0 <= i < |ps| - 1 ensures ps[1..][i] == ps[i + 1] {}
      assert AllLost(ps) <==> [NUL] <= ps[0] && AllLost(ps[1..]);
    }
  }

  // ----- What writeT makes of a line -------------------------------------------

  ghost predicate CString(str: string) {
    NUL !in str
  }

  lemma EditedParts(ps: seq<string>, k: nat, str: string)
    requires 1 <= k <= |ps| && CString(str)
    ensures Concat(Edited(ps, k, str)) == Kept(ps[..k - 1]) + (str + "\n") + Kept(ps[k..])
  {
    var a, b := Cut(ps[..k - 1]), Cut(ps[k..]);
    var es, parts := Edited(ps, k, str), (a + [str + "\n"]) + b;
    forall i | 0 <= i < |ps| ensures es[i] == parts[i] {
      if i < k - 1 {
        assert parts[i] == a[i] == UpToNul(ps[..k - 1][i]);
      } else if i > k - 1 {
        assert parts[i] == b[i - k] == UpToNul(ps[k..][i - k]);
      } else {
        assert |a| == i && parts[i] == str + "\n" && UpToNul(str) == str;
      }
    }
    assert es == parts;
    ConcatSplit(a + [str + "\n"], b);
    ConcatSnoc(a, str + "\n");
  }

  /** What a user wants of writeT: the numbered line replaced by the text, and
      nothing done for a number that names no line. */
  ghost function LineReplaced(file: string, k: int, str: string): (bool, string) {
    if 1 <= k <= |Lines(file)| then (true, Concat(Lines(file)[k - 1 := str + "\n"])) else (false, file)
  }

  lemma LineReplacedAt(file: string, k: nat, str: string)
    requires 1 <= k <= |Lines(file)|
    ensures LineReplaced(file, k, str) == (true, file[..LineEnd(file, k - 1)] + (str + "\n") + file[LineEnd(file, k)..])
  {
    var ls := Lines(file);
    ConcatLines(file);
    PrefixOfParts(file, ls, k - 1);
    PrefixOfParts(file, ls, k);
    assert ls[k - 1 := str + "\n"] == (ls[..k - 1] + [str + "\n"]) + ls[k..];
    ConcatSplit(ls[..k - 1] + [str + "\n"], ls[k..]);
    ConcatSnoc(ls[..k - 1], str + "\n");
  }

  /** What is left of a line that does not fit, behind its first piece, is lost. */
  ghost predicate LeftoverLost(file: string, k: nat)
    requires 1 <= k <= |Lines(file)|
  {
    forall j :: k <= j < |Pieces(file)| && PieceEnd(file, j) < LineEnd(file, k) ==> [NUL] <= Pieces(file)[j]
  }

  /** The lines before number `k` fit the buffer, no other line has a NUL, and
      of line `k` nothing is left that would be written back. */
  ghost predicate WritesLine(file: string, k: nat)
    requires 1 <= k <= |Lines(file)|
  {
    && FirstFit(file, k - 1)
    && NUL !in file[..LineEnd(file, k - 1)] && NUL !in file[LineEnd(file, k)..]
    && LeftoverLost(file, k)
  }

  lemma PiecesUpTo(file: string, k: nat)
    requires k <= |Pieces(file)|
    ensures Concat(Pieces(file)[..k]) == file[..PieceEnd(file, k)] && Concat(Pieces(file)[k..]) == file[PieceEnd(file, k)..]
  {
    ConcatPieces(file);
    PrefixOfParts(file, Pieces(file), k);
  }

  /** What comes before the line is written right exactly if it fits and has no NUL. */
  lemma BeforeRight(file: string, k: nat)
    requires k <= |Lines(file)|
    ensures k <= |Pieces(file)| && |Kept(Pieces(file)[..k])| <= LineEnd(file, k)
    ensures var c := file[..LineEnd(file, k)];
            Kept(Pieces(file)[..k]) == c <==> FirstFit(file, k) && NUL !in c
  {
    PiecesLagBehind(file, k);
    PiecesUpTo(file, k);
    KeptWhole(Pieces(file)[..k]);
  }

  lemma LeftoverPieces(file: string, k: nat, m: nat)
    requires 1 <= k <= |Lines(file)| && k <= m <= |Pieces(file)| && PieceEnd(file, m) == LineEnd(file, k)
    ensures LeftoverLost(file, k) <==> Kept(Pieces(file)[k..m]) == ""
  {
    var ps := Pieces(file)[k..m];
    forall j | k <= j < |Pieces(file)| ensures Pieces(file)[j] != "" && (PieceEnd(file, j) < PieceEnd(file, m) <==> j < m) {
      PieceNotEmpty(file, j);
      if j < m {
        PieceEndsGrow(file, j, m);
      } else if m < j {
        PieceEndsGrow(file, m, j);
      }
    }
    forall i | 0 <= i < |ps| ensures ps[i] == Pieces(file)[k + i] {}
    KeptNothing(ps);
    assert LeftoverLost(file, k) ==> AllLost(ps);
    if AllLost(ps) {
      forall j | k <= j < |Pieces(file)| && PieceEnd(file, j) < LineEnd(file, k) ensures [NUL] <= Pieces(file)[j] {
        assert ps[j - k] == Pieces(file)[j];
      }
    }
  }

  /** Parts in front of a text are lost, and the text is whole. */
  lemma FrontLost(front: seq<string>, ps: seq<string>)
    ensures Kept(front + ps) == Concat(ps) <==> Kept(front) == "" && NUL !in Concat(ps)
  {
    KeptSplit(front, ps);
    KeptWhole(front);
    KeptWhole(ps);
    EmptyFront(Kept(front), Kept(ps), Concat(ps));
  }

  lemma EmptyFront(x: string, y: string, d: string)
    requires NUL !in x && NUL !in y && (NUL !in d ==> y == d)
    ensures x + y == d <==> x == "" && NUL !in d
  {
    if x + y == d {
      assert NUL !in x + y;
      assert |x + y| == |x| + |y|;
    }
    if x == "" {
      assert x + y == y;
    }
  }

  /** What comes behind the line is written right exactly if it has no NUL and
      nothing is left of the line. */
  lemma AfterRight(file: string, k: nat)
    requires 1 <= k <= |Lines(file)|
    ensures k <= |Pieces(file)|
    ensures var d := file[LineEnd(file, k)..];
            Kept(Pieces(file)[k..]) == d <==> NUL !in d && LeftoverLost(file, k)
  {
    var m := LineEndIsPieceEnd(file, k);
    PiecesUpTo(file, m);
    LeftoverPieces(file, k, m);
    SplitParts(Pieces(file), k, m);
    FrontLost(Pieces(file)[k..m], Pieces(file)[m..]);
  }

  lemma SplitParts(ps: seq<string>, k: nat, m: nat)
    requires k <= m <= |ps|
    ensures ps[k..] == ps[k..m] + ps[m..]
  {
  }

  /** Two frames agree on every text only if they are the same. */
  lemma SameFrame(a: string, b: string, c: string, d: string)
    requires |a| <= |c|
    ensures (forall str :: CString(str) ==> a + (str + "\n") + b == c + (str + "\n") + d) <==> a == c && b == d
  {
    if !(a == c && b == d) {
      var str := DifferentText(a, b, c, d);
    }
  }

  lemma DifferentText(a: string, b: string, c: string, d: string) returns (str: string)
    requires |a| <= |c| && !(a == c && b == d)
    ensures CString(str) && a + (str + "\n") + b != c + (str + "\n") + d
  {
    if |a| < |c| {
      str := if c[|a|] == 'a' then "b" else "a";
      assert (a + (str + "\n") + b)[|a|] == str[0];
      assert (c + (str + "\n") + d)[|a|] == c[|a|];
    } else {
      str := "";
      assert "" + "\n" == "\n";
      var got, wanted := a + "\n" + b, c + "\n" + d;
      assert got[..|a|] == a && wanted[..|a|] == c;
      assert got[|a| + 1..] == b && wanted[|a| + 1..] == d;
    }
  }

  lemma WriteResultAt(file: string, k: nat, str: string)
    requires 1 <= k <= |Pieces(file)| && CString(str)
    ensures WriteResult(file, k, str)
            == (true, Kept(Pieces(file)[..k - 1]) + (str + "\n") + Kept(Pieces(file)[k..]))
  {
    EditedParts(Pieces(file), k, str);
  }

  /** Exactly when writeT replaces line `k`, whatever the text. */
  lemma LineRightExactly(file: string, k: nat)
    requires 1 <= k <= |Lines(file)|
    ensures (forall str :: CString(str) ==> WriteResult(file, k, str) == LineReplaced(file, k, str)) <==> WritesLine(file, k)
  {
    BeforeRight(file, k - 1);
    AfterRight(file, k);
    var a, b := Kept(Pieces(file)[..k - 1]), Kept(Pieces(file)[k..]);
    var c, d := file[..LineEnd(file, k - 1)], file[LineEnd(file, k)..];
    forall str | CString(str)
      ensures WriteResult(file, k, str) == LineReplaced(file, k, str) <==> a + (str + "\n") + b == c + (str + "\n") + d
    {
      WriteResultAt(file, k, str);
      LineReplacedAt(file, k, str);
    }
    SameFrame(a, b, c, d);
  }

  /** Exactly when writeT does what is wanted, whatever the text: for a line of
      the file, as just said; for a number that names no line, if there are fewer
      pieces than that. */
  lemma WriteRightExactly(file: string, k: int)
    ensures (forall str :: CString(str) ==> WriteResult(file, k, str) == LineReplaced(file, k, str)) <==>
              if 1 <= k <= |Lines(file)| then WritesLine(file, k) else k < 1 || k > |Pieces(file)|
  {
    if 1 <= k <= |Lines(file)| {
      LineRightExactly(file, k);
    } else if 1 <= k <= |Pieces(file)| {
      assert CString("") && WriteResult(file, k, "") != LineReplaced(file, k, "");
    }
  }

  /** So it is right for the first lines that fit, in a file without NULs. */
  lemma FitIsRight(file: string, k: nat)
    requires 1 <= k <= |Lines(file)| && FirstFit(file, k) && NUL !in file
    ensures WritesLine(file, k)
  {
    PiecesLagBehind(file, k);
    LeftoverPieces(file, k, k);
  }

  /** If the first `k` lines fit, a single text already tells: the edit is right
      if and only if no piece other than the line has a NUL. */
  lemma FitRightExactly(file: string, k: nat, str: string)
    requires 1 <= k <= |Lines(file)| && FirstFit(file, k) && CString(str)
    ensures WriteResult(file, k, str) == LineReplaced(file, k, str) <==>
              forall i :: 0 <= i < |Pieces(file)| && i != k - 1 ==> NUL !in Pieces(file)[i]
  {
    var ps := Pieces(file);
    PiecesLagBehind(file, k - 1);
    PiecesLagBehind(file, k);
    PiecesUpTo(file, k - 1);
    PiecesUpTo(file, k);
    WriteResultAt(file, k, str);
    LineReplacedAt(file, k, str);
    var before, behind := ps[..k - 1], ps[k..];
    KeptWhole(before);
    KeptWhole(behind);
    SameFrameLength(Kept(before), Kept(behind), Concat(before), Concat(behind), str + "\n");
    assert NoNuls(before) && NoNuls(behind) <==>
           forall i :: 0 <= i < |ps| && i != k - 1 ==> NUL !in ps[i] by {
      forall i | 0 <= i < k - 1 ensures before[i] == ps[i] {}
      forall i | k <= i < |ps| ensures behind[i - k] == ps[i] {}
    }
  }

  lemma SameFrameLength(a: string, b: string, c: string, d: string, x: string)
    requires |a| <= |c| && |b| <= |d| && (|a| == |c| ==> a == c) && (|b| == |d| ==> b == d)
    ensures a + x + b == c + x + d <==> |a| == |c| && |b| == |d|
  {
    if a + x + b == c + x + d {
      assert |a + x + b| == |a| + |x| + |b| && |c + x + d| == |c| + |x| + |d|;
    }
  }

  /** A file of two lines that fit. */
  lemma TwoLines(first: string, second: string)
    requires IsLine(first) && IsLine(second) && |first| <= PIECE && |second| <= PIECE
    ensures Lines(first + second) == [first, second] == Pieces(first + second)
    ensures FirstFit(first + second, 2)
  {
    FinishedLine(first, second);
    FinishedLine(second, "");
    assert second + "" == second;
    assert Lines(second) == [second] && [first] + [second] == [first, second];
    PiecesAreLinesExactly(first + second);
  }

  lemma EditOfSecond(first: string, second: string, str: string)
    requires IsLine(first) && IsLine(second) && |first| <= PIECE && |second| <= PIECE && CString(str)
    ensures WriteResult(first + second, 2, str) == (true, UpToNul(first) + (str + "\n"))
    ensures LineReplaced(first + second, 2, str) == (true, first + (str + "\n"))
  {
    TwoLines(first, second);
    var ps, x := [first, second], str + "\n";
    EditedParts(ps, 2, str);
    assert ps[..1] == [first] && ps[2..] == [];
    KeptFirst([first]);
    assert Kept([]) == "" && UpToNul(first) + "" == UpToNul(first) && UpToNul(first) + x + "" == UpToNul(first) + x;
    assert ps[1 := x] == [first] + [x];
    ConcatSnoc([first], x);
    assert Concat([first]) == first + "" == first;
  }

  lemma UpToNulStops(a: string, b: string)
    requires |a| == 1 && NUL !in a
    ensures UpToNul(a + ([NUL] + b)) == a
  {
    var s := a + ([NUL] + b);
    assert s[0] == a[0] && s[1..] == [NUL] + b;
    assert UpToNul(s[1..]) == "" && UpToNul(s) == [s[0]] + "";
  }

  /** A NUL in another line: that line loses its end, and so its newline. */
  lemma NulLosesText()
    ensures var file := "a\0b\n" + "c\n";
            && FirstFit(file, 2)
            && WriteResult(file, 2, "x") == (true, "a" + "x\n")
            && LineReplaced(file, 2, "x") == (true, "a\0b\n" + "x\n")
  {
    var first, second := "a\0b\n", "c\n";
    assert IsLine(first) && IsLine(second) by {
      assert first[..3] == "a\0b" && second[..1] == "c";
    }
    TwoLines(first, second);
    EditOfSecond(first, second, "x");
    assert UpToNul(first) == "a" by {
      UpToNulStops("a", "b\n");
      assert first == "a" + ([NUL] + "b\n");
    }
    assert "x" + "\n" == "x\n";
  }

  // ----- Round trip ------------------------------------------------------------

  /** Where writeT is right, the numbered line is replaced and all others stay. */
  lemma WriteReplacesLine(file: string, k: int, str: string)
    requires CString(str)
    requires if 1 <= k <= |Lines(file)| then WritesLine(file, k) else k < 1 || k > |Pieces(file)|
    ensures WriteResult(file, k, str) == LineReplaced(file, k, str)
    ensures 1 <= k <= |Lines(file)| && '\n' !in str ==>
              Lines(WriteResult(file, k, str).1) == Lines(file)[k - 1 := str + "\n"]
  {
    WriteRightExactly(file, k);
    if 1 <= k <= |Lines(file)| && '\n' !in str {
      LinesShape(file);
      TextIsLine(str);
      LinesOfConcat(Lines(file)[k - 1 := str + "\n"]);
    }
  }

  lemma TextIsLine(str: string)
    requires '\n' !in str
    ensures IsLine(str + "\n")
  {
    assert (str + "\n")[..|str|] == str;
  }

  /** Round trip: what writeT puts on line `k`, readF sends back, with a newline,
      inside its buffer exactly if the text is short enough; every other line
      reads as before. (If the line replaced is an unfinished last one, the file
      has a line more that readF can send.) */
  lemma WriteThenRead(file: string, k: int, str: string, j: int)
    requires 1 <= k <= |Lines(file)| && WritesLine(file, k) && CString(str) && '\n' !in str
    ensures var file' := WriteResult(file, k, str).1;
            && ReadResult(file', k) == (str + "\n", false)
            && (ReadFits(file', k) <==> |str| < 4096)
            && (j != k && (j <= k || k < |Lines(file)| || Terminated(file)) ==> ReadResult(file', j) == ReadResult(file, j))
  {
    WriteReplacesLine(file, k, str);
    var file' := WriteResult(file, k, str).1;
    LinesShape(file);
    LinesShape(file');
    TextIsLine(str);
    assert Lines(file')[k - 1] == str + "\n";
    SameNewlines(file, file', k);
    forall i | 0 <= i < k - 1 ensures Stored(Lines(file')[i], i, k) <= LINE {
      assert Lines(file')[i] == Lines(file)[i];
    }
  }

  /** Replacing a line by a finished one changes the number of newlines only if
      the line was unfinished. */
  lemma SameNewlines(file: string, file': string, k: nat)
    requires 1 <= k <= |Lines(file)| && |Lines(file')| == |Lines(file)| && IsLine(Lines(file')[k - 1])
    requires forall i :: 0 <= i < |Lines(file)| && i != k - 1 ==> Lines(file')[i] == Lines(file)[i]
    ensures Newlines(file') == if k < |Lines(file)| || Terminated(file) then Newlines(file) else Newlines(file) + 1
  {
    LinesShape(file);
    LinesShape(file');
    var last := |Lines(file)| - 1;
    assert k - 1 != last ==> Lines(file')[last] == Lines(file)[last];
  }
}
