/** The grade file shown page by page: a streaming loop over blocks of the file
    that counts newlines, compared with the list of the file's lines. */
module Paging {
  import opened LineEdit
  import opened Sequences

  /** The size of the read buffer. */
  const BLOCK: nat := 35

  /** The characters shown of what is left of the file, when `seen` newlines have
      gone by: those that do not come before newline `lo`, up to newline `hi`. */
  ghost function Shown(rest: string, lo: int, hi: int, seen: nat): string {
    if rest == "" || seen >= hi then ""
    else
      var now := if rest[0] == '\n' then seen + 1 else seen;
      (if now >= lo then [rest[0]] else "") + Shown(rest[1..], lo, hi, now)
  }

  ghost function Page(file: string, entries: int, page: int): string {
    Shown(file, entries * page - entries, entries * page, 0)
  }

  /** After `pos` characters, `seen` of them newlines, `out` has been shown. */
  ghost predicate ShownSoFar(file: string, lo: int, hi: int, pos: nat, seen: nat, out: string) {
    pos <= |file| && out + Shown(file[pos..], lo, hi, seen) == Shown(file, lo, hi, 0)
  }

  lemma NothingShown(file: string, lo: int, hi: int)
    ensures ShownSoFar(file, lo, hi, 0, 0, "")
  {
    assert file[0..] == file;
  }

  lemma OneMoreShown(file: string, lo: int, hi: int, pos: nat, seen: nat, out: string)
    requires pos < |file| && seen < hi && ShownSoFar(file, lo, hi, pos, seen, out)
    ensures var now := if file[pos] == '\n' then seen + 1 else seen;
            ShownSoFar(file, lo, hi, pos + 1, now, if now >= lo then out + [file[pos]] else out)
  {
    var now := if file[pos] == '\n' then seen + 1 else seen;
    var rest := Shown(file[pos + 1..], lo, hi, now);
    assert file[pos..][1..] == file[pos + 1..];
    Regroup(out, [file[pos]], rest);
  }

  /** At the end of the file or of the page nothing more is shown. */
  lemma AllShown(file: string, lo: int, hi: int, pos: nat, seen: nat, out: string)
    requires ShownSoFar(file, lo, hi, pos, seen, out) && (pos == |file| || seen >= hi)
    ensures out == Shown(file, lo, hi, 0)
  {
    assert Shown(file[pos..], lo, hi, seen) == "";
  }

  /** What is left of the block after the page is not shown. */
  lemma RestOfBlock(file: string, lo: int, hi: int, pos: nat, pos': nat, seen: nat, out: string)
    requires ShownSoFar(file, lo, hi, pos, seen, out) && seen >= hi && pos <= pos' <= |file|
    ensures ShownSoFar(file, lo, hi, pos', seen, out)
  {
    assert Shown(file[pos..], lo, hi, seen) == "" == Shown(file[pos'..], lo, hi, seen);
  }

  /** listSome's inner loop: one block, as `read` delivered it. */
  method ShowBlock(file: string, first: int, last: int, pos: nat, bytesRead: nat, seen: nat, shown: string)
    returns (lineNumber: nat, out: string)
    requires pos + bytesRead <= |file| && ShownSoFar(file, first, last, pos, seen, shown)
    ensures ShownSoFar(file, first, last, pos + bytesRead, lineNumber, out)
  {
    var buffer := file[pos..pos + bytesRead];
    lineNumber, out := seen, shown;
    var i := 0;
    while i < bytesRead && lineNumber < last
      invariant 0 <= i <= bytesRead
      invariant ShownSoFar(file, first, last, pos + i, lineNumber, out)
    {
      OneMoreShown(file, first, last, pos + i, lineNumber, out);
      if buffer[i] == '\n' {
        lineNumber := lineNumber + 1;
      }
      if lineNumber >= first {
        out := out + [buffer[i]];
      }
      i := i + 1;
    }
    if i < bytesRead {
      RestOfBlock(file, first, last, pos + i, pos + bytesRead, lineNumber, out);
    }
  }

  /** listSome's outer loop, for any chunking of the reads. */
  method ShowRange(file: string, first: int, last: int) returns (out: string)
    ensures out == Shown(file, first, last, 0)
  {
    out := "";
    var lineNumber, pos := 0, 0;
    NothingShown(file, first, last);
    while pos < |file| && lineNumber < last
      invariant 0 <= pos <= |file| && 0 <= lineNumber
      invariant ShownSoFar(file, first, last, pos, lineNumber, out)
    {
      var bytesRead :| 0 < bytesRead <= BLOCK && bytesRead <= |file| - pos;
      lineNumber, out := ShowBlock(file, first, last, pos, bytesRead, lineNumber, out);
      pos := pos + bytesRead;
    }
    AllShown(file, first, last, pos, lineNumber, out);
  }

  method ListSome(file: string, entries: int, page: int) returns (out: string)
    ensures out == Page(file, entries, page)
  {
    out := ShowRange(file, entries * page - entries, entries * page);
  }

  /** One block of listGrades, which prints before it counts. */
  method ShowFirstFive(file: string, pos: nat, bytesRead: nat, seen: nat, shown: string)
    returns (lineNumber: nat, out: string)
    requires pos + bytesRead <= |file| && ShownSoFar(file, 0, 5, pos, seen, shown)
    ensures ShownSoFar(file, 0, 5, pos + bytesRead, lineNumber, out)
  {
    var buffer := file[pos..pos + bytesRead];
    lineNumber, out := seen, shown;
    var i := 0;
    while i < bytesRead && lineNumber < 5
      invariant 0 <= i <= bytesRead
      invariant ShownSoFar(file, 0, 5, pos + i, lineNumber, out)
    {
      OneMoreShown(file, 0, 5, pos + i, lineNumber, out);
      out := out + [buffer[i]];
      if buffer[i] == '\n' {
        lineNumber := lineNumber + 1;
      }
      i := i + 1;
    }
    if i < bytesRead {
      RestOfBlock(file, 0, 5, pos + i, pos + bytesRead, lineNumber, out);
    }
  }

  /** listGrades: the first five lines. */
  method ListGrades(file: string) returns (out: string)
    ensures out == Page(file, 5, 1)
  {
    out := "";
    var lineNumber, pos := 0, 0;
    NothingShown(file, 0, 5);
    while pos < |file| && lineNumber < 5
      invariant 0 <= pos <= |file| && 0 <= lineNumber
      invariant ShownSoFar(file, 0, 5, pos, lineNumber, out)
    {
      var bytesRead :| 0 < bytesRead <= BLOCK && bytesRead <= |file| - pos;
      lineNumber, out := ShowFirstFive(file, pos, bytesRead, lineNumber, out);
      pos := pos + bytesRead;
    }
    AllShown(file, 0, 5, pos, lineNumber, out);
  }

  // ----- Pages and lines -------------------------------------------------------

  /** Where the m-th newline ends, or the end of the file. */
  ghost function EndOf(s: string, m: nat): (p: nat)
    ensures p <= |s|
  {
    if m == 0 || s == "" then 0
    else 1 + EndOf(s[1..], if s[0] == '\n' then m - 1 else m)
  }

  /** Past the lower bound, what is shown is a stretch of the file. */
  lemma {:induction false} ShownFromHere(rest: string, lo: int, hi: int, seen: nat)
    requires lo <= seen <= hi
    ensures Shown(rest, lo, hi, seen) == rest[..EndOf(rest, hi - seen)]
  {
    if rest != "" && seen < hi {
      ShownFromHere(rest[1..], lo, hi, if rest[0] == '\n' then seen + 1 else seen);
    }
  }

  lemma EndOfStep(s: string, m: nat)
    requires s != "" && m > 0
    ensures EndOf(s, m) == 1 + EndOf(s[1..], if s[0] == '\n' then m - 1 else m)
  {
  }

  /** What is shown from the newline on that reaches the lower bound. */
  lemma ShownFromNewline(rest: string, lo: int, hi: int)
    requires 0 < lo <= hi && rest != "" && rest[0] == '\n'
    ensures 1 == EndOf(rest, 1) <= EndOf(rest, hi - lo + 1)
    ensures Shown(rest, lo, hi, lo - 1) == "\n" + rest[1..EndOf(rest, hi - lo + 1)]
  {
    var tail := rest[1..];
    EndOfStep(rest, 1);
    EndOfStep(rest, hi - lo + 1);
    ShownFromHere(tail, lo, hi, lo);
    SliceBehindFirst(rest, 0, EndOf(tail, hi - lo));
    assert Shown(rest, lo, hi, lo - 1) == [rest[0]] + Shown(tail, lo, hi, lo);
    assert [rest[0]] == "\n";
  }

  /** Nothing is shown before that newline. */
  lemma NotYetShown(rest: string, lo: int, hi: int, seen: nat, now: nat)
    requires rest != "" && now == (if rest[0] == '\n' then seen + 1 else seen) && now < lo <= hi
    ensures EndOf(rest, lo - seen) == 1 + EndOf(rest[1..], lo - now)
    ensures EndOf(rest, hi - seen) == 1 + EndOf(rest[1..], hi - now)
    ensures Newlines(rest) + seen == Newlines(rest[1..]) + now
    ensures Shown(rest, lo, hi, seen) == Shown(rest[1..], lo, hi, now)
  {
    EndOfStep(rest, lo - seen);
    EndOfStep(rest, hi - seen);
  }

  /** Before it, the stretch begins with the newline that reaches the bound. */
  ghost predicate FromNewline(rest: string, lo: int, hi: int, seen: nat)
    requires seen < lo <= hi
  {
    var a, b, shown := EndOf(rest, lo - seen), EndOf(rest, hi - seen), Shown(rest, lo, hi, seen);
    && a <= b
    && if Newlines(rest) < lo - seen then shown == "" && a == |rest| else a > 0 && shown == "\n" + rest[a..b]
  }

  lemma FromNewlineStep(rest: string, lo: int, hi: int, seen: nat, now: nat)
    requires rest != "" && now == (if rest[0] == '\n' then seen + 1 else seen) && now < lo <= hi
    requires FromNewline(rest[1..], lo, hi, now)
    ensures FromNewline(rest, lo, hi, seen)
  {
    var tail := rest[1..];
    var a, b := EndOf(tail, lo - now), EndOf(tail, hi - now);
    NotYetShown(rest, lo, hi, seen, now);
    SliceBehindFirst(rest, a, b);
  }

  lemma {:induction false} ShownLater(rest: string, lo: int, hi: int, seen: nat)
    requires seen < lo <= hi
    ensures FromNewline(rest, lo, hi, seen)
  {
    if rest != "" {
      var now := if rest[0] == '\n' then seen + 1 else seen;
      if now == lo {
        ShownFromNewline(rest, lo, hi);
      } else {
        ShownLater(rest[1..], lo, hi, now);
        FromNewlineStep(rest, lo, hi, seen, now);
      }
    }
  }

  lemma {:induction false} NothingBeyond(rest: string, lo: int, hi: int, seen: nat)
    requires lo > hi || hi <= 0
    ensures Shown(rest, lo, hi, seen) == ""
  {
    if rest != "" && seen < hi {
      NothingBeyond(rest[1..], lo, hi, if rest[0] == '\n' then seen + 1 else seen);
    }
  }

  /** For numbers that are not positive nothing is shown. */
  lemma NoSuchPage(file: string, entries: int, page: int)
    requires entries <= 0 || page <= 0
    ensures Page(file, entries, page) == ""
  {
    if entries > 0 {
      assert entries * page <= 0;
    }
    NothingBeyond(file, entries * page - entries, entries * page, 0);
  }

  /** What a page adds to the pages before it: all of page 1, and every later
      page without the newline it starts with. */
  ghost function Body(file: string, entries: int, page: int): string {
    var p := Page(file, entries, page);
    if page == 1 || p == "" then p else p[1..]
  }

  /** The newline a later page starts with, if the file has that many. */
  ghost function Lead(file: string, lo: nat): string {
    if lo > 0 && Newlines(file) >= lo then "\n" else ""
  }

  lemma StretchOfPage(file: string, lo: nat, hi: nat)
    requires lo <= hi
    ensures EndOf(file, lo) <= EndOf(file, hi)
    ensures Shown(file, lo, hi, 0) == Lead(file, lo) + file[EndOf(file, lo)..EndOf(file, hi)]
    ensures Lead(file, lo) == "" && lo > 0 ==> Shown(file, lo, hi, 0) == ""
  {
    if lo == 0 {
      ShownFromHere(file, lo, hi, 0);
    } else {
      ShownLater(file, lo, hi, 0);
    }
  }

  lemma WithoutLead(file: string, lo: nat, hi: nat)
    requires lo <= hi
    ensures EndOf(file, lo) <= EndOf(file, hi)
    ensures var p := Shown(file, lo, hi, 0);
            (if lo == 0 || p == "" then p else p[1..]) == file[EndOf(file, lo)..EndOf(file, hi)]
  {
    StretchOfPage(file, lo, hi);
    DropFirst(Lead(file, lo), file[EndOf(file, lo)..EndOf(file, hi)]);
  }

  lemma DropFirst(lead: string, stretch: string)
    requires lead == "" || |lead| == 1
    ensures lead == "" ==> lead + stretch == stretch
    ensures lead != "" ==> (lead + stretch)[1..] == stretch
  {
  }

  lemma PageNumbers(entries: nat, page: nat)
    requires entries > 0 && page > 0
    ensures var lo := entries * page - entries;
            0 <= lo == entries * (page - 1) <= entries * page && (lo == 0 <==> page == 1)
  {
    if page > 1 {
      assert entries * (page - 1) == entries * (page - 2) + entries;
    }
  }

  lemma BodyIsStretch(file: string, entries: nat, page: nat)
    requires entries > 0 && page > 0
    ensures 0 <= entries * page - entries == entries * (page - 1)
    ensures EndOf(file, entries * page - entries) <= EndOf(file, entries * page)
    ensures Body(file, entries, page) == file[EndOf(file, entries * page - entries)..EndOf(file, entries * page)]
    ensures Page(file, entries, page) == Lead(file, entries * page - entries) + Body(file, entries, page)
  {
    PageNumbers(entries, page);
    WithoutLead(file, entries * page - entries, entries * page);
    StretchOfPage(file, entries * page - entries, entries * page);
  }

  /** Pages 1 to `pages`, one after the other. */
  ghost function Pages(file: string, entries: nat, pages: nat): string {
    if pages == 0 then "" else Pages(file, entries, pages - 1) + Body(file, entries, pages)
  }

  lemma OnePageMore(file: string, entries: nat, pages: nat)
    requires entries > 0 && pages > 0
    requires Pages(file, entries, pages - 1) == file[..EndOf(file, entries * (pages - 1))]
    ensures Pages(file, entries, pages) == file[..EndOf(file, entries * pages)]
  {
    BodyIsStretch(file, entries, pages);
    TakeInSteps(file, EndOf(file, entries * (pages - 1)), EndOf(file, entries * pages));
  }

  /** The pages cover the file: together they are its beginning, up to the last
      line asked for, and the whole file once that is beyond its last newline. */
  lemma {:induction false} PagesCoverFile(file: string, entries: nat, pages: nat)
    requires entries > 0
    ensures Pages(file, entries, pages) == file[..EndOf(file, entries * pages)]
    ensures entries * pages > Newlines(file) ==> Pages(file, entries, pages) == file
  {
    if pages > 0 {
      PagesCoverFile(file, entries, pages - 1);
      OnePageMore(file, entries, pages);
    }
    EndOfAll(file, entries * pages);
  }

  lemma {:induction false} EndOfAll(s: string, m: nat)
    ensures m > Newlines(s) ==> EndOf(s, m) == |s|
  {
    if m > 0 && s != "" {
      EndOfAll(s[1..], if s[0] == '\n' then m - 1 else m);
    }
  }

  // ----- Pages and entries -----------------------------------------------------

  function Min(a: nat, b: nat): nat {
    if a < b then a else b
  }

  lemma {:induction false} EndOfFirstLine(s: string, m: nat)
    requires s != "" && m > 0
    ensures EndOf(s, m) == |FirstLine(s)| + EndOf(s[|FirstLine(s)|..], m - 1)
  {
    var l := FirstLine(s);
    if s[0] == '\n' {
      assert l == "\n";
    } else if |s| == 1 {
      assert l == s;
    } else {
      EndOfFirstLine(s[1..], m);
      assert s[1..][|FirstLine(s[1..])|..] == s[|l|..];
    }
  }

  lemma FrontAndBehind(s: string, l: string, e: nat)
    requires l <= s && e <= |s| - |l|
    ensures s[..|l| + e] == l + s[|l|..][..e]
  {
  }

  lemma FirstAndMore(l: string, ls: seq<string>, k: nat)
    requires 0 < k <= |ls| + 1
    ensures Concat(([l] + ls)[..k]) == l + Concat(ls[..k - 1])
  {
    assert ([l] + ls)[..k] == [l] + ls[..k - 1] && ([l] + ls[..k - 1])[1..] == ls[..k - 1];
  }

  /** The first `m` lines end where the m-th newline ends. */
  lemma {:induction false} EndOfLines(s: string, m: nat)
    ensures s[..EndOf(s, m)] == Concat(Lines(s)[..Min(m, |Lines(s)|)])
    decreases |s|
  {
    if s != "" && m > 0 {
      var l, rest := FirstLine(s), s[|FirstLine(s)|..];
      EndOfLines(rest, m - 1);
      EndOfFirstLine(s, m);
      FrontAndBehind(s, l, EndOf(rest, m - 1));
      LinesFrom(s, l, rest);
      FirstAndMore(l, Lines(rest), Min(m, |Lines(s)|));
    }
  }

  /** What the manual promises of listSome: page `p` of `n` entries shows the
      lines from n * (p - 1) + 1 to n * p, as far as there are any. From page 2 on
      one newline comes first, exactly if the file has n * (p - 1) of them; so just
      behind the last line a page of that newline alone is shown. */
  lemma PageShowsEntries(file: string, entries: nat, page: nat)
    requires entries > 0 && page > 0
    ensures var ls := Lines(file);
            var a, b := Min(entries * page - entries, |ls|), Min(entries * page, |ls|);
            && a <= b && Body(file, entries, page) == Concat(ls[a..b])
            && Page(file, entries, page)
               == (if page > 1 && Newlines(file) >= entries * page - entries then "\n" else "") + Concat(ls[a..b])
  {
    BodyIsStretch(file, entries, page);
    PageNumbers(entries, page);
    StretchIsLines(file, entries * page - entries, entries * page);
  }

  lemma StretchIsLines(file: string, lo: nat, hi: nat)
    requires lo <= hi
    ensures EndOf(file, lo) <= EndOf(file, hi)
    ensures var ls := Lines(file);
            var a, b := Min(lo, |ls|), Min(hi, |ls|);
            a <= b && file[EndOf(file, lo)..EndOf(file, hi)] == Concat(ls[a..b])
  {
    StretchOfPage(file, lo, hi);
    var ls := Lines(file);
    var a, b := Min(lo, |ls|), Min(hi, |ls|);
    var x, y := EndOf(file, lo), EndOf(file, hi);
    EndOfLines(file, lo);
    EndOfLines(file, hi);
    TakeInSteps(ls, a, b);
    ConcatSplit(ls[..a], ls[a..b]);
    TakeInSteps(file, x, y);
    CancelPrefix(file[..x], file[x..y], Concat(ls[a..b]));
  }
}
