/** The grade file as records: the line that addStudentGrade appends, and the
    character loop that reads the file back for sorting. */
module Records {
  import opened CStrings
  import opened Sequences

  const MAX_STUDENTS: nat := 100
  const MAX_NAME: nat := 30
  const MAX_GRADE: nat := 4
  const MAX_LINE: nat := 35

  datatype Student = Student(name: string, grade: string)

  /** The line addStudentGrade appends; it is what the format produces as long
      as that fits the buffer with its terminator. */
  function RecordLine(name: string, grade: string): string {
    name + ", " + grade + "\n"
  }

  /** The same without its newline, as it is read. */
  function Line(s: Student): string {
    s.name + ", " + s.grade
  }

  predicate FitsBuffer(name: string, grade: string) {
    |RecordLine(name, grade)| < MAX_LINE
  }

  // ----- Taking a line apart ---------------------------------------------------

  /** `strtok` with a comma: leading commas are skipped, ... */
  function SkipCommas(s: string): (t: string)
    ensures |t| <= |s|
    ensures t == "" || t[0] != ','
  {
    if s != "" && s[0] == ',' then SkipCommas(s[1..]) else s
  }

  /** ... and the token goes up to the next one. */
  function Token(s: string): (t: string)
    ensures t <= s && ',' !in t
    ensures |t| < |s| ==> s[|t|] == ','
  {
    if s == "" || s[0] == ',' then "" else [s[0]] + Token(s[1..])
  }

  function AfterToken(s: string): string {
    var t := Token(s);
    if |t| < |s| then s[|t| + 1..] else ""
  }

  /** `strncpy` into a field with a terminator. */
  function Clip(s: string, size: nat): string
    requires size > 0
  {
    if |s| < size then s else s[..size - 1]
  }

  /** A line, as a C string, becomes a student if it has two tokens. */
  function ParseLine(line: string): seq<Student> {
    var s := SkipCommas(UpToNul(line));
    var rest := SkipCommas(AfterToken(s));
    if s == "" || rest == "" then []
    else [Student(Clip(Token(s), MAX_NAME), Clip(Token(rest), MAX_GRADE))]
  }

  /** What is read from the rest of the file when `buffer` holds the line begun.
      A line ends at a newline, or at the character that finds the buffer full,
      which is dropped; an unfinished last line is not read. */
  ghost function Parse(rest: string, buffer: string): seq<Student> {
    if rest == "" then []
    else if rest[0] == '\n' || |buffer| >= MAX_LINE - 1 then ParseLine(buffer) + Parse(rest[1..], "")
    else Parse(rest[1..], buffer + [rest[0]])
  }

  /** A line has a first token. */
  predicate HasName(line: string) {
    SkipCommas(UpToNul(line)) != ""
  }

  /** Whether reading goes on without a store behind the array of students, when
      `n` have been read: already the first token of a line is stored there. */
  ghost predicate StaysInArray(rest: string, buffer: string, n: nat) {
    if rest == "" then true
    else if rest[0] == '\n' || |buffer| >= MAX_LINE - 1 then
      (HasName(buffer) ==> n < MAX_STUDENTS)
      && StaysInArray(rest[1..], "", n + |ParseLine(buffer)|)
    else StaysInArray(rest[1..], buffer + [rest[0]], n)
  }

  /** The token calls on a finished line: is there a first token, and is there a
      student? */
  method TakeApart(line: string) returns (hasName: bool, found: seq<Student>)
    ensures hasName <==> HasName(line)
    ensures found == ParseLine(line)
  {
    found := [];
    var s := SkipCommas(UpToNul(line));
    hasName := s != "";
    if hasName {
      var name := Clip(Token(s), MAX_NAME);
      var next := SkipCommas(AfterToken(s));
      if next != "" {
        found := [Student(name, Clip(Token(next), MAX_GRADE))];
      }
    }
  }

  /** One character of the file. */
  lemma ParseStep(ch: char, rest: string, buffer: string)
    ensures Parse([ch] + rest, buffer) ==
            if ch == '\n' || |buffer| >= MAX_LINE - 1 then ParseLine(buffer) + Parse(rest, "")
            else Parse(rest, buffer + [ch])
  {
    assert ([ch] + rest)[1..] == rest;
  }

  lemma ArrayStep(ch: char, rest: string, buffer: string, n: nat)
    ensures StaysInArray([ch] + rest, buffer, n) <==>
            if ch == '\n' || |buffer| >= MAX_LINE - 1 then
              (HasName(buffer) ==> n < MAX_STUDENTS) && StaysInArray(rest, "", n + |ParseLine(buffer)|)
            else StaysInArray(rest, buffer + [ch], n)
  {
    assert ([ch] + rest)[1..] == rest;
  }

  /** With `students` read and `buffer` holding the line begun, what is ahead
      completes them to `all`, and reading stays in the array if `fits`. */
  ghost predicate Completes(ahead: string, buffer: string, students: seq<Student>, all: seq<Student>, fits: bool) {
    && students + Parse(ahead, buffer) == all
    && (StaysInArray(ahead, buffer, |students|) <==> fits)
  }

  lemma NothingRead(file: string)
    ensures Completes(file[0..], "", [], Parse(file, ""), StaysInArray(file, "", 0))
  {
    assert file[0..] == file;
  }

  lemma NothingAhead(buffer: string, students: seq<Student>, all: seq<Student>, fits: bool)
    requires Completes("", buffer, students, all, fits)
    ensures students == all && fits
  {
    assert students + [] == students;
  }

  predicate EndsLine(ch: char, buffer: string) {
    ch == '\n' || |buffer| >= MAX_LINE - 1
  }

  lemma CharRead(ch: char, ahead: string, buffer: string, students: seq<Student>, all: seq<Student>, fits: bool)
    requires Completes([ch] + ahead, buffer, students, all, fits) && !EndsLine(ch, buffer)
    ensures Completes(ahead, buffer + [ch], students, all, fits)
  {
    ParseStep(ch, ahead, buffer);
    ArrayStep(ch, ahead, buffer, |students|);
  }

  lemma LineRead(ch: char, ahead: string, buffer: string, students: seq<Student>, all: seq<Student>, fits: bool)
    requires Completes([ch] + ahead, buffer, students, all, fits) && EndsLine(ch, buffer)
    ensures if HasName(buffer) && |students| >= MAX_STUDENTS then !fits
            else Completes(ahead, "", students + ParseLine(buffer), all, fits)
  {
    ParseStep(ch, ahead, buffer);
    ArrayStep(ch, ahead, buffer, |students|);
    AddFound(students, ParseLine(buffer), Parse(ahead, ""));
  }

  lemma AddFound(students: seq<Student>, found: seq<Student>, rest: seq<Student>)
    ensures students + (found + rest) == (students + found) + rest && |students + found| == |students| + |found|
  {
  }

  lemma AtMostOneStudent(line: string)
    ensures |ParseLine(line)| <= if HasName(line) then 1 else 0
  {
  }

  /** The reading loop of sortAll. A store behind the array, which is not checked
      there, ends the model's loop with `inBounds` false. */
  method ReadStudents(file: string) returns (students: seq<Student>, inBounds: bool)
    ensures inBounds <==> StaysInArray(file, "", 0)
    ensures inBounds ==> students == Parse(file, "") && |students| <= 100
  {
    students, inBounds := [], false;
    var buffer := "";
    var pos := 0;
    ghost var all, fits := Parse(file, ""), StaysInArray(file, "", 0);
    NothingRead(file);
    while pos < |file|
      invariant 0 <= pos <= |file|
      invariant Completes(file[pos..], buffer, students, all, fits)
      invariant |students| <= MAX_STUDENTS && !inBounds
    {
      var ch := file[pos];
      ghost var ahead := file[pos + 1..];
      SplitAt(file, pos);
      if ch == '\n' || |buffer| >= MAX_LINE - 1 {
        LineRead(ch, ahead, buffer, students, all, fits);
        AtMostOneStudent(buffer);
        var hasName, found := TakeApart(buffer);
        if hasName && |students| == MAX_STUDENTS {
          return;
        }
        students := students + found;
        buffer := "";
      } else {
        CharRead(ch, ahead, buffer, students, all, fits);
        buffer := buffer + [ch];
      }
      pos := pos + 1;
    }
    NothingAhead(buffer, students, all, fits);
    inBounds := true;
  }

  // ----- What a line gives, in general -----------------------------------------

  /** The first at most `n` characters. */
  ghost function AtMost(s: string, n: nat): string {
    if |s| <= n then s else s[..n]
  }

  ghost predicate AllCommas(s: string) {
    forall i :: 0 <= i < |s| ==> s[i] == ','
  }

  lemma {:induction false} CommasSkipped(commas: string, s: string)
    requires AllCommas(commas) && (s == "" || s[0] != ',')
    ensures SkipCommas(commas + s) == s
  {
    if commas == "" {
      assert commas + s == s;
    } else {
      CommasSkipped(commas[1..], s);
      assert (commas + s)[1..] == commas[1..] + s;
    }
  }

  lemma NoNulIn(a: string, b: string)
    requires AllCommas(a) && NUL !in b
    ensures UpToNul(a + b) == a + b
  {
    forall i | 0 <= i < |a + b| ensures (a + b)[i] != NUL {
      assert (a + b)[i] == if i < |a| then a[i] else b[i - |a|];
    }
  }

  /** The first token, and what is left for the second. */
  lemma TokenAndRest(name: string, between: string, last: string)
    requires name != "" && ',' !in name && AllCommas(between) && between != ""
    requires last != "" && last[0] != ','
    ensures var line := name + (between + last);
            line[0] != ',' && Token(line) == name && SkipCommas(AfterToken(line)) == last
  {
    var rest := between + last;
    assert rest[0] == between[0] && (name + rest)[0] == name[0];
    TokenOf(name, rest);
    assert (name + rest)[|name| + 1..] == between[1..] + last;
    CommasSkipped(between[1..], last);
  }

  /** Any line without a NUL, told from its commas: with two fields, whatever
      commas stand before, between and after them, it is a student with the
      first 29 characters of the one and the first 3 of the other ... */
  lemma TwoFields(before: string, name: string, between: string, grade: string, behind: string)
    requires AllCommas(before) && AllCommas(between) && between != ""
    requires name != "" && ',' !in name && grade != "" && ',' !in grade
    requires behind == "" || behind[0] == ','
    requires NUL !in name + (between + (grade + behind))
    ensures ParseLine(before + (name + (between + (grade + behind)))) == [Student(AtMost(name, 29), AtMost(grade, 3))]
  {
    var last := grade + behind;
    assert last[0] == grade[0];
    var tail := name + (between + last);
    NoNulIn(before, tail);
    TokenAndRest(name, between, last);
    CommasSkipped(before, tail);
    TokenOf(grade, behind);
  }

  /** ... and with fewer it is none. */
  lemma FewerFields(before: string, name: string, behind: string)
    requires AllCommas(before) && AllCommas(behind) && ',' !in name && NUL !in name
    ensures ParseLine(before + (name + behind)) == []
    ensures HasName(before + (name + behind)) <==> name != ""
  {
    var tail := name + behind;
    assert NUL !in tail by {
      forall i | 0 <= i < |tail| ensures tail[i] != NUL {
        assert tail[i] == if i < |name| then name[i] else behind[i - |name|];
      }
    }
    NoNulIn(before, tail);
    if name == "" {
      assert before + tail == (before + behind) + "" && AllCommas(before + behind);
      CommasSkipped(before + behind, "");
    } else {
      CommasSkipped(before, tail);
      TokenOf(name, behind);
      var rest := if behind == "" then "" else behind[1..];
      assert AfterToken(tail) == rest == rest + "";
      CommasSkipped(rest, "");
    }
  }

  /** A line of 34 characters is read as it is; of a longer one the 35th is
      dropped, and a new line begins behind it. */
  lemma LineOf34(line: string, ch: char, rest: string)
    requires '\n' !in line && |line| == 34
    ensures Parse(line + ([ch] + rest), "") == ParseLine(line) + Parse(rest, "")
  {
    var last := line[33];
    var ahead := [last] + ([ch] + rest);
    assert line + ([ch] + rest) == line[..33] + ahead;
    LineIsCollected(line[..33], ahead, "");
    assert "" + line[..33] == line[..33] && line[..33] + [last] == line;
    ParseStep(last, [ch] + rest, line[..33]);
    ParseStep(ch, rest, line);
  }

  /** A last line without its newline is not read, unless it overruns the buffer. */
  lemma LastLineUnread(line: string)
    requires '\n' !in line && |line| <= 33
    ensures Parse(line, "") == []
  {
    LineIsCollected(line, "", "");
    assert line + "" == line;
  }

  // ----- Round trip ------------------------------------------------------------

  ghost predicate Plain(s: string) {
    '\n' !in s && '\0' !in s
  }

  /** A name and a grade as the program accepts them: they fit the buffers and
      are neither empty nor broken across lines. */
  ghost predicate Acceptable(s: Student) {
    && 0 < |s.name| <= 29 && |s.grade| == 2
    && Plain(s.name) && Plain(s.grade) && ',' !in s.grade
  }

  /** How a student comes back: the grade keeps the space that follows the comma. */
  function ReadBack(s: Student): Student {
    Student(s.name, " " + s.grade)
  }

  lemma {:induction false} TokenOf(a: string, b: string)
    requires ',' !in a && (b == "" || b[0] == ',')
    ensures Token(a + b) == a
  {
    if a != "" {
      assert (a + b)[1..] == a[1..] + b;
      TokenOf(a[1..], b);
    } else {
      assert a + b == b;
    }
  }

  /** A field that a comma follows is the first token. */
  lemma FirstToken(a: string, b: string)
    requires a != "" && ',' !in a
    ensures var line := a + ("," + b); SkipCommas(line) == line && Token(line) == a && AfterToken(line) == b
  {
    var line := a + ("," + b);
    TokenOf(a, "," + b);
    assert line[0] == a[0];
    assert line[|a| + 1..] == b;
  }

  lemma LastToken(b: string)
    requires b != "" && ',' !in b
    ensures SkipCommas(b) == b && Token(b) == b
  {
    TokenOf(b, "");
    assert b + "" == b;
  }

  /** What fits the buffer of 35 characters with its terminator. */
  lemma FitsExactly(name: string, grade: string)
    ensures FitsBuffer(name, grade) <==> |name| + |grade| <= 31
  {
    assert |RecordLine(name, grade)| == |name| + 2 + |grade| + 1;
  }

  /** A record line fits the buffer and comes apart into its two fields. */
  lemma LineComesApart(s: Student)
    requires Acceptable(s) && ',' !in s.name
    ensures FitsBuffer(s.name, s.grade) && |RecordLine(s.name, s.grade)| <= 34
    ensures HasName(Line(s))
    ensures ParseLine(Line(s)) == [ReadBack(s)]
  {
    var field := " " + s.grade;
    var line := s.name + ("," + field);
    assert s.name + ", " + s.grade == line;
    assert UpToNul(line) == line;
    FirstToken(s.name, field);
    LastToken(field);
    assert Clip(s.name, MAX_NAME) == s.name && Clip(field, MAX_GRADE) == field;
  }

  /** Exactly the names without a comma survive the round trip. */
  lemma RoundTripExactly(s: Student)
    requires Acceptable(s)
    ensures ParseLine(Line(s)) == [ReadBack(s)] <==> ',' !in s.name
  {
    if ',' !in s.name {
      LineComesApart(s);
    } else {
      ClipKeepsOut(Token(SkipCommas(UpToNul(s.name + ", " + s.grade))), MAX_NAME);
    }
  }

  lemma ClipKeepsOut(s: string, size: nat)
    requires size > 0 && ',' !in s
    ensures ',' !in Clip(s, size)
  {
  }

  /** The loop collects a line that fits, then takes it apart and goes on. */
  lemma {:induction false} LineIsCollected(line: string, rest: string, buffer: string)
    requires '\n' !in line && |buffer| + |line| < MAX_LINE - 1
    ensures Parse(line + rest, buffer) == Parse(rest, buffer + line)
    decreases |line|
  {
    if line == "" {
      assert line + rest == rest && buffer + line == buffer;
    } else {
      var ch, tail := line[0], line[1..] + rest;
      assert line + rest == [ch] + tail;
      ParseStep(ch, tail, buffer);
      LineIsCollected(line[1..], rest, buffer + [ch]);
      assert buffer + [ch] + line[1..] == buffer + line;
    }
  }

  lemma {:induction false} LineStaysInArray(line: string, rest: string, buffer: string, n: nat)
    requires '\n' !in line && |buffer| + |line| < MAX_LINE - 1
    ensures StaysInArray(line + rest, buffer, n) <==> StaysInArray(rest, buffer + line, n)
    decreases |line|
  {
    if line == "" {
      assert line + rest == rest && buffer + line == buffer;
    } else {
      var ch, tail := line[0], line[1..] + rest;
      assert line + rest == [ch] + tail;
      ArrayStep(ch, tail, buffer, n);
      LineStaysInArray(line[1..], rest, buffer + [ch], n);
      assert buffer + [ch] + line[1..] == buffer + line;
    }
  }

  /** The line of a record fits the read buffer. */
  lemma LineOfRecord(s: Student, rest: string)
    requires Acceptable(s)
    ensures RecordLine(s.name, s.grade) + rest == Line(s) + (['\n'] + rest)
    ensures '\n' !in Line(s) && |Line(s)| < MAX_LINE - 1
  {
  }

  lemma LineIsRead(line: string, rest: string)
    requires '\n' !in line && |line| < MAX_LINE - 1
    ensures Parse(line + (['\n'] + rest), "") == ParseLine(line) + Parse(rest, "")
  {
    var ahead := ['\n'] + rest;
    LineIsCollected(line, ahead, "");
    assert "" + line == line;
    assert Parse(line + ahead, "") == Parse(ahead, line);
    ParseStep('\n', rest, line);
  }

  lemma LineIsCounted(line: string, rest: string, n: nat)
    requires '\n' !in line && |line| < MAX_LINE - 1
    ensures StaysInArray(line + (['\n'] + rest), "", n) <==>
              (HasName(line) ==> n < MAX_STUDENTS) && StaysInArray(rest, "", n + |ParseLine(line)|)
  {
    LineStaysInArray(line, ['\n'] + rest, "", n);
    assert "" + line == line;
    ArrayStep('\n', rest, line, n);
  }

  /** A record in front of the rest of a file. */
  lemma RecordIsRead(s: Student, rest: string)
    requires Acceptable(s)
    ensures Parse(RecordLine(s.name, s.grade) + rest, "") == ParseLine(Line(s)) + Parse(rest, "")
  {
    LineOfRecord(s, rest);
    LineIsRead(Line(s), rest);
  }

  lemma RecordIsCounted(s: Student, rest: string, n: nat)
    requires Acceptable(s) && ',' !in s.name
    ensures StaysInArray(RecordLine(s.name, s.grade) + rest, "", n) <==>
              n < MAX_STUDENTS && StaysInArray(rest, "", n + 1)
  {
    LineOfRecord(s, rest);
    LineIsCounted(Line(s), rest, n);
    LineComesApart(s);
  }

  ghost function FileOf(students: seq<Student>): string {
    if students == [] then ""
    else RecordLine(students[0].name, students[0].grade) + FileOf(students[1..])
  }

  ghost function AllReadBack(students: seq<Student>): (r: seq<Student>)
    ensures |r| == |students|
    ensures forall i :: 0 <= i < |students| ==> r[i] == ReadBack(students[i])
  {
    seq(|students|, i requires 0 <= i < |students| => ReadBack(students[i]))
  }

  /** With 100 students read, the next line with so much as a name is too much;
      a line without one is not. */
  lemma AtHundred(line: string, rest: string)
    requires '\n' !in line && |line| <= 33
    ensures StaysInArray(line + (['\n'] + rest), "", 100) <==> !HasName(line) && StaysInArray(rest, "", 100)
  {
    LineIsCounted(line, rest, 100);
    AtMostOneStudent(line);
  }

  ghost predicate AllAcceptable(students: seq<Student>) {
    forall i :: 0 <= i < |students| ==> Acceptable(students[i])
  }

  ghost predicate NoCommas(students: seq<Student>) {
    forall i :: 0 <= i < |students| ==> ',' !in students[i].name
  }

  /** A record gives at most one student. */
  lemma {:induction false} NoMoreThanWritten(students: seq<Student>)
    requires AllAcceptable(students)
    ensures |Parse(FileOf(students), "")| <= |students|
  {
    if students != [] {
      RecordIsRead(students[0], FileOf(students[1..]));
      AtMostOneStudent(Line(students[0]));
      NoMoreThanWritten(students[1..]);
    }
  }

  /** Two lists with the same text begin and go on alike. */
  lemma SameFromFront(found: seq<Student>, rest: seq<Student>, first: Student, more: seq<Student>)
    requires |found| <= 1 && |rest| <= |more|
    ensures found + rest == [first] + more <==> found == [first] && rest == more
  {
    if found + rest == [first] + more {
      assert |found| == 1;
      assert (found + rest)[0] == first;
      assert (found + rest)[1..] == rest && ([first] + more)[1..] == more;
    }
  }

  /** What addStudentGrade wrote, sortAll reads: the same names, in order, and
      each grade behind a space, if and only if no name has a comma. */
  lemma {:induction false} FileRoundTrip(students: seq<Student>)
    requires AllAcceptable(students)
    ensures Parse(FileOf(students), "") == AllReadBack(students) <==> NoCommas(students)
  {
    if students != [] {
      var first, rest := students[0], students[1..];
      RecordIsRead(first, FileOf(rest));
      AtMostOneStudent(Line(first));
      NoMoreThanWritten(rest);
      RoundTripExactly(first);
      FileRoundTrip(rest);
      assert AllReadBack(students) == [ReadBack(first)] + AllReadBack(rest);
      SameFromFront(ParseLine(Line(first)), Parse(FileOf(rest), ""), ReadBack(first), AllReadBack(rest));
      NoCommasSplit(students);
    }
  }

  lemma NoCommasSplit(students: seq<Student>)
    requires students != []
    ensures NoCommas(students) <==> ',' !in students[0].name && NoCommas(students[1..])
  {
    forall i | 0 <= i < |students| - 1 ensures students[1..][i] == students[i + 1] {}
  }

  /** The reading loop stays in its array exactly if there are at most 100. */
  lemma {:induction false} ReadableExactly(students: seq<Student>, n: nat)
    requires AllAcceptable(students) && NoCommas(students) && n <= 100
    ensures StaysInArray(FileOf(students), "", n) <==> n + |students| <= 100
    decreases |students|
  {
    if students != [] {
      RecordIsCounted(students[0], FileOf(students[1..]), n);
      if n < MAX_STUDENTS {
        ReadableExactly(students[1..], n + 1);
      }
    }
  }
}
