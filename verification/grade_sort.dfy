/** The four bubble sorts of the grade file, in place, and what their results
    are: stable, sorted permutations, in the direction their comparisons fix. */
module GradeSort {
  import opened Records
  import opened Sequences

  // ----- strcmp ----------------------------------------------------------------

  /** The sign of `strcmp` on two strings without NUL. */
  function Strcmp(a: string, b: string): (r: int)
    ensures r == -1 || r == 0 || r == 1
  {
    if a == "" && b == "" then 0
    else if a == "" then -1
    else if b == "" then 1
    else if a[0] < b[0] then -1
    else if a[0] > b[0] then 1
    else Strcmp(a[1..], b[1..])
  }

  lemma {:induction false} StrcmpEqual(a: string, b: string)
    ensures Strcmp(a, b) == 0 <==> a == b
  {
    if a != "" && b != "" && a[0] == b[0] {
      StrcmpEqual(a[1..], b[1..]);
      assert a == [a[0]] + a[1..] && b == [b[0]] + b[1..];
    }
  }

  lemma {:induction false} StrcmpReverses(a: string, b: string)
    ensures Strcmp(a, b) == -Strcmp(b, a)
  {
    if a != "" && b != "" && a[0] == b[0] {
      StrcmpReverses(a[1..], b[1..]);
    }
  }

  lemma {:induction false} StrcmpTransitive(a: string, b: string, c: string)
    requires Strcmp(a, b) <= 0 && Strcmp(b, c) <= 0
    ensures Strcmp(a, c) <= 0
  {
    if a != "" && b != "" && c != "" && a[0] == b[0] == c[0] {
      StrcmpTransitive(a[1..], b[1..], c[1..]);
    }
  }

  /** Dictionary order by character codes: a proper prefix comes first, and
      otherwise the smaller character at the first difference. */
  ghost predicate Precedes(a: string, b: string) {
    exists k :: 0 <= k <= |a| && k < |b| && a[..k] == b[..k] && (k == |a| || a[k] < b[k])
  }

  lemma PrecedesBehindFirst(a: string, b: string)
    requires a != "" && b != "" && a[0] == b[0]
    ensures Precedes(a, b) <==> Precedes(a[1..], b[1..])
  {
    if k :| 0 <= k <= |a| && k < |b| && a[..k] == b[..k] && (k == |a| || a[k] < b[k]) {
      assert k > 0;
      assert a[1..][..k - 1] == a[..k][1..] == b[..k][1..] == b[1..][..k - 1];
    }
    if k :| 0 <= k <= |a[1..]| && k < |b[1..]| && a[1..][..k] == b[1..][..k] && (k == |a[1..]| || a[1..][k] < b[1..][k]) {
      assert a[..k + 1] == [a[0]] + a[1..][..k] == [b[0]] + b[1..][..k] == b[..k + 1];
    }
  }

  /** `strcmp` is negative exactly if its first argument comes first in that order. */
  lemma {:induction false} StrcmpExactly(a: string, b: string)
    ensures Strcmp(a, b) < 0 <==> Precedes(a, b)
    ensures Strcmp(a, b) > 0 <==> Precedes(b, a)
  {
    StrcmpReverses(a, b);
    if a != "" && b != "" && a[0] == b[0] {
      PrecedesBehindFirst(a, b);
      PrecedesBehindFirst(b, a);
      StrcmpExactly(a[1..], b[1..]);
    } else if a != "" && b != "" {
      assert a[..0] == b[..0];
      assert forall k :: 0 < k <= |a| && k <= |b| ==> a[..k][0] != b[..k][0];
    } else {
      assert a[..0] == b[..0];
    }
  }

  // ----- The four sorts --------------------------------------------------------

  datatype Choice = NameAscending | NameDescending | GradeAscending | GradeDescending

  function Key(ch: Choice, s: Student): string {
    if ch.NameAscending? || ch.NameDescending? then s.name else s.grade
  }

  /** The comparison under which each sort exchanges two neighbours. */
  predicate Exchanges(ch: Choice, x: Student, y: Student) {
    match ch
    case NameAscending => Strcmp(x.name, y.name) < 0
    case NameDescending => Strcmp(x.name, y.name) > 0
    case GradeAscending => Strcmp(x.grade, y.grade) < 0
    case GradeDescending => Strcmp(x.grade, y.grade) > 0
  }

  lemma ExchangesOrder(ch: Choice, x: Student, y: Student, z: Student)
    ensures Exchanges(ch, x, y) ==> !Exchanges(ch, y, x) && Key(ch, x) != Key(ch, y)
    ensures !Exchanges(ch, x, y) && !Exchanges(ch, y, x) ==> Key(ch, x) == Key(ch, y)
    ensures !Exchanges(ch, x, y) && !Exchanges(ch, y, z) ==> !Exchanges(ch, x, z)
  {
    var a, b, c := Key(ch, x), Key(ch, y), Key(ch, z);
    StrcmpReverses(a, b);
    StrcmpReverses(b, c);
    StrcmpReverses(a, c);
    StrcmpEqual(a, b);
    if Strcmp(a, b) <= 0 && Strcmp(b, c) <= 0 {
      StrcmpTransitive(a, b, c);
    }
    if Strcmp(c, b) <= 0 && Strcmp(b, a) <= 0 {
      StrcmpTransitive(c, b, a);
    }
  }

  ghost predicate Sorted(ch: Choice, s: seq<Student>) {
    forall i, j :: 0 <= i < j < |s| ==> !Exchanges(ch, s[i], s[j])
  }

  ghost function Pick(ch: Choice, x: Student, key: string): seq<Student> {
    if Key(ch, x) == key then [x] else []
  }

  /** The students with a given key, in the order they stand. */
  ghost function Group(ch: Choice, s: seq<Student>, key: string): seq<Student> {
    if s == [] then [] else Pick(ch, s[0], key) + Group(ch, s[1..], key)
  }

  /** Same students, and those with equal keys in the same order. */
  ghost predicate StableOf(ch: Choice, s: seq<Student>, t: seq<Student>) {
    forall key :: Group(ch, s, key) == Group(ch, t, key)
  }

  lemma {:induction false} GroupConcat(ch: Choice, a: seq<Student>, b: seq<Student>, key: string)
    ensures Group(ch, a + b, key) == Group(ch, a, key) + Group(ch, b, key)
  {
    if a == [] {
      assert a + b == b;
    } else {
      var whole := a + b;
      assert whole[0] == a[0] && whole[1..] == a[1..] + b;
      GroupConcat(ch, a[1..], b, key);
      Regroup(Pick(ch, a[0], key), Group(ch, a[1..], key), Group(ch, b, key));
    }
  }

  lemma GroupMiddle(ch: Choice, a: seq<Student>, m: seq<Student>, b: seq<Student>, key: string)
    ensures Group(ch, a + m + b, key) == Group(ch, a, key) + Group(ch, m, key) + Group(ch, b, key)
  {
    GroupConcat(ch, a + m, b, key);
    GroupConcat(ch, a, m, key);
  }

  /** A pair with different keys gives each group at most one of the two. */
  lemma GroupOfPair(ch: Choice, x: Student, y: Student, key: string)
    requires Key(ch, x) != Key(ch, y)
    ensures Group(ch, [x, y], key) == Group(ch, [y, x], key)
  {
    assert [x, y][1..] == [y] && [y][1..] == [];
    assert [y, x][1..] == [x] && [x][1..] == [];
    assert Group(ch, [x], key) == Pick(ch, x, key) + [] && Group(ch, [y], key) == Pick(ch, y, key) + [];
  }

  lemma ExchangeIsStable(ch: Choice, s: seq<Student>, j: nat)
    requires j + 1 < |s| && Key(ch, s[j]) != Key(ch, s[j + 1])
    ensures StableOf(ch, s, s[j := s[j + 1]][j + 1 := s[j]])
  {
    var t := s[j := s[j + 1]][j + 1 := s[j]];
    var a, x, y, b := s[..j], s[j], s[j + 1], s[j + 2..];
    assert s == a + [x, y] + b;
    assert t == a + [y, x] + b;
    forall key ensures Group(ch, s, key) == Group(ch, t, key) {
      GroupMiddle(ch, a, [x, y], b, key);
      GroupMiddle(ch, a, [y, x], b, key);
      GroupOfPair(ch, x, y, key);
    }
  }

  /** Each of the four functions: bubble sort of the first `length` students. */
  method BubbleSort(ch: Choice, data: array<Student>, length: nat)
    requires length <= data.Length
    modifies data
    ensures Sorted(ch, data[..length]) && StableOf(ch, old(data[..length]), data[..length])
    ensures data[length..] == old(data[length..])
  {
    ghost var given := data[..length];
    var i := 0;
    while i < length - 1
      invariant 0 <= i && (i < length || i == 0)
      invariant StableOf(ch, given, data[..length])
      invariant SettledFrom(ch, data[..length], length - i)
      invariant data[length..] == old(data[length..])
    {
      var j := 0;
      while j < length - i - 1
        invariant 0 <= j <= length - i - 1
        invariant StableOf(ch, given, data[..length])
        invariant SettledFrom(ch, data[..length], length - i)
        invariant LastOfPrefix(ch, data[..length], j)
        invariant data[length..] == old(data[length..])
      {
        if Exchanges(ch, data[j], data[j + 1]) {
          ghost var before := data[..length];
          var temp := data[j];
          data[j] := data[j + 1];
          data[j + 1] := temp;
          assert data[..length] == before[j := before[j + 1]][j + 1 := before[j]];
          ExchangeStep(ch, before, j, length - i);
          StableChain(ch, given, before, data[..length]);
        } else {
          KeepStep(ch, data[..length], j);
        }
        j := j + 1;
      }
      SettleOne(ch, data[..length], length - i);
      i := i + 1;
    }
    AllSettled(ch, data[..length], length - i);
  }

  /** Everything from `n` on is in its final place. */
  ghost predicate SettledFrom(ch: Choice, s: seq<Student>, n: int) {
    forall p, q :: 0 <= p < q < |s| && n <= q ==> !Exchanges(ch, s[p], s[q])
  }

  /** The student at `j` belongs after everyone before it. */
  ghost predicate LastOfPrefix(ch: Choice, s: seq<Student>, j: int) {
    forall p :: 0 <= p < j < |s| ==> !Exchanges(ch, s[p], s[j])
  }

  lemma StableChain(ch: Choice, a: seq<Student>, b: seq<Student>, c: seq<Student>)
    requires StableOf(ch, a, b) && StableOf(ch, b, c)
    ensures StableOf(ch, a, c)
  {
    forall key ensures Group(ch, a, key) == Group(ch, c, key) {
      assert Group(ch, a, key) == Group(ch, b, key);
    }
  }

  lemma ExchangeStep(ch: Choice, s: seq<Student>, j: nat, n: nat)
    requires j + 1 < n <= |s| && Exchanges(ch, s[j], s[j + 1])
    requires SettledFrom(ch, s, n) && LastOfPrefix(ch, s, j)
    ensures var t := s[j := s[j + 1]][j + 1 := s[j]];
            StableOf(ch, s, t) && SettledFrom(ch, t, n) && LastOfPrefix(ch, t, j + 1)
  {
    ExchangesOrder(ch, s[j], s[j + 1], s[j]);
    ExchangeIsStable(ch, s, j);
  }

  lemma KeepStep(ch: Choice, s: seq<Student>, j: nat)
    requires j + 1 < |s| && !Exchanges(ch, s[j], s[j + 1]) && LastOfPrefix(ch, s, j)
    ensures LastOfPrefix(ch, s, j + 1)
  {
    forall p | 0 <= p < j + 1 ensures !Exchanges(ch, s[p], s[j + 1]) {
      ExchangesOrder(ch, s[p], s[j], s[j + 1]);
    }
  }

  lemma SettleOne(ch: Choice, s: seq<Student>, n: nat)
    requires 0 < n <= |s| && SettledFrom(ch, s, n) && LastOfPrefix(ch, s, n - 1)
    ensures SettledFrom(ch, s, n - 1)
  {
  }

  lemma AllSettled(ch: Choice, s: seq<Student>, n: int)
    requires n <= 1 && SettledFrom(ch, s, n)
    ensures Sorted(ch, s)
  {
  }

  // ----- What the result is ----------------------------------------------------

  lemma {:induction false} GroupKeepsCount(ch: Choice, s: seq<Student>, x: Student)
    ensures multiset(s)[x] == multiset(Group(ch, s, Key(ch, x)))[x]
  {
    if s != [] {
      GroupKeepsCount(ch, s[1..], x);
      CountFromFront(s, x);
      if Key(ch, s[0]) == Key(ch, x) {
        CountFromFront(Group(ch, s, Key(ch, x)), x);
      }
    }
  }

  /** A stable rearrangement is a permutation. */
  lemma StableIsPermutation(ch: Choice, s: seq<Student>, t: seq<Student>)
    requires StableOf(ch, s, t)
    ensures multiset(s) == multiset(t)
  {
    forall x ensures multiset(s)[x] == multiset(t)[x] {
      GroupKeepsCount(ch, s, x);
      GroupKeepsCount(ch, t, x);
      assert Group(ch, s, Key(ch, x)) == Group(ch, t, Key(ch, x));
    }
  }

  lemma {:induction false} GroupMember(ch: Choice, s: seq<Student>, key: string) returns (i: nat)
    requires Group(ch, s, key) != []
    ensures i < |s| && Key(ch, s[i]) == key
  {
    i := 0;
    if Key(ch, s[0]) != key {
      var k := GroupMember(ch, s[1..], key);
      i := k + 1;
    }
  }

  lemma HeadsAgree(ch: Choice, s: seq<Student>, t: seq<Student>)
    requires Sorted(ch, s) && Sorted(ch, t) && StableOf(ch, s, t) && s != [] && t != []
    ensures s[0] == t[0]
  {
    var ks, kt := Key(ch, s[0]), Key(ch, t[0]);
    assert Group(ch, s, ks)[0] == s[0] && Group(ch, t, kt)[0] == t[0];
    assert Group(ch, t, ks) == Group(ch, s, ks) && Group(ch, s, kt) == Group(ch, t, kt);
    var i := GroupMember(ch, t, ks);
    var j := GroupMember(ch, s, kt);
    ExchangesOrder(ch, s[0], s[j], s[0]);
    SameKeySameOrder(ch, t[0], s[j], s[0], t[i]);
    ExchangesOrder(ch, s[0], t[0], s[0]);
  }

  /** Only the keys matter to the comparison. */
  lemma SameKeySameOrder(ch: Choice, x: Student, x': Student, y: Student, y': Student)
    requires Key(ch, x) == Key(ch, x') && Key(ch, y) == Key(ch, y')
    ensures Exchanges(ch, x, y) == Exchanges(ch, x', y')
    ensures Exchanges(ch, y, x) == Exchanges(ch, y', x')
  {
  }

  lemma TailGroup(ch: Choice, s: seq<Student>, key: string)
    requires s != []
    ensures |Pick(ch, s[0], key)| <= |Group(ch, s, key)|
    ensures Group(ch, s[1..], key) == Group(ch, s, key)[|Pick(ch, s[0], key)|..]
  {
  }

  /** The result of a sort is determined: two stable sorted rearrangements of
      the same students are equal. */
  lemma {:induction false} StableSortUnique(ch: Choice, s: seq<Student>, t: seq<Student>)
    requires Sorted(ch, s) && Sorted(ch, t) && StableOf(ch, s, t)
    ensures s == t
  {
    StableIsPermutation(ch, s, t);
    assert |s| == |multiset(s)| == |multiset(t)| == |t|;
    if s != [] {
      HeadsAgree(ch, s, t);
      forall key ensures Group(ch, s[1..], key) == Group(ch, t[1..], key) {
        TailGroup(ch, s, key);
        TailGroup(ch, t, key);
        assert Group(ch, s, key) == Group(ch, t, key);
      }
      StableSortUnique(ch, s[1..], t[1..]);
    }
  }

  // ----- The command -----------------------------------------------------------

  /** sortAll: read the file, sort in place, show the result. */
  method SortAll(file: string, ch: Choice) returns (shown: seq<Student>, inBounds: bool)
    ensures inBounds <==> StaysInArray(file, "", 0)
    ensures inBounds ==> Sorted(ch, shown) && StableOf(ch, Parse(file, ""), shown)
  {
    var read;
    read, inBounds := ReadStudents(file);
    var students := new Student[|read|](i requires 0 <= i < |read| => read[i]);
    assert students[..|read|] == read;
    BubbleSort(ch, students, |read|);
    shown := students[..|read|];
  }

  /** For a file that addStudentGrade built there is one possible answer: the
      same names and grades, each grade behind its space, rearranged. */
  lemma SortOfAddedStudents(ch: Choice, added: seq<Student>, shown: seq<Student>, shown': seq<Student>)
    requires AllAcceptable(added) && NoCommas(added)
    requires Sorted(ch, shown) && StableOf(ch, Parse(FileOf(added), ""), shown)
    requires Sorted(ch, shown') && StableOf(ch, AllReadBack(added), shown')
    ensures shown == shown' && multiset(shown) == multiset(AllReadBack(added))
  {
    FileRoundTrip(added);
    var read := AllReadBack(added);
    forall key ensures Group(ch, shown, key) == Group(ch, shown', key) {
      assert Group(ch, read, key) == Group(ch, shown, key) && Group(ch, read, key) == Group(ch, shown', key);
    }
    StableSortUnique(ch, shown, shown');
    StableIsPermutation(ch, read, shown);
  }

  // ----- Labels and directions -------------------------------------------------

  ghost predicate Ascending(keys: seq<string>) {
    forall i, j :: 0 <= i < j < |keys| ==> !Precedes(keys[j], keys[i])
  }

  ghost predicate Descending(keys: seq<string>) {
    forall i, j :: 0 <= i < j < |keys| ==> !Precedes(keys[i], keys[j])
  }

  ghost function Names(s: seq<Student>): (ks: seq<string>)
    ensures |ks| == |s| && forall i :: 0 <= i < |s| ==> ks[i] == s[i].name
  {
    seq(|s|, i requires 0 <= i < |s| => s[i].name)
  }

  ghost function Grades(s: seq<Student>): (ks: seq<string>)
    ensures |ks| == |s| && forall i :: 0 <= i < |s| ==> ks[i] == s[i].grade
  {
    seq(|s|, i requires 0 <= i < |s| => s[i].grade)
  }

  /** The four comparisons, by field and dictionary order. */
  lemma ExchangesExactly(x: Student, y: Student)
    ensures Exchanges(NameAscending, x, y) <==> Precedes(x.name, y.name)
    ensures Exchanges(NameDescending, x, y) <==> Precedes(y.name, x.name)
    ensures Exchanges(GradeAscending, x, y) <==> Precedes(x.grade, y.grade)
    ensures Exchanges(GradeDescending, x, y) <==> Precedes(y.grade, x.grade)
  {
    StrcmpExactly(x.name, y.name);
    StrcmpExactly(x.grade, y.grade);
  }

  /** Sorted by a choice is sorted by the keys whose order it compares. */
  lemma SortedByKeys(ch: Choice, s: seq<Student>, keys: seq<string>, down: bool)
    requires |keys| == |s|
    requires forall i, j :: 0 <= i < j < |s| ==>
               (Exchanges(ch, s[i], s[j]) <==> if down then Precedes(keys[i], keys[j]) else Precedes(keys[j], keys[i]))
    ensures Sorted(ch, s) <==> if down then Descending(keys) else Ascending(keys)
  {
  }

  /** What each of the four sorts leaves, exactly: the field and the direction in
      dictionary order, which is the reverse of the label. */
  lemma LabelIsReversed(s: seq<Student>)
    ensures Sorted(NameAscending, s) <==> Descending(Names(s))
    ensures Sorted(NameDescending, s) <==> Ascending(Names(s))
    ensures Sorted(GradeAscending, s) <==> Descending(Grades(s))
    ensures Sorted(GradeDescending, s) <==> Ascending(Grades(s))
  {
    SortedNames(s);
    SortedGrades(s);
  }

  lemma SortedNames(s: seq<Student>)
    ensures Sorted(NameAscending, s) <==> Descending(Names(s))
    ensures Sorted(NameDescending, s) <==> Ascending(Names(s))
  {
    forall i, j | 0 <= i < j < |s|
      ensures Exchanges(NameAscending, s[i], s[j]) <==> Precedes(Names(s)[i], Names(s)[j])
      ensures Exchanges(NameDescending, s[i], s[j]) <==> Precedes(Names(s)[j], Names(s)[i])
    {
      ExchangesExactly(s[i], s[j]);
    }
    SortedByKeys(NameAscending, s, Names(s), true);
    SortedByKeys(NameDescending, s, Names(s), false);
  }

  lemma SortedGrades(s: seq<Student>)
    ensures Sorted(GradeAscending, s) <==> Descending(Grades(s))
    ensures Sorted(GradeDescending, s) <==> Ascending(Grades(s))
  {
    forall i, j | 0 <= i < j < |s|
      ensures Exchanges(GradeAscending, s[i], s[j]) <==> Precedes(Grades(s)[i], Grades(s)[j])
      ensures Exchanges(GradeDescending, s[i], s[j]) <==> Precedes(Grades(s)[j], Grades(s)[i])
    {
      ExchangesExactly(s[i], s[j]);
    }
    SortedByKeys(GradeAscending, s, Grades(s), true);
    SortedByKeys(GradeDescending, s, Grades(s), false);
  }

  ghost predicate Constant(keys: seq<string>) {
    forall i, j :: 0 <= i < j < |keys| ==> keys[i] == keys[j]
  }

  lemma BothWaysConstant(keys: seq<string>)
    ensures Ascending(keys) && Descending(keys) <==> Constant(keys)
  {
    forall i, j | 0 <= i < j < |keys|
      ensures !Precedes(keys[i], keys[j]) && !Precedes(keys[j], keys[i]) <==> keys[i] == keys[j]
    {
      StrcmpExactly(keys[i], keys[j]);
      StrcmpEqual(keys[i], keys[j]);
    }
  }

  /** So a result agrees with its label exactly when all its keys are equal: the
      label is right only where it does not matter. */
  lemma LabelRightExactly(s: seq<Student>)
    ensures Sorted(NameAscending, s) ==> (Ascending(Names(s)) <==> Constant(Names(s)))
    ensures Sorted(NameDescending, s) ==> (Descending(Names(s)) <==> Constant(Names(s)))
    ensures Sorted(GradeAscending, s) ==> (Ascending(Grades(s)) <==> Constant(Grades(s)))
    ensures Sorted(GradeDescending, s) ==> (Descending(Grades(s)) <==> Constant(Grades(s)))
  {
    LabelIsReversed(s);
    BothWaysConstant(Names(s));
    BothWaysConstant(Grades(s));
  }

  // ----- Stability, by field ---------------------------------------------------

  ghost function WithName(s: seq<Student>, name: string): seq<Student> {
    if s == [] then [] else (if s[0].name == name then [s[0]] else []) + WithName(s[1..], name)
  }

  ghost function WithGrade(s: seq<Student>, grade: string): seq<Student> {
    if s == [] then [] else (if s[0].grade == grade then [s[0]] else []) + WithGrade(s[1..], grade)
  }

  lemma {:induction false} GroupsAreFields(s: seq<Student>, key: string)
    ensures Group(NameAscending, s, key) == Group(NameDescending, s, key) == WithName(s, key)
    ensures Group(GradeAscending, s, key) == Group(GradeDescending, s, key) == WithGrade(s, key)
  {
    if s != [] {
      GroupsAreFields(s[1..], key);
    }
  }

  /** Sorting by name keeps the order of students with the same name, sorting by
      grade that of students with the same grade. */
  lemma StableByField(ch: Choice, s: seq<Student>, t: seq<Student>)
    requires StableOf(ch, s, t)
    ensures ch.NameAscending? || ch.NameDescending? ==> forall key :: WithName(s, key) == WithName(t, key)
    ensures ch.GradeAscending? || ch.GradeDescending? ==> forall key :: WithGrade(s, key) == WithGrade(t, key)
  {
    forall key
      ensures ch.NameAscending? || ch.NameDescending? ==> WithName(s, key) == WithName(t, key)
      ensures ch.GradeAscending? || ch.GradeDescending? ==> WithGrade(s, key) == WithGrade(t, key)
    {
      GroupsAreFields(s, key);
      GroupsAreFields(t, key);
      assert Group(ch, s, key) == Group(ch, t, key);
    }
  }

  /** Two students, sorted by "ascending" names: the later name is shown first. */
  lemma BobBeforeAnn(shown: seq<Student>)
    requires Sorted(NameAscending, shown)
    requires StableOf(NameAscending, [Student("Ann", " AA"), Student("Bob", " BB")], shown)
    ensures shown == [Student("Bob", " BB"), Student("Ann", " AA")]
  {
    var ann, bob := Student("Ann", " AA"), Student("Bob", " BB");
    forall key ensures Group(NameAscending, [bob, ann], key) == Group(NameAscending, [ann, bob], key) == Group(NameAscending, shown, key) {
      GroupOfPair(NameAscending, ann, bob, key);
    }
    assert "Ann"[..0] == "Bob"[..0];
    StrcmpExactly("Bob", "Ann");
    StableSortUnique(NameAscending, shown, [bob, ann]);
  }
}
