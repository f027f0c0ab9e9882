/** The manager's recursive walk: which directories it makes and which file
    pairs it opens, in which order, and which paths it builds for them. */
module Traversal {
  import opened CopyPlan

  /** A directory as `readdir` delivers it. `Link` stands for the two entries
      "." and "..", which name directories that are not part of the tree. */
  datatype Node = File(bytes: Bytes) | Dir(entries: seq<Entry>) | Link
  datatype Entry = Entry(name: string, node: Node)

  predicate IsDot(name: string) {
    name == "." || name == ".."
  }

  ghost predicate PlainName(name: string) {
    '/' !in name
  }

  /** Names within a directory are distinct and contain no slash; the dot
      entries are the links. */
  ghost predicate WellFormed(es: seq<Entry>) {
    && (forall i :: 0 <= i < |es| ==> PlainName(es[i].name))
    && (forall i :: 0 <= i < |es| ==> (es[i].name == "." || es[i].name == ".." <==> es[i].node.Link?))
    && (forall i, j :: 0 <= i < j < |es| ==> es[i].name != es[j].name)
    && (forall i :: 0 <= i < |es| && es[i].node.Dir? ==> WellFormed(es[i].node.entries))
  }

  // ----- What the walk asks for ------------------------------------------------

  function Plan(src: string, dst: string, es: seq<Entry>): seq<Action>
    decreases es, 1
  {
    [MkDir(dst)] + PlanEntries(src, dst, es)
  }

  function PlanEntries(src: string, dst: string, es: seq<Entry>): seq<Action>
    decreases es, 0
  {
    if es == [] then [] else PlanEntry(src, dst, es[0]) + PlanEntries(src, dst, es[1..])
  }

  function PlanEntry(src: string, dst: string, e: Entry): seq<Action>
    decreases e, 2
  {
    if IsDot(e.name) then []
    else
      var s, d := src + "/" + e.name, dst + "/" + e.name;
      match e.node
      case Dir(sub) => Plan(s, d, sub)
      case File(_) => [Copy(s, d, e.name)]
      case Link => []
  }

  lemma {:induction false} PlanEntriesSnoc(src: string, dst: string, es: seq<Entry>, n: nat)
    requires n < |es|
    ensures PlanEntries(src, dst, es[..n + 1]) == PlanEntries(src, dst, es[..n]) + PlanEntry(src, dst, es[n])
  {
    if n == 0 {
      assert es[..1] == [es[0]] && es[..0] == [];
      assert [es[0]][1..] == [];
    } else {
      PlanEntriesSnoc(src, dst, es[1..], n - 1);
      assert es[..n + 1][1..] == es[1..][..n];
      assert es[..n][1..] == es[1..][..n - 1];
    }
  }

  /** The manager, with what it has asked for so far. */
  class Manager {
    var actions: seq<Action>

    constructor ()
      ensures actions == []
    {
      actions := [];
    }

    /** Makes the directory, then walks its entries, into subdirectories first
        come first served, and hands over one pair per file. */
    method CopyDirectory(srcDir: string, destDir: string, entries: seq<Entry>)
      modifies this
      ensures actions == old(actions) + Plan(srcDir, destDir, entries)
      decreases entries
    {
      actions := actions + [MkDir(destDir)];
      ghost var before := actions;
      var i := 0;
      while i < |entries|
        invariant 0 <= i <= |entries|
        invariant actions == before + PlanEntries(srcDir, destDir, entries[..i])
      {
        var entry := entries[i];
        PlanEntriesSnoc(srcDir, destDir, entries, i);
        if entry.name != "." && entry.name != ".." {
          var srcPath := srcDir + "/" + entry.name;
          var destPath := destDir + "/" + entry.name;
          if entry.node.Dir? {
            CopyDirectory(srcPath, destPath, entry.node.entries);
          } else if entry.node.File? {
            actions := actions + [Copy(srcPath, destPath, entry.name)];
          }
        }
        i := i + 1;
      }
      assert entries[..|entries|] == entries;
    }
  }

  // ----- Paths -----------------------------------------------------------------

  /** A path inside a tree: the names on the way down. */
  type Rel = seq<string>

  function Tail(r: Rel): string {
    if r == [] then "" else "/" + r[0] + Tail(r[1..])
  }

  function Join(prefix: string, r: Rel): string {
    prefix + Tail(r)
  }

  ghost predicate Plain(r: Rel) {
    forall i :: 0 <= i < |r| ==> PlainName(r[i])
  }

  lemma {:induction false} TailSnoc(r: Rel, name: string)
    ensures Tail(r + [name]) == Tail(r) + "/" + name
  {
    if r == [] {
      assert [name][1..] == [];
    } else {
      TailSnoc(r[1..], name);
      assert (r + [name])[1..] == r[1..] + [name];
    }
  }

  lemma NameNotLonger(a: string, x: string, b: string, y: string)
    requires a + x == b + y
    requires PlainName(b) && (x == "" || x[0] == '/')
    ensures |b| <= |a|
  {
    var whole := a + x;
    forall k | 0 <= k < |b| ensures whole[k] != '/' {
      assert whole[k] == (b + y)[k] == b[k];
    }
    assert |a| < |whole| ==> whole[|a|] == x[0] == '/';
  }

  /** What ends a name is a slash or the end of the path, so names can be told apart. */
  lemma NamesSeparate(a: string, x: string, b: string, y: string)
    requires a + x == b + y
    requires PlainName(a) && PlainName(b)
    requires (x == "" || x[0] == '/') && (y == "" || y[0] == '/')
    ensures a == b && x == y
  {
    NameNotLonger(a, x, b, y);
    NameNotLonger(b, y, a, x);
    assert a == (a + x)[..|a|] == (b + y)[..|b|] == b;
    assert x == (a + x)[|a|..] == (b + y)[|b|..] == y;
  }

  lemma {:induction false} TailInjective(r: Rel, r': Rel)
    requires Plain(r) && Plain(r') && Tail(r) == Tail(r')
    ensures r == r'
  {
    if r != [] && r' != [] {
      var x, y := Tail(r[1..]), Tail(r'[1..]);
      assert Tail(r) == "/" + (r[0] + x) && Tail(r') == "/" + (r'[0] + y);
      assert r[0] + x == Tail(r)[1..] == Tail(r')[1..] == r'[0] + y;
      NamesSeparate(r[0], x, r'[0], y);
      TailInjective(r[1..], r'[1..]);
      assert r == [r[0]] + r[1..] && r' == [r'[0]] + r'[1..];
    }
  }

  /** Different places in a tree have different paths. */
  lemma JoinInjective(prefix: string, r: Rel, r': Rel)
    requires Plain(r) && Plain(r') && Join(prefix, r) == Join(prefix, r')
    ensures r == r'
  {
    assert Tail(r) == Join(prefix, r)[|prefix|..] == Join(prefix, r')[|prefix|..] == Tail(r');
    TailInjective(r, r');
  }

  // ----- The tree, place by place ----------------------------------------------

  datatype Found = Nothing | FoundFile(bytes: Bytes) | FoundDir

  /** What the tree has at a relative path. */
  ghost function Lookup(es: seq<Entry>, r: Rel): Found
    decreases r, |es|
  {
    if r == [] then FoundDir
    else if es == [] then Nothing
    else if es[0].name != r[0] then Lookup(es[1..], r)
    else match es[0].node
         case Link => Nothing
         case File(bytes) => if |r| == 1 then FoundFile(bytes) else Nothing
         case Dir(sub) => Lookup(sub, r[1..])
  }

  /** The places the walk visits, relative to its root, in its order. */
  datatype Visit = VisitDir(rel: Rel) | VisitFile(rel: Rel)

  ghost function Walk(base: Rel, es: seq<Entry>): seq<Visit>
    decreases es, 0
  {
    if es == [] then [] else WalkEntry(base, es[0]) + Walk(base, es[1..])
  }

  ghost function WalkEntry(base: Rel, e: Entry): seq<Visit>
    decreases e, 1
  {
    if IsDot(e.name) then []
    else match e.node
         case Dir(sub) => [VisitDir(base + [e.name])] + Walk(base + [e.name], sub)
         case File(_) => [VisitFile(base + [e.name])]
         case Link => []
  }

  ghost predicate Matches(src: string, dst: string, a: Action, v: Visit) {
    match v
    case VisitDir(r) => a == MkDir(Join(dst, r))
    case VisitFile(r) => a.Copy? && a.src == Join(src, r) && a.dst == Join(dst, r)
  }

  ghost predicate AllMatch(src: string, dst: string, plan: seq<Action>, walk: seq<Visit>) {
    |plan| == |walk| && forall i :: 0 <= i < |plan| ==> Matches(src, dst, plan[i], walk[i])
  }

  /** The paths handed down the recursion are the joined relative paths. */
  lemma {:induction false} PlanFollowsWalk(src: string, dst: string, base: Rel, es: seq<Entry>)
    ensures AllMatch(src, dst, PlanEntries(Join(src, base), Join(dst, base), es), Walk(base, es))
    decreases es, 0
  {
    if es != [] {
      PlanEntryFollowsWalk(src, dst, base, es[0]);
      PlanFollowsWalk(src, dst, base, es[1..]);
    }
  }

  lemma {:induction false} PlanEntryFollowsWalk(src: string, dst: string, base: Rel, e: Entry)
    ensures AllMatch(src, dst, PlanEntry(Join(src, base), Join(dst, base), e), WalkEntry(base, e))
    decreases e, 1
  {
    TailSnoc(base, e.name);
    var below := base + [e.name];
    assert Join(src, base) + "/" + e.name == Join(src, below);
    assert Join(dst, base) + "/" + e.name == Join(dst, below);
    if e.node.Dir? {
      PlanFollowsWalk(src, dst, below, e.node.entries);
    }
  }

  /** Every entry but "." and ".." is asked for, under its own name: a file as
      one copy, a directory as a directory and then its own entries. */
  lemma {:induction false} EntryIsAsked(src: string, dst: string, es: seq<Entry>, i: nat)
    requires i < |es| && es[i].name != "." && es[i].name != ".."
    ensures var e := es[i]; var s, d := src + "/" + e.name, dst + "/" + e.name;
            && (e.node.File? ==> Copy(s, d, e.name) in Plan(src, dst, es))
            && (e.node.Dir? ==> MkDir(d) in Plan(src, dst, es)
                                && forall a :: a in PlanEntries(s, d, e.node.entries) ==> a in Plan(src, dst, es))
    decreases i
  {
    if i == 0 {
      var e := es[0];
      var s, d := src + "/" + e.name, dst + "/" + e.name;
      if e.node.File? {
        assert Copy(s, d, e.name) in PlanEntry(src, dst, e);
      } else if e.node.Dir? {
        assert MkDir(d) in PlanEntry(src, dst, e);
      }
    } else {
      EntryIsAsked(src, dst, es[1..], i - 1);
    }
  }

  /** Of "." and ".." nothing is asked for. */
  lemma DotsAreSkipped(src: string, dst: string, e: Entry)
    ensures PlanEntry(src, dst, e) == [] <==> e.name == "." || e.name == ".." || e.node.Link?
  {
  }

  // ----- The walk and the tree agree -------------------------------------------

  ghost function Names(es: seq<Entry>): set<string> {
    set i | 0 <= i < |es| :: es[i].name
  }

  /** A visit below `base` whose first name is one of `names`. */
  ghost predicate Through(v: Visit, base: Rel, names: set<string>) {
    |base| < |v.rel| && v.rel[..|base|] == base && v.rel[|base|] in names
  }

  lemma {:induction false} EntryVisits(base: Rel, e: Entry)
    ensures forall v :: v in WalkEntry(base, e) ==> Through(v, base, {e.name})
    decreases e, 1
  {
    var below := base + [e.name];
    assert below[..|base|] == base && below[|base|] == e.name;
    if !IsDot(e.name) && e.node.Dir? {
      VisitsBelow(below, e.node.entries);
      forall v | v in Walk(below, e.node.entries) ensures Through(v, base, {e.name}) {
        assert v.rel[..|base|] == v.rel[..|below|][..|base|] == base;
        assert v.rel[|base|] == v.rel[..|below|][|base|];
      }
    }
  }

  lemma {:induction false} VisitsBelow(base: Rel, es: seq<Entry>)
    ensures forall v :: v in Walk(base, es) ==> Through(v, base, Names(es))
    decreases es, 0
  {
    if es != [] {
      EntryVisits(base, es[0]);
      VisitsBelow(base, es[1..]);
      assert Names(es) == {es[0].name} + Names(es[1..]) by {
        forall i | 0 < i < |es| ensures es[i].name in Names(es[1..]) {
          assert es[1..][i - 1] == es[i];
        }
      }
    }
  }

  ghost predicate Distinct(walk: seq<Visit>) {
    forall i, j :: 0 <= i < j < |walk| ==> walk[i].rel != walk[j].rel
  }

  lemma DistinctConcat(a: seq<Visit>, b: seq<Visit>)
    requires Distinct(a) && Distinct(b)
    requires forall v, w :: v in a && w in b ==> v.rel != w.rel
    ensures Distinct(a + b)
  {
    forall i, j | 0 <= i < j < |a + b| ensures (a + b)[i].rel != (a + b)[j].rel {
      if i < |a| && |a| <= j {
        assert a[i] in a && b[j - |a|] in b;
      }
    }
  }

  /** No place is visited twice. */
  lemma {:induction false} WalkDistinct(base: Rel, es: seq<Entry>)
    requires WellFormed(es)
    ensures Distinct(Walk(base, es))
    decreases es, 0
  {
    if es != [] {
      var rest := es[1..];
      EntryVisits(base, es[0]);
      VisitsBelow(base, rest);
      WalkEntryDistinct(base, es[0]);
      WalkDistinct(base, rest);
      DistinctConcat(WalkEntry(base, es[0]), Walk(base, rest));
    }
  }

  lemma {:induction false} WalkEntryDistinct(base: Rel, e: Entry)
    requires e.node.Dir? ==> WellFormed(e.node.entries)
    ensures Distinct(WalkEntry(base, e))
    decreases e, 1
  {
    if !IsDot(e.name) && e.node.Dir? {
      var below := base + [e.name];
      WalkDistinct(below, e.node.entries);
      VisitsBelow(below, e.node.entries);
      DistinctConcat([VisitDir(below)], Walk(below, e.node.entries));
    }
  }

  lemma {:induction false} LookupNamed(es: seq<Entry>, r: Rel) returns (i: nat)
    requires r != [] && Lookup(es, r) != Nothing
    ensures i < |es| && es[i].name == r[0]
    decreases |es|
  {
    i := 0;
    if es[0].name != r[0] {
      var k := LookupNamed(es[1..], r);
      i := k + 1;
    }
  }

  /** The visit that belongs to what is found at a place. */
  ghost predicate Reports(v: Visit, base: Rel, r: Rel, found: Found) {
    && v.rel == base + r
    && (v.VisitFile? <==> found.FoundFile?)
    && (v.VisitDir? <==> found.FoundDir?)
  }

  /** Every visit reports something that is in the tree. */
  lemma {:induction false} WalkSound(base: Rel, es: seq<Entry>, v: Visit) returns (r: Rel)
    requires WellFormed(es) && v in Walk(base, es)
    ensures r != [] && Plain(r) && Reports(v, base, r, Lookup(es, r))
    decreases es, 0
  {
    if v in WalkEntry(base, es[0]) {
      r := WalkEntrySound(base, es[0], v);
    } else {
      r := WalkSound(base, es[1..], v);
      var i := LookupNamed(es[1..], r);
      assert es[i + 1].name == r[0];
    }
  }

  ghost function LookupIn(e: Entry, r: Rel): Found
    requires r != []
  {
    match e.node
    case Link => Nothing
    case File(bytes) => if |r| == 1 then FoundFile(bytes) else Nothing
    case Dir(sub) => Lookup(sub, r[1..])
  }

  lemma {:induction false} WalkEntrySound(base: Rel, e: Entry, v: Visit) returns (r: Rel)
    requires PlainName(e.name) && (e.node.Dir? ==> WellFormed(e.node.entries))
    requires v in WalkEntry(base, e)
    ensures r != [] && r[0] == e.name && Plain(r) && Reports(v, base, r, LookupIn(e, r))
    decreases e, 1
  {
    r := [e.name];
    if e.node.Dir? && v != VisitDir(base + [e.name]) {
      var r' := WalkSound(base + [e.name], e.node.entries, v);
      r := [e.name] + r';
      assert base + [e.name] + r' == base + r;
      assert r[1..] == r';
    }
  }

  /** Everything in the tree is visited. */
  lemma {:induction false} WalkComplete(base: Rel, es: seq<Entry>, r: Rel) returns (v: Visit)
    requires WellFormed(es) && r != [] && Lookup(es, r) != Nothing
    ensures v in Walk(base, es) && Reports(v, base, r, Lookup(es, r))
    decreases es, 0
  {
    if es[0].name != r[0] {
      v := WalkComplete(base, es[1..], r);
    } else {
      assert Lookup(es, r) == LookupIn(es[0], r);
      v := WalkEntryComplete(base, es[0], r);
    }
  }

  lemma {:induction false} WalkEntryComplete(base: Rel, e: Entry, r: Rel) returns (v: Visit)
    requires (e.name == "." || e.name == ".." <==> e.node.Link?) && (e.node.Dir? ==> WellFormed(e.node.entries))
    requires r != [] && r[0] == e.name && LookupIn(e, r) != Nothing
    ensures v in WalkEntry(base, e) && Reports(v, base, r, LookupIn(e, r))
    decreases e, 1
  {
    var below := base + [e.name];
    if |r| == 1 {
      assert r == [e.name];
      v := if e.node.File? then VisitFile(below) else VisitDir(below);
    } else {
      v := WalkComplete(below, e.node.entries, r[1..]);
      assert below + r[1..] == base + r;
    }
  }
}
