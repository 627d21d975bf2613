/**
 * What the two tree builders share: the "directories first, then by name"
 * comparator, the sort that applies it, the path-join rule, and the
 * segment splitting of `path.split('/').filter(p => p.length > 0)`.
 */
module NodeOrder {
  import opened Seqs
  import opened Types

  /**
   * `String.prototype.localeCompare` is a parameter `cmp`: negative, zero or
   * positive as its first argument sorts before, with or after the second.
   * Whatever the locale, `cmp(a, b) <= 0` is assumed total and transitive.
   */
  ghost predicate TotalPreorder(cmp: (string, string) -> int) {
    && (forall a, b :: cmp(a, b) <= 0 || cmp(b, a) <= 0)
    && (forall a, b, c :: cmp(a, b) <= 0 && cmp(b, c) <= 0 ==> cmp(a, c) <= 0)
  }

  /** The comparator passed to `sort` by both tree builders. */
  function CompareNodes(cmp: (string, string) -> int, a: FileNode, b: FileNode): int {
    if a.fileType != b.fileType then (if a.fileType == Directory then -1 else 1)
    else cmp(a.name, b.name)
  }

  predicate InOrder(cmp: (string, string) -> int, a: FileNode, b: FileNode) {
    CompareNodes(cmp, a, b) <= 0
  }

  predicate Sorted(cmp: (string, string) -> int, s: seq<FileNode>) {
    forall i, j :: 0 <= i < j < |s| ==> InOrder(cmp, s[i], s[j])
  }

  /** One level in the order the UI shows: directories before files, each kind by name. */
  predicate LevelOrdered(cmp: (string, string) -> int, s: seq<FileNode>) {
    forall i, j :: 0 <= i < j < |s| ==>
      && (s[i].fileType == File ==> s[j].fileType == File)
      && (s[i].fileType == s[j].fileType ==> cmp(s[i].name, s[j].name) <= 0)
  }

  /** Below a node, every level (each directory's `children`) is ordered. */
  predicate NodeOrdered(cmp: (string, string) -> int, n: FileNode)
    decreases n
  {
    n.children.Children? ==>
      && LevelOrdered(cmp, n.children.nodes)
      && forall i :: 0 <= i < |n.children.nodes| ==> NodeOrdered(cmp, n.children.nodes[i])
  }

  /** Every level of a tree, the top one and each directory's children, is ordered. */
  predicate TreeOrdered(cmp: (string, string) -> int, s: seq<FileNode>) {
    LevelOrdered(cmp, s) && forall i :: 0 <= i < |s| ==> NodeOrdered(cmp, s[i])
  }

  /** A node whose children are an ordered tree is ordered. */
  lemma OrderedChildren(cmp: (string, string) -> int, n: FileNode, s: seq<FileNode>)
    requires n.children == Children(s) && TreeOrdered(cmp, s)
    ensures NodeOrdered(cmp, n)
  {
  }

  /** Insertion before the first element `x` does not sort after: stable. */
  function Insert(cmp: (string, string) -> int, x: FileNode, s: seq<FileNode>): (r: seq<FileNode>)
    ensures multiset(r) == multiset(s) + multiset{x}
  {
    if s == [] || InOrder(cmp, x, s[0]) then [x] + s
    else
      assert s == [s[0]] + s[1..];
      [s[0]] + Insert(cmp, x, s[1..])
  }

  /** `Array.prototype.sort` with the node comparator: a stable insertion sort. */
  function SortNodes(cmp: (string, string) -> int, s: seq<FileNode>): (r: seq<FileNode>)
    ensures multiset(r) == multiset(s)
  {
    if s == [] then []
    else
      assert s == [s[0]] + s[1..];
      Insert(cmp, s[0], SortNodes(cmp, s[1..]))
  }

  /** Sorting keeps the length and the members. */
  lemma SortKeepsMembers(cmp: (string, string) -> int, s: seq<FileNode>)
    ensures |SortNodes(cmp, s)| == |s|
    ensures forall n :: n in SortNodes(cmp, s) <==> n in s
  {
    var r := SortNodes(cmp, s);
    assert |multiset(r)| == |multiset(s)|;
    forall n ensures n in r <==> n in s {
      assert n in r <==> n in multiset(r);
      assert n in s <==> n in multiset(s);
    }
  }

  lemma {:induction false} InsertSorted(cmp: (string, string) -> int, x: FileNode, s: seq<FileNode>)
    requires TotalPreorder(cmp)
    requires Sorted(cmp, s)
    ensures Sorted(cmp, Insert(cmp, x, s))
  {
    if s != [] && !InOrder(cmp, x, s[0]) {
      InsertSorted(cmp, x, s[1..]);
      var r := Insert(cmp, x, s[1..]);
      assert InOrder(cmp, s[0], x);
      forall k | 0 <= k < |r| ensures InOrder(cmp, s[0], r[k]) {
        assert r[k] in multiset(r);
        assert r[k] == x || r[k] in multiset(s[1..]);
        if r[k] != x {
          var m :| 0 <= m < |s[1..]| && s[1..][m] == r[k];
          assert s[m + 1] == r[k];
        }
      }
    }
  }

  /** The sort's result is ordered by the node comparator. */
  lemma {:induction false} SortSorted(cmp: (string, string) -> int, s: seq<FileNode>)
    requires TotalPreorder(cmp)
    ensures Sorted(cmp, SortNodes(cmp, s))
  {
    if s != [] {
      SortSorted(cmp, s[1..]);
      InsertSorted(cmp, s[0], SortNodes(cmp, s[1..]));
    }
  }

  /** Sorting an ordered level changes nothing: the builders' second sort of `children` is a no-op. */
  lemma {:induction false} SortKeepsSorted(cmp: (string, string) -> int, s: seq<FileNode>)
    requires Sorted(cmp, s)
    ensures SortNodes(cmp, s) == s
  {
    if s != [] {
      SortKeepsSorted(cmp, s[1..]);
      assert s == [s[0]] + s[1..];
    }
  }

  /** Being sorted by the comparator is being ordered directories-first, then by name. */
  lemma SortedIsLevelOrdered(cmp: (string, string) -> int, s: seq<FileNode>)
    requires Sorted(cmp, s)
    ensures LevelOrdered(cmp, s)
  {
    forall i, j | 0 <= i < j < |s| ensures s[i].fileType == File ==> s[j].fileType == File {
      assert InOrder(cmp, s[i], s[j]);
    }
  }

  /** The sorted result of a level whose nodes are each ordered inside is an ordered tree. */
  lemma SortedTree(cmp: (string, string) -> int, s: seq<FileNode>)
    requires TotalPreorder(cmp)
    requires forall n :: n in s ==> NodeOrdered(cmp, n)
    ensures TreeOrdered(cmp, SortNodes(cmp, s))
  {
    var r := SortNodes(cmp, s);
    SortSorted(cmp, s);
    SortedIsLevelOrdered(cmp, r);
    forall i | 0 <= i < |r| ensures NodeOrdered(cmp, r[i]) {
      assert r[i] in multiset(r);
    }
  }

  /** A node's path: `parentPath ? parentPath + "/" + name : name`. */
  function JoinChild(parentPath: string, name: string): string {
    if parentPath == "" then name else parentPath + "/" + name
  }

  /** The path the builders give a node reached through the entries named `names`. */
  function JoinPath(names: seq<string>): string {
    if names == [] then "" else JoinChild(JoinPath(names[..|names| - 1]), names[|names| - 1])
  }

  /** `String.prototype.split('/')`: the pieces between separators, empty ones included. */
  function Split(s: string): (r: seq<string>)
    ensures |r| >= 1
  {
    if s == [] then [[]]
    else if s[0] == '/' then [[]] + Split(s[1..])
    else var rest := Split(s[1..]); [[s[0]] + rest[0]] + rest[1..]
  }

  /** `split('/').filter(p => p.length > 0)`. */
  function Segments(s: string): seq<string> {
    Filter(Split(s), (p: string) => |p| > 0)
  }

  /** An entry name as the builders and walkers see it: non-empty, without a separator. */
  predicate PlainName(name: string) {
    name != "" && '/' !in name
  }

  lemma {:induction false} SplitPieces(s: string)
    ensures forall p :: p in Split(s) ==> '/' !in p
  {
    if s != [] {
      SplitPieces(s[1..]);
      if s[0] != '/' {
        var rest := Split(s[1..]);
        assert rest[0] in rest;
      }
    }
  }

  /** Every segment is a plain name. */
  lemma SegmentsArePlain(s: string)
    ensures forall p :: p in Segments(s) ==> PlainName(p)
  {
    SplitPieces(s);
    forall p | p in Segments(s) ensures PlainName(p) {
      FilterMembership(Split(s), (q: string) => |q| > 0, p);
    }
  }

  lemma {:induction false} SplitPlain(s: string)
    requires '/' !in s
    ensures Split(s) == [s]
  {
    if s != [] {
      SplitPlain(s[1..]);
      assert s == [s[0]] + s[1..];
    }
  }

  lemma {:induction false} SplitAtSeparator(a: string, b: string)
    ensures Split(a + "/" + b) == Split(a) + Split(b)
  {
    if a == [] {
      assert a + "/" + b == ['/'] + b;
      assert (['/'] + b)[1..] == b;
    } else {
      assert (a + "/" + b)[1..] == a[1..] + "/" + b;
      SplitAtSeparator(a[1..], b);
    }
  }

  /** Splitting a joined path gives back the names it was joined from. */
  lemma {:induction false} SegmentsOfJoinPath(names: seq<string>)
    requires forall i :: 0 <= i < |names| ==> PlainName(names[i])
    ensures Segments(JoinPath(names)) == names
  {
    var keep := (p: string) => |p| > 0;
    if names == [] {
      assert Split("") == [""];
    } else {
      var init, last := names[..|names| - 1], names[|names| - 1];
      assert names == init + [last];
      SplitPlain(last);
      if init == [] {
        assert JoinPath(init) == "";
      } else {
        SegmentsOfJoinPath(init);
        assert JoinPath(init) != "" by {
          assert Segments(JoinPath(init)) != [];
        }
        SplitAtSeparator(JoinPath(init), last);
        FilterAppend(Split(JoinPath(init)), [last], keep);
      }
    }
  }
}
