/**
 * The local-folder service: the file tree built from a directory handle,
 * nested file and directory creation, path resolution, and the loading
 * tracker bracket around reads, writes and creations.
 *
 * The browser's directory handles are modelled by an in-memory directory
 * (`Listing`); a handle is the path of names from the chosen root.
 */
module LocalFs {
  import opened Wrappers
  import opened Seqs
  import opened Types
  import opened NodeOrder
  import opened Loading

  /** What a directory entry holds. */
  datatype Item = FileItem(content: string) | DirItem(listing: Listing)

  datatype Entry = Entry(name: string, item: Item)

  /**
   * A directory's entries in enumeration order. When `failsAfter` is
   * `Some(k)`, enumerating the directory throws after yielding `k` entries.
   */
  datatype Listing = Listing(entries: seq<Entry>, failsAfter: Option<nat>)

  /** What a path names: a file with its content, or a directory. */
  datatype Kind = FileKind(content: string) | DirKind

  /** Errors raised by the directory handles and by the service. */
  datatype FsError =
    | InvalidFileName       // "Invalid file name"
    | InvalidDirectoryName  // "Invalid directory name"
    | InvalidEntryName      // a name the handle API refuses
    | TypeMismatch          // the name exists with the other kind
    | NotFound              // the name does not exist and was not created
    | Platform(message: string)

  const EmptyDirectory := Listing([], None)

  /** The first entry called `name`. */
  function FindEntry(entries: seq<Entry>, name: string): (r: Option<nat>)
    ensures r.Some? ==> r.value < |entries| && entries[r.value].name == name
    ensures r.Some? ==> forall j :: 0 <= j < r.value ==> entries[j].name != name
    ensures r.None? ==> forall j :: 0 <= j < |entries| ==> entries[j].name != name
  {
    if entries == [] then None
    else if entries[0].name == name then Some(0)
    else match FindEntry(entries[1..], name)
      case None => None
      case Some(i) => Some(i + 1)
  }

  function KindOf(item: Item): Kind {
    match item
    case FileItem(c) => FileKind(c)
    case DirItem(_) => DirKind
  }

  /** What `path`, taken from `root`, names; `None` when it names nothing. */
  function KindAt(root: Listing, path: seq<string>): Option<Kind>
    decreases |path|
  {
    if path == [] then Some(DirKind)
    else match FindEntry(root.entries, path[0])
      case None => None
      case Some(i) =>
        match root.entries[i].item
        case FileItem(c) => if |path| == 1 then Some(FileKind(c)) else None
        case DirItem(sub) => KindAt(sub, path[1..])
  }

  predicate IsDirAt(root: Listing, path: seq<string>) {
    KindAt(root, path) == Some(DirKind)
  }

  predicate IsFileAt(root: Listing, path: seq<string>) {
    KindAt(root, path).Some? && KindAt(root, path).value.FileKind?
  }

  /** Every proper prefix of a path that names something is a directory. */
  lemma {:induction false} PrefixesOfExisting(root: Listing, path: seq<string>, k: nat)
    requires k < |path|
    ensures KindAt(root, path).Some? ==> IsDirAt(root, path[..k])
    decreases |path|
  {
    if k > 0 && KindAt(root, path).Some? {
      var i := FindEntry(root.entries, path[0]).value;
      var sub := root.entries[i].item.listing;
      PrefixesOfExisting(sub, path[1..], k - 1);
      assert path[..k][1..] == path[1..][..k - 1];
    }
  }

  /**
   * The names the handle API refuses for a child: the empty name, "." and
   * "..", and names holding a separator.
   */
  predicate ValidName(name: string) {
    name != "" && name != "." && name != ".." && '/' !in name
  }

  /** An item created by a handle call: an empty file or an empty directory. */
  predicate Fresh(item: Item) {
    item == FileItem("") || item == DirItem(EmptyDirectory)
  }

  /** Appends `e` to the directory at `dir`. */
  function AddEntry(root: Listing, dir: seq<string>, e: Entry): Listing
    requires IsDirAt(root, dir)
    decreases |dir|
  {
    if dir == [] then root.(entries := root.entries + [e])
    else
      var i := FindEntry(root.entries, dir[0]).value;
      var sub := root.entries[i].item.listing;
      root.(entries := root.entries[i := Entry(dir[0], DirItem(AddEntry(sub, dir[1..], e)))])
  }

  lemma {:induction false} FindAfterAppend(entries: seq<Entry>, e: Entry, name: string)
    ensures FindEntry(entries + [e], name) ==
      if FindEntry(entries, name).Some? then FindEntry(entries, name)
      else if e.name == name then Some(|entries|)
      else None
  {
    if entries != [] {
      assert (entries + [e])[1..] == entries[1..] + [e];
      FindAfterAppend(entries[1..], e, name);
    }
  }

  lemma {:induction false} FindAfterRename(entries: seq<Entry>, i: nat, e: Entry, name: string)
    requires i < |entries| && e.name == entries[i].name
    ensures FindEntry(entries[i := e], name) == FindEntry(entries, name)
  {
    if i > 0 {
      assert entries[i := e][1..] == entries[1..][i - 1 := e];
      FindAfterRename(entries[1..], i - 1, e, name);
    }
  }

  /**
   * Adding a fresh entry under a name the directory lacks creates exactly
   * one path and changes what no other path names.
   */
  lemma {:induction false} AddEntryKinds(root: Listing, dir: seq<string>, e: Entry, p: seq<string>)
    requires IsDirAt(root, dir)
    requires KindAt(root, dir + [e.name]).None?
    requires Fresh(e.item)
    ensures KindAt(AddEntry(root, dir, e), p) ==
      if p == dir + [e.name] then Some(KindOf(e.item)) else KindAt(root, p)
    decreases |dir|
  {
    var after := AddEntry(root, dir, e);
    if p == [] {
    } else if dir == [] {
      FindAfterAppend(root.entries, e, p[0]);
      assert KindAt(root, [e.name]).None?;
      if FindEntry(root.entries, p[0]).Some? {
        var i := FindEntry(root.entries, p[0]).value;
        assert after.entries[i] == root.entries[i];
      } else if p[0] == e.name {
        assert after.entries[|root.entries|] == e;
        if |p| > 1 && e.item.DirItem? {
          assert KindAt(after, p) == KindAt(EmptyDirectory, p[1..]);
        }
      }
    } else {
      var i := FindEntry(root.entries, dir[0]).value;
      var sub := root.entries[i].item.listing;
      var e' := Entry(dir[0], DirItem(AddEntry(sub, dir[1..], e)));
      FindAfterRename(root.entries, i, e', p[0]);
      assert (dir + [e.name])[1..] == dir[1..] + [e.name];
      if p[0] == dir[0] {
        AddEntryKinds(sub, dir[1..], e, p[1..]);
        assert p == dir + [e.name] <==> p[1..] == dir[1..] + [e.name];
      } else {
        var j := FindEntry(root.entries, p[0]);
        if j.Some? {
          assert after.entries[j.value] == root.entries[j.value];
        }
      }
    }
  }

  /** `after` keeps everything `before` names and adds at most `created`. */
  ghost predicate Extends(before: Listing, after: Listing, created: seq<string>) {
    && (forall p :: KindAt(before, p).Some? ==> KindAt(after, p) == KindAt(before, p))
    && (forall p :: KindAt(after, p).Some? && KindAt(before, p).None? ==> p == created)
  }

  /**
   * `getDirectoryHandle(name, {create})` on the directory at `dir`: the new
   * directory (changed only when one is created) and the handle or error.
   */
  function GetDirectoryHandle(root: Listing, dir: seq<string>, name: string, create: bool): (Listing, Result<Handle, FsError>)
    requires IsDirAt(root, dir)
  {
    if !ValidName(name) then (root, Err(InvalidEntryName))
    else match KindAt(root, dir + [name])
      case Some(DirKind) => (root, Ok(DirectoryHandle(dir + [name])))
      case Some(FileKind(_)) => (root, Err(TypeMismatch))
      case None =>
        if create then (AddEntry(root, dir, Entry(name, DirItem(EmptyDirectory))), Ok(DirectoryHandle(dir + [name])))
        else (root, Err(NotFound))
  }

  /** `getFileHandle(name, {create})` on the directory at `dir`. */
  function GetFileHandle(root: Listing, dir: seq<string>, name: string, create: bool): (Listing, Result<Handle, FsError>)
    requires IsDirAt(root, dir)
  {
    if !ValidName(name) then (root, Err(InvalidEntryName))
    else match KindAt(root, dir + [name])
      case Some(FileKind(_)) => (root, Ok(FileHandle(dir + [name])))
      case Some(DirKind) => (root, Err(TypeMismatch))
      case None =>
        if create then (AddEntry(root, dir, Entry(name, FileItem(""))), Ok(FileHandle(dir + [name])))
        else (root, Err(NotFound))
  }

  lemma GetDirectoryHandleEffect(root: Listing, dir: seq<string>, name: string, create: bool)
    requires IsDirAt(root, dir)
    ensures var (after, r) := GetDirectoryHandle(root, dir, name, create);
      && Extends(root, after, dir + [name])
      && (r.Ok? <==> ValidName(name) && (IsDirAt(root, dir + [name]) || (create && KindAt(root, dir + [name]).None?)))
      && (r.Ok? ==> r.value == DirectoryHandle(dir + [name]) && IsDirAt(after, dir + [name]))
      && (r.Err? ==> after == root)
  {
    if ValidName(name) && KindAt(root, dir + [name]).None? && create {
      var e := Entry(name, DirItem(EmptyDirectory));
      forall p ensures KindAt(AddEntry(root, dir, e), p) == if p == dir + [name] then Some(DirKind) else KindAt(root, p) {
        AddEntryKinds(root, dir, e, p);
      }
    }
  }

  lemma GetFileHandleEffect(root: Listing, dir: seq<string>, name: string, create: bool)
    requires IsDirAt(root, dir)
    ensures var (after, r) := GetFileHandle(root, dir, name, create);
      && Extends(root, after, dir + [name])
      && (r.Ok? <==> ValidName(name) && (IsFileAt(root, dir + [name]) || (create && KindAt(root, dir + [name]).None?)))
      && (r.Ok? ==> r.value == FileHandle(dir + [name]))
      && (r.Ok? ==> KindAt(after, dir + [name]) == (if IsFileAt(root, dir + [name]) then KindAt(root, dir + [name]) else Some(FileKind(""))))
      && (r.Err? ==> after == root)
  {
    if ValidName(name) && KindAt(root, dir + [name]).None? && create {
      var e := Entry(name, FileItem(""));
      forall p ensures KindAt(AddEntry(root, dir, e), p) == if p == dir + [name] then Some(FileKind("")) else KindAt(root, p) {
        AddEntryKinds(root, dir, e, p);
      }
    }
  }

  /**
   * `after` keeps everything `before` names; whatever it adds is a prefix
   * of `parts` no longer than `n` names.
   */
  ghost predicate GrowsWithin(before: Listing, after: Listing, parts: seq<string>, n: nat)
    requires n <= |parts|
  {
    && (forall p :: KindAt(before, p).Some? ==> KindAt(after, p) == KindAt(before, p))
    && (forall p :: KindAt(after, p).Some? && KindAt(before, p).None? ==> 0 < |p| <= n && p == parts[..|p|])
  }

  /** The first `n` names are valid and none of the paths they spell is a file. */
  predicate Passable(root: Listing, parts: seq<string>, n: nat)
    requires n <= |parts|
  {
    forall k :: 0 <= k < n ==> ValidName(parts[k]) && !IsFileAt(root, parts[..k + 1])
  }

  /** When `createFile` succeeds: the parents can be walked or made, and the last name is not a directory. */
  predicate CanCreateFile(root: Listing, parts: seq<string>)
    requires parts != []
  {
    Passable(root, parts, |parts| - 1) && ValidName(parts[|parts| - 1]) && !IsDirAt(root, parts)
  }

  /** When `createDirectory` succeeds: every name can be walked or made. */
  predicate CanCreateDirectory(root: Listing, parts: seq<string>) {
    Passable(root, parts, |parts|)
  }

  /**
   * One pass of the creation loops: `getDirectoryHandle(parts[i], {create: true})`
   * from the directory reached after `i` names.
   */
  lemma DirectoryStep(root: Listing, current: Listing, parts: seq<string>, i: nat)
    requires i < |parts|
    requires IsDirAt(current, parts[..i]) && Passable(root, parts, i) && GrowsWithin(root, current, parts, i)
    ensures var (next, r) := GetDirectoryHandle(current, parts[..i], parts[i], true);
      && (r.Ok? <==> ValidName(parts[i]) && !IsFileAt(root, parts[..i + 1]))
      && (r.Ok? ==> r.value == DirectoryHandle(parts[..i + 1]) && IsDirAt(next, parts[..i + 1]))
      && (r.Ok? ==> Passable(root, parts, i + 1) && GrowsWithin(root, next, parts, i + 1))
  {
    var p := parts[..i + 1];
    GetDirectoryHandleEffect(current, parts[..i], parts[i], true);
    TakeOneMore(parts, i);
    SameBeyond(root, current, parts, i, p);
    var (next, r) := GetDirectoryHandle(current, parts[..i], parts[i], true);
    if r.Ok? {
      GrowsWithinStep(root, current, next, parts, i);
      PassableStep(root, parts, i);
    }
  }

  lemma PassableStep(root: Listing, parts: seq<string>, i: nat)
    requires i < |parts| && Passable(root, parts, i)
    requires ValidName(parts[i]) && !IsFileAt(root, parts[..i + 1])
    ensures Passable(root, parts, i + 1)
  {
  }

  lemma GrowsWithinStep(root: Listing, current: Listing, next: Listing, parts: seq<string>, i: nat)
    requires i < |parts|
    requires GrowsWithin(root, current, parts, i) && Extends(current, next, parts[..i + 1])
    ensures GrowsWithin(root, next, parts, i + 1)
  {
  }

  /** The last pass of `createFile`: `getFileHandle(parts[i], {create: true})`. */
  lemma FileStep(root: Listing, current: Listing, parts: seq<string>)
    requires parts != []
    requires IsDirAt(current, parts[..|parts| - 1]) && Passable(root, parts, |parts| - 1)
    requires GrowsWithin(root, current, parts, |parts| - 1)
    ensures var (next, r) := GetFileHandle(current, parts[..|parts| - 1], parts[|parts| - 1], true);
      && (r.Ok? <==> CanCreateFile(root, parts))
      && (r.Ok? ==> r.value == FileHandle(parts))
      && (r.Ok? ==> KindAt(next, parts) == (if IsFileAt(root, parts) then KindAt(root, parts) else Some(FileKind(""))))
      && GrowsWithin(root, next, parts, |parts|)
  {
    var i := |parts| - 1;
    GetFileHandleEffect(current, parts[..i], parts[i], true);
    TakeOneMore(parts, i);
    assert parts[..i + 1] == parts;
    var (next, r) := GetFileHandle(current, parts[..i], parts[i], true);
    GrowsWithinStep(root, current, next, parts, i);
    SameBeyond(root, current, parts, i, parts);
    assert r.Ok? <==> ValidName(parts[i]) && (IsFileAt(current, parts) || KindAt(current, parts).None?);
    NotDirectory(KindAt(current, parts));
  }

  lemma NotDirectory(k: Option<Kind>)
    ensures (k.Some? && k.value.FileKind?) || k.None? <==> k != Some(DirKind)
  {
  }

  /** Paths longer than the growth bound name the same thing before and after. */
  lemma SameBeyond(root: Listing, current: Listing, parts: seq<string>, n: nat, p: seq<string>)
    requires n <= |parts| && GrowsWithin(root, current, parts, n) && |p| > n
    ensures KindAt(current, p) == KindAt(root, p)
  {
  }

  /** A failed pass leaves no way to walk the first `n` names, for any `n` past it. */
  lemma BlockedAt(root: Listing, parts: seq<string>, i: nat, n: nat)
    requires i < n <= |parts|
    requires !ValidName(parts[i]) || IsFileAt(root, parts[..i + 1])
    ensures !Passable(root, parts, n)
  {
  }

  lemma ParentsAreDirectories(root: Listing, path: seq<string>)
    requires KindAt(root, path).Some?
    ensures forall k :: 0 <= k < |path| ==> IsDirAt(root, path[..k])
  {
    forall k | 0 <= k < |path| ensures IsDirAt(root, path[..k]) {
      PrefixesOfExisting(root, path, k);
    }
  }

  lemma GrowsWithinWeaken(root: Listing, current: Listing, parts: seq<string>, n: nat, m: nat)
    requires n <= m <= |parts| && GrowsWithin(root, current, parts, n)
    ensures GrowsWithin(root, current, parts, m)
  {
  }

  /** Every name of a creatable file path is valid. */
  lemma CreatableNamesValid(root: Listing, parts: seq<string>)
    requires parts != [] && CanCreateFile(root, parts)
    ensures forall k :: 0 <= k < |parts| ==> ValidName(parts[k])
  {
    assert Passable(root, parts, |parts| - 1);
  }

  /**
   * The body of `createFile` inside its loading bracket: walks or makes
   * each parent directory, then opens or makes the file.
   */
  method CreateFileIn(root: Listing, fileName: string) returns (after: Listing, r: Result<Handle, FsError>)
    ensures Segments(fileName) == [] ==> after == root && r == Err(InvalidFileName)
    ensures r.Ok? <==> Segments(fileName) != [] && CanCreateFile(root, Segments(fileName))
    ensures r.Ok? ==> r.value == FileHandle(Segments(fileName))
    ensures r.Ok? ==> KindAt(after, Segments(fileName)) == (if IsFileAt(root, Segments(fileName)) then KindAt(root, Segments(fileName)) else Some(FileKind("")))
    ensures r.Ok? ==> forall k :: 0 <= k < |Segments(fileName)| ==> IsDirAt(after, Segments(fileName)[..k])
    ensures GrowsWithin(root, after, Segments(fileName), |Segments(fileName)|)
  {
    var parts := Segments(fileName);
    if |parts| == 0 {
      return root, Err(InvalidFileName);
    }
    after := root;
    var current := DirectoryHandle([]);
    var i := 0;
    while i < |parts| - 1
      invariant 0 <= i <= |parts| - 1
      invariant current == DirectoryHandle(parts[..i])
      invariant IsDirAt(after, parts[..i])
      invariant Passable(root, parts, i)
      invariant GrowsWithin(root, after, parts, i)
    {
      var step := GetDirectoryHandle(after, current.path, parts[i], true);
      DirectoryStep(root, after, parts, i);
      if step.1.Err? {
        BlockedAt(root, parts, i, |parts| - 1);
        GrowsWithinWeaken(root, after, parts, i, |parts|);
        return after, Err(step.1.error);
      }
      after, current := step.0, step.1.value;
      i := i + 1;
    }
    var last := GetFileHandle(after, current.path, parts[i], true);
    FileStep(root, after, parts);
    after, r := last.0, last.1;
    if r.Ok? {
      ParentsAreDirectories(after, parts);
    }
  }

  /** The body of `createDirectory`: walks or makes each directory in turn. */
  method CreateDirectoryIn(root: Listing, dirName: string) returns (after: Listing, r: Result<Handle, FsError>)
    ensures Segments(dirName) == [] ==> after == root && r == Err(InvalidDirectoryName)
    ensures r.Ok? <==> Segments(dirName) != [] && CanCreateDirectory(root, Segments(dirName))
    ensures r.Ok? ==> r.value == DirectoryHandle(Segments(dirName))
    ensures r.Ok? ==> IsDirAt(after, Segments(dirName))
    ensures r.Ok? ==> forall k :: 0 <= k < |Segments(dirName)| ==> IsDirAt(after, Segments(dirName)[..k])
    ensures GrowsWithin(root, after, Segments(dirName), |Segments(dirName)|)
  {
    var parts := Segments(dirName);
    if |parts| == 0 {
      return root, Err(InvalidDirectoryName);
    }
    after := root;
    var current := DirectoryHandle([]);
    var i := 0;
    while i < |parts|
      invariant 0 <= i <= |parts|
      invariant current == DirectoryHandle(parts[..i])
      invariant IsDirAt(after, parts[..i])
      invariant Passable(root, parts, i)
      invariant GrowsWithin(root, after, parts, i)
    {
      var step := GetDirectoryHandle(after, current.path, parts[i], true);
      DirectoryStep(root, after, parts, i);
      if step.1.Err? {
        BlockedAt(root, parts, i, |parts|);
        GrowsWithinWeaken(root, after, parts, i, |parts|);
        return after, Err(step.1.error);
      }
      after, current := step.0, step.1.value;
      i := i + 1;
    }
    assert parts[..i] == parts;
    ParentsAreDirectories(after, parts);
    r := Ok(current);
  }

  /** A path resolves when every name is valid and it names something. */
  predicate Resolvable(root: Listing, parts: seq<string>) {
    (forall k :: 0 <= k < |parts| ==> ValidName(parts[k])) && KindAt(root, parts).Some?
  }

  /**
   * `getHandleByPath`: walks directories name by name; only the last name
   * may also be a file. Any failure gives `None`.
   */
  method GetHandleByPath(root: Listing, path: string) returns (r: Option<Handle>)
    ensures r.Some? <==> Resolvable(root, Segments(path))
    ensures r.Some? ==> r.value.path == Segments(path)
    ensures r.Some? ==> (r.value.FileHandle? <==> IsFileAt(root, Segments(path)))
  {
    var parts := Segments(path);
    var current := DirectoryHandle([]);
    var i := 0;
    // The source's "current handle is not a directory" test cannot fire:
    // only the last name can turn `current` into a file handle.
    while i < |parts|
      invariant 0 <= i <= |parts|
      invariant current.path == parts[..i]
      invariant i < |parts| ==> current.DirectoryHandle?
      invariant current.DirectoryHandle? ==> IsDirAt(root, parts[..i])
      invariant current.FileHandle? ==> i == |parts| && IsFileAt(root, parts)
      invariant forall k :: 0 <= k < i ==> ValidName(parts[k])
    {
      var isLast := i == |parts| - 1;
      var asDirectory := GetDirectoryHandle(root, current.path, parts[i], false);
      GetDirectoryHandleEffect(root, current.path, parts[i], false);
      TakeOneMore(parts, i);
      if asDirectory.1.Ok? {
        current := asDirectory.1.value;
      } else if isLast {
        var asFile := GetFileHandle(root, current.path, parts[i], false);
        GetFileHandleEffect(root, current.path, parts[i], false);
        assert parts[..i + 1] == parts;
        if asFile.1.Err? {
          return None;
        }
        current := asFile.1.value;
      } else {
        PrefixesOfExisting(root, parts, i + 1);
        return None;
      }
      i := i + 1;
    }
    assert parts[..i] == parts;
    return Some(current);
  }

  /** A file made by `createFile` is found again by `getHandleByPath` under the same name. */
  method CreateThenResolve(root: Listing, fileName: string) returns (created: Result<Handle, FsError>, found: Option<Handle>)
    ensures created.Ok? <==> Segments(fileName) != [] && CanCreateFile(root, Segments(fileName))
    ensures created.Ok? ==> found == Some(created.value) && found.value == FileHandle(Segments(fileName))
  {
    var after;
    after, created := CreateFileIn(root, fileName);
    found := GetHandleByPath(after, fileName);
    if created.Ok? {
      CreatableNamesValid(root, Segments(fileName));
    }
  }

  /** How many entries enumeration yields before it throws: all of them when it does not. */
  function EnumeratedCount(dir: Listing): (n: nat)
    ensures n <= |dir.entries|
    ensures n < |dir.entries| <==> dir.failsAfter.Some? && dir.failsAfter.value < |dir.entries|
  {
    if dir.failsAfter.Some? && dir.failsAfter.value < |dir.entries| then dir.failsAfter.value else |dir.entries|
  }

  /**
   * The tree `buildFileTree` returns for `dir`, whose handle path is
   * `dirPath` and whose node path is `parentPath`.
   */
  function FileTree(cmp: (string, string) -> int, dir: Listing, dirPath: seq<string>, parentPath: string): seq<FileNode>
    decreases dir, 1
  {
    SortNodes(cmp, EntryNodes(cmp, dir, dirPath, parentPath))
  }

  /** The nodes pushed by the loop, in enumeration order, before the final sort. */
  function EntryNodes(cmp: (string, string) -> int, dir: Listing, dirPath: seq<string>, parentPath: string): seq<FileNode>
    decreases dir, 0
  {
    seq(EnumeratedCount(dir), j requires 0 <= j < EnumeratedCount(dir) => EntryNode(cmp, dir.entries[j], dirPath, parentPath))
  }

  /** The node pushed for one entry; a directory's children are its tree, sorted again. */
  function EntryNode(cmp: (string, string) -> int, e: Entry, dirPath: seq<string>, parentPath: string): FileNode
    decreases e, 2
  {
    var path := JoinChild(parentPath, e.name);
    match e.item
    case DirItem(sub) =>
      FileNode(e.name, path, Directory, Local, Some(DirectoryHandle(dirPath + [e.name])), None, None,
        Children(SortNodes(cmp, FileTree(cmp, sub, dirPath + [e.name], path))))
    case FileItem(_) =>
      FileNode(e.name, path, File, Local, Some(FileHandle(dirPath + [e.name])), None, None, NoChildren)
  }

  /**
   * `buildFileTree`: pushes one node per enumerated entry, recursing into
   * directories, stops quietly when enumeration throws, and sorts.
   */
  method BuildFileTree(cmp: (string, string) -> int, dir: Listing, dirPath: seq<string>, parentPath: string)
    returns (nodes: seq<FileNode>)
    ensures nodes == FileTree(cmp, dir, dirPath, parentPath)
    decreases dir
  {
    var collected: seq<FileNode> := [];
    var i := 0;
    while i < |dir.entries|
      invariant 0 <= i <= EnumeratedCount(dir)
      invariant |collected| == i
      invariant forall j :: 0 <= j < i ==> collected[j] == EntryNode(cmp, dir.entries[j], dirPath, parentPath)
    {
      if dir.failsAfter == Some(i) {
        // The enumeration throws here; the error is logged and swallowed.
        break;
      }
      var entry := dir.entries[i];
      var path := JoinChild(parentPath, entry.name);
      match entry.item {
        case DirItem(sub) =>
          var children := BuildFileTree(cmp, sub, dirPath + [entry.name], path);
          collected := collected + [FileNode(entry.name, path, Directory, Local, Some(DirectoryHandle(dirPath + [entry.name])),
                                             None, None, Children(SortNodes(cmp, children)))];
        case FileItem(_) =>
          collected := collected + [FileNode(entry.name, path, File, Local, Some(FileHandle(dirPath + [entry.name])),
                                             None, None, NoChildren)];
      }
      i := i + 1;
    }
    assert collected == EntryNodes(cmp, dir, dirPath, parentPath);
    nodes := SortNodes(cmp, collected);
  }

  /** Every level of the tree is ordered: directories first, each kind by name. */
  lemma {:induction false} FileTreeOrdered(cmp: (string, string) -> int, dir: Listing, dirPath: seq<string>, parentPath: string)
    requires TotalPreorder(cmp)
    ensures TreeOrdered(cmp, FileTree(cmp, dir, dirPath, parentPath))
    decreases dir, 1
  {
    var s := EntryNodes(cmp, dir, dirPath, parentPath);
    forall n | n in s ensures NodeOrdered(cmp, n) {
      var j :| 0 <= j < |s| && s[j] == n;
      EntryNodeOrdered(cmp, dir.entries[j], dirPath, parentPath);
    }
    SortedTree(cmp, s);
  }

  lemma {:induction false} EntryNodeOrdered(cmp: (string, string) -> int, e: Entry, dirPath: seq<string>, parentPath: string)
    requires TotalPreorder(cmp)
    ensures NodeOrdered(cmp, EntryNode(cmp, e, dirPath, parentPath))
    decreases e, 2
  {
    if e.item.DirItem? {
      var path := JoinChild(parentPath, e.name);
      var tree := FileTree(cmp, e.item.listing, dirPath + [e.name], path);
      FileTreeOrdered(cmp, e.item.listing, dirPath + [e.name], path);
      SortSorted(cmp, EntryNodes(cmp, e.item.listing, dirPath + [e.name], path));
      SortKeepsSorted(cmp, tree);
    }
  }

  /** Resorting a built tree changes nothing, so the sort of each `children` list is redundant. */
  lemma ResortIsNoOp(cmp: (string, string) -> int, dir: Listing, dirPath: seq<string>, parentPath: string)
    requires TotalPreorder(cmp)
    ensures SortNodes(cmp, FileTree(cmp, dir, dirPath, parentPath)) == FileTree(cmp, dir, dirPath, parentPath)
  {
    SortSorted(cmp, EntryNodes(cmp, dir, dirPath, parentPath));
    SortKeepsSorted(cmp, FileTree(cmp, dir, dirPath, parentPath));
  }

  /**
   * One node per enumerated entry and none added: the tree's top level is a
   * permutation of the entry nodes, each keeping its entry's name and kind.
   */
  lemma FileTreeCoversEntries(cmp: (string, string) -> int, dir: Listing, dirPath: seq<string>, parentPath: string)
    ensures multiset(FileTree(cmp, dir, dirPath, parentPath)) == multiset(EntryNodes(cmp, dir, dirPath, parentPath))
    ensures |FileTree(cmp, dir, dirPath, parentPath)| == EnumeratedCount(dir)
    ensures dir.failsAfter.None? ==> |FileTree(cmp, dir, dirPath, parentPath)| == |dir.entries|
    ensures forall n :: n in FileTree(cmp, dir, dirPath, parentPath) <==>
      exists j :: 0 <= j < EnumeratedCount(dir) && n == EntryNode(cmp, dir.entries[j], dirPath, parentPath)
    ensures forall j :: 0 <= j < EnumeratedCount(dir) ==>
      && EntryNode(cmp, dir.entries[j], dirPath, parentPath).name == dir.entries[j].name
      && (EntryNode(cmp, dir.entries[j], dirPath, parentPath).fileType == Directory <==> dir.entries[j].item.DirItem?)
  {
    var s := EntryNodes(cmp, dir, dirPath, parentPath);
    SortKeepsMembers(cmp, s);
    forall n ensures n in s <==> exists j :: 0 <= j < EnumeratedCount(dir) && n == EntryNode(cmp, dir.entries[j], dirPath, parentPath) {
      if n in s {
        var j :| 0 <= j < |s| && s[j] == n;
      }
      if exists j :: 0 <= j < EnumeratedCount(dir) && n == EntryNode(cmp, dir.entries[j], dirPath, parentPath) {
        var j :| 0 <= j < EnumeratedCount(dir) && n == EntryNode(cmp, dir.entries[j], dirPath, parentPath);
        assert s[j] == n;
      }
    }
    forall j | 0 <= j < EnumeratedCount(dir) ensures EntryNode(cmp, dir.entries[j], dirPath, parentPath).name == dir.entries[j].name
      && (EntryNode(cmp, dir.entries[j], dirPath, parentPath).fileType == Directory <==> dir.entries[j].item.DirItem?)
    {
      EntryNodeKeepsEntry(cmp, dir.entries[j], dirPath, parentPath);
    }
  }

  lemma EntryNodeKeepsEntry(cmp: (string, string) -> int, e: Entry, dirPath: seq<string>, parentPath: string)
    ensures EntryNode(cmp, e, dirPath, parentPath).name == e.name
    ensures EntryNode(cmp, e, dirPath, parentPath).fileType == Directory <==> e.item.DirItem?
  {
  }

  /**
   * When enumeration throws after `k` entries, the tree is that of the
   * first `k` entries: the nodes collected so far, sorted.
   */
  lemma FailedEnumerationKeepsPrefix(cmp: (string, string) -> int, dir: Listing, dirPath: seq<string>, parentPath: string, k: nat)
    requires dir.failsAfter == Some(k)
    ensures FileTree(cmp, dir, dirPath, parentPath) ==
      FileTree(cmp, Listing(if k < |dir.entries| then dir.entries[..k] else dir.entries, None), dirPath, parentPath)
  {
    var prefix := Listing(if k < |dir.entries| then dir.entries[..k] else dir.entries, None);
    assert EntryNodes(cmp, dir, dirPath, parentPath) == EntryNodes(cmp, prefix, dirPath, parentPath);
  }

  /**
   * The shape of a local node reached through `dirPath`: its path joins the
   * names leading to it, it is local, its handle is the path of names, and
   * exactly directories carry children, each shaped in turn.
   */
  predicate LocalShaped(n: FileNode, dirPath: seq<string>)
    decreases n
  {
    && n.path == JoinPath(dirPath + [n.name])
    && n.storageType == Local && n.driveId.None? && n.mimeType.None?
    && (n.fileType == Directory <==> n.children.Children?)
    && n.handle == Some(if n.fileType == Directory then DirectoryHandle(dirPath + [n.name]) else FileHandle(dirPath + [n.name]))
    && (n.children.Children? ==>
          forall i :: 0 <= i < |n.children.nodes| ==> LocalShaped(n.children.nodes[i], dirPath + [n.name]))
  }

  /** Every node of a tree built from the root (`dirPath == []`, `parentPath == ""`) is shaped. */
  lemma {:induction false} FileTreeShaped(cmp: (string, string) -> int, dir: Listing, dirPath: seq<string>, parentPath: string)
    requires parentPath == JoinPath(dirPath)
    ensures forall i :: 0 <= i < |FileTree(cmp, dir, dirPath, parentPath)| ==> LocalShaped(FileTree(cmp, dir, dirPath, parentPath)[i], dirPath)
    decreases dir, 1
  {
    var tree := FileTree(cmp, dir, dirPath, parentPath);
    var s := EntryNodes(cmp, dir, dirPath, parentPath);
    forall i | 0 <= i < |tree| ensures LocalShaped(tree[i], dirPath) {
      assert tree[i] in multiset(s);
      var j :| 0 <= j < |s| && s[j] == tree[i];
      EntryNodeShaped(cmp, dir.entries[j], dirPath, parentPath);
    }
  }

  lemma {:induction false} EntryNodeShaped(cmp: (string, string) -> int, e: Entry, dirPath: seq<string>, parentPath: string)
    requires parentPath == JoinPath(dirPath)
    ensures LocalShaped(EntryNode(cmp, e, dirPath, parentPath), dirPath)
    decreases e, 2
  {
    var path := JoinChild(parentPath, e.name);
    assert (dirPath + [e.name])[..|dirPath|] == dirPath;
    assert path == JoinPath(dirPath + [e.name]);
    if e.item.DirItem? {
      var tree := FileTree(cmp, e.item.listing, dirPath + [e.name], path);
      FileTreeShaped(cmp, e.item.listing, dirPath + [e.name], path);
      var children := SortNodes(cmp, tree);
      SortKeepsMembers(cmp, tree);
      forall i | 0 <= i < |children| ensures LocalShaped(children[i], dirPath + [e.name]) {
        assert children[i] in tree;
        var j :| 0 <= j < |tree| && tree[j] == children[i];
      }
    }
  }

  /**
   * `readFile` around the browser's read: a 'file-load' record keyed by the
   * handle's name is started and then ended, whatever the read gave.
   */
  method ReadFile(tracker: LoadingStore, fileHandle: Handle, read: Result<string, FsError>) returns (r: Result<string, FsError>)
    modifies tracker
    ensures r == read
    ensures tracker.states == Ended(old(tracker.states), FileLoad, Some(fileHandle.Name()))
    ensures forall s :: s in tracker.states ==> !Matches(s, FileLoad, Some(fileHandle.Name()))
  {
    var name := fileHandle.Name();
    tracker.Start(FileLoad, Some(name), Some(name));
    r := read;
    tracker.End(FileLoad, Some(name));
    StartThenEnd(old(tracker.states), FileLoad, Some(name), Some(name));
  }

  /** `writeFile` around the browser's write, with a 'file-save' record. */
  method WriteFile(tracker: LoadingStore, fileHandle: Handle, write: Outcome<FsError>) returns (r: Outcome<FsError>)
    modifies tracker
    ensures r == write
    ensures tracker.states == Ended(old(tracker.states), FileSave, Some(fileHandle.Name()))
    ensures forall s :: s in tracker.states ==> !Matches(s, FileSave, Some(fileHandle.Name()))
  {
    var name := fileHandle.Name();
    tracker.Start(FileSave, Some(name), Some(name));
    r := write;
    tracker.End(FileSave, Some(name));
    StartThenEnd(old(tracker.states), FileSave, Some(name), Some(name));
  }

  /**
   * `createFile`: a 'file-create' record without an id around the creation,
   * so ending it removes every 'file-create' record.
   */
  method CreateFile(tracker: LoadingStore, root: Listing, fileName: string) returns (after: Listing, r: Result<Handle, FsError>)
    modifies tracker
    ensures tracker.states == Ended(old(tracker.states), FileCreate, None)
    ensures forall s :: s in tracker.states ==> s.operation != FileCreate
    ensures Segments(fileName) == [] ==> after == root && r == Err(InvalidFileName)
    ensures r.Ok? <==> Segments(fileName) != [] && CanCreateFile(root, Segments(fileName))
    ensures r.Ok? ==> r.value == FileHandle(Segments(fileName))
    ensures r.Ok? ==> KindAt(after, Segments(fileName)) == (if IsFileAt(root, Segments(fileName)) then KindAt(root, Segments(fileName)) else Some(FileKind("")))
    ensures r.Ok? ==> forall k :: 0 <= k < |Segments(fileName)| ==> IsDirAt(after, Segments(fileName)[..k])
    ensures GrowsWithin(root, after, Segments(fileName), |Segments(fileName)|)
  {
    tracker.Start(FileCreate, None, Some(fileName));
    after, r := CreateFileIn(root, fileName);
    tracker.End(FileCreate, None);
    StartThenEnd(old(tracker.states), FileCreate, None, Some(fileName));
    EndWithoutId(old(tracker.states), FileCreate, None);
  }
}
