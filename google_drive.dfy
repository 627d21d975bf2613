/**
 * The Google Drive service: the file tree built from folder listings, the
 * multipart upload body, and the token guard and loading tracker around
 * reads, writes and creations.
 *
 * The Drive API is modelled by its answers: a map from folder id to the
 * listing of that folder, and the outcome of each `fetch`.
 */
module Drive {
  import opened Wrappers
  import opened Seqs
  import opened Types
  import opened NodeOrder
  import opened Loading
  import opened Json

  const FolderMimeType := "application/vnd.google-apps.folder"
  const TextMimeType := "text/plain"
  /** `JSON.stringify(TEXT_MIME_TYPE)`, as `QuotedTextMime` shows. */
  const QuotedTextMimeType := "\"" + TextMimeType + "\""

  /**
   * What `listFiles(folderId)` returns for each folder: `None` when the
   * call fails. A folder missing from the map fails too.
   */
  type Listings = map<string, Option<seq<GoogleDriveFile>>>

  function ListFiles(listings: Listings, folderId: string): Option<seq<GoogleDriveFile>> {
    if folderId in listings then listings[folderId] else None
  }

  predicate IsFolder(file: GoogleDriveFile) {
    file.mimeType == FolderMimeType
  }

  /**
   * Folders nest at most `height` deep below `folderId`. The source recurses
   * into every folder it lists, so on a folder graph with a cycle it never
   * returns; the bound is what makes the recursion finite.
   */
  predicate HeightBound(listings: Listings, folderId: string, height: nat)
    decreases height
  {
    match ListFiles(listings, folderId)
    case None => true
    case Some(files) =>
      forall i :: 0 <= i < |files| && IsFolder(files[i]) ==>
        height > 0 && HeightBound(listings, files[i].id, height - 1)
  }

  /** The tree `buildDriveFileTree(folderId, parentPath)` returns. */
  function DriveTree(cmp: (string, string) -> int, listings: Listings, folderId: string, parentPath: string, height: nat): seq<FileNode>
    requires HeightBound(listings, folderId, height)
    decreases height, 2
  {
    SortNodes(cmp, DriveNodes(cmp, listings, folderId, parentPath, height))
  }

  /** The nodes pushed by the loop, in listing order; none when the listing fails. */
  function DriveNodes(cmp: (string, string) -> int, listings: Listings, folderId: string, parentPath: string, height: nat): seq<FileNode>
    requires HeightBound(listings, folderId, height)
    decreases height, 1
  {
    match ListFiles(listings, folderId)
    case None => []
    case Some(files) =>
      seq(|files|, i requires 0 <= i < |files| => DriveNode(cmp, listings, files[i], parentPath, height))
  }

  /** The node pushed for one listed item; a folder's children are its tree, sorted again. */
  function DriveNode(cmp: (string, string) -> int, listings: Listings, file: GoogleDriveFile, parentPath: string, height: nat): FileNode
    requires IsFolder(file) ==> height > 0 && HeightBound(listings, file.id, height - 1)
    decreases height, 0
  {
    var path := JoinChild(parentPath, file.name);
    if IsFolder(file) then
      FileNode(file.name, path, Directory, GoogleDrive, None, Some(file.id), Some(file.mimeType),
        Children(SortNodes(cmp, DriveTree(cmp, listings, file.id, path, height - 1))))
    else
      FileNode(file.name, path, File, GoogleDrive, None, Some(file.id), Some(file.mimeType), NoChildren)
  }

  /**
   * What a `buildDriveFileTree` call may do to the tracker: no record of its
   * own folder is left, no record is added or duplicated, and the records of
   * other operations stay as they were.
   */
  ghost predicate TreeLoadTracked(before: seq<LoadingState>, after: seq<LoadingState>, folderId: string) {
    && (forall s :: s in after ==> !Matches(s, FileTreeLoad, Some(folderId)))
    && Contained(before, after)
  }

  /** No record added or duplicated, and other operations' records as they were. */
  ghost predicate Contained(before: seq<LoadingState>, after: seq<LoadingState>) {
    && multiset(after) <= multiset(before)
    && OtherOperations(after, FileTreeLoad) == OtherOperations(before, FileTreeLoad)
  }

  /** Starting and then ending the same record, with tracked calls between, is tracked. */
  lemma BracketTracked(before: seq<LoadingState>, middle: seq<LoadingState>, folderId: string)
    requires Contained(Started(before, FileTreeLoad, Some(folderId), None), middle)
    ensures TreeLoadTracked(before, Ended(middle, FileTreeLoad, Some(folderId)), folderId)
  {
    var after := Ended(middle, FileTreeLoad, Some(folderId));
    var started := Started(before, FileTreeLoad, Some(folderId), None);
    var record := LoadingState(FileTreeLoad, Some(folderId), None);
    forall s ensures multiset(after)[s] <= multiset(before)[s] {
      EndedCount(middle, FileTreeLoad, Some(folderId), s);
      assert multiset(started) == multiset(before) + multiset{record};
    }
    forall s | s in after ensures !Matches(s, FileTreeLoad, Some(folderId)) {
      EndedCount(middle, FileTreeLoad, Some(folderId), s);
    }
    StartEndKeepOthers(middle, FileTreeLoad, Some(folderId), None);
    StartEndKeepOthers(before, FileTreeLoad, Some(folderId), None);
  }

  /** A nested call's effect composes with what came before it. */
  lemma TrackedCompose(start: seq<LoadingState>, before: seq<LoadingState>, after: seq<LoadingState>, childId: string)
    requires Contained(start, before) && TreeLoadTracked(before, after, childId)
    ensures Contained(start, after)
  {
  }

  /**
   * `buildDriveFileTree`: tracks a 'file-tree-load' record for its folder,
   * pushes one node per listed item (recursing into folders), swallows a
   * failed listing, ends the record in `finally`, and sorts.
   */
  method BuildDriveFileTree(cmp: (string, string) -> int, tracker: LoadingStore, listings: Listings,
                            folderId: string, parentPath: string, ghost height: nat)
    returns (nodes: seq<FileNode>)
    requires HeightBound(listings, folderId, height)
    modifies tracker
    ensures nodes == DriveTree(cmp, listings, folderId, parentPath, height)
    ensures TreeLoadTracked(old(tracker.states), tracker.states, folderId)
    decreases height
  {
    var collected: seq<FileNode> := [];
    tracker.Start(FileTreeLoad, Some(folderId), None);
    ghost var started := tracker.states;
    var listing := ListFiles(listings, folderId);
    if listing.Some? {
      var files := listing.value;
      ghost var expected := DriveNodes(cmp, listings, folderId, parentPath, height);
      var i := 0;
      while i < |files|
        invariant 0 <= i <= |files|
        invariant collected == expected[..i]
        invariant Contained(started, tracker.states)
      {
        var file := files[i];
        var path := JoinChild(parentPath, file.name);
        assert expected[..i + 1] == expected[..i] + [DriveNode(cmp, listings, file, parentPath, height)];
        if file.mimeType == FolderMimeType {
          ghost var before := tracker.states;
          var children := BuildDriveFileTree(cmp, tracker, listings, file.id, path, height - 1);
          TrackedCompose(started, before, tracker.states, file.id);
          collected := collected + [FileNode(file.name, path, Directory, GoogleDrive, None, Some(file.id), Some(file.mimeType),
                                             Children(SortNodes(cmp, children)))];
        } else {
          collected := collected + [FileNode(file.name, path, File, GoogleDrive, None, Some(file.id), Some(file.mimeType), NoChildren)];
        }
        i := i + 1;
      }
      assert expected[..i] == expected;
    }
    // The failed listing is logged and swallowed; `finally` ends the record.
    ghost var middle := tracker.states;
    tracker.End(FileTreeLoad, Some(folderId));
    BracketTracked(old(tracker.states), middle, folderId);
    assert collected == DriveNodes(cmp, listings, folderId, parentPath, height);
    nodes := SortNodes(cmp, collected);
  }

  /** Every level of a Drive tree is ordered: folders first, each kind by name. */
  lemma {:induction false} DriveTreeOrdered(cmp: (string, string) -> int, listings: Listings, folderId: string, parentPath: string, height: nat)
    requires TotalPreorder(cmp)
    requires HeightBound(listings, folderId, height)
    ensures TreeOrdered(cmp, DriveTree(cmp, listings, folderId, parentPath, height))
    decreases height, 2
  {
    var s := DriveNodes(cmp, listings, folderId, parentPath, height);
    forall n | n in s ensures NodeOrdered(cmp, n) {
      var files := ListFiles(listings, folderId).value;
      var j :| 0 <= j < |s| && s[j] == n;
      DriveNodeOrdered(cmp, listings, files[j], parentPath, height);
    }
    SortedTree(cmp, s);
  }

  lemma {:induction false} DriveNodeOrdered(cmp: (string, string) -> int, listings: Listings, file: GoogleDriveFile, parentPath: string, height: nat)
    requires TotalPreorder(cmp)
    requires IsFolder(file) ==> height > 0 && HeightBound(listings, file.id, height - 1)
    ensures NodeOrdered(cmp, DriveNode(cmp, listings, file, parentPath, height))
    decreases height, 0
  {
    if IsFolder(file) {
      var path := JoinChild(parentPath, file.name);
      var tree := DriveTree(cmp, listings, file.id, path, height - 1);
      DriveTreeOrdered(cmp, listings, file.id, path, height - 1);
      DriveResortIsNoOp(cmp, listings, file.id, path, height - 1);
      FolderChildren(cmp, listings, file, parentPath, height);
      OrderedChildren(cmp, DriveNode(cmp, listings, file, parentPath, height), tree);
    } else {
      assert DriveNode(cmp, listings, file, parentPath, height).children == NoChildren;
    }
  }

  lemma FolderChildren(cmp: (string, string) -> int, listings: Listings, file: GoogleDriveFile, parentPath: string, height: nat)
    requires IsFolder(file) && height > 0 && HeightBound(listings, file.id, height - 1)
    ensures DriveNode(cmp, listings, file, parentPath, height).children
         == Children(SortNodes(cmp, DriveTree(cmp, listings, file.id, JoinChild(parentPath, file.name), height - 1)))
  {
  }

  /** Resorting a built Drive tree changes nothing. */
  lemma DriveResortIsNoOp(cmp: (string, string) -> int, listings: Listings, folderId: string, parentPath: string, height: nat)
    requires TotalPreorder(cmp)
    requires HeightBound(listings, folderId, height)
    ensures SortNodes(cmp, DriveTree(cmp, listings, folderId, parentPath, height)) == DriveTree(cmp, listings, folderId, parentPath, height)
  {
    SortSorted(cmp, DriveNodes(cmp, listings, folderId, parentPath, height));
    SortKeepsSorted(cmp, DriveTree(cmp, listings, folderId, parentPath, height));
  }

  /**
   * One node per listed item and none added; nothing at all when the
   * listing fails. Each node carries its item's name, id and MIME type, and
   * a folder's children are the tree of that folder's id.
   */
  lemma DriveTreeCoversListing(cmp: (string, string) -> int, listings: Listings, folderId: string, parentPath: string, height: nat)
    requires TotalPreorder(cmp)
    requires HeightBound(listings, folderId, height)
    ensures ListFiles(listings, folderId).None? ==> DriveTree(cmp, listings, folderId, parentPath, height) == []
    ensures ListFiles(listings, folderId).Some? ==>
      var files := ListFiles(listings, folderId).value;
      && |DriveTree(cmp, listings, folderId, parentPath, height)| == |files|
      && (forall n :: n in DriveTree(cmp, listings, folderId, parentPath, height) <==>
            exists j :: 0 <= j < |files| && n == DriveNode(cmp, listings, files[j], parentPath, height))
      && (forall j :: 0 <= j < |files| ==> NodeOfItem(cmp, listings, files[j], parentPath, height))
  {
    var s := DriveNodes(cmp, listings, folderId, parentPath, height);
    SortKeepsMembers(cmp, s);
    if ListFiles(listings, folderId).Some? {
      var files := ListFiles(listings, folderId).value;
      forall n ensures n in s <==> exists j :: 0 <= j < |files| && n == DriveNode(cmp, listings, files[j], parentPath, height) {
        if n in s {
          var j :| 0 <= j < |s| && s[j] == n;
        }
        if exists j :: 0 <= j < |files| && n == DriveNode(cmp, listings, files[j], parentPath, height) {
          var j :| 0 <= j < |files| && n == DriveNode(cmp, listings, files[j], parentPath, height);
          assert s[j] == n;
        }
      }
      forall j | 0 <= j < |files| ensures NodeOfItem(cmp, listings, files[j], parentPath, height) {
        ItemNode(cmp, listings, files[j], parentPath, height);
      }
    }
  }

  lemma ItemNode(cmp: (string, string) -> int, listings: Listings, file: GoogleDriveFile, parentPath: string, height: nat)
    requires TotalPreorder(cmp)
    requires IsFolder(file) ==> height > 0 && HeightBound(listings, file.id, height - 1)
    ensures NodeOfItem(cmp, listings, file, parentPath, height)
  {
    if IsFolder(file) {
      DriveResortIsNoOp(cmp, listings, file.id, JoinChild(parentPath, file.name), height - 1);
      FolderChildren(cmp, listings, file, parentPath, height);
    }
  }

  /** The node of one listed item, as the source builds it. */
  predicate NodeOfItem(cmp: (string, string) -> int, listings: Listings, file: GoogleDriveFile, parentPath: string, height: nat)
    requires IsFolder(file) ==> height > 0 && HeightBound(listings, file.id, height - 1)
  {
    var n := DriveNode(cmp, listings, file, parentPath, height);
    && n.name == file.name
    && n.driveId == Some(file.id)
    && n.mimeType == Some(file.mimeType)
    && (n.fileType == Directory <==> IsFolder(file))
    && (IsFolder(file) ==> n.children == Children(DriveTree(cmp, listings, file.id, n.path, height - 1)))
  }

  /**
   * The shape of a Drive node under `parentPath`: its path joins the parent's,
   * it is a Drive node with an id, a MIME type and no handle, it is a
   * directory exactly when its MIME type is the folder type, and exactly
   * directories carry children, each shaped in turn.
   */
  predicate DriveShaped(n: FileNode, parentPath: string)
    decreases n
  {
    && n.path == JoinChild(parentPath, n.name)
    && n.storageType == GoogleDrive && n.handle.None? && n.driveId.Some? && n.mimeType.Some?
    && (n.fileType == Directory <==> n.mimeType == Some(FolderMimeType))
    && (n.fileType == Directory <==> n.children.Children?)
    && (n.children.Children? ==>
          forall i :: 0 <= i < |n.children.nodes| ==> DriveShaped(n.children.nodes[i], n.path))
  }

  lemma {:induction false} DriveTreeShaped(cmp: (string, string) -> int, listings: Listings, folderId: string, parentPath: string, height: nat)
    requires HeightBound(listings, folderId, height)
    ensures forall i :: 0 <= i < |DriveTree(cmp, listings, folderId, parentPath, height)| ==>
      DriveShaped(DriveTree(cmp, listings, folderId, parentPath, height)[i], parentPath)
    decreases height, 2
  {
    var tree := DriveTree(cmp, listings, folderId, parentPath, height);
    var s := DriveNodes(cmp, listings, folderId, parentPath, height);
    forall i | 0 <= i < |tree| ensures DriveShaped(tree[i], parentPath) {
      assert tree[i] in multiset(s);
      var j :| 0 <= j < |s| && s[j] == tree[i];
      DriveNodeShaped(cmp, listings, ListFiles(listings, folderId).value[j], parentPath, height);
    }
  }

  lemma {:induction false} DriveNodeShaped(cmp: (string, string) -> int, listings: Listings, file: GoogleDriveFile, parentPath: string, height: nat)
    requires IsFolder(file) ==> height > 0 && HeightBound(listings, file.id, height - 1)
    ensures DriveShaped(DriveNode(cmp, listings, file, parentPath, height), parentPath)
    decreases height, 0
  {
    if IsFolder(file) {
      var path := JoinChild(parentPath, file.name);
      var tree := DriveTree(cmp, listings, file.id, path, height - 1);
      DriveTreeShaped(cmp, listings, file.id, path, height - 1);
      FolderChildren(cmp, listings, file, parentPath, height);
      SortKeepsShape(cmp, tree, path);
    }
  }

  lemma SortKeepsShape(cmp: (string, string) -> int, s: seq<FileNode>, parentPath: string)
    requires forall i :: 0 <= i < |s| ==> DriveShaped(s[i], parentPath)
    ensures forall i :: 0 <= i < |SortNodes(cmp, s)| ==> DriveShaped(SortNodes(cmp, s)[i], parentPath)
  {
    var r := SortNodes(cmp, s);
    SortKeepsMembers(cmp, s);
    forall i | 0 <= i < |r| ensures DriveShaped(r[i], parentPath) {
      assert r[i] in s;
      var j :| 0 <= j < |s| && s[j] == r[i];
    }
  }

  /** The boundary and delimiters of the upload body, as in section 5.1.1 of RFC 2046. */
  const Boundary := "-------314159265358979323846"
  const Delimiter := "\r\n--" + Boundary + "\r\n"
  const CloseDelimiter := "\r\n--" + Boundary + "--"
  const JsonPartHeader := "Content-Type: application/json; charset=UTF-8\r\n\r\n"
  const TextPartHeader := "Content-Type: " + TextMimeType + "\r\n\r\n"
  const MultipartContentType := "multipart/related; boundary=\"" + Boundary + "\""

  /** `JSON.stringify({mimeType: TEXT_MIME_TYPE})`, the metadata of an update. */
  function WriteMetadata(): string {
    "{\"mimeType\":" + QuotedTextMimeType + "}"
  }

  /** `JSON.stringify({name, mimeType: TEXT_MIME_TYPE, parents: [parentId]})`. */
  function CreateMetadata(name: string, parentId: string): string {
    "{\"name\":" + Quote(name) + ",\"mimeType\":" + QuotedTextMimeType + ",\"parents\":[" + Quote(parentId) + "]}"
  }

  /** The multipart/related body (RFC 2387): a JSON metadata part, then the text content. */
  function MultipartBody(metadata: string, content: string): string {
    Delimiter + JsonPartHeader + metadata + Delimiter + TextPartHeader + content + CloseDelimiter
  }

  /** The first position where `pattern` occurs in `s`. */
  function IndexOf(s: string, pattern: string): (r: Option<nat>)
    ensures r.Some? ==> r.value + |pattern| <= |s| && s[r.value..r.value + |pattern|] == pattern
    decreases |s|
  {
    if |s| < |pattern| then None
    else if s[..|pattern|] == pattern then Some(0)
    else match IndexOf(s[1..], pattern)
      case None => None
      case Some(i) => Some(i + 1)
  }

  /**
   * Reads an upload body back: the metadata runs to the first delimiter,
   * the content from the text part's header to the closing delimiter.
   */
  function ParseMultipart(body: string): Option<(string, string)> {
    SplitParts(body, Delimiter + JsonPartHeader, Delimiter, TextPartHeader, CloseDelimiter)
  }

  /** Splits `head + first + separator + header + second + close` into `first` and `second`. */
  function SplitParts(body: string, head: string, separator: string, header: string, close: string): Option<(string, string)> {
    match After(body, head)
    case None => None
    case Some(rest) =>
      match IndexOf(rest, separator)
      case None => None
      case Some(i) =>
        match Between(rest[i + |separator|..], header, close)
        case None => None
        case Some(second) => Some((rest[..i], second))
  }

  /** What follows `prefix` in `s`, when `s` starts with it. */
  function After(s: string, prefix: string): Option<string> {
    if |s| < |prefix| || s[..|prefix|] != prefix then None else Some(s[|prefix|..])
  }

  /** What lies between `open` and `close` in `s`, when `s` starts and ends with them. */
  function Between(s: string, open: string, close: string): Option<string> {
    if |s| < |open| + |close| || s[..|open|] != open || s[|s| - |close|..] != close then None
    else Some(s[|open|..|s| - |close|])
  }

  lemma AfterPrefix(prefix: string, rest: string)
    ensures After(prefix + rest, prefix) == Some(rest)
  {
    assert (prefix + rest)[..|prefix|] == prefix;
  }

  lemma BetweenEnds(open: string, middle: string, close: string)
    ensures Between(open + middle + close, open, close) == Some(middle)
  {
    var s := open + middle + close;
    assert s[..|open|] == open;
    assert s[|s| - |close|..] == close;
    assert s[|open|..|s| - |close|] == middle;
  }

  /** A pattern starting with a carriage return is first found right after a text without one. */
  lemma {:induction false} IndexAfterPlainText(m: string, pattern: string, tail: string)
    requires '\r' !in m && |pattern| > 0 && pattern[0] == '\r'
    ensures IndexOf(m + pattern + tail, pattern) == Some(|m|)
    decreases |m|
  {
    var s := m + pattern + tail;
    if m == [] {
      assert s[..|pattern|] == pattern;
    } else {
      assert s[..|pattern|][0] == m[0];
      assert s[1..] == m[1..] + pattern + tail;
      IndexAfterPlainText(m[1..], pattern, tail);
    }
  }

  lemma SplitPartsRoundTrip(head: string, first: string, separator: string, header: string, second: string, close: string)
    requires '\r' !in first && |separator| > 0 && separator[0] == '\r'
    ensures SplitParts(head + first + separator + header + second + close, head, separator, header, close) == Some((first, second))
  {
    var tail := header + second + close;
    Regroup(head + first + separator, header, second);
    Regroup(head + first + separator, header + second, close);
    Regroup(head + first, separator, tail);
    Regroup(head, first, separator + tail);
    Regroup(first, separator, tail);
    var rest := first + separator + tail;
    AfterPrefix(head, rest);
    IndexAfterPlainText(first, separator, tail);
    assert rest[|first| + |separator|..] == tail;
    assert rest[..|first|] == first;
    BetweenEnds(header, second, close);
  }

  /** Metadata without a carriage return and any content are read back from the body. */
  lemma MultipartRoundTrip(metadata: string, content: string)
    requires '\r' !in metadata
    ensures ParseMultipart(MultipartBody(metadata, content)) == Some((metadata, content))
  {
    assert Delimiter[0] == '\r';
    SplitPartsRoundTrip(Delimiter + JsonPartHeader, metadata, Delimiter, TextPartHeader, content, CloseDelimiter);
    assert MultipartBody(metadata, content) == (Delimiter + JsonPartHeader) + metadata + Delimiter + TextPartHeader + content + CloseDelimiter;
  }

  /** The text type has no character JSON escapes, so its quoted form is the type between quotes. */
  lemma QuotedTextMime()
    ensures Quote(TextMimeType) == QuotedTextMimeType
    ensures Unquote(QuotedTextMimeType) == Some(TextMimeType)
  {
    EscapePlain(TextMimeType);
    QuoteRoundTrip(TextMimeType);
  }

  lemma QuoteHasNoCr(s: string)
    ensures '\r' !in Quote(s)
  {
    EscapeHasNoControl(s);
    var q := Quote(s);
    assert q == "\"" + Escape(s) + "\"";
    forall i | 0 <= i < |q| ensures q[i] != '\r' {
      if 0 < i < |q| - 1 {
        assert q[i] == Escape(s)[i - 1];
      }
    }
  }

  lemma NoCrJoin(a: string, b: string)
    requires '\r' !in a && '\r' !in b
    ensures '\r' !in a + b
  {
    forall i | 0 <= i < |a + b| ensures (a + b)[i] != '\r' {
      if i >= |a| {
        assert (a + b)[i] == b[i - |a|];
      }
    }
  }

  /** The update metadata holds no carriage return, so the upload body can be read back. */
  lemma WriteMetadataHasNoCr()
    ensures '\r' !in WriteMetadata()
  {
    var mime := QuotedTextMimeType;
    QuotedTextMime();
    QuoteHasNoCr(TextMimeType);
    KeysHaveNoCr();
    NoCrJoin("{\"mimeType\":", mime);
    NoCrJoin("{\"mimeType\":" + mime, "}");
  }

  /** The creation metadata holds no carriage return, whatever the name and parent id. */
  lemma CreateMetadataHasNoCr(name: string, parentId: string)
    ensures '\r' !in CreateMetadata(name, parentId)
  {
    QuotedTextMime();
    QuoteHasNoCr(TextMimeType);
    QuoteHasNoCr(name);
    QuoteHasNoCr(parentId);
    KeysHaveNoCr();
    NoCrSeven("{\"name\":", Quote(name), ",\"mimeType\":", QuotedTextMimeType, ",\"parents\":[", Quote(parentId), "]}");
  }

  lemma KeysHaveNoCr()
    ensures '\r' !in "{\"name\":" && '\r' !in ",\"mimeType\":" && '\r' !in ",\"parents\":[" && '\r' !in "]}"
    ensures '\r' !in "{\"mimeType\":" && '\r' !in "}"
  {
  }

  lemma NoCrSeven(a: string, b: string, c: string, d: string, e: string, f: string, g: string)
    requires '\r' !in a && '\r' !in b && '\r' !in c && '\r' !in d && '\r' !in e && '\r' !in f && '\r' !in g
    ensures '\r' !in a + b + c + d + e + f + g
  {
    NoCrJoin(a, b);
    NoCrJoin(a + b, c);
    NoCrJoin(a + b + c, d);
    NoCrJoin(a + b + c + d, e);
    NoCrJoin(a + b + c + d + e, f);
    NoCrJoin(a + b + c + d + e + f, g);
  }

  const NameKey := "{\"name\":" + "\""
  const ParentsKey := ",\"mimeType\":" + QuotedTextMimeType + ",\"parents\":[" + "\""

  /** Reads creation metadata back into the name and the parent id. */
  function ParseCreateMetadata(t: string): Option<(string, string)> {
    ReadPair(t, NameKey, ParentsKey, "]}")
  }

  /** Reads `head`, a JSON string body, `middle`, another one, then exactly `tail`. */
  function ReadPair(t: string, head: string, middle: string, tail: string): Option<(string, string)> {
    if |t| < |head| || t[..|head|] != head then None
    else match ReadString(t[|head|..])
      case None => None
      case Some((first, n)) =>
        var t2 := t[|head| + n..];
        if |t2| < |middle| || t2[..|middle|] != middle then None
        else match ReadString(t2[|middle|..])
          case None => None
          case Some((second, m)) => if t2[|middle| + m..] == tail then Some((first, second)) else None
  }

  /** `ReadPair` succeeds on any text laid out as head, string, middle, string, tail. */
  lemma ReadPairOf(t: string, head: string, middle: string, tail: string, first: string, second: string, n: nat, t2: string, m: nat)
    requires |head| <= |t| && t[..|head|] == head
    requires ReadString(t[|head|..]) == Some((first, n))
    requires t[|head| + n..] == t2
    requires |middle| <= |t2| && t2[..|middle|] == middle
    requires ReadString(t2[|middle|..]) == Some((second, m))
    requires t2[|middle| + m..] == tail
    ensures ReadPair(t, head, middle, tail) == Some((first, second))
  {
  }

  /** After a prefix, an escaped string and its closing quote read back, leaving the rest. */
  lemma ReadAfter(pre: string, s: string, rest: string)
    ensures var t := pre + Escape(s) + "\"" + rest;
      |pre| <= |t| && t[..|pre|] == pre && ReadString(t[|pre|..]) == Some((s, |Escape(s)| + 1)) && t[|pre| + |Escape(s)| + 1..] == rest
  {
    var t := pre + Escape(s) + "\"" + rest;
    assert t[..|pre|] == pre;
    assert t[|pre|..] == Escape(s) + "\"" + rest;
    ReadEscaped(s, rest);
    assert t[|pre| + |Escape(s)| + 1..] == rest;
  }

  lemma Regroup(a: string, b: string, c: string)
    ensures a + b + c == a + (b + c)
  {
  }

  lemma ReadPairRoundTrip(head: string, first: string, middle: string, second: string, tail: string)
    ensures ReadPair(head + Escape(first) + "\"" + middle + Escape(second) + "\"" + tail, head, middle, tail) == Some((first, second))
  {
    var x := head + Escape(first) + "\"";
    var t2 := middle + Escape(second) + "\"" + tail;
    Regroup(x, middle, Escape(second));
    Regroup(x, middle + Escape(second), "\"");
    Regroup(x, middle + Escape(second) + "\"", tail);
    ReadAfter(middle, second, tail);
    ReadAfter(head, first, t2);
    ReadPairOf(x + t2, head, middle, tail, first, second, |Escape(first)| + 1, t2, |Escape(second)| + 1);
  }

  /** Where the quotes of two quoted strings fall in a text that holds them. */
  lemma QuotedPairLayout(k1: string, x: string, k2: string, q: string, k3: string, y: string, k4: string)
    ensures k1 + Quote(x) + k2 + q + k3 + Quote(y) + k4 == (k1 + "\"") + Escape(x) + "\"" + (k2 + q + k3 + "\"") + Escape(y) + "\"" + k4
  {
    var h := k1 + "\"" + Escape(x) + "\"";
    Regroup(k1, "\"", Escape(x));
    Regroup(k1, "\"" + Escape(x), "\"");
    var m := h + k2 + q + k3;
    Regroup(m, "\"", Escape(y));
    Regroup(m, "\"" + Escape(y), "\"");
    Regroup(h, k2, q);
    Regroup(h, k2 + q, k3);
    Regroup(h, k2 + q + k3, "\"");
  }

  /** The name and parent id are read back from the creation metadata. */
  lemma CreateMetadataRoundTrip(name: string, parentId: string)
    ensures ParseCreateMetadata(CreateMetadata(name, parentId)) == Some((name, parentId))
  {
    QuotedPairLayout("{\"name\":", name, ",\"mimeType\":", QuotedTextMimeType, ",\"parents\":[", parentId, "]}");
    ReadPairRoundTrip(NameKey, name, ParentsKey, parentId, "]}");
  }


  /**
   * What `fetch` settles to: a response, with `ok`, `statusText` and the
   * body `text()` or `json()` gives, or a rejection with its message.
   */
  datatype Reply<+T> = Response(ok: bool, statusText: string, payload: T) | Rejected(message: string)

  /** The request handed to `fetch`; `method` is a reserved word, hence `verb`. */
  datatype Request = Request(verb: string, url: string, authorization: string, contentType: Option<string>, body: Option<string>)

  const NotAuthenticated := "Not authenticated"

  /** `!token` is false: a token is stored and it is not the empty string. */
  predicate HasToken(token: Option<string>) {
    token.Some? && token.value != ""
  }

  function ReadRequest(token: string, fileId: string): Request {
    Request("GET", "https://www.googleapis.com/drive/v3/files/" + fileId + "?alt=media", "Bearer " + token, None, None)
  }

  function WriteRequest(token: string, fileId: string, content: string): Request {
    Request("PATCH", "https://www.googleapis.com/upload/drive/v3/files/" + fileId + "?uploadType=multipart",
            "Bearer " + token, Some(MultipartContentType), Some(MultipartBody(WriteMetadata(), content)))
  }

  /** The upload endpoint `createDriveFile` posts to, asking for the new file's id, name, type and parents back. */
  const CreateUrl := "https://www.googleapis.com/upload/drive/v3/files?uploadType=multipart&fields=id,name,mimeType,parents"

  function CreateRequest(token: string, parentId: string, name: string, content: string): Request {
    Request("POST", CreateUrl,
            "Bearer " + token, Some(MultipartContentType), Some(MultipartBody(CreateMetadata(name, parentId), content)))
  }

  /**
   * The value or the thrown message once `fetch` settles: a rejection is
   * rethrown as it is, a response that is not ok becomes `failure` followed
   * by its status text, and an ok response gives its body.
   */
  function Settle<T>(reply: Reply<T>, failure: string): Result<T, string> {
    match reply
    case Rejected(message) => Err(message)
    case Response(ok, statusText, payload) => if ok then Ok(payload) else Err(failure + statusText)
  }

  /**
   * `readDriveFile`: a 'file-load' record keyed by the file id is started,
   * the token is checked, the content is downloaded, and the record is
   * ended whatever happened.
   */
  method ReadDriveFile(tracker: LoadingStore, token: Option<string>, fileId: string, reply: Reply<string>)
    returns (sent: Option<Request>, r: Result<string, string>)
    modifies tracker
    ensures tracker.states == Ended(old(tracker.states), FileLoad, Some(fileId))
    ensures forall s :: s in tracker.states ==> !Matches(s, FileLoad, Some(fileId))
    ensures !HasToken(token) ==> sent == None && r == Err(NotAuthenticated)
    ensures HasToken(token) ==> sent == Some(ReadRequest(token.value, fileId))
    ensures r.Ok? <==> HasToken(token) && reply.Response? && reply.ok
    ensures r.Ok? ==> r.value == reply.payload
    ensures HasToken(token) && reply.Rejected? ==> r == Err(reply.message)
    ensures HasToken(token) && reply.Response? && !reply.ok ==> r == Err("Failed to read file: " + reply.statusText)
  {
    tracker.Start(FileLoad, Some(fileId), None);
    if !HasToken(token) {
      sent, r := None, Err(NotAuthenticated);
    } else {
      sent := Some(ReadRequest(token.value, fileId));
      r := Settle(reply, "Failed to read file: ");
    }
    tracker.End(FileLoad, Some(fileId));
    StartThenEnd(old(tracker.states), FileLoad, Some(fileId), None);
  }

  /** `writeDriveFile`: the content is uploaded in a multipart PATCH inside a 'file-save' record. */
  method WriteDriveFile(tracker: LoadingStore, token: Option<string>, fileId: string, content: string, reply: Reply<()>)
    returns (sent: Option<Request>, r: Outcome<string>)
    modifies tracker
    ensures tracker.states == Ended(old(tracker.states), FileSave, Some(fileId))
    ensures forall s :: s in tracker.states ==> !Matches(s, FileSave, Some(fileId))
    ensures !HasToken(token) ==> sent == None && r == Fail(NotAuthenticated)
    ensures HasToken(token) ==> sent == Some(WriteRequest(token.value, fileId, content))
    ensures r.Pass? <==> HasToken(token) && reply.Response? && reply.ok
    ensures HasToken(token) && reply.Rejected? ==> r == Fail(reply.message)
    ensures HasToken(token) && reply.Response? && !reply.ok ==> r == Fail("Failed to write file: " + reply.statusText)
  {
    tracker.Start(FileSave, Some(fileId), None);
    if !HasToken(token) {
      sent, r := None, Fail(NotAuthenticated);
    } else {
      sent := Some(WriteRequest(token.value, fileId, content));
      var settled := Settle(reply, "Failed to write file: ");
      r := if settled.Ok? then Pass else Fail(settled.error);
    }
    tracker.End(FileSave, Some(fileId));
    StartThenEnd(old(tracker.states), FileSave, Some(fileId), None);
  }

  /**
   * `createDriveFile`: a 'file-create' record with the name and no id is
   * started, so the closing `end` removes every 'file-create' record.
   */
  method CreateDriveFile(tracker: LoadingStore, token: Option<string>, parentId: string, name: string, content: string,
                         reply: Reply<GoogleDriveFile>)
    returns (sent: Option<Request>, r: Result<GoogleDriveFile, string>)
    modifies tracker
    ensures tracker.states == Ended(old(tracker.states), FileCreate, None)
    ensures forall s :: s in tracker.states ==> s.operation != FileCreate
    ensures !HasToken(token) ==> sent == None && r == Err(NotAuthenticated)
    ensures r.Ok? <==> HasToken(token) && reply.Response? && reply.ok
    ensures r.Ok? ==> r.value == reply.payload
    ensures HasToken(token) && reply.Rejected? ==> r == Err(reply.message)
    ensures HasToken(token) && reply.Response? && !reply.ok ==> r == Err("Failed to create file: " + reply.statusText)
    ensures HasToken(token) ==> sent == Some(CreateRequest(token.value, parentId, name, content))
  {
    tracker.Start(FileCreate, None, Some(name));
    if !HasToken(token) {
      sent, r := None, Err(NotAuthenticated);
    } else {
      sent := Some(CreateRequest(token.value, parentId, name, content));
      r := Settle(reply, "Failed to create file: ");
    }
    tracker.End(FileCreate, None);
    assert tracker.states == Ended(old(tracker.states), FileCreate, None) by {
      StartThenEnd(old(tracker.states), FileCreate, None, Some(name));
    }
    assert forall s :: s in tracker.states ==> s.operation != FileCreate by {
      EndWithoutId(old(tracker.states), FileCreate, None);
    }
  }

  /** The update body carries the text type and exactly the content, under the boundary the header announces. */
  lemma WriteRequestRoundTrip(token: string, fileId: string, content: string)
    ensures var q := WriteRequest(token, fileId, content);
      q.contentType == Some(MultipartContentType) && q.body.Some? && ParseMultipart(q.body.value) == Some((WriteMetadata(), content))
  {
    WriteMetadataHasNoCr();
    MultipartRoundTrip(WriteMetadata(), content);
  }

  /** The creation body carries the name, the parent id and exactly the content. */
  lemma CreateRequestRoundTrip(token: string, parentId: string, name: string, content: string)
    ensures var q := CreateRequest(token, parentId, name, content);
      q.body.Some? && ParseMultipart(q.body.value) == Some((CreateMetadata(name, parentId), content))
    ensures ParseCreateMetadata(CreateMetadata(name, parentId)) == Some((name, parentId))
  {
    CreateMetadataHasNoCr(name, parentId);
    MultipartRoundTrip(CreateMetadata(name, parentId), content);
    CreateMetadataRoundTrip(name, parentId);
  }
}
