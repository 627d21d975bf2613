/** The shared records of the editor: tree nodes, Drive items and tabs. */
module Types {
  import opened Wrappers

  datatype FileType = File | Directory

  datatype StorageType = Local | GoogleDrive

  /**
   * A File System Access handle, identified by where it points: the names of
   * the entries walked from the user-granted root directory to reach it.
   */
  datatype Handle = FileHandle(path: seq<string>) | DirectoryHandle(path: seq<string>)
  {
    /** The handle's `name`: its last path segment (the granted root is the empty path). */
    function Name(): string {
      if path == [] then "" else path[|path| - 1]
    }
  }

  datatype GoogleDriveFile = GoogleDriveFile(
    id: string,
    name: string,
    mimeType: string,
    parents: Option<seq<string>>,
    trashed: Option<bool>)

  /**
   * One entry of a storage tree. Local nodes carry a `handle`, Drive nodes a
   * `driveId` and `mimeType`; only directories carry `children`.
   */
  datatype FileNode = FileNode(
    name: string,
    path: string,
    fileType: FileType,
    storageType: StorageType,
    handle: Option<Handle>,
    driveId: Option<string>,
    mimeType: Option<string>,
    children: Children)

  /** The optional `children` array of a node: present only on directories. */
  datatype Children = NoChildren | Children(nodes: seq<FileNode>)

  datatype CursorPosition = CursorPosition(line: int, column: int)

  /** One open editing session; `file` is None for a tab not yet saved. */
  datatype TabInfo = TabInfo(
    id: string,
    file: Option<FileNode>,
    content: string,
    isDirty: bool,
    isUnsaved: Option<bool>,
    defaultFileName: Option<string>,
    cursorPosition: Option<CursorPosition>)
}
