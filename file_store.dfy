/**
 * The editor's document-session store as the object the application holds:
 * its fields are overwritten step by step by each action, exactly as the
 * store's `set` calls do. Every gateway call is replaced by its reply,
 * passed in as a parameter; what the store asked the gateway for is
 * returned. Each method is proved to produce the state that the matching
 * function of `FileSession` describes, and to keep the dirty flag in step
 * with the two texts.
 */
module FileStore {
  import opened JsText
  import FileSession

  class Store {
    var sidebarOpen: bool
    var fileSystemTree: seq<FileSession.FileSystemItem>
    var currentDirectoryPath: Option<string>
    var projectRootPath: Option<string>
    var currentFilePath: Option<string>
    var currentFileContent: string
    var originalFileContent: string
    var isDirty: bool
    var isLoading: bool
    var error: Option<string>

    /** The store's fields as one value. */
    function Snapshot(): FileSession.Session
      reads this
    {
      FileSession.Session(sidebarOpen, fileSystemTree, currentDirectoryPath, projectRootPath,
                          currentFilePath, currentFileContent, originalFileContent,
                          isDirty, isLoading, error)
    }

    ghost predicate Valid()
      reads this
    {
      FileSession.DirtyConsistent(Snapshot())
    }

    constructor ()
      ensures Snapshot() == FileSession.Initial
      ensures Valid()
    {
      sidebarOpen := true;
      fileSystemTree := [];
      currentDirectoryPath := None;
      projectRootPath := None;
      currentFilePath := None;
      currentFileContent := "";
      originalFileContent := "";
      isDirty := false;
      isLoading := false;
      error := None;
    }

    method ToggleSidebar()
      requires Valid()
      modifies this
      ensures Valid()
      ensures Snapshot() == FileSession.ToggleSidebar(old(Snapshot()))
    {
      sidebarOpen := !sidebarOpen;
    }

    method SetFileSystemTree(tree: seq<FileSession.FileSystemItem>)
      requires Valid()
      modifies this
      ensures Valid()
      ensures Snapshot() == FileSession.SetFileSystemTree(old(Snapshot()), tree)
    {
      fileSystemTree := tree;
    }

    method SetCurrentDirectoryPath(path: Option<string>)
      requires Valid()
      modifies this
      ensures Valid()
      ensures Snapshot() == FileSession.SetCurrentDirectoryPath(old(Snapshot()), path)
    {
      currentDirectoryPath := path;
    }

    method SetProjectRootPath(path: Option<string>)
      requires Valid()
      modifies this
      ensures Valid()
      ensures Snapshot() == FileSession.SetProjectRootPath(old(Snapshot()), path)
    {
      projectRootPath := path;
    }

    /**
     * `openFile(filePath?)`: `picked` is what the file picker returns (only
     * consulted when `filePath` is not truthy) and `reply` what `readFile`
     * returns for the chosen path; `readPath` is that path, or `None` when
     * the action returned without reading.
     */
    method OpenFile(filePath: Option<string>, picked: Option<string>, reply: FileSession.ReadFileReply)
      returns (readPath: Option<string>)
      requires Valid()
      modifies this
      ensures Valid()
      ensures readPath == FileSession.PathToRead(filePath, picked)
      ensures Snapshot() == FileSession.OpenFile(old(Snapshot()), filePath, picked, reply)
    {
      var pathToFile := filePath;
      if !Truthy(pathToFile) {
        if !Truthy(picked) {
          return None;
        }
        pathToFile := picked;
      }
      readPath := pathToFile;
      isLoading, error := true, None;
      if reply.content.Some? && Truthy(reply.path) {
        currentFilePath := reply.path;
        currentFileContent := reply.content.value;
        originalFileContent := reply.content.value;
        isDirty := false;
        isLoading := false;
      } else {
        error := Some(FileSession.OpenErrorMessage(pathToFile.value, reply.error));
        isLoading := false;
      }
    }

    method UpdateCurrentFileContent(content: string)
      requires Valid()
      modifies this
      ensures Valid()
      ensures Snapshot() == FileSession.UpdateCurrentFileContent(old(Snapshot()), content)
    {
      currentFileContent := content;
      isDirty := content != originalFileContent;
    }

    /**
     * `saveCurrentFile()`: captures the path and the text, asks the gateway
     * to write them (`request`) and takes `reply` as its answer.
     */
    method SaveCurrentFile(reply: FileSession.SaveFileReply) returns (request: FileSession.WriteRequest)
      requires Valid()
      modifies this
      ensures Valid()
      ensures request == FileSession.SaveCurrentRequest(old(Snapshot()))
      ensures request.path == old(currentFilePath)
      ensures Snapshot() == FileSession.SaveCurrentFile(old(Snapshot()), reply)
    {
      var path, content := currentFilePath, currentFileContent;
      isLoading := true;
      request := FileSession.WriteRequest(path, content);
      if reply.success && Truthy(reply.path) {
        currentFilePath := reply.path;
        originalFileContent := content;
        isDirty := false;
        isLoading := false;
        error := None;
      } else {
        error := Some(FileSession.SaveErrorMessage(reply.error));
        isLoading := false;
      }
    }

    /** `saveFileAs()`: like saveCurrentFile, but always hands the gateway a null path. */
    method SaveFileAs(reply: FileSession.SaveFileReply) returns (request: FileSession.WriteRequest)
      requires Valid()
      modifies this
      ensures Valid()
      ensures request == FileSession.SaveAsRequest(old(Snapshot()))
      ensures request.path == None
      ensures Snapshot() == FileSession.SaveFileAs(old(Snapshot()), reply)
    {
      var content := currentFileContent;
      isLoading := true;
      request := FileSession.WriteRequest(None, content);
      if reply.success && Truthy(reply.path) {
        currentFilePath := reply.path;
        originalFileContent := content;
        isDirty := false;
        isLoading := false;
        error := None;
      } else {
        error := Some(FileSession.SaveAsErrorMessage(reply.error));
        isLoading := false;
      }
    }

    /**
     * `fetchFileSystemTree(basePath?)`: `listed` is the directory handed to
     * `readDirectory` (`None` makes the gateway show its folder picker) and
     * `reply` its answer.
     */
    method FetchFileSystemTree(base: FileSession.BasePath, reply: FileSession.ReadDirectoryReply)
      returns (listed: Option<string>)
      requires Valid()
      modifies this
      ensures Valid()
      ensures listed == FileSession.ListRequest(old(Snapshot()), base)
      ensures base.Omitted? ==> listed == old(projectRootPath)
      ensures Snapshot() == FileSession.FetchFileSystemTree(old(Snapshot()), base, reply)
    {
      isLoading, error := true, None;
      var pathToList := match base
        case Omitted => projectRootPath
        case Null => None
        case Given(p) => Some(p);
      listed := pathToList;
      if pathToList.None? {
        if reply.success && Truthy(reply.path) && reply.items.Some? {
          projectRootPath := reply.path;
          currentDirectoryPath := reply.path;
          fileSystemTree := reply.items.value;
          isLoading := false;
        } else {
          isLoading := false;
          error := Some(OrElse(reply.error, FileSession.NoFolderMessage));
          fileSystemTree := [];
        }
        return;
      }
      if reply.success && reply.items.Some? && Truthy(reply.path) {
        fileSystemTree := reply.items.value;
        currentDirectoryPath := reply.path;
        isLoading := false;
        error := None;
      } else {
        error := Some(FileSession.ListErrorMessage(reply.error));
        isLoading := false;
        fileSystemTree := [];
      }
    }

    method CreateNewFile()
      requires Valid()
      modifies this
      ensures Valid()
      ensures Snapshot() == FileSession.CreateNewFile(old(Snapshot()))
    {
      currentFilePath := None;
      currentFileContent := FileSession.NewFilePlaceholder;
      originalFileContent := "";
      isDirty := true;
      error := None;
    }
  }
}
