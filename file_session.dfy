/**
 * The editor's document-session store, as values. `Session` holds the
 * store's fields; each action of the store is a function from the state
 * before it (and what the file gateway replied) to the state after it.
 * The class `FileStore.Store` performs the same actions in place and is
 * proved against these functions.
 *
 * The gateway's replies have the shape `{success, path?, content?, items?,
 * error?}`; an absent field is `None`. Each action is taken as atomic: the
 * interleaving of two overlapping asynchronous actions is not modelled.
 */
module FileSession {
  import opened JsText

  datatype ItemKind = File | Directory

  /** One entry of a (flat, non-recursive) directory listing. */
  datatype FileSystemItem = FileSystemItem(name: string, path: string, kind: ItemKind)

  /** What the gateway's `readFile` resolves to. */
  datatype ReadFileReply = ReadFileReply(success: bool, path: Option<string>, content: Option<string>, error: Option<string>)

  /** What the gateway's `saveFile` resolves to. */
  datatype SaveFileReply = SaveFileReply(success: bool, path: Option<string>, error: Option<string>)

  /** What the gateway's `readDirectory` resolves to. */
  datatype ReadDirectoryReply =
    ReadDirectoryReply(success: bool, path: Option<string>, items: Option<seq<FileSystemItem>>, error: Option<string>)

  /** What the store hands `saveFile`: a target path (null opens the save dialog) and the text. */
  datatype WriteRequest = WriteRequest(path: Option<string>, content: string)

  /** The argument of `fetchFileSystemTree`: left out, an explicit null, or a path. */
  datatype BasePath = Omitted | Null | Given(path: string)

  datatype Session = Session(
    sidebarOpen: bool,
    fileSystemTree: seq<FileSystemItem>,
    currentDirectoryPath: Option<string>,
    projectRootPath: Option<string>,
    currentFilePath: Option<string>,
    currentFileContent: string,
    originalFileContent: string,
    isDirty: bool,
    isLoading: bool,
    error: Option<string>)

  /** The store's state when the application starts. */
  const Initial: Session := Session(true, [], None, None, None, "", "", false, false, None)

  /** The body `createNewFile` puts in the editor. */
  const NewFilePlaceholder: string := "# Nuevo Documento\n\n¡Comienza a escribir tus ideas aquí!"

  /** The fallback message when the folder picker yields nothing. */
  const NoFolderMessage: string := "No se seleccionó una carpeta de proyecto."

  function OpenErrorMessage(path: string, error: Option<string>): string
  {
    "Error al abrir " + path + ": " + OrElse(error, "No se pudo leer el archivo.")
  }

  function SaveErrorMessage(error: Option<string>): string
  {
    "Error al guardar: " + OrElse(error, "Error al guardar el archivo.")
  }

  function SaveAsErrorMessage(error: Option<string>): string
  {
    "Error al guardar como: " + OrElse(error, "Error al guardar como.")
  }

  function ListErrorMessage(error: Option<string>): string
  {
    "Error al cargar archivos: " + OrElse(error, "Error al leer el directorio.")
  }

  /** The dirty flag says exactly whether the buffer differs from what was last read or written. */
  predicate DirtyConsistent(s: Session)
  {
    s.isDirty <==> s.currentFileContent != s.originalFileContent
  }

  /** `toggleSidebar`: only the sidebar flag changes, and it flips. */
  function ToggleSidebar(s: Session): (t: Session)
    ensures t.sidebarOpen != s.sidebarOpen
    ensures t.(sidebarOpen := s.sidebarOpen) == s
  {
    s.(sidebarOpen := !s.sidebarOpen)
  }

  /** `setFileSystemTree`: the listing is replaced wholesale; the document is untouched. */
  function SetFileSystemTree(s: Session, tree: seq<FileSystemItem>): (t: Session)
    ensures t.fileSystemTree == tree
    ensures t.(fileSystemTree := s.fileSystemTree) == s
  {
    s.(fileSystemTree := tree)
  }

  /** `setCurrentDirectoryPath`: only the current directory changes. */
  function SetCurrentDirectoryPath(s: Session, path: Option<string>): (t: Session)
    ensures t.currentDirectoryPath == path
    ensures t.(currentDirectoryPath := s.currentDirectoryPath) == s
  {
    s.(currentDirectoryPath := path)
  }

  /** `setProjectRootPath`: only the project root changes; the open document is kept. */
  function SetProjectRootPath(s: Session, path: Option<string>): (t: Session)
    ensures t.projectRootPath == path
    ensures t.(projectRootPath := s.projectRootPath) == s
  {
    s.(projectRootPath := path)
  }

  /**
   * The file `openFile` reads: its argument when that is truthy, otherwise
   * the file picker's choice when that is truthy, otherwise none (the
   * action returns at once).
   */
  function PathToRead(filePath: Option<string>, picked: Option<string>): (p: Option<string>)
    ensures p.Some? <==> Truthy(filePath) || Truthy(picked)
    ensures p.Some? ==> p.value != "" && (p == filePath || p == picked)
    ensures Truthy(filePath) ==> p == filePath
  {
    if Truthy(filePath) then filePath
    else if Truthy(picked) then picked
    else None
  }

  /** A read counts only when it carries content (possibly empty) and a truthy path. */
  predicate ReadAccepted(reply: ReadFileReply)
  {
    reply.content.Some? && Truthy(reply.path)
  }

  /**
   * `openFile(filePath?)` given the picker's choice and `readFile`'s reply:
   * the listing, the folders and the sidebar are never touched, and a
   * consistent dirty flag stays consistent.
   */
  function OpenFile(s: Session, filePath: Option<string>, picked: Option<string>, reply: ReadFileReply): (t: Session)
    ensures t.(currentFilePath := s.currentFilePath, currentFileContent := s.currentFileContent,
               originalFileContent := s.originalFileContent, isDirty := s.isDirty,
               isLoading := s.isLoading, error := s.error) == s
    ensures DirtyConsistent(s) ==> DirtyConsistent(t)
    ensures PathToRead(filePath, picked).Some? ==> !t.isLoading
  {
    match PathToRead(filePath, picked)
    case None => s
    case Some(p) =>
      if ReadAccepted(reply) then
        s.(currentFilePath := reply.path,
           currentFileContent := reply.content.value,
           originalFileContent := reply.content.value,
           isDirty := false,
           isLoading := false,
           error := None)
      else
        s.(error := Some(OpenErrorMessage(p, reply.error)), isLoading := false)
  }

  /** `updateCurrentFileContent`: whatever the flag was before, the result is consistent. */
  function UpdateCurrentFileContent(s: Session, content: string): (t: Session)
    ensures t.currentFileContent == content
    ensures DirtyConsistent(t)
    ensures t.originalFileContent == s.originalFileContent && t.currentFilePath == s.currentFilePath
  {
    s.(currentFileContent := content, isDirty := content != s.originalFileContent)
  }

  /** A write counts only when it succeeded and reports a truthy path. */
  predicate SaveAccepted(reply: SaveFileReply)
  {
    reply.success && Truthy(reply.path)
  }

  /** The write `saveCurrentFile` asks for: the current path, passed through as it is. */
  function SaveCurrentRequest(s: Session): WriteRequest
  {
    WriteRequest(s.currentFilePath, s.currentFileContent)
  }

  /** The write `saveFileAs` asks for: always a null path, so the gateway shows its dialog. */
  function SaveAsRequest(s: Session): WriteRequest
  {
    WriteRequest(None, s.currentFileContent)
  }

  /** The state after either save action, given the text captured when it started. */
  function AfterWrite(s: Session, reply: SaveFileReply, failure: string): Session
  {
    if SaveAccepted(reply) then
      s.(currentFilePath := reply.path,
         originalFileContent := s.currentFileContent,
         isDirty := false,
         isLoading := false,
         error := None)
    else
      s.(error := Some(failure), isLoading := false)
  }

  /** `saveCurrentFile` given `saveFile`'s reply: the listing and the folders are kept (no refresh). */
  function SaveCurrentFile(s: Session, reply: SaveFileReply): (t: Session)
    ensures t.fileSystemTree == s.fileSystemTree && t.currentDirectoryPath == s.currentDirectoryPath
    ensures t.projectRootPath == s.projectRootPath && t.sidebarOpen == s.sidebarOpen
    ensures t.currentFileContent == s.currentFileContent && !t.isLoading
    ensures DirtyConsistent(s) ==> DirtyConsistent(t)
  {
    AfterWrite(s, reply, SaveErrorMessage(reply.error))
  }

  /** `saveFileAs` given `saveFile`'s reply: the same outcome shape as saveCurrentFile. */
  function SaveFileAs(s: Session, reply: SaveFileReply): (t: Session)
    ensures t.fileSystemTree == s.fileSystemTree && t.currentDirectoryPath == s.currentDirectoryPath
    ensures t.projectRootPath == s.projectRootPath && t.sidebarOpen == s.sidebarOpen
    ensures t.currentFileContent == s.currentFileContent && !t.isLoading
    ensures DirtyConsistent(s) ==> DirtyConsistent(t)
  {
    AfterWrite(s, reply, SaveAsErrorMessage(reply.error))
  }

  /**
   * The directory `fetchFileSystemTree` asks the gateway to list: an omitted
   * argument means the project root; `None` (an explicit null, or no root
   * yet) makes the gateway show its folder picker.
   */
  function ListRequest(s: Session, base: BasePath): (r: Option<string>)
    ensures r.None? <==> base.Null? || (base.Omitted? && s.projectRootPath.None?)
    ensures r.Some? ==> r == s.projectRootPath || (base.Given? && r.value == base.path)
    ensures base.Omitted? ==> r == s.projectRootPath
    ensures base.Given? ==> r == Some(base.path)
  {
    match base
    case Omitted => s.projectRootPath
    case Null => None
    case Given(p) => Some(p)
  }

  /** A listing counts only when it succeeded and carries a truthy path and the items. */
  predicate ListingAccepted(reply: ReadDirectoryReply)
  {
    reply.success && Truthy(reply.path) && reply.items.Some?
  }

  /**
   * `fetchFileSystemTree(basePath?)` given `readDirectory`'s reply: the open
   * document is never touched and loading always ends.
   */
  function FetchFileSystemTree(s: Session, base: BasePath, reply: ReadDirectoryReply): (t: Session)
    ensures t.currentFilePath == s.currentFilePath && t.currentFileContent == s.currentFileContent
    ensures t.originalFileContent == s.originalFileContent && t.isDirty == s.isDirty
    ensures t.sidebarOpen == s.sidebarOpen && !t.isLoading
  {
    match ListRequest(s, base)
    case None =>
      if ListingAccepted(reply) then
        s.(projectRootPath := reply.path,
           currentDirectoryPath := reply.path,
           fileSystemTree := reply.items.value,
           isLoading := false,
           error := None)
      else
        s.(isLoading := false, error := Some(OrElse(reply.error, NoFolderMessage)), fileSystemTree := [])
    case Some(_) =>
      if ListingAccepted(reply) then
        s.(fileSystemTree := reply.items.value,
           currentDirectoryPath := reply.path,
           isLoading := false,
           error := None)
      else
        s.(error := Some(ListErrorMessage(reply.error)), isLoading := false, fileSystemTree := [])
  }

  /** `createNewFile`: an unsaved document that is dirty, and consistently so. */
  function CreateNewFile(s: Session): (t: Session)
    ensures t.currentFilePath == None && t.isDirty && DirtyConsistent(t)
    ensures t.fileSystemTree == s.fileSystemTree && t.projectRootPath == s.projectRootPath
  {
    s.(currentFilePath := None,
       currentFileContent := NewFilePlaceholder,
       originalFileContent := "",
       isDirty := true,
       error := None)
  }

  /** One call of a store action, with the gateway replies it receives. */
  datatype Action =
    | ToggleSidebarAction
    | SetTreeAction(tree: seq<FileSystemItem>)
    | SetDirectoryAction(directory: Option<string>)
    | SetRootAction(root: Option<string>)
    | OpenAction(filePath: Option<string>, picked: Option<string>, readReply: ReadFileReply)
    | EditAction(content: string)
    | SaveAction(saveReply: SaveFileReply)
    | SaveAsAction(saveAsReply: SaveFileReply)
    | FetchAction(base: BasePath, listReply: ReadDirectoryReply)
    | NewFileAction

  function Apply(s: Session, a: Action): Session
  {
    match a
    case ToggleSidebarAction => ToggleSidebar(s)
    case SetTreeAction(tree) => SetFileSystemTree(s, tree)
    case SetDirectoryAction(d) => SetCurrentDirectoryPath(s, d)
    case SetRootAction(r) => SetProjectRootPath(s, r)
    case OpenAction(f, p, r) => OpenFile(s, f, p, r)
    case EditAction(c) => UpdateCurrentFileContent(s, c)
    case SaveAction(r) => SaveCurrentFile(s, r)
    case SaveAsAction(r) => SaveFileAs(s, r)
    case FetchAction(b, r) => FetchFileSystemTree(s, b, r)
    case NewFileAction => CreateNewFile(s)
  }

  /** The state after the actions, one after the other. */
  function Run(s: Session, actions: seq<Action>): Session
    decreases |actions|
  {
    if actions == [] then s else Run(Apply(s, actions[0]), actions[1..])
  }

  /**
   * An edit stores the text and recomputes the dirty flag against the last
   * read or written text, whatever the flag was before; nothing else changes.
   */
  lemma UpdateContentOutcome(s: Session, content: string)
    ensures UpdateCurrentFileContent(s, content).currentFileContent == content
    ensures UpdateCurrentFileContent(s, content).isDirty <==> content != s.originalFileContent
    ensures DirtyConsistent(UpdateCurrentFileContent(s, content))
    ensures UpdateCurrentFileContent(s, content).(currentFileContent := s.currentFileContent, isDirty := s.isDirty) == s
  {
  }

  /** Typing back the last saved text makes the session clean again. */
  lemma RevertIsClean(s: Session, edit: string)
    ensures !UpdateCurrentFileContent(UpdateCurrentFileContent(s, edit), s.originalFileContent).isDirty
  {
  }

  /**
   * openFile: with no truthy path and a cancelled picker nothing changes; a
   * read that carries content and a path makes that file the clean current
   * document; any other reply records an error and keeps the document.
   */
  lemma OpenFileOutcome(s: Session, filePath: Option<string>, picked: Option<string>, reply: ReadFileReply)
    ensures !Truthy(filePath) && !Truthy(picked) ==> OpenFile(s, filePath, picked, reply) == s
    ensures PathToRead(filePath, picked).Some? && ReadAccepted(reply) ==>
      var t := OpenFile(s, filePath, picked, reply);
      && t.currentFilePath == reply.path
      && t.currentFileContent == t.originalFileContent == reply.content.value
      && !t.isDirty && !t.isLoading && t.error == None
      && DirtyConsistent(t)
      && t.(currentFilePath := s.currentFilePath, currentFileContent := s.currentFileContent,
            originalFileContent := s.originalFileContent, isDirty := s.isDirty,
            isLoading := s.isLoading, error := s.error) == s
    ensures PathToRead(filePath, picked).Some? && !ReadAccepted(reply) ==>
      var t := OpenFile(s, filePath, picked, reply);
      && t.error.Some? && t.error.value != ""
      && !t.isLoading
      && t.(isLoading := s.isLoading, error := s.error) == s
  {
  }

  /** The two save actions differ only in the path they hand the gateway. */
  lemma SaveRequests(s: Session)
    ensures SaveAsRequest(s).path == None
    ensures SaveCurrentRequest(s).path == s.currentFilePath
    ensures SaveAsRequest(s).content == SaveCurrentRequest(s).content == s.currentFileContent
    ensures SaveCurrentRequest(CreateNewFile(s)) == SaveAsRequest(CreateNewFile(s))
  {
  }

  /**
   * A save that the gateway accepts records the written text as the saved
   * text, adopts the returned path and leaves the session clean; one that it
   * does not accept records an error and keeps path, texts and dirty flag.
   */
  lemma SaveOutcome(s: Session, reply: SaveFileReply)
    ensures SaveAccepted(reply) ==>
      forall t | t == SaveCurrentFile(s, reply) || t == SaveFileAs(s, reply) ::
        && t.currentFilePath == reply.path
        && t.originalFileContent == t.currentFileContent == s.currentFileContent
        && !t.isDirty && !t.isLoading && t.error == None
        && DirtyConsistent(t)
        && t.(currentFilePath := s.currentFilePath, originalFileContent := s.originalFileContent,
              isDirty := s.isDirty, isLoading := s.isLoading, error := s.error) == s
    ensures !SaveAccepted(reply) ==>
      forall t | t == SaveCurrentFile(s, reply) || t == SaveFileAs(s, reply) ::
        && t.error.Some? && t.error.value != ""
        && !t.isLoading
        && t.(isLoading := s.isLoading, error := s.error) == s
  {
  }

  /** Cancelling the save dialog is reported like any failed write. */
  lemma SaveAsCancelSetsError(s: Session)
    ensures SaveFileAs(s, SaveFileReply(false, None, None)).error == Some("Error al guardar como: Error al guardar como.")
    ensures SaveFileAs(s, SaveFileReply(false, None, None)).isDirty == s.isDirty
  {
    var fallback := "Error al guardar como.";
    assert OrElse(None, fallback) == fallback;
    assert "Error al guardar como: " + fallback == "Error al guardar como: Error al guardar como.";
  }

  /**
   * fetchFileSystemTree: an omitted argument lists the project root; a
   * listing obtained through the folder picker (explicit null, or no root
   * yet) that succeeds makes the chosen folder the project root; a listing
   * of a given path keeps the root; every failure empties the listing and
   * records an error. The open document is never touched.
   */
  lemma FetchOutcome(s: Session, base: BasePath, reply: ReadDirectoryReply)
    ensures base.Omitted? ==> ListRequest(s, base) == s.projectRootPath
    ensures
      var t := FetchFileSystemTree(s, base, reply);
      && !t.isLoading
      && t.(fileSystemTree := s.fileSystemTree, currentDirectoryPath := s.currentDirectoryPath,
            projectRootPath := s.projectRootPath, isLoading := s.isLoading, error := s.error) == s
    ensures ListingAccepted(reply) ==>
      var t := FetchFileSystemTree(s, base, reply);
      && t.fileSystemTree == reply.items.value
      && t.currentDirectoryPath == reply.path
      && t.error == None
      && t.projectRootPath == (if ListRequest(s, base).None? then reply.path else s.projectRootPath)
    ensures !ListingAccepted(reply) ==>
      var t := FetchFileSystemTree(s, base, reply);
      && t.fileSystemTree == []
      && t.error.Some? && t.error.value != ""
      && t.projectRootPath == s.projectRootPath
      && t.currentDirectoryPath == s.currentDirectoryPath
  {
  }

  /**
   * createNewFile starts an unsaved, dirty document with placeholder text
   * and leaves the listing, the folders and the loading flag alone.
   */
  lemma CreateNewFileOutcome(s: Session)
    ensures
      var t := CreateNewFile(s);
      && t.currentFilePath == None
      && t.currentFileContent == NewFilePlaceholder
      && t.originalFileContent == ""
      && t.isDirty && t.error == None
      && DirtyConsistent(t)
      && t.fileSystemTree == s.fileSystemTree
      && t.projectRootPath == s.projectRootPath
      && t.currentDirectoryPath == s.currentDirectoryPath
      && t.isLoading == s.isLoading
      && t.(currentFilePath := s.currentFilePath, currentFileContent := s.currentFileContent,
            originalFileContent := s.originalFileContent, isDirty := s.isDirty, error := s.error) == s
  {
  }

  /** Toggling the sidebar twice restores the state. */
  lemma ToggleSidebarTwice(s: Session)
    ensures ToggleSidebar(ToggleSidebar(s)) == s
    ensures ToggleSidebar(s).sidebarOpen != s.sidebarOpen
  {
  }

  /** Every action keeps the dirty flag in step with the two texts. */
  lemma ApplyKeepsDirtyConsistent(s: Session, a: Action)
    requires DirtyConsistent(s)
    ensures DirtyConsistent(Apply(s, a))
  {
    match a
    case NewFileAction =>
      assert NewFilePlaceholder != "";
    case _ =>
  }

  /**
   * From the initial state, or any consistent one, every sequence of actions
   * leaves `isDirty` true exactly when the buffer differs from the last read
   * or written text.
   */
  lemma {:induction false} RunKeepsDirtyConsistent(s: Session, actions: seq<Action>)
    requires DirtyConsistent(s)
    ensures DirtyConsistent(Run(s, actions))
    decreases |actions|
  {
    if actions != [] {
      ApplyKeepsDirtyConsistent(s, actions[0]);
      RunKeepsDirtyConsistent(Apply(s, actions[0]), actions[1..]);
    }
  }

  /** In particular, the store is consistent after any sequence of actions from start-up. */
  lemma RunFromStartIsConsistent(actions: seq<Action>)
    ensures DirtyConsistent(Run(Initial, actions))
  {
    RunKeepsDirtyConsistent(Initial, actions);
  }

  /**
   * A run of edits alone never changes the saved text or the path; the
   * buffer holds the last edit.
   */
  lemma {:induction false} EditsKeepBaseline(s: Session, actions: seq<Action>)
    requires forall k | 0 <= k < |actions| :: actions[k].EditAction?
    ensures Run(s, actions).originalFileContent == s.originalFileContent
    ensures Run(s, actions).currentFilePath == s.currentFilePath
    ensures actions != [] ==> Run(s, actions).currentFileContent == actions[|actions| - 1].content
    ensures actions != [] ==> (Run(s, actions).isDirty <==> actions[|actions| - 1].content != s.originalFileContent)
    decreases |actions|
  {
    if actions != [] {
      var tail := actions[1..];
      assert forall k | 0 <= k < |tail| :: tail[k].EditAction? by {
        forall k | 0 <= k < |tail| ensures tail[k].EditAction? { assert tail[k] == actions[k + 1]; }
      }
      EditsKeepBaseline(Apply(s, actions[0]), tail);
      if tail != [] {
        assert tail[|tail| - 1] == actions[|actions| - 1];
      }
    }
  }
}
