/**
 * The status bar: what it derives from a snapshot of the document-session
 * store. Nothing here writes state.
 */
module StatusBar {
  import opened JsText
  import FileSession

  /** The characters the path is split on, `/[\\/]/`. */
  const PathSeparators: set<char> := {'/', '\\'}

  /** The limit `error.substring(0, 50)` puts on the shown error text. */
  const ErrorExcerpt: nat := 50

  /** `content ? content.split('\n').length : 0` */
  function LineCount(content: string): (n: nat)
    ensures content == "" ==> n == 0
    ensures content != "" ==> n == CountOf(content, {'\n'}) + 1
  {
    if content == "" then 0
    else
      SplitCount(content, {'\n'});
      |Split(content, {'\n'})|
  }

  /** `content ? content.length : 0` */
  function CharCount(content: string): (n: nat)
    ensures n == |content|
  {
    if content == "" then 0 else |content|
  }

  /** The text the status bar shows, in order of precedence. */
  function StatusMessage(s: FileSession.Session): (m: string)
    ensures s.isLoading ==> m == "Cargando..."
    ensures m == "" ==> !s.isLoading && !Truthy(s.error) && Truthy(s.currentFilePath) && !s.isDirty
    ensures m == "" ==> s.currentFilePath.value[|s.currentFilePath.value| - 1] in PathSeparators
  {
    if s.isLoading then "Cargando..."
    else if Truthy(s.error) then "Error: " + Take(s.error.value, ErrorExcerpt) + "..."
    else if Truthy(s.currentFilePath) then
      LastPartIsBaseName(s.currentFilePath.value, PathSeparators);
      (if s.isDirty then "(Modificado) " else "") + LastPart(s.currentFilePath.value, PathSeparators)
    else if s.isDirty then "Nuevo (Modificado)"
    else "Nuevo documento"
  }

  /** The hover title: the whole path, or "Nuevo documento" without one. */
  function StatusTitle(s: FileSession.Session): (t: string)
    ensures t != ""
    ensures Truthy(s.currentFilePath) ==> t == s.currentFilePath.value
    ensures !Truthy(s.currentFilePath) ==> t == "Nuevo documento"
  {
    if Truthy(s.currentFilePath) then s.currentFilePath.value else "Nuevo documento"
  }

  /** While the store is loading, nothing else shows: not the error, the path or the dirty flag. */
  lemma LoadingTakesPrecedence(s: FileSession.Session, error: Option<string>, path: Option<string>, dirty: bool)
    requires s.isLoading
    ensures StatusMessage(s) == "Cargando..."
    ensures StatusMessage(s.(error := error, currentFilePath := path, isDirty := dirty)) == StatusMessage(s)
  {
  }

  /**
   * Otherwise an error shows as "Error: ", then the first characters of the
   * error (at most 50 of them), then "..." whatever the error's length.
   */
  lemma ErrorMessageIsExcerpt(s: FileSession.Session)
    requires !s.isLoading && Truthy(s.error)
    ensures
      var m := StatusMessage(s);
      && 10 <= |m| <= 10 + ErrorExcerpt
      && m[..7] == "Error: "
      && m[|m| - 3..] == "..."
      && m[7..|m| - 3] <= s.error.value
      && |m[7..|m| - 3]| == if |s.error.value| < ErrorExcerpt then |s.error.value| else ErrorExcerpt
  {
    var e := Take(s.error.value, ErrorExcerpt);
    var m := StatusMessage(s);
    assert m == "Error: " + e + "...";
    assert m[..7] == "Error: ";
    assert m[7..|m| - 3] == e;
    assert m[|m| - 3..] == "...";
  }

  /**
   * With no loading and no error, a document with a path shows the path's
   * base name (after its last '/' or '\'), marked "(Modificado) " when dirty.
   */
  lemma FileMessageIsBaseName(s: FileSession.Session)
    requires !s.isLoading && !Truthy(s.error) && Truthy(s.currentFilePath)
    ensures
      var m := StatusMessage(s);
      var mark := if s.isDirty then "(Modificado) " else "";
      && mark <= m
      && IsBaseName(m[|mark|..], s.currentFilePath.value, PathSeparators)
  {
    var mark := if s.isDirty then "(Modificado) " else "";
    var b := LastPart(s.currentFilePath.value, PathSeparators);
    LastPartIsBaseName(s.currentFilePath.value, PathSeparators);
    assert StatusMessage(s) == mark + b;
    assert (mark + b)[|mark|..] == b;
  }

  /** A document without a path is "Nuevo documento", or "Nuevo (Modificado)" when dirty. */
  lemma NewDocumentMessage(s: FileSession.Session)
    requires !s.isLoading && !Truthy(s.error) && !Truthy(s.currentFilePath)
    ensures StatusMessage(s) == if s.isDirty then "Nuevo (Modificado)" else "Nuevo documento"
    ensures StatusTitle(s) == "Nuevo documento"
  {
  }

  /** Right after createNewFile (and not loading) the bar reads "Nuevo (Modificado)". */
  lemma NewFileStatus(s: FileSession.Session)
    requires !s.isLoading
    ensures StatusMessage(FileSession.CreateNewFile(s)) == "Nuevo (Modificado)"
  {
  }
}
