/**
 * The outline sidebar: the current file's title, the two collapsible
 * sections (notebooks and pages) with their open/closed state, and the
 * selection of one notebook or one page. The section contents are fixed
 * placeholder lists in the component and are not modelled.
 */
module OutlineSidebar {
  import opened JsText
  import NoteName

  datatype ItemKind = Notebook | Page

  /** The characters the path is split on, `/[\\/]/`. */
  const PathSeparators: set<char> := {'/', '\\'}

  /** The title shown when there is no file name. */
  const Untitled: string := "Sin título"

  /**
   * The kind a section reports for its items: notebooks only for the
   * section titled "Notbooks" (the spelling the sidebar uses), pages for
   * every other title.
   */
  function SectionItemKind(title: string): (k: ItemKind)
    ensures k == Notebook <==> title == "Notbooks"
  {
    if title == "Notbooks" then Notebook else Page
  }

  /** An item is highlighted when its id is the section's active id. */
  function IsHighlighted(itemId: string, activeItemId: Option<string>): (h: bool)
    ensures h <==> activeItemId.Some? && activeItemId.value == itemId
    ensures activeItemId.None? ==> !h
  {
    activeItemId == Some(itemId)
  }

  /**
   * `currentFileName`: for a truthy path, its last '/'- or '\'-separated
   * segment with the final extension removed; otherwise "Sin título".
   */
  function CurrentFileName(path: Option<string>): (name: string)
    ensures !Truthy(path) ==> name == Untitled
    ensures Truthy(path) ==> name <= LastPart(path.value, PathSeparators)
  {
    if Truthy(path) then NoteName.StripExtension(LastPart(path.value, PathSeparators)) else Untitled
  }

  /** The header shows `currentFileName || "Sin título"`: never empty. */
  function HeaderText(path: Option<string>): (h: string)
    ensures h != ""
    ensures CurrentFileName(path) != "" ==> h == CurrentFileName(path)
    ensures CurrentFileName(path) == "" ==> h == Untitled
    ensures !Truthy(path) ==> h == Untitled
  {
    var name := CurrentFileName(path);
    if name != "" then name else Untitled
  }

  /**
   * The current file name is the path's base name (the text after its last
   * separator) less the extension the note-name pattern removes; it never
   * contains a separator.
   */
  lemma CurrentFileNameIsStem(path: string)
    requires path != ""
    ensures
      var b := LastPart(path, PathSeparators);
      var n := CurrentFileName(Some(path));
      && IsBaseName(b, path, PathSeparators)
      && n == NoteName.StripExtension(b)
      && n <= b
      && Avoids(n, PathSeparators)
      && (|n| < |b| <==> exists i :: NoteName.ExtensionAt(b, i))
  {
    var b := LastPart(path, PathSeparators);
    LastPartIsBaseName(path, PathSeparators);
    NoteName.StripExtensionRemovesMatch(b);
  }

  /** A file whose whole base name is an extension gets the "Sin título" header. */
  lemma DotFileHeader()
    ensures LastPart("n/.md", PathSeparators) == ".md"
    ensures HeaderText(Some("n/.md")) == Untitled
  {
    LastPartIsBaseName("n/.md", PathSeparators);
    BaseNameIs("n/.md", ".md");
    assert NoteName.ExtensionAt(".md", 0);
    NoteName.ExtensionDotIsMatch(".md", 0);
  }

  lemma BaseNameIs(path: string, b: string)
    requires IsBaseName(b, path, PathSeparators)
    ensures LastPart(path, PathSeparators) == b
  {
    LastPartIsBaseName(path, PathSeparators);
    BaseNameUnique(b, LastPart(path, PathSeparators), path, PathSeparators);
  }

  /** The notebook and page selection: at most one of the two is set after any click. */
  class Selection {
    var activeNotebookId: Option<string>
    var activePageId: Option<string>

    ghost predicate Valid()
      reads this
    {
      activeNotebookId.None? || activePageId.None?
    }

    constructor ()
      ensures activeNotebookId == None && activePageId == None
      ensures Valid()
    {
      activeNotebookId := None;
      activePageId := None;
    }

    /** `handleItemClick(id, type)`: selecting one kind clears the other. */
    method HandleItemClick(id: string, kind: ItemKind)
      modifies this
      ensures Valid()
      ensures kind == Notebook ==> activeNotebookId == Some(id) && activePageId == None
      ensures kind == Page ==> activePageId == Some(id) && activeNotebookId == None
    {
      if kind == Notebook {
        activeNotebookId := Some(id);
        activePageId := None;
      } else {
        activePageId := Some(id);
        activeNotebookId := None;
      }
    }
  }

  /** One collapsible section; it starts open. */
  class Section {
    const title: string
    var isOpen: bool

    constructor (title: string)
      ensures this.title == title && isOpen
    {
      this.title := title;
      isOpen := true;
    }

    /** The header button flips the section between open and closed. */
    method Toggle()
      modifies this
      ensures isOpen == !old(isOpen)
    {
      isOpen := !isOpen;
    }
  }
}
