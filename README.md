# Notepad2 renderer stores, modelled in Dafny

Notepad2 is an Electron note-taking application. Its renderer keeps its
state in small Zustand stores and derives a few strings from them in its
components. This project models that logic:

- the document-session store (`useFileStore`): open file, current and saved text, dirty flag, loading
  and error flags, project root and the flat directory listing;
- the mock authentication store (`useAuthStore`);
- the theme store (`useThemeStore`);
- the status bar's line count, character count and message;
- the note card's extension stripping;
- the outline sidebar's title, notebook/page selection and collapsible sections.

Every side effect goes through the Electron gateway (`window.electronAPI`).
Each gateway call is replaced by its reply, which is passed in as a parameter.
What a store asks the gateway for (the path to read, the write request, the
directory to list) is returned as a result, so it can be stated too.

Layout:

- `text.dfy`, module `JsText`: the JavaScript string conventions used throughout.
  These are truthiness, `||` defaults, `includes`, `startsWith`, `substring(0, n)`,
  and `split` on a one-character class with `[0]` and `pop()`. It also holds
  lemmas about `Split`.
- `file_session.dfy`, module `FileSession`: the document-session store as values.
  Each action is a function from the old state and the gateway reply to the new state.
  It also defines `Run`, which applies any sequence of actions.
- `file_store.dfy`, module `FileStore`: the same store as a class whose methods
  overwrite its fields. Each method is proved to reach the state that the
  matching `FileSession` function describes, and to keep the dirty flag consistent.
- `auth_store.dfy`, `theme_store.dfy`: the other two stores as classes.
- `status_bar.dfy`, `note_name.dfy`, `outline_sidebar.dfy`: the component derivations,
  plus the sidebar's own state (selection, section toggle) as classes.

Behaviour of the document-session store worth noting:

- `saveFileAs` treats a cancelled save dialog (no success, no path, no error) as a failure.
  It sets the error "Error al guardar como: Error al guardar como.".
- `openFile` without a truthy path asks the file picker for one.
- `saveCurrentFile` with no current path hands the gateway a null path, which makes the
  gateway show its save dialog.
- Neither save refreshes the directory listing.
- `createNewFile` sets the path to null. It takes no argument and returns nothing.
- The store keeps no active notebook and has no delete or notebook-creation action.
- `fetchFileSystemTree` never touches the open document, even when it sets a new project root.

## Model

| member | source | states |
|---|---|---|
| FileStore.Store.constructor | src/store/fileStore.ts:37-50 | The store starts as `FileSession.Initial`: sidebar open, empty listing, no paths, empty texts, clean, not loading, no error. |
| FileStore.Store.ToggleSidebar | src/store/fileStore.ts:39 | Flips `sidebarOpen` and changes nothing else; keeps the dirty invariant. |
| FileStore.Store.SetFileSystemTree | src/store/fileStore.ts:52 | Replaces the listing wholesale and changes nothing else. |
| FileStore.Store.SetCurrentDirectoryPath | src/store/fileStore.ts:53 | Sets the current directory and changes nothing else. |
| FileStore.Store.SetProjectRootPath | src/store/fileStore.ts:54 | Sets the project root and changes nothing else. |
| FileStore.Store.OpenFile | src/store/fileStore.ts:56-82 | Reads the path `FileSession.PathToRead` chooses (argument, else picker); returns none and changes nothing when both are falsy; the new state is `FileSession.OpenFile` of the old one and the dirty invariant holds. |
| FileStore.Store.UpdateCurrentFileContent | src/store/fileStore.ts:84-89 | The new state is `FileSession.UpdateCurrentFileContent` of the old one; the dirty invariant holds. |
| FileStore.Store.SaveCurrentFile | src/store/fileStore.ts:91-118 | Asks the gateway to write the current text to the current path, passed through as it was (null included); the new state is `FileSession.SaveCurrentFile` of the old one. |
| FileStore.Store.SaveFileAs | src/store/fileStore.ts:120-141 | Always asks the gateway to write with a null path; the new state is `FileSession.SaveFileAs` of the old one. |
| FileStore.Store.FetchFileSystemTree | src/store/fileStore.ts:143-175 | Lists the project root when the argument is omitted, the picker's folder for an explicit null, else the given path; the new state is `FileSession.FetchFileSystemTree` of the old one. |
| FileStore.Store.CreateNewFile | src/store/fileStore.ts:177-185 | The new state is `FileSession.CreateNewFile` of the old one; the dirty invariant holds. |
| FileSession.PathToRead | src/store/fileStore.ts:57-62 | A path is read iff the argument or the picked path is truthy; the argument wins when truthy; the path read is never empty. |
| FileSession.ToggleSidebar | src/store/fileStore.ts:39 | The sidebar flag flips and every other field is kept. |
| FileSession.SetFileSystemTree | src/store/fileStore.ts:52 | The listing becomes the given one and every other field is kept. |
| FileSession.SetCurrentDirectoryPath | src/store/fileStore.ts:53 | The current directory becomes the given one and every other field is kept. |
| FileSession.SetProjectRootPath | src/store/fileStore.ts:54 | The project root becomes the given one and every other field, the open document included, is kept. |
| FileSession.OpenFile | src/store/fileStore.ts:56-82 | Only the document fields, loading and error can change; a consistent dirty flag stays consistent; loading has ended whenever a read was made. |
| FileSession.UpdateCurrentFileContent | src/store/fileStore.ts:84-89 | The buffer is the new text, the dirty flag is consistent whatever it was before, and the saved text and path are kept. |
| FileSession.SaveCurrentFile | src/store/fileStore.ts:91-118 | The listing, both folders, the sidebar and the buffer are kept; loading has ended; a consistent dirty flag stays consistent. |
| FileSession.SaveFileAs | src/store/fileStore.ts:120-141 | The same guarantees as SaveCurrentFile for the save-as outcome. |
| FileSession.ListRequest | src/store/fileStore.ts:146-149 | The picker is asked for iff the argument is an explicit null, or it is omitted and there is no project root; an omitted argument lists the project root and a given path lists that path. |
| FileSession.FetchFileSystemTree | src/store/fileStore.ts:143-175 | The open document (path, buffer, saved text, dirty flag) and the sidebar are never touched, and loading always ends. |
| FileSession.CreateNewFile | src/store/fileStore.ts:177-185 | No path, dirty and consistently so; listing and project root kept. |
| FileSession.UpdateContentOutcome | src/store/fileStore.ts:84-89 | After an edit the buffer is the new text, `isDirty` holds iff it differs from the saved text, and no other field changes. |
| FileSession.RevertIsClean | src/store/fileStore.ts:84-89 | Typing back the saved text after any edit leaves the session clean. |
| FileSession.OpenFileOutcome | src/store/fileStore.ts:56-82 | A falsy path with a cancelled picker changes nothing. A read with content and a truthy path makes that file current: both texts equal the content, clean, not loading, no error, nothing else changed. Any other reply sets a non-empty error, ends loading and keeps everything else. |
| FileSession.SaveRequests | src/store/fileStore.ts:92-124 | Save-as always sends a null path; save sends the current path; both send the current text; after createNewFile the two requests coincide. |
| FileSession.SaveOutcome | src/store/fileStore.ts:91-141 | An accepted write (success and a truthy path) adopts the returned path, makes the captured text the saved text, and leaves the session clean with no error. It changes no other field. Any other reply sets a non-empty error, ends loading and keeps path, texts and dirty flag. |
| FileSession.SaveAsCancelSetsError | src/store/fileStore.ts:124-139 | A cancelled save-as dialog sets the error "Error al guardar como: Error al guardar como." and keeps the dirty flag. |
| FileSession.FetchOutcome | src/store/fileStore.ts:143-175 | An omitted argument lists the project root. Only the listing, directory, root, loading and error fields can change. A listing obtained through the picker makes its folder the root and the current directory; a listing of a known path keeps the root. Every failure empties the listing, sets a non-empty error and keeps both folders. |
| FileSession.CreateNewFileOutcome | src/store/fileStore.ts:177-185 | createNewFile leaves no path, the placeholder text, an empty saved text, dirty and no error; no other field (listing, folders, sidebar, loading) changes. |
| FileSession.ToggleSidebarTwice | src/store/fileStore.ts:39 | Toggling twice is the identity; one toggle flips the flag. |
| FileSession.ApplyKeepsDirtyConsistent | src/store/fileStore.ts:37-185 | Every action preserves `isDirty <==> currentFileContent != originalFileContent`. |
| FileSession.RunKeepsDirtyConsistent | src/store/fileStore.ts:37-185 | Any sequence of actions from a consistent state ends consistent. |
| FileSession.RunFromStartIsConsistent | src/store/fileStore.ts:37-50 | The store is consistent after any sequence of actions from start-up. |
| FileSession.EditsKeepBaseline | src/store/fileStore.ts:84-89 | A run of edits never changes the saved text or the path; the buffer holds the last edit, dirty iff it differs from the saved text. |
| StatusBar.LineCount | frontend/src/frontend/components/StatusBar/StatusBar.tsx:6 | 0 for empty content, otherwise the number of newlines plus one. |
| StatusBar.CharCount | frontend/src/frontend/components/StatusBar/StatusBar.tsx:7 | The content's length (0 when empty). |
| StatusBar.StatusMessage | frontend/src/frontend/components/StatusBar/StatusBar.tsx:9-14 | "Cargando..." while loading. The message is empty only when nothing is loading, there is no error, and the document is clean with a truthy path whose last character is a separator. |
| StatusBar.LoadingTakesPrecedence | frontend/src/frontend/components/StatusBar/StatusBar.tsx:10 | While loading the message is "Cargando..." whatever the error, path or dirty flag. |
| StatusBar.ErrorMessageIsExcerpt | frontend/src/frontend/components/StatusBar/StatusBar.tsx:11 | Otherwise an error shows "Error: ", the first min(50, length) characters of the error, then "...". |
| StatusBar.FileMessageIsBaseName | frontend/src/frontend/components/StatusBar/StatusBar.tsx:12 | With a path, the message is "(Modificado) " when dirty followed by the path's base name: the separator-free suffix after the last '/' or '\'. |
| StatusBar.NewDocumentMessage | frontend/src/frontend/components/StatusBar/StatusBar.tsx:13-18 | Without a path the message is "Nuevo (Modificado)" when dirty and "Nuevo documento" when clean; the title is "Nuevo documento". |
| StatusBar.StatusTitle | frontend/src/frontend/components/StatusBar/StatusBar.tsx:18 | The title is never empty: the whole path when it is truthy, "Nuevo documento" otherwise, whatever the loading and error flags. |
| StatusBar.NewFileStatus | frontend/src/frontend/components/StatusBar/StatusBar.tsx:13 | Right after createNewFile (not loading) the bar reads "Nuevo (Modificado)". |
| JsText.Split | frontend/src/frontend/components/StatusBar/StatusBar.tsx:6 | `split` always yields at least one piece (`"".split(sep)` is `[""]`). |
| JsText.FirstPart | frontend/src/frontend/store/useAuthStore.ts:63 | `split(sep)[0]` contains no separator. |
| JsText.LastPart | frontend/src/frontend/components/StatusBar/StatusBar.tsx:12 | `split(sep).pop()` is defined and contains no separator. |
| JsText.Includes | frontend/src/frontend/store/useAuthStore.ts:58 | `s.includes(t)` holds iff some window of s of t's length equals t. |
| JsText.StartsWith | frontend/src/frontend/store/useAuthStore.ts:133 | `s.startsWith(p)` holds iff s is at least as long as p and its first \|p\| characters are p. |
| JsText.SplitCount | frontend/src/frontend/components/StatusBar/StatusBar.tsx:6 | `split` yields one more piece than there are separators. |
| JsText.LastPartIsBaseName | frontend/src/frontend/components/StatusBar/StatusBar.tsx:12 | `split(...).pop()` is the separator-free suffix preceded by a separator or the start. |
| JsText.BaseNameUnique | frontend/src/frontend/components/StatusBar/StatusBar.tsx:12 | That characterisation determines the base name uniquely. |
| JsText.FirstPartIsHead | frontend/src/frontend/store/useAuthStore.ts:63 | `split('@')[0]` is the longest separator-free prefix: followed by a separator or the end. |
| JsText.JoinSplit | frontend/src/frontend/components/StatusBar/StatusBar.tsx:6 | Joining the pieces of a split with the separator gives back the string. |
| JsText.SplitJoin | frontend/src/frontend/components/StatusBar/StatusBar.tsx:6 | Splitting the join of separator-free pieces gives back the pieces. |
| JsText.OrElse | src/store/fileStore.ts:76 | `o \|\| fallback` is `o`'s value when `o` is truthy and the fallback otherwise, so it is non-empty when the fallback is. |
| JsText.Take | frontend/src/frontend/components/StatusBar/StatusBar.tsx:11 | `substring(0, n)` is a prefix of length min(n, length). |
| NoteName.ExtensionAt | frontend/src/frontend/components/NoteCard/NoteCard.tsx:13 | Where `\.[^/.]+$` can match: a dot with at least one character after it, and no later dot. |
| NoteName.ExtensionDot | frontend/src/frontend/components/NoteCard/NoteCard.tsx:13 | The dot it returns is a place where the pattern matches; it returns none only when the pattern matches nowhere. |
| NoteName.DotBefore | frontend/src/frontend/components/NoteCard/NoteCard.tsx:13 | The scan only finds a dot that has at least one character after it. |
| NoteName.ExtensionDotIsMatch | frontend/src/frontend/components/NoteCard/NoteCard.tsx:13 | The scan finds index i iff `\.[^/.]+$` matches at i, and finds nothing iff it matches nowhere. |
| NoteName.StripExtension | frontend/src/frontend/components/NoteCard/NoteCard.tsx:13 | The result is a prefix of the name, strictly shorter iff an extension matched, and then cut at a dot. |
| NoteName.StripExtensionRemovesMatch | frontend/src/frontend/components/NoteCard/NoteCard.tsx:13 | Stripping removes exactly the matched extension, and nothing when there is no match. |
| NoteName.NoDotUnchanged | frontend/src/frontend/components/NoteCard/NoteCard.tsx:13 | A name without a dot is unchanged. |
| NoteName.StripIsNotIdempotent | frontend/src/frontend/components/NoteCard/NoteCard.tsx:13 | "a.tar.gz" becomes "a.tar", and stripping again gives "a". |
| NoteName.NoteCard | frontend/src/frontend/components/NoteCard/NoteCard.tsx:13-31 | The route id is the name with its extension stripped (`StripExtension`), the heading equals the id, the title is the full name, and the id is a prefix of the name. |
| OutlineSidebar.CurrentFileName | src/frontend/components/Sidebar/FileOutlineSidebar.tsx:72 | "Sin título" without a truthy path; otherwise a prefix of the path's last segment. |
| OutlineSidebar.CurrentFileNameIsStem | src/frontend/components/Sidebar/FileOutlineSidebar.tsx:72 | The name is the base name with the note-name extension stripped; it has no separator; it is shorter iff the base name has an extension. |
| OutlineSidebar.HeaderText | src/frontend/components/Sidebar/FileOutlineSidebar.tsx:94 | The header is never empty: the file name when it is non-empty, "Sin título" otherwise (no path, or a path whose stripped base name is empty). |
| OutlineSidebar.DotFileHeader | src/frontend/components/Sidebar/FileOutlineSidebar.tsx:72-94 | A file named ".md" strips to "" and so shows "Sin título". |
| OutlineSidebar.BaseNameIs | src/frontend/components/Sidebar/FileOutlineSidebar.tsx:72 | Any separator-free suffix preceded by a separator or the start is what `pop()` returns. |
| OutlineSidebar.SectionItemKind | src/frontend/components/Sidebar/FileOutlineSidebar.tsx:44 | Items are notebooks iff the section title is "Notbooks". |
| OutlineSidebar.IsHighlighted | src/frontend/components/Sidebar/FileOutlineSidebar.tsx:46 | An item is highlighted iff the active id is present and equals its id. |
| OutlineSidebar.Selection.constructor | src/frontend/components/Sidebar/FileOutlineSidebar.tsx:67-68 | Nothing is selected at first. |
| OutlineSidebar.Selection.HandleItemClick | src/frontend/components/Sidebar/FileOutlineSidebar.tsx:75-87 | A notebook click selects it and clears the page, and vice versa; at most one is selected afterwards. |
| OutlineSidebar.Section.constructor | src/frontend/components/Sidebar/FileOutlineSidebar.tsx:26 | A section starts open. |
| OutlineSidebar.Section.Toggle | src/frontend/components/Sidebar/FileOutlineSidebar.tsx:31 | The header button flips `isOpen`. |
| ThemeStore.Toggled | frontend/src/store/themeStore.ts:17 | The toggled theme differs from the old one (dark to light, light to dark). |
| ThemeStore.ToggledTwice | frontend/src/store/themeStore.ts:16-17 | Toggling twice restores the theme. |
| ThemeStore.Store.constructor | frontend/src/store/themeStore.ts:15 | The theme starts dark. |
| ThemeStore.Store.ToggleTheme | frontend/src/store/themeStore.ts:16-17 | The theme becomes the other one. |
| ThemeStore.Store.SetTheme | frontend/src/store/themeStore.ts:18 | The theme is the given one whatever it was, so a repeated call changes nothing. |
| AuthStore.LoginAccepted | frontend/src/frontend/store/useAuthStore.ts:58 | An empty email or one containing "fail" is refused; every other email is accepted. |
| AuthStore.RegisterAccepted | frontend/src/frontend/store/useAuthStore.ts:89 | Registration accepts exactly the emails login accepts that do not contain "exist". |
| AuthStore.OAuthAccepted | frontend/src/frontend/store/useAuthStore.ts:133 | A token is accepted iff it begins with "simulated-oauth-token-". |
| AuthStore.OAuthUser | frontend/src/frontend/store/useAuthStore.ts:135-140 | The OAuth user carries the provider, no avatar, an email beginning with the provider, and a display name five characters longer than the provider. |
| AuthStore.DefaultDisplayName | frontend/src/frontend/store/useAuthStore.ts:63 | "User " followed by the email's text before its first '@' (the whole email without one). |
| AuthStore.LocalUser | frontend/src/frontend/store/useAuthStore.ts:59-67 | The local user carries the email, the "local" provider and the display name. |
| AuthStore.OAuthProvider | frontend/src/frontend/store/useAuthStore.ts:134 | "google" iff the token contains "google", else "github". |
| AuthStore.Capitalize | frontend/src/frontend/store/useAuthStore.ts:139 | Upper-cases the first character and keeps the rest. |
| AuthStore.OAuthDisplayName | frontend/src/frontend/store/useAuthStore.ts:133-140 | The OAuth user is "Google User" for tokens containing "google", otherwise "Github User". |
| AuthStore.Store.constructor | frontend/src/frontend/store/useAuthStore.ts:29-34 | No user or token, not authenticated, not loading, no error. |
| AuthStore.Store.SetUser | frontend/src/frontend/store/useAuthStore.ts:36 | Sets the user and `isAuthenticated == (user != null)`; nothing else changes. |
| AuthStore.Store.SetToken | frontend/src/frontend/store/useAuthStore.ts:37-46 | Sets the token only. |
| AuthStore.Store.SetIsLoading | frontend/src/frontend/store/useAuthStore.ts:47 | Sets the loading flag only. |
| AuthStore.Store.SetError | frontend/src/frontend/store/useAuthStore.ts:48 | Sets the error and always ends loading. |
| AuthStore.Store.ClearAuthError | frontend/src/frontend/store/useAuthStore.ts:49 | Clears the error and nothing else. |
| AuthStore.Store.Login | frontend/src/frontend/store/useAuthStore.ts:51-80 | Succeeds iff the email is non-empty and has no "fail". On success it signs in the local user with that email and a "mock-jwt-" token; the id and the token take separate time stamps. On failure there is no user and no token, and the error is the login message. Loading always ends, and `isAuthenticated` matches the user. |
| AuthStore.Store.Register | frontend/src/frontend/store/useAuthStore.ts:82-111 | Succeeds iff the email is non-empty and has neither "exist" nor "fail". The display name is the given truthy one, else the default. On failure there is no user and no token, and the error is the registration message. |
| AuthStore.Store.LoginWithGoogle | frontend/src/frontend/store/useAuthStore.ts:113-118 | Only starts loading and clears the error. |
| AuthStore.Store.LoginWithGitHub | frontend/src/frontend/store/useAuthStore.ts:120-123 | Only starts loading and clears the error. |
| AuthStore.Store.HandleOAuthToken | frontend/src/frontend/store/useAuthStore.ts:125-152 | A non-empty token with the "simulated-oauth-token-" prefix signs in the provider's mock user with a provider-specific token. Any other token leaves no user and no token, with the OAuth error. Loading ends either way. |
| AuthStore.Store.Logout | frontend/src/frontend/store/useAuthStore.ts:154-159 | No user, no token, not authenticated; loading and error untouched. |
| AuthStore.Store.LoadUserFromToken | frontend/src/frontend/store/useAuthStore.ts:161-181 | With no stored token nothing changes; with one only `isLoading` becomes true. |

## Left out

- The Electron main process, the auto-updater, and the gateway's own dialogs, reads, writes and listings are I/O. Their replies are parameters.
- A gateway call that throws is modelled as a reply without the expected fields. In `openFile`, both saves and the listing of a known path, the error text is then the same as the store's.
- `FileSession.FetchFileSystemTree`: in the folder-picker branch, a throw from `readDirectory` would give "Error al cargar archivos: " followed by the message. The model only has the failed-reply text there, which is the reply's error or "No se seleccionó una carpeta de proyecto." without that prefix.
- A throw from the file picker in `openFile`, which happens outside the store's error handling, is not modelled.
- Overlapping asynchronous actions: each action is atomic given its reply. The intermediate `isLoading = true` states are not observable in the model. The dirty invariant proved by `RunFromStartIsConsistent` depends on that atomicity: `saveCurrentFile` captures the buffer before the write and marks the document clean after it, so an edit made while a save is pending could leave `isDirty` false with a buffer that differs from the saved text.
- Each `Date.now()` reading in the mock ids and tokens is an opaque stamp parameter. `createdAt`/`updatedAt` dates and the simulated delays are left out.
- The theme store's local-storage persistence, all `console.log` output, and navigation (`navigate`, `encodeURIComponent`) are left out.
- React rendering, the sidebar's tab state and its fixed placeholder lists, and the editor pane (CodeMirror, marked, DOMPurify) are UI outside the model.
- `AuthStore.Store.LoadUserFromToken`: the store's stored token is hard-coded to null until secure storage exists. The model takes the stored token as a parameter, and only the null case is reachable today.
- `AuthStore.Capitalize`: `toUpperCase` is modelled for ASCII letters only. It is only ever applied to "google" and "github".
- `StatusBar.CharCount` and `JsText.Take`: lengths and substrings count characters, not UTF-16 code units.
