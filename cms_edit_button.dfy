/**
 * The edit button on post pages: which editor it offers, what it renders
 * in and out of edit mode, and what choosing a local editor does (records
 * the preference, then navigates to the editor URL).
 */
module CmsEditButton {
  import opened Common
  import opened CmsEditorUrl
  import opened CmsStore

  const DefaultContentPath := "src/content/blog"

  /** The first editor with the given id. */
  function FindById(editors: seq<EditorConfig>, id: string): (r: Option<EditorConfig>)
    ensures r.None? <==> forall i :: 0 <= i < |editors| ==> editors[i].id != id
    ensures r.Some? ==> exists i :: 0 <= i < |editors| && editors[i] == r.value && r.value.id == id &&
                          forall j :: 0 <= j < i ==> editors[j].id != id
  {
    if editors == [] then None
    else if editors[0].id == id then Some(editors[0])
    else
      var r := FindById(editors[1..], id);
      assert forall j :: 1 <= j < |editors| ==> editors[j] == editors[1..][j - 1];
      r
  }

  /** `getEditor`: the preferred editor when one is recorded and configured, else the default one. */
  function GetEditor(preferredEditorId: Option<string>, editors: seq<EditorConfig>): Option<EditorConfig> {
    if preferredEditorId.Some? && preferredEditorId.value != "" && FindById(editors, preferredEditorId.value).Some? then
      FindById(editors, preferredEditorId.value)
    else GetDefaultEditor(editors)
  }

  /**
   * A recorded preference naming a configured editor selects it; a
   * preference naming none, or no preference, falls back to the default.
   */
  lemma EditorChoice(preferredEditorId: Option<string>, editors: seq<EditorConfig>)
    ensures forall i :: 0 <= i < |editors| && preferredEditorId == Some(editors[i].id) && editors[i].id != "" ==>
      GetEditor(preferredEditorId, editors).Some? && GetEditor(preferredEditorId, editors).value.id == editors[i].id
    ensures preferredEditorId.None? || preferredEditorId == Some("") ||
      (forall i :: 0 <= i < |editors| ==> Some(editors[i].id) != preferredEditorId)
      ==> GetEditor(preferredEditorId, editors) == GetDefaultEditor(editors)
    ensures GetEditor(preferredEditorId, editors).Some? ==> GetEditor(preferredEditorId, editors).value in editors
    ensures GetEditor(preferredEditorId, editors).None? <==> editors == []
  {
    DefaultEditorChoice(editors);
    if preferredEditorId.Some? && FindById(editors, preferredEditorId.value).Some? {
      var i :| 0 <= i < |editors| && editors[i] == FindById(editors, preferredEditorId.value).value;
    }
  }

  /** What the button renders. */
  datatype View =
    | Nothing
    | HiddenEntry
    | EditMenu(current: Option<EditorConfig>, localEditors: seq<EditorConfig>)

  /**
   * Nothing before mounting or with the CMS disabled; the hidden entry
   * outside edit mode; in edit mode the menu, listing the local editors
   * only when there are some and a project path is configured.
   */
  function Render(mounted: bool, enabled: bool, editMode: bool, preferredEditorId: Option<string>,
                  editors: seq<EditorConfig>, localProjectPath: string): (v: View)
    ensures !mounted || !enabled ==> v == Nothing
    ensures mounted && enabled && !editMode ==> v == HiddenEntry
    ensures mounted && enabled && editMode ==> (v.EditMenu? && v.current == GetEditor(preferredEditorId, editors) &&
      v.localEditors == (if editors != [] && localProjectPath != "" then editors else []))
  {
    if !mounted || !enabled then Nothing
    else if !editMode then HiddenEntry
    else EditMenu(GetEditor(preferredEditorId, editors), if |editors| > 0 && localProjectPath != "" then editors else [])
  }

  class EditButton {
    const editors: seq<EditorConfig>
    const localProjectPath: string
    const contentRelativePath: string
    const postId: string
    /** The recorded preferred editor. */
    var preferredEditorId: Option<string>
    /** Where the window was sent, if anywhere. */
    var location: Option<string>
    var isEditorOpen: bool

    /** `contentRelativePath` is `src/content/blog` when the configuration gives none. */
    constructor(editors: seq<EditorConfig>, localProjectPath: string, contentRelativePath: Option<string>,
                postId: string, preferredEditorId: Option<string>)
      ensures this.editors == editors && this.localProjectPath == localProjectPath && this.postId == postId
      ensures this.contentRelativePath == if contentRelativePath.Some? then contentRelativePath.value else DefaultContentPath
      ensures this.preferredEditorId == preferredEditorId && location == None && !isEditorOpen
    {
      this.editors := editors;
      this.localProjectPath := localProjectPath;
      this.contentRelativePath := if contentRelativePath.Some? then contentRelativePath.value else DefaultContentPath;
      this.postId := postId;
      this.preferredEditorId := preferredEditorId;
      location := None;
      isEditorOpen := false;
    }

    /**
     * `handleEditorClick`: without a project path nothing happens;
     * otherwise the editor becomes the preferred one and the window goes
     * to its URL for the post's file, at line 1.
     */
    method HandleEditorClick(editor: EditorConfig)
      modifies this
      ensures isEditorOpen == old(isEditorOpen)
      ensures localProjectPath == "" ==> preferredEditorId == old(preferredEditorId) && location == old(location)
      ensures localProjectPath != "" ==> (preferredEditorId == Some(editor.id) &&
        location == Some(BuildEditorUrl(editor.urlTemplate, GetFullFilePath(localProjectPath, contentRelativePath, postId))))
    {
      if localProjectPath != "" {
        preferredEditorId := Some(editor.id);
        var filePath := GetFullFilePath(localProjectPath, contentRelativePath, postId);
        OpenInEditor(editor, filePath);
      }
    }

    /** `openInEditor`: the window goes to the editor's URL for the file, at line 1. */
    method OpenInEditor(editor: EditorConfig, filePath: string)
      modifies this
      ensures location == Some(BuildEditorUrl(editor.urlTemplate, filePath))
      ensures preferredEditorId == old(preferredEditorId) && isEditorOpen == old(isEditorOpen)
    {
      var url := BuildEditorUrl(editor.urlTemplate, filePath);
      location := Some(url);
    }

    /** `handleBrowserEdit`: opens the in-browser editor. */
    method HandleBrowserEdit()
      modifies this
      ensures isEditorOpen && preferredEditorId == old(preferredEditorId) && location == old(location)
    {
      isEditorOpen := true;
    }

    method CloseEditor()
      modifies this
      ensures !isEditorOpen && preferredEditorId == old(preferredEditorId) && location == old(location)
    {
      isEditorOpen := false;
    }

    /** `handleHiddenEntryClick`: turns edit mode on. */
    method HandleHiddenEntryClick(store: EditModeStore, hasStorage: bool)
      modifies store
      ensures store.editMode
      ensures hasStorage ==> store.Mirrored()
    {
      store.Enable(hasStorage);
    }

    /** After choosing a configured editor, the button offers that editor. */
    method ChosenEditorIsOffered(editor: EditorConfig)
      requires editor in editors && editor.id != ""
      requires localProjectPath != ""
      modifies this
      ensures GetEditor(preferredEditorId, editors).Some? && GetEditor(preferredEditorId, editors).value.id == editor.id
    {
      HandleEditorClick(editor);
      EditorChoice(preferredEditorId, editors);
    }
  }
}
