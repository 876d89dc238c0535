/**
 * The CMS edit-mode store: a boolean atom mirrored into the browser's
 * local storage under `cms-edit-mode`, initialised from the `edit` URL
 * parameter or the stored value.
 */
module CmsStore {
  import opened Common

  const EditModeKey := "cms-edit-mode"

  /** `String(b)`. */
  function BoolText(b: bool): string {
    if b then "true" else "false"
  }

  class EditModeStore {
    /** The `cmsEditMode` atom. */
    var editMode: bool
    /** The browser's local storage. */
    var storage: map<string, string>

    /** The atom starts off; local storage holds whatever earlier sessions left. */
    constructor(storage: map<string, string>)
      ensures !editMode && this.storage == storage
    {
      editMode := false;
      this.storage := storage;
    }

    /** The stored value agrees with the atom. */
    predicate Mirrored()
      reads this
    {
      EditModeKey in storage && storage[EditModeKey] == BoolText(editMode)
    }

    /**
     * `initCmsState`: nothing outside a browser; off when the CMS is
     * disabled; the `edit` parameter when it is `true` or `false`, stored
     * as well; otherwise whatever is stored, without writing.
     */
    method Init(hasWindow: bool, cmsEnabled: bool, editParam: Option<string>)
      modifies this
      ensures !hasWindow ==> editMode == old(editMode) && storage == old(storage)
      ensures hasWindow && !cmsEnabled ==> !editMode && storage == old(storage)
      ensures hasWindow && cmsEnabled && (editParam == Some("true") || editParam == Some("false")) ==>
        editMode == (editParam == Some("true")) && storage == old(storage)[EditModeKey := editParam.value]
      ensures hasWindow && cmsEnabled && editParam != Some("true") && editParam != Some("false") ==>
        editMode == (EditModeKey in old(storage) && old(storage)[EditModeKey] == "true") && storage == old(storage)
    {
      if !hasWindow {
        return;
      }
      if !cmsEnabled {
        editMode := false;
        return;
      }
      if editParam == Some("true") {
        editMode := true;
        storage := storage[EditModeKey := "true"];
      } else if editParam == Some("false") {
        editMode := false;
        storage := storage[EditModeKey := "false"];
      } else {
        editMode := EditModeKey in storage && storage[EditModeKey] == "true";
      }
    }

    /** `toggleEditMode`: flips the atom and stores the new value where storage exists. */
    method Toggle(hasStorage: bool)
      modifies this
      ensures editMode == !old(editMode)
      ensures storage == if hasStorage then old(storage)[EditModeKey := BoolText(editMode)] else old(storage)
      ensures hasStorage ==> Mirrored()
    {
      var newValue := !editMode;
      editMode := newValue;
      if hasStorage {
        storage := storage[EditModeKey := BoolText(newValue)];
      }
    }

    /** `enableEditMode`. */
    method Enable(hasStorage: bool)
      modifies this
      ensures editMode
      ensures storage == if hasStorage then old(storage)[EditModeKey := "true"] else old(storage)
      ensures hasStorage ==> Mirrored()
    {
      editMode := true;
      if hasStorage {
        storage := storage[EditModeKey := "true"];
      }
    }

    /** `disableEditMode`. */
    method Disable(hasStorage: bool)
      modifies this
      ensures !editMode
      ensures storage == if hasStorage then old(storage)[EditModeKey := "false"] else old(storage)
      ensures hasStorage ==> Mirrored()
    {
      editMode := false;
      if hasStorage {
        storage := storage[EditModeKey := "false"];
      }
    }

    /** An initialisation that writes leaves the store mirrored; one that only reads agrees with what was stored. */
    method InitThenMirrored(cmsEnabled: bool, editParam: Option<string>)
      modifies this
      ensures cmsEnabled && (editParam == Some("true") || editParam == Some("false")) ==> Mirrored()
      ensures cmsEnabled && old(Mirrored()) ==> Mirrored()
    {
      Init(true, cmsEnabled, editParam);
    }

    /** Toggling twice restores the mode and leaves it stored. */
    method ToggleTwice()
      modifies this
      ensures editMode == old(editMode) && Mirrored()
    {
      Toggle(true);
      Toggle(true);
    }
  }
}
