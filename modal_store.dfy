/**
 * The site's single modal store: one atom holds the active modal (drawer,
 * search, code or mermaid fullscreen) and its data, every view of it is
 * derived from that one value, and opening a modal locks the page's
 * scrolling through the body's `overflow` style.
 */
module ModalStore {
  import opened Common

  datatype ModalType = Drawer | Search | CodeFullscreen | MermaidFullscreen

  /**
   * The data a fullscreen modal shows; its shape is defined by the UI
   * store, which is not part of this model, so it is kept as text.
   */
  datatype FullscreenData = FullscreenData(payload: string)

  /** `{ type, data }`, with `null` types and data as `None`. */
  datatype ModalState = ModalState(kind: Option<ModalType>, data: Option<FullscreenData>)

  predicate IsDrawerOpen(m: ModalState) { m.kind == Some(Drawer) }
  predicate IsSearchOpen(m: ModalState) { m.kind == Some(Search) }
  predicate IsAnyModalOpen(m: ModalState) { m.kind.Some? }

  function CodeFullscreenData(m: ModalState): Option<FullscreenData> {
    if m.kind == Some(CodeFullscreen) then m.data else None
  }

  function MermaidFullscreenData(m: ModalState): Option<FullscreenData> {
    if m.kind == Some(MermaidFullscreen) then m.data else None
  }

  /**
   * The derived views agree with each other: at most one of drawer and
   * search is open, fullscreen data shows only while its own modal is
   * active, and something is open exactly when one of the four is.
   */
  lemma ViewsAgree(m: ModalState)
    ensures !(IsDrawerOpen(m) && IsSearchOpen(m))
    ensures CodeFullscreenData(m).Some? ==> m.kind == Some(CodeFullscreen) && MermaidFullscreenData(m).None?
    ensures MermaidFullscreenData(m).Some? ==> m.kind == Some(MermaidFullscreen)
    ensures IsAnyModalOpen(m) <==>
      IsDrawerOpen(m) || IsSearchOpen(m) || m.kind == Some(CodeFullscreen) || m.kind == Some(MermaidFullscreen)
  {
    if m.kind.Some? {
      match m.kind.value
      case Drawer =>
      case Search =>
      case CodeFullscreen =>
      case MermaidFullscreen =>
    }
  }

  class Modals {
    /** `$activeModal`. */
    var active: ModalState
    /** `document.body.style.overflow`. */
    var bodyOverflow: string
    /** Whether a `document` exists (false during server rendering). */
    const hasDocument: bool

    /** Nothing is open at first. */
    constructor(hasDocument: bool, bodyOverflow: string)
      ensures active == ModalState(None, None) && this.hasDocument == hasDocument && this.bodyOverflow == bodyOverflow
    {
      active := ModalState(None, None);
      this.hasDocument := hasDocument;
      this.bodyOverflow := bodyOverflow;
    }

    /** `openModal`: the given modal replaces whatever was open; a real modal locks scrolling. */
    method OpenModal(kind: Option<ModalType>, data: Option<FullscreenData>)
      modifies this
      ensures active == ModalState(kind, data)
      ensures bodyOverflow == if kind.Some? && hasDocument then "hidden" else old(bodyOverflow)
    {
      active := ModalState(kind, data);
      if kind.Some? && hasDocument {
        bodyOverflow := "hidden";
      }
    }

    /** `closeModal`: unlocks scrolling, then clears the active modal. */
    method CloseModal()
      modifies this
      ensures active == ModalState(None, None) && !IsAnyModalOpen(active)
      ensures bodyOverflow == if hasDocument then "" else old(bodyOverflow)
    {
      if hasDocument {
        bodyOverflow := "";
      }
      active := ModalState(None, None);
    }

    /** `toggleModal`: closes the modal when it is the active one, otherwise opens it without data. */
    method ToggleModal(kind: Option<ModalType>)
      modifies this
      ensures old(active.kind) == kind ==>
        active == ModalState(None, None) && bodyOverflow == (if hasDocument then "" else old(bodyOverflow))
      ensures old(active.kind) != kind ==>
        active == ModalState(kind, None) && bodyOverflow == (if kind.Some? && hasDocument then "hidden" else old(bodyOverflow))
    {
      if active.kind == kind {
        CloseModal();
      } else {
        OpenModal(kind, None);
      }
    }

    /** Toggling the same modal twice from a closed store closes it again. */
    method ToggleTwiceFromClosed(kind: ModalType)
      requires active.kind.None?
      modifies this
      ensures active == ModalState(None, None)
      ensures hasDocument ==> bodyOverflow == ""
    {
      ToggleModal(Some(kind));
      ToggleModal(Some(kind));
    }
  }
}
