/**
 * The CMS dashboard's shared state: the active tab, the post-list
 * filters and sort, the query parameters sent to the post list, and
 * which post is open in the editor.
 */
module CmsDashboardState {
  import opened Common

  datatype Tab = Overview | Posts
  datatype SortField = ByDate | ByTitle | ByUpdated
  datatype SortOrder = Asc | Desc
  datatype StatusFilter = AllPosts | DraftPosts | PublishedPosts

  /** The post-list query: an absent filter is `undefined`. */
  datatype ListParams = ListParams(
    search: Option<string>,
    category: Option<string>,
    tag: Option<string>,
    status: Option<StatusFilter>,
    sort: SortField,
    order: SortOrder)

  datatype Toast = Success(message: string) | Failure(message: string)

  /** What `toggleDraft` settled with: the new draft flag, or a thrown value (an `Error` carries a message). */
  datatype ToggleOutcome = Toggled(draft: bool) | Threw(errorMessage: Option<string>)

  const DraftMessage := "Post marked as draft"
  const PublishedMessage := "Post published"
  const ToggleFailedMessage := "Failed to toggle draft status"

  /** `s || undefined` for a string. */
  function Filter(s: string): (r: Option<string>)
    ensures r.None? <==> s == ""
    ensures r.Some? ==> r.value == s
  {
    if s == "" then None else Some(s)
  }

  /**
   * The query parameters: empty text filters and the `all` status are left
   * out, the sort field and order are always sent.
   */
  function BuildParams(search: string, category: string, tag: string, status: StatusFilter,
                       sortField: SortField, sortOrder: SortOrder): (p: ListParams)
    ensures p.search.None? <==> search == ""
    ensures p.category.None? <==> category == ""
    ensures p.tag.None? <==> tag == ""
    ensures p.status.None? <==> status == AllPosts
    ensures p.search.Some? ==> p.search.value == search
    ensures p.category.Some? ==> p.category.value == category
    ensures p.tag.Some? ==> p.tag.value == tag
    ensures p.status.Some? ==> p.status.value == status
    ensures p.sort == sortField && p.order == sortOrder
  {
    ListParams(Filter(search), Filter(category), Filter(tag),
      if status == AllPosts then None else Some(status), sortField, sortOrder)
  }

  /** The opposite order. */
  function Flipped(o: SortOrder): (r: SortOrder)
    ensures r != o
  {
    if o == Asc then Desc else Asc
  }

  /** The sort after a click on `field`: the same field flips the order, another field sorts it descending. */
  function SortAfter(sortField: SortField, sortOrder: SortOrder, field: SortField): (r: (SortField, SortOrder))
    ensures r.0 == field
    ensures field == sortField ==> r.1 != sortOrder
    ensures field != sortField ==> r.1 == Desc
  {
    if field == sortField then (sortField, Flipped(sortOrder)) else (field, Desc)
  }

  /** Two clicks on the same field give back the sort it started from. */
  lemma SortTwiceRestores(sortField: SortField, sortOrder: SortOrder, field: SortField)
    requires field == sortField
    ensures var once := SortAfter(sortField, sortOrder, field);
      SortAfter(once.0, once.1, field) == (sortField, sortOrder)
  {
  }

  /** A click on a new field, then a second click on it, sorts that field ascending. */
  lemma SortNewFieldTwice(sortField: SortField, sortOrder: SortOrder, field: SortField)
    requires field != sortField
    ensures var once := SortAfter(sortField, sortOrder, field);
      SortAfter(once.0, once.1, field) == (field, Asc)
  {
  }

  class DashboardState {
    var activeTab: Tab
    var search: string
    var category: string
    var tag: string
    var status: StatusFilter
    var sortField: SortField
    var sortOrder: SortOrder
    var editingPostId: Option<string>
    var isCreateDialogOpen: bool
    /** How many times the post list has been refetched. */
    var refetches: nat
    var toasts: seq<Toast>

    /** The overview tab, no filters, every status, newest first, nothing open. */
    constructor()
      ensures activeTab == Overview && search == "" && category == "" && tag == "" && status == AllPosts
      ensures sortField == ByDate && sortOrder == Desc
      ensures editingPostId == None && !isCreateDialogOpen && refetches == 0 && toasts == []
    {
      activeTab := Overview;
      search := "";
      category := "";
      tag := "";
      status := AllPosts;
      sortField := ByDate;
      sortOrder := Desc;
      editingPostId := None;
      isCreateDialogOpen := false;
      refetches := 0;
      toasts := [];
    }

    /** The query the post list is fetched with. */
    function Params(): ListParams
      reads this
    {
      BuildParams(search, category, tag, status, sortField, sortOrder)
    }

    /** `handleSort`. */
    method HandleSort(field: SortField)
      modifies this
      ensures (sortField, sortOrder) == SortAfter(old(sortField), old(sortOrder), field)
      ensures activeTab == old(activeTab) && search == old(search) && category == old(category)
      ensures tag == old(tag) && status == old(status) && editingPostId == old(editingPostId)
      ensures isCreateDialogOpen == old(isCreateDialogOpen) && refetches == old(refetches) && toasts == old(toasts)
    {
      if field == sortField {
        sortOrder := if sortOrder == Asc then Desc else Asc;
      } else {
        sortField := field;
        sortOrder := Desc;
      }
    }

    /** Sorting twice by the current field leaves the sort as it was. */
    method HandleSortTwice()
      modifies this
      ensures sortField == old(sortField) && sortOrder == old(sortOrder)
      ensures Params() == old(Params())
    {
      var field := sortField;
      HandleSort(field);
      HandleSort(field);
    }

    method HandleEdit(postId: string)
      modifies this
      ensures editingPostId == Some(postId)
      ensures sortField == old(sortField) && sortOrder == old(sortOrder) && refetches == old(refetches)
      ensures Params() == old(Params()) && isCreateDialogOpen == old(isCreateDialogOpen) && toasts == old(toasts)
      ensures activeTab == old(activeTab)
    {
      editingPostId := Some(postId);
    }

    /**
     * `handleToggleDraft`: success reports the new state and refetches;
     * failure shows the error's message, or a generic one for a thrown
     * value that is not an `Error`, and does not refetch.
     */
    method HandleToggleDraft(outcome: ToggleOutcome)
      modifies this
      ensures outcome.Toggled? ==>
        toasts == old(toasts) + [Success(if outcome.draft then DraftMessage else PublishedMessage)] &&
        refetches == old(refetches) + 1
      ensures outcome.Threw? ==>
        toasts == old(toasts) + [Failure(if outcome.errorMessage.Some? then outcome.errorMessage.value else ToggleFailedMessage)] &&
        refetches == old(refetches)
      ensures editingPostId == old(editingPostId) && isCreateDialogOpen == old(isCreateDialogOpen)
      ensures Params() == old(Params())
      ensures activeTab == old(activeTab)
    {
      match outcome {
        case Toggled(draft) =>
          toasts := toasts + [Success(if draft then DraftMessage else PublishedMessage)];
          refetches := refetches + 1;
        case Threw(errorMessage) =>
          toasts := toasts + [Failure(if errorMessage.Some? then errorMessage.value else ToggleFailedMessage)];
      }
    }

    /** A newly created post is opened for editing once the list is refetched. */
    method HandlePostCreated(postId: string)
      modifies this
      ensures editingPostId == Some(postId) && refetches == old(refetches) + 1
      ensures Params() == old(Params()) && isCreateDialogOpen == old(isCreateDialogOpen) && toasts == old(toasts)
      ensures activeTab == old(activeTab)
    {
      refetches := refetches + 1;
      editingPostId := Some(postId);
    }

    /** Closing the editor clears the edited post and refetches. */
    method HandleEditorClose()
      modifies this
      ensures editingPostId == None && refetches == old(refetches) + 1
      ensures Params() == old(Params()) && isCreateDialogOpen == old(isCreateDialogOpen) && toasts == old(toasts)
      ensures activeTab == old(activeTab)
    {
      editingPostId := None;
      refetches := refetches + 1;
    }

    method OpenCreateDialog()
      modifies this
      ensures isCreateDialogOpen
      ensures Params() == old(Params()) && editingPostId == old(editingPostId) && refetches == old(refetches)
      ensures activeTab == old(activeTab) && toasts == old(toasts)
    {
      isCreateDialogOpen := true;
    }

    method CloseCreateDialog()
      modifies this
      ensures !isCreateDialogOpen
      ensures Params() == old(Params()) && editingPostId == old(editingPostId) && refetches == old(refetches)
      ensures activeTab == old(activeTab) && toasts == old(toasts)
    {
      isCreateDialogOpen := false;
    }
  }
}
