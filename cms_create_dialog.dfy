/**
 * The dialog that creates a post: the category selection, the custom
 * categories added on the spot, and the request sent on submit.
 */
module CmsCreateDialog {
  import opened Common
  import opened CmsJson
  import opened CmsCustomCategories
  import CmsFrontmatterEditor
  import CmsWrite
  import CmsCreate

  const SuccessMessage := "Post created successfully"

  datatype Toast = Success(message: string) | Failure(message: string)

  /** `list.filter(c => c !== x)`. */
  function Without(s: seq<string>, x: string): (r: seq<string>)
    ensures |r| <= |s|
    ensures forall y :: y in r <==> y in s && y != x
  {
    if s == [] then []
    else (if s[0] == x then [] else [s[0]]) + Without(s[1..], x)
  }

  lemma {:induction false} WithoutAbsent(s: seq<string>, x: string)
    requires x !in s
    ensures Without(s, x) == s
  {
    if s != [] {
      WithoutAbsent(s[1..], x);
      assert s == [s[0]] + s[1..];
    }
  }

  lemma {:induction false} WithoutAppend(s: seq<string>, t: seq<string>, x: string)
    ensures Without(s + t, x) == Without(s, x) + Without(t, x)
  {
    if s == [] {
      assert s + t == t;
    } else {
      assert (s + t)[0] == s[0] && (s + t)[1..] == s[1..] + t;
      WithoutAppend(s[1..], t, x);
    }
  }

  lemma {:induction false} WithoutMultiset(s: seq<string>, x: string)
    ensures multiset(Without(s, x)) == multiset(s)[x := 0]
  {
    if s != [] {
      var tail := s[1..];
      WithoutMultiset(tail, x);
      assert s == [s[0]] + tail;
      assert multiset(s) == multiset{s[0]} + multiset(tail);
      if s[0] == x {
        assert Without(s, x) == Without(tail, x);
        assert multiset(s)[x := 0] == multiset(tail)[x := 0];
      } else {
        assert Without(s, x) == [s[0]] + Without(tail, x);
        assert multiset(s)[x := 0] == multiset{s[0]} + multiset(tail)[x := 0];
      }
    }
  }

  /** `toggleCategory`: a selected category is removed (every copy), another one appended. */
  function Toggled(s: seq<string>, c: string): (r: seq<string>)
    ensures c in s ==> c !in r && forall y :: y != c ==> (y in r <==> y in s)
    ensures c !in s ==> r == s + [c]
  {
    if c in s then Without(s, c) else s + [c]
  }

  predicate Distinct(s: seq<string>) {
    forall i, j :: 0 <= i < j < |s| ==> s[i] != s[j]
  }

  /** Toggling a category that is not selected, then toggling it again, gives the selection back. */
  lemma ToggleTwiceUnselected(s: seq<string>, c: string)
    requires c !in s
    ensures Toggled(Toggled(s, c), c) == s
  {
    WithoutAppend(s, [c], c);
    WithoutAbsent(s, c);
    assert Without([c], c) == [];
  }

  /** Toggling a selected category twice keeps the rest of the selection in order and moves it to the end. */
  lemma ToggleTwiceSelected(s: seq<string>, c: string)
    requires c in s
    ensures Toggled(Toggled(s, c), c) == Without(s, c) + [c]
  {
  }

  /** A category of a selection without duplicates is in it once. */
  lemma {:induction false} DistinctOnce(s: seq<string>, c: string)
    requires Distinct(s) && c in s
    ensures multiset(s)[c] == 1
  {
    var tail := s[1..];
    assert s == [s[0]] + tail;
    assert Distinct(tail) by {
      forall i, j | 0 <= i < j < |tail| ensures tail[i] != tail[j] {
        assert tail[i] == s[i + 1] && tail[j] == s[j + 1];
      }
    }
    if s[0] == c {
      assert c !in tail by {
        forall j | 0 <= j < |tail| ensures tail[j] != c {
          assert tail[j] == s[j + 1] && s[0] != s[j + 1];
        }
      }
    } else {
      DistinctOnce(tail, c);
    }
  }

  /** Over a selection without duplicates, toggling twice gives back the same categories. */
  lemma ToggleTwiceSameCategories(s: seq<string>, c: string)
    requires Distinct(s)
    ensures multiset(Toggled(Toggled(s, c), c)) == multiset(s)
  {
    if c !in s {
      ToggleTwiceUnselected(s, c);
    } else {
      ToggleTwiceSelected(s, c);
      WithoutMultiset(s, c);
      DistinctOnce(s, c);
      assert multiset(s)[c := 0] + multiset{c} == multiset(s);
    }
  }

  /** What `getCategoryMappings` gives for a list of custom categories with distinct names. */
  function MappingsOf(cs: seq<CustomCategory>): Option<Entries> {
    if cs == [] then None else Some(MappingEntries(cs))
  }

  /** The request's properties in the order the dialog writes them. */
  function RequestEntries(title: Value, categories: Value, tags: Value, draft: Value, mappings: Value): Entries {
    [("title", title)] + ([("categories", categories)] + ([("tags", tags)] + ([("draft", draft)] + [("categoryMappings", mappings)])))
  }

  /** The selected categories, left out when there are none. */
  function CategoriesArg(selected: seq<string>): Value {
    if |selected| > 0 then Arr(CmsFrontmatterEditor.StrItems(selected)) else Undefined
  }

  function MappingsArg(mappings: Option<Entries>): Value {
    if mappings.Some? then Obj(mappings.value) else Undefined
  }

  /**
   * The create request sent on submit: the trimmed title, the selected
   * categories, the tags parsed from the comma list (each left out when
   * empty), the draft flag and the custom category mappings.
   */
  function SubmitRequest(title: string, selected: seq<string>, tags: string, draft: bool, mappings: Option<Entries>): Value {
    Obj(RequestEntries(Str(Trim(title)), CategoriesArg(selected), CmsFrontmatterEditor.TagField(tags), Bool(draft), MappingsArg(mappings)))
  }

  lemma FieldHead(k: string, v: Value, rest: Entries)
    ensures CmsWrite.Field(Obj([(k, v)] + rest), k) == v
  {
    assert Lookup([(k, v)] + rest, k) == Some(v);
  }

  lemma FieldSkip(k: string, v: Value, rest: Entries, j: string)
    requires j != k
    ensures CmsWrite.Field(Obj([(k, v)] + rest), j) == CmsWrite.Field(Obj(rest), j)
  {
    assert ([(k, v)] + rest)[1..] == rest;
    assert Lookup([(k, v)] + rest, j) == Lookup(rest, j);
  }

  lemma FieldTitle(title: Value, categories: Value, tags: Value, draft: Value, mappings: Value)
    ensures CmsWrite.Field(Obj(RequestEntries(title, categories, tags, draft, mappings)), "title") == title
  {
    var e1 := [("categories", categories)] + ([("tags", tags)] + ([("draft", draft)] + [("categoryMappings", mappings)]));
    FieldHead("title", title, e1);
  }

  lemma FieldCategories(title: Value, categories: Value, tags: Value, draft: Value, mappings: Value)
    ensures CmsWrite.Field(Obj(RequestEntries(title, categories, tags, draft, mappings)), "categories") == categories
  {
    var e2 := [("tags", tags)] + ([("draft", draft)] + [("categoryMappings", mappings)]);
    var e1 := [("categories", categories)] + e2;
    FieldSkip("title", title, e1, "categories");
    FieldHead("categories", categories, e2);
  }

  lemma FieldTags(title: Value, categories: Value, tags: Value, draft: Value, mappings: Value)
    ensures CmsWrite.Field(Obj(RequestEntries(title, categories, tags, draft, mappings)), "tags") == tags
  {
    var e3 := [("draft", draft)] + [("categoryMappings", mappings)];
    var e2 := [("tags", tags)] + e3;
    var e1 := [("categories", categories)] + e2;
    FieldSkip("title", title, e1, "tags");
    FieldSkip("categories", categories, e2, "tags");
    FieldHead("tags", tags, e3);
  }

  lemma FieldDraft(title: Value, categories: Value, tags: Value, draft: Value, mappings: Value)
    ensures CmsWrite.Field(Obj(RequestEntries(title, categories, tags, draft, mappings)), "draft") == draft
  {
    var e4: Entries := [("categoryMappings", mappings)];
    var e3 := [("draft", draft)] + e4;
    var e2 := [("tags", tags)] + e3;
    var e1 := [("categories", categories)] + e2;
    FieldSkip("title", title, e1, "draft");
    FieldSkip("categories", categories, e2, "draft");
    FieldSkip("tags", tags, e3, "draft");
    FieldHead("draft", draft, e4);
  }

  lemma FieldMappings(title: Value, categories: Value, tags: Value, draft: Value, mappings: Value)
    ensures CmsWrite.Field(Obj(RequestEntries(title, categories, tags, draft, mappings)), "categoryMappings") == mappings
  {
    var e5: Entries := [];
    var e4 := [("categoryMappings", mappings)] + e5;
    var e3 := [("draft", draft)] + e4;
    var e2 := [("tags", tags)] + e3;
    var e1 := [("categories", categories)] + e2;
    assert e4 == [("categoryMappings", mappings)];
    FieldSkip("title", title, e1, "categoryMappings");
    FieldSkip("categories", categories, e2, "categoryMappings");
    FieldSkip("tags", tags, e3, "categoryMappings");
    FieldSkip("draft", draft, e4, "categoryMappings");
    FieldHead("categoryMappings", mappings, e5);
  }

  /**
   * The create endpoint accepts the title exactly when the dialog's
   * trimmed title is non-empty, and then sees that trimmed title.
   */
  lemma RequestTitleRead(title: string, selected: seq<string>, tags: string, draft: bool, mappings: Option<Entries>)
    ensures var t := CmsWrite.Field(SubmitRequest(title, selected, tags, draft, mappings), "title");
      (t.Str? && Trim(t.s) != "" <==> Trim(title) != "") && (t.Str? ==> Trim(t.s) == Trim(title))
  {
    FieldTitle(Str(Trim(title)), CategoriesArg(selected), CmsFrontmatterEditor.TagField(tags), Bool(draft), MappingsArg(mappings));
    TrimTrimmed(Trim(title));
  }

  lemma TextsOfCategoriesArg(selected: seq<string>)
    ensures CmsCreate.Texts(if CategoriesArg(selected).Arr? then Some(CategoriesArg(selected).items) else None) == selected
  {
    if |selected| > 0 {
      var items := CmsFrontmatterEditor.StrItems(selected);
      assert CmsCreate.ItemTexts(items) == selected;
    }
  }

  /** The create endpoint sees the selected categories as the dialog held them. */
  lemma RequestCategoriesRead(title: string, selected: seq<string>, tags: string, draft: bool, mappings: Option<Entries>)
    ensures CmsCreate.Texts(CmsCreate.ArrayField(SubmitRequest(title, selected, tags, draft, mappings), "categories")) == selected
  {
    var req := SubmitRequest(title, selected, tags, draft, mappings);
    var cv := CategoriesArg(selected);
    FieldCategories(Str(Trim(title)), cv, CmsFrontmatterEditor.TagField(tags), Bool(draft), MappingsArg(mappings));
    assert CmsWrite.Field(req, "categories") == cv;
    TextsOfCategoriesArg(selected);
  }

  /** The create endpoint reads the draft flag as set exactly when the dialog's box is ticked. */
  lemma RequestDraftRead(title: string, selected: seq<string>, tags: string, draft: bool, mappings: Option<Entries>)
    ensures CmsWrite.Field(SubmitRequest(title, selected, tags, draft, mappings), "draft") != Bool(false) <==> draft
  {
    FieldDraft(Str(Trim(title)), CategoriesArg(selected), CmsFrontmatterEditor.TagField(tags), Bool(draft), MappingsArg(mappings));
  }

  /** Each custom category's name with its slug, in list order. */
  function NamesAndSlugs(cs: seq<CustomCategory>): (r: seq<(string, string)>)
    ensures |r| == |cs| && forall i :: 0 <= i < |cs| ==> r[i] == (cs[i].name, cs[i].slug)
  {
    seq(|cs|, i requires 0 <= i < |cs| => (cs[i].name, cs[i].slug))
  }

  lemma NewMappingsOfArg(cs: seq<CustomCategory>)
    ensures CmsCreate.NewMappings(MappingsArg(MappingsOf(cs))) == NamesAndSlugs(cs)
  {
    var mv := MappingsArg(MappingsOf(cs));
    var got := CmsCreate.NewMappings(mv);
    assert |got| == |cs|;
    forall i | 0 <= i < |cs| ensures got[i] == (cs[i].name, cs[i].slug) {
      assert mv.entries[i] == (cs[i].name, Str(cs[i].slug));
    }
  }

  /** The create endpoint sees each custom category's name and slug. */
  lemma RequestMappingsRead(title: string, selected: seq<string>, tags: string, draft: bool, cs: seq<CustomCategory>)
    ensures CmsCreate.NewMappings(CmsWrite.Field(SubmitRequest(title, selected, tags, draft, MappingsOf(cs)), "categoryMappings"))
      == NamesAndSlugs(cs)
  {
    var req := SubmitRequest(title, selected, tags, draft, MappingsOf(cs));
    var mv := MappingsArg(MappingsOf(cs));
    FieldMappings(Str(Trim(title)), CategoriesArg(selected), CmsFrontmatterEditor.TagField(tags), Bool(draft), mv);
    assert CmsWrite.Field(req, "categoryMappings") == mv;
    NewMappingsOfArg(cs);
  }

  class CreatePostDialog {
    const categories: seq<string>
    const custom: CustomCategories
    /** The form values. */
    var title: string
    var selected: seq<string>
    var tags: string
    var draft: bool
    /** How many times `onClose` has run. */
    var closes: nat
    /** The post ids passed to `onCreated`, in order. */
    var created: seq<string>
    /** Every create request sent, in order. */
    var requests: seq<Value>
    var toasts: seq<Toast>

    /** The form opens empty, with `draft` on. */
    constructor(categories: seq<string>, generateSlug: string -> string)
      ensures this.categories == categories && fresh(custom) && custom.Valid()
      ensures custom.existingCategories == categories && custom.customCategories == []
      ensures title == "" && selected == [] && tags == "" && draft
      ensures closes == 0 && created == [] && requests == [] && toasts == []
    {
      this.categories := categories;
      custom := new CustomCategories(categories, generateSlug);
      title := "";
      selected := [];
      tags := "";
      draft := true;
      closes := 0;
      created := [];
      requests := [];
      toasts := [];
    }

    method ToggleCategory(category: string)
      modifies this
      ensures selected == Toggled(old(selected), category)
      ensures title == old(title) && tags == old(tags) && draft == old(draft)
      ensures closes == old(closes) && created == old(created) && requests == old(requests) && toasts == old(toasts)
    {
      if category in selected {
        selected := Without(selected, category);
      } else {
        selected := selected + [category];
      }
    }

    /** Adding a custom category also selects it. */
    method AddCustomCategory() returns (r: Option<CustomCategory>)
      requires custom.Valid()
      modifies this, custom
      ensures custom.Valid()
      ensures var outcome := AddOutcome(custom.existingCategories, old(custom.customCategories), old(custom.customName), old(custom.customSlugValue));
        (outcome.Ok? ==> (r == Some(outcome.value) && custom.customCategories == old(custom.customCategories) + [outcome.value] &&
          selected == old(selected) + [outcome.value.name])) &&
        (outcome.Err? ==> (r == None && custom.customCategories == old(custom.customCategories) && selected == old(selected)))
      ensures title == old(title) && tags == old(tags) && draft == old(draft)
      ensures closes == old(closes) && created == old(created) && requests == old(requests) && toasts == old(toasts)
    {
      r := custom.AddCustomCategory();
      if r.Some? {
        selected := selected + [r.value.name];
      }
    }

    /** Removing a custom category also drops it from the selection. */
    method HandleRemoveCustomCategory(name: string)
      requires custom.Valid()
      modifies this, custom
      ensures custom.Valid() && custom.customCategories == WithoutName(old(custom.customCategories), name)
      ensures selected == Without(old(selected), name) && name !in selected
      ensures title == old(title) && tags == old(tags) && draft == old(draft)
      ensures closes == old(closes) && created == old(created) && requests == old(requests) && toasts == old(toasts)
    {
      custom.RemoveCustomCategory(name);
      selected := Without(selected, name);
    }

    /** `handleClose`: the form and the custom categories are reset, then `onClose` runs. */
    method HandleClose()
      modifies this, custom
      ensures title == "" && selected == [] && tags == "" && draft
      ensures custom.Valid() && custom.customCategories == [] && !custom.showCustomInput
      ensures custom.customName == "" && custom.customSlugValue == ""
      ensures closes == old(closes) + 1 && created == old(created) && requests == old(requests) && toasts == old(toasts)
    {
      title := "";
      selected := [];
      tags := "";
      draft := true;
      custom.ResetAll();
      closes := closes + 1;
    }

    /**
     * `onSubmit`: sends the request; `outcome` is the created post's id or
     * the error the request failed with. Success closes the dialog and
     * reports the new post; failure only shows the error.
     */
    method OnSubmit(outcome: Result<string>)
      requires custom.Valid()
      modifies this, custom
      ensures requests == old(requests) + [SubmitRequest(old(title), old(selected), old(tags), old(draft), MappingsOf(old(custom.customCategories)))]
      ensures custom.Valid()
      ensures outcome.Ok? ==>
        toasts == old(toasts) + [Success(SuccessMessage)] && created == old(created) + [outcome.value] &&
        closes == old(closes) + 1 && title == "" && selected == [] && tags == "" && draft && custom.customCategories == []
      ensures outcome.Err? ==>
        toasts == old(toasts) + [Failure(outcome.message)] && created == old(created) && closes == old(closes) &&
        title == old(title) && selected == old(selected) && tags == old(tags) && draft == old(draft) &&
        custom.customCategories == old(custom.customCategories)
    {
      var mappings := custom.GetCategoryMappings();
      var request := SubmitRequest(title, selected, tags, draft, mappings);
      assert request == SubmitRequest(old(title), old(selected), old(tags), old(draft), MappingsOf(old(custom.customCategories)));
      requests := requests + [request];
      if outcome.Ok? {
        toasts := toasts + [Success(SuccessMessage)];
        HandleClose();
        assert requests == old(requests) + [request];
        created := created + [outcome.value];
      } else {
        toasts := toasts + [Failure(outcome.message)];
        assert unchanged(custom);
      }
    }
  }
}
