/**
 * The custom categories a user adds while creating a post: each has a
 * name and a slug, names are unique among the site's categories and the
 * ones already added, and the list is sent as the category mappings of
 * the create request.
 */
module CmsCustomCategories {
  import opened Common
  import opened CmsJson
  import CmsCategoryMapping

  datatype CustomCategory = CustomCategory(name: string, slug: string)

  const RequiredMessage := "Category name and slug are required"
  const ExistsMessage := "Category already exists"

  function Names(cs: seq<CustomCategory>): (r: seq<string>)
    ensures |r| == |cs| && forall i :: 0 <= i < |cs| ==> r[i] == cs[i].name
  {
    seq(|cs|, i requires 0 <= i < |cs| => cs[i].name)
  }

  predicate DistinctNames(cs: seq<CustomCategory>) {
    forall i, j :: 0 <= i < j < |cs| ==> cs[i].name != cs[j].name
  }

  /** The entries with another name, in order. */
  function WithoutName(cs: seq<CustomCategory>, name: string): (r: seq<CustomCategory>)
    ensures |r| <= |cs|
    ensures forall c :: c in r <==> c in cs && c.name != name
  {
    if cs == [] then []
    else (if cs[0].name == name then [] else [cs[0]]) + WithoutName(cs[1..], name)
  }

  /** Removing keeps names distinct. */
  lemma {:induction false} WithoutNameDistinct(cs: seq<CustomCategory>, name: string)
    requires DistinctNames(cs)
    ensures DistinctNames(WithoutName(cs, name))
  {
    if cs != [] {
      var rest := WithoutName(cs[1..], name);
      WithoutNameDistinct(cs[1..], name);
      forall k | 0 <= k < |rest| ensures rest[k].name != cs[0].name {
        assert rest[k] in cs[1..];
      }
    }
  }

  /** The category mappings sent for a list of custom categories: each name with its slug. */
  function MappingEntries(cs: seq<CustomCategory>): (r: Entries)
    ensures |r| == |cs| && forall i :: 0 <= i < |cs| ==> r[i] == (cs[i].name, Str(cs[i].slug))
    ensures Keys(r) == Names(cs)
  {
    seq(|cs|, i requires 0 <= i < |cs| => (cs[i].name, Str(cs[i].slug)))
  }

  /** A name and slug that are trimmed and non-empty, with a name no site category has. */
  predicate GoodEntry(c: CustomCategory, existing: seq<string>) {
    c.name != "" && IsTrimmed(c.name) && c.slug != "" && IsTrimmed(c.slug) && c.name !in existing
  }

  /**
   * The outcome of adding the typed name and slug: refused when either
   * is blank after trimming, or when the trimmed name is a site category
   * or already added; otherwise the trimmed pair.
   */
  function AddOutcome(existing: seq<string>, cs: seq<CustomCategory>, name: string, slug: string): (r: Result<CustomCategory>)
    ensures r.Err? ==> r.message == RequiredMessage || r.message == ExistsMessage
    ensures r.Err? && r.message == RequiredMessage <==> Trim(name) == "" || Trim(slug) == ""
    ensures r.Err? && r.message == ExistsMessage <==>
      Trim(name) != "" && Trim(slug) != "" && (Trim(name) in existing || Trim(name) in Names(cs))
    ensures r.Ok? ==> r.value == CustomCategory(Trim(name), Trim(slug)) && r.value.name !in Names(cs)
  {
    var trimmedName := Trim(name);
    var trimmedSlug := Trim(slug);
    if trimmedName == "" || trimmedSlug == "" then Err(RequiredMessage)
    else if trimmedName in existing || trimmedName in Names(cs) then Err(ExistsMessage)
    else Ok(CustomCategory(trimmedName, trimmedSlug))
  }

  /** An accepted entry keeps the list valid: trimmed, non-empty, and new. */
  lemma AcceptedIsNew(existing: seq<string>, cs: seq<CustomCategory>, name: string, slug: string)
    requires DistinctNames(cs)
    requires AddOutcome(existing, cs, name, slug).Ok?
    ensures var c := AddOutcome(existing, cs, name, slug).value;
      GoodEntry(c, existing) && DistinctNames(cs + [c])
  {
    var c := AddOutcome(existing, cs, name, slug).value;
    assert c.name !in Names(cs);
    var all := cs + [c];
    forall i, j | 0 <= i < j < |all| ensures all[i].name != all[j].name {
      assert all[i] == cs[i];
      if j == |cs| {
        assert Names(cs)[i] == cs[i].name;
      } else {
        assert all[j] == cs[j];
      }
    }
  }

  /** Every entry good and no name used twice. */
  predicate GoodList(cs: seq<CustomCategory>, existing: seq<string>) {
    DistinctNames(cs) && forall i :: 0 <= i < |cs| ==> GoodEntry(cs[i], existing)
  }

  /** Appending an accepted entry keeps a good list good. */
  lemma AcceptedKeepsGood(existing: seq<string>, cs: seq<CustomCategory>, name: string, slug: string)
    requires GoodList(cs, existing)
    requires AddOutcome(existing, cs, name, slug).Ok?
    ensures GoodList(cs + [AddOutcome(existing, cs, name, slug).value], existing)
  {
    AcceptedIsNew(existing, cs, name, slug);
    AppendGood(cs, AddOutcome(existing, cs, name, slug).value, existing);
  }

  lemma AppendGood(cs: seq<CustomCategory>, c: CustomCategory, existing: seq<string>)
    requires forall i :: 0 <= i < |cs| ==> GoodEntry(cs[i], existing)
    requires GoodEntry(c, existing)
    ensures forall i :: 0 <= i < |cs + [c]| ==> GoodEntry((cs + [c])[i], existing)
  {
  }

  class CustomCategories {
    const existingCategories: seq<string>
    /** The slug suggested for a typed name. */
    const generateSlug: string -> string
    var customCategories: seq<CustomCategory>
    var showCustomInput: bool
    var customName: string
    var customSlugValue: string
    /** The categories passed to `onCategoryAdded`, in order. */
    var added: seq<CustomCategory>
    /** The error toasts shown, in order. */
    var errors: seq<string>

    /** Every custom category has a trimmed non-empty name and slug, and no name is used twice or by a site category. */
    ghost predicate Valid()
      reads this
    {
      GoodList(customCategories, existingCategories)
    }

    constructor(existingCategories: seq<string>, generateSlug: string -> string)
      ensures this.existingCategories == existingCategories && this.generateSlug == generateSlug
      ensures customCategories == [] && !showCustomInput && customName == "" && customSlugValue == ""
      ensures added == [] && errors == []
      ensures Valid()
    {
      this.existingCategories := existingCategories;
      this.generateSlug := generateSlug;
      customCategories := [];
      showCustomInput := false;
      customName := "";
      customSlugValue := "";
      added := [];
      errors := [];
    }

    /** `resetInput`: clears the name and slug and hides the input; the list stays. */
    method ResetInput()
      modifies this
      ensures customName == "" && customSlugValue == "" && !showCustomInput
      ensures customCategories == old(customCategories) && added == old(added) && errors == old(errors)
    {
      customName := "";
      customSlugValue := "";
      showCustomInput := false;
    }

    /** `resetAll`: also empties the list. */
    method ResetAll()
      modifies this
      ensures customCategories == [] && customName == "" && customSlugValue == "" && !showCustomInput
      ensures added == old(added) && errors == old(errors)
      ensures Valid()
    {
      customCategories := [];
      ResetInput();
    }

    /** Typing a name suggests its generated slug. */
    method HandleCustomNameChange(name: string)
      modifies this
      ensures customName == name && customSlugValue == generateSlug(name)
      ensures customCategories == old(customCategories) && showCustomInput == old(showCustomInput)
      ensures added == old(added) && errors == old(errors)
    {
      customName := name;
      customSlugValue := generateSlug(name);
    }

    /** An edited slug is kept lower-cased with everything outside `[a-z0-9-]` deleted. */
    method HandleSlugChange(slug: string)
      modifies this
      ensures customSlugValue == CmsCategoryMapping.SanitizeSlug(slug) && CmsCategoryMapping.IsSlug(customSlugValue)
      ensures customName == old(customName) && customCategories == old(customCategories)
      ensures showCustomInput == old(showCustomInput) && added == old(added) && errors == old(errors)
    {
      customSlugValue := CmsCategoryMapping.SanitizeSlug(slug);
    }

    /**
     * `addCustomCategory`: on refusal the error is shown and nothing else
     * changes; on acceptance the category is appended, the input is
     * cleared and closed, and `onCategoryAdded` runs once.
     */
    method AddCustomCategory() returns (r: Option<CustomCategory>)
      requires Valid()
      modifies this
      ensures Valid()
      ensures var outcome := AddOutcome(existingCategories, old(customCategories), old(customName), old(customSlugValue));
        outcome.Err? ==>
          r == None && errors == old(errors) + [outcome.message] &&
          customCategories == old(customCategories) && customName == old(customName) &&
          customSlugValue == old(customSlugValue) && showCustomInput == old(showCustomInput) && added == old(added)
      ensures var outcome := AddOutcome(existingCategories, old(customCategories), old(customName), old(customSlugValue));
        outcome.Ok? ==>
          r == Some(outcome.value) && errors == old(errors) && customCategories == old(customCategories) + [outcome.value] &&
          customName == "" && customSlugValue == "" && !showCustomInput && added == old(added) + [outcome.value]
    {
      var outcome := AddOutcome(existingCategories, customCategories, customName, customSlugValue);
      if outcome.Err? {
        errors := errors + [outcome.message];
        r := None;
      } else {
        var newCategory := outcome.value;
        AcceptedKeepsGood(existingCategories, customCategories, customName, customSlugValue);
        var list := customCategories + [newCategory];
        assert GoodList(list, existingCategories);
        customCategories := list;
        customName := "";
        customSlugValue := "";
        showCustomInput := false;
        added := added + [newCategory];
        r := Some(newCategory);
      }
    }

    /** `removeCustomCategory`: drops every entry with that name and keeps the rest in order. */
    method RemoveCustomCategory(name: string)
      requires Valid()
      modifies this
      ensures customCategories == WithoutName(old(customCategories), name)
      ensures name !in Names(customCategories)
      ensures customName == old(customName) && customSlugValue == old(customSlugValue)
      ensures showCustomInput == old(showCustomInput) && added == old(added) && errors == old(errors)
      ensures Valid()
    {
      customCategories := WithoutName(customCategories, name);
      WithoutNameDistinct(old(customCategories), name);
      assert forall i :: 0 <= i < |customCategories| ==> customCategories[i] in old(customCategories);
    }

    method OpenCustomInput()
      modifies this
      ensures showCustomInput && customCategories == old(customCategories)
      ensures customName == old(customName) && customSlugValue == old(customSlugValue)
      ensures added == old(added) && errors == old(errors)
    {
      showCustomInput := true;
    }

    /** `closeCustomInput`: clears and hides the input and keeps the list. */
    method CloseCustomInput()
      modifies this
      ensures customName == "" && customSlugValue == "" && !showCustomInput
      ensures customCategories == old(customCategories) && added == old(added) && errors == old(errors)
    {
      ResetInput();
    }

    /**
     * `getCategoryMappings`: `undefined` for an empty list; otherwise each
     * name mapped to its slug, in list order.
     */
    method GetCategoryMappings() returns (r: Option<Entries>)
      ensures r.None? <==> customCategories == []
      ensures r.Some? && DistinctNames(customCategories) ==> r.value == MappingEntries(customCategories)
    {
      var mappings: Entries := [];
      var i := 0;
      while i < |customCategories|
        invariant 0 <= i <= |customCategories|
        invariant |mappings| == 0 <==> i == 0
        invariant DistinctNames(customCategories) ==> mappings == MappingEntries(customCategories[..i])
      {
        var cat := customCategories[i];
        if DistinctNames(customCategories) {
          assert cat.name !in Keys(mappings) by {
            assert Keys(mappings) == Names(customCategories[..i]);
          }
          assert customCategories[..i + 1] == customCategories[..i] + [cat];
        }
        mappings := Assign(mappings, cat.name, Str(cat.slug));
        i := i + 1;
      }
      assert customCategories[..i] == customCategories;
      r := if |mappings| > 0 then Some(mappings) else None;
    }
  }
}
