/**
 * The industry table: search by name or robot app id, the edit form with
 * its material list and dataset toggles, the blank-name check on save, and
 * the table after an industry is updated or deleted.
 */
module IndustryManagement {
  import opened Base
  import opened Strings
  import opened Seqs
  import opened Paging
  import opened IndustryService

  const MSG_NAME_REQUIRED := "行业名称不能为空"

  /** The name, or a non-empty app id, contains the term, both lower-cased. */
  predicate MatchesIndustry(i: Industry, term: string)
  {
    Contains(Lower(i.name), Lower(term))
    || (i.appId.Some? && i.appId.value != "" && Contains(Lower(i.appId.value), Lower(term)))
  }

  /** The search effect: the matching industries from page 1, or no change while none are loaded. */
  function SearchIndustries(all: seq<Industry>, term: string, view: ListView<Industry>): (r: ListView<Industry>)
    ensures all == [] ==> r == view
    ensures all != [] ==> r.page == 1 && IsSubseq(r.filtered, all)
    ensures all != [] ==> forall i :: i in r.filtered ==> MatchesIndustry(i, term)
    ensures all != [] ==> forall k :: 0 <= k < |all| && MatchesIndustry(all[k], term) ==> all[k] in r.filtered
    ensures all != [] ==> r.totalPages == TotalPages(|r.filtered|)
  {
    SearchView(all, i => MatchesIndustry(i, term), view)
  }

  /** Searching for an industry's own name finds it. */
  lemma SearchFindsName(all: seq<Industry>, k: int, view: ListView<Industry>)
    requires 0 <= k < |all|
    ensures all[k] in SearchIndustries(all, all[k].name, view).filtered
  {
    ContainsSelf(Lower(all[k].name));
  }

  datatype IndustryForm = IndustryForm(name: string, materialList: seq<string>, appId: string)

  /** "New industry" opens an empty form. */
  const EMPTY_FORM := IndustryForm("", [], "")

  /** "Edit" copies the industry, with an empty app id for a missing one. */
  function EditForm(i: Industry): (r: IndustryForm)
    ensures r.name == i.name && r.materialList == i.materialList
    ensures i.appId.Some? ==> r.appId == i.appId.value
    ensures i.appId.None? ==> r.appId == ""
  {
    IndustryForm(i.name, i.materialList, i.appId.GetOr(""))
  }

  /** Saving is refused, with a message, when the name is blank. */
  function CheckSave(f: IndustryForm): (r: Option<string>)
    ensures r.Some? <==> Trim(f.name) == []
    ensures r.Some? ==> r.value == MSG_NAME_REQUIRED
  {
    if Trim(f.name) == [] then Some(MSG_NAME_REQUIRED) else None
  }

  /** What an edited form sends as the update: an empty app id becomes null. */
  function UpdateOf(f: IndustryForm): (r: NewIndustry)
    ensures r == CreateIndustry(f.name, Some(f.materialList), Some(f.appId))
  {
    NewIndustry(f.name, f.materialList, if f.appId != "" then Some(f.appId) else None)
  }

  /** Editing an industry and saving it untouched sends back its own name, list and app id (a non-empty one). */
  lemma EditThenSaveKeepsIndustry(i: Industry)
    requires i.appId.Some? ==> i.appId.value != ""
    ensures CheckSave(EditForm(i)).None? ==> UpdateOf(EditForm(i)) == NewIndustry(i.name, i.materialList, i.appId)
  {
  }

  /**
   * Adding a material by hand: blank input changes nothing; otherwise the
   * id is appended unless already listed, and the input is cleared.
   */
  function AddMaterialToForm(f: IndustryForm, input: string): (r: (IndustryForm, string))
    ensures Trim(input) == [] ==> r == (f, input)
    ensures Trim(input) != [] ==> r.1 == [] && r.0 == f.(materialList := AppendUnique(f.materialList, input))
  {
    if Trim(input) == [] then (f, input)
    else (f.(materialList := AppendUnique(f.materialList, input)), [])
  }

  /** Materials added by hand never make a duplicate-free list hold a value twice. */
  lemma AddMaterialKeepsDistinct(f: IndustryForm, input: string)
    requires Distinct(f.materialList)
    ensures Distinct(AddMaterialToForm(f, input).0.materialList)
  {
    if Trim(input) != [] {
      AppendUniqueDistinct(f.materialList, input);
    }
  }

  /** Removing a material from the form drops every copy and keeps the rest in order. */
  function RemoveMaterialFromForm(f: IndustryForm, id: string): (r: IndustryForm)
    ensures r.name == f.name && r.appId == f.appId
    ensures id !in r.materialList
    ensures forall m :: m in f.materialList && m != id ==> m in r.materialList
    ensures multiset(r.materialList) == multiset(f.materialList)[id := 0]
    ensures IsSubseq(r.materialList, f.materialList)
  {
    f.(materialList := Remove(f.materialList, id))
  }

  /** Clicking a dataset: a selected one is removed, an unselected one appended. */
  function ToggleDataset(list: seq<string>, id: string): (r: seq<string>)
    ensures id in r <==> id !in list
    ensures id in list ==> r == Remove(list, id)
    ensures id !in list ==> r == list + [id]
  {
    if id in list then Remove(list, id) else list + [id]
  }

  /** Two clicks on an unselected dataset leave the list as it was. */
  lemma ToggleTwiceRestores(list: seq<string>, id: string)
    requires id !in list
    ensures ToggleDataset(ToggleDataset(list, id), id) == list
  {
    RemoveAppended(list, id);
  }

  /** Toggling keeps a duplicate-free list duplicate-free. */
  lemma ToggleKeepsDistinct(list: seq<string>, id: string)
    requires Distinct(list)
    ensures Distinct(ToggleDataset(list, id))
  {
    if id in list {
      var r := Remove(list, id);
      SubseqDistinct(r, list);
    }
  }

  /** Deleting an industry removes exactly the rows with its id from the full and the filtered list. */
  function DeleteFromLists(all: seq<Industry>, filtered: seq<Industry>, id: string): (r: (seq<Industry>, seq<Industry>))
    ensures forall i :: i in r.0 ==> i.id != id
    ensures forall i :: i in r.1 ==> i.id != id
    ensures forall k :: 0 <= k < |all| && all[k].id != id ==> all[k] in r.0
    ensures forall k :: 0 <= k < |filtered| && filtered[k].id != id ==> filtered[k] in r.1
    ensures IsSubseq(r.0, all) && IsSubseq(r.1, filtered)
  {
    (Filter((i: Industry) => i.id != id, all), Filter((i: Industry) => i.id != id, filtered))
  }

  /** After an update the row with the updated id is replaced; every other row stays where it was. */
  function ReplaceUpdated(all: seq<Industry>, updated: Industry): (r: seq<Industry>)
    ensures |r| == |all|
    ensures forall k :: 0 <= k < |all| && all[k].id == updated.id ==> r[k] == updated
    ensures forall k :: 0 <= k < |all| && all[k].id != updated.id ==> r[k] == all[k]
  {
    Map((i: Industry) => if i.id == updated.id then updated else i, all)
  }

  /** Updating the same industry twice keeps only the second update. */
  lemma ReplaceUpdatedTwice(all: seq<Industry>, a: Industry, b: Industry)
    requires a.id == b.id
    ensures ReplaceUpdated(ReplaceUpdated(all, a), b) == ReplaceUpdated(all, b)
  {
  }
}
