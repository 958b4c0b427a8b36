/** The per-site inventory page: seed rows for a category never saved, the
    item search, row replacement on edit, and the write-back of one category
    of one site into the persisted list. */
module Inventory {
  import opened Wrappers
  import opened Records
  import opened Text
  import Seqs
  import Storage
  import JobSites

  /** How many placeholder rows a category starts with. */
  const SeedCount := 5

  /** The random draws `Math.floor(Math.random() * 100)`, one per seed row. */
  predicate ValidDraws(draws: seq<int>) {
    |draws| == SeedCount && forall k :: 0 <= k < |draws| ==> 0 <= draws[k] < 100
  }

  /** `${category} Item ${i}`. */
  function ItemName(category: string, i: int): string {
    category + " Item " + IntToString(i)
  }

  /** Seed row number `i`, whose quantity is `draw + 1`. */
  function SeedItem(category: string, i: int, draw: int): Item {
    Item(i, ItemName(category, i), Count(draw + 1),
         "Description for " + ItemName(category, i), "Notes for " + ItemName(category, i))
  }

  /** The rows `generateDummyData(category)` returns for the given draws. */
  function SeedItems(category: string, draws: seq<int>): seq<Item>
    requires ValidDraws(draws)
  {
    seq(SeedCount, k requires 0 <= k < SeedCount => SeedItem(category, k + 1, draws[k]))
  }

  /** Five rows with ids 1..5 in order, templated on the category and the row
      number, with quantities between 1 and 100. */
  lemma SeedItemsShape(category: string, draws: seq<int>)
    requires ValidDraws(draws)
    ensures |SeedItems(category, draws)| == 5
    ensures forall k :: 0 <= k < 5 ==>
      var it := SeedItems(category, draws)[k];
      && it.id == k + 1
      && it.item == category + " Item " + NatToString(k + 1)
      && it.description == "Description for " + category + " Item " + NatToString(k + 1)
      && it.notes == "Notes for " + category + " Item " + NatToString(k + 1)
      && it.quantity.Count? && 1 <= it.quantity.n <= 100
  {
  }

  /** `generateDummyData`: the loop pushes row `i` for `i` from 1 to 5. */
  method GenerateDummyData(category: string, draws: seq<int>) returns (items: seq<Item>)
    requires ValidDraws(draws)
    ensures items == SeedItems(category, draws)
  {
    items := [];
    var i := 1;
    while i <= SeedCount
      invariant 1 <= i <= SeedCount + 1
      invariant |items| == i - 1
      invariant forall k :: 0 <= k < i - 1 ==> items[k] == SeedItem(category, k + 1, draws[k])
    {
      items := items + [SeedItem(category, i, draws[i - 1])];
      i := i + 1;
    }
  }

  /** `String(quantity)`. */
  function QuantityText(q: Quantity): string {
    match q
    case Count(n) => IntToString(n)
    case Typed(t) => t
  }

  /** The search predicate for an already lower-cased term: the term occurs in
      the lower-cased item, description, notes or quantity text. */
  predicate Matches(it: Item, term: string) {
    || Contains(Lower(it.item), term)
    || Contains(Lower(it.description), term)
    || Contains(Lower(it.notes), term)
    || Contains(Lower(QuantityText(it.quantity)), term)
  }

  /** A generated (numeric) quantity matches a term exactly when the term
      occurs in its decimal digits: lower-casing does not alter them. */
  lemma CountQuantityMatches(n: int, term: string)
    ensures Contains(Lower(QuantityText(Count(n))), term) <==> Contains(IntToString(n), term)
  {
    LowerIntToString(n);
  }

  function MatchesTerm(term: string): Item -> bool {
    (it: Item) => Matches(it, term)
  }

  /** `data.filter(...)` with the lower-cased search term. */
  function SearchItems(data: seq<Item>, term: string): seq<Item> {
    Seqs.Filter(data, MatchesTerm(Lower(term)))
  }

  /** The search result is a subsequence of the full rows that holds exactly
      the matching rows, each as often as in the rows. */
  lemma SearchSpec(data: seq<Item>, term: string)
    ensures Seqs.IsSubsequence(SearchItems(data, term), data)
    ensures forall k :: 0 <= k < |SearchItems(data, term)| ==> Matches(SearchItems(data, term)[k], Lower(term))
    ensures forall it :: multiset(SearchItems(data, term))[it] ==
                         if Matches(it, Lower(term)) then multiset(data)[it] else 0
  {
    Seqs.FilterIsSubsequence(data, MatchesTerm(Lower(term)));
    forall it
      ensures multiset(SearchItems(data, term))[it] ==
              if Matches(it, Lower(term)) then multiset(data)[it] else 0
    {
      Seqs.FilterMultiplicity(data, MatchesTerm(Lower(term)), it);
    }
  }

  /** Clearing the search box shows every row again. */
  lemma SearchEmptyTerm(data: seq<Item>)
    ensures SearchItems(data, "") == data
  {
    forall it | it in data
      ensures MatchesTerm(Lower(""))(it)
    {
      ContainsEmpty(Lower(it.item));
    }
    Seqs.FilterKeepsAll(data, MatchesTerm(Lower("")));
  }

  /** Search is monotone: if `s1` occurs in `s2`, the rows found for `s2` are
      a subsequence of the rows found for `s1`. */
  lemma SearchMonotone(data: seq<Item>, s1: string, s2: string)
    requires Contains(s2, s1)
    ensures Seqs.IsSubsequence(SearchItems(data, s2), SearchItems(data, s1))
  {
    var t1, t2 := Lower(s1), Lower(s2);
    LowerContains(s2, s1);
    forall it | it in data && MatchesTerm(t2)(it)
      ensures MatchesTerm(t1)(it)
    {
      if Contains(Lower(it.item), t2) {
        ContainsTransitive(Lower(it.item), t2, t1);
      } else if Contains(Lower(it.description), t2) {
        ContainsTransitive(Lower(it.description), t2, t1);
      } else if Contains(Lower(it.notes), t2) {
        ContainsTransitive(Lower(it.notes), t2, t1);
      } else {
        ContainsTransitive(Lower(QuantityText(it.quantity)), t2, t1);
      }
    }
    Seqs.FilterMonotone(data, MatchesTerm(t2), MatchesTerm(t1));
  }

  /** Searching the result of a search again for the same term changes nothing. */
  lemma SearchIdempotent(data: seq<Item>, term: string)
    ensures SearchItems(SearchItems(data, term), term) == SearchItems(data, term)
  {
    Seqs.FilterIdempotent(data, MatchesTerm(Lower(term)));
  }

  /** `data.map(item => item.id === edited.id ? edited : item)`. */
  function ReplaceById(data: seq<Item>, edited: Item): seq<Item> {
    seq(|data|, k requires 0 <= k < |data| => if data[k].id == edited.id then edited else data[k])
  }

  /** Ids are pairwise different. */
  ghost predicate UniqueIds(data: seq<Item>) {
    forall i, j :: 0 <= i < j < |data| ==> data[i].id != data[j].id
  }

  /** Row replacement keeps the length, every row with another id, and the
      ids; every row with the edited id becomes the edited row. */
  lemma ReplaceByIdSpec(data: seq<Item>, edited: Item)
    ensures |ReplaceById(data, edited)| == |data|
    ensures forall k :: 0 <= k < |data| && data[k].id != edited.id ==> ReplaceById(data, edited)[k] == data[k]
    ensures forall k :: 0 <= k < |data| && data[k].id == edited.id ==> ReplaceById(data, edited)[k] == edited
    ensures forall k :: 0 <= k < |data| ==> ReplaceById(data, edited)[k].id == data[k].id
  {
  }

  /** With unique ids, saving an edit of row `k` changes that row and no other. */
  lemma ReplaceByIdSingle(data: seq<Item>, edited: Item, k: nat)
    requires UniqueIds(data) && k < |data| && data[k].id == edited.id
    ensures ReplaceById(data, edited) == data[k := edited]
  {
  }

  /** Saving the same edit twice is saving it once. */
  lemma ReplaceByIdIdempotent(data: seq<Item>, edited: Item)
    ensures ReplaceById(ReplaceById(data, edited), edited) == ReplaceById(data, edited)
  {
  }

  /** Replacing rows keeps the ids unique. */
  lemma ReplaceByIdKeepsUniqueIds(data: seq<Item>, edited: Item)
    requires UniqueIds(data)
    ensures UniqueIds(ReplaceById(data, edited))
  {
  }

  /** `{ ...site.categoriesData, [key]: rows }`, an absent map read as `{}`. */
  function WithCategory(site: JobSite, key: string, rows: seq<Item>): JobSite {
    site.(categoriesData := Some(site.categoriesData.GetOr(map[])[key := rows]))
  }

  /** `savedJobSites.map(site => site.id === siteId ? {...} : site)`. */
  function WriteBack(sites: seq<JobSite>, siteId: int, key: string, rows: seq<Item>): seq<JobSite> {
    seq(|sites|, k requires 0 <= k < |sites| => if sites[k].id == siteId then WithCategory(sites[k], key, rows) else sites[k])
  }

  /** The write-back keeps the length and order of the list and every site with
      another id; in a site with the id, only `categoriesData[key]` changes:
      it becomes `rows`, every other key keeps its rows, and the other fields stay. */
  lemma WriteBackSpec(sites: seq<JobSite>, siteId: int, key: string, rows: seq<Item>)
    ensures |WriteBack(sites, siteId, key, rows)| == |sites|
    ensures forall k :: 0 <= k < |sites| && sites[k].id != siteId ==> WriteBack(sites, siteId, key, rows)[k] == sites[k]
    ensures forall k :: 0 <= k < |sites| && sites[k].id == siteId ==>
      var before, after := sites[k], WriteBack(sites, siteId, key, rows)[k];
      && after.id == before.id && after.name == before.name
      && after.categories == before.categories && after.status == before.status
      && after.categoriesData.Some?
      && key in after.categoriesData.value && after.categoriesData.value[key] == rows
      && after.categoriesData.value.Keys == before.categoriesData.GetOr(map[]).Keys + {key}
      && forall c :: c in before.categoriesData.GetOr(map[]) && c != key ==>
           after.categoriesData.value[c] == before.categoriesData.value[c]
  {
  }

  /** The write-back keeps every id and name, so the list's invariants survive it. */
  lemma WriteBackKeepsInvariants(sites: seq<JobSite>, siteId: int, key: string, rows: seq<Item>)
    ensures JobSites.IdsSequential(sites) ==> JobSites.IdsSequential(WriteBack(sites, siteId, key, rows))
    ensures JobSites.NamesDistinct(sites) ==> JobSites.NamesDistinct(WriteBack(sites, siteId, key, rows))
  {
    var r := WriteBack(sites, siteId, key, rows);
    assert forall k :: 0 <= k < |sites| ==> r[k].id == sites[k].id && r[k].name == sites[k].name;
  }

  /** The position `savedJobSites.find(site => site.id === siteId)` stops at. */
  function FindIndex(sites: seq<JobSite>, siteId: int): (r: Option<nat>)
    ensures r.Some? ==> r.value < |sites| && sites[r.value].id == siteId
    ensures r.Some? ==> forall j :: 0 <= j < r.value ==> sites[j].id != siteId
    ensures r.None? ==> forall j :: 0 <= j < |sites| ==> sites[j].id != siteId
  {
    if sites == [] then None
    else if sites[0].id == siteId then Some(0)
    else match FindIndex(sites[1..], siteId)
      case Some(i) => Some(i + 1)
      case None => None
  }

  /** `savedJobSites.find(site => site.id === siteId)`. */
  function Find(sites: seq<JobSite>, siteId: int): Option<JobSite> {
    match FindIndex(sites, siteId)
    case Some(i) => Some(sites[i])
    case None => None
  }

  /** With ids 1..n, the site with id `i` is the `i`-th one. */
  lemma FindSequential(sites: seq<JobSite>, i: int)
    requires JobSites.IdsSequential(sites) && 1 <= i <= |sites|
    ensures Find(sites, i) == Some(sites[i - 1])
  {
    assert sites[i - 1].id == i;
    JobSites.SequentialIdsUnique(sites);
  }

  /** A site just created by the list page is the one the dashboard finds by its id. */
  lemma CreatedSiteIsFound(sites: seq<JobSite>, form: FormData)
    requires JobSites.IdsSequential(sites) && JobSites.Create(sites, form).Accepted?
    ensures Find(JobSites.Create(sites, form).sites, |sites| + 1)
         == Some(JobSites.NewSite(form, |sites| + 1))
  {
    JobSites.CreateKeepsIdsSequential(sites, form);
    FindSequential(JobSites.Create(sites, form).sites, |sites| + 1);
  }

  /** The write-back does not move the site `find` stops at. */
  lemma WriteBackKeepsIndex(sites: seq<JobSite>, siteId: int, key: string, rows: seq<Item>)
    ensures FindIndex(WriteBack(sites, siteId, key, rows), siteId) == FindIndex(sites, siteId)
  {
    var r := WriteBack(sites, siteId, key, rows);
    assert forall k :: 0 <= k < |sites| ==> r[k].id == sites[k].id;
    var a, b := FindIndex(r, siteId), FindIndex(sites, siteId);
    if a.Some? && b.Some? {
      assert a.value == b.value;
    }
  }

  /** Reloading after a save: the site found by the saved id holds the saved
      rows under the saved category key. */
  lemma WriteBackThenFind(sites: seq<JobSite>, siteId: int, key: string, rows: seq<Item>)
    requires Find(sites, siteId).Some?
    ensures var found := Find(WriteBack(sites, siteId, key, rows), siteId);
            && found.Some? && found.value.categoriesData.Some?
            && key in found.value.categoriesData.value
            && found.value.categoriesData.value[key] == rows
  {
    WriteBackKeepsIndex(sites, siteId, key, rows);
  }

  /** The map key JavaScript uses for the selected category (`null` becomes "null"). */
  function CategoryKey(selected: Option<string>): string {
    match selected
    case Some(c) => c
    case None => "null"
  }

  /** The load effect's initialisation of a missing `categoriesData` to `{}`. */
  function WithCategoriesData(site: JobSite): (r: JobSite)
    ensures r.categoriesData.Some?
    ensures site.categoriesData.Some? ==> r == site
    ensures site.categoriesData.None? ==> r.categoriesData == Some(map[])
    ensures r.(categoriesData := site.categoriesData) == site
  {
    site.(categoriesData := Some(site.categoriesData.GetOr(map[])))
  }

  /** `categoriesData[selectedCategory] || generateDummyData(selectedCategory)`:
      the stored rows (even an empty list) or fresh seed rows. */
  function StoredOrSeed(site: JobSite, selected: Option<string>, draws: seq<int>): (r: seq<Item>)
    requires ValidDraws(draws)
    ensures var cd := site.categoriesData.GetOr(map[]);
            && (CategoryKey(selected) in cd ==> r == cd[CategoryKey(selected)])
            && (CategoryKey(selected) !in cd ==> r == SeedItems(CategoryKey(selected), draws))
  {
    var cd := site.categoriesData.GetOr(map[]);
    if CategoryKey(selected) in cd then cd[CategoryKey(selected)] else SeedItems(CategoryKey(selected), draws)
  }

  /** A category saved once is loaded from storage afterwards, whatever the draws. */
  lemma SavedCategoryIsNotReseeded(sites: seq<JobSite>, siteId: int, selected: Option<string>,
                                   rows: seq<Item>, draws: seq<int>)
    requires ValidDraws(draws) && Find(sites, siteId).Some?
    ensures var found := Find(WriteBack(sites, siteId, CategoryKey(selected), rows), siteId);
            found.Some? && StoredOrSeed(found.value, selected, draws) == rows
  {
    WriteBackThenFind(sites, siteId, CategoryKey(selected), rows);
  }

  /** Editing row `k` and saving, then reloading the same site and category,
      shows the rows as before with row `k` replaced by the edited one. */
  lemma EditThenReload(sites: seq<JobSite>, siteId: int, selected: Option<string>, data: seq<Item>,
                       k: nat, field: ItemField, value: string, draws: seq<int>)
    requires ValidDraws(draws) && Find(sites, siteId).Some? && UniqueIds(data) && k < |data|
    ensures var edited := WithItemField(data[k], field, value);
            var found := Find(WriteBack(sites, siteId, CategoryKey(selected), ReplaceById(data, edited)), siteId);
            found.Some? && StoredOrSeed(found.value, selected, draws) == data[k := edited]
  {
    var edited := WithItemField(data[k], field, value);
    ReplaceByIdSingle(data, edited, k);
    SavedCategoryIsNotReseeded(sites, siteId, selected, ReplaceById(data, edited), draws);
  }

  /** The fields of an item the edit dialog can change. */
  datatype ItemField = ItemText | QuantityField | DescriptionField | NotesField

  /** `{ ...item, [field]: value }`; a typed quantity is kept as text. */
  function WithItemField(it: Item, field: ItemField, value: string): (r: Item)
    ensures r.id == it.id
    ensures field != ItemText ==> r.item == it.item
    ensures field != QuantityField ==> r.quantity == it.quantity
    ensures field != DescriptionField ==> r.description == it.description
    ensures field != NotesField ==> r.notes == it.notes
    ensures field == ItemText ==> r.item == value
    ensures field == QuantityField ==> QuantityText(r.quantity) == value
    ensures field == DescriptionField ==> r.description == value
    ensures field == NotesField ==> r.notes == value
  {
    match field
    case ItemText => it.(item := value)
    case QuantityField => it.(quantity := Typed(value))
    case DescriptionField => it.(description := value)
    case NotesField => it.(notes := value)
  }

  /** The inventory page for the site whose route id is `jobSiteId`. */
  class Dashboard {
    const slot: Storage.Slot
    const jobSiteId: int
    var jobSite: Option<JobSite>
    var selectedCategory: Option<string>
    var data: seq<Item>
    var filteredData: seq<Item>
    var editingItem: Option<Item>

    /** The shown rows are always drawn, in order, from the full rows. */
    ghost predicate Valid()
      reads this
    {
      && Seqs.IsSubsequence(filteredData, data)
      && (jobSite.Some? ==> jobSite.value.categoriesData.Some?)
    }

    constructor (slot: Storage.Slot, jobSiteId: int)
      ensures Valid()
      ensures this.slot == slot && this.jobSiteId == jobSiteId
      ensures jobSite == None && selectedCategory == None
      ensures data == [] && filteredData == [] && editingItem == None
    {
      this.slot, this.jobSiteId := slot, jobSiteId;
      jobSite, selectedCategory := None, None;
      data, filteredData, editingItem := [], [], None;
    }

    /** The `[jobSiteId, selectedCategory]` effect: finds the site by id in the
        stored list; if found, shows its stored rows for the selected category
        or fresh seed rows; if not, reports it (`found` is false) and changes nothing. */
    method LoadSite(draws: seq<int>) returns (found: bool)
      requires Valid() && ValidDraws(draws)
      modifies this`jobSite, this`data, this`filteredData
      ensures Valid()
      ensures found == Find(Storage.Load(slot.stored), jobSiteId).Some?
      ensures found ==>
        var site := Find(Storage.Load(slot.stored), jobSiteId).value;
        && jobSite == Some(WithCategoriesData(site))
        && data == StoredOrSeed(site, selectedCategory, draws)
        && filteredData == data
      ensures !found ==> jobSite == old(jobSite) && data == old(data) && filteredData == old(filteredData)
    {
      var sites := Storage.Load(slot.stored);
      var hit := Find(sites, jobSiteId);
      found := hit.Some?;
      if found {
        var site := WithCategoriesData(hit.value);
        jobSite := Some(site);
        var categoryData;
        if CategoryKey(selectedCategory) in site.categoriesData.value {
          categoryData := site.categoriesData.value[CategoryKey(selectedCategory)];
        } else {
          categoryData := GenerateDummyData(CategoryKey(selectedCategory), draws);
        }
        data, filteredData := categoryData, categoryData;
        Seqs.SubsequenceReflexive(data);
      }
    }

    /** `handleCategoryClick`: selects the category and shows its rows as kept
        in the loaded site, or no rows. */
    method CategoryClick(category: string)
      requires Valid() && jobSite.Some?
      modifies this`selectedCategory, this`data, this`filteredData
      ensures Valid()
      ensures selectedCategory == Some(category)
      ensures var cd := jobSite.value.categoriesData.value;
              data == (if category in cd then cd[category] else [])
      ensures filteredData == data
    {
      selectedCategory := Some(category);
      var cd := jobSite.value.categoriesData.value;
      var categoryData := if category in cd then cd[category] else [];
      data, filteredData := categoryData, categoryData;
      Seqs.SubsequenceReflexive(data);
    }

    /** `handleSearch`: filters the full rows, never the previous result. */
    method Search(term: string)
      requires Valid()
      modifies this`filteredData
      ensures Valid()
      ensures filteredData == SearchItems(data, term)
    {
      filteredData := SearchItems(data, term);
      Seqs.FilterIsSubsequence(data, MatchesTerm(Lower(term)));
    }

    /** `handleClearCategory`: back to no selection and no rows. */
    method ClearCategory()
      requires Valid()
      modifies this`selectedCategory, this`data, this`filteredData
      ensures Valid()
      ensures selectedCategory == None && data == [] && filteredData == []
    {
      selectedCategory, data, filteredData := None, [], [];
    }

    /** `handleCellDoubleClick`: starts editing the shown row `row`. */
    method BeginEdit(row: nat)
      requires Valid() && row < |filteredData|
      modifies this`editingItem
      ensures Valid()
      ensures editingItem == Some(filteredData[row])
    {
      editingItem := Some(filteredData[row]);
    }

    /** `handleModalClose`: cancels the edit. */
    method CloseEditor()
      requires Valid()
      modifies this`editingItem
      ensures Valid()
      ensures editingItem == None
    {
      editingItem := None;
    }

    /** `handleInputChange(field, value)`: only that field of the edited item changes. */
    method InputChange(field: ItemField, value: string)
      requires Valid() && editingItem.Some?
      modifies this`editingItem
      ensures Valid()
      ensures editingItem == Some(WithItemField(old(editingItem).value, field, value))
    {
      editingItem := Some(WithItemField(editingItem.value, field, value));
    }

    /** `handleSave`: replaces the edited row in the full rows, shows them all,
        writes them into the stored list under this site and category (the
        whole list is rewritten), and closes the editor. */
    method SaveEdit()
      requires Valid() && editingItem.Some?
      modifies this`data, this`filteredData, this`editingItem, slot
      ensures Valid()
      ensures data == ReplaceById(old(data), old(editingItem).value)
      ensures filteredData == data
      ensures slot.stored == Some(WriteBack(Storage.Load(old(slot.stored)), jobSiteId, CategoryKey(selectedCategory), data))
      ensures editingItem == None
    {
      var updated := ReplaceById(data, editingItem.value);
      data, filteredData := updated, updated;
      Seqs.SubsequenceReflexive(data);
      var sites := Storage.Load(slot.stored);
      slot.stored := Some(WriteBack(sites, jobSiteId, CategoryKey(selectedCategory), updated));
      editingItem := None;
    }
  }
}
