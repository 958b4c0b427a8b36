/** The landing page's job-site collection: duplicate-checked creation with
    count-based ids, the name filter, and the two storage effects. */
module JobSites {
  import opened Wrappers
  import opened Records
  import opened Text
  import Seqs
  import Storage

  const DuplicateMessage := "A job site with this name already exists!"

  /** `jobSites.some(site => site.name.toLowerCase() === name.toLowerCase())`. */
  predicate IsDuplicate(sites: seq<JobSite>, name: string) {
    exists k | 0 <= k < |sites| :: Lower(sites[k].name) == Lower(name)
  }

  /** `{ ...newJobSite, id }`: the form's fields and the id; no `categoriesData` yet. */
  function NewSite(form: FormData, id: int): JobSite {
    JobSite(id, form.name, form.categories, form.status, None)
  }

  datatype CreateOutcome = Accepted(sites: seq<JobSite>) | DuplicateName

  /** The list `handleSave` leaves behind, or the duplicate-name rejection. */
  function Create(sites: seq<JobSite>, form: FormData): CreateOutcome {
    if IsDuplicate(sites, form.name) then DuplicateName
    else Accepted(sites + [NewSite(form, |sites| + 1)])
  }

  /** Creation is rejected exactly when some existing name equals the new one
      after lower-casing both; otherwise exactly one site is appended, carrying
      the form's fields and id `|sites| + 1`, and the earlier sites stay as they were. */
  lemma CreateSpec(sites: seq<JobSite>, form: FormData)
    ensures Create(sites, form).DuplicateName?
        <==> exists k | 0 <= k < |sites| :: Lower(sites[k].name) == Lower(form.name)
    ensures Create(sites, form).Accepted? ==>
      var r := Create(sites, form).sites;
      && |r| == |sites| + 1
      && r[..|sites|] == sites
      && r[|sites|].id == |sites| + 1
      && r[|sites|].name == form.name
      && r[|sites|].categories == form.categories
      && r[|sites|].status == form.status
      && r[|sites|].categoriesData == None
  {
  }

  /** Ids are exactly 1..n in list order. */
  ghost predicate IdsSequential(sites: seq<JobSite>) {
    forall k :: 0 <= k < |sites| ==> sites[k].id == k + 1
  }

  /** No two sites have the same name after lower-casing. */
  ghost predicate NamesDistinct(sites: seq<JobSite>) {
    forall i, j :: 0 <= i < j < |sites| ==> Lower(sites[i].name) != Lower(sites[j].name)
  }

  /** Sequential ids are pairwise different. */
  lemma SequentialIdsUnique(sites: seq<JobSite>)
    requires IdsSequential(sites)
    ensures forall i, j :: 0 <= i < j < |sites| ==> sites[i].id != sites[j].id
  {
  }

  /** An accepted creation turns ids 1..n into ids 1..n+1. */
  lemma CreateKeepsIdsSequential(sites: seq<JobSite>, form: FormData)
    requires IdsSequential(sites) && Create(sites, form).Accepted?
    ensures IdsSequential(Create(sites, form).sites)
  {
  }

  /** An accepted creation keeps the names pairwise distinct (case-insensitively). */
  lemma CreateKeepsNamesDistinct(sites: seq<JobSite>, form: FormData)
    requires NamesDistinct(sites) && Create(sites, form).Accepted?
    ensures NamesDistinct(Create(sites, form).sites)
  {
    var r := Create(sites, form).sites;
    forall i, j | 0 <= i < j < |r|
      ensures Lower(r[i].name) != Lower(r[j].name)
    {
      if j == |sites| {
        assert r[i] == sites[i];
      }
    }
  }

  /** A site is listed under query `q` when its lower-cased name contains the lower-cased `q`. */
  function NameMatches(query: string): JobSite -> bool {
    (site: JobSite) => Contains(Lower(site.name), Lower(query))
  }

  /** `filteredJobSites`. */
  function FilterByName(sites: seq<JobSite>, query: string): seq<JobSite> {
    Seqs.Filter(sites, NameMatches(query))
  }

  /** The filtered list is a subsequence of the list that holds exactly the
      matching sites, each as often as in the list. */
  lemma FilterByNameSpec(sites: seq<JobSite>, query: string)
    ensures Seqs.IsSubsequence(FilterByName(sites, query), sites)
    ensures forall k :: 0 <= k < |FilterByName(sites, query)| ==>
      Contains(Lower(FilterByName(sites, query)[k].name), Lower(query))
    ensures forall s :: multiset(FilterByName(sites, query))[s] ==
                        if Contains(Lower(s.name), Lower(query)) then multiset(sites)[s] else 0
  {
    Seqs.FilterIsSubsequence(sites, NameMatches(query));
    forall s
      ensures multiset(FilterByName(sites, query))[s] ==
              if Contains(Lower(s.name), Lower(query)) then multiset(sites)[s] else 0
    {
      Seqs.FilterMultiplicity(sites, NameMatches(query), s);
    }
  }

  /** An empty query lists every site. */
  lemma FilterByNameEmptyQuery(sites: seq<JobSite>)
    ensures FilterByName(sites, "") == sites
  {
    forall s | s in sites
      ensures NameMatches("")(s)
    {
      ContainsEmpty(Lower(s.name));
    }
    Seqs.FilterKeepsAll(sites, NameMatches(""));
  }

  /** Typing more of a query only narrows the list: if `q1` occurs in `q2`,
      the list for `q2` is a subsequence of the list for `q1`. */
  lemma FilterByNameNarrows(sites: seq<JobSite>, q1: string, q2: string)
    requires Contains(q2, q1)
    ensures Seqs.IsSubsequence(FilterByName(sites, q2), FilterByName(sites, q1))
  {
    LowerContains(q2, q1);
    forall s | s in sites && NameMatches(q2)(s)
      ensures NameMatches(q1)(s)
    {
      ContainsTransitive(Lower(s.name), Lower(q2), Lower(q1));
    }
    Seqs.FilterMonotone(sites, NameMatches(q2), NameMatches(q1));
  }

  /** The first two creations from an empty list: "Site A" gets id 1, and
      "site a" is then a duplicate. */
  lemma CreateScenario()
    ensures Create([], FormData("Site A", ["SidewalkShed"], "In Progress"))
         == Accepted([JobSite(1, "Site A", ["SidewalkShed"], "In Progress", None)])
    ensures Create([JobSite(1, "Site A", ["SidewalkShed"], "In Progress", None)],
                   FormData("site a", ["Scaffold"], "On Hold")).DuplicateName?
  {
    var one := [JobSite(1, "Site A", ["SidewalkShed"], "In Progress", None)];
    assert Lower("Site A") == "site a";
    assert Lower("site a") == "site a";
    assert Lower(one[0].name) == Lower("site a");
  }

  /** The job-site list page. `slot` is the persisted `jobSites` entry. */
  class JobSiteList {
    const slot: Storage.Slot
    var jobSites: seq<JobSite>
    var searchQuery: string
    var message: string
    var messageType: string

    constructor (slot: Storage.Slot)
      ensures this.slot == slot
      ensures jobSites == [] && searchQuery == "" && message == "" && messageType == "info"
    {
      this.slot := slot;
      jobSites, searchQuery := [], "";
      message, messageType := "", "info";
    }

    /** The mount effect: the stored list, or no sites when nothing is stored. */
    method LoadSaved()
      modifies this`jobSites
      ensures jobSites == Storage.Load(slot.stored)
      ensures slot.stored.None? ==> jobSites == []
    {
      jobSites := Storage.Load(slot.stored);
    }

    /** The `[jobSites]` effect: writes the whole list, but only a non-empty one. */
    method PersistIfNonEmpty()
      modifies slot
      ensures |jobSites| > 0 ==> slot.stored == Some(jobSites)
      ensures |jobSites| == 0 ==> slot.stored == old(slot.stored)
    {
      if |jobSites| > 0 {
        slot.stored := Some(jobSites);
      }
    }

    /** `handleSave`: a duplicate name leaves the list and raises the error
        message; any other name appends the new site with id `|jobSites| + 1`. */
    method Save(form: FormData)
      modifies this`jobSites, this`message, this`messageType
      ensures IsDuplicate(old(jobSites), form.name) ==>
        jobSites == old(jobSites) && message == DuplicateMessage && messageType == "error"
      ensures !IsDuplicate(old(jobSites), form.name) ==>
        jobSites == old(jobSites) + [NewSite(form, |old(jobSites)| + 1)]
        && message == old(message) && messageType == old(messageType)
      ensures Create(old(jobSites), form).Accepted? ==> jobSites == Create(old(jobSites), form).sites
      ensures IdsSequential(old(jobSites)) ==> IdsSequential(jobSites)
      ensures NamesDistinct(old(jobSites)) ==> NamesDistinct(jobSites)
    {
      if IsDuplicate(jobSites, form.name) {
        message, messageType := DuplicateMessage, "error";
        return;
      }
      CreateKeepsNamesDistinctIfHeld(jobSites, form);
      jobSites := jobSites + [NewSite(form, |jobSites| + 1)];
    }

    /** The search field's handler. */
    method SetSearchQuery(query: string)
      modifies this`searchQuery
      ensures searchQuery == query
    {
      searchQuery := query;
    }

    /** The rows the table shows. */
    function Filtered(): (r: seq<JobSite>)
      reads this
      ensures forall k :: 0 <= k < |r| ==> r[k] in jobSites && Contains(Lower(r[k].name), Lower(searchQuery))
    {
      FilterByName(jobSites, searchQuery)
    }
  }

  lemma CreateKeepsNamesDistinctIfHeld(sites: seq<JobSite>, form: FormData)
    requires Create(sites, form).Accepted?
    ensures NamesDistinct(sites) ==> NamesDistinct(Create(sites, form).sites)
  {
    if NamesDistinct(sites) {
      CreateKeepsNamesDistinct(sites, form);
    }
  }
}
