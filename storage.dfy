/** The browser's `localStorage["jobSites"]` entry, an abstract cell shared by
    the job-site list and the inventory dashboard. `None` is an absent entry. */
module Storage {
  import opened Wrappers
  import opened Records

  class Slot {
    var stored: Option<seq<JobSite>>

    constructor (initial: Option<seq<JobSite>>)
      ensures stored == initial
    {
      stored := initial;
    }
  }

  /** `JSON.parse(localStorage.getItem("jobSites")) || []`: an absent entry reads as no sites. */
  function Load(stored: Option<seq<JobSite>>): (sites: seq<JobSite>)
    ensures stored.None? ==> sites == []
    ensures stored.Some? ==> sites == stored.value
  {
    stored.GetOr([])
  }
}
