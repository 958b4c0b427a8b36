/** The records the three components exchange through the persisted slot. */
module Records {
  import opened Wrappers

  /** An item's quantity: a number when generated, the text typed into the
      edit dialog after an edit (the input hands over `e.target.value`). */
  datatype Quantity = Count(n: int) | Typed(text: string)

  /** One inventory row of a category. */
  datatype Item = Item(id: int, item: string, quantity: Quantity, description: string, notes: string)

  /** `categoriesData`: category name to that category's rows. */
  type CategoryData = map<string, seq<Item>>

  /** A stored job site; `categoriesData` is absent until a category is first saved. */
  datatype JobSite = JobSite(
    id: int,
    name: string,
    categories: seq<string>,
    status: string,
    categoriesData: Option<CategoryData>)

  /** The creation form's `jobSiteData`. */
  datatype FormData = FormData(name: string, categories: seq<string>, status: string)
}
