/** The creation dialog's form state (`jobSiteData`) and its handlers. */
module CreateForm {
  import opened Wrappers
  import opened Records
  import Text
  import Seqs

  /** One entry of `categoryOptions`. */
  datatype CategoryOption = CategoryOption(value: string, displayLabel: string, color: string)

  const CategoryOptions: seq<CategoryOption> := [
    CategoryOption("SidewalkShed", "Sidewalk Shed", "#4CAF50"),
    CategoryOption("Scaffold", "Scaffold", "#FFEE58"),
    CategoryOption("Shoring", "Shoring", "#9C27B0")
  ]

  /** The status values offered by the status select. */
  const StatusOptions: seq<string> := ["Completed", "In Progress", "On Hold"]

  /** The form as first shown and as reset after a save. */
  const EmptyForm := FormData("", [], "")

  /** The alert text used when the dialog is given no `message`. */
  const MissingFieldsAlert := "Please fill out all the fields!"

  /** `categoryOptions.find(opt => opt.value === value)`. */
  function FindOption(value: string): (r: Option<CategoryOption>)
    ensures r.Some? <==> value in {"SidewalkShed", "Scaffold", "Shoring"}
    ensures r.Some? ==> r.value in CategoryOptions && r.value.value == value
  {
    if value == CategoryOptions[0].value then Some(CategoryOptions[0])
    else if value == CategoryOptions[1].value then Some(CategoryOptions[1])
    else if value == CategoryOptions[2].value then Some(CategoryOptions[2])
    else None
  }

  /** The category vocabulary is closed: three options with distinct values. */
  lemma CategoryVocabulary()
    ensures (set o | o in CategoryOptions :: o.value) == {"SidewalkShed", "Scaffold", "Shoring"}
    ensures forall i, j :: 0 <= i < j < |CategoryOptions| ==> CategoryOptions[i].value != CategoryOptions[j].value
  {
    assert CategoryOptions[0].value == "SidewalkShed";
    assert CategoryOptions[1].value == "Scaffold";
    assert CategoryOptions[2].value == "Shoring";
  }

  /** The status vocabulary is closed: three distinct values. */
  lemma StatusVocabulary()
    ensures (set s | s in StatusOptions) == {"Completed", "In Progress", "On Hold"}
    ensures forall i, j :: 0 <= i < j < |StatusOptions| ==> StatusOptions[i] != StatusOptions[j]
  {
  }

  /** `isFormValid`: a name, at least one category and a status. */
  predicate IsFormValid(f: FormData) {
    f.name != "" && |f.categories| > 0 && f.status != ""
  }

  /** `isSelected(value)`. */
  predicate IsSelected(f: FormData, value: string) {
    value in f.categories
  }

  /** The filter predicate `category => category !== c`. */
  function OtherThan(c: string): string -> bool {
    x => x != c
  }

  /** `categories.filter(category => category !== c)`. */
  function WithoutCategory(categories: seq<string>, c: string): seq<string> {
    Seqs.Filter(categories, OtherThan(c))
  }

  /** Deleting a category removes every occurrence of it, keeps every other
      category as often as before, and keeps their order. */
  lemma DeleteCategoryExact(categories: seq<string>, c: string)
    ensures c !in WithoutCategory(categories, c)
    ensures Seqs.IsSubsequence(WithoutCategory(categories, c), categories)
    ensures forall x :: x != c ==> multiset(WithoutCategory(categories, c))[x] == multiset(categories)[x]
  {
    var r := WithoutCategory(categories, c);
    Seqs.FilterIsSubsequence(categories, OtherThan(c));
    forall x | x != c
      ensures multiset(r)[x] == multiset(categories)[x]
    {
      Seqs.FilterMultiplicity(categories, OtherThan(c), x);
    }
    Seqs.FilterMultiplicity(categories, OtherThan(c), c);
  }

  /** Deleting a category twice is deleting it once. */
  lemma DeleteCategoryIdempotent(categories: seq<string>, c: string)
    ensures WithoutCategory(WithoutCategory(categories, c), c) == WithoutCategory(categories, c)
  {
    Seqs.FilterIdempotent(categories, OtherThan(c));
  }

  /** Deleting a category that is not selected changes nothing. */
  lemma DeleteUnselected(categories: seq<string>, c: string)
    requires c !in categories
    ensures WithoutCategory(categories, c) == categories
  {
    Seqs.FilterKeepsAll(categories, OtherThan(c));
  }

  /** The value a multiple select reports: a comma-joined string (browser
      autofill) or the array of selected values. */
  datatype SelectValue = Joined(text: string) | Picked(values: seq<string>)

  /** `typeof value === 'string' ? value.split(',') : value`. */
  function SelectedCategories(v: SelectValue): seq<string> {
    match v
    case Joined(t) => Text.Split(t, ',')
    case Picked(vs) => vs
  }

  /** A joined value is split back into pieces that join to it, none holding a comma. */
  lemma SelectedCategoriesJoined(t: string)
    ensures Text.Join(SelectedCategories(Joined(t)), ',') == t
    ensures |SelectedCategories(Joined(t))| == Text.CountChar(t, ',') + 1
    ensures forall k :: 0 <= k < |SelectedCategories(Joined(t))| ==> ',' !in SelectedCategories(Joined(t))[k]
  {
    Text.JoinSplit(t, ',');
    Text.SplitLength(t, ',');
  }

  /** The text fields a change event can name: the name input uses
      `handleInputChange` (its `name` attribute is "name"), the status select
      sets `status` inline. */
  datatype TextField = NameField | StatusField

  /** `{ ...f, [field]: value }`. */
  function WithField(f: FormData, field: TextField, value: string): FormData {
    match field
    case NameField => f.(name := value)
    case StatusField => f.(status := value)
  }

  /** The creation dialog. `message` is the dialog's `message` property. */
  class JobSiteForm {
    const message: Option<string>
    var data: FormData

    constructor (message: Option<string>)
      ensures this.message == message && data == EmptyForm
    {
      this.message := message;
      data := EmptyForm;
    }

    /** `handleInputChange` and the status select's handler: only the named field changes. */
    method InputChange(field: TextField, value: string)
      modifies this`data
      ensures data == WithField(old(data), field, value)
      ensures field == NameField ==> data.name == value
      ensures field == StatusField ==> data.status == value
      ensures data.categories == old(data).categories
      ensures field != NameField ==> data.name == old(data).name
      ensures field != StatusField ==> data.status == old(data).status
    {
      data := WithField(data, field, value);
    }

    /** `handleCategoryChange`: replaces the categories, keeps name and status. */
    method CategoryChange(v: SelectValue)
      modifies this`data
      ensures data == old(data).(categories := SelectedCategories(v))
      ensures data.name == old(data).name && data.status == old(data).status
    {
      data := data.(categories := SelectedCategories(v));
    }

    /** `handleDeleteCategory(c)`: afterwards `c` is no longer selected and the
        other categories stay, in their order. */
    method DeleteCategory(c: string)
      modifies this`data
      ensures data == old(data).(categories := WithoutCategory(old(data).categories, c))
      ensures !IsSelected(data, c)
      ensures Seqs.IsSubsequence(data.categories, old(data).categories)
    {
      DeleteCategoryExact(data.categories, c);
      data := data.(categories := WithoutCategory(data.categories, c));
    }

    /** `handleSave`: a valid form is handed to `onSave` (the `saved` result)
        and reset; an invalid one raises the alert and stays as it is. */
    method Save() returns (saved: Option<FormData>, alert: Option<string>)
      modifies this`data
      ensures IsFormValid(old(data)) ==> saved == Some(old(data)) && alert == None && data == EmptyForm
      ensures !IsFormValid(old(data)) ==> saved == None && data == old(data)
      ensures !IsFormValid(old(data)) ==> alert == Some(AlertText(message))
    {
      if IsFormValid(data) {
        saved, alert := Some(data), None;
        data := EmptyForm;
      } else {
        saved, alert := None, Some(AlertText(message));
      }
    }
  }

  /** `message || 'Please fill out all the fields!'`. */
  function AlertText(message: Option<string>): (r: string)
    ensures r != ""
    ensures message.Some? && message.value != "" ==> r == message.value
    ensures message.None? || message.value == "" ==> r == MissingFieldsAlert
  {
    match message
    case Some(m) => if m != "" then m else MissingFieldsAlert
    case None => MissingFieldsAlert
  }

  /** A reset form is not valid, so a second save in a row never reaches `onSave`. */
  lemma ResetFormInvalid()
    ensures !IsFormValid(EmptyForm)
  {
  }

  /** A form whose categories were all one value becomes invalid when that value is deleted. */
  lemma DeleteOnlyCategoryInvalidates(f: FormData, c: string)
    requires forall k :: 0 <= k < |f.categories| ==> f.categories[k] == c
    ensures !IsFormValid(f.(categories := WithoutCategory(f.categories, c)))
  {
    Seqs.FilterRejectsAll(f.categories, OtherThan(c));
  }
}
