/** The report page: a form of eight text fields edited one field at a time,
    a photo slot filled by an upload, and a submit that stores the form as a
    new found item awaiting review. */
module Report {
  import opened Entities
  import opened Store

  /** The categories a finder may pick, in the order the page lists them. */
  const Categories: seq<string> := [
    "Electronics", "Clothing", "Books", "Accessories",
    "Sports Equipment", "Keys", "ID/Cards", "Other"]

  /** The category list is eight distinct, non-empty names. */
  lemma CategoriesFixed()
    ensures |Categories| == 8
    ensures forall i, j :: 0 <= i < j < |Categories| ==> Categories[i] != Categories[j]
    ensures forall i :: 0 <= i < |Categories| ==> Categories[i] != ""
  {
  }

  datatype Field = ItemName | Category | Description | LocationFound
                 | DateFound | FinderName | FinderEmail | PhotoUrl

  datatype ReportForm = ReportForm(
    itemName: string, category: string, description: string, locationFound: string,
    dateFound: string, finderName: string, finderEmail: string, photoUrl: string)

  const EmptyForm := ReportForm("", "", "", "", "", "", "", "")

  /** `formData[field]`. */
  function Get(f: ReportForm, field: Field): (v: string) {
    match field
    case ItemName => f.itemName
    case Category => f.category
    case Description => f.description
    case LocationFound => f.locationFound
    case DateFound => f.dateFound
    case FinderName => f.finderName
    case FinderEmail => f.finderEmail
    case PhotoUrl => f.photoUrl
  }

  /** `{...f, [field]: v}`: that field becomes `v`, every other field is kept. */
  function Set(f: ReportForm, field: Field, v: string): (r: ReportForm)
    ensures Get(r, field) == v
    ensures forall g :: g != field ==> Get(r, g) == Get(f, g)
  {
    match field
    case ItemName => f.(itemName := v)
    case Category => f.(category := v)
    case Description => f.(description := v)
    case LocationFound => f.(locationFound := v)
    case DateFound => f.(dateFound := v)
    case FinderName => f.(finderName := v)
    case FinderEmail => f.(finderEmail := v)
    case PhotoUrl => f.(photoUrl := v)
  }

  /** Typing a field's current value again leaves the form as it was. */
  lemma SetSameValue(f: ReportForm, field: Field)
    ensures Set(f, field, Get(f, field)) == f
  {
  }

  /** Editing one field twice keeps only the last value. */
  lemma SetTwice(f: ReportForm, field: Field, a: string, b: string)
    ensures Set(Set(f, field, a), field, b) == Set(f, field, b)
  {
  }

  /** Edits to two different fields give the same form in either order. */
  lemma SetCommutes(f: ReportForm, g1: Field, v1: string, g2: Field, v2: string)
    requires g1 != g2
    ensures Set(Set(f, g1, v1), g2, v2) == Set(Set(f, g2, v2), g1, v1)
  {
  }

  /** The reset form is empty in every field. */
  lemma EmptyFormIsEmpty(field: Field)
    ensures Get(EmptyForm, field) == ""
  {
  }

  /** The form fields of a stored item; an absent description reads as "". */
  function FormOf(item: FoundItem): (f: ReportForm) {
    ReportForm(item.itemName, item.category,
               match item.description case Some(d) => d case None => "",
               item.locationFound, item.dateFound, item.finderName,
               item.finderEmail, item.photoUrl)
  }

  /** `{...formData, status: 'pending'}`: the record a submit creates. It
      carries every form field unchanged and is always pending. */
  function Submission(f: ReportForm): (item: FoundItem)
    ensures item.status == Pending
    ensures FormOf(item) == f
    ensures item.description.Some?
  {
    FoundItem(f.itemName, f.category, Some(f.description), f.locationFound,
              f.dateFound, f.finderName, f.finderEmail, f.photoUrl, Pending)
  }

  /** A stored submission gives back exactly the form it came from, so two
      different forms never produce the same record. */
  lemma SubmissionInjective(f: ReportForm, g: ReportForm)
    ensures Submission(f) == Submission(g) <==> f == g
  {
  }

  class ReportPage {
    var formData: ReportForm
    var isSubmitting: bool
    var isUploading: bool
    var submitted: bool

    constructor ()
      ensures formData == EmptyForm && !isSubmitting && !isUploading && !submitted
    {
      formData, isSubmitting, isUploading, submitted := EmptyForm, false, false, false;
    }

    /** `handleInputChange(field, value)`: exactly that field changes. */
    method HandleInputChange(field: Field, value: string)
      modifies this
      ensures formData == Set(old(formData), field, value)
      ensures isSubmitting == old(isSubmitting) && isUploading == old(isUploading)
      ensures submitted == old(submitted)
    {
      formData := Set(formData, field, value);
    }

    /** `handlePhotoUpload`: `uploaded` is the URL the upload call returned,
        or None when no file was chosen, in which case nothing changes.
        Otherwise only the photo field changes and uploading ends. */
    method HandlePhotoUpload(uploaded: Option<string>)
      modifies this
      ensures uploaded.None? ==> formData == old(formData) && isUploading == old(isUploading)
      ensures uploaded.Some? ==> formData == Set(old(formData), PhotoUrl, uploaded.value) && !isUploading
      ensures isSubmitting == old(isSubmitting) && submitted == old(submitted)
    {
      if uploaded.Some? {
        isUploading := true;
        formData := formData.(photoUrl := uploaded.value);
        isUploading := false;
      }
    }

    /** The remove-photo button: the photo field becomes "" and nothing else changes. */
    method RemovePhoto()
      modifies this
      ensures formData.photoUrl == ""
      ensures forall g :: g != PhotoUrl ==> Get(formData, g) == Get(old(formData), g)
      ensures isSubmitting == old(isSubmitting) && isUploading == old(isUploading)
      ensures submitted == old(submitted)
    {
      HandleInputChange(PhotoUrl, "");
    }

    /** `handleSubmit`: store the form as a pending item, then show the
        confirmation. The form itself is kept until the finder resets it. */
    method HandleSubmit(store: EntityStore) returns (id: nat)
      requires store.Valid()
      modifies this, store
      ensures store.Valid()
      ensures id !in old(store.items)
      ensures store.items == old(store.items)[id := Submission(old(formData))]
      ensures store.claims == old(store.claims)
      ensures submitted && !isSubmitting
      ensures formData == old(formData) && isUploading == old(isUploading)
    {
      isSubmitting := true;
      id := store.CreateItem(Submission(formData));
      isSubmitting := false;
      submitted := true;
    }

    /** "Report Another Item": leave the confirmation and clear every field. */
    method ReportAnother()
      modifies this
      ensures !submitted && formData == EmptyForm
      ensures isSubmitting == old(isSubmitting) && isUploading == old(isUploading)
    {
      submitted := false;
      formData := EmptyForm;
    }
  }
}
