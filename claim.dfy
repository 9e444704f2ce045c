/** The claim page: a search over the approved items by free text and
    category, and a claim dialog whose submit stores a pending claim request
    for the selected item. */
module Claim {
  import opened Text
  import opened Entities
  import opened Store
  import Report

  const AllCategories: string := "All Categories"

  /** The category choices of the filter, in the order the page lists them. */
  const ClaimCategories: seq<string> := [
    AllCategories, "Electronics", "Clothing", "Books", "Accessories",
    "Sports Equipment", "Keys", "ID/Cards", "Other"]

  /** The filter offers the pass-through choice followed by exactly the
      categories a finder can report, and the pass-through is not one of them. */
  lemma ClaimCategoriesMatchReport()
    ensures ClaimCategories == [AllCategories] + Report.Categories
    ensures AllCategories !in Report.Categories
  {
  }

  // ----- The search filter -----

  /** `matchesSearch`: the lower-cased term occurs in the lower-cased name,
      in the description when there is one, or in the location. */
  predicate MatchesSearch(item: FoundItem, term: string)
    ensures term == "" ==> MatchesSearch(item, term)
    ensures MatchesSearch(item, term) ==>
      || |term| <= |item.itemName|
      || (item.description.Some? && |term| <= |item.description.value|)
      || |term| <= |item.locationFound|
  {
    var t := Lower(term);
    || Includes(Lower(item.itemName), t)
    || (item.description.Some? && Includes(Lower(item.description.value), t))
    || Includes(Lower(item.locationFound), t)
  }

  /** `matchesCategory`: the pass-through choice accepts every item,
      any other choice only an exact match. */
  predicate MatchesCategory(item: FoundItem, selected: string)
  {
    selected == AllCategories || item.category == selected
  }

  /** An item is listed when it passes the search and the category test;
      the starting filter (empty term, pass-through category) keeps every item. */
  predicate Keeps(item: FoundItem, term: string, selected: string)
    ensures term == "" && selected == AllCategories ==> Keeps(item, term, selected)
    ensures Keeps(item, term, selected) ==> selected == AllCategories || item.category == selected
  {
    MatchesSearch(item, term) && MatchesCategory(item, selected)
  }

  /** `filteredItems`: the fetched rows that pass both tests. */
  function FilterItems(rows: seq<Stored<FoundItem>>, term: string, selected: string): (r: seq<Stored<FoundItem>>)
    ensures |r| <= |rows|
    ensures forall x :: x in r <==> x in rows && Keeps(x.entity, term, selected)
  {
    if rows == [] then []
    else if Keeps(rows[0].entity, term, selected) then [rows[0]] + FilterItems(rows[1..], term, selected)
    else FilterItems(rows[1..], term, selected)
  }

  /** `r` can be obtained from `s` by deleting elements: same relative order,
      nothing added. */
  ghost predicate IsSubsequence<T>(r: seq<T>, s: seq<T>)
    decreases |s|
  {
    if r == [] then true
    else if s == [] then false
    else (r[0] == s[0] && IsSubsequence(r[1..], s[1..])) || IsSubsequence(r, s[1..])
  }

  /** The filter only deletes rows; the ones it keeps stay in their order. */
  lemma {:induction false} FilterIsSubsequence(rows: seq<Stored<FoundItem>>, term: string, selected: string)
    ensures IsSubsequence(FilterItems(rows, term, selected), rows)
  {
    if rows != [] {
      var r := FilterItems(rows, term, selected);
      FilterIsSubsequence(rows[1..], term, selected);
      if Keeps(rows[0].entity, term, selected) {
        assert r[0] == rows[0] && r[1..] == FilterItems(rows[1..], term, selected);
      }
    }
  }

  /** The search test in terms of plain substrings, field by field. */
  lemma MatchesSearchMeaning(item: FoundItem, term: string)
    ensures MatchesSearch(item, term) <==>
      || IsSubstring(Lower(term), Lower(item.itemName))
      || (item.description.Some? && IsSubstring(Lower(term), Lower(item.description.value)))
      || IsSubstring(Lower(term), Lower(item.locationFound))
  {
    IncludesIsSubstring(Lower(item.itemName), Lower(term));
    IncludesIsSubstring(Lower(item.locationFound), Lower(term));
    if item.description.Some? {
      IncludesIsSubstring(Lower(item.description.value), Lower(term));
    }
  }

  /** An item without a description can match only through its name or location. */
  lemma NoDescriptionMatch(item: FoundItem, term: string)
    requires item.description.None?
    ensures MatchesSearch(item, term) <==>
      IsSubstring(Lower(term), Lower(item.itemName)) || IsSubstring(Lower(term), Lower(item.locationFound))
  {
    MatchesSearchMeaning(item, term);
  }

  /** The search ignores case: searching for an item's own name, written in
      any mix of upper and lower case, finds it. */
  lemma OwnNameMatches(item: FoundItem, term: string)
    requires Lower(term) == Lower(item.itemName)
    ensures MatchesSearch(item, term)
  {
  }

  /** With an empty term and the pass-through category nothing is filtered out. */
  lemma {:induction false} UnfilteredKeepsAll(rows: seq<Stored<FoundItem>>)
    ensures FilterItems(rows, "", AllCategories) == rows
  {
    if rows != [] {
      UnfilteredKeepsAll(rows[1..]);
    }
  }

  /** The items whose status is approved: what the page fetches. */
  function ApprovedItems(m: map<nat, FoundItem>): (a: map<nat, FoundItem>)
  {
    map id | id in m && m[id].status == Approved :: m[id]
  }

  /** Whatever the search, the page shows only approved items of the store,
      so a pending, rejected or claimed item never appears. */
  lemma OnlyApprovedShown(rows: seq<Stored<FoundItem>>, m: map<nat, FoundItem>, term: string, selected: string)
    requires Lists(rows, ApprovedItems(m))
    ensures forall x :: x in FilterItems(rows, term, selected) ==>
      x.id in m && m[x.id] == x.entity && x.entity.status == Approved
  {
  }

  // ----- The claim form -----

  datatype ClaimField = ClaimantName | ClaimantEmail | ClaimantPhone | ProofOfOwnership

  datatype ClaimForm = ClaimForm(
    claimantName: string, claimantEmail: string, claimantPhone: string, proofOfOwnership: string)

  const EmptyClaimForm := ClaimForm("", "", "", "")

  function GetClaimField(f: ClaimForm, field: ClaimField): (v: string) {
    match field
    case ClaimantName => f.claimantName
    case ClaimantEmail => f.claimantEmail
    case ClaimantPhone => f.claimantPhone
    case ProofOfOwnership => f.proofOfOwnership
  }

  /** `setClaimForm(prev => ({...prev, [field]: v}))`: one field changes. */
  function SetClaimField(f: ClaimForm, field: ClaimField, v: string): (r: ClaimForm)
    ensures GetClaimField(r, field) == v
    ensures forall g :: g != field ==> GetClaimField(r, g) == GetClaimField(f, g)
  {
    match field
    case ClaimantName => f.(claimantName := v)
    case ClaimantEmail => f.(claimantEmail := v)
    case ClaimantPhone => f.(claimantPhone := v)
    case ProofOfOwnership => f.(proofOfOwnership := v)
  }

  /** The claimant's part of a stored claim. */
  function ClaimFormOf(c: ClaimRequest): (f: ClaimForm) {
    ClaimForm(c.claimantName, c.claimantEmail, c.claimantPhone, c.proofOfOwnership)
  }

  /** The record a claim submit creates: the item's id and name copied from
      the selected row, the four form fields unchanged, status pending. */
  function NewClaim(item: Stored<FoundItem>, f: ClaimForm): (c: ClaimRequest)
    ensures c.itemId == item.id && c.itemName == item.entity.itemName
    ensures ClaimFormOf(c) == f
    ensures c.status == Pending
  {
    ClaimRequest(item.id, item.entity.itemName, f.claimantName, f.claimantEmail,
                 f.claimantPhone, f.proofOfOwnership, Pending)
  }

  /** A claim made from a row the page showed refers to an item that was
      approved in the store when the page was fetched. */
  lemma ClaimRefersToApprovedItem(rows: seq<Stored<FoundItem>>, m: map<nat, FoundItem>,
                                  term: string, selected: string, item: Stored<FoundItem>, f: ClaimForm)
    requires Lists(rows, ApprovedItems(m))
    requires item in FilterItems(rows, term, selected)
    ensures NewClaim(item, f).itemId in m && m[NewClaim(item, f).itemId].status == Approved
    ensures NewClaim(item, f).itemName == m[item.id].itemName
  {
  }

  /** Submitting a claim raises the Pending Claims count of the store by
      exactly one and leaves the count of every other claim status unchanged. */
  lemma {:induction false} ClaimSubmitCounts(m: map<nat, ClaimRequest>, id: nat,
                                             item: Stored<FoundItem>, f: ClaimForm, s: Status)
    requires id !in m
    ensures |IdsWithStatus(m[id := NewClaim(item, f)], ClaimStatus, s)|
            == |IdsWithStatus(m, ClaimStatus, s)| + (if s == Pending then 1 else 0)
  {
    NewRecordCounts(m, ClaimStatus, id, NewClaim(item, f), s);
  }

  // ----- The page -----

  class ClaimPage {
    var searchTerm: string
    var selectedCategory: string
    var selectedItem: Option<Stored<FoundItem>>
    var claimForm: ClaimForm
    var submitted: bool

    constructor ()
      ensures searchTerm == "" && selectedCategory == AllCategories
      ensures selectedItem == None && claimForm == EmptyClaimForm && !submitted
    {
      searchTerm, selectedCategory := "", AllCategories;
      selectedItem, claimForm, submitted := None, EmptyClaimForm, false;
    }

    /** The rows the page shows for the current search and category. */
    function Shown(rows: seq<Stored<FoundItem>>): (r: seq<Stored<FoundItem>>)
      reads this
      ensures forall x :: x in r <==> x in rows && Keeps(x.entity, searchTerm, selectedCategory)
      ensures IsSubsequence(r, rows)
      ensures searchTerm == "" && selectedCategory == AllCategories ==> r == rows
    {
      FilterIsSubsequence(rows, searchTerm, selectedCategory);
      UnfilteredKeepsAll(rows);
      FilterItems(rows, searchTerm, selectedCategory)
    }

    /** The dialog is open while an item is selected (`open={!!selectedItem}`);
        its "Claim Submitted!" view is the one drawn when `submitted` is set. */
    predicate ConfirmationShown()
      reads this
    {
      selectedItem.Some? && submitted
    }

    method SetSearchTerm(v: string)
      modifies this
      ensures searchTerm == v && selectedCategory == old(selectedCategory)
      ensures selectedItem == old(selectedItem) && claimForm == old(claimForm) && submitted == old(submitted)
    {
      searchTerm := v;
    }

    method SetCategory(v: string)
      modifies this
      ensures selectedCategory == v && searchTerm == old(searchTerm)
      ensures selectedItem == old(selectedItem) && claimForm == old(claimForm) && submitted == old(submitted)
    {
      selectedCategory := v;
    }

    /** `openClaimModal(item)`: select the item, clear the four claim fields,
        and leave the confirmation view. */
    method OpenClaimModal(item: Stored<FoundItem>)
      modifies this
      ensures selectedItem == Some(item) && claimForm == EmptyClaimForm && !submitted
      ensures searchTerm == old(searchTerm) && selectedCategory == old(selectedCategory)
    {
      selectedItem := Some(item);
      claimForm := EmptyClaimForm;
      submitted := false;
    }

    method SetClaimFormField(field: ClaimField, v: string)
      modifies this
      ensures claimForm == SetClaimField(old(claimForm), field, v)
      ensures selectedItem == old(selectedItem) && submitted == old(submitted)
      ensures searchTerm == old(searchTerm) && selectedCategory == old(selectedCategory)
    {
      claimForm := SetClaimField(claimForm, field, v);
    }

    /** Closing the dialog drops the selection. */
    method CloseModal()
      modifies this
      ensures selectedItem == None
      ensures claimForm == old(claimForm) && submitted == old(submitted)
      ensures searchTerm == old(searchTerm) && selectedCategory == old(selectedCategory)
    {
      selectedItem := None;
    }

    /** `handleClaimSubmit` and the mutation's success handler as written:
        store the pending claim for the selected item, then mark the claim
        submitted and drop the selection. Dropping the selection closes the
        dialog, so the confirmation view it was meant to show never appears.
        The form is only on screen while an item is selected. */
    method HandleClaimSubmit(store: EntityStore) returns (id: nat)
      requires store.Valid()
      requires selectedItem.Some?
      modifies this, store
      ensures store.Valid()
      ensures id !in old(store.claims)
      ensures store.claims == old(store.claims)[id := NewClaim(old(selectedItem).value, old(claimForm))]
      ensures store.items == old(store.items)
      ensures submitted && selectedItem == None
      ensures !ConfirmationShown()
      ensures claimForm == old(claimForm)
      ensures searchTerm == old(searchTerm) && selectedCategory == old(selectedCategory)
    {
      id := store.CreateClaim(NewClaim(selectedItem.value, claimForm));
      submitted := true;
      selectedItem := None;
    }

    /** The submit as evidently intended: the same stored claim, but the
        success handler only sets `submitted`, so the dialog stays open on its
        confirmation view until the claimant presses Close (`CloseModal`). */
    method HandleClaimSubmitShowingConfirmation(store: EntityStore) returns (id: nat)
      requires store.Valid()
      requires selectedItem.Some?
      modifies this, store
      ensures store.Valid()
      ensures id !in old(store.claims)
      ensures store.claims == old(store.claims)[id := NewClaim(old(selectedItem).value, old(claimForm))]
      ensures store.items == old(store.items)
      ensures submitted && selectedItem == old(selectedItem)
      ensures ConfirmationShown()
      ensures claimForm == old(claimForm)
      ensures searchTerm == old(searchTerm) && selectedCategory == old(selectedCategory)
    {
      id := store.CreateClaim(NewClaim(selectedItem.value, claimForm));
      submitted := true;
    }
  }
}
