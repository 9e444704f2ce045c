/** The portal's end-to-end flow on concrete data: a finder reports an item,
    the admin approves it and rejects another, the approved item shows up on
    the claim page and a student claims it. */
module Scenarios {
  import opened Entities
  import opened Store
  import Report
  import Admin
  import Claim

  /** With one approved and one rejected item, the approved one alone is
      the claim page's fetch. */
  lemma OneApprovedListed(m: map<nat, FoundItem>, id: nat, other: nat)
    requires m.Keys == {id, other} && m[id].status == Approved && m[other].status == Rejected
    ensures Lists([Stored(id, m[id])], Claim.ApprovedItems(m))
  {
    var rows := [Stored(id, m[id])];
    forall k | k in Claim.ApprovedItems(m) ensures exists i :: 0 <= i < |rows| && rows[i].id == k {
      assert k == id && rows[0].id == k;
    }
  }

  /** The finder's report of the backpack, as the form holds it. */
  const Backpack := Report.ReportForm("Blue Backpack", "Electronics", "", "Library",
                                      "2024-03-01", "A", "a@x.com", "")

  /** The finder fills in the report form field by field. */
  method FillBackpack(report: Report.ReportPage)
    requires report.formData == Report.EmptyForm
    modifies report
    ensures report.formData == Backpack
  {
    report.HandleInputChange(Report.ItemName, "Blue Backpack");
    report.HandleInputChange(Report.Category, "Electronics");
    report.HandleInputChange(Report.LocationFound, "Library");
    report.HandleInputChange(Report.DateFound, "2024-03-01");
    report.HandleInputChange(Report.FinderName, "A");
    report.HandleInputChange(Report.FinderEmail, "a@x.com");
  }

  /** A finder reports the backpack and then an umbrella; the admin approves
      the first and rejects the second. */
  method ReportAndModerate() returns (store: EntityStore, id: nat, other: nat)
    ensures fresh(store) && store.Valid()
    ensures store.items.Keys == {id, other} && id != other
    ensures store.items[id] == Report.Submission(Backpack).(status := Approved)
    ensures store.items[other].status == Rejected
  {
    store := new EntityStore();
    var report := new Report.ReportPage();
    FillBackpack(report);
    id := report.HandleSubmit(store);

    report.ReportAnother();
    report.HandleInputChange(Report.ItemName, "Umbrella");
    other := report.HandleSubmit(store);

    var approved := Admin.Approve(store, id);
    var rejected := Admin.Reject(store, other);
  }

  /** A student finds the approved item on the claim page, whose fetch holds
      only that item, and claims it. The submit is the corrected one listed
      under "## Findings" in README.md (`HandleClaimSubmitShowingConfirmation`),
      so the confirmation is shown and then closed; with the submit as
      written (`HandleClaimSubmit`) the dialog closes at once and the
      confirmation never appears. */
  method ClaimApproved(store: EntityStore, id: nat, other: nat) returns (claimId: nat, otherShown: bool, confirmed: bool)
    requires store.Valid()
    requires store.items.Keys == {id, other}
    requires store.items[id].status == Approved && store.items[other].status == Rejected
    modifies store
    ensures store.items == old(store.items)
    ensures claimId in store.claims
    ensures store.claims[claimId] == Claim.NewClaim(Stored(id, store.items[id]),
                                                    Claim.ClaimForm("B", "b@x.com", "", "scratch on back"))
    ensures !otherShown && confirmed
  {
    var rows := [Stored(id, store.items[id])];
    OneApprovedListed(store.items, id, other);

    var page := new Claim.ClaimPage();
    Claim.UnfilteredKeepsAll(rows);
    var shown := page.Shown(rows);
    assert shown == rows;
    Claim.OnlyApprovedShown(rows, store.items, page.searchTerm, page.selectedCategory);
    otherShown := exists x :: x in shown && x.id == other;

    page.OpenClaimModal(shown[0]);
    page.SetClaimFormField(Claim.ClaimantName, "B");
    page.SetClaimFormField(Claim.ClaimantEmail, "b@x.com");
    page.SetClaimFormField(Claim.ProofOfOwnership, "scratch on back");
    claimId := page.HandleClaimSubmitShowingConfirmation(store);
    confirmed := page.ConfirmationShown();
    page.CloseModal();
  }

  /** The whole walk-through: the approved backpack is claimed by name, the
      rejected umbrella never reaches the claim page. */
  method BlueBackpack() returns (approvedItem: FoundItem, claim: ClaimRequest, otherStatus: Status, otherShown: bool)
    ensures approvedItem.itemName == "Blue Backpack" && approvedItem.locationFound == "Library"
    ensures approvedItem.status == Approved
    ensures claim.itemName == "Blue Backpack" && claim.status == Pending
    ensures claim.claimantName == "B" && claim.claimantEmail == "b@x.com"
    ensures claim.proofOfOwnership == "scratch on back"
    ensures otherStatus == Rejected && !otherShown
  {
    var store, id, other := ReportAndModerate();
    var claimId, confirmed;
    claimId, otherShown, confirmed := ClaimApproved(store, id, other);
    claim := store.claims[claimId];
    approvedItem := store.items[id];
    otherStatus := store.items[other].status;
  }
}
