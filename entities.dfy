/** The two records the portal keeps in its entity store. Ids are assigned
    by the store, so the records themselves carry none; a row of a fetched
    list pairs the id with the record. */
module Entities {

  datatype Option<T> = None | Some(value: T)

  /** The status vocabulary shared by found items and claim requests. */
  datatype Status = Pending | Approved | Rejected | Claimed

  /** A reported found item. `description` may be absent on stored records. */
  datatype FoundItem = FoundItem(
    itemName: string,
    category: string,
    description: Option<string>,
    locationFound: string,
    dateFound: string,
    finderName: string,
    finderEmail: string,
    photoUrl: string,
    status: Status)

  /** A request to claim the found item with id `itemId`; `itemName` is a
      copy taken when the claim is made. */
  datatype ClaimRequest = ClaimRequest(
    itemId: nat,
    itemName: string,
    claimantName: string,
    claimantEmail: string,
    claimantPhone: string,
    proofOfOwnership: string,
    status: Status)

  /** The status of each kind of record, so that counts by status can be
      stated once for both. */
  function ItemStatus(i: FoundItem): Status { i.status }

  function ClaimStatus(c: ClaimRequest): Status { c.status }

  /** One row of a list fetched from the store: a record with its id. */
  datatype Stored<T> = Stored(id: nat, entity: T)
}
