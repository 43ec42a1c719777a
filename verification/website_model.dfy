/** The `website` collection: one engagement record per document. */
module WebsiteModel {
  import opened Common

  /** A stored engagement. `createdAt`/`updatedAt` are the schema's automatic
      timestamps, as clock readings. */
  datatype Website = Website(
    owner: ObjectId,
    software: string,
    startDate: DateValue,
    endDate: DateValue,
    state: int,
    district: int,
    createdAt: int,
    updatedAt: int)

  /** The schema's requirements: an owner reference, a non-empty software
      string and both dates (a required string rejects ""). `state` and
      `district` are required numbers; 0 is a valid number here. Nothing
      relates the two dates. */
  predicate Valid(w: Website) {
    IsObjectId(w.owner) && w.software != "" && w.startDate != "" && w.endDate != ""
  }

  /** The collection, by `_id`. */
  type Websites = map<ObjectId, Website>

  predicate ValidStore(db: Websites) {
    forall id :: id in db ==> IsObjectId(id) && Valid(db[id])
  }

  /** The schema accepts an engagement dated to end before it starts. */
  lemma {:induction false} EndBeforeStartIsValid()
    ensures Valid(Website("0123456789abcdef01234567", "erp", "2024-12-31", "2024-01-01", 1, 5, 0, 0))
  {
  }
}
