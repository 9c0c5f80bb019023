/** A product review as the review observer and the review sync command read it. */
module ReviewModel {
  import opened Wrappers

  /** Magento's review status ids. */
  const StatusApproved: int := 1
  const StatusPending: int := 2
  const StatusNotApproved: int := 3

  /**
   * A review. `customerId` is None for a guest review; `linkedEmail` is the
   * e-mail of a customer object attached to the review (`getCustomer()`), None
   * when there is none or it has no e-mail; `storedEmail` is what a declared
   * `getEmail` of the review returns, None when there is no such method or value.
   */
  datatype Review = Review(
    id: int,
    statusId: int,
    customerId: Option<int>,
    nickname: Option<string>,
    productId: int,
    detail: Option<string>,
    linkedEmail: Option<string>,
    storedEmail: Option<string>)
}
