/** The delivery-persons screen, src/pages/DeliveryPersonsPage.jsx: the list
    call with its verification select, the search over the row's name and
    e-mail and the nested operating area, the verified and pending counts
    over the loaded page, the approve/reject pair offered only for a
    pending person, the edit draft and the verification badge. */
module DeliveryPersonsPage {
  import opened Common
  import opened Entities
  import opened Config
  import opened Urls
  import opened ListPages
  import opened DeliveryPersonService

  const PageSize: nat := 20

  datatype Query = Query(searchTerm: string, statusFilter: string, currentPage: nat)

  /** `fetchDeliveryPersons()`'s request; the operating-area argument is
      always `null`. */
  function ListCall(c: Config, token: Option<string>, q: Query): Request {
    GetAllDeliveryPersons(c, token, Some(q.currentPage), Some(PageSize), FilterArg(q.statusFilter), None)
  }

  /** The list call asks for the current page, twenty rows, a verification
      filter only when the select is neither "all" nor empty, and never an
      operating area. */
  lemma ListCallQuery(c: Config, token: Option<string>, q: Query)
    requires SafeRoot(c.adminApi) && SafeValue(q.statusFilter)
    ensures ParseUrl(ListCall(c, token, q).url) == ParsedUrl(Root(c) + "/" + "delivery-persons",
              [("page", Dec(q.currentPage)), ("size", Dec(PageSize))]
              + (if q.statusFilter != "all" && q.statusFilter != "" then [("verificationStatus", q.statusFilter)] else []))
  {
    FilterArgTruthy(q.statusFilter);
    GetAllDeliveryPersonsQuery(c, token, Some(q.currentPage), Some(PageSize), FilterArg(q.statusFilter), None);
  }

  // ---------------------------------------------------------------------------
  // The nested record

  /** `dp.deliveryPerson?.status`. */
  function NestedStatus(dp: DeliveryPersonRow): Option<string> {
    if dp.deliveryPerson.Some? then dp.deliveryPerson.value.status else None
  }

  /** `dp.deliveryPerson?.operatingArea`. */
  function NestedArea(dp: DeliveryPersonRow): Option<string> {
    if dp.deliveryPerson.Some? then dp.deliveryPerson.value.operatingArea else None
  }

  // ---------------------------------------------------------------------------
  // Search

  /** Name, e-mail or operating area contains the term; a missing field
      never matches. */
  predicate MatchesRow(term: string, dp: DeliveryPersonRow) {
    MatchesOptional(dp.userName, term) || MatchesOptional(dp.userEmail, term) || MatchesOptional(NestedArea(dp), term)
  }

  /** `filteredDeliveryPersons`. */
  function Search(rows: seq<DeliveryPersonRow>, term: string): (r: seq<DeliveryPersonRow>)
    ensures IsSubsequence(r, rows)
    ensures forall i :: 0 <= i < |r| ==> MatchesRow(term, r[i])
    ensures forall i :: 0 <= i < |rows| && MatchesRow(term, rows[i]) ==> rows[i] in r
    ensures forall x :: multiset(r)[x] == if MatchesRow(term, x) then multiset(rows)[x] else 0
  {
    FilterCounts(rows, x => MatchesRow(term, x));
    Filter(rows, x => MatchesRow(term, x))
  }

  /** Unlike the users and restaurants screens, an empty search does not
      keep every row: it keeps exactly the rows with a name, an e-mail or an
      operating area. */
  lemma EmptySearchNeedsAField(dp: DeliveryPersonRow)
    ensures MatchesRow("", dp) <==> dp.userName.Some? || dp.userEmail.Some? || NestedArea(dp).Some?
  {
    MatchesOptionalEmptyTerm(dp.userName);
    MatchesOptionalEmptyTerm(dp.userEmail);
    MatchesOptionalEmptyTerm(NestedArea(dp));
  }

  lemma EmptySearchKeepsNamed(rows: seq<DeliveryPersonRow>)
    requires forall i :: 0 <= i < |rows| ==> rows[i].userName.Some?
    ensures Search(rows, "") == rows
  {
    forall i | 0 <= i < |rows|
      ensures MatchesRow("", rows[i])
    {
      EmptySearchNeedsAField(rows[i]);
    }
    FilterAll(rows, x => MatchesRow("", x));
  }

  // ---------------------------------------------------------------------------
  // Counts

  predicate IsVerified(dp: DeliveryPersonRow) {
    NestedStatus(dp) == Some("verified")
  }

  predicate IsPending(dp: DeliveryPersonRow) {
    NestedStatus(dp) == Some("pending")
  }

  predicate IsSettledOrPending(dp: DeliveryPersonRow) {
    IsVerified(dp) || IsPending(dp)
  }

  /** The header counts, taken over the whole loaded page whatever the
      search keeps. */
  function VerifiedCount(rows: seq<DeliveryPersonRow>): nat {
    Count(rows, IsVerified)
  }

  function PendingCount(rows: seq<DeliveryPersonRow>): nat {
    Count(rows, IsPending)
  }

  /** No row is counted twice: the two counts together never exceed the
      rows loaded, and with every row verified or pending they add up to
      them. */
  lemma CountsPartition(rows: seq<DeliveryPersonRow>)
    ensures VerifiedCount(rows) + PendingCount(rows) <= |rows|
    ensures (forall i :: 0 <= i < |rows| ==> IsSettledOrPending(rows[i])) ==>
              VerifiedCount(rows) + PendingCount(rows) == |rows|
  {
    CountUnion(rows, IsVerified, IsPending, IsSettledOrPending);
    if forall i :: 0 <= i < |rows| ==> IsSettledOrPending(rows[i]) {
      CountAll(rows, IsSettledOrPending);
    }
  }

  // ---------------------------------------------------------------------------
  // Verification

  /** Approve and reject are offered exactly for a pending person; a row
      without its nested record offers neither. */
  function VerifyActions(dp: DeliveryPersonRow): (a: seq<string>)
    ensures a != [] <==> dp.deliveryPerson.Some? && dp.deliveryPerson.value.status == Some("pending")
    ensures a != [] ==> a == ["verified", "rejected"]
  {
    if NestedStatus(dp) == Some("pending") then ["verified", "rejected"] else []
  }

  /** `handleVerify(id, status)`'s request for an offered action goes to the
      row's own id. */
  lemma VerifyRequest(c: Config, token: Option<string>, dp: DeliveryPersonRow, k: nat)
    requires SafeRoot(c.adminApi) && k < |VerifyActions(dp)|
    ensures var req := UpdateDeliveryPersonVerification(c, token, dp.deliveryPersonId, VerifyActions(dp)[k]);
            && req.verb == PATCH
            && ParseUrl(req.url).query == [("status", VerifyActions(dp)[k])]
            && NestedStatus(dp) == Some("pending")
  {
    DeliveryPersonVerificationQuery(c, token, dp.deliveryPersonId, VerifyActions(dp)[k]);
  }

  // ---------------------------------------------------------------------------
  // Edit, delete, badge

  /** `handleEdit`: the nested record's fields, with `earnings || 0`. */
  function EditDraft(dp: DeliveryPersonRow): DeliveryDraft {
    match dp.deliveryPerson
    case Some(d) => DeliveryDraft(d.userId, d.vehicleNumber, d.operatingArea, d.status, NumOrZero(d.earnings))
    case None => DeliveryDraft(None, None, None, None, 0)
  }

  /** Saving an untouched draft sends the nested record back, with missing
      earnings as zero, to the row's own URL; a row without a nested record
      sends an empty draft. */
  lemma UntouchedEditResends(c: Config, token: Option<string>, dp: DeliveryPersonRow)
    ensures var req := UpdateDeliveryPerson(c, token, dp.deliveryPersonId, EditDraft(dp));
            && req.verb == PUT && req.url == GetDeliveryPersonById(c, token, dp.deliveryPersonId).url
            && req.body.DeliveryEdit?
            && (dp.deliveryPerson.Some? ==>
                  var d := dp.deliveryPerson.value;
                  && req.body.delivery.userId == d.userId && req.body.delivery.vehicleNumber == d.vehicleNumber
                  && req.body.delivery.operatingArea == d.operatingArea && req.body.delivery.status == d.status
                  && req.body.delivery.earnings == d.earnings.GetOr(0))
            && (dp.deliveryPerson.None? ==> req.body.delivery == DeliveryDraft(None, None, None, None, 0))
  {
  }

  function DeleteCalls(c: Config, token: Option<string>, dp: DeliveryPersonRow, confirmed: bool): (rs: seq<Request>)
    ensures confirmed ==> rs == [DeleteDeliveryPerson(c, token, dp.deliveryPersonId)]
    ensures !confirmed ==> rs == []
  {
    ConfirmedRequests(confirmed, DeleteDeliveryPerson(c, token, dp.deliveryPersonId))
  }

  const StatusBadges: BadgeTable := [("pending", "warning"), ("verified", "success"), ("rejected", "danger")]

  lemma StatusBadgeColours(status: string)
    ensures Lower(status) == "pending" ==> BadgeClass(StatusBadges, Some(status)) == "warning"
    ensures Lower(status) == "verified" ==> BadgeClass(StatusBadges, Some(status)) == "success"
    ensures Lower(status) == "rejected" ==> BadgeClass(StatusBadges, Some(status)) == "danger"
    ensures Lower(status) !in ["pending", "verified", "rejected"] ==> BadgeClass(StatusBadges, Some(status)) == "secondary"
  {
    assert DistinctKeys(StatusBadges);
    if Lower(status) == "pending" { BadgeClassByKey(StatusBadges, status, 0); }
    if Lower(status) == "verified" { BadgeClassByKey(StatusBadges, status, 1); }
    if Lower(status) == "rejected" { BadgeClassByKey(StatusBadges, status, 2); }
  }
}
