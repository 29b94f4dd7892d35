/** The complaints screen, src/pages/ComplaintsPage.jsx: the list call with
    its status select, the search over name, e-mail and message, the counts
    over the loaded page, the details dialog with its response draft, the
    guard on sending a response, the status select inside the dialog, the
    delete, and the status badge. */
module ComplaintsPage {
  import opened Common
  import opened Entities
  import opened Config
  import opened Urls
  import opened UriComponent
  import opened ListPages
  import opened ComplaintService

  const PageSize: nat := 20

  datatype Query = Query(searchTerm: string, statusFilter: string, currentPage: nat)

  /** `fetchComplaints()`'s request. */
  function ListCall(c: Config, token: Option<string>, q: Query): Request {
    GetAllComplaints(c, token, Some(q.currentPage), Some(PageSize), FilterArg(q.statusFilter))
  }

  /** The list call asks for the current page, twenty rows, and a status
      filter only when the select is neither "all" nor empty. */
  lemma ListCallQuery(c: Config, token: Option<string>, q: Query)
    requires SafeRoot(c.baseUrl) && SafeValue(q.statusFilter)
    ensures ParseUrl(ListCall(c, token, q).url) == ParsedUrl(Root(c) + "/" + "complaints",
              [("page", Dec(q.currentPage)), ("size", Dec(PageSize))]
              + (if q.statusFilter != "all" && q.statusFilter != "" then [("status", q.statusFilter)] else []))
  {
    FilterArgTruthy(q.statusFilter);
    GetAllComplaintsQuery(c, token, Some(q.currentPage), Some(PageSize), FilterArg(q.statusFilter));
  }

  // ---------------------------------------------------------------------------
  // Search

  /** Name, e-mail or message contains the term; a missing field never
      matches. */
  predicate MatchesComplaint(term: string, x: Complaint) {
    MatchesOptional(x.userName, term) || MatchesOptional(x.userEmail, term) || MatchesOptional(x.message, term)
  }

  /** `filteredComplaints`. */
  function Search(complaints: seq<Complaint>, term: string): (r: seq<Complaint>)
    ensures IsSubsequence(r, complaints)
    ensures forall i :: 0 <= i < |r| ==> MatchesComplaint(term, r[i])
    ensures forall i :: 0 <= i < |complaints| && MatchesComplaint(term, complaints[i]) ==> complaints[i] in r
    ensures forall x :: multiset(r)[x] == if MatchesComplaint(term, x) then multiset(complaints)[x] else 0
  {
    FilterCounts(complaints, x => MatchesComplaint(term, x));
    Filter(complaints, x => MatchesComplaint(term, x))
  }

  /** An empty search keeps exactly the complaints with a name, an e-mail or
      a message. */
  lemma EmptySearchNeedsAField(x: Complaint)
    ensures MatchesComplaint("", x) <==> x.userName.Some? || x.userEmail.Some? || x.message.Some?
  {
    MatchesOptionalEmptyTerm(x.userName);
    MatchesOptionalEmptyTerm(x.userEmail);
    MatchesOptionalEmptyTerm(x.message);
  }

  // ---------------------------------------------------------------------------
  // Counts

  predicate IsNew(x: Complaint) { x.status == "new" }
  predicate IsInProgress(x: Complaint) { x.status == "in_progress" }
  predicate IsResolved(x: Complaint) { x.status == "resolved" }
  predicate IsNewOrInProgress(x: Complaint) { IsNew(x) || IsInProgress(x) }
  predicate IsNotClosed(x: Complaint) { IsNewOrInProgress(x) || IsResolved(x) }

  /** The four header figures, over the whole loaded page whatever the
      search keeps. */
  datatype Stats = Stats(total: nat, newCount: nat, inProgressCount: nat, resolvedCount: nat)

  function Counts(complaints: seq<Complaint>): Stats {
    Stats(|complaints|, Count(complaints, IsNew), Count(complaints, IsInProgress), Count(complaints, IsResolved))
  }

  /** No complaint is counted under two statuses: the three status figures
      never add up to more than the total, and they reach it exactly when
      no loaded complaint has another status (a closed one, say). */
  lemma CountsPartition(complaints: seq<Complaint>)
    ensures var s := Counts(complaints);
            s.newCount + s.inProgressCount + s.resolvedCount <= s.total
    ensures var s := Counts(complaints);
            s.newCount + s.inProgressCount + s.resolvedCount == s.total
            <==> forall i :: 0 <= i < |complaints| ==> IsNotClosed(complaints[i])
  {
    CountUnion(complaints, IsNew, IsInProgress, IsNewOrInProgress);
    CountUnion(complaints, IsNewOrInProgress, IsResolved, IsNotClosed);
    if forall i :: 0 <= i < |complaints| ==> IsNotClosed(complaints[i]) {
      CountAll(complaints, IsNotClosed);
    } else {
      var i :| 0 <= i < |complaints| && !IsNotClosed(complaints[i]);
      assert complaints[i] !in Filter(complaints, IsNotClosed);
      CountMisses(complaints, IsNotClosed, i);
    }
  }

  // ---------------------------------------------------------------------------
  // The details dialog

  /** The dialog: the complaint it shows, whether it is open, and the
      response draft. */
  datatype Dialog = Dialog(selected: Option<Complaint>, showViewModal: bool, response: string)

  /** `handleView`: the details call's outcome opens the dialog on the
      fetched complaint, with the draft seeded from its previous response;
      a failed call leaves everything as it was. */
  function View(d: Dialog, outcome: Result<Complaint, HttpError>): (r: Dialog)
    ensures outcome.Err? ==> r == d
    ensures outcome.Ok? ==> r.showViewModal && r.selected == Some(outcome.value)
    ensures outcome.Ok? && Truthy(outcome.value.adminResponse) ==> r.response == outcome.value.adminResponse.value
    ensures outcome.Ok? && !Truthy(outcome.value.adminResponse) ==> r.response == ""
  {
    match outcome
    case Ok(x) => Dialog(Some(x), true, OrElse(x.adminResponse, ""))
    case Err(_) => d
  }

  /** The draft never carries over: opening a complaint shows its own
      previous response whatever was typed for another one. */
  lemma ViewReseeds(d: Dialog, e: Dialog, x: Complaint)
    ensures View(d, Ok(x)) == View(e, Ok(x))
  {
  }

  /** The send button is enabled when the draft has a non-blank character. */
  predicate SendEnabled(d: Dialog) {
    Trim(d.response) != ""
  }

  /** The draft area, the send button and the status select are rendered
      only for a complaint that is not closed. */
  predicate ResponseControlsShown(d: Dialog) {
    d.selected.Some? && d.selected.value.status != "closed"
  }

  /** `handleSendResponse`'s request: none without a selected complaint or
      with a blank draft, otherwise the draft as typed, untrimmed. */
  function SendCalls(c: Config, token: Option<string>, d: Dialog): (rs: seq<Request>)
    ensures |rs| <= 1
    ensures rs != [] ==> d.selected.Some? && rs == [AddComplaintResponse(c, token, d.selected.value.complaintId, d.response)]
  {
    if d.selected.None? || Trim(d.response) == "" then []
    else [AddComplaintResponse(c, token, d.selected.value.complaintId, d.response)]
  }

  /** A response goes out exactly when a complaint is selected and the draft
      is not all whitespace; the button's state agrees with the handler's
      own check. The handler does not look at the status, so a closed
      complaint is kept from answers only by hiding the controls. */
  lemma SendGuard(c: Config, token: Option<string>, d: Dialog)
    ensures SendCalls(c, token, d) != [] <==> d.selected.Some? && !AllWhitespace(d.response)
    ensures d.selected.Some? ==> (SendCalls(c, token, d) != [] <==> SendEnabled(d))
  {
    TrimEmptyIffBlank(d.response);
  }

  lemma ClosedNotCheckedOnSend(c: Config, token: Option<string>, d: Dialog)
    requires d.selected.Some? && d.selected.value.status == "closed" && SendEnabled(d)
    ensures !ResponseControlsShown(d) && SendCalls(c, token, d) != []
  {
  }

  /** The server receives the draft exactly, whatever characters it holds. */
  lemma SentResponseDecodes(c: Config, token: Option<string>, d: Dialog)
    requires SafeRoot(c.baseUrl) && SendCalls(c, token, d) != []
    ensures var q := ParseUrl(SendCalls(c, token, d)[0].url).query;
            |q| == 1 && q[0].0 == "response" && Decode(q[0].1) == Some(d.response)
  {
    ComplaintResponseQuery(c, token, d.selected.value.complaintId, d.response);
  }

  /** After a response or a status change: success closes the dialog and
      reloads the list (the second component); a failure leaves both as
      they were. The draft and the selection are kept either way. */
  function Settle(d: Dialog, succeeded: bool): (r: (Dialog, bool))
    ensures r.1 == succeeded
    ensures succeeded ==> r.0 == d.(showViewModal := false)
    ensures !succeeded ==> r.0 == d
  {
    if succeeded then (d.(showViewModal := false), true) else (d, false)
  }

  /** The statuses the dialog's select offers. */
  const StatusOptions: seq<string> := ["new", "in_progress", "resolved", "closed"]

  /** Picking a status in the dialog sends it as the only query parameter
      of a PATCH on the selected complaint. */
  lemma StatusChangeQuery(c: Config, token: Option<string>, id: int, k: nat)
    requires SafeRoot(c.baseUrl) && k < |StatusOptions|
    ensures var r := UpdateComplaintStatus(c, token, id, StatusOptions[k]);
            && r.verb == PATCH && ParseUrl(r.url).query == [("status", StatusOptions[k])]
  {
    assert SafeValue(StatusOptions[k]);
    ComplaintStatusQuery(c, token, id, StatusOptions[k]);
  }

  // ---------------------------------------------------------------------------
  // Delete and badge

  function DeleteCalls(c: Config, token: Option<string>, x: Complaint, confirmed: bool): (rs: seq<Request>)
    ensures confirmed ==> rs == [DeleteComplaint(c, token, x.complaintId)]
    ensures !confirmed ==> rs == []
  {
    ConfirmedRequests(confirmed, DeleteComplaint(c, token, x.complaintId))
  }

  const StatusBadges: BadgeTable :=
    [("new", "primary"), ("in_progress", "warning"), ("resolved", "success"), ("closed", "secondary")]

  lemma StatusBadgeColours(status: string)
    ensures Lower(status) == "new" ==> BadgeClass(StatusBadges, Some(status)) == "primary"
    ensures Lower(status) == "in_progress" ==> BadgeClass(StatusBadges, Some(status)) == "warning"
    ensures Lower(status) == "resolved" ==> BadgeClass(StatusBadges, Some(status)) == "success"
    ensures Lower(status) !in ["new", "in_progress", "resolved"] ==> BadgeClass(StatusBadges, Some(status)) == "secondary"
  {
    assert DistinctKeys(StatusBadges);
    if Lower(status) == "new" { BadgeClassByKey(StatusBadges, status, 0); }
    if Lower(status) == "in_progress" { BadgeClassByKey(StatusBadges, status, 1); }
    if Lower(status) == "resolved" { BadgeClassByKey(StatusBadges, status, 2); }
  }

  /** The status column shows "in progress" for "in_progress". */
  lemma InProgressLabel()
    ensures SpacedLabel(Some("in_progress")) == Some("in progress")
  {
    SpacedLabelFirstOnly("in", "progress");
    assert "in" + "_" + "progress" == "in_progress";
    assert "in" + " " + "progress" == "in progress";
  }
}
