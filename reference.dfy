/** References written for a visiting or transferring controller's application: a small
    status machine (draft, requested, under review, accepted, rejected) with one guarded
    transition, `submit`, from requested to under review. */
module Visittransfer {
  import opened Wrappers

  const STATUS_DRAFT := 10
  const STATUS_REQUESTED := 30
  const STATUS_UNDER_REVIEW := 50
  const STATUS_ACCEPTED := 90
  const STATUS_REJECTED := 95

  /** Every status code a reference can have, in increasing order. */
  const STATUSES: seq<int> := [STATUS_DRAFT, STATUS_REQUESTED, STATUS_UNDER_REVIEW, STATUS_ACCEPTED, STATUS_REJECTED]

  /** The statuses of a reference that its referee has already written. */
  const REFERENCE_IS_SUBMITTED: seq<int> := [STATUS_UNDER_REVIEW, STATUS_ACCEPTED, STATUS_REJECTED]

  /** The token that lets a referee open the reference form. */
  const TOKEN_TYPE := "visittransfer_reference_request"
  const MINUTES_PER_DAY := 1440
  const TOKEN_LIFETIME_DAYS := 14

  /** `in_array($value, $REFERENCE_IS_SUBMITTED)`; a missing attribute (PHP null) is in no list
      of integers, since null compares equal only to zero-like values. */
  function IsSubmittedStatus(value: Option<int>): (r: bool)
    ensures r <==> value.Some? && value.value in STATUSES && value.value >= STATUS_UNDER_REVIEW
    ensures r ==> value != Some(STATUS_DRAFT) && value != Some(STATUS_REQUESTED)
  {
    value.Some? && value.value in REFERENCE_IS_SUBMITTED
  }

  /** The label shown for a status; a status outside the five codes falls through the switch
      and yields nothing. */
  function StatusString(status: int): (r: Option<string>)
    ensures r.Some? <==> status in STATUSES
    ensures r.Some? ==> |r.value| > 0
  {
    if status == STATUS_DRAFT then Some("Draft")
    else if status == STATUS_REQUESTED then Some("Requested")
    else if status == STATUS_UNDER_REVIEW then Some("Under Review")
    else if status == STATUS_ACCEPTED then Some("Accepted")
    else if status == STATUS_REJECTED then Some("Rejected")
    else None
  }

  /** No two statuses share a label. */
  lemma StatusStringInjective(a: int, b: int)
    requires StatusString(a).Some? && StatusString(a) == StatusString(b)
    ensures a == b
  {
  }

  /** The arguments a reference hands to the token generator, which is not part of this
      model: the token type, the generator's second flag (always off here), the reference it
      belongs to and the token's lifetime in minutes. */
  datatype TokenRequest = TokenRequest(tokenType: string, flag: bool, relatedId: nat, expiryMinutes: nat)

  /** The exception `submit` throws; it carries the reference. */
  datatype SubmitError = ReferenceAlreadySubmitted(referenceId: nat)

  class Reference {
    const id: nat
    var status: int
    var reference: Option<string>
    /** The attribute the "is submitted" accessor reads; no code here ever sets it. */
    var state: Option<int>

    constructor (id: nat, status: int, reference: Option<string>, state: Option<int>)
      ensures this.id == id && this.status == status
      ensures this.reference == reference && this.state == state
    {
      this.id := id;
      this.status := status;
      this.reference := reference;
      this.state := state;
    }

    /** `is_requested`: the reference is waiting for its referee. */
    predicate IsRequested()
      reads this
      ensures IsRequested() <==> status == STATUS_REQUESTED
      ensures IsRequested() ==> !IsSubmittedStatus(Some(status)) && StatusString(status) == Some("Requested")
    {
      status == STATUS_REQUESTED
    }

    /** `is_submitted` as written: it looks `state` up in the submitted list, not `status`. */
    predicate IsSubmitted()
      reads this
      ensures IsSubmitted() <==> state.Some? && state.value in REFERENCE_IS_SUBMITTED
      ensures IsSubmitted() ==> state.Some? && state.value >= STATUS_UNDER_REVIEW
      ensures state.None? ==> !IsSubmitted()
    {
      IsSubmittedStatus(state)
    }

    /** `is_submitted` as evidently intended: the reference's status is a submitted one. */
    predicate IsSubmittedByStatus()
      reads this
      ensures IsSubmittedByStatus() <==> status in STATUSES && status >= STATUS_UNDER_REVIEW
      ensures IsSubmittedByStatus() ==> !IsRequested()
    {
      IsSubmittedStatus(Some(status))
    }

    /** `status_string`: the label of the current status. */
    function StatusStringAttribute(): (r: Option<string>)
      reads this
      ensures r.Some? <==> status in STATUSES
      ensures IsRequested() ==> r == Some("Requested")
    {
      StatusString(status)
    }

    /** The token generated for the referee: a reference-request token tied to this
        reference that expires after fourteen days. */
    function GenerateToken(): (r: TokenRequest)
      ensures r.tokenType == TOKEN_TYPE && !r.flag && r.relatedId == id
      ensures r.expiryMinutes == 20160
    {
      TokenRequest(TOKEN_TYPE, false, id, MINUTES_PER_DAY * TOKEN_LIFETIME_DAYS)
    }

    /** Refuses any reference that is not waiting for its referee. */
    method GuardAgainstReSubmittingReference() returns (r: Outcome<SubmitError>)
      ensures r.Pass? <==> status == STATUS_REQUESTED
      ensures r.Fail? ==> r.error == ReferenceAlreadySubmitted(id)
    {
      if !IsRequested() {
        return Fail(ReferenceAlreadySubmitted(id));
      }
      return Pass;
    }

    /** Stores the referee's text and moves the reference to review; a reference that is not
        requested is refused before anything changes. */
    method Submit(content: string) returns (r: Outcome<SubmitError>)
      modifies this
      ensures r.Pass? <==> old(status) == STATUS_REQUESTED
      ensures r.Fail? ==> r.error == ReferenceAlreadySubmitted(id) && unchanged(this)
      ensures r.Pass? ==> reference == Some(content) && status == STATUS_UNDER_REVIEW && state == old(state)
      ensures r.Pass? ==> IsSubmittedByStatus() && !IsRequested()
    {
      r := GuardAgainstReSubmittingReference();
      if r.Fail? {
        return;
      }
      reference := Some(content);
      status := STATUS_UNDER_REVIEW;
    }
  }

  /** Submitting the same reference twice: the first submission is accepted and the second is
      always refused, leaving the first text in place. */
  method SubmitTwice(ref: Reference, first: string, second: string) returns (r1: Outcome<SubmitError>, r2: Outcome<SubmitError>)
    requires ref.status == STATUS_REQUESTED
    modifies ref
    ensures r1.Pass?
    ensures r2 == Fail(ReferenceAlreadySubmitted(ref.id))
    ensures ref.reference == Some(first) && ref.status == STATUS_UNDER_REVIEW
  {
    r1 := ref.Submit(first);
    r2 := ref.Submit(second);
  }

  /** A requested reference whose `state` attribute is unset is under review after `submit`,
      yet `is_submitted` still says it is not submitted. */
  method SubmittedButNotReported() returns (ref: Reference, r: Outcome<SubmitError>)
    ensures r.Pass? && ref.status == STATUS_UNDER_REVIEW
    ensures ref.IsSubmittedByStatus() && !ref.IsSubmitted()
  {
    ref := new Reference(1, STATUS_REQUESTED, None, None);
    r := ref.Submit("Knows the applicant well.");
  }
}
