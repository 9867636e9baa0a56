/** The evidence endpoints of server/routes.ts. The session user is the
    explicit value `sessionUser`. */
module Routes {
  import opened Wrappers
  import opened Json
  import opened Schema
  import opened Storage
  import Seqs

  datatype PostOutcome =
    | PostUnauthorized        // 401 "Unauthorized"
    | InvalidEvidence         // 400 "Invalid evidence data"
    | Created(evidence: Evidence)

  /** The parsed body with the submitter replaced by the session user. */
  function Stamp(body: InsertEvidence, address: string): (r: InsertEvidence)
    ensures r.submittedBy == address
    ensures r.(submittedBy := body.submittedBy) == body
  {
    body.(submittedBy := address)
  }

  /** POST /api/evidence: no role check, only authentication and the
      insert schema. */
  method PostEvidence(store: MemStorage, sessionUser: Option<User>, body: Json) returns (out: PostOutcome)
    requires store.Valid()
    modifies store
    ensures store.Valid()
    ensures store.users == old(store.users)
    ensures sessionUser.None? ==> out == PostUnauthorized
    ensures sessionUser.Some? && ParseInsertEvidence(body).None? ==> out == InvalidEvidence
    ensures sessionUser.Some? && ParseInsertEvidence(body).Some? ==>
              out == Created(Evidence(old(store.currentId),
                                      Stamp(ParseInsertEvidence(body).value, sessionUser.value.data.address)))
    ensures out.Created? ==> out.evidence.data.submittedBy == sessionUser.value.data.address
    ensures out.Created? ==> store.evidence == old(store.evidence) + [out.evidence]
                             && store.currentId == old(store.currentId) + 1
    ensures !out.Created? ==> store.evidence == old(store.evidence) && store.currentId == old(store.currentId)
  {
    if sessionUser.None? {
      return PostUnauthorized;
    }
    var parsed := ParseInsertEvidence(body);
    if parsed.None? {
      return InvalidEvidence;
    }
    var result := store.CreateEvidence(Stamp(parsed.value, sessionUser.value.data.address));
    return Created(result);
  }

  /** The evidently intended validation of a POST body: the submitter is
      the session user's address, put in before the insert schema runs, so
      the body need not carry one. */
  function ParseSubmission(body: Json, submitter: string): (r: Option<InsertEvidence>)
    ensures r.Some? ==> r.value.submittedBy == submitter
    ensures r.Some? && body.JObj? ==> Stamp(r.value, submitter) == r.value
    ensures body.JObj? && "submittedBy" in body.fields && ParseInsertEvidence(body).Some? && submitter != "" ==>
              r == Some(Stamp(ParseInsertEvidence(body).value, submitter))
  {
    if body.JObj? then ParseInsertEvidence(JObj(body.fields["submittedBy" := JStr(submitter)])) else None
  }

  /** POST /api/evidence with the intended validation. */
  method PostEvidenceIntended(store: MemStorage, sessionUser: Option<User>, body: Json) returns (out: PostOutcome)
    requires store.Valid()
    modifies store
    ensures store.Valid()
    ensures store.users == old(store.users)
    ensures sessionUser.None? ==> out == PostUnauthorized
    ensures sessionUser.Some? ==>
              var parsed := ParseSubmission(body, sessionUser.value.data.address);
              && (parsed.None? ==> out == InvalidEvidence)
              && (parsed.Some? ==> out == Created(Evidence(old(store.currentId), parsed.value)))
    ensures out.Created? ==> out.evidence.data.submittedBy == sessionUser.value.data.address
    ensures out.Created? ==> store.evidence == old(store.evidence) + [out.evidence]
    ensures !out.Created? ==> store.evidence == old(store.evidence) && store.currentId == old(store.currentId)
  {
    if sessionUser.None? {
      return PostUnauthorized;
    }
    var parsed := ParseSubmission(body, sessionUser.value.data.address);
    if parsed.None? {
      return InvalidEvidence;
    }
    var result := store.CreateEvidence(parsed.value);
    return Created(result);
  }

  datatype ListOutcome =
    | ListUnauthorized        // 401 "Unauthorized"
    | Listed(records: seq<Evidence>)

  /** GET /api/evidence. */
  function ListEvidence(store: MemStorage, sessionUser: Option<User>): (r: ListOutcome)
    reads store
    ensures r == ListUnauthorized <==> sessionUser.None?
    ensures r.Listed? ==> r.records == store.GetEvidence(sessionUser.value)
  {
    if sessionUser.None? then ListUnauthorized else Listed(store.GetEvidence(sessionUser.value))
  }

  /** Every authenticated role, Public included, can store evidence: a body
      the schema accepts is stored whatever the session user's role. */
  method AnyRoleMaySubmit(body: Json, u: User) returns (out: PostOutcome)
    requires ParseInsertEvidence(body).Some?
    ensures out.Created? && out.evidence.data == Stamp(ParseInsertEvidence(body).value, u.data.address)
  {
    var store := new MemStorage();
    out := PostEvidence(store, Some(u), body);
  }

  /** Two officers, one record: the submitter sees it in their list, another
      officer does not, an administrator does. The body's own `submittedBy` is
      ignored. */
  method OwnRecordsOnly(body: Json, officer: User, other: User, admin: User)
    returns (mine: ListOutcome, theirs: ListOutcome, all: ListOutcome, stored: PostOutcome)
    requires ParseInsertEvidence(body).Some?
    requires officer.data.role == Officer && other.data.role == Officer && admin.data.role == Admin
    requires officer.data.address != other.data.address
    ensures stored.Created? && stored.evidence.data.submittedBy == officer.data.address
    ensures mine == Listed([stored.evidence])
    ensures theirs == Listed([])
    ensures all == Listed([stored.evidence])
  {
    var store := new MemStorage();
    stored := PostEvidence(store, Some(officer), body);
    mine := ListEvidence(store, Some(officer));
    theirs := ListEvidence(store, Some(other));
    all := ListEvidence(store, Some(admin));
    SeesAllOnlyAdmin(Officer);
    SeesAllOnlyAdmin(Admin);
    assert store.evidence == [stored.evidence];
    assert mine.records == [stored.evidence] by {
      assert stored.evidence in mine.records;
      assert |mine.records| <= 1;
      assert mine.records != [];
    }
  }
}
