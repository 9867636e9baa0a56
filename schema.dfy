/** The shared record types and their validators (shared/schema.ts): the
    three-valued role, status and priority enumerations, the metadata and
    evidence-insert validators with their defaults, and the user and evidence
    records the server stores. */
module Schema {
  import opened Wrappers
  import opened Json

  /** Milliseconds since the epoch; clocks are parameters of this model. */
  type Time = nat

  // ---------------------------------------------------------------- enums

  datatype Role = Admin | Officer | Public {
    function Name(): string {
      match this
      case Admin => "admin"
      case Officer => "officer"
      case Public => "public"
    }
  }

  datatype Status = Pending | Approved | Rejected {
    function Name(): string {
      match this
      case Pending => "pending"
      case Approved => "approved"
      case Rejected => "rejected"
    }
  }

  datatype Priority = Low | Medium | High {
    function Name(): string {
      match this
      case Low => "low"
      case Medium => "medium"
      case High => "high"
    }
  }

  /** `z.enum(["admin", "officer", "public"])`, the role enum of insertUserSchema. */
  function ParseRole(s: string): (r: Option<Role>)
    ensures r.Some? ==> r.value.Name() == s
    ensures r.None? <==> forall role: Role :: role.Name() != s
  {
    if s == "admin" then Some(Admin)
    else if s == "officer" then Some(Officer)
    else if s == "public" then Some(Public)
    else None
  }

  /** `z.enum(["pending", "approved", "rejected"])`. */
  function ParseStatus(s: string): (r: Option<Status>)
    ensures r.Some? ==> r.value.Name() == s
    ensures r.None? <==> forall st: Status :: st.Name() != s
  {
    if s == "pending" then Some(Pending)
    else if s == "approved" then Some(Approved)
    else if s == "rejected" then Some(Rejected)
    else None
  }

  /** `z.enum(["low", "medium", "high"])`. */
  function ParsePriority(s: string): (r: Option<Priority>)
    ensures r.Some? ==> r.value.Name() == s
    ensures r.None? <==> forall p: Priority :: p.Name() != s
  {
    if s == "low" then Some(Low)
    else if s == "medium" then Some(Medium)
    else if s == "high" then Some(High)
    else None
  }

  /** Each enumeration has exactly three values with three distinct names, and
      its parser inverts its naming. */
  lemma EnumsAreThreeValued()
    ensures forall a: Role, b: Role :: a.Name() == b.Name() ==> a == b
    ensures forall a: Status, b: Status :: a.Name() == b.Name() ==> a == b
    ensures forall a: Priority, b: Priority :: a.Name() == b.Name() ==> a == b
    ensures forall a: Role :: ParseRole(a.Name()) == Some(a)
    ensures forall a: Status :: ParseStatus(a.Name()) == Some(a)
    ensures forall a: Priority :: ParsePriority(a.Name()) == Some(a)
    ensures |{Admin, Officer, Public}| == 3 && |{Pending, Approved, Rejected}| == 3
  {
    assert {Admin, Officer, Public} == {Admin} + {Officer} + {Public};
    assert {Pending, Approved, Rejected} == {Pending} + {Approved} + {Rejected};
  }

  // ------------------------------------------------------ zod primitives

  /** `z.string().min(n)` applied to a possibly missing value. */
  function StringMin(v: Option<Json>, n: nat): Option<string> {
    if v.Some? && v.value.JStr? && |v.value.s| >= n then Some(v.value.s) else None
  }

  /** `z.number().min(n)`. */
  function NumberMin(v: Option<Json>, n: int): Option<int> {
    if v.Some? && v.value.JNum? && v.value.n >= n then Some(v.value.n) else None
  }

  /** `z.string().optional()`: the outer `None` is a rejection, the inner one
      an absent value. */
  function OptionalString(v: Option<Json>): Option<Option<string>> {
    match v
    case None => Some(None)
    case Some(JStr(s)) => Some(Some(s))
    case Some(_) => None
  }

  /** `z.string().nullable()`: a string or `null`, but not a missing key. */
  function NullableString(v: Option<Json>): Option<Option<string>> {
    match v
    case Some(JStr(s)) => Some(Some(s))
    case Some(JNull) => Some(None)
    case _ => None
  }

  /** `z.array(z.string()).optional()`. */
  function OptionalStrings(v: Option<Json>): Option<Option<seq<string>>> {
    match v
    case None => Some(None)
    case Some(JArr(items)) =>
      if forall i :: 0 <= i < |items| ==> items[i].JStr? then
        Some(Some(seq(|items|, i requires 0 <= i < |items| && items[i].JStr? => items[i].s)))
      else None
    case Some(_) => None
  }

  /** `z.enum([...]).default(d)`: only a missing key takes the default. */
  function EnumOrDefault<E>(v: Option<Json>, parse: string -> Option<E>, d: E): Option<E> {
    match v
    case None => Some(d)
    case Some(JStr(s)) => parse(s)
    case Some(_) => None
  }

  // The conditions of the two validators, stated key by key.

  ghost predicate StringAt(j: Json, k: string, n: nat) {
    j.JObj? && k in j.fields && j.fields[k].JStr? && |j.fields[k].s| >= n
  }

  ghost predicate OptionalStringAt(j: Json, k: string) {
    j.JObj? && (k in j.fields ==> j.fields[k].JStr?)
  }

  // -------------------------------------------------------------- metadata

  datatype Metadata = Metadata(
    description: string,
    fileName: string,
    fileSize: int,
    fileType: string,
    timestamp: string,
    location: Option<string>,
    deviceInfo: Option<string>,
    additionalNotes: Option<string>)

  /** What evidenceMetadataSchema demands of the values it accepts. */
  predicate WellFormedMetadata(m: Metadata) {
    |m.description| >= 10 && m.fileName != "" && m.fileSize >= 1 && m.fileType != ""
  }

  /** evidenceMetadataSchema.parse: unknown keys are dropped. */
  function ParseMetadata(j: Json): (r: Option<Metadata>)
    ensures r.Some? <==>
      && StringAt(j, "description", 10)
      && StringAt(j, "fileName", 1)
      && "fileSize" in j.fields && j.fields["fileSize"].JNum? && j.fields["fileSize"].n >= 1
      && StringAt(j, "fileType", 1)
      && StringAt(j, "timestamp", 0)
      && OptionalStringAt(j, "location")
      && OptionalStringAt(j, "deviceInfo")
      && OptionalStringAt(j, "additionalNotes")
    ensures r.Some? ==> WellFormedMetadata(r.value)
    ensures r.Some? ==>
      && r.value.description == j.fields["description"].s
      && r.value.fileName == j.fields["fileName"].s
      && r.value.fileSize == j.fields["fileSize"].n
      && r.value.fileType == j.fields["fileType"].s
      && r.value.timestamp == j.fields["timestamp"].s
      && r.value.location == (if "location" in j.fields then Some(j.fields["location"].s) else None)
      && r.value.deviceInfo == (if "deviceInfo" in j.fields then Some(j.fields["deviceInfo"].s) else None)
      && r.value.additionalNotes ==
           (if "additionalNotes" in j.fields then Some(j.fields["additionalNotes"].s) else None)
  {
    var description := StringMin(Get(j, "description"), 10);
    var fileName := StringMin(Get(j, "fileName"), 1);
    var fileSize := NumberMin(Get(j, "fileSize"), 1);
    var fileType := StringMin(Get(j, "fileType"), 1);
    var timestamp := StringMin(Get(j, "timestamp"), 0);
    var location := OptionalString(Get(j, "location"));
    var deviceInfo := OptionalString(Get(j, "deviceInfo"));
    var notes := OptionalString(Get(j, "additionalNotes"));
    if && description.Some? && fileName.Some? && fileSize.Some? && fileType.Some?
       && timestamp.Some? && location.Some? && deviceInfo.Some? && notes.Some?
    then
      Some(Metadata(description.value, fileName.value, fileSize.value, fileType.value,
                    timestamp.value, location.value, deviceInfo.value, notes.value))
    else None
  }

  function PutOptional(m: map<string, Json>, k: string, v: Option<string>): map<string, Json> {
    if v.Some? then m[k := JStr(v.value)] else m
  }

  /** The JSON object a client sends for a metadata value (absent optional
      keys are left out, as `JSON.stringify` leaves out `undefined`). */
  function EncodeMetadata(m: Metadata): (j: Json)
    ensures j.JObj?
  {
    var base := map[
      "description" := JStr(m.description),
      "fileName" := JStr(m.fileName),
      "fileSize" := JNum(m.fileSize),
      "fileType" := JStr(m.fileType),
      "timestamp" := JStr(m.timestamp)];
    JObj(PutOptional(PutOptional(PutOptional(base, "location", m.location),
                                 "deviceInfo", m.deviceInfo),
                     "additionalNotes", m.additionalNotes))
  }

  /** Decoding an encoded well-formed metadata value gives it back. */
  lemma MetadataRoundTrip(m: Metadata)
    requires WellFormedMetadata(m)
    ensures ParseMetadata(EncodeMetadata(m)) == Some(m)
  {
    var j := EncodeMetadata(m);
    assert Get(j, "description") == Some(JStr(m.description));
    assert Get(j, "fileName") == Some(JStr(m.fileName));
    assert Get(j, "fileSize") == Some(JNum(m.fileSize));
    assert Get(j, "fileType") == Some(JStr(m.fileType));
    assert Get(j, "timestamp") == Some(JStr(m.timestamp));
    assert OptionalString(Get(j, "location")) == Some(m.location);
    assert OptionalString(Get(j, "deviceInfo")) == Some(m.deviceInfo);
    assert OptionalString(Get(j, "additionalNotes")) == Some(m.additionalNotes);
  }

  // ------------------------------------------------------- evidence insert

  datatype InsertEvidence = InsertEvidence(
    caseId: string,
    submittedBy: string,
    fileHash: string,
    ipfsHash: string,
    metadata: Metadata,
    status: Status,
    transactionHash: Option<string>,
    priority: Priority,
    tags: Option<seq<string>>)

  /** What insertEvidenceSchema demands of the values it accepts. */
  predicate WellFormedInsert(e: InsertEvidence) {
    && e.caseId != "" && e.submittedBy != "" && e.fileHash != "" && e.ipfsHash != ""
    && WellFormedMetadata(e.metadata)
  }

  /** insertEvidenceSchema.parse. */
  function ParseInsertEvidence(j: Json): (r: Option<InsertEvidence>)
    ensures r.Some? <==>
      && StringAt(j, "caseId", 1)
      && StringAt(j, "submittedBy", 1)
      && StringAt(j, "fileHash", 1)
      && StringAt(j, "ipfsHash", 1)
      && "metadata" in j.fields && ParseMetadata(j.fields["metadata"]).Some?
      && ("status" in j.fields ==>
            j.fields["status"].JStr? && ParseStatus(j.fields["status"].s).Some?)
      && "transactionHash" in j.fields
      && (j.fields["transactionHash"].JStr? || j.fields["transactionHash"].JNull?)
      && ("priority" in j.fields ==>
            j.fields["priority"].JStr? && ParsePriority(j.fields["priority"].s).Some?)
      && OptionalStrings(Get(j, "tags")).Some?
    ensures r.Some? ==> WellFormedInsert(r.value)
    ensures r.Some? ==>
      && r.value.caseId == j.fields["caseId"].s
      && r.value.submittedBy == j.fields["submittedBy"].s
      && r.value.fileHash == j.fields["fileHash"].s
      && r.value.ipfsHash == j.fields["ipfsHash"].s
      && Some(r.value.metadata) == ParseMetadata(j.fields["metadata"])
      && r.value.status == (if "status" in j.fields then ParseStatus(j.fields["status"].s).value else Pending)
      && r.value.priority == (if "priority" in j.fields then ParsePriority(j.fields["priority"].s).value else Medium)
      && r.value.transactionHash ==
           (if j.fields["transactionHash"].JStr? then Some(j.fields["transactionHash"].s) else None)
      && (r.value.tags.Some? <==> "tags" in j.fields)
      && (r.value.tags.Some? ==>
            && |r.value.tags.value| == |j.fields["tags"].items|
            && forall i :: 0 <= i < |r.value.tags.value| ==>
                 r.value.tags.value[i] == j.fields["tags"].items[i].s)
  {
    var caseId := StringMin(Get(j, "caseId"), 1);
    var submittedBy := StringMin(Get(j, "submittedBy"), 1);
    var fileHash := StringMin(Get(j, "fileHash"), 1);
    var ipfsHash := StringMin(Get(j, "ipfsHash"), 1);
    var metadata := if Get(j, "metadata").Some? then ParseMetadata(j.fields["metadata"]) else None;
    var status := EnumOrDefault(Get(j, "status"), ParseStatus, Pending);
    var txHash := NullableString(Get(j, "transactionHash"));
    var priority := EnumOrDefault(Get(j, "priority"), ParsePriority, Medium);
    var tags := OptionalStrings(Get(j, "tags"));
    if && caseId.Some? && submittedBy.Some? && fileHash.Some? && ipfsHash.Some?
       && metadata.Some? && status.Some? && txHash.Some? && priority.Some? && tags.Some?
    then
      Some(InsertEvidence(caseId.value, submittedBy.value, fileHash.value, ipfsHash.value,
                          metadata.value, status.value, txHash.value, priority.value, tags.value))
    else None
  }

  // ------------------------------------------------------ stored records

  /** The value handed to `createUser`: the users table less its serial id,
      with the role restricted to the UserRole values. */
  datatype InsertUser = InsertUser(
    address: string,
    role: Role,
    name: string,
    department: string,
    badgeNumber: Option<string>,
    email: Option<string>,
    isRegistered: bool,
    registrationDate: Option<Time>,
    lastLogin: Option<Time>)

  /** `{ ...user, id }`. */
  datatype User = User(id: nat, data: InsertUser)

  /** `{ ...evidence, id }`. */
  datatype Evidence = Evidence(id: nat, data: InsertEvidence)
}
