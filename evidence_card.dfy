/** The status badge and hash previews of an evidence card
    (client/src/components/evidence/evidence-card.tsx). */
module EvidenceCard {
  import opened Wrappers
  import opened Text
  import opened Schema

  /** `getStatusColor`: a switch on the lower-cased status. */
  function StatusColor(status: string): (r: string)
    ensures r in {"bg-yellow-500", "bg-green-500", "bg-red-500", "bg-gray-500"}
  {
    var s := Lower(status);
    if s == "pending" then "bg-yellow-500"
    else if s == "approved" then "bg-green-500"
    else if s == "rejected" then "bg-red-500"
    else "bg-gray-500"
  }

  datatype Icon = Clock | CheckCircle | XCircle

  /** `getStatusIcon`: `None` is the `null` of the default branch. */
  function StatusIcon(status: string): (r: Option<Icon>)
    ensures r == Some(Clock) <==> ParseStatus(Lower(status)) == Some(Pending)
    ensures r == Some(CheckCircle) <==> ParseStatus(Lower(status)) == Some(Approved)
    ensures r == Some(XCircle) <==> ParseStatus(Lower(status)) == Some(Rejected)
    ensures r.None? <==> ParseStatus(Lower(status)).None?
  {
    var s := Lower(status);
    if s == "pending" then Some(Clock)
    else if s == "approved" then Some(CheckCircle)
    else if s == "rejected" then Some(XCircle)
    else None
  }

  /** The three statuses map to yellow/clock, green/check and red/cross;
      every other text maps to grey and no icon. */
  lemma StatusBadges(status: string)
    ensures Lower(status) == "pending" ==> StatusColor(status) == "bg-yellow-500" && StatusIcon(status) == Some(Clock)
    ensures Lower(status) == "approved" ==> StatusColor(status) == "bg-green-500" && StatusIcon(status) == Some(CheckCircle)
    ensures Lower(status) == "rejected" ==> StatusColor(status) == "bg-red-500" && StatusIcon(status) == Some(XCircle)
    ensures StatusColor(status) == "bg-gray-500" <==> StatusIcon(status).None?
    ensures StatusIcon(status).None? <==> forall st: Status :: Lower(status) != st.Name()
  {
    assert Pending.Name() == "pending" && Approved.Name() == "approved" && Rejected.Name() == "rejected";
  }

  /** A stored record's status always gets its own colour and icon. */
  lemma StoredStatusHasBadge(st: Status)
    ensures StatusColor(st.Name()) != "bg-gray-500" && StatusIcon(st.Name()).Some?
  {
    LowerOfLowerCase(st.Name());
  }

  /** The mapping ignores letter case. */
  lemma BadgeIgnoresCase(status: string)
    ensures StatusColor(Lower(status)) == StatusColor(status)
    ensures StatusIcon(Lower(status)) == StatusIcon(status)
  {
    LowerIdempotent(status);
  }

  /** `value.slice(0, 10)`, shown before "..." for the file hash and the
      content reference. */
  function Preview(value: string): (r: string)
    ensures |r| == if |value| < 10 then |value| else 10
    ensures r <= value
  {
    Prefix(value, 10)
  }
}
