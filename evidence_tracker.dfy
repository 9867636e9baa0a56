/** The search and status filter of the evidence tracker page
    (client/src/pages/evidence-tracker.tsx). */
module EvidenceTracker {
  import opened Text
  import opened Schema
  import Seqs

  /** The test applied to one record: the lower-cased case id contains the
      lower-cased search text, and the status select is "all" or the
      record's status. */
  predicate Matches(e: Evidence, search: string, status: string) {
    Includes(Lower(e.data.caseId), Lower(search)) && (status == "all" || e.data.status.Name() == status)
  }

  /** `filteredEvidence`. */
  function FilteredEvidence(evidence: seq<Evidence>, search: string, status: string): (r: seq<Evidence>)
    ensures Seqs.IsSubsequence(r, evidence)
    ensures forall e :: e in r <==> e in evidence && Matches(e, search, status)
    ensures forall e :: multiset(r)[e] == if Matches(e, search, status) then multiset(evidence)[e] else 0
    ensures status != "all" ==> forall e :: e in r ==> e.data.status.Name() == status
    ensures forall e :: e in r ==> Includes(Lower(e.data.caseId), Lower(search))
  {
    Seqs.FilterIsSubsequence((e: Evidence) => Matches(e, search, status), evidence);
    Seqs.Filter((e: Evidence) => Matches(e, search, status), evidence)
  }

  /** With the initial state of the page, an empty search and "all", every
      record is shown, in the order received. */
  lemma InitialFilterShowsAll(evidence: seq<Evidence>)
    ensures FilteredEvidence(evidence, "", "all") == evidence
  {
    forall e | e in evidence
      ensures Matches(e, "", "all")
    {
      IncludesEmpty(Lower(e.data.caseId));
    }
    Seqs.FilterKeepsAll((e: Evidence) => Matches(e, "", "all"), evidence);
  }

  /** Filtering an already filtered list changes nothing. */
  lemma FilterTwice(evidence: seq<Evidence>, search: string, status: string)
    ensures FilteredEvidence(FilteredEvidence(evidence, search, status), search, status)
            == FilteredEvidence(evidence, search, status)
  {
    Seqs.FilterIdempotent((e: Evidence) => Matches(e, search, status), evidence);
  }

  /** The search is case-insensitive: searching for a text and for its
      lower-case form show the same records. */
  lemma SearchIgnoresCase(evidence: seq<Evidence>, search: string, status: string)
    ensures FilteredEvidence(evidence, search, status) == FilteredEvidence(evidence, Lower(search), status)
  {
    LowerIdempotent(search);
    Seqs.FilterCongruent((e: Evidence) => Matches(e, search, status),
                         (e: Evidence) => Matches(e, Lower(search), status), evidence);
  }
}
