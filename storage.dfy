/** The in-memory store of server/storage.ts: users keyed by address,
    evidence keyed by id, and one id counter shared by both tables. */
module Storage {
  import opened Wrappers
  import opened Schema
  import Seqs

  /** The role test of `getEvidence`: it compares the role's name with
      "admin" and with "cbi". */
  predicate SeesAll(role: Role) {
    role.Name() == "admin" || role.Name() == "cbi"
  }

  /** No role is named "cbi", so only administrators see every record. */
  lemma SeesAllOnlyAdmin(role: Role)
    ensures SeesAll(role) <==> role == Admin
  {
    assert role.Name() != "cbi" by {
      assert |"cbi"| == 3 && "cbi"[0] == 'c';
    }
  }

  /** The visibility rule `getEvidence` applies to one record. */
  function VisibleTo(user: User, e: Evidence): (b: bool)
    ensures user.data.role == Admin ==> b
    ensures user.data.role != Admin ==> (b <==> e.data.submittedBy == user.data.address)
  {
    SeesAllOnlyAdmin(user.data.role);
    SeesAll(user.data.role) || e.data.submittedBy == user.data.address
  }

  class MemStorage {
    var users: map<string, User>
    /** The id-keyed `Map` of evidence, as its entries in insertion order
        (the key of each entry is its `id`). */
    var evidence: seq<Evidence>
    var currentId: nat
    /** Every id the counter has handed out, to users or to evidence. */
    ghost var issued: set<nat>

    ghost predicate Valid()
      reads this
    {
      && currentId >= 1
      && (forall k :: k in issued <==> 1 <= k < currentId)
      && (forall a :: a in users ==> users[a].data.address == a && users[a].id in issued)
      && (forall i :: 0 <= i < |evidence| ==> evidence[i].id in issued)
      && (forall i, j :: 0 <= i < j < |evidence| ==> evidence[i].id < evidence[j].id)
      && (forall a, b :: a in users && b in users && a != b ==> users[a].id != users[b].id)
      && (forall a, i :: a in users && 0 <= i < |evidence| ==> users[a].id != evidence[i].id)
    }

    /** The ids of the stored records. */
    ghost function Ids(): set<nat>
      reads this
    {
      (set a | a in users :: users[a].id) + (set i | 0 <= i < |evidence| :: evidence[i].id)
    }

    constructor ()
      ensures Valid()
      ensures users == map[] && evidence == [] && currentId == 1 && issued == {}
    {
      users := map[];
      evidence := [];
      currentId := 1;
      issued := {};
    }

    /** `getUser(address)`: an exact-key lookup, with no case folding. */
    function GetUser(address: string): (r: Option<User>)
      reads this
      requires Valid()
      ensures r.Some? <==> address in users
      ensures r.Some? ==> r.value == users[address] && r.value.data.address == address
    {
      if address in users then Some(users[address]) else None
    }

    /** `createUser(user)`: stores `{ ...user, id: currentId++ }` under
        `user.address`, replacing any record already stored there. */
    method CreateUser(user: InsertUser) returns (r: User)
      requires Valid()
      modifies this
      ensures Valid()
      ensures r == User(old(currentId), user)
      ensures currentId == old(currentId) + 1
      ensures r.id !in old(issued) && issued == old(issued) + {r.id}
      ensures users == old(users)[user.address := r]
      ensures evidence == old(evidence)
    {
      r := User(currentId, user);
      users := users[user.address := r];
      issued := issued + {currentId};
      currentId := currentId + 1;
    }

    /** `createEvidence(evidence)`: stores `{ ...evidence, id: currentId++ }`;
        the id is fresh, so the entry goes to the end of the map's order. */
    method CreateEvidence(ev: InsertEvidence) returns (r: Evidence)
      requires Valid()
      modifies this
      ensures Valid()
      ensures r == Evidence(old(currentId), ev)
      ensures currentId == old(currentId) + 1
      ensures r.id !in old(issued) && issued == old(issued) + {r.id}
      ensures evidence == old(evidence) + [r]
      ensures users == old(users)
    {
      r := Evidence(currentId, ev);
      evidence := evidence + [r];
      issued := issued + {currentId};
      currentId := currentId + 1;
    }

    /** `getEvidence(user)`: the stored records the user may see, in
        insertion order. */
    function GetEvidence(user: User): (r: seq<Evidence>)
      reads this
      ensures SeesAll(user.data.role) ==> r == evidence
      ensures forall e :: e in r <==> e in evidence && VisibleTo(user, e)
      ensures forall e :: multiset(r)[e] == if VisibleTo(user, e) then multiset(evidence)[e] else 0
      ensures !SeesAll(user.data.role) ==>
                forall e :: e in r <==> e in evidence && e.data.submittedBy == user.data.address
      ensures Seqs.IsSubsequence(r, evidence)
    {
      var r := Seqs.Filter((e: Evidence) => VisibleTo(user, e), evidence);
      Seqs.FilterIsSubsequence((e: Evidence) => VisibleTo(user, e), evidence);
      if SeesAll(user.data.role) then
        Seqs.FilterKeepsAll((e: Evidence) => VisibleTo(user, e), evidence);
        r
      else r
    }
  }

  /** Two stored records never share an id, across both tables. */
  lemma IdsAreUnique(s: MemStorage)
    requires s.Valid()
    ensures forall a, b :: a in s.users && b in s.users && a != b ==> s.users[a].id != s.users[b].id
    ensures forall i, j :: 0 <= i < |s.evidence| && 0 <= j < |s.evidence| && i != j ==>
              s.evidence[i].id != s.evidence[j].id
    ensures forall a, i :: a in s.users && 0 <= i < |s.evidence| ==> s.users[a].id != s.evidence[i].id
    ensures forall id :: id in s.Ids() ==> 1 <= id < s.currentId
  {
    forall i, j | 0 <= i < |s.evidence| && 0 <= j < |s.evidence| && i != j
      ensures s.evidence[i].id != s.evidence[j].id
    {
      if i < j { assert s.evidence[i].id < s.evidence[j].id; }
      else { assert s.evidence[j].id < s.evidence[i].id; }
    }
  }
}
