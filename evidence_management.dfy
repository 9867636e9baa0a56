/** The administrator's edit and delete dialog
    (client/src/components/evidence/evidence-management.tsx): the edit form
    schema, its defaults, the admin gate and the PATCH payload. The requests
    themselves are sent by the surrounding page and are not modelled. */
module EvidenceManagement {
  import opened Wrappers
  import opened Json
  import opened Schema
  import Storage
  import Auth

  /** The values of the edit form as typed. */
  datatype EditForm = EditForm(caseId: string, description: string, status: string)

  /** The values once `editEvidenceSchema` has accepted them. */
  datatype EditData = EditData(caseId: string, description: string, status: Status)

  /** `editEvidenceSchema`: a non-empty case id, a description of at least
      ten characters and one of the three status names. */
  function ParseEdit(f: EditForm): (r: Option<EditData>)
    ensures r.Some? <==> |f.caseId| >= 1 && |f.description| >= 10 && ParseStatus(f.status).Some?
    ensures r.Some? ==> r.value.caseId == f.caseId && r.value.description == f.description
                        && r.value.status.Name() == f.status
  {
    match ParseStatus(f.status)
    case None => None
    case Some(st) =>
      if |f.caseId| >= 1 && |f.description| >= 10 then Some(EditData(f.caseId, f.description, st)) else None
  }

  /** The form's default values: the record's current case id, description
      and status. */
  function Defaults(e: Evidence): (f: EditForm)
    ensures f.caseId == e.data.caseId
    ensures f.description == e.data.metadata.description
    ensures ParseStatus(f.status) == Some(e.data.status)
  {
    EditForm(e.data.caseId, e.data.metadata.description, e.data.status.Name())
  }

  /** A record the server accepted can be saved unchanged: its defaults pass
      the edit schema and give back its own values. */
  lemma DefaultsOfStoredEvidenceValidate(e: Evidence)
    requires WellFormedInsert(e.data)
    ensures ParseEdit(Defaults(e)) == Some(EditData(e.data.caseId, e.data.metadata.description, e.data.status))
  {
  }

  /** No transition rule: from any current status the form accepts each of
      the three statuses. */
  lemma AnyStatusSelectable(e: Evidence, target: Status)
    requires WellFormedInsert(e.data)
    ensures var f := Defaults(e).(status := target.Name());
            ParseEdit(f) == Some(EditData(e.data.caseId, e.data.metadata.description, target))
  {
  }

  /** Only a signed-in administrator gets the controls; everyone else gets
      the refusal message. */
  function CanManage(user: Option<User>): (b: bool)
    ensures b <==> Auth.RequireRole([Admin], user) == Auth.Next
    ensures b ==> Storage.SeesAll(user.value.data.role)
  {
    user.Some? && user.value.data.role == Admin
  }

  /** `{ ...metadata, description }`: the stored metadata object with its
      description replaced. */
  function MergeDescription(metadata: map<string, Json>, description: string): (r: map<string, Json>)
    ensures r.Keys == metadata.Keys + {"description"}
    ensures r["description"] == JStr(description)
    ensures forall k :: k in metadata && k != "description" ==> r[k] == metadata[k]
  {
    metadata["description" := JStr(description)]
  }

  /** The PATCH body: the accepted form values with the merged metadata. */
  function PatchBody(e: Evidence, data: EditData): (r: Json)
    ensures r.JObj? && r.fields.Keys == {"caseId", "description", "status", "metadata"}
    ensures Get(r, "caseId") == Some(JStr(data.caseId))
    ensures Get(r, "description") == Some(JStr(data.description))
    ensures Get(r, "status") == Some(JStr(data.status.Name()))
    ensures ParseStatus(r.fields["status"].s) == Some(data.status)
    ensures Get(r, "metadata") == Some(JObj(MergeDescription(EncodeMetadata(e.data.metadata).fields, data.description)))
  {
    JObj(map["caseId" := JStr(data.caseId),
             "description" := JStr(data.description),
             "status" := JStr(data.status.Name()),
             "metadata" := JObj(MergeDescription(EncodeMetadata(e.data.metadata).fields, data.description))])
  }

  /** The metadata sent with a PATCH reads back, under the server's metadata
      schema, as the stored metadata with only the description changed. */
  lemma PatchMetadataReplacesDescription(e: Evidence, data: EditData)
    requires WellFormedMetadata(e.data.metadata) && |data.description| >= 10
    ensures ParseMetadata(Get(PatchBody(e, data), "metadata").value)
            == Some(e.data.metadata.(description := data.description))
  {
    var m := e.data.metadata;
    var m' := m.(description := data.description);
    assert WellFormedMetadata(m');
    MetadataRoundTrip(m');
    assert MergeDescription(EncodeMetadata(m).fields, data.description) == EncodeMetadata(m').fields;
  }

  /** Whether the deletion confirmation is open. */
  datatype Dialog = Dialog(confirmOpen: bool)

  /** What the administrator does in the dialog. */
  datatype Action =
    | Save(form: EditForm)    // "Save Changes", submitting the form
    | AskDelete               // "Delete Case" in the edit form
    | CancelDelete            // "Cancel" in the confirmation, or closing it
    | ConfirmDelete           // "Delete Permanently" in the confirmation

  datatype Request = Patch(id: nat, body: Json) | Delete(id: nat)

  /** One action: the dialog state afterwards and the request it sends. */
  function Handle(user: Option<User>, e: Evidence, d: Dialog, a: Action): (r: (Dialog, Option<Request>))
    ensures !CanManage(user) ==> r == (d, None)
    ensures r.1.Some? && r.1.value.Delete? <==> CanManage(user) && a == ConfirmDelete && d.confirmOpen
    ensures r.1.Some? && r.1.value.Patch? <==> CanManage(user) && a.Save? && ParseEdit(a.form).Some?
    ensures r.1.Some? ==> r.1.value.id == e.id
    ensures r.1.Some? && r.1.value.Patch? ==> r.1.value.body == PatchBody(e, ParseEdit(a.form).value)
  {
    if !CanManage(user) then (d, None)
    else match a
      case Save(f) =>
        (match ParseEdit(f)
         case None => (d, None)
         case Some(data) => (d, Some(Patch(e.id, PatchBody(e, data)))))
      case AskDelete => (Dialog(true), None)
      case CancelDelete => (Dialog(false), None)
      case ConfirmDelete => (d, if d.confirmOpen then Some(Delete(e.id)) else None)
  }

  /** The state the dialog is in after a sequence of actions, from a closed
      confirmation. */
  function Run(user: Option<User>, e: Evidence, actions: seq<Action>): (r: (Dialog, seq<Request>))
    decreases |actions|
  {
    if actions == [] then (Dialog(false), [])
    else
      var prev := Run(user, e, actions[..|actions| - 1]);
      var step := Handle(user, e, prev.0, actions[|actions| - 1]);
      (step.0, prev.1 + (if step.1.Some? then [step.1.value] else []))
  }

  /** The confirmation is open after an administrator's action only if that
      action asked to delete, or it was open and the action did not cancel;
      anyone else's action leaves it as it was. */
  lemma ConfirmStep(user: Option<User>, e: Evidence, d: Dialog, a: Action)
    ensures Handle(user, e, d, a).0.confirmOpen ==>
              if CanManage(user) then a == AskDelete || (d.confirmOpen && a != CancelDelete) else d.confirmOpen
  {
  }

  /** The confirmation stays open from a request to delete until a cancel. */
  lemma {:induction false} ConfirmOpenAfterAsk(user: Option<User>, e: Evidence, actions: seq<Action>)
    ensures Run(user, e, actions).0.confirmOpen ==>
              CanManage(user) &&
              exists i :: 0 <= i < |actions| && actions[i] == AskDelete
                          && forall j :: i < j < |actions| ==> actions[j] != CancelDelete
    decreases |actions|
  {
    if actions != [] {
      var init := actions[..|actions| - 1];
      var last := actions[|actions| - 1];
      var prev := Run(user, e, init);
      ConfirmStep(user, e, prev.0, last);
      ConfirmOpenAfterAsk(user, e, init);
      if Run(user, e, actions).0.confirmOpen {
        if last == AskDelete {
          assert actions[|actions| - 1] == AskDelete;
        } else {
          var i :| 0 <= i < |init| && init[i] == AskDelete
                   && forall j :: i < j < |init| ==> init[j] != CancelDelete;
          assert actions[i] == AskDelete;
          assert forall j :: i < j < |actions| ==> actions[j] != CancelDelete by {
            forall j | i < j < |actions|
              ensures actions[j] != CancelDelete
            {
              if j < |init| { assert actions[j] == init[j]; }
            }
          }
        }
      }
    }
  }

  /** A DELETE is only ever sent, for an administrator, from the open
      confirmation, so after a request to delete. */
  lemma {:induction false} DeleteNeedsConfirmation(user: Option<User>, e: Evidence, actions: seq<Action>)
    ensures Delete(e.id) in Run(user, e, actions).1 ==>
              CanManage(user) && exists i :: 0 <= i < |actions| && actions[i] == AskDelete
    decreases |actions|
  {
    if actions != [] {
      var init := actions[..|actions| - 1];
      var last := actions[|actions| - 1];
      var prev := Run(user, e, init);
      var step := Handle(user, e, prev.0, last);
      assert Run(user, e, actions).1 == prev.1 + (if step.1.Some? then [step.1.value] else []);
      if Delete(e.id) in Run(user, e, actions).1 {
        if Delete(e.id) in prev.1 {
          DeleteNeedsConfirmation(user, e, init);
          var i :| 0 <= i < |init| && init[i] == AskDelete;
          assert actions[i] == AskDelete;
        } else {
          assert step.1 == Some(Delete(e.id));
          ConfirmOpenAfterAsk(user, e, init);
          var i :| 0 <= i < |init| && init[i] == AskDelete
                   && forall j :: i < j < |init| ==> init[j] != CancelDelete;
          assert actions[i] == AskDelete;
        }
      }
    }
  }
}
