/** The registration dialog (client/src/components/auth/registration-dialog.tsx):
    its form schema, and what submitting it sends to POST /api/auth/connect
    through `connectWithMetaMask` (client/src/hooks/use-auth.tsx). */
module RegistrationDialog {
  import opened Wrappers
  import opened Json
  import opened Schema
  import opened Auth

  /** The form values as held by the form; `None` is a field never set. */
  datatype RegistrationValues = RegistrationValues(
    name: Option<string>,
    department: Option<string>,
    badgeNumber: Option<string>,
    email: Option<string>)

  /** The values once `registrationSchema` has accepted them. */
  datatype RegistrationData = RegistrationData(
    name: string,
    department: string,
    badgeNumber: Option<string>,
    email: Option<string>)

  /** `registrationSchema`: a name and a department of at least two
      characters; an optional badge number; an optional e-mail address that,
      when given, passes the e-mail check `isEmail`. */
  function ParseRegistration(v: RegistrationValues, isEmail: string -> bool): (r: Option<RegistrationData>)
    ensures r.Some? <==>
              && v.name.Some? && |v.name.value| >= 2
              && v.department.Some? && |v.department.value| >= 2
              && (v.email.Some? ==> isEmail(v.email.value))
    ensures r.Some? ==> r.value == RegistrationData(v.name.value, v.department.value, v.badgeNumber, v.email)
  {
    if v.name.Some? && |v.name.value| >= 2 && v.department.Some? && |v.department.value| >= 2
       && (v.email.None? || isEmail(v.email.value))
    then Some(RegistrationData(v.name.value, v.department.value, v.badgeNumber, v.email))
    else None
  }

  /** The form's default values: empty name and department. */
  const DefaultValues: RegistrationValues := RegistrationValues(Some(""), Some(""), None, None)

  /** Submitting the untouched form is refused, whatever the e-mail check. */
  lemma UntouchedFormRejected(isEmail: string -> bool)
    ensures ParseRegistration(DefaultValues, isEmail) == None
  {
  }

  /** The external calls the dialog makes, in order. */
  datatype DialogCall = ConnectCall(request: ConnectRequest) | CloseCall

  /** `await connectWithMetaMask(data); onClose();`: the dialog closes only
      when the connect call has resolved; `resolves` says whether it did. */
  function Sequence(request: ConnectRequest, resolves: bool): (calls: seq<DialogCall>)
    ensures |calls| >= 1 && calls[0] == ConnectCall(request)
    ensures CloseCall in calls <==> resolves
    ensures resolves ==> calls == [ConnectCall(request), CloseCall]
  {
    if resolves then [ConnectCall(request), CloseCall] else [ConnectCall(request)]
  }

  /** The connect request as written: `connectWithMetaMask` takes no
      arguments and posts only the wallet's address, so the form's data is
      dropped. */
  function ConnectBody(wallet: string, data: RegistrationData): (req: ConnectRequest)
    ensures req.address == Some(JStr(wallet)) && req.provider.None? && req.registration.None?
  {
    ConnectRequest(Some(JStr(wallet)), None, None)
  }

  /** The registration object the server reads, built from the form's data;
      an empty or missing field is the server's falsy value. */
  function ToRegistration(data: RegistrationData): (reg: Registration)
    ensures reg.name == data.name && reg.department == data.department
    ensures reg.badgeNumber == data.badgeNumber.GetOr("")
    ensures reg.email.Some? <==> data.email.Some? && data.email.value != ""
    ensures reg.email.Some? ==> reg.email == data.email
  {
    Registration(data.name, data.department, data.badgeNumber.GetOr(""),
                 if data.email.Some? && data.email.value != "" then data.email else None)
  }

  /** The connect request the dialog evidently means to send: the address
      with the form's data as `registration`. */
  function ConnectBodyIntended(wallet: string, data: RegistrationData): (req: ConnectRequest)
    ensures req.address == Some(JStr(wallet)) && req.provider.None?
    ensures req.registration == Some(ToRegistration(data))
  {
    ConnectRequest(Some(JStr(wallet)), None, Some(ToRegistration(data)))
  }

  /** `form.handleSubmit(onSubmit)` as written: nothing is called for
      values the schema refuses. */
  function OnSubmit(v: RegistrationValues, isEmail: string -> bool, wallet: string, resolves: bool): (calls: seq<DialogCall>)
    ensures calls == [] <==> ParseRegistration(v, isEmail).None?
    ensures calls != [] ==> calls == Sequence(ConnectBody(wallet, ParseRegistration(v, isEmail).value), resolves)
  {
    match ParseRegistration(v, isEmail)
    case None => []
    case Some(data) => Sequence(ConnectBody(wallet, data), resolves)
  }

  /** `form.handleSubmit(onSubmit)` with the registration data passed on. */
  function OnSubmitIntended(v: RegistrationValues, isEmail: string -> bool, wallet: string, resolves: bool): (calls: seq<DialogCall>)
    ensures calls == [] <==> ParseRegistration(v, isEmail).None?
    ensures calls != [] ==> calls == Sequence(ConnectBodyIntended(wallet, ParseRegistration(v, isEmail).value), resolves)
  {
    match ParseRegistration(v, isEmail)
    case None => []
    case Some(data) => Sequence(ConnectBodyIntended(wallet, data), resolves)
  }

  /** As written, a new wallet that fills in the dialog is asked to register
      again: the server sees no registration and refuses, so the connect call
      rejects and the dialog stays open. */
  lemma RegistrationNeverReachesServer(v: RegistrationValues, isEmail: string -> bool, wallet: string,
                                       users: map<string, User>, now: Time, serial: nat, nextId: nat)
    requires wallet != "" && wallet !in users
    requires ParseRegistration(v, isEmail).Some?
    ensures var req := ConnectBody(wallet, ParseRegistration(v, isEmail).value);
            var out := Response(PlanConnect(req, users, now, serial), nextId);
            && out == Refused(NeedsRegistration)
            && OnSubmit(v, isEmail, wallet, out.LoggedIn?) == [ConnectCall(req)]
  {
  }

  /** With the data passed on, the same submission registers the wallet
      under the typed name and department, logs it in and closes the dialog. */
  lemma RegistrationRegisters(v: RegistrationValues, isEmail: string -> bool, wallet: string,
                              users: map<string, User>, now: Time, serial: nat, nextId: nat)
    requires wallet != "" && wallet !in users
    requires ParseRegistration(v, isEmail).Some?
    ensures var data := ParseRegistration(v, isEmail).value;
            var req := ConnectBodyIntended(wallet, data);
            var p := PlanConnect(req, users, now, serial);
            && p.Register?
            && p.profile.name == data.name && p.profile.department == data.department
            && p.profile.address == wallet && p.profile.role == AssignRole(wallet)
            && Response(p, nextId) == LoggedIn(User(nextId, p.profile))
            && OnSubmitIntended(v, isEmail, wallet, true) == [ConnectCall(req), CloseCall]
  {
    var data := ParseRegistration(v, isEmail).value;
    var req := ConnectBodyIntended(wallet, data);
    assert Truthy(req.address) && !IsWalletConnect(req);
    var p := PlanConnect(req, users, now, serial);
    assert p.Register? && p.profile == NewUser(wallet, ToRegistration(data), now, serial);
  }
}
