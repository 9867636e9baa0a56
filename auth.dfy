/** The connect handshake and the role gate of server/auth.ts. */
module Auth {
  import opened Wrappers
  import opened Json
  import opened Text
  import opened Schema
  import opened Storage

  /** `ADMIN_ADDRESSES`: the configured list after `.map(toLowerCase)`. Its
      one entry has no upper-case letter, so it is given here as written. */
  const AdminAddresses: seq<string> := ["0x1234567890123456789012345678901234567890"]

  /** `OFFICER_ADDRESSES`, likewise. */
  const OfficerAddresses: seq<string> := ["0x9876543210987654321098765432109876543210"]

  /** The role a new user gets: the allow-lists are searched with the
      lower-cased address, the administrator list first. */
  function AssignRole(address: string): (r: Role)
    ensures r == Admin <==> Lower(address) in AdminAddresses
    ensures r == Officer <==> Lower(address) !in AdminAddresses && Lower(address) in OfficerAddresses
  {
    var normalized := Lower(address);
    if normalized in AdminAddresses then Admin
    else if normalized in OfficerAddresses then Officer
    else Public
  }

  /** Role assignment ignores letter case: an address and its lower-case
      spelling get the same role. */
  lemma AssignRoleIgnoresCase(address: string)
    ensures AssignRole(Lower(address)) == AssignRole(address)
  {
    LowerIdempotent(address);
  }

  /** The configured administrator address gets Admin, in any letter case. */
  lemma ConfiguredAdminIsAdmin(address: string)
    requires Lower(address) == "0x1234567890123456789012345678901234567890"
    ensures AssignRole(address) == Admin
  {
  }

  /** The `registration` object of the request body; an empty string stands
      for a missing or falsy field. */
  datatype Registration = Registration(
    name: string,
    department: string,
    badgeNumber: string,
    email: Option<string>)

  /** The request body of POST /api/auth/connect; `None` is a missing key. */
  datatype ConnectRequest = ConnectRequest(
    address: Option<Json>,
    provider: Option<Json>,
    registration: Option<Registration>)

  /** Why the connect route does not log the caller in. */
  datatype Refusal =
    | AddressRequired          // 400 "Address required"
    | WalletConnectForbidden   // 403 "Only admins can use WalletConnect"
    | NeedsRegistration        // 401 with needsRegistration: true
    | Unhandled                // an exception escapes the handler: no answer, no session

  /** What the connect route answers. */
  datatype ConnectOutcome =
    | Refused(reason: Refusal)
    | LoggedIn(user: User)     // 200 with the user, who becomes the session user

  /** `${Role} ${address.slice(0, 6)}`, the default name. */
  function DefaultName(role: Role, address: string): (r: string)
    ensures |r| >= |role.Name()| + 1
  {
    Capitalize(role.Name()) + " " + Prefix(address, 6)
  }

  /** The profile of a newly registered user. `serial` is the value of
      `Math.floor(Math.random() * 10000)`; `now` is the clock. */
  function NewUser(address: string, reg: Registration, now: Time, serial: nat): (u: InsertUser)
    ensures u.address == address && u.role == AssignRole(address) && u.isRegistered
    ensures u.name != "" && u.department != ""
    ensures u.name == if reg.name != "" then reg.name else DefaultName(u.role, address)
    ensures u.department == if reg.department != "" then reg.department
                            else if u.role == Admin then "Central Bureau" else "Police Department"
    ensures u.badgeNumber.Some? && u.badgeNumber.value != ""
    ensures reg.badgeNumber != "" ==> u.badgeNumber == Some(reg.badgeNumber)
    ensures reg.badgeNumber == "" ==>
              u.badgeNumber.value == (if u.role == Admin then "CBI" else "PD") + Decimal(serial)
    ensures u.email == reg.email
    ensures u.registrationDate == Some(now) && u.lastLogin == Some(now)
  {
    var role := AssignRole(address);
    InsertUser(
      address,
      role,
      if reg.name != "" then reg.name else DefaultName(role, address),
      if reg.department != "" then reg.department
      else if role == Admin then "Central Bureau" else "Police Department",
      Some(if reg.badgeNumber != "" then reg.badgeNumber
           else (if role == Admin then "CBI" else "PD") + Decimal(serial)),
      reg.email,
      true,
      Some(now),
      Some(now))
  }

  /** What the handler decides from the request and the user table, before
      its one store call. */
  datatype Plan =
    | Refuse(reason: Refusal)
    | Register(profile: InsertUser)
    | Returning(stored: User)

  predicate IsWalletConnect(req: ConnectRequest) {
    req.provider == Some(JStr("walletconnect"))
  }

  /** The decision procedure of the connect route. */
  function PlanConnect(req: ConnectRequest, users: map<string, User>, now: Time, serial: nat): (p: Plan)
    ensures !Truthy(req.address) ==> p == Refuse(AddressRequired)
    ensures Truthy(req.address) && !req.address.value.JStr? ==> p == Refuse(Unhandled)
    ensures p == Refuse(WalletConnectForbidden) <==>
              && Truthy(req.address) && req.address.value.JStr? && IsWalletConnect(req)
              && Lower(req.address.value.s) !in AdminAddresses
    ensures p.Register? || p.Returning? || p == Refuse(NeedsRegistration) <==>
              && Truthy(req.address) && req.address.value.JStr?
              && (IsWalletConnect(req) ==> Lower(req.address.value.s) in AdminAddresses)
    ensures p.Returning? ==> req.address.value.s in users && p.stored == users[req.address.value.s]
    ensures p.Register? || p == Refuse(NeedsRegistration) ==> req.address.value.s !in users
    ensures p.Register? <==> (p.Register? || p == Refuse(NeedsRegistration)) && req.registration.Some?
    ensures p.Register? ==> p.profile == NewUser(req.address.value.s, req.registration.value, now, serial)
    ensures p.Register? && IsWalletConnect(req) ==> p.profile.role == Admin
  {
    if !Truthy(req.address) then Refuse(AddressRequired)
    else
      var address := req.address.value;
      if !address.JStr? then
        // `address.toLowerCase` is not a function: either on the WalletConnect
        // test or, after `getUser` misses, on the normalisation line.
        Refuse(Unhandled)
      else if IsWalletConnect(req) && Lower(address.s) !in AdminAddresses then
        Refuse(WalletConnectForbidden)
      else if address.s in users then Returning(users[address.s])
      else if req.registration.Some? then Register(NewUser(address.s, req.registration.value, now, serial))
      else Refuse(NeedsRegistration)
  }

  /** The handler's answer once the plan's store call has run, as written:
      for a returning user it calls `storage.updateUserLastLogin`, which
      MemStorage does not define, so the call throws. `nextId` is the id
      `createUser` hands out. */
  function Response(p: Plan, nextId: nat): (r: ConnectOutcome)
    ensures r.LoggedIn? <==> p.Register?
    ensures p.Returning? ==> r == Refused(Unhandled)
  {
    match p
    case Refuse(why) => Refused(why)
    case Register(u) => LoggedIn(User(nextId, u))
    case Returning(_) => Refused(Unhandled)
  }

  /** The answer the handler evidently intends: a returning user's last
      login is touched and the stored user is logged in. */
  function ResponseIntended(p: Plan, nextId: nat): (r: ConnectOutcome)
    ensures r.LoggedIn? <==> p.Register? || p.Returning?
    ensures p.Returning? ==> r == LoggedIn(p.stored)
  {
    match p
    case Refuse(why) => Refused(why)
    case Register(u) => LoggedIn(User(nextId, u))
    case Returning(u) => LoggedIn(u)
  }

  /** The user table after the plan's store call. */
  function UsersAfter(users: map<string, User>, p: Plan, nextId: nat): map<string, User> {
    if p.Register? then users[p.profile.address := User(nextId, p.profile)] else users
  }

  /** The session's user after a connect: set on a login, untouched otherwise. */
  function SessionAfter(session: Option<User>, out: ConnectOutcome): Option<User> {
    if out.LoggedIn? then Some(out.user) else session
  }

  /** POST /api/auth/connect, step by step against the store. The session is
      the explicit value `session`. */
  method Connect(store: MemStorage, req: ConnectRequest, session: Option<User>, now: Time, serial: nat)
    returns (out: ConnectOutcome, session': Option<User>)
    requires store.Valid()
    modifies store
    ensures store.Valid()
    ensures out == Response(PlanConnect(req, old(store.users), now, serial), old(store.currentId))
    ensures store.users == UsersAfter(old(store.users), PlanConnect(req, old(store.users), now, serial), old(store.currentId))
    ensures store.evidence == old(store.evidence)
    ensures store.currentId == if out.LoggedIn? then old(store.currentId) + 1 else old(store.currentId)
    ensures session' == SessionAfter(session, out)
  {
    ghost var p := PlanConnect(req, store.users, now, serial);
    if !Truthy(req.address) {
      return Refused(AddressRequired), session;
    }
    var address := req.address.value;
    if IsWalletConnect(req) {
      if !address.JStr? {
        return Refused(Unhandled), session;
      }
      if Lower(address.s) !in AdminAddresses {
        assert p == Refuse(WalletConnectForbidden);
        return Refused(WalletConnectForbidden), session;
      }
    }
    // `storage.getUser(address)`: a non-string key finds nothing.
    var user := if address.JStr? then store.GetUser(address.s) else None;
    if !address.JStr? {
      return Refused(Unhandled), session;
    }
    if user.None? {
      if req.registration.Some? {
        // The role is assigned inside NewUser, from the lower-cased address.
        assert p == Register(NewUser(address.s, req.registration.value, now, serial));
        var created := store.CreateUser(NewUser(address.s, req.registration.value, now, serial));
        return LoggedIn(created), Some(created);
      } else {
        assert p == Refuse(NeedsRegistration);
        return Refused(NeedsRegistration), session;
      }
    } else {
      // `storage.updateUserLastLogin(address)` is not a member of MemStorage.
      assert p.Returning?;
      return Refused(Unhandled), session;
    }
  }

  /** As written, a user who is already stored never gets logged in again:
      the existing-user branch throws before the session is set. */
  lemma ReturningUserNeverLogsIn(users: map<string, User>, address: string, now: Time, serial: nat, nextId: nat)
    requires address != "" && address in users
    ensures Response(PlanConnect(ConnectRequest(Some(JStr(address)), None, None), users, now, serial), nextId)
            == Refused(Unhandled)
  {
  }

  /** With the intended handler, the handshake of a new address goes: no
      profile, asked to register; with a profile, registered and logged in;
      then, without a profile, logged in as the stored user. */
  lemma RegisterThenReconnect(users: map<string, User>, address: string, reg: Registration,
                              now: Time, later: Time, serial: nat, nextId: nat)
    requires address != "" && address !in users
    ensures PlanConnect(ConnectRequest(Some(JStr(address)), None, None), users, now, serial)
            == Refuse(NeedsRegistration)
    ensures var p := PlanConnect(ConnectRequest(Some(JStr(address)), None, Some(reg)), users, now, serial);
            && p.Register?
            && ResponseIntended(p, nextId) == LoggedIn(User(nextId, p.profile))
            && p.profile.isRegistered && p.profile.role == AssignRole(address)
            && ResponseIntended(
                 PlanConnect(ConnectRequest(Some(JStr(address)), None, None),
                             UsersAfter(users, p, nextId), later, serial),
                 nextId + 1)
               == LoggedIn(User(nextId, p.profile))
  {
  }

  /** Two spellings of one account, equal letter for letter up to case, get
      the same role. */
  lemma SpellingsShareRole(a: string, b: string)
    requires |a| == |b|
    requires forall i :: 0 <= i < |a| ==> LowerChar(a[i]) == LowerChar(b[i])
    ensures AssignRole(a) == AssignRole(b)
  {
    assert Lower(a) == Lower(b);
  }

  /** The user table is keyed by the address as typed while roles use its
      lower-case form: a stored account connecting under another spelling is
      asked to register again. */
  lemma LookupIsCaseSensitive(u: User, now: Time, serial: nat)
    requires u.data.address == "0xAB"
    ensures PlanConnect(ConnectRequest(Some(JStr("0xab")), None, None), map["0xAB" := u], now, serial)
            == Refuse(NeedsRegistration)
  {
    assert "0xab" !in map["0xAB" := u] by { assert "0xab"[2] != "0xAB"[2]; }
  }

  /** `requireRole(roles)`: 401 without a user, 403 for a role not listed,
      otherwise `next()`, once. */
  datatype Gate = NotAuthenticated | InsufficientPermissions | Next

  function RequireRole(roles: seq<Role>, user: Option<User>): (g: Gate)
    ensures g == NotAuthenticated <==> user.None?
    ensures g == Next <==> user.Some? && user.value.data.role in roles
    ensures g == InsufficientPermissions <==> user.Some? && user.value.data.role !in roles
  {
    if user.None? then NotAuthenticated
    else if user.value.data.role !in roles then InsufficientPermissions
    else Next
  }
}
