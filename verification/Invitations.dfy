/** Invitations as an interleaving of transactions: acceptance locks its row and looks at it again,
    creation replaces an expired invitation, and revocation writes without looking. */
module Invitations {
  import opened Base
  import opened Tracker

  type Client = nat
  type InvitationId = nat
  type Email = string

  /** Tokens are drawn at random and stored hashed under a unique column; an invitation's position stands
      for its token. */
  datatype Invitation = Invitation(
    email: Email, role: Role, expiresAt: int, acceptedAt: Option<int>, revokedAt: Option<int>)

  datatype InvitationError =
    | InvitationInvalid | InvitationAlreadyPending | MemberAlreadyExists
    | ProtectedDemoOrganization

  /** An open transaction, with what it read before its last step. */
  datatype Work =
    | Accepting(id: InvitationId, row: Invitation, password: string)
    | Revoking(id: InvitationId)
    | Creating(email: Email, role: Role)

  /** Accounts by e-mail address with their passwords, and the memberships of the organization.
      `admitted` lists the acceptances that went through. */
  datatype State = State(
    invitations: seq<Invitation>, accounts: map<Email, string>, members: map<Email, Role>,
    open: map<Client, Work>, admitted: seq<InvitationId>)

  datatype Action =
    | AskAccept(client: Client, id: InvitationId, password: string)
    | AskRevoke(client: Client, id: InvitationId)
    | AskCreate(client: Client, email: Email, role: Role)
    | Commit(client: Client, now: int)
    | GiveUp(client: Client)
    | Leave(email: Email)

  const NOBODY := State([], map[], map[], map[], [])

  // ---------------------------------------------------------------------------------------------
  // Services

  predicate IsClosed(i: Invitation) {
    i.acceptedAt.Some? || i.revokedAt.Some?
  }

  predicate IsExpired(i: Invitation, now: int) {
    now >= i.expiresAt
  }

  function AcceptRefusal(i: Invitation, now: int): Option<InvitationError> {
    if IsClosed(i) || IsExpired(i, now) then Some(InvitationInvalid) else None
  }

  function Accepted(s: State, id: InvitationId, password: string, now: int): State
    requires id < |s.invitations|
  {
    var i := s.invitations[id];
    s.(accounts := if i.email in s.accounts then s.accounts else s.accounts[i.email := password],
       members := if i.email in s.members then s.members else s.members[i.email := i.role],
       invitations := s.invitations[id := i.(acceptedAt := Some(now))],
       admitted := s.admitted + [id])
  }

  function Revoked(s: State, id: InvitationId, now: int): State
    requires id < |s.invitations|
  {
    s.(invitations := s.invitations[id := s.invitations[id].(revokedAt := Some(now))])
  }

  /** The open invitation of an address. */
  function OpenFor(invitations: seq<Invitation>, email: Email): Option<InvitationId> {
    if invitations == [] then None
    else if !IsClosed(Last(invitations)) && Last(invitations).email == email then Some(|invitations| - 1)
    else OpenFor(invitations[..|invitations| - 1], email)
  }

  function CreateRefusal(s: State, email: Email, now: int): Option<InvitationError> {
    match OpenFor(s.invitations, email)
    case Some(id) =>
      if id < |s.invitations| && !IsExpired(s.invitations[id], now) then Some(InvitationAlreadyPending) else None
    case None => None
  }

  function Invited(s: State, email: Email, role: Role, validity: int, now: int): State {
    var cleared := match OpenFor(s.invitations, email)
                   case Some(id) => if id < |s.invitations| then Revoked(s, id, now) else s
                   case None => s;
    cleared.(invitations := cleared.invitations + [Invitation(email, role, now + validity, None, None)])
  }

  // ---------------------------------------------------------------------------------------------
  // The machine

  predicate IsUnlocked(s: State, id: InvitationId) {
    forall k | k in s.open && s.open[k].Accepting? :: s.open[k].id != id
  }

  predicate CanLockOpen(s: State, email: Email) {
    match OpenFor(s.invitations, email)
    case Some(id) => IsUnlocked(s, id)
    case None => true
  }

  function Close(s: State, k: Client): State {
    s.(open := s.open - {k})
  }

  function Finish(validity: int, locking: bool, s: State, k: Client, now: int): State
    requires k in s.open
  {
    match s.open[k]
    case Accepting(id, row, password) =>
      if id < |s.invitations| && AcceptRefusal(row, now).None? then Accepted(Close(s, k), id, password, now)
        else Close(s, k)
    case Revoking(id) =>
      if id < |s.invitations| && (!locking || IsUnlocked(s, id)) then Revoked(Close(s, k), id, now) else s
    case Creating(email, role) =>
      if locking && !CanLockOpen(s, email) then s
      else if CreateRefusal(s, email, now).Some? then Close(s, k)
      else Invited(Close(s, k), email, role, validity, now)
  }

  /** One action; an action that is not possible now leaves the state alone. With `locking` false an
      acceptance reads its row without waiting for another that holds it. */
  function Act(validity: int, locking: bool, s: State, a: Action): State {
    match a
    case AskAccept(k, id, password) =>
      if k in s.open || |s.invitations| <= id || (locking && !IsUnlocked(s, id)) then s
      else s.(open := s.open[k := Accepting(id, s.invitations[id], password)])
    case AskRevoke(k, id) =>
      if k in s.open || |s.invitations| <= id || IsClosed(s.invitations[id]) then s
      else s.(open := s.open[k := Revoking(id)])
    case AskCreate(k, email, role) =>
      if k in s.open || email in s.members then s
      else s.(open := s.open[k := Creating(email, role)])
    case Commit(k, now) => if k in s.open then Finish(validity, locking, s, k, now) else s
    case GiveUp(k) => Close(s, k)
    case Leave(email) => s.(members := s.members - {email})
  }

  function Play(validity: int, locking: bool, s: State, actions: seq<Action>): State {
    if actions == [] then s
    else Act(validity, locking, Play(validity, locking, s, actions[..|actions| - 1]), Last(actions))
  }

  // ---------------------------------------------------------------------------------------------
  // What every run keeps

  /** An invitation keeps its terms and its acceptance; once it is revoked it is never accepted. */
  predicate MayTurnInto(i: Invitation, j: Invitation) {
    && j.email == i.email && j.role == i.role && j.expiresAt == i.expiresAt
    && (i.acceptedAt.Some? ==> j.acceptedAt == i.acceptedAt)
    && (i.revokedAt.Some? ==> j.revokedAt.Some? && j.acceptedAt == i.acceptedAt)
  }

  ghost predicate Evolves(s: State, t: State) {
    && |s.invitations| <= |t.invitations|
    && (forall i | 0 <= i < |s.invitations| :: MayTurnInto(s.invitations[i], t.invitations[i]))
    && (forall e | e in s.accounts :: e in t.accounts && t.accounts[e] == s.accounts[e])
    && s.admitted <= t.admitted
  }

  /** Whoever holds a row sees it as it is, and nobody else holds it. */
  ghost predicate HoldsRow(s: State, k: Client)
    requires k in s.open && s.open[k].Accepting?
  {
    && s.open[k].id < |s.invitations| && s.open[k].row == s.invitations[s.open[k].id]
    && forall j | j in s.open && s.open[j].Accepting? && s.open[j].id == s.open[k].id :: j == k
  }

  /** At most one invitation per address is open; exactly the accepted ones were admitted, once each, in
      time. */
  ghost predicate Sound(s: State) {
    && (forall k | k in s.open && s.open[k].Accepting? :: HoldsRow(s, k))
    && (forall i, j | 0 <= i < |s.invitations| && 0 <= j < |s.invitations| ::
          (!IsClosed(s.invitations[i]) && !IsClosed(s.invitations[j]) &&
           s.invitations[i].email == s.invitations[j].email) ==> i == j)
    && NoRepeats(s.admitted)
    && (forall id <- s.admitted :: id < |s.invitations|)
    && (forall i | 0 <= i < |s.invitations| :: s.invitations[i].acceptedAt.Some? <==> i in s.admitted)
    && (forall i | 0 <= i < |s.invitations| && s.invitations[i].acceptedAt.Some? ::
          s.invitations[i].acceptedAt.value < s.invitations[i].expiresAt && s.invitations[i].email in s.accounts)
  }

  lemma {:induction false} OpenForFinds(invitations: seq<Invitation>, email: Email)
    ensures match OpenFor(invitations, email)
            case Some(id) => id < |invitations| && !IsClosed(invitations[id]) && invitations[id].email == email
            case None => forall i | 0 <= i < |invitations| :: IsClosed(invitations[i]) || invitations[i].email != email
  {
    if invitations != [] {
      OpenForFinds(invitations[..|invitations| - 1], email);
    }
  }

  lemma AcceptKeepsSound(s: State, k: Client, now: int)
    requires Sound(s) && k in s.open && s.open[k].Accepting? && AcceptRefusal(s.open[k].row, now).None?
    ensures HoldsRow(s, k)
    ensures var t := Accepted(Close(s, k), s.open[k].id, s.open[k].password, now);
            Sound(t) && Evolves(s, t)
  {
    assert HoldsRow(s, k);
    var id := s.open[k].id;
    var t := Accepted(Close(s, k), id, s.open[k].password, now);
    forall j | j in t.open && t.open[j].Accepting? ensures HoldsRow(t, j) {
      assert HoldsRow(s, j);
    }
    assert id !in s.admitted;
  }

  lemma RevokeKeepsSound(s: State, k: Client, id: InvitationId, now: int)
    requires Sound(s) && id < |s.invitations| && IsUnlocked(s, id)
    ensures Sound(Revoked(Close(s, k), id, now)) && Evolves(s, Revoked(Close(s, k), id, now))
  {
    var t := Revoked(Close(s, k), id, now);
    forall j | j in t.open && t.open[j].Accepting? ensures HoldsRow(t, j) {
      assert HoldsRow(s, j);
    }
  }

  lemma CreateKeepsSound(s: State, k: Client, email: Email, role: Role, validity: int, now: int)
    requires Sound(s) && CanLockOpen(s, email)
    ensures Sound(Invited(Close(s, k), email, role, validity, now))
    ensures Evolves(s, Invited(Close(s, k), email, role, validity, now))
  {
    OpenForFinds(s.invitations, email);
    match OpenFor(s.invitations, email)
    case Some(id) =>
      RevokeKeepsSound(s, k, id, now);
      AppendKeepsSound(Revoked(Close(s, k), id, now), Invitation(email, role, now + validity, None, None));
    case None =>
      CloseKeepsSound(s, k);
      AppendKeepsSound(Close(s, k), Invitation(email, role, now + validity, None, None));
  }

  lemma CloseKeepsSound(s: State, k: Client)
    requires Sound(s)
    ensures Sound(Close(s, k)) && Evolves(s, Close(s, k))
  {
    forall j | j in Close(s, k).open && s.open[j].Accepting? ensures HoldsRow(Close(s, k), j) {
      assert HoldsRow(s, j);
    }
  }

  lemma AppendKeepsSound(s: State, i: Invitation)
    requires Sound(s) && !IsClosed(i)
    requires forall j | 0 <= j < |s.invitations| :: IsClosed(s.invitations[j]) || s.invitations[j].email != i.email
    ensures Sound(s.(invitations := s.invitations + [i])) && Evolves(s, s.(invitations := s.invitations + [i]))
  {
    var t := s.(invitations := s.invitations + [i]);
    forall k | k in t.open && t.open[k].Accepting? ensures HoldsRow(t, k) {
      assert HoldsRow(s, k);
    }
  }

  lemma FinishKeepsSound(validity: int, s: State, k: Client, now: int)
    requires Sound(s) && k in s.open
    ensures Sound(Finish(validity, true, s, k, now)) && Evolves(s, Finish(validity, true, s, k, now))
  {
    CloseKeepsSound(s, k);
    match s.open[k]
    case Accepting(_, row, _) => if AcceptRefusal(row, now).None? { AcceptKeepsSound(s, k, now); }
    case Revoking(id) => if id < |s.invitations| && IsUnlocked(s, id) { RevokeKeepsSound(s, k, id, now); }
    case Creating(email, role) => if CanLockOpen(s, email) { CreateKeepsSound(s, k, email, role, validity, now); }
  }

  lemma AskKeepsSound(s: State, k: Client, work: Work)
    requires Sound(s) && k !in s.open
    requires work.Accepting? ==>
               work.id < |s.invitations| && work.row == s.invitations[work.id] && IsUnlocked(s, work.id)
    ensures Sound(s.(open := s.open[k := work])) && Evolves(s, s.(open := s.open[k := work]))
  {
    var t := s.(open := s.open[k := work]);
    forall j | j in t.open && t.open[j].Accepting? ensures HoldsRow(t, j) {
      assert j != k ==> HoldsRow(s, j);
    }
  }

  lemma MembersKeepSound(s: State, members: map<Email, Role>)
    requires Sound(s)
    ensures Sound(s.(members := members)) && Evolves(s, s.(members := members))
  {
    forall k | k in s.open && s.open[k].Accepting? ensures HoldsRow(s.(members := members), k) {
      assert HoldsRow(s, k);
    }
  }

  lemma ActKeepsSound(validity: int, s: State, a: Action)
    requires Sound(s)
    ensures Sound(Act(validity, true, s, a)) && Evolves(s, Act(validity, true, s, a))
  {
    var t := Act(validity, true, s, a);
    if t != s {
      match a
      case Commit(k, now) => FinishKeepsSound(validity, s, k, now);
      case GiveUp(k) => CloseKeepsSound(s, k);
      case Leave(email) => MembersKeepSound(s, s.members - {email});
      case AskAccept(k, _, _) => AskKeepsSound(s, k, t.open[k]);
      case AskRevoke(k, _) => AskKeepsSound(s, k, t.open[k]);
      case AskCreate(k, _, _) => AskKeepsSound(s, k, t.open[k]);
    }
  }

  lemma {:induction false} RunStaysSound(validity: int, actions: seq<Action>)
    ensures Sound(Play(validity, true, NOBODY, actions))
  {
    if actions != [] {
      RunStaysSound(validity, actions[..|actions| - 1]);
      ActKeepsSound(validity, Play(validity, true, NOBODY, actions[..|actions| - 1]), Last(actions));
    }
  }

  lemma EvolvesTransitive(s: State, t: State, u: State)
    requires Evolves(s, t) && Evolves(t, u)
    ensures Evolves(s, u)
  {
    forall i | 0 <= i < |s.invitations| ensures MayTurnInto(s.invitations[i], u.invitations[i]) {
      assert MayTurnInto(s.invitations[i], t.invitations[i]) && MayTurnInto(t.invitations[i], u.invitations[i]);
    }
  }

  lemma {:induction false} RunEvolves(validity: int, s: State, actions: seq<Action>)
    requires Sound(s)
    ensures Sound(Play(validity, true, s, actions)) && Evolves(s, Play(validity, true, s, actions))
  {
    if actions != [] {
      var t := Play(validity, true, s, actions[..|actions| - 1]);
      RunEvolves(validity, s, actions[..|actions| - 1]);
      ActKeepsSound(validity, t, Last(actions));
      EvolvesTransitive(s, t, Play(validity, true, s, actions));
    }
  }

  /** In every interleaving: an invitation admits somebody at most once, before it expires; a revoked one
      admits nobody any more, an address has at most one open invitation, and no account's password is
      ever overwritten. */
  lemma AdmittedAtMostOnce(validity: int, actions: seq<Action>, more: seq<Action>, id: InvitationId)
    requires id < |Play(validity, true, NOBODY, actions).invitations|
    ensures var s := Play(validity, true, NOBODY, actions);
            var t := Play(validity, true, s, more);
            && NoRepeats(t.admitted)
            && s.admitted <= t.admitted
            && id < |t.invitations|
            && (s.invitations[id].revokedAt.Some? && id !in s.admitted ==> id !in t.admitted)
            && (t.invitations[id].acceptedAt.Some? ==> t.invitations[id].acceptedAt.value < t.invitations[id].expiresAt)
            && (forall j | 0 <= j < |t.invitations| && j != id ::
                  (t.invitations[j].email == t.invitations[id].email ==>
                     IsClosed(t.invitations[j]) || IsClosed(t.invitations[id])))
            && (forall e | e in s.accounts :: e in t.accounts && t.accounts[e] == s.accounts[e])
  {
    var s := Play(validity, true, NOBODY, actions);
    RunStaysSound(validity, actions);
    RunEvolves(validity, s, more);
    assert MayTurnInto(s.invitations[id], Play(validity, true, s, more).invitations[id]);
  }

  /** What a commit leaves behind, in any interleaving. An acceptance goes through exactly if its invitation
      is open and has not expired: then the address has an account, with its old password if it had one, and
      is a member, with its old role if it had one and the invited role otherwise; no other account or
      membership changes, and neither does any if it does not go through. A revocation closes its invitation
      unless an acceptance holds it. */
  lemma CommitOutcome(validity: int, s: State, k: Client, now: int)
    requires Sound(s) && k in s.open && !s.open[k].Creating? && s.open[k].id < |s.invitations|
    ensures var t, id := Act(validity, true, s, Commit(k, now)), s.open[k].id;
            var i := s.invitations[id];
            match s.open[k]
            case Accepting(_, _, password) =>
              if i.acceptedAt.None? && i.revokedAt.None? && now < i.expiresAt then
                && t.members.Keys == s.members.Keys + {i.email} && t.accounts.Keys == s.accounts.Keys + {i.email}
                && (forall e | e in t.members :: t.members[e] == if e in s.members then s.members[e] else i.role)
                && (forall e | e in t.accounts :: t.accounts[e] == if e in s.accounts then s.accounts[e] else password)
                && t.invitations == s.invitations[id := i.(acceptedAt := Some(now))]
                && t.admitted == s.admitted + [id] && t.open == s.open - {k}
              else t == s.(open := s.open - {k})
            case Revoking(_) =>
              t == if exists j | j in s.open && s.open[j].Accepting? :: s.open[j].id == id then s
                   else s.(invitations := s.invitations[id := i.(revokedAt := Some(now))], open := s.open - {k})
            case Creating(_, _) => true
  {
    if s.open[k].Accepting? {
      assert HoldsRow(s, k);
    }
  }

  /** Steps that do not commit touch no table, except that somebody who leaves is no member any more. */
  lemma OtherStepsOutcome(validity: int, s: State, a: Action)
    requires !a.Commit?
    ensures var t := Act(validity, true, s, a);
            && t.invitations == s.invitations && t.accounts == s.accounts && t.admitted == s.admitted
            && t.members == map e | e in s.members && !(a.Leave? && e == a.email) :: s.members[e]
  {
    assert (map e | e in s.members :: s.members[e]) == s.members;
  }

  /** Every member has accepted an invitation of that address, and has the role it offered. */
  ghost predicate MembersWereInvited(s: State) {
    forall e | e in s.members :: exists i ::
      0 <= i < |s.invitations| && s.invitations[i].acceptedAt.Some? && s.invitations[i].email == e
      && s.invitations[i].role == s.members[e]
  }

  lemma EvolvedInvitationsStillInvite(s: State, t: State)
    requires MembersWereInvited(s) && Evolves(s, t)
    requires forall e | e in t.members :: e in s.members && t.members[e] == s.members[e]
    ensures MembersWereInvited(t)
  {
    forall e | e in t.members
      ensures exists i :: 0 <= i < |t.invitations| && t.invitations[i].acceptedAt.Some? && t.invitations[i].email == e
                          && t.invitations[i].role == t.members[e]
    {
      var i :| 0 <= i < |s.invitations| && s.invitations[i].acceptedAt.Some? && s.invitations[i].email == e
               && s.invitations[i].role == s.members[e];
      assert MayTurnInto(s.invitations[i], t.invitations[i]);
    }
  }

  lemma ActKeepsInvited(validity: int, s: State, a: Action)
    requires Sound(s) && MembersWereInvited(s)
    ensures MembersWereInvited(Act(validity, true, s, a))
  {
    var t := Act(validity, true, s, a);
    ActKeepsSound(validity, s, a);
    if a.Commit? && a.client in s.open && s.open[a.client].Accepting? && s.open[a.client].id < |s.invitations|
       && t.members != s.members
    {
      var id := s.open[a.client].id;
      CommitOutcome(validity, s, a.client, a.now);
      EvolvedInvitationsStillInvite(s, t.(members := s.members));
      assert t.invitations[id].acceptedAt.Some?;
      forall e | e in t.members
        ensures exists i :: 0 <= i < |t.invitations| && t.invitations[i].acceptedAt.Some? && t.invitations[i].email == e
                            && t.invitations[i].role == t.members[e]
      {
        if e !in s.members {
          assert t.invitations[id].email == e && t.invitations[id].role == t.members[e];
        }
      }
    } else {
      MembersOnlyLeave(validity, s, a);
      EvolvedInvitationsStillInvite(s, t);
    }
  }

  lemma MembersOnlyLeave(validity: int, s: State, a: Action)
    requires !(a.Commit? && a.client in s.open && s.open[a.client].Accepting? && s.open[a.client].id < |s.invitations|)
             || Act(validity, true, s, a).members == s.members
    ensures var t := Act(validity, true, s, a);
            forall e | e in t.members :: e in s.members && t.members[e] == s.members[e]
  {
  }

  /** In every interleaving a member has accepted an invitation of that address and has the role it offered. */
  lemma {:induction false} MembersAreInvited(validity: int, actions: seq<Action>)
    ensures MembersWereInvited(Play(validity, true, NOBODY, actions))
  {
    if actions != [] {
      MembersAreInvited(validity, actions[..|actions| - 1]);
      RunStaysSound(validity, actions[..|actions| - 1]);
      ActKeepsInvited(validity, Play(validity, true, NOBODY, actions[..|actions| - 1]), Last(actions));
    }
  }

  /** Without the row lock two acceptances of one invitation both go through. */
  lemma UnlockedAcceptancesAdmitTwice(validity: int, i: Invitation, password: string, now: int)
    requires !IsClosed(i) && !IsExpired(i, now)
    ensures var s := State([i], map[], map[], map[], []);
            var both := Act(validity, false, Act(validity, false, s, AskAccept(0, 0, password)),
              AskAccept(1, 0, password));
            Act(validity, false, Act(validity, false, both, Commit(0, now)), Commit(1, now)).admitted == [0, 0]
  {
    var s := State([i], map[], map[], map[], []);
    var both := Act(validity, false, Act(validity, false, s, AskAccept(0, 0, password)), AskAccept(1, 0, password));
    assert both.open == map[0 := Accepting(0, i, password), 1 := Accepting(0, i, password)];
    var one := Act(validity, false, both, Commit(0, now));
    assert one.open == map[1 := Accepting(0, i, password)] && one.admitted == [0];
  }

  ghost predicate NoneAcceptedAndRevoked(s: State) {
    forall i | 0 <= i < |s.invitations| :: s.invitations[i].acceptedAt.None? || s.invitations[i].revokedAt.None?
  }

  /** Revocation does not look at the row again: it marks an accepted invitation as revoked exactly when
      the acceptance was committed after the invitation was looked up. */
  lemma RevocationOverwritesExactly(validity: int, s: State, k: Client, now: int)
    requires Sound(s) && NoneAcceptedAndRevoked(s) && k in s.open && s.open[k].Revoking?
    requires s.open[k].id < |s.invitations| && IsUnlocked(s, s.open[k].id)
    ensures NoneAcceptedAndRevoked(Act(validity, true, s, Commit(k, now)))
      <==> s.invitations[s.open[k].id].acceptedAt.None?
  {
    var id := s.open[k].id;
    var t := Act(validity, true, s, Commit(k, now));
    assert t.invitations == s.invitations[id := s.invitations[id].(revokedAt := Some(now))];
    assert t.invitations[id].revokedAt.Some?;
  }

  /** Every other step keeps accepted invitations unrevoked. */
  lemma OtherStepsKeepAcceptances(validity: int, s: State, a: Action)
    requires Sound(s) && NoneAcceptedAndRevoked(s)
    requires a.Commit? && a.client in s.open ==> !s.open[a.client].Revoking?
    ensures NoneAcceptedAndRevoked(Act(validity, true, s, a))
  {
    if a.Commit? && a.client in s.open {
      match s.open[a.client]
      case Accepting(_, _, _) => assert HoldsRow(s, a.client);
      case Creating(email, _) => OpenForFinds(s.invitations, email);
      case Revoking(_) =>
    }
  }

  /** The step is no revocation that was looked up before the acceptance it overwrites. */
  predicate RevokesInTime(s: State, a: Action) {
    if a.Commit? && a.client in s.open && s.open[a.client].Revoking? then
      var id := s.open[a.client].id;
      id < |s.invitations| && IsUnlocked(s, id) ==> s.invitations[id].acceptedAt.None?
    else true
  }

  lemma StepOverwritesExactly(validity: int, s: State, a: Action)
    requires Sound(s) && NoneAcceptedAndRevoked(s)
    ensures NoneAcceptedAndRevoked(Act(validity, true, s, a)) <==> RevokesInTime(s, a)
  {
    if a.Commit? && a.client in s.open && s.open[a.client].Revoking? {
      var id := s.open[a.client].id;
      if id < |s.invitations| && IsUnlocked(s, id) {
        RevocationOverwritesExactly(validity, s, a.client, a.now);
      }
    } else {
      OtherStepsKeepAcceptances(validity, s, a);
    }
  }

  ghost predicate NeverBoth(validity: int, actions: seq<Action>) {
    && NoneAcceptedAndRevoked(Play(validity, true, NOBODY, actions))
    && (actions != [] ==> NeverBoth(validity, actions[..|actions| - 1]))
  }

  ghost predicate AllRevokeInTime(validity: int, actions: seq<Action>) {
    actions != [] ==>
      && AllRevokeInTime(validity, actions[..|actions| - 1])
      && RevokesInTime(Play(validity, true, NOBODY, actions[..|actions| - 1]), Last(actions))
  }

  /** Over any interleaving: no invitation is ever both accepted and revoked iff no revocation was overtaken
      by an acceptance between its look-up and its write. */
  lemma {:induction false} NeverBothExactly(validity: int, actions: seq<Action>)
    ensures NeverBoth(validity, actions) <==> AllRevokeInTime(validity, actions)
  {
    if actions != [] {
      var before := actions[..|actions| - 1];
      NeverBothExactly(validity, before);
      if NeverBoth(validity, before) {
        RunStaysSound(validity, before);
        StepOverwritesExactly(validity, Play(validity, true, NOBODY, before), Last(actions));
      }
    }
  }

  /** It can happen: looked up while open, accepted, then revoked. */
  lemma AcceptedThenRevoked(validity: int, i: Invitation, password: string, now: int)
    requires !IsClosed(i) && !IsExpired(i, now)
    ensures var s := State([i], map[], map[], map[], []);
            var looked := Act(validity, true, s, AskRevoke(0, 0));
            var accepted := Act(validity, true, Act(validity, true, looked, AskAccept(1, 0, password)), Commit(1, now));
            Act(validity, true, accepted, Commit(0, now)).invitations[0]
              == i.(acceptedAt := Some(now), revokedAt := Some(now))
  {
    var s := State([i], map[], map[], map[], []);
    var looked := Act(validity, true, s, AskRevoke(0, 0));
    assert looked.open == map[0 := Revoking(0)];
    var asked := Act(validity, true, looked, AskAccept(1, 0, password));
    assert asked.open == map[0 := Revoking(0), 1 := Accepting(0, i, password)];
    var accepted := Act(validity, true, asked, Commit(1, now));
    assert accepted.open == map[0 := Revoking(0)] && accepted.invitations == [i.(acceptedAt := Some(now))];
  }

  /** An address is invited exactly when no open invitation of it is still valid; an expired one makes way. */
  lemma InvitedExactly(s: State, email: Email, role: Role, validity: int, now: int)
    requires Sound(s)
    ensures CreateRefusal(s, email, now).None? <==>
            forall i | 0 <= i < |s.invitations| ::
              s.invitations[i].email == email && !IsClosed(s.invitations[i]) ==> now >= s.invitations[i].expiresAt
    ensures var t := Invited(s, email, role, validity, now);
            && |t.invitations| == |s.invitations| + 1
            && (forall i | 0 <= i < |s.invitations| ::
                  t.invitations[i] == if s.invitations[i].email == email && !IsClosed(s.invitations[i])
                                      then s.invitations[i].(revokedAt := Some(now)) else s.invitations[i])
            && Last(t.invitations) == Invitation(email, role, now + validity, None, None)
  {
    OpenForFinds(s.invitations, email);
  }

  // ---------------------------------------------------------------------------------------------
  // The services as written

  class InvitationDesk {
    var invitations: seq<Invitation>
    var accounts: map<Email, string>
    var members: map<Email, Role>
    ghost var admitted: seq<InvitationId>
    const validity: int

    constructor (validity: int)
      ensures Tables() == NOBODY && this.validity == validity
    {
      invitations, accounts, members, admitted := [], map[], map[], [];
      this.validity := validity;
    }

    ghost function Tables(): State
      reads this
    {
      State(invitations, accounts, members, map[], admitted)
    }

    method FindOpen(email: Email) returns (found: Option<InvitationId>)
      ensures found == OpenFor(invitations, email)
    {
      var n := |invitations|;
      assert invitations[..n] == invitations;
      while n > 0
        invariant n <= |invitations| && OpenFor(invitations, email) == OpenFor(invitations[..n], email)
      {
        assert invitations[..n][..n - 1] == invitations[..n - 1];
        if !IsClosed(invitations[n - 1]) && invitations[n - 1].email == email {
          return Some(n - 1);
        }
        n := n - 1;
      }
      found := None;
    }

    /** `closed`: this is the demo organization, and the caller is not the trusted seeding tool. */
    method CreateInvitation(closed: bool, email: Email, role: Role, now: int) returns (error: Option<InvitationError>)
      modifies `invitations
      ensures error == if closed then Some(ProtectedDemoOrganization)
                       else if email in members then Some(MemberAlreadyExists)
                       else CreateRefusal(old(Tables()), email, now)
      ensures Tables() == if error.Some? then old(Tables()) else Invited(old(Tables()), email, role, validity, now)
    {
      if closed {
        return Some(ProtectedDemoOrganization);
      }
      if email in members {
        return Some(MemberAlreadyExists);
      }
      var existing := FindOpen(email);
      OpenForFinds(invitations, email);
      if existing.Some? {
        var row := invitations[existing.value];
        if !IsExpired(row, now) {
          return Some(InvitationAlreadyPending);
        }
        invitations := invitations[existing.value := row.(revokedAt := Some(now))];
      }
      invitations := invitations + [Invitation(email, role, now + validity, None, None)];
      error := None;
    }

    method AcceptInvitation(id: InvitationId, password: string, now: int) returns (error: Option<InvitationError>)
      modifies `invitations, `accounts, `members, `admitted
      ensures error == if id < |old(invitations)| then AcceptRefusal(old(invitations)[id], now)
        else Some(InvitationInvalid)
      ensures Tables() == if error.Some? || |old(invitations)| <= id then old(Tables())
                          else Accepted(old(Tables()), id, password, now)
    {
      if |invitations| <= id {
        return Some(InvitationInvalid);
      }
      var invitation := invitations[id];
      if IsClosed(invitation) || IsExpired(invitation, now) {
        return Some(InvitationInvalid);
      }
      if invitation.email !in accounts {
        accounts := accounts[invitation.email := password];
      }
      if invitation.email !in members {
        members := members[invitation.email := invitation.role];
      }
      invitations := invitations[id := invitation.(acceptedAt := Some(now))];
      admitted := admitted + [id];
      error := None;
    }

    method RevokeInvitation(id: InvitationId, now: int)
      requires id < |invitations|
      modifies `invitations
      ensures Tables() == Revoked(old(Tables()), id, now)
    {
      invitations := invitations[id := invitations[id].(revokedAt := Some(now))];
    }
  }

  // Each service is its transaction with nobody in between

  lemma UninterruptedCreation(validity: int, s: State, email: Email, role: Role, now: int)
    requires s.open == map[]
    ensures Act(validity, true, Act(validity, true, s, AskCreate(0, email, role)), Commit(0, now)) ==
            if email in s.members || CreateRefusal(s, email, now).Some? then s
              else Invited(s, email, role, validity, now)
  {
    var creating := s.(open := map[0 := Creating(email, role)]);
    assert creating.open - {0} == s.open;
  }

  lemma UninterruptedAcceptance(validity: int, s: State, id: InvitationId, password: string, now: int)
    requires s.open == map[]
    ensures Act(validity, true, Act(validity, true, s, AskAccept(0, id, password)), Commit(0, now)) ==
            if |s.invitations| <= id || AcceptRefusal(s.invitations[id], now).Some? then s
              else Accepted(s, id, password, now)
  {
    if id < |s.invitations| {
      var accepting := s.(open := map[0 := Accepting(id, s.invitations[id], password)]);
      assert accepting.open - {0} == s.open;
    }
  }

  lemma UninterruptedRevocation(validity: int, s: State, id: InvitationId, now: int)
    requires s.open == map[]
    ensures Act(validity, true, Act(validity, true, s, AskRevoke(0, id)), Commit(0, now)) ==
            if |s.invitations| <= id || IsClosed(s.invitations[id]) then s else Revoked(s, id, now)
  {
    var revoking := s.(open := map[0 := Revoking(id)]);
    assert revoking.open - {0} == s.open;
  }
}
