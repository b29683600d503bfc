/**
 * Users, their roles and linked sign-in providers, and the user-invitation
 * request used by the email verification flow.
 */
module Identity {
  import opened Wrappers

  /** The roles a user can hold. Authorization checks membership in a set of
      roles; the roles are not ranked. */
  datatype Role = Visitor | Member | Collaborator | Administrator

  /** A sign-in provider linked to a user: the provider's name and the user's id there. */
  datatype UserProvider = UserProvider(name: string, uid: string)

  /** The fields of a user the core reads. */
  datatype User = User(id: int, name: string, email: string, role: Role, providers: seq<UserProvider>)

  /** Whether the user has signed up through `provider`. Only provider names are
      compared; the provider-side uid plays no part. */
  method HasProvider(u: User, provider: string) returns (found: bool)
    ensures found <==> exists i :: 0 <= i < |u.providers| && u.providers[i].name == provider
  {
    for i := 0 to |u.providers|
      invariant forall j :: 0 <= j < i ==> u.providers[j].name != provider
    {
      if u.providers[i].name == provider {
        return true;
      }
    }
    return false;
  }

  /** Users with special permissions: collaborators and administrators. */
  predicate IsCollaborator(u: User)
  {
    u.role == Collaborator || u.role == Administrator
  }

  predicate IsAdministrator(u: User)
  {
    u.role == Administrator
  }

  /** The collaborator check admits exactly the two elevated roles and refuses
      visitors and members. */
  lemma CollaboratorRoles(u: User)
    ensures IsCollaborator(u) <==> u.role in {Collaborator, Administrator}
    ensures !IsCollaborator(u) <==> u.role in {Visitor, Member}
  {
  }

  /** The administrator check admits the administrator role alone. */
  lemma AdministratorRole(u: User)
    ensures IsAdministrator(u) <==> u.role !in {Visitor, Member, Collaborator}
  {
  }

  /** Every administrator passes the collaborator check, and a collaborator that
      is not an administrator holds the Collaborator role. */
  lemma AdministratorIsCollaborator(u: User)
    ensures IsAdministrator(u) ==> IsCollaborator(u)
    ensures IsCollaborator(u) && !IsAdministrator(u) ==> u.role == Collaborator
  {
  }

  /** The purpose of an email verification. Only the invitation kind is produced
      by the core; the other kinds belong to sign-in and sign-up flows. */
  datatype EmailVerificationKind = UserInvitationKind | OtherKind(code: int)

  /** An invitation sent to an email address, with its verification key. */
  datatype UserInvitation = UserInvitation(email: string, verificationKey: string)

  function GetEmail(e: UserInvitation): string { e.email }
  function GetName(e: UserInvitation): string { "" }
  function GetUser(e: UserInvitation): Option<User> { None }
  function GetKind(e: UserInvitation): EmailVerificationKind { UserInvitationKind }

  /** What a `NewEmailVerification` exposes through its four getters. */
  datatype VerificationRequest = VerificationRequest(email: string, name: string, user: Option<User>,
                                                     kind: EmailVerificationKind)

  /** The request an invitation presents to the email verification flow. */
  function InvitationRequest(e: UserInvitation): (r: VerificationRequest)
    ensures r.email == e.email && r.name == "" && r.user == None && r.kind == UserInvitationKind
  {
    VerificationRequest(GetEmail(e), GetName(e), GetUser(e), GetKind(e))
  }

  /** Two invitations present the same request exactly when they are sent to the
      same address: the verification key is never exposed through the getters. */
  lemma InvitationRequestHidesKey(a: UserInvitation, b: UserInvitation)
    ensures InvitationRequest(a) == InvitationRequest(b) <==> a.email == b.email
  {
  }
}
