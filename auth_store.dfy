/** The client's session state: the session token, the signed-in
    participant and the authenticated flag, and the role test screens use
    to show operator and admin pages. */
module AuthStore {
  import opened Common
  import opened Domain
  import SessionTokenAuthFilter

  /** The participant as the client holds it. */
  datatype ClientParticipant = ClientParticipant(
    id: Id,
    displayName: Option<string>,
    role: ParticipantRole,
    onboardingDone: bool)

  class AuthState {
    var sessionToken: Option<string>
    var participant: Option<ClientParticipant>
    var isAuthenticated: bool

    /** The state restored from what the browser had stored: signed in
        exactly when a non-empty token was stored (`!!` of the stored
        string is false for the empty string), while the token itself is
        kept as stored. */
    constructor (storedToken: Option<string>, storedParticipant: Option<ClientParticipant>)
      ensures sessionToken == storedToken && participant == storedParticipant
      ensures isAuthenticated <==> storedToken.Some? && storedToken.value != ""
    {
      sessionToken := storedToken;
      participant := storedParticipant;
      isAuthenticated := storedToken.Some? && storedToken.value != "";
    }

    /** `setSession`. */
    method SetSession(token: string, p: ClientParticipant)
      modifies this
      ensures sessionToken == Some(token) && participant == Some(p) && isAuthenticated
    {
      sessionToken, participant, isAuthenticated := Some(token), Some(p), true;
    }

    /** `clearSession`. */
    method ClearSession()
      modifies this
      ensures sessionToken.None? && participant.None? && !isAuthenticated
    {
      sessionToken, participant, isAuthenticated := None, None, false;
    }

    /** `updateOnboardingDone`: without a participant nothing happens;
        otherwise only the onboarding flag of the participant changes. */
    method UpdateOnboardingDone()
      modifies this`participant
      ensures old(participant).None? ==> participant.None?
      ensures old(participant).Some? ==> participant == Some(old(participant).value.(onboardingDone := true))
    {
      if participant.Some? {
        participant := Some(participant.value.(onboardingDone := true));
      }
    }

    /** `hasRole`. */
    function HasRole(role: ParticipantRole): bool
      reads this
    {
      match participant
      case None => false
      case Some(p) => RoleIncludes(p.role, role)
    }
  }

  /** The decision chain of `hasRole` for a signed-in participant. */
  function RoleIncludes(held: ParticipantRole, role: ParticipantRole): (r: bool)
    ensures held == ADMIN ==> r
    ensures held == BOOTH_OPERATOR ==> (r <==> role != ADMIN)
    ensures held == PARTICIPANT ==> (r <==> role == PARTICIPANT)
  {
    if held == ADMIN then true
    else if held == BOOTH_OPERATOR && role != ADMIN then true
    else held == role
  }

  /** The client and the server agree: the client grants a role exactly when
      the server's authorities for the participant's role include it. */
  lemma RoleIncludesAgreesWithAuthorities(held: ParticipantRole, role: ParticipantRole)
    ensures RoleIncludes(held, role) <==>
      SessionTokenAuthFilter.Authority(role) in SessionTokenAuthFilter.Authorities(held)
  {
    SessionTokenAuthFilter.AuthoritiesByRank(held, role);
  }

  /** Without a participant no role is granted; with one, `hasRole` is the
      server's authority test. */
  lemma HasRoleAgreesWithAuthorities(s: AuthState, role: ParticipantRole)
    ensures s.participant.None? ==> !s.HasRole(role)
    ensures s.participant.Some? ==>
      (s.HasRole(role) <==>
        SessionTokenAuthFilter.Authority(role) in SessionTokenAuthFilter.Authorities(s.participant.value.role))
  {
    if s.participant.Some? {
      RoleIncludesAgreesWithAuthorities(s.participant.value.role, role);
    }
  }
}
