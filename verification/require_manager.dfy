/** The manager check that guards every `/manager` command: the invoking
    user passes when they hold one of the guild's manager roles or are
    listed as a manager user. */
module Permissions {
  import opened Seqs
  import opened Ledger

  /** Whether any role of `roles` is among `held`: the search both the
      manager check and the rankup gate perform. */
  function HoldsAny(roles: seq<Id>, held: set<Id>): (r: bool)
    ensures r <==> exists i :: 0 <= i < |roles| && roles[i] in held
  {
    if roles == [] then false
    else if roles[0] in held then true
    else
      var r := HoldsAny(roles[1..], held);
      assert r ==> exists i :: 0 <= i < |roles| && roles[i] in held by {
        if r {
          var i :| 0 <= i < |roles[1..]| && roles[1..][i] in held;
          assert roles[i + 1] in held;
        }
      }
      r
  }

  datatype PreconditionResult = Success | Error(message: string)

  const DefaultError := "This command can only be run by managers."
  const UnsupportedTokenError := "RequireManagerAttribute is not supported by this TokenType."

  /** The decision of the manager precondition for a user who holds the
      roles `userRoles`, under the guild's `settings`. `tokenIsBot` is the
      client's login kind and `errorMessage` the attribute's optional
      custom text. */
  function CheckRequirements(
    tokenIsBot: bool, userId: Id, userRoles: set<Id>, settings: Settings, errorMessage: Option<string>)
    : (r: PreconditionResult)
    ensures r == Success <==>
      tokenIsBot &&
      ((exists i :: 0 <= i < |settings.managerRoles| && settings.managerRoles[i] in userRoles)
       || userId in settings.managerUsers)
    ensures !tokenIsBot ==> r == Error(UnsupportedTokenError)
    ensures tokenIsBot && r.Error? ==>
      r.message == (if errorMessage.Some? then errorMessage.value else DefaultError)
  {
    if !tokenIsBot then Error(UnsupportedTokenError)
    else if HoldsAny(settings.managerRoles, userRoles) then Success
    else if userId in settings.managerUsers then Success
    else Error(if errorMessage.Some? then errorMessage.value else DefaultError)
  }

  /** The decision depends only on which ids the two lists contain, so
      growing either list (or reordering it) never revokes access. */
  lemma AccessMonotone(
    tokenIsBot: bool, userId: Id, userRoles: set<Id>, s: Settings, t: Settings, errorMessage: Option<string>)
    requires forall x :: x in s.managerRoles ==> x in t.managerRoles
    requires forall x :: x in s.managerUsers ==> x in t.managerUsers
    requires CheckRequirements(tokenIsBot, userId, userRoles, s, errorMessage) == Success
    ensures CheckRequirements(tokenIsBot, userId, userRoles, t, errorMessage) == Success
  {
    if userId !in s.managerUsers {
      var i :| 0 <= i < |s.managerRoles| && s.managerRoles[i] in userRoles;
      assert s.managerRoles[i] in s.managerRoles;
      var j :| 0 <= j < |t.managerRoles| && t.managerRoles[j] == s.managerRoles[i];
    }
  }
}
