/**
 * The plugin's view of Discord, as plain data: the guild's roles, the
 * requester, what the remote role calls answer, and the trace of calls and
 * replies a command handler produces.
 */
module Discord {
  import opened Permissions

  type UserId = string
  type RoleId = string

  /** A guild role as the plugin sees it: its identifier and permission word. */
  datatype Role = Role(id: RoleId, permissions: bv64)

  /**
   * What the handlers see of Discord: the bot's owner (the service's owner
   * user, the same for every guild, and the only user allowed to curate
   * colors) and the guild's roles, keyed by the name under which a role
   * lookup finds them.
   */
  datatype Guild = Guild(botOwner: UserId, roles: map<string, Role>)

  /** What the remote role-membership calls answer. */
  datatype Responses = Responses(removeSucceeds: set<RoleId>, addSucceeds: bool)

  /** The replies the plugin sends to the channel, by kind. */
  datatype Reply =
    | NotOwner                        // "ask my Rick for that command"
    | ForgotColor                     // no color named
    | TooManyColors                   // more than one color named
    | RoleNotFound(name: string)
    | MoreThanColor(name: string)     // the role carries authority bits
    | RemoveFailed(color: string)
    | AddFailed(color: string)
    | Granted(color: string)
    | AlreadyManaging(name: string)
    | NotManaging(name: string)
    | NowManaging(names: seq<string>)

  /** One observable step: a remote call with its outcome, or a reply. */
  datatype Event =
    | LookupRole(name: string)
    | RemoveRole(role: RoleId, ok: bool)
    | AddRole(role: RoleId, ok: bool)
    | Send(reply: Reply)
  {
    /** Whether the event changes someone's role membership. */
    predicate IsMembershipCall() { RemoveRole? || AddRole? }
  }

  /** What a handler did, and whether it stopped in a runtime panic. */
  datatype Outcome = Outcome(events: seq<Event>, panicked: bool)

  /**
   * Go's read of a `map[string]bool`: a missing key reads as `false`.
   */
  predicate Get(m: map<string, bool>, key: string)
  {
    key in m && m[key]
  }

  /** A role a name resolves to that carries none of the authority bits. */
  predicate Eligible(g: Guild, name: string)
  {
    name in g.roles && !HasAuth(g.roles[name].permissions)
  }

  /** No event of the trace changes role membership. */
  predicate NoMembershipCalls(events: seq<Event>)
  {
    forall i :: 0 <= i < |events| ==> !events[i].IsMembershipCall()
  }

  /** No event of the trace looks up a role. */
  predicate NoLookups(events: seq<Event>)
  {
    forall i :: 0 <= i < |events| ==> !events[i].LookupRole?
  }

  /**
   * The roles a user holds after the successful membership calls of a trace
   * take effect on the roles `held` before it.
   */
  function ApplyEvents(held: set<RoleId>, events: seq<Event>): (after: set<RoleId>)
    ensures NoMembershipCalls(events) ==> after == held
  {
    if events == [] then held
    else
      var last := events[|events| - 1];
      var before := ApplyEvents(held, events[..|events| - 1]);
      match last
      case RemoveRole(r, ok) => if ok then before - {r} else before
      case AddRole(r, ok) => if ok then before + {r} else before
      case _ => before
  }

  /** Applying a trace in two halves is applying it whole. */
  lemma {:induction false} ApplyEventsAppend(held: set<RoleId>, e1: seq<Event>, e2: seq<Event>)
    ensures ApplyEvents(held, e1 + e2) == ApplyEvents(ApplyEvents(held, e1), e2)
  {
    if e2 != [] {
      assert (e1 + e2)[..|e1 + e2| - 1] == e1 + e2[..|e2| - 1];
      ApplyEventsAppend(held, e1, e2[..|e2| - 1]);
    } else {
      assert e1 + e2 == e1;
    }
  }
}
