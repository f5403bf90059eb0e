/**
 * The `regenerate` command: members holding one of the staff or community
 * roles ask the API to rebuild an offer, by id or by slug.
 */
module Regenerate {
  import opened Wrappers
  import opened Discord
  import opened Client

  /** The role ids allowed to regenerate: admin, administrator, mod, whisperer, community pillar, community contributor, server booster, epic gamer. */
  const AllowedRoleIds := [
    "561599327680593950", "1106969216319488161", "561599604337147920", "978369326904119386",
    "978294597409177630", "978753984498131054", "852575108664393789", "827977535471747163"]

  const ServerOnly := "This command can only be used in a server."
  const NoPermission := "You do not have permission to use this command."
  const InvalidTarget := "Please provide a valid offer slug or id."
  const Triggered := "Successfully triggered regeneration for offer: "
  const FailedPrefix := "Failed to regenerate offer: "
  const UnknownError := "Unknown error occurred"

  /** Who invoked the command: nobody, a member without a role list (outside a server), or a server member with these role ids. */
  datatype Invoker = NoMember | OutsideServer | ServerMember(roleIds: seq<string>)

  /** What the thrown value was when the request failed: an Error with its message, or anything else. */
  datatype Failure = ErrorValue(message: string) | NonError

  /** The outcome of the PUT: an answer whose `message` may be missing, or a failure. */
  datatype PutOutcome = Answered(message: Option<string>) | Failed(failure: Failure)

  /** `roles.cache.some(role => allowedRolesIds.includes(role.id))`, one role at a time. */
  function HasAllowedRole(roleIds: seq<string>): (b: bool)
    ensures b <==> exists i :: 0 <= i < |roleIds| && roleIds[i] in AllowedRoleIds
  {
    if |roleIds| == 0 then false
    else roleIds[0] in AllowedRoleIds || HasAllowedRole(roleIds[1..])
  }

  /** A string option is truthy when present and non-empty. */
  predicate Truthy(o: Option<string>)
  {
    o.Some? && o.value != ""
  }

  /** `id || slug`: the id when it is given, else the slug. */
  function Target(slug: Option<string>, id: Option<string>): (r: string)
    requires Truthy(slug) || Truthy(id)
    ensures r != ""
    ensures Truthy(id) ==> r == id.value
    ensures !Truthy(id) ==> r == slug.value
  {
    if Truthy(id) then id.value else slug.value
  }

  /** The regeneration endpoint: by id when an id is given, else by slug. */
  function RegenUrl(slug: Option<string>, id: Option<string>): (url: string)
    requires Truthy(slug) || Truthy(id)
    ensures Truthy(id) ==> url == "/offers/regen-by-id/" + id.value
    ensures !Truthy(id) ==> url == "/offers/regen/" + slug.value
  {
    var target := Target(slug, id);
    if Truthy(id) then "/offers/regen-by-id/" + target else "/offers/regen/" + target
  }

  /** The reply to the PUT: the API's message, or a default naming the target; a failure is reported privately. */
  function Respond(outcome: PutOutcome, target: string, now: int): (r: Reply)
    ensures outcome.Answered? ==> r.Embeds? && |r.embeds| == 1
    ensures outcome.Answered? && Truthy(outcome.message) ==> r.embeds[0].description == outcome.message
    ensures outcome.Answered? && !Truthy(outcome.message) ==> r.embeds[0].description == Some(Triggered + target)
    ensures outcome.Failed? ==> r.Ephemeral? && FailedPrefix <= r.content
    ensures outcome == Failed(NonError) ==> r == Ephemeral(FailedPrefix + UnknownError)
  {
    match outcome
    case Answered(message) =>
      var text := if Truthy(message) then message.value else Triggered + target;
      Embeds([EmptyEmbed.(title := Some("Offer Regeneration"), description := Some(text),
                          color := Some(Green), timestamp := Some(now))])
    case Failed(failure) =>
      var reason := if failure.ErrorValue? then failure.message else UnknownError;
      Ephemeral(FailedPrefix + reason)
  }

  /**
   * `execute`: refuse outside a server, refuse members without an allowed
   * role, refuse when neither a slug nor an id is given; otherwise PUT the
   * regeneration request and report its outcome.
   */
  function Execute(invoker: Invoker, slug: Option<string>, id: Option<string>, outcome: PutOutcome, now: int): (x: Execution)
    ensures !invoker.ServerMember? ==> x == Execution([], Ephemeral(ServerOnly))
    ensures invoker.ServerMember? && !HasAllowedRole(invoker.roleIds) ==> x == Execution([], Ephemeral(NoPermission))
    ensures invoker.ServerMember? && HasAllowedRole(invoker.roleIds) && !Truthy(slug) && !Truthy(id) ==>
              x == Execution([], Ephemeral(InvalidTarget))
    ensures invoker.ServerMember? && HasAllowedRole(invoker.roleIds) && (Truthy(slug) || Truthy(id)) ==>
              x == Execution([Put(RegenUrl(slug, id))], Respond(outcome, Target(slug, id), now))
  {
    if !invoker.ServerMember? then Execution([], Ephemeral(ServerOnly))
    else if !HasAllowedRole(invoker.roleIds) then Execution([], Ephemeral(NoPermission))
    else if !Truthy(slug) && !Truthy(id) then Execution([], Ephemeral(InvalidTarget))
    else Execution([Put(RegenUrl(slug, id))], Respond(outcome, Target(slug, id), now))
  }

  /**
   * A regeneration request is sent exactly when the invoker is a server
   * member holding an allowed role and a slug or an id is given; it is then
   * the only request, and the id wins over the slug.
   */
  lemma PutOnlyWhenPermitted(invoker: Invoker, slug: Option<string>, id: Option<string>, outcome: PutOutcome, now: int)
    ensures var x := Execute(invoker, slug, id, outcome, now);
            |x.calls| > 0 <==>
              (invoker.ServerMember? &&
               (exists i :: 0 <= i < |invoker.roleIds| && invoker.roleIds[i] in AllowedRoleIds) &&
               (Truthy(slug) || Truthy(id)))
    ensures var x := Execute(invoker, slug, id, outcome, now);
            |x.calls| > 0 && Truthy(id) ==> x.calls == [Put("/offers/regen-by-id/" + id.value)]
    ensures var x := Execute(invoker, slug, id, outcome, now);
            |x.calls| > 0 && !Truthy(id) ==> x.calls == [Put("/offers/regen/" + slug.value)]
  {
  }

  /** A member with no roles at all is always refused, whatever they ask for. */
  lemma NoRolesRefused(slug: Option<string>, id: Option<string>, outcome: PutOutcome, now: int)
    ensures Execute(ServerMember([]), slug, id, outcome, now) == Execution([], Ephemeral(NoPermission))
  {
  }

  /** A failed request is reported with the error's own message. */
  lemma FailureReported(invoker: Invoker, slug: Option<string>, id: Option<string>, message: string, now: int)
    requires invoker.ServerMember? && HasAllowedRole(invoker.roleIds) && (Truthy(slug) || Truthy(id))
    ensures Execute(invoker, slug, id, Failed(ErrorValue(message)), now).reply == Ephemeral(FailedPrefix + message)
  {
  }
}
