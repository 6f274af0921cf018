/**
 * app/bot-main.py: the variant configured from environment variables. Each
 * handler reloads the files it needs: `apply` and `wl_list` load whitelist.json
 * only, `approve` and `revoke` load both. Only a handler that succeeds saves,
 * and `wl_list` never does. A command sent from the wrong channel gets a
 * reply. Only the rate-limit ledger lives in process memory.
 */
module BotMain {

  import opened Wrappers
  import opened PyDict
  import opened GamertagFormat
  import opened Workflow

  /** APPLY_CHANNEL, APPROVE_CHANNEL and ADMIN_ROLE (a role id). */
  datatype Config = Config(applyChannel: int, approveChannel: int, adminRole: int)

  /** Whether a command of the given type may run in `channel`. */
  function CheckChannel(config: Config, channel: int, commandType: string): (ok: bool)
    ensures commandType == "apply" ==> (ok <==> channel == config.applyChannel)
    ensures commandType == "approve" || commandType == "revoke" || commandType == "wl_list_approved" ==>
      (ok <==> channel == config.approveChannel)
    ensures commandType == "wl_list_pending" ==>
      (ok <==> channel == config.applyChannel || channel == config.approveChannel)
    ensures ok ==> commandType in ["apply", "approve", "revoke", "wl_list_approved", "wl_list_pending"]
  {
    if commandType == "apply" then channel == config.applyChannel
    else if commandType in ["approve", "revoke", "wl_list_approved"] then channel == config.approveChannel
    else if commandType == "wl_list_pending" then channel == config.applyChannel || channel == config.approveChannel
    else false
  }

  /** Listing pending applications is allowed wherever any other command is. */
  lemma PendingListingWidest(config: Config, channel: int, commandType: string)
    requires CheckChannel(config, channel, commandType)
    ensures CheckChannel(config, channel, "wl_list_pending")
  {
  }

  /** `any(role.id == ADMIN_ROLE for role in member.roles)` */
  function IsAdmin(roles: seq<Role>, adminRole: int): (r: bool)
    ensures r <==> exists i :: 0 <= i < |roles| && roles[i].id == adminRole
  {
    |roles| > 0 && (roles[0].id == adminRole || IsAdmin(roles[1..], adminRole))
  }

  class WhitelistBot {

    const config: Config

    // The files as they were when the bot started.
    ghost const initialWhitelist: Whitelist
    ghost const initialAllowlist: seq<AllowEntry>

    var whitelist: Whitelist          // whitelist.json
    var allowlist: seq<AllowEntry>    // allowlist.json
    var ledger: map<UserId, int>      // apply_rate_limit
    var commits: seq<Commit>          // every save_json, in order

    /** The fields are what the files hold after the saves so far. */
    ghost predicate Valid()
      reads this
    {
      && PyDict.Valid(whitelist)
      && WhitelistOnDisk(commits, initialWhitelist) == whitelist
      && AllowlistOnDisk(commits, initialAllowlist) == allowlist
    }

    /** Start-up: the files as found, an empty ledger. */
    constructor (config: Config, whitelistFile: Whitelist, allowlistFile: seq<AllowEntry>)
      requires PyDict.Valid(whitelistFile)
      ensures Valid()
      ensures this.config == config
      ensures whitelist == whitelistFile && allowlist == allowlistFile
      ensures ledger == map[] && commits == []
    {
      this.config := config;
      initialWhitelist, initialAllowlist := whitelistFile, allowlistFile;
      whitelist, allowlist := whitelistFile, allowlistFile;
      ledger, commits := map[], [];
    }

    /** `/apply <gamertag>` at time `now`. */
    method Apply(ctx: Caller, gamertag: Gamertag, now: int) returns (reply: Reply)
      requires Valid()
      modifies this
      ensures Valid() && allowlist == old(allowlist)
      ensures !CheckChannel(config, ctx.channel, "apply") ==>
        reply == WrongChannel && ledger == old(ledger)
      ensures CheckChannel(config, ctx.channel, "apply") && Throttled(old(ledger), ctx.author, now) ==>
        reply == RateLimited && ledger == old(ledger)
      // an attempt past the rate limit is recorded before anything else can fail
      ensures CheckChannel(config, ctx.channel, "apply") && !Throttled(old(ledger), ctx.author, now) ==>
        ledger == old(ledger)[ctx.author := now]
      ensures (CheckChannel(config, ctx.channel, "apply") && !Throttled(old(ledger), ctx.author, now)
        && !IsValidGamertag(gamertag)) ==> reply == InvalidFormat
      ensures (CheckChannel(config, ctx.channel, "apply") && !Throttled(old(ledger), ctx.author, now)
        && IsValidGamertag(gamertag) && gamertag in old(whitelist).items) ==> reply == GamertagTaken
      ensures (CheckChannel(config, ctx.channel, "apply") && !Throttled(old(ledger), ctx.author, now)
        && IsValidGamertag(gamertag) && gamertag !in old(whitelist).items
        && HasPending(old(whitelist), ctx.author)) ==> reply == AlreadyApplying
      ensures reply.Accepted? <==>
        && CheckChannel(config, ctx.channel, "apply") && !Throttled(old(ledger), ctx.author, now)
        && IsValidGamertag(gamertag) && gamertag !in old(whitelist).items
        && !HasPending(old(whitelist), ctx.author)
      ensures reply.Accepted? ==>
        && reply == Accepted(gamertag)
        && whitelist == Put(old(whitelist), gamertag, Entry(ctx.author, Pending))
        && commits == old(commits) + [WhitelistSaved(whitelist)]
      ensures !reply.Accepted? ==> whitelist == old(whitelist) && commits == old(commits)
    {
      if !CheckChannel(config, ctx.channel, "apply") {
        return WrongChannel;
      }
      var wl := whitelist;
      if Throttled(ledger, ctx.author, now) {
        return RateLimited;
      }
      ledger := ledger[ctx.author := now];
      if !IsValidGamertag(gamertag) {
        return InvalidFormat;
      }
      if gamertag in wl.items {
        return GamertagTaken;
      }
      var applying := PendingBy(wl, ctx.author);
      if applying {
        return AlreadyApplying;
      }
      wl := Put(wl, gamertag, Entry(ctx.author, Pending));
      WhitelistSave(commits, wl, initialWhitelist, initialAllowlist);
      whitelist, commits := wl, commits + [WhitelistSaved(wl)];
      reply := Accepted(gamertag);
    }

    /** `/approve <gamertag>`; `resolved` is what the playerdb request gave. */
    method Approve(ctx: Caller, gamertag: Gamertag, resolved: Lookup) returns (reply: Reply)
      requires Valid()
      modifies this
      ensures Valid() && ledger == old(ledger)
      ensures !CheckChannel(config, ctx.channel, "approve") ==> reply == WrongChannel
      ensures CheckChannel(config, ctx.channel, "approve") && !IsAdmin(ctx.roles, config.adminRole) ==>
        reply == NotPermitted
      ensures (CheckChannel(config, ctx.channel, "approve") && IsAdmin(ctx.roles, config.adminRole)
        && gamertag !in old(whitelist).items) ==> reply == NotFound
      ensures (CheckChannel(config, ctx.channel, "approve") && IsAdmin(ctx.roles, config.adminRole)
        && gamertag in old(whitelist).items && resolved.RequestFailed?) ==> reply == NoReply
      ensures (CheckChannel(config, ctx.channel, "approve") && IsAdmin(ctx.roles, config.adminRole)
        && gamertag in old(whitelist).items && resolved.BadResponse?) ==> reply == ResolveFailed
      ensures (CheckChannel(config, ctx.channel, "approve") && IsAdmin(ctx.roles, config.adminRole)
        && gamertag in old(whitelist).items && resolved.Found?
        && XuidRegistered(old(allowlist), resolved.xuid)) ==> reply == AlreadyRegistered
      ensures reply.ApprovalDone? <==>
        && CheckChannel(config, ctx.channel, "approve") && IsAdmin(ctx.roles, config.adminRole)
        && gamertag in old(whitelist).items && resolved.Found?
        && !XuidRegistered(old(allowlist), resolved.xuid)
      ensures reply.ApprovalDone? ==>
        && reply == ApprovalDone(gamertag)
        && allowlist == old(allowlist) + [AllowEntry(gamertag, resolved.xuid)]
        && whitelist == MarkApproved(old(whitelist), gamertag)
        && commits == old(commits) + [AllowlistSaved(allowlist), WhitelistSaved(whitelist)]
      ensures !reply.ApprovalDone? ==>
        whitelist == old(whitelist) && allowlist == old(allowlist) && commits == old(commits)
    {
      if !CheckChannel(config, ctx.channel, "approve") {
        return WrongChannel;
      }
      if !IsAdmin(ctx.roles, config.adminRole) {
        return NotPermitted;
      }
      var wl, al := whitelist, allowlist;
      if gamertag !in wl.items {
        return NotFound;
      }
      if resolved.RequestFailed? {
        // the exception escapes the command before any reply
        return NoReply;
      }
      if resolved.BadResponse? {
        return ResolveFailed;
      }
      var xuid := resolved.xuid;
      if XuidRegistered(al, xuid) {
        return AlreadyRegistered;
      }
      al := al + [AllowEntry(gamertag, xuid)];
      wl := MarkApproved(wl, gamertag);
      AllowlistSave(commits, al, initialWhitelist, initialAllowlist);
      allowlist, commits := al, commits + [AllowlistSaved(al)];
      WhitelistSave(commits, wl, initialWhitelist, initialAllowlist);
      whitelist, commits := wl, commits + [WhitelistSaved(wl)];
      reply := ApprovalDone(gamertag);
    }

    /** `/revoke <gamertag>`: drops the application and every allowlist entry of that name. */
    method Revoke(ctx: Caller, gamertag: Gamertag) returns (reply: Reply)
      requires Valid()
      modifies this
      ensures Valid() && ledger == old(ledger)
      ensures !CheckChannel(config, ctx.channel, "revoke") ==> reply == WrongChannel
      ensures CheckChannel(config, ctx.channel, "revoke") && !IsAdmin(ctx.roles, config.adminRole) ==>
        reply == NotPermitted
      ensures reply.Revoked? <==>
        CheckChannel(config, ctx.channel, "revoke") && IsAdmin(ctx.roles, config.adminRole)
      ensures reply.Revoked? ==>
        && reply == Revoked(gamertag)
        && whitelist == Pop(old(whitelist), gamertag)
        && allowlist == WithoutName(old(allowlist), gamertag)
        && commits == old(commits) + [WhitelistSaved(whitelist), AllowlistSaved(allowlist)]
      ensures !reply.Revoked? ==>
        whitelist == old(whitelist) && allowlist == old(allowlist) && commits == old(commits)
    {
      if !CheckChannel(config, ctx.channel, "revoke") {
        return WrongChannel;
      }
      if !IsAdmin(ctx.roles, config.adminRole) {
        return NotPermitted;
      }
      var wl, al := whitelist, allowlist;
      wl := Pop(wl, gamertag);
      al := WithoutName(al, gamertag);
      WhitelistSave(commits, wl, initialWhitelist, initialAllowlist);
      whitelist, commits := wl, commits + [WhitelistSaved(wl)];
      AllowlistSave(commits, al, initialWhitelist, initialAllowlist);
      allowlist, commits := al, commits + [AllowlistSaved(al)];
      reply := Revoked(gamertag);
    }

    /** `/wl_list <status>`: gamertags with that status, in whitelist order. */
    method WlList(ctx: Caller, status: string) returns (reply: Reply)
      requires Valid()
      ensures ParseStatus(status).None? ==> reply == BadArgument
      ensures status == "pending" && !CheckChannel(config, ctx.channel, "wl_list_pending") ==>
        reply == WrongChannel
      // outside the approve channel an admin is told "wrong channel", anyone else "no permission";
      // inside it, nobody is asked for the admin role
      ensures status == "approved" && !CheckChannel(config, ctx.channel, "wl_list_approved") ==>
        reply == (if IsAdmin(ctx.roles, config.adminRole) then WrongChannel else NotPermitted)
      ensures reply.Listed? || reply.NoneListed? <==>
        || (status == "pending" && CheckChannel(config, ctx.channel, "wl_list_pending"))
        || (status == "approved" && CheckChannel(config, ctx.channel, "wl_list_approved"))
      ensures reply.Listed? ==>
        && ParseStatus(status) == Some(reply.status)
        && reply.names == NamesWithStatus(whitelist, reply.status)
        && reply.names != []
      ensures reply.NoneListed? ==>
        ParseStatus(status) == Some(reply.status) && NamesWithStatus(whitelist, reply.status) == []
    {
      var wl := whitelist;
      var s := ParseStatus(status);
      if s.None? {
        return BadArgument;
      }
      if s.value == Pending && !CheckChannel(config, ctx.channel, "wl_list_pending") {
        return WrongChannel;
      }
      if s.value == Status.Approved && !CheckChannel(config, ctx.channel, "wl_list_approved") {
        if !IsAdmin(ctx.roles, config.adminRole) {
          return NotPermitted;
        }
        return WrongChannel;
      }
      var items := NamesWithStatus(wl, s.value);
      if items == [] {
        return NoneListed(s.value);
      }
      return Listed(s.value, items);
    }
  }
}
