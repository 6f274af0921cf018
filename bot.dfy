/**
 * bot.py: the variant configured from config.yaml. The whitelist and the
 * allowlist are loaded once at start-up into module-level globals, which each
 * command updates in place and saves after every change; a command sent from
 * the wrong channel is ignored without a reply.
 */
module Bot {

  import opened PyDict
  import opened GamertagFormat
  import opened Workflow

  /** server.apply_channel, server.approve_channel and server.admin_role (a role name). */
  datatype Config = Config(applyChannel: int, approveChannel: int, adminRole: string)

  /** `any(role.name == ADMIN_ROLE for role in member.roles)` */
  function IsAdmin(roles: seq<Role>, adminRole: string): (r: bool)
    ensures r <==> exists i :: 0 <= i < |roles| && roles[i].name == adminRole
  {
    |roles| > 0 && (roles[0].name == adminRole || IsAdmin(roles[1..], adminRole))
  }

  class WhitelistBot {

    const config: Config

    // The files as they were when the module was loaded.
    ghost const initialWhitelist: Whitelist
    ghost const initialAllowlist: seq<AllowEntry>

    var whitelist: Whitelist          // global whitelist
    var allowlist: seq<AllowEntry>    // global allowlist
    var ledger: map<UserId, int>      // apply_rate_limit
    var commits: seq<Commit>          // every save_json, in order

    /** Between commands, memory and the files agree. */
    ghost predicate Valid()
      reads this
    {
      && PyDict.Valid(whitelist)
      && WhitelistOnDisk(commits, initialWhitelist) == whitelist
      && AllowlistOnDisk(commits, initialAllowlist) == allowlist
    }

    /** Module load: `whitelist = load_json(...)`, `allowlist = load_json(...)`, an empty ledger. */
    constructor (config: Config, whitelistFile: Whitelist, allowlistFile: seq<AllowEntry>)
      requires PyDict.Valid(whitelistFile)
      ensures Valid()
      ensures this.config == config
      ensures whitelist == whitelistFile && allowlist == allowlistFile
      ensures ledger == map[] && commits == []
    {
      this.config := config;
      initialWhitelist, initialAllowlist := whitelistFile, allowlistFile;
      whitelist, allowlist := whitelistFile, allowlistFile;
      ledger, commits := map[], [];
    }

    /** `/apply <gamertag>` at time `now`. */
    method Apply(ctx: Caller, gamertag: Gamertag, now: int) returns (reply: Reply)
      requires Valid()
      modifies this
      ensures Valid() && allowlist == old(allowlist)
      ensures ctx.channel != config.applyChannel ==> reply == NoReply && ledger == old(ledger)
      ensures ctx.channel == config.applyChannel && Throttled(old(ledger), ctx.author, now) ==>
        reply == RateLimited && ledger == old(ledger)
      // an attempt past the rate limit is recorded before anything else can fail
      ensures ctx.channel == config.applyChannel && !Throttled(old(ledger), ctx.author, now) ==>
        ledger == old(ledger)[ctx.author := now]
      ensures (ctx.channel == config.applyChannel && !Throttled(old(ledger), ctx.author, now)
        && !IsValidGamertag(gamertag)) ==> reply == InvalidFormat
      // the requester check comes first: when both fail, the reply is "already applying"
      ensures (ctx.channel == config.applyChannel && !Throttled(old(ledger), ctx.author, now)
        && IsValidGamertag(gamertag) && HasPending(old(whitelist), ctx.author)) ==> reply == AlreadyApplying
      ensures (ctx.channel == config.applyChannel && !Throttled(old(ledger), ctx.author, now)
        && IsValidGamertag(gamertag) && !HasPending(old(whitelist), ctx.author)
        && gamertag in old(whitelist).items) ==> reply == GamertagTaken
      ensures reply.Accepted? <==>
        && ctx.channel == config.applyChannel && !Throttled(old(ledger), ctx.author, now)
        && IsValidGamertag(gamertag) && !HasPending(old(whitelist), ctx.author)
        && gamertag !in old(whitelist).items
      ensures reply.Accepted? ==>
        && reply == Accepted(gamertag)
        && whitelist == Put(old(whitelist), gamertag, Entry(ctx.author, Pending))
        && commits == old(commits) + [WhitelistSaved(whitelist)]
      ensures !reply.Accepted? ==> whitelist == old(whitelist) && commits == old(commits)
    {
      if ctx.channel != config.applyChannel {
        return NoReply;
      }
      if Throttled(ledger, ctx.author, now) {
        return RateLimited;
      }
      ledger := ledger[ctx.author := now];
      if !IsValidGamertag(gamertag) {
        return InvalidFormat;
      }
      var applying := PendingBy(whitelist, ctx.author);
      if applying {
        return AlreadyApplying;
      }
      if gamertag in whitelist.items {
        return GamertagTaken;
      }
      whitelist := Put(whitelist, gamertag, Entry(ctx.author, Pending));
      WhitelistSave(commits, whitelist, initialWhitelist, initialAllowlist);
      commits := commits + [WhitelistSaved(whitelist)];
      reply := Accepted(gamertag);
    }

    /** `/approve <gamertag>`; `resolved` is what the playerdb request gave. */
    method Approve(ctx: Caller, gamertag: Gamertag, resolved: Lookup) returns (reply: Reply)
      requires Valid()
      modifies this
      ensures Valid() && ledger == old(ledger)
      ensures ctx.channel != config.approveChannel ==> reply == NoReply
      ensures ctx.channel == config.approveChannel && !IsAdmin(ctx.roles, config.adminRole) ==>
        reply == NotPermitted
      ensures (ctx.channel == config.approveChannel && IsAdmin(ctx.roles, config.adminRole)
        && gamertag !in old(whitelist).items) ==> reply == NotFound
      ensures (ctx.channel == config.approveChannel && IsAdmin(ctx.roles, config.adminRole)
        && gamertag in old(whitelist).items && resolved.RequestFailed?) ==> reply == NoReply
      ensures (ctx.channel == config.approveChannel && IsAdmin(ctx.roles, config.adminRole)
        && gamertag in old(whitelist).items && resolved.BadResponse?) ==> reply == ResolveFailed
      ensures (ctx.channel == config.approveChannel && IsAdmin(ctx.roles, config.adminRole)
        && gamertag in old(whitelist).items && resolved.Found?
        && XuidRegistered(old(allowlist), resolved.xuid)) ==> reply == AlreadyRegistered
      ensures reply.ApprovalDone? <==>
        && ctx.channel == config.approveChannel && IsAdmin(ctx.roles, config.adminRole)
        && gamertag in old(whitelist).items && resolved.Found?
        && !XuidRegistered(old(allowlist), resolved.xuid)
      // the allowlist is saved first, while the application is still pending
      ensures reply.ApprovalDone? ==>
        && reply == ApprovalDone(gamertag)
        && allowlist == old(allowlist) + [AllowEntry(gamertag, resolved.xuid)]
        && whitelist == MarkApproved(old(whitelist), gamertag)
        && commits == old(commits) + [AllowlistSaved(allowlist), WhitelistSaved(whitelist)]
      ensures !reply.ApprovalDone? ==>
        whitelist == old(whitelist) && allowlist == old(allowlist) && commits == old(commits)
    {
      if ctx.channel != config.approveChannel {
        return NoReply;
      }
      if !IsAdmin(ctx.roles, config.adminRole) {
        return NotPermitted;
      }
      if gamertag !in whitelist.items {
        return NotFound;
      }
      if resolved.RequestFailed? {
        // the exception escapes the command before any reply
        return NoReply;
      }
      if resolved.BadResponse? {
        return ResolveFailed;
      }
      var xuid := resolved.xuid;
      if XuidRegistered(allowlist, xuid) {
        return AlreadyRegistered;
      }
      allowlist := allowlist + [AllowEntry(gamertag, xuid)];
      AllowlistSave(commits, allowlist, initialWhitelist, initialAllowlist);
      commits := commits + [AllowlistSaved(allowlist)];
      whitelist := MarkApproved(whitelist, gamertag);
      WhitelistSave(commits, whitelist, initialWhitelist, initialAllowlist);
      commits := commits + [WhitelistSaved(whitelist)];
      reply := ApprovalDone(gamertag);
    }

    /** `/revoke <gamertag>`: drops the application and every allowlist entry of that name. */
    method Revoke(ctx: Caller, gamertag: Gamertag) returns (reply: Reply)
      requires Valid()
      modifies this
      ensures Valid() && ledger == old(ledger)
      ensures ctx.channel != config.approveChannel ==> reply == NoReply
      ensures ctx.channel == config.approveChannel && !IsAdmin(ctx.roles, config.adminRole) ==>
        reply == NotPermitted
      ensures reply.Revoked? <==>
        ctx.channel == config.approveChannel && IsAdmin(ctx.roles, config.adminRole)
      ensures reply.Revoked? ==>
        && reply == Revoked(gamertag)
        && whitelist == Pop(old(whitelist), gamertag)
        && allowlist == WithoutName(old(allowlist), gamertag)
        && commits == old(commits) + [WhitelistSaved(whitelist), AllowlistSaved(allowlist)]
      ensures !reply.Revoked? ==>
        whitelist == old(whitelist) && allowlist == old(allowlist) && commits == old(commits)
    {
      if ctx.channel != config.approveChannel {
        return NoReply;
      }
      if !IsAdmin(ctx.roles, config.adminRole) {
        return NotPermitted;
      }
      whitelist := Pop(whitelist, gamertag);
      WhitelistSave(commits, whitelist, initialWhitelist, initialAllowlist);
      commits := commits + [WhitelistSaved(whitelist)];
      allowlist := WithoutName(allowlist, gamertag);
      AllowlistSave(commits, allowlist, initialWhitelist, initialAllowlist);
      commits := commits + [AllowlistSaved(allowlist)];
      reply := Revoked(gamertag);
    }
  }
}
