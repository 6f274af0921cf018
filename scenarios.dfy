/**
 * Command sequences on the app/bot-main.py model, checked against the
 * handlers' contracts by verification alone.
 */
module Scenarios {

  import opened PyDict
  import opened GamertagFormat
  import opened Workflow
  import opened BotMain

  /** A malformed gamertag still uses up the rate-limit window. */
  method ApplyUnderRateLimit() {
    var bot := new WhitelistBot(Config(1, 2, 99), Empty(), []);
    var player := Caller(1, 7, []);

    var short := bot.Apply(player, "ab", 1000);
    assert short == InvalidFormat;
    var early := bot.Apply(player, "Steve123", 1030);
    assert early == RateLimited;

    assert AllGamertagChars("Steve123");
    var r := bot.Apply(player, "Steve123", 1060);
    assert r == Accepted("Steve123");
    assert bot.whitelist.items["Steve123"] == Entry(7, Pending);
  }

  /** Approve and then revoke one pending application. */
  method ApproveThenRevoke() {
    var files := Dict(["Steve123"], map["Steve123" := Entry(7, Pending)]);
    var bot := new WhitelistBot(Config(1, 2, 99), files, []);
    var admin := Caller(2, 8, [Role(99, "admin")]);

    var r := bot.Approve(admin, "Steve123", RequestFailed);
    assert r == NoReply && bot.allowlist == [];

    r := bot.Approve(admin, "Steve123", Found("XUID-1"));
    assert r == ApprovalDone("Steve123");
    assert bot.allowlist == [AllowEntry("Steve123", "XUID-1")];
    assert bot.whitelist.items["Steve123"].status == Status.Approved;

    r := bot.Revoke(admin, "Steve123");
    assert r == Revoked("Steve123");
    assert bot.allowlist == [];
    assert "Steve123" !in bot.whitelist.items;
  }

  /** Two gamertags that resolve to the same xuid get one allowlist entry. */
  method SameXuidTwice() {
    var files := Dict(["Alpha", "Bravo"], map["Alpha" := Entry(7, Pending), "Bravo" := Entry(9, Pending)]);
    var bot := new WhitelistBot(Config(1, 2, 99), files, []);
    var admin := Caller(2, 8, [Role(99, "admin")]);

    var r := bot.Approve(admin, "Alpha", Found("X"));
    assert r == ApprovalDone("Alpha");
    assert bot.allowlist[0].xuid == "X";
    r := bot.Approve(admin, "Bravo", Found("X"));
    assert r == AlreadyRegistered;
    assert bot.allowlist == [AllowEntry("Alpha", "X")];
  }
}
