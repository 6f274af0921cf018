# Whitelist bot workflow, modelled in Dafny

A Discord bot gates a Minecraft Bedrock server. Players send `/apply <gamertag>`.
An admin sends `/approve <gamertag>`: the bot resolves the gamertag to an Xbox
user id (xuid) and adds `{name, xuid}` to the allowlist that the game server
reads. `/revoke <gamertag>` removes both the application and its allowlist
entries. `/wl_list pending|approved` lists applications. The state is:

- `whitelist` (whitelist.json): gamertag -> `{discordId, status}`, where status
  is `pending` or `approved`. It is a Python dict, so it also has an order,
  the order in which its keys were inserted. `PyDict.Dict` keeps that order
  as `keys`, next to the `items` map.
- `allowlist` (allowlist.json): an ordered list of `{name, xuid}`.
- `apply_rate_limit`: Discord user id -> the time of that user's last attempt
  that got past the 60-second limit. It lives in memory only.

The repository has this logic twice, and both copies are modelled as classes
over those fields:

- `BotMain.WhitelistBot` is `app/bot-main.py`. Each handler reloads the files
  it needs: `apply` and `wl_list` load whitelist.json only, while `approve` and
  `revoke` load both. A handler that succeeds saves what it changed; `wl_list`
  never saves, and no failing guard saves anything. A wrong channel gets a
  reply. Admins are recognised by role id.
- `Bot.WhitelistBot` is `bot.py`. It keeps the files in module globals that the
  handlers update in place. A wrong channel is ignored silently (`NoReply`).
  Admins are recognised by role name. `apply` checks "already has a pending
  application" before "gamertag taken".

Each handler is a method that returns a `Workflow.Reply`. Its `ensures` give
the guard order, with the reply for each failing guard. They say which guards
leave what untouched, and what the new state is on success. Every
`save_json` is recorded in `commits`, a log of file snapshots in save order.
`Valid()` states that what the files hold after the last saves equals the
fields. In both variants, `approve` saves the allowlist first and
`revoke` saves the whitelist first.

The shared state transitions and their invariants are in `Workflow`:

- `Consistent`: allowlist entries are exactly the approved applications.
- `DistinctXuids`: no xuid appears twice in the allowlist.
- `OnePendingEach`: a requester has at most one pending application.

Each handler's contract gives the new state on success as a function of the
old one: `Put` of a pending entry, `MarkApproved` plus an appended allowlist
entry, or `Pop` plus `WithoutName`. The lemmas `SubmitKeepsCoherent`,
`ApproveKeepsCoherent` and `RevokeKeepsCoherent` prove that these transitions
preserve all three invariants under the guards that let a command succeed. The
files loaded at start-up need not satisfy the invariants. The model therefore
proves preservation and not the invariants themselves. `Scenarios` checks short
command sequences against the handlers' contracts, by verification alone.

Several behaviours come from the code, and a reading of the intended design
might expect otherwise:

- The rate limit is checked before the gamertag format. A malformed name
  therefore still uses up the user's 60-second window.
- In `bot.py` the duplicate-requester check comes before the duplicate-gamertag
  check. In `app/bot-main.py` it is the other way round.
- In `app/bot-main.py`, `wl_list approved` asks for the admin role only outside
  the approve channel. Inside it, anyone may list.
- `approve` does not check that the application is still pending. Re-approving
  an approved gamertag whose xuid is not yet listed adds a second allowlist
  entry for that name.
- Between `revoke`'s two saves, the allowlist file still grants a name that has
  no application any more (`Workflow.RevokeHalfSaved`).
- Loading a file that cannot be parsed raises an exception. Nothing resets it.
- The gamertag regex `^[A-Za-z0-9 ]+$` is used with `re.match`, and there `$`
  also matches before a final newline. A valid name followed by one `"\n"`
  passes, and the length bound counts the newline. `GamertagFormat` models
  this as written.

## Model

| member | source | states |
|---|---|---|
| GamertagFormat.IsValidGamertag | discord-whitelist-bot/app/bot-main.py:63-66 | valid exactly when 3 <= length <= 16 and every character is in [A-Za-z0-9 ], or every character but a final newline is (bot.py:52-59 is the same check) |
| GamertagFormat.ClassRun | discord-whitelist-bot/app/bot-main.py:66 | the greedy `[A-Za-z0-9 ]+` run: within the string, every character it covers is in the class, and the character after it is not |
| GamertagFormat.AtEnd | discord-whitelist-bot/app/bot-main.py:66 | `$` holds at a position exactly when the rest of the string is empty or a single newline |
| GamertagFormat.RegexMatches | discord-whitelist-bot/app/bot-main.py:66 | the greedy matcher agrees with the backtracking regex: it matches iff some non-empty run of class characters from the start ends where `$` holds (bot.py:57 is the same regex) |
| GamertagFormat.TrailingNewlineAccepted | discord-whitelist-bot/bot.py:57 | 2 to 15 allowed characters followed by one newline are accepted |
| GamertagFormat.InnerNewlineRejected | discord-whitelist-bot/bot.py:57 | a newline anywhere before the last position is rejected |
| BotMain.CheckChannel | discord-whitelist-bot/app/bot-main.py:74-82 | "apply" only in the apply channel; "approve", "revoke" and "wl_list_approved" only in the approve channel; "wl_list_pending" in either; any other command type nowhere |
| BotMain.PendingListingWidest | discord-whitelist-bot/app/bot-main.py:80-81 | every channel that allows some command also allows listing pending applications |
| BotMain.IsAdmin | discord-whitelist-bot/app/bot-main.py:71-72 | true iff some role of the caller has the admin role id |
| Bot.IsAdmin | discord-whitelist-bot/bot.py:61-62 | true iff some role of the caller has the admin role name |
| Workflow.ParseStatus | discord-whitelist-bot/app/bot-main.py:229-231 | only "pending" and "approved" are accepted statuses, each mapped to its own status |
| Workflow.LastAttempt | discord-whitelist-bot/app/bot-main.py:132 | the ledger's time for a known user, and 0 for a user who never got past the limit (bot.py:82 is the same lookup) |
| Workflow.Throttled | discord-whitelist-bot/app/bot-main.py:133 | a known user is refused before their recorded time plus 60; an unknown user only before time 60 (bot.py:83 is the same test) |
| Workflow.ThrottleWindow | discord-whitelist-bot/app/bot-main.py:131-136 | once an attempt at `now` is recorded, that user's attempts are refused exactly before `now + 60`, and every other user's limit is unchanged |
| Workflow.WhitelistOnDiskIsLastSave | discord-whitelist-bot/app/bot-main.py:41-46 | whitelist.json holds the snapshot of the last whitelist save, or the file as found when there was none (bot.py:46-50 is the same `save_json`) |
| Workflow.AllowlistOnDiskIsLastSave | discord-whitelist-bot/bot.py:46-50 | allowlist.json holds the snapshot of the last allowlist save, or the file as found when there was none |
| Workflow.PendingBy | discord-whitelist-bot/app/bot-main.py:146-149 | the scan over the whitelist's values finds an entry iff the requester has a pending application |
| Workflow.XuidRegistered | discord-whitelist-bot/app/bot-main.py:187 | true iff some allowlist entry carries the xuid |
| Workflow.MarkApproved | discord-whitelist-bot/app/bot-main.py:192 | the application becomes approved with the same requester and the same place in the order; every other entry is unchanged |
| Workflow.WithoutName | discord-whitelist-bot/app/bot-main.py:215 | the result holds exactly the allowlist entries with another name |
| Workflow.NamesWithStatus | discord-whitelist-bot/app/bot-main.py:244 | the listing holds each gamertag with the given status exactly once, and nothing else |
| Sequences.Filter | discord-whitelist-bot/bot.py:167 | a list comprehension keeps exactly the elements that pass the test, and is no longer than the input |
| PyDict.Put | discord-whitelist-bot/app/bot-main.py:151-154 | assigning a key keeps the dict well formed; a new key goes last, an existing key keeps its place |
| PyDict.Pop | discord-whitelist-bot/app/bot-main.py:214 | popping removes the key and keeps the other keys in order |
| Workflow.SubmitKeepsConsistent | discord-whitelist-bot/app/bot-main.py:142-156 | adding a pending application under a new gamertag keeps the allowlist equal to the approved applications |
| Workflow.SubmitKeepsOnePending | discord-whitelist-bot/app/bot-main.py:146-154 | a requester without a pending application who files one still has at most one |
| Workflow.SubmitKeepsCoherent | discord-whitelist-bot/app/bot-main.py:142-156 | a new pending application for a requester without one keeps the three invariants |
| Workflow.ApproveKeepsConsistent | discord-whitelist-bot/app/bot-main.py:191-192 | appending `{gamertag, xuid}` while marking that application approved keeps the allowlist equal to the approved applications |
| Workflow.ApproveKeepsDistinctXuids | discord-whitelist-bot/app/bot-main.py:187-191 | if allowlist xuids are pairwise distinct, appending a xuid not yet registered keeps them so, whatever else the files hold |
| Workflow.ApproveKeepsOnePending | discord-whitelist-bot/app/bot-main.py:192 | approving an application never gives a requester a second pending one |
| Workflow.ApproveKeepsCoherent | discord-whitelist-bot/app/bot-main.py:187-195 | appending an unregistered xuid and approving the application keeps the three invariants |
| Workflow.RevokeKeepsConsistent | discord-whitelist-bot/app/bot-main.py:214-215 | popping the application and dropping every allowlist entry of that name keeps the allowlist equal to the approved applications |
| Workflow.RevokeKeepsOnePending | discord-whitelist-bot/app/bot-main.py:214 | popping an application keeps at most one pending application per requester |
| Workflow.RevokeKeepsCoherent | discord-whitelist-bot/app/bot-main.py:214-218 | removing the application and its allowlist entries keeps the three invariants |
| Workflow.WithoutNameKeepsDistinctXuids | discord-whitelist-bot/bot.py:167 | filtering the allowlist keeps its xuids distinct |
| Workflow.RevokeIdempotent | discord-whitelist-bot/app/bot-main.py:214-215 | revoking twice leaves the same whitelist and allowlist as revoking once |
| Workflow.RevokeUnknownIsNoop | discord-whitelist-bot/bot.py:163-167 | revoking a gamertag with no application and no allowlist entry changes neither |
| Workflow.RevokeKeepsOrder | discord-whitelist-bot/bot.py:167 | removing by name commutes with concatenation, so the surviving entries keep their order |
| Workflow.SubmitAppendsToPendingList | discord-whitelist-bot/app/bot-main.py:244 | a new application appears last in the pending listing |
| Workflow.ApproveHalfSaved | discord-whitelist-bot/bot.py:141-148 | after approve's first save, the files pair a new allowlist entry with an application still pending |
| Workflow.RevokeHalfSaved | discord-whitelist-bot/bot.py:163-168 | after revoke's first save, the allowlist file still names a gamertag that no longer has an application |
| BotMain.WhitelistBot.constructor | discord-whitelist-bot/app/bot-main.py:30-39 | start-up: the files as found, an empty ledger, no saves yet |
| BotMain.WhitelistBot.Apply | discord-whitelist-bot/app/bot-main.py:123-157 | guards in order: wrong channel, rate limit, format, gamertag taken, already applying; the ledger is written once the rate limit passes, before the later guards; only success changes the whitelist, adding one pending entry and saving it |
| BotMain.WhitelistBot.Approve | discord-whitelist-bot/app/bot-main.py:162-197 | guards in order: wrong channel, not admin, unknown gamertag, a failed request (no reply, the exception escapes), an unusable response, xuid registered, each changing nothing; success appends `{gamertag, xuid}`, marks the application approved, and saves the allowlist and then the whitelist |
| BotMain.WhitelistBot.Revoke | discord-whitelist-bot/app/bot-main.py:202-220 | wrong channel or not admin changes nothing; otherwise the application and every allowlist entry of that name go, the rest keep their order, and the whitelist is saved before the allowlist |
| BotMain.WhitelistBot.WlList | discord-whitelist-bot/app/bot-main.py:225-251 | bad status, then channel checks (for "approved" outside the approve channel: no permission unless admin); otherwise the gamertags with that status in whitelist order, or the "none" reply when there are none |
| Bot.WhitelistBot.constructor | discord-whitelist-bot/bot.py:67-68 | the module globals start as the files' contents, with an empty ledger |
| Bot.WhitelistBot.Apply | discord-whitelist-bot/bot.py:73-110 | wrong channel: no reply, nothing changes; then rate limit, format, already applying, gamertag taken; the ledger is written before validation; success adds one pending entry and saves it |
| Bot.WhitelistBot.Approve | discord-whitelist-bot/bot.py:115-150 | wrong channel silently, not admin, unknown gamertag, a failed request (no reply), an unusable response or xuid registered change nothing; success saves the allowlist with the new entry, then the whitelist with the approval |
| Bot.WhitelistBot.Revoke | discord-whitelist-bot/bot.py:155-170 | wrong channel silently or not admin changes nothing; otherwise pops the application, saves, filters the allowlist by name in order, saves |

## Left out

- Discord itself is not modelled: bot construction, intents, `bot.run`, the `help` command, the guild check and the message texts. A reply is a `Workflow.Reply` value.
- Configuration comes in as a `Config` value, not from environment variables or config.yaml.
- The playerdb.co lookup is network I/O and JSON decoding. Its outcome is the `resolved: Lookup` argument: a xuid, a response the `try` block rejects, or a request that raises when it is sent. Only the second is caught; the third leaves the command without a reply. A xuid is a string, whatever JSON type playerdb returns.
- File I/O is reduced to fields plus the `commits` log. Not modelled: the temporary file with `os.replace`, `os.makedirs`, JSON encoding, and the exception a malformed file raises on load. `app/bot-main.py` reloads the files a command needs when the command starts; the model assumes no other process writes them between commands. Every `save_json` is assumed to succeed: in `bot.py` a save that raises (disk full, no permission) would leave the globals updated while the file is not, a state `Valid()` cannot represent.
- Async interleaving at the resolver `await` is not modelled. Each handler runs atomically, so the race between two concurrent approvals is out of scope.
- `time.time()` is a float. The model takes an integer `now` from the caller.
- `discordId` is stored as `str(author.id)`. The model keeps the integer id: `str` is injective on integers, so comparing with the author gives the same answer. Hand-edited files with non-numeric ids cannot be represented.
- Entries missing a key cannot be represented. In the source, a whitelist entry without `discordId` or `status`, or an allowlist entry without `xuid` or `name`, makes `entry["discordId"]`, `e["xuid"]` or `e["name"]` raise (app/bot-main.py:147, 187, 215; bot.py:95, 137, 167). The model's records always have every field.
- Only the statuses `pending` and `approved` can be represented, since the code never writes any other.
