/**
 * The records both bot variants keep, the replies they send, and the state
 * transitions their handlers share: submitting an application, approving it
 * into the allowlist, revoking it, and listing applications by status.
 *
 * `whitelist` maps a gamertag to {discordId, status} (whitelist.json),
 * `allowlist` is the list of {name, xuid} read by the game server
 * (allowlist.json), and the rate-limit ledger maps a Discord user id to the
 * time of their last attempt that got past the rate limit.
 */
module Workflow {

  import opened Wrappers
  import opened Sequences
  import opened PyDict

  type Gamertag = string
  type UserId = int
  type Xuid = string

  datatype Status = Pending | Approved

  /** A whitelist record; `discordId` is `str(author.id)`, kept as the id itself. */
  datatype Entry = Entry(discordId: UserId, status: Status)

  datatype AllowEntry = AllowEntry(name: Gamertag, xuid: Xuid)

  datatype Role = Role(id: int, name: string)

  /** Who issued a command and from where. */
  datatype Caller = Caller(channel: int, author: UserId, roles: seq<Role>)

  /** The reply a handler sends; `NoReply` is a handler that returns without sending. */
  datatype Reply =
    | NoReply
    | WrongChannel
    | NotPermitted
    | RateLimited
    | InvalidFormat
    | GamertagTaken
    | AlreadyApplying
    | Accepted(gamertag: Gamertag)
    | NotFound
    | ResolveFailed
    | AlreadyRegistered
    | ApprovalDone(gamertag: Gamertag)
    | Revoked(gamertag: Gamertag)
    | BadArgument
    | NoneListed(status: Status)
    | Listed(status: Status, names: seq<Gamertag>)

  type Whitelist = Dict<Gamertag, Entry>

  /**
   * The outcome of the playerdb.co request for one gamertag: a xuid, a
   * response whose body is not JSON or lacks `data.player.id`, or a request
   * that raised before any response arrived.
   */
  datatype Lookup = Found(xuid: Xuid) | BadResponse | RequestFailed

  /** One `save_json` call: the whole collection written to its file. */
  datatype Commit =
    | WhitelistSaved(whitelist: Whitelist)
    | AllowlistSaved(allowlist: seq<AllowEntry>)

  /** What whitelist.json holds after the saves in `log`, starting from `initial`. */
  function WhitelistOnDisk(log: seq<Commit>, initial: Whitelist): Whitelist {
    if |log| == 0 then initial
    else if log[|log| - 1].WhitelistSaved? then log[|log| - 1].whitelist
    else WhitelistOnDisk(log[..|log| - 1], initial)
  }

  /** The file holds the snapshot of the last whitelist save, or `initial` when there was none. */
  lemma {:induction false} WhitelistOnDiskIsLastSave(log: seq<Commit>, initial: Whitelist)
    ensures (forall i :: 0 <= i < |log| ==> !log[i].WhitelistSaved?) ==> WhitelistOnDisk(log, initial) == initial
    ensures forall i ::
      (&& 0 <= i < |log| && log[i].WhitelistSaved?
       && (forall j :: i < j < |log| ==> !log[j].WhitelistSaved?))
      ==> WhitelistOnDisk(log, initial) == log[i].whitelist
  {
    if |log| != 0 && !log[|log| - 1].WhitelistSaved? {
      var front := log[..|log| - 1];
      assert forall i :: 0 <= i < |front| ==> front[i] == log[i];
      WhitelistOnDiskIsLastSave(front, initial);
    }
  }

  /** What allowlist.json holds after the saves in `log`, starting from `initial`. */
  function AllowlistOnDisk(log: seq<Commit>, initial: seq<AllowEntry>): seq<AllowEntry> {
    if |log| == 0 then initial
    else if log[|log| - 1].AllowlistSaved? then log[|log| - 1].allowlist
    else AllowlistOnDisk(log[..|log| - 1], initial)
  }

  /** The file holds the snapshot of the last allowlist save, or `initial` when there was none. */
  lemma {:induction false} AllowlistOnDiskIsLastSave(log: seq<Commit>, initial: seq<AllowEntry>)
    ensures (forall i :: 0 <= i < |log| ==> !log[i].AllowlistSaved?) ==> AllowlistOnDisk(log, initial) == initial
    ensures forall i ::
      (&& 0 <= i < |log| && log[i].AllowlistSaved?
       && (forall j :: i < j < |log| ==> !log[j].AllowlistSaved?))
      ==> AllowlistOnDisk(log, initial) == log[i].allowlist
  {
    if |log| != 0 && !log[|log| - 1].AllowlistSaved? {
      var front := log[..|log| - 1];
      assert forall i :: 0 <= i < |front| ==> front[i] == log[i];
      AllowlistOnDiskIsLastSave(front, initial);
    }
  }

  /** Saving the whitelist replaces that file and leaves the other one alone. */
  lemma WhitelistSave(log: seq<Commit>, w: Whitelist, iw: Whitelist, ia: seq<AllowEntry>)
    ensures WhitelistOnDisk(log + [WhitelistSaved(w)], iw) == w
    ensures AllowlistOnDisk(log + [WhitelistSaved(w)], ia) == AllowlistOnDisk(log, ia)
  {
    assert (log + [WhitelistSaved(w)])[..|log|] == log;
  }

  /** Saving the allowlist replaces that file and leaves the other one alone. */
  lemma AllowlistSave(log: seq<Commit>, a: seq<AllowEntry>, iw: Whitelist, ia: seq<AllowEntry>)
    ensures AllowlistOnDisk(log + [AllowlistSaved(a)], ia) == a
    ensures WhitelistOnDisk(log + [AllowlistSaved(a)], iw) == WhitelistOnDisk(log, iw)
  {
    assert (log + [AllowlistSaved(a)])[..|log|] == log;
  }

  /** The `status` argument of `wl_list`. */
  function ParseStatus(s: string): (r: Option<Status>)
    ensures r == Some(Pending) <==> s == "pending"
    ensures r == Some(Approved) <==> s == "approved"
    ensures r.None? <==> s != "pending" && s != "approved"
  {
    if s == "pending" then Some(Pending)
    else if s == "approved" then Some(Approved)
    else None
  }

  // ----- rate limit -------------------------------------------------------

  /** The ledger's time for `author`, and 0 for a user who never got past the limit. */
  function LastAttempt(ledger: map<UserId, int>, author: UserId): (t: int)
    ensures author in ledger ==> t == ledger[author]
    ensures author !in ledger ==> t == 0
  {
    if author in ledger then ledger[author] else 0
  }

  /** The attempt comes less than 60 time units after the last recorded one and is refused. */
  predicate Throttled(ledger: map<UserId, int>, author: UserId, now: int): (r: bool)
    ensures author in ledger ==> (r <==> now < ledger[author] + 60)
    ensures author !in ledger ==> (r <==> now < 60)
  {
    now - LastAttempt(ledger, author) < 60
  }

  /**
   * Recording an attempt at `now` refuses that user's attempts before `now + 60`,
   * whatever became of the first, and leaves every other user's limit alone.
   */
  lemma ThrottleWindow(ledger: map<UserId, int>, author: UserId, now: int, later: int, other: UserId)
    ensures Throttled(ledger[author := now], author, later) <==> later < now + 60
    ensures other != author ==>
      Throttled(ledger[author := now], other, later) == Throttled(ledger, other, later)
  {
  }

  // ----- guards -----------------------------------------------------------

  ghost predicate HasPending(wl: Whitelist, author: UserId) {
    exists k :: k in wl.items && wl.items[k].discordId == author && wl.items[k].status == Pending
  }

  /**
   * The scan over the whitelist's entries in insertion order that stops at the
   * first pending application filed by `author`.
   */
  method PendingBy(wl: Whitelist, author: UserId) returns (found: bool)
    requires Valid(wl)
    ensures found <==> HasPending(wl, author)
  {
    var i := 0;
    while i < |wl.keys|
      invariant 0 <= i <= |wl.keys|
      invariant forall j :: 0 <= j < i ==>
        !(wl.items[wl.keys[j]].discordId == author && wl.items[wl.keys[j]].status == Pending)
    {
      var entry := wl.items[wl.keys[i]];
      if entry.discordId == author && entry.status == Pending {
        return true;
      }
      i := i + 1;
    }
    forall k | k in wl.items
      ensures !(wl.items[k].discordId == author && wl.items[k].status == Pending)
    {
      var j :| 0 <= j < |wl.keys| && wl.keys[j] == k;
    }
    return false;
  }

  /** `any(e["xuid"] == xuid for e in allowlist)` */
  function XuidRegistered(al: seq<AllowEntry>, x: Xuid): (r: bool)
    ensures r <==> exists i :: 0 <= i < |al| && al[i].xuid == x
  {
    if |al| == 0 then false
    else al[0].xuid == x || XuidRegistered(al[1..], x)
  }

  // ----- transitions ------------------------------------------------------

  /** `whitelist[g]["status"] = "approved"`: same place, same requester. */
  function MarkApproved(wl: Whitelist, g: Gamertag): (r: Whitelist)
    requires Valid(wl) && g in wl.items
    ensures Valid(r) && r.keys == wl.keys && r.items.Keys == wl.items.Keys
    ensures r.items[g] == Entry(wl.items[g].discordId, Approved)
    ensures forall k :: k in wl.items && k != g ==> r.items[k] == wl.items[k]
  {
    Put(wl, g, wl.items[g].(status := Approved))
  }

  /** `[e for e in allowlist if e["name"] != gamertag]` */
  function WithoutName(al: seq<AllowEntry>, g: Gamertag): (r: seq<AllowEntry>)
    ensures forall i :: 0 <= i < |r| ==> r[i].name != g && r[i] in al
    ensures forall i :: 0 <= i < |al| && al[i].name != g ==> al[i] in r
  {
    Filter(al, (e: AllowEntry) => e.name != g)
  }

  /** `[name for name, data in whitelist.items() if data.get("status") == status]` */
  function NamesWithStatus(wl: Whitelist, s: Status): (r: seq<Gamertag>)
    requires Valid(wl)
    ensures Distinct(r)
    ensures forall k :: k in r <==> k in wl.items && wl.items[k].status == s
  {
    FilterDistinct(wl.keys, k => k in wl.items && wl.items[k].status == s);
    Filter(wl.keys, k => k in wl.items && wl.items[k].status == s)
  }

  // ----- invariants -------------------------------------------------------

  /** No two allowlist entries carry the same xuid. */
  ghost predicate DistinctXuids(al: seq<AllowEntry>) {
    forall i, j :: 0 <= i < j < |al| ==> al[i].xuid != al[j].xuid
  }

  /** A requester has at most one pending application. */
  ghost predicate OnePendingEach(wl: Whitelist) {
    forall k1, k2 ::
      (&& k1 in wl.items && k2 in wl.items
       && wl.items[k1].status == Pending && wl.items[k2].status == Pending
       && wl.items[k1].discordId == wl.items[k2].discordId)
      ==> k1 == k2
  }

  /** Allowlist entries are exactly the approved applications. */
  ghost predicate Consistent(wl: Whitelist, al: seq<AllowEntry>) {
    && (forall e :: e in al ==> e.name in wl.items && wl.items[e.name].status == Approved)
    && (forall k :: k in wl.items && wl.items[k].status == Approved ==> exists e :: e in al && e.name == k)
  }

  ghost predicate Coherent(wl: Whitelist, al: seq<AllowEntry>) {
    Consistent(wl, al) && DistinctXuids(al) && OnePendingEach(wl)
  }

  // Each invariant is preserved from its own hypothesis: the files found at
  // start-up may satisfy some of them and not the others.

  /** A new pending application leaves the approved ones and the allowlist as they were. */
  lemma SubmitKeepsConsistent(wl: Whitelist, al: seq<AllowEntry>, g: Gamertag, author: UserId)
    requires Valid(wl) && Consistent(wl, al) && g !in wl.items
    ensures Consistent(Put(wl, g, Entry(author, Pending)), al)
  {
  }

  /** `apply` refuses a requester who already has a pending application. */
  lemma SubmitKeepsOnePending(wl: Whitelist, g: Gamertag, author: UserId)
    requires Valid(wl) && OnePendingEach(wl)
    requires g !in wl.items && !HasPending(wl, author)
    ensures OnePendingEach(Put(wl, g, Entry(author, Pending)))
  {
  }

  lemma SubmitKeepsCoherent(wl: Whitelist, al: seq<AllowEntry>, g: Gamertag, author: UserId)
    requires Valid(wl) && Coherent(wl, al)
    requires g !in wl.items && !HasPending(wl, author)
    ensures Coherent(Put(wl, g, Entry(author, Pending)), al)
  {
    SubmitKeepsConsistent(wl, al, g, author);
    SubmitKeepsOnePending(wl, g, author);
  }

  /** The new allowlist entry belongs to the application that becomes approved. */
  lemma ApproveKeepsConsistent(wl: Whitelist, al: seq<AllowEntry>, g: Gamertag, x: Xuid)
    requires Valid(wl) && Consistent(wl, al) && g in wl.items
    ensures Consistent(MarkApproved(wl, g), al + [AllowEntry(g, x)])
  {
  }

  /** `approve` appends a xuid only when no entry carries it yet. */
  lemma ApproveKeepsDistinctXuids(al: seq<AllowEntry>, g: Gamertag, x: Xuid)
    requires DistinctXuids(al) && !XuidRegistered(al, x)
    ensures DistinctXuids(al + [AllowEntry(g, x)])
  {
  }

  /** Approving can only end a pending application, never start one. */
  lemma ApproveKeepsOnePending(wl: Whitelist, g: Gamertag)
    requires Valid(wl) && OnePendingEach(wl) && g in wl.items
    ensures OnePendingEach(MarkApproved(wl, g))
  {
  }

  lemma ApproveKeepsCoherent(wl: Whitelist, al: seq<AllowEntry>, g: Gamertag, x: Xuid)
    requires Valid(wl) && Coherent(wl, al)
    requires g in wl.items && !XuidRegistered(al, x)
    ensures Coherent(MarkApproved(wl, g), al + [AllowEntry(g, x)])
  {
    ApproveKeepsConsistent(wl, al, g, x);
    ApproveKeepsDistinctXuids(al, g, x);
    ApproveKeepsOnePending(wl, g);
  }

  /** The application and its allowlist entries go together. */
  lemma RevokeKeepsConsistent(wl: Whitelist, al: seq<AllowEntry>, g: Gamertag)
    requires Valid(wl) && Consistent(wl, al)
    ensures Consistent(Pop(wl, g), WithoutName(al, g))
  {
    var wl', al' := Pop(wl, g), WithoutName(al, g);
    forall e | e in al' ensures e.name in wl'.items && wl'.items[e.name].status == Approved {
      var i :| 0 <= i < |al'| && al'[i] == e;
    }
    forall k | k in wl'.items && wl'.items[k].status == Approved
      ensures exists e :: e in al' && e.name == k
    {
      var e :| e in al && e.name == k;
      var i :| 0 <= i < |al| && al[i] == e;
      assert al[i] in al';
    }
  }

  /** Removing an application leaves fewer pending ones. */
  lemma RevokeKeepsOnePending(wl: Whitelist, g: Gamertag)
    requires Valid(wl) && OnePendingEach(wl)
    ensures OnePendingEach(Pop(wl, g))
  {
  }

  lemma RevokeKeepsCoherent(wl: Whitelist, al: seq<AllowEntry>, g: Gamertag)
    requires Valid(wl) && Coherent(wl, al)
    ensures Coherent(Pop(wl, g), WithoutName(al, g))
  {
    RevokeKeepsConsistent(wl, al, g);
    WithoutNameKeepsDistinctXuids(al, g);
    RevokeKeepsOnePending(wl, g);
  }

  lemma DistinctXuidsCons(e: AllowEntry, t: seq<AllowEntry>)
    ensures DistinctXuids([e] + t) <==>
      DistinctXuids(t) && forall i :: 0 <= i < |t| ==> t[i].xuid != e.xuid
  {
    var s := [e] + t;
    if DistinctXuids(s) {
      forall i, j | 0 <= i < j < |t| ensures t[i].xuid != t[j].xuid {
        assert s[i + 1] == t[i] && s[j + 1] == t[j];
      }
      forall i | 0 <= i < |t| ensures t[i].xuid != e.xuid {
        assert s[0] == e && s[i + 1] == t[i];
      }
    }
  }

  lemma {:induction false} WithoutNameKeepsDistinctXuids(al: seq<AllowEntry>, g: Gamertag)
    requires DistinctXuids(al)
    ensures DistinctXuids(WithoutName(al, g))
  {
    if |al| != 0 {
      var tail := al[1..];
      assert al == [al[0]] + tail;
      DistinctXuidsCons(al[0], tail);
      WithoutNameKeepsDistinctXuids(tail, g);
      var rt := WithoutName(tail, g);
      if al[0].name != g {
        assert WithoutName(al, g) == [al[0]] + rt;
        forall i | 0 <= i < |rt| ensures rt[i].xuid != al[0].xuid {
          var m :| 0 <= m < |tail| && tail[m] == rt[i];
        }
        DistinctXuidsCons(al[0], rt);
      } else {
        assert WithoutName(al, g) == rt;
      }
    }
  }

  // ----- revoke -----------------------------------------------------------

  /** Revoking twice leaves what revoking once left. */
  lemma RevokeIdempotent(wl: Whitelist, al: seq<AllowEntry>, g: Gamertag)
    requires Valid(wl)
    ensures Pop(Pop(wl, g), g) == Pop(wl, g)
    ensures WithoutName(WithoutName(al, g), g) == WithoutName(al, g)
  {
    PopIdempotent(wl, g);
    FilterIdempotent(al, (e: AllowEntry) => e.name != g);
  }

  /** Revoking a gamertag that is nowhere changes nothing. */
  lemma RevokeUnknownIsNoop(wl: Whitelist, al: seq<AllowEntry>, g: Gamertag)
    requires Valid(wl) && g !in wl.items
    requires forall i :: 0 <= i < |al| ==> al[i].name != g
    ensures Pop(wl, g) == wl && WithoutName(al, g) == al
  {
    PopAbsent(wl, g);
    FilterKeepsAll(al, (e: AllowEntry) => e.name != g);
  }

  /** Removing by name keeps the survivors in their order, piece by piece. */
  lemma RevokeKeepsOrder(a: seq<AllowEntry>, b: seq<AllowEntry>, g: Gamertag)
    ensures WithoutName(a + b, g) == WithoutName(a, g) + WithoutName(b, g)
  {
    FilterConcat(a, b, (e: AllowEntry) => e.name != g);
  }

  // ----- listing ----------------------------------------------------------

  /** A new application shows up last in the pending listing. */
  lemma SubmitAppendsToPendingList(wl: Whitelist, g: Gamertag, author: UserId)
    requires Valid(wl) && g !in wl.items
    ensures NamesWithStatus(Put(wl, g, Entry(author, Pending)), Pending) == NamesWithStatus(wl, Pending) + [g]
  {
    var wl' := Put(wl, g, Entry(author, Pending));
    var p := k => k in wl.items && wl.items[k].status == Pending;
    var p' := k => k in wl'.items && wl'.items[k].status == Pending;
    forall i | 0 <= i < |wl.keys|
      ensures p(wl.keys[i]) == p'(wl.keys[i])
    {
      assert wl.keys[i] in wl.items;
    }
    FilterAppend(wl.keys, g, p, p');
  }

  // ----- the two saves of one command -------------------------------------

  /**
   * Between approve's two saves, the files hold the new allowlist entry while
   * the application on disk is still pending.
   */
  lemma ApproveHalfSaved(wl: Whitelist, al: seq<AllowEntry>, g: Gamertag, x: Xuid)
    requires g in wl.items && wl.items[g].status == Pending
    ensures !Consistent(wl, al + [AllowEntry(g, x)])
  {

  }

  /**
   * Between revoke's two saves, an allowlist entry on disk names a gamertag
   * that no longer has an application.
   */
  lemma RevokeHalfSaved(wl: Whitelist, al: seq<AllowEntry>, g: Gamertag, i: nat)
    requires Valid(wl) && i < |al| && al[i].name == g
    ensures !Consistent(Pop(wl, g), al)
  {

  }
}
