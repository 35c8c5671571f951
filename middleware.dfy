/** The request-gating middleware of the chats app: an hour-of-day window
    for chat paths, a per-IP rate limit on chat POSTs, the client-IP rule it
    keys on, and a role check on privileged chat requests. Each middleware
    either forwards the request to the next layer or answers it itself. */
module ChatsMiddleware {
  import opened Wrappers
  import opened Text
  import Seqs

  /** The attributes of `request.user` the middleware reads; `role` is
      `None` when the user object has no such attribute. */
  datatype User = User(isAuthenticated: bool, isStaff: bool, isSuperuser: bool, role: Option<string>)

  /** A request: HTTP method (`verb`), path, the META header dictionary, and the
      user, `None` when the request carries none. */
  datatype Request = Request(verb: string, path: string, meta: map<string, string>, user: Option<User>)

  /** `Forwarded`: the middleware returned `get_response(request)`.
      `Refused`: it answered with its own status and body. */
  datatype Response = Forwarded | Refused(status: int, body: string)

  const ChatHoursMessage := "Chats are available between 06:00 and 21:00"
  const RateLimitMessage := "Message limit exceeded. Try again later."
  const NoPermissionMessage := "You don't have permission to perform this action."

  // ---------------------------------------------------------------------
  // RestrictAccessByTimeMiddleware

  /** `hour` is the hour of the server's local clock when the request
      arrives. Chat paths are open from 06:00 up to, not including, 21:00;
      every other path is open at all hours. */
  function RestrictAccessByTime(request: Request, hour: int): (r: Response)
    ensures r == Forwarded || r == Refused(403, ChatHoursMessage)
    ensures r == Forwarded <==> !Contains(request.path, "chats") || 6 <= hour < 21
  {
    if Contains(request.path, "chats") && (hour >= 21 || hour < 6) then
      Refused(403, ChatHoursMessage)
    else
      Forwarded
  }

  // ---------------------------------------------------------------------
  // OffensiveLanguageMiddleware._get_client_ip

  const ForwardedForHeader := "HTTP_X_FORWARDED_FOR"
  const RemoteAddrHeader := "REMOTE_ADDR"

  /** The client address: the first entry of a non-empty X-Forwarded-For
      header, stripped of whitespace; otherwise REMOTE_ADDR, or "" when
      that is missing too. An empty header counts as missing. */
  function GetClientIp(meta: map<string, string>): (ip: string)
    ensures ForwardedForHeader in meta && meta[ForwardedForHeader] != [] ==>
      && ',' !in ip
      && (ip == [] || (!IsSpace(ip[0]) && !IsSpace(ip[|ip| - 1])))
    ensures (ForwardedForHeader !in meta || meta[ForwardedForHeader] == []) ==>
      ip == if RemoteAddrHeader in meta then meta[RemoteAddrHeader] else ""
  {
    if ForwardedForHeader in meta && meta[ForwardedForHeader] != [] then
      Strip(FirstField(meta[ForwardedForHeader]))
    else if RemoteAddrHeader in meta then
      meta[RemoteAddrHeader]
    else
      ""
  }

  /** With the header present, the address is the header's first
      comma-separated entry with whitespace, and only whitespace, removed
      from both ends. */
  lemma ClientIpIsTrimmedFirstEntry(meta: map<string, string>)
    requires ForwardedForHeader in meta && meta[ForwardedForHeader] != []
    ensures var entry := FirstField(meta[ForwardedForHeader]);
      var ip := GetClientIp(meta);
      && StripLead(entry) + |ip| <= |entry|
      && ip == entry[StripLead(entry)..StripLead(entry) + |ip|]
      && AllSpace(entry[..StripLead(entry)]) && AllSpace(entry[StripLead(entry) + |ip|..])
  {
    StripRemovesOnlySpace(FirstField(meta[ForwardedForHeader]));
  }

  /** When the header's first entry is a bare address (no comma, no
      surrounding whitespace), that address is the client IP, whatever the
      proxies appended after it. */
  lemma ClientIpIsFirstForwardedEntry(meta: map<string, string>, first: string, rest: string)
    requires first != [] && ',' !in first && !IsSpace(first[0]) && !IsSpace(first[|first| - 1])
    requires ForwardedForHeader in meta && meta[ForwardedForHeader] == first + "," + rest
    ensures GetClientIp(meta) == first
  {
    FirstFieldStopsAtComma(first, "," + rest);
    assert first + "," + rest == first + ("," + rest);
    assert TrimStart(first) == first;
    assert TrimEnd(first) == first;
  }

  lemma {:induction false} FirstFieldStopsAtComma(entry: string, tail: string)
    requires ',' !in entry && tail != [] && tail[0] == ','
    ensures FirstField(entry + tail) == entry
  {
    if entry != [] {
      assert (entry + tail)[1..] == entry[1..] + tail;
      FirstFieldStopsAtComma(entry[1..], tail);
    }
  }

  // ---------------------------------------------------------------------
  // OffensiveLanguageMiddleware: per-IP sliding-window rate limit

  /** Only POST requests to chat paths are rate limited. */
  predicate IsChatPost(request: Request)
  {
    request.verb == "POST" && Contains(request.path, "chats")
  }

  /** The front-pruning loop's result: pop from the front every timestamp
      at or before `cutoff`, stopping at the first later one. */
  function DropExpired(history: seq<int>, cutoff: int): (r: seq<int>)
    ensures |r| <= |history| && r == history[|history| - |r|..]
    ensures forall i | 0 <= i < |history| - |r| :: history[i] <= cutoff
    ensures r == [] || r[0] > cutoff
  {
    if history != [] && history[0] <= cutoff then DropExpired(history[1..], cutoff) else history
  }

  /** Whether the request is refused with 429: after pruning, the IP has
      already used up its `limit` requests in the window. */
  predicate Throttled(history: seq<int>, now: int, limit: int, window: int)
  {
    |DropExpired(history, now - window)| >= limit
  }

  /** The IP's history after the request: pruned, and with `now` appended
      at the back unless the request was refused. */
  function NextHistory(history: seq<int>, now: int, limit: int, window: int): seq<int>
  {
    var kept := DropExpired(history, now - window);
    if |kept| >= limit then kept else kept + [now]
  }

  /** The most timestamps one IP can hold: `limit`, or none when it is not positive. */
  function Capacity(limit: int): nat
  {
    if limit > 0 then limit else 0
  }

  ghost predicate Sorted(s: seq<int>)
  {
    forall i, j | 0 <= i < j < |s| :: s[i] <= s[j]
  }

  /** In a chronological history the pruning loop removes exactly the
      timestamps that have left the window: it agrees with filtering on
      `t > cutoff`, so nothing old survives and nothing recent is lost. */
  lemma {:induction false} DropExpiredKeepsExactlyRecent(history: seq<int>, cutoff: int)
    requires Sorted(history)
    ensures DropExpired(history, cutoff) == Seqs.Filter(history, t => t > cutoff)
  {
    if history == [] {
    } else if history[0] > cutoff {
      forall i | 0 <= i < |history| ensures history[i] > cutoff {
        assert history[0] <= history[i] || i == 0;
      }
      Seqs.FilterKeepsAll(history, t => t > cutoff);
    } else {
      assert Sorted(history[1..]) by {
        forall i, j | 0 <= i < j < |history[1..]| ensures history[1..][i] <= history[1..][j] {
          assert history[1..][i] == history[i + 1] && history[1..][j] == history[j + 1];
        }
      }
      DropExpiredKeepsExactlyRecent(history[1..], cutoff);
    }
  }

  /** After pruning a chronological history, no timestamp at or before
      `now - window` is left. */
  lemma DropExpiredLeavesOnlyRecent(history: seq<int>, cutoff: int)
    requires Sorted(history)
    ensures forall t | t in DropExpired(history, cutoff) :: t > cutoff
  {
    DropExpiredKeepsExactlyRecent(history, cutoff);
  }

  /** A history never grows past the limit. A refused request only prunes
      it; an admitted one prunes it and appends `now`. */
  lemma NextHistoryWithinCapacity(history: seq<int>, now: int, limit: int, window: int)
    requires |history| <= Capacity(limit)
    ensures |NextHistory(history, now, limit, window)| <= Capacity(limit)
    ensures Throttled(history, now, limit, window) ==>
      |NextHistory(history, now, limit, window)| <= |history|
    ensures NextHistory(history, now, limit, window) ==
      if Throttled(history, now, limit, window) then DropExpired(history, now - window)
      else DropExpired(history, now - window) + [now]
  {
  }

  /** If the clock does not run backwards, every IP's history stays
      chronological and no later than the latest request. */
  lemma NextHistoryChronological(history: seq<int>, now: int, limit: int, window: int)
    requires Sorted(history) && forall i | 0 <= i < |history| :: history[i] <= now
    ensures var next := NextHistory(history, now, limit, window);
      Sorted(next) && forall i | 0 <= i < |next| :: next[i] <= now
  {
    var kept := DropExpired(history, now - window);
    SuffixChronological(history, |history| - |kept|, now);
    if |kept| < limit {
      AppendLatest(kept, now);
    }
  }

  lemma SuffixChronological(s: seq<int>, k: nat, bound: int)
    requires k <= |s|
    requires Sorted(s) && forall i | 0 <= i < |s| :: s[i] <= bound
    ensures Sorted(s[k..]) && forall i | 0 <= i < |s[k..]| :: s[k..][i] <= bound
  {
    forall i | 0 <= i < |s[k..]| ensures s[k..][i] == s[k + i] { }
  }

  lemma AppendLatest(s: seq<int>, now: int)
    requires Sorted(s) && forall i | 0 <= i < |s| :: s[i] <= now
    ensures Sorted(s + [now]) && forall i | 0 <= i < |s + [now]| :: (s + [now])[i] <= now
  {
  }

  /** The pruning loop: `popleft` while the oldest timestamp is at or
      before `cutoff`. */
  method PopExpired(history: seq<int>, cutoff: int) returns (dq: seq<int>)
    ensures dq == DropExpired(history, cutoff)
  {
    dq := history;
    while dq != [] && dq[0] <= cutoff
      invariant |dq| <= |history| && dq == history[|history| - |dq|..]
      invariant DropExpired(dq, cutoff) == DropExpired(history, cutoff)
    {
      dq := dq[1..];
    }
  }

  /** Replacing one IP's history by one within the capacity keeps every
      history within it. */
  lemma CapacityKept(requests: map<string, seq<int>>, ip: string, next: seq<int>, capacity: nat)
    requires WithinCapacity(requests, capacity)
    requires |next| <= capacity
    ensures WithinCapacity(requests[ip := next], capacity)
  {
  }

  /** Every IP holds at most `capacity` timestamps. */
  ghost predicate WithinCapacity(requests: map<string, seq<int>>, capacity: nat)
  {
    forall ip | ip in requests :: |requests[ip]| <= capacity
  }

  /** Once the pruned history is known, the decision and the next history
      follow from its length alone. */
  lemma PrunedThenAppended(history: seq<int>, kept: seq<int>, now: int, limit: int, window: int)
    requires kept == DropExpired(history, now - window)
    ensures Throttled(history, now, limit, window) <==> |kept| >= limit
    ensures NextHistory(history, now, limit, window) == if |kept| >= limit then kept else kept + [now]
  {
  }

  class OffensiveLanguageMiddleware {
    const limit: int
    const window: int
    /** ip -> timestamps (seconds) of its recent chat POSTs, oldest first. */
    var requests: map<string, seq<int>>

    ghost predicate Valid()
      reads this
    {
      WithinCapacity(requests, Capacity(limit))
    }

    /** By default five messages per sixty seconds. */
    constructor (limit: int := 5, window: int := 60)
      ensures Valid()
      ensures this.limit == limit && this.window == window && requests == map[]
    {
      this.limit := limit;
      this.window := window;
      requests := map[];
    }

    /** The IP's stored history; the dictionary supplies an empty one for
        an IP it has not seen. */
    function HistoryOf(ip: string): seq<int>
      reads this
    {
      if ip in requests then requests[ip] else []
    }

    /** Handle one request arriving at time `now`. Anything other than a
        chat POST passes untouched. A chat POST prunes its IP's history and
        is refused with 429 when the limit is reached, otherwise recorded.
        No other IP's history changes. */
    method Call(request: Request, now: int) returns (response: Response)
      requires Valid()
      modifies this
      ensures Valid()
      ensures !IsChatPost(request) ==> response == Forwarded && requests == old(requests)
      ensures IsChatPost(request) ==>
        var ip := GetClientIp(request.meta);
        var history := old(HistoryOf(ip));
        && (response == if Throttled(history, now, limit, window) then Refused(429, RateLimitMessage) else Forwarded)
        && requests == old(requests)[ip := NextHistory(history, now, limit, window)]
    {
      response := Forwarded;
      if IsChatPost(request) {
        var ip := GetClientIp(request.meta);
        response := Admit(ip, now);
      }
    }

    /** The body of `__call__` for a chat POST from `ip`: the defaultdict
        hands out an empty deque for an unseen IP; the deque is pruned and,
        unless the limit is reached, extended in place. */
    method Admit(ip: string, now: int) returns (response: Response)
      requires Valid()
      modifies this
      ensures Valid()
      ensures var history := old(HistoryOf(ip));
        && (response == if Throttled(history, now, limit, window) then Refused(429, RateLimitMessage) else Forwarded)
        && requests == old(requests)[ip := NextHistory(history, now, limit, window)]
    {
      var history := HistoryOf(ip);
      var dq := PopExpired(history, now - window);
      PrunedThenAppended(history, dq, now, limit, window);
      if |dq| >= limit {
        response := Refused(429, RateLimitMessage);
      } else {
        dq := dq + [now];
        response := Forwarded;
      }
      NextHistoryWithinCapacity(history, now, limit, window);
      CapacityKept(requests, ip, dq, Capacity(limit));
      requests := requests[ip := dq];
    }
  }

  // ---------------------------------------------------------------------
  // RolepermissionMiddleware

  const RestrictedPaths: seq<string> := ["/chats/admin", "/chats/moderate"]
  const RestrictedMethods: seq<string> := ["DELETE", "PUT", "PATCH"]

  /** Requests the role check applies to: an admin or moderation path, or
      a mutating method on a chat path. */
  predicate NeedsRoleCheck(request: Request)
  {
    || (exists p | p in RestrictedPaths :: StartsWith(request.path, p))
    || (request.verb in RestrictedMethods && Contains(request.path, "chats"))
  }

  /** An authenticated user who is staff, superuser, or has role "admin"
      or "moderator". */
  predicate IsPrivileged(user: Option<User>)
  {
    && user.Some?
    && user.value.isAuthenticated
    && (|| user.value.isStaff || user.value.isSuperuser
        || user.value.role == Some("admin") || user.value.role == Some("moderator"))
  }

  function RolePermission(request: Request): (r: Response)
    ensures r == Forwarded || r == Refused(403, NoPermissionMessage)
    ensures r != Forwarded <==> NeedsRoleCheck(request) && !IsPrivileged(request.user)
  {
    var needsCheck := NeedsRoleCheck(request);
    var allowed := IsPrivileged(request.user);
    if needsCheck && !allowed then Refused(403, NoPermissionMessage) else Forwarded
  }

  /** Every request the role check applies to is a chat request: the
      restricted prefixes themselves contain "chats". */
  lemma RoleCheckOnlyOnChatPaths(request: Request)
    requires NeedsRoleCheck(request)
    ensures Contains(request.path, "chats")
  {
    if exists p | p in RestrictedPaths :: StartsWith(request.path, p) {
      var p :| p in RestrictedPaths && StartsWith(request.path, p);
      assert StartsWith(p[1..], "chats");
      ContainsThroughPrefix(request.path, p, "chats");
    }
  }

  /** So a request whose path lacks "chats" passes the role check
      whoever sends it. */
  lemma RolePermissionPassesNonChatPaths(request: Request)
    requires !Contains(request.path, "chats")
    ensures RolePermission(request) == Forwarded
  {
    if NeedsRoleCheck(request) {
      RoleCheckOnlyOnChatPaths(request);
    }
  }
}
