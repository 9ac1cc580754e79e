/**
  The plugin's mutable state: `user_data` (group -> user -> nickname), the
  pending `binding_requests` and the stored .ics files, with the two handlers
  that change them (`bind_schedule`, `handle_file_message`).
*/
module Bindings {
  import opened Wrappers
  import opened Calendar

  /** One entry of a group's `user_data[group]` dict. */
  datatype Binding = Binding(userId: string, nickname: string)

  /**
    One group's `user_data[group]`: a Python dict, so its entries keep
    insertion order, which is the order the group view visits users in.
  */
  type UserTable = seq<Binding>

  predicate UniqueUsers(t: UserTable)
  {
    forall i, j :: 0 <= i < j < |t| ==> t[i].userId != t[j].userId
  }

  /** The nickname the table holds for `user`, or None when it has no entry for it (main.py:196). */
  function Lookup(t: UserTable, user: string): (r: Option<string>)
    ensures r.Some? ==> Binding(user, r.value) in t
    ensures r.None? ==> forall i :: 0 <= i < |t| ==> t[i].userId != user
  {
    if t == [] then None
    else if t[0].userId == user then Some(t[0].nickname)
    else Lookup(t[1..], user)
  }

  /**
    `t[user] = nick`: a key already present keeps its position and gets the
    new value; a new key is appended.
  */
  function Put(t: UserTable, user: string, nick: string): (r: UserTable)
    ensures Lookup(t, user).Some? ==> |r| == |t| && forall i :: 0 <= i < |t| ==> r[i].userId == t[i].userId
    ensures Lookup(t, user).None? ==> r == t + [Binding(user, nick)]
  {
    if t == [] then [Binding(user, nick)]
    else if t[0].userId == user then [Binding(user, nick)] + t[1..]
    else [t[0]] + Put(t[1..], user, nick)
  }

  /** After `t[user] = nick`, `user` maps to `nick`. */
  lemma {:induction false} PutLookup(t: UserTable, user: string, nick: string)
    ensures Lookup(Put(t, user, nick), user) == Some(nick)
  {
    if t != [] && t[0].userId != user {
      PutLookup(t[1..], user, nick);
      assert Put(t, user, nick)[1..] == Put(t[1..], user, nick);
    }
  }

  /** After `t[user] = nick`, every other user maps to what it mapped to before. */
  lemma {:induction false} PutLookupOther(t: UserTable, user: string, nick: string, other: string)
    requires other != user
    ensures Lookup(Put(t, user, nick), other) == Lookup(t, other)
  {
    if t != [] && t[0].userId != user {
      PutLookupOther(t[1..], user, nick, other);
      assert Put(t, user, nick)[1..] == Put(t[1..], user, nick);
    }
  }

  /** Assignment keeps a dict's keys unique. */
  lemma PutUnique(t: UserTable, user: string, nick: string)
    requires UniqueUsers(t)
    ensures UniqueUsers(Put(t, user, nick))
  {
    var r := Put(t, user, nick);
    if Lookup(t, user).Some? {
      forall i, j | 0 <= i < j < |r| ensures r[i].userId != r[j].userId {
        assert r[i].userId == t[i].userId && r[j].userId == t[j].userId;
      }
    } else {
      forall i, j | 0 <= i < j < |r| ensures r[i].userId != r[j].userId {
        assert r[i] == t[i];
        if j < |t| {
          assert r[j] == t[j];
        }
      }
    }
  }

  /** In a table with unique users, the nickname looked up for an entry's user is that entry's. */
  lemma LookupEntry(t: UserTable, i: nat)
    requires UniqueUsers(t) && i < |t|
    ensures Lookup(t, t[i].userId) == Some(t[i].nickname)
  {
    if i > 0 {
      LookupEntry(t[1..], i - 1);
    }
  }

  /** The key of a pending request: the group id, a hyphen, then the user id (main.py:49). */
  function RequestKey(group: string, user: string): (k: string)
    ensures |k| == |group| + 1 + |user|
  {
    group + "-" + user
  }

  /** The stored file's name: user id, nickname and group id joined by underscores, then ".ics" (main.py:95). */
  function FeedKey(user: string, nick: string, group: string): (k: string)
    ensures |k| == |user| + |nick| + |group| + 6
    ensures k[|k| - 4..] == ".ics"
  {
    user + "_" + nick + "_" + group + ".ics"
  }

  /** The file key that `show_today_schedule` derives for a bound user, or None when the user is not bound. */
  function FeedKeyFor(userData: map<string, UserTable>, group: string, user: string): (r: Option<string>)
    ensures r.None? <==>
      group == "" || group !in userData || forall i :: 0 <= i < |userData[group]| ==> userData[group][i].userId != user
    ensures r.Some? ==>
      && group in userData
      && exists i :: 0 <= i < |userData[group]| && userData[group][i].userId == user
                     && r.value == FeedKey(user, userData[group][i].nickname, group)
  {
    if group != "" && group in userData && Lookup(userData[group], user).Some? then
      Some(FeedKey(user, Lookup(userData[group], user).value, group))
    else
      None
  }

  /**
    With group ids free of '-' (chat group numbers are digit strings) the
    request key determines the group and the user.
  */
  lemma RequestKeyInjective(g1: string, u1: string, g2: string, u2: string)
    requires '-' !in g1 && '-' !in g2
    requires RequestKey(g1, u1) == RequestKey(g2, u2)
    ensures g1 == g2 && u1 == u2
  {
    var k := RequestKey(g1, u1);
    if |g1| < |g2| {
      RequestKeyAt(g1, u1, |g1|);
      RequestKeyAt(g2, u2, |g1|);
      assert false;
    } else if |g2| < |g1| {
      RequestKeyAt(g1, u1, |g2|);
      RequestKeyAt(g2, u2, |g2|);
      assert false;
    }
    assert g1 == k[..|g1|] == g2;
    assert u1 == k[|g1| + 1..] == u2;
  }

  /** The request key starts with the group id and a '-'. */
  lemma RequestKeyAt(g: string, u: string, i: int)
    ensures 0 <= i < |g| ==> RequestKey(g, u)[i] == g[i]
    ensures i == |g| ==> RequestKey(g, u)[i] == '-'
  {
  }

  /** The request key is the group id, a '-' and the user id. */
  lemma RequestKeyParts(g: string, u: string)
    ensures var k := RequestKey(g, u);
      k[..|g|] == g && k[|g|] == '-' && k[|g| + 1..] == u
  {
  }

  /** The file key starts with the user id and a '_'. */
  lemma FeedKeyHead(u: string, n: string, g: string, i: int)
    ensures 0 <= i < |u| ==> FeedKey(u, n, g)[i] == u[i]
    ensures i == |u| ==> FeedKey(u, n, g)[i] == '_'
  {
  }

  /** The file key ends with a '_', the group id and ".ics". */
  lemma FeedKeyTail(u: string, n: string, g: string, j: int)
    ensures 0 <= j < |g| ==> FeedKey(u, n, g)[|FeedKey(u, n, g)| - 5 - j] == g[|g| - 1 - j]
    ensures j == |g| ==> FeedKey(u, n, g)[|FeedKey(u, n, g)| - 5 - j] == '_'
  {
  }

  /** The file key lays out user, nickname and group between two '_' and before ".ics". */
  lemma FeedKeyParts(u: string, n: string, g: string)
    ensures var k := FeedKey(u, n, g);
      && k[..|u|] == u && k[|u|] == '_'
      && k[|u| + 1..|u| + 1 + |n|] == n && k[|u| + 1 + |n|] == '_'
      && k[|u| + 2 + |n|..|k| - 4] == g
  {
  }

  /** Without that restriction two different users share one pending request. */
  lemma RequestKeyCollision()
    ensures RequestKey("1-2", "3") == RequestKey("1", "2-3")
  {
  }

  /**
    With user and group ids free of '_' the file key determines the
    user, the nickname and the group, whatever the nickname contains.
  */
  lemma FeedKeyInjective(u1: string, n1: string, g1: string, u2: string, n2: string, g2: string)
    requires '_' !in u1 && '_' !in u2 && '_' !in g1 && '_' !in g2
    requires FeedKey(u1, n1, g1) == FeedKey(u2, n2, g2)
    ensures u1 == u2 && n1 == n2 && g1 == g2
  {
    var k := FeedKey(u1, n1, g1);
    if |u1| < |u2| {
      FeedKeyHead(u1, n1, g1, |u1|);
      FeedKeyHead(u2, n2, g2, |u1|);
      assert false;
    } else if |u2| < |u1| {
      FeedKeyHead(u1, n1, g1, |u2|);
      FeedKeyHead(u2, n2, g2, |u2|);
      assert false;
    }
    assert u1 == k[..|u1|] == u2;
    var m := |k| - 4;
    if |g1| < |g2| {
      FeedKeyTail(u1, n1, g1, |g1|);
      FeedKeyTail(u2, n2, g2, |g1|);
      assert false;
    } else if |g2| < |g1| {
      FeedKeyTail(u1, n1, g1, |g2|);
      FeedKeyTail(u2, n2, g2, |g2|);
      assert false;
    }
    assert g1 == k[m - |g1|..m] == g2;
    assert n1 == k[|u1| + 1..m - |g1| - 1] == n2;
  }

  /** One pending `binding_requests` entry. */
  datatype Request = Request(timestamp: int, groupId: string, userId: string, nickname: string)

  /** Seconds a binding request stays valid. */
  const RequestTimeout: int := 60

  /** More than 60 seconds have passed since the request; exactly 60 is still valid (main.py:77). */
  predicate Expired(r: Request, now: int)
  {
    now - r.timestamp > RequestTimeout
  }

  /**
    A request is valid from its timestamp up to and including 60 seconds
    later, expired from 61 seconds on, and stays expired.
  */
  lemma ExpiryWindow(r: Request, now: int, later: int)
    ensures r.timestamp <= now <= r.timestamp + RequestTimeout ==> !Expired(r, now)
    ensures now >= r.timestamp + RequestTimeout + 1 ==> Expired(r, now)
    ensures Expired(r, now) && later >= now ==> Expired(r, later)
  {
  }

  /**
    What fetching the sent file did: `get_file` or the download, copy or
    write raised (including the unsupported-type ValueError), possibly after
    it had already truncated or partly written the file key (`left`); it
    returned without writing a file; or it wrote the given content to the
    file key.
  */
  datatype Fetch = FetchRaised(left: Option<Feed>) | NothingWritten | Written(feed: Feed)

  datatype BindReply = UseInGroup | SendFileWithin60s

  datatype FileReply =
    | Ignored          // no group, no pending request, or no file in the message
    | TimedOut         // the request had expired and is dropped, silently
    | FetchFailed      // "无法获取文件信息，绑定失败"
    | DownloadFailed   // "文件下载失败，请重试。"
    | BindSucceeded    // "课表绑定成功！"

  /** The plugin object's state. */
  class SchedulePlugin {
    var userData: map<string, UserTable>
    var requests: map<string, Request>
    var icsDir: map<string, Feed>

    /** Every request sits under its own key and every group table has unique users. */
    ghost predicate Valid()
      reads this
    {
      && (forall k :: k in requests ==> k == RequestKey(requests[k].groupId, requests[k].userId))
      && (forall g :: g in userData ==> UniqueUsers(userData[g]))
    }

    /** The plugin after `_load_user_data`, with the files already stored; no request is pending. */
    constructor (loaded: map<string, UserTable>, files: map<string, Feed>)
      requires forall g :: g in loaded ==> UniqueUsers(loaded[g])
      ensures Valid()
      ensures userData == loaded && icsDir == files && requests == map[]
    {
      userData := loaded;
      icsDir := files;
      requests := map[];
    }

    /** `bind_schedule`: records (or replaces) the request of this user in this group. */
    method BindSchedule(group: string, user: string, nickname: string, now: int) returns (reply: BindReply)
      requires Valid()
      modifies this
      ensures Valid()
      ensures reply == (if group == "" then UseInGroup else SendFileWithin60s)
      ensures requests == if group == "" then old(requests)
                          else old(requests)[RequestKey(group, user) := Request(now, group, user, nickname)]
      ensures userData == old(userData) && icsDir == old(icsDir)
    {
      if group == "" {
        return UseInGroup;
      }
      requests := requests[RequestKey(group, user) := Request(now, group, user, nickname)];
      reply := SendFileWithin60s;
    }

    /**
      `handle_file_message`: completes a pending, unexpired request when the
      message carries a file (`file` is None when it does not). On success the
      group table maps the user to the request's nickname, the file sits under
      the key every later query derives, and the request is gone.
    */
    method HandleFileMessage(group: string, user: string, now: int, file: Option<Fetch>) returns (reply: FileReply)
      requires Valid()
      modifies this
      ensures Valid()
      ensures var key := RequestKey(group, user);
        var pending := group != "" && key in old(requests);
        && (reply == Ignored <==> !pending || (!Expired(old(requests)[key], now) && file.None?))
        && (reply == TimedOut <==> pending && Expired(old(requests)[key], now))
        && (reply == FetchFailed <==> pending && !Expired(old(requests)[key], now) && file.Some? && file.value.FetchRaised?)
        && (requests == if reply == Ignored then old(requests) else old(requests) - {key})
      ensures var key := RequestKey(group, user);
        reply == Ignored || reply == TimedOut ==> icsDir == old(icsDir)
      ensures reply == FetchFailed ==>
        var path := FeedKey(user, old(requests)[RequestKey(group, user)].nickname, group);
        icsDir == (if file.value.left.Some? then old(icsDir)[path := file.value.left.value] else old(icsDir))
      ensures reply != BindSucceeded ==> userData == old(userData)
      ensures reply == BindSucceeded ==>
        var r := old(requests)[RequestKey(group, user)];
        var path := FeedKey(user, r.nickname, group);
        && icsDir == (if file.value.Written? then old(icsDir)[path := file.value.feed] else old(icsDir))
        && userData == old(userData)[group := Put(if group in old(userData) then old(userData)[group] else [], user, r.nickname)]
        && FeedKeyFor(userData, group, user) == Some(path)
        && path in icsDir
      ensures reply == DownloadFailed ==>
        var r := old(requests)[RequestKey(group, user)];
        var path := FeedKey(user, r.nickname, group);
        && file.Some? && !file.value.FetchRaised?
        && icsDir == (if file.value.Written? then old(icsDir)[path := file.value.feed] else old(icsDir))
        && path !in icsDir
    {
      if group == "" {
        return Ignored;
      }
      var key := RequestKey(group, user);
      if key !in requests {
        return Ignored;
      }
      var request := requests[key];
      if now - request.timestamp > RequestTimeout {
        requests := requests - {key};
        return TimedOut;
      }
      if file.None? {
        return Ignored;
      }
      var nickname := request.nickname;
      var path := FeedKey(user, nickname, group);
      match file.value {
        case FetchRaised(left) =>
          if left.Some? {
            icsDir := icsDir[path := left.value];
          }
          requests := requests - {key};
          return FetchFailed;
        case NothingWritten =>
        case Written(feed) =>
          icsDir := icsDir[path := feed];
      }
      if path !in icsDir {
        requests := requests - {key};
        return DownloadFailed;
      }
      var table := if group in userData then userData[group] else [];
      PutUnique(table, user, nickname);
      PutLookup(table, user, nickname);
      userData := userData[group := Put(table, user, nickname)];
      requests := requests - {key};
      reply := BindSucceeded;
    }
  }

  /**
    The group view derives, for every entry of a group's table, the same file
    key that the today view derives for that user and that a bind stored the
    file under.
  */
  lemma SameKeyEverywhere(userData: map<string, UserTable>, group: string, i: nat)
    requires group != "" && group in userData && UniqueUsers(userData[group]) && i < |userData[group]|
    ensures var b := userData[group][i];
      FeedKeyFor(userData, group, b.userId) == Some(FeedKey(b.userId, b.nickname, group))
  {
    LookupEntry(userData[group], i);
  }
}
