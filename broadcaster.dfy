/**
 * The notification broadcaster of the API (`apps/api/notifications/broadcaster.ts`):
 * a map from user id to the list of that user's open streams, in insertion
 * order. Streams are compared by identity, so a stream is its id here; whether
 * a send succeeds is an input (`ok(i)` for the i-th stream of the user's list).
 */
module Broadcaster {
  import opened Wrappers
  import opened OrderedMap

  type UserId = int

  /** A stream, by identity. */
  type Stream = nat

  /** The connected streams: a JavaScript `Map`, keys in insertion order, `set` on a key keeps its place. */
  type Streams = seq<Pair<UserId, seq<Stream>>>

  /** The messages the broadcaster builds itself (pings); others are passed through. */
  datatype Message = Message(kind: string, message: string, title: string, userId: UserId)

  /** A send attempted on a stream. */
  datatype Delivery = Delivery(stream: Stream, message: Message)

  /** `connectedStreams.get(userId) || []` */
  function StreamsIn(m: Streams, u: UserId): (r: seq<Stream>)
    ensures HasKey(m, u) ==> r == m[KeyIndex(m, u).value].val
    ensures !HasKey(m, u) ==> r == []
  {
    Get(m, u).GetOr([])
  }

  // ---------------------------------------------------------------------------
  // Map deletion
  // ---------------------------------------------------------------------------

  /** `Map.delete`: the entries of other keys, in order. */
  function Delete(m: Streams, k: UserId): (r: Streams)
  {
    if m == [] then []
    else
      var last := m[|m| - 1];
      Delete(m[..|m| - 1], k) + (if last.key == k then [] else [last])
  }

  /** The entries left are those of the other keys. */
  lemma {:induction false} DeleteMembers(m: Streams, k: UserId)
    ensures forall p :: p in Delete(m, k) <==> p in m && p.key != k
  {
    if m != [] {
      var front := m[..|m| - 1];
      DeleteMembers(front, k);
      assert m == front + [m[|m| - 1]];
    }
  }

  /** Reading a map with one more entry at the end. */
  lemma GetAppend(m: Streams, p: Pair<UserId, seq<Stream>>, u: UserId)
    ensures Get(m + [p], u) == if p.key == u then Some(p.val) else Get(m, u)
  {
    assert (m + [p])[..|m|] == m;
  }

  /** Deleting leaves every other key's value as it was and removes the key. */
  lemma {:induction false} DeleteGet(m: Streams, k: UserId, u: UserId)
    ensures Get(Delete(m, k), u) == if u == k then None else Get(m, u)
  {
    if u == k {
      DeleteMembers(m, k);
    } else if m != [] {
      var front := m[..|m| - 1];
      var last := m[|m| - 1];
      assert m == front + [last];
      DeleteGet(front, k, u);
      GetAppend(front, last, u);
      assert Delete(m, k) == Delete(front, k) + (if last.key == k then [] else [last]);
      if last.key != k {
        GetAppend(Delete(front, k), last, u);
      } else {
        assert Delete(m, k) == Delete(front, k);
        assert Get(m, u) == Get(front, u);
      }
    }
  }

  /** Deleting keeps each key once. */
  lemma {:induction false} DeleteDistinct(m: Streams, k: UserId)
    requires DistinctKeys(m)
    ensures DistinctKeys(Delete(m, k))
  {
    if m != [] {
      var front := m[..|m| - 1];
      var last := m[|m| - 1];
      DeleteDistinct(front, k);
      DeleteMembers(front, k);
      var d := Delete(front, k);
      forall i | 0 <= i < |d| ensures d[i].key != last.key {
        assert d[i] in front;
      }
    }
  }

  /** Deleting an absent key changes nothing. */
  lemma {:induction false} DeleteAbsent(m: Streams, k: UserId)
    requires !HasKey(m, k)
    ensures Delete(m, k) == m
  {
    if m != [] {
      var front := m[..|m| - 1];
      var last := m[|m| - 1];
      assert m == front + [last];
      GetAppend(front, last, k);
      DeleteAbsent(front, k);
    }
  }

  /** In a map with each key once, the last key does not occur before it. */
  lemma DistinctLast(m: Streams)
    requires DistinctKeys(m) && m != []
    ensures DistinctKeys(m[..|m| - 1])
    ensures !HasKey(m[..|m| - 1], m[|m| - 1].key)
  {
    var front := m[..|m| - 1];
    forall p | p in front ensures p.key != m[|m| - 1].key {
      var j :| 0 <= j < |front| && front[j] == p;
      assert m[j] == p;
    }
  }

  // ---------------------------------------------------------------------------
  // Connection counts
  // ---------------------------------------------------------------------------

  /** Every user in the map has at least one stream. */
  ghost predicate NoEmptyLists(m: Streams)
  {
    forall i :: 0 <= i < |m| ==> m[i].val != []
  }

  /** The sum of the list lengths. */
  function TotalOf(m: Streams): nat
  {
    if m == [] then 0 else TotalOf(m[..|m| - 1]) + |m[|m| - 1].val|
  }

  lemma {:induction false} TotalAppend(m: Streams, p: Pair<UserId, seq<Stream>>)
    ensures TotalOf(m + [p]) == TotalOf(m) + |p.val|
  {
    assert (m + [p])[..|m|] == m;
  }

  /** Replacing one entry changes the total by the difference of the list lengths. */
  lemma {:induction false} TotalUpdate(m: Streams, j: nat, p: Pair<UserId, seq<Stream>>)
    requires j < |m|
    ensures TotalOf(m[j := p]) + |m[j].val| == TotalOf(m) + |p.val|
  {
    var n := |m|;
    if j == n - 1 {
      assert m[j := p] == m[..n - 1] + [p];
      TotalAppend(m[..n - 1], p);
    } else {
      TotalUpdate(m[..n - 1], j, p);
      assert m[j := p] == m[..n - 1][j := p] + [m[n - 1]];
      TotalAppend(m[..n - 1][j := p], m[n - 1]);
    }
  }

  /** Setting a user's list changes the total by the difference with the old list. */
  lemma TotalPut(m: Streams, k: UserId, v: seq<Stream>)
    ensures TotalOf(Put(m, k, v)) + |StreamsIn(m, k)| == TotalOf(m) + |v|
  {
    match KeyIndex(m, k)
    case Some(j) => TotalUpdate(m, j, Pair(k, v));
    case None => TotalAppend(m, Pair(k, v));
  }

  /** Deleting a user takes that user's streams off the total. */
  lemma {:induction false} TotalDelete(m: Streams, k: UserId)
    requires DistinctKeys(m)
    ensures TotalOf(Delete(m, k)) + |StreamsIn(m, k)| == TotalOf(m)
  {
    if m != [] {
      var front := m[..|m| - 1];
      var last := m[|m| - 1];
      assert m == front + [last];
      DistinctLast(m);
      TotalDelete(front, k);
      GetAppend(front, last, k);
      assert Delete(m, k) == Delete(front, k) + (if last.key == k then [] else [last]);
      assert TotalOf(m) == TotalOf(front) + |last.val|;
      if last.key == k {
        DeleteAbsent(front, k);
        assert Delete(m, k) == front;
        assert StreamsIn(m, k) == last.val;
      } else {
        TotalAppend(Delete(front, k), last);
      }
    }
  }

  /** Deleting a user keeps the map well formed, removes exactly that user, and takes its streams off the total. */
  lemma DeleteUser(m: Streams, k: UserId)
    requires DistinctKeys(m) && NoEmptyLists(m)
    ensures DistinctKeys(Delete(m, k)) && NoEmptyLists(Delete(m, k))
    ensures forall v :: Get(Delete(m, k), v) == if v == k then None else Get(m, v)
    ensures TotalOf(Delete(m, k)) + |StreamsIn(m, k)| == TotalOf(m)
  {
    var d := Delete(m, k);
    DeleteDistinct(m, k);
    forall v ensures Get(d, v) == if v == k then None else Get(m, v) {
      DeleteGet(m, k, v);
    }
    TotalDelete(m, k);
    DeleteMembers(m, k);
    forall i | 0 <= i < |d| ensures d[i].val != [] {
      assert d[i] in m;
    }
  }

  // ---------------------------------------------------------------------------
  // Streams of one user
  // ---------------------------------------------------------------------------

  /** `indexOf`: the first position of the stream, or -1. */
  function IndexOf(s: seq<Stream>, x: Stream): (i: int)
    ensures -1 <= i < |s|
    ensures i >= 0 ==> s[i] == x && x !in s[..i]
    ensures i == -1 <==> x !in s
  {
    if s == [] then -1
    else if s[0] == x then 0
    else
      var i := IndexOf(s[1..], x);
      if i == -1 then -1
      else
        assert s[..i + 1] == [s[0]] + s[1..][..i];
        i + 1
  }

  /** The list with the first occurrence of the stream taken out. */
  function RemoveFirst(s: seq<Stream>, x: Stream): (r: seq<Stream>)
  {
    if s == [] then []
    else if s[0] == x then s[1..]
    else [s[0]] + RemoveFirst(s[1..], x)
  }

  /** Removing takes out one occurrence when there is one and changes nothing otherwise. */
  lemma {:induction false} RemoveFirstSpec(s: seq<Stream>, x: Stream)
    ensures x in s ==> |RemoveFirst(s, x)| == |s| - 1 && multiset(RemoveFirst(s, x)) == multiset(s) - multiset{x}
    ensures x !in s ==> RemoveFirst(s, x) == s
  {
    if s != [] {
      assert s == [s[0]] + s[1..];
      RemoveFirstSpec(s[1..], x);
    }
  }

  /** `splice(indexOf(x), 1)`: cutting out the first occurrence, wherever it is, is removing it. */
  lemma {:induction false} RemoveFirstAt(s: seq<Stream>, x: Stream, i: nat)
    requires i < |s| && s[i] == x && x !in s[..i]
    ensures RemoveFirst(s, x) == s[..i] + s[i + 1..]
    decreases i
  {
    if i == 0 {
      assert s[..0] + s[1..] == s[1..];
    } else {
      var t := s[1..];
      assert s[0] in s[..i];
      assert t[..i - 1] == s[1..i];
      assert x !in t[..i - 1];
      RemoveFirstAt(t, x, i - 1);
      assert s[..i] == [s[0]] + t[..i - 1];
      assert s[i + 1..] == t[i..];
    }
  }

  /** The streams whose send succeeded, in their order. */
  function Succeeded(s: seq<Stream>, ok: nat -> bool): (r: seq<Stream>)
    ensures |r| <= |s|
  {
    if s == [] then [] else Succeeded(s[..|s| - 1], ok) + (if ok(|s| - 1) then [s[|s| - 1]] else [])
  }

  /** The kept streams are exactly those at a position whose send succeeded. */
  lemma {:induction false} SucceededMembers(s: seq<Stream>, ok: nat -> bool)
    ensures forall x :: x in Succeeded(s, ok) <==> exists i :: 0 <= i < |s| && ok(i) && s[i] == x
  {
    if s != [] {
      var front := s[..|s| - 1];
      SucceededMembers(front, ok);
      forall x | x in Succeeded(s, ok) ensures exists i :: 0 <= i < |s| && ok(i) && s[i] == x {
        if x in Succeeded(front, ok) {
          var i :| 0 <= i < |front| && ok(i) && front[i] == x;
          assert s[i] == x;
        } else {
          assert s[|s| - 1] == x;
        }
      }
      forall x | exists i :: 0 <= i < |s| && ok(i) && s[i] == x ensures x in Succeeded(s, ok) {
        var i :| 0 <= i < |s| && ok(i) && s[i] == x;
        if i < |s| - 1 {
          assert front[i] == x;
        }
      }
    }
  }

  /** No stream is kept more often than it was there. */
  lemma {:induction false} SucceededMultiset(s: seq<Stream>, ok: nat -> bool)
    ensures multiset(Succeeded(s, ok)) <= multiset(s)
  {
    if s != [] {
      var front := s[..|s| - 1];
      SucceededMultiset(front, ok);
      assert s == front + [s[|s| - 1]];
    }
  }

  /** All streams are kept, in order, when every send succeeds, and none when every send fails. */
  lemma {:induction false} SucceededAllOrNone(s: seq<Stream>, ok: nat -> bool)
    ensures (forall i :: 0 <= i < |s| ==> ok(i)) ==> Succeeded(s, ok) == s
    ensures (forall i :: 0 <= i < |s| ==> !ok(i)) ==> Succeeded(s, ok) == []
  {
    if s != [] {
      var front := s[..|s| - 1];
      SucceededAllOrNone(front, ok);
      assert s == front + [s[|s| - 1]];
    }
  }

  /** The map after a send to one user: unchanged without streams, else only the successful streams, the key gone if none. */
  function AfterSend(m: Streams, u: UserId, ok: nat -> bool): (r: Streams)
    ensures StreamsIn(m, u) == [] ==> r == m
  {
    var streams := StreamsIn(m, u);
    if |streams| == 0 then m
    else
      var active := Succeeded(streams, ok);
      if |active| > 0 then Put(m, u, active) else Delete(m, u)
  }

  /**
   * After a send the user keeps exactly the streams that took the message, the
   * user is gone when none did, every other user is untouched, and the map
   * still holds each user once with at least one stream.
   */
  lemma AfterSendSpec(m: Streams, u: UserId, ok: nat -> bool)
    requires DistinctKeys(m) && NoEmptyLists(m)
    ensures var r := AfterSend(m, u, ok);
      DistinctKeys(r) && NoEmptyLists(r) &&
      StreamsIn(r, u) == Succeeded(StreamsIn(m, u), ok) &&
      (HasKey(r, u) <==> |Succeeded(StreamsIn(m, u), ok)| > 0) &&
      (forall v :: v != u ==> Get(r, v) == Get(m, v)) &&
      TotalOf(r) + |StreamsIn(m, u)| == TotalOf(m) + |Succeeded(StreamsIn(m, u), ok)|
  {
    var streams := StreamsIn(m, u);
    var active := Succeeded(streams, ok);
    if |streams| == 0 {
      assert !HasKey(m, u);
    } else if |active| > 0 {
      PutKeepsDistinct(m, u, active);
      GetPutSame(m, u, active);
      forall v | v != u ensures Get(Put(m, u, active), v) == Get(m, v) {
        GetPutOther(m, u, active, v);
      }
      TotalPut(m, u, active);
    } else {
      DeleteDistinct(m, u);
      forall v ensures Get(Delete(m, u), v) == if v == u then None else Get(m, v) {
        DeleteGet(m, u, v);
      }
      TotalDelete(m, u);
      DeleteMembers(m, u);
      var r := Delete(m, u);
      forall i | 0 <= i < |r| ensures r[i].val != [] {
        assert r[i] in m;
      }
    }
  }

  /** The map after sending to each listed user in turn. */
  function AfterSends(m: Streams, users: seq<UserId>, ok: (UserId, nat) -> bool): Streams
  {
    if users == [] then m
    else
      var u := users[|users| - 1];
      AfterSend(AfterSends(m, users[..|users| - 1], ok), u, (i: nat) => ok(u, i))
  }

  /** Sending to a list of users never adds a stream and leaves every unlisted user untouched. */
  lemma {:induction false} AfterSendsSpec(m: Streams, users: seq<UserId>, ok: (UserId, nat) -> bool)
    requires DistinctKeys(m) && NoEmptyLists(m)
    ensures var r := AfterSends(m, users, ok);
      DistinctKeys(r) && NoEmptyLists(r) && TotalOf(r) <= TotalOf(m) &&
      forall v :: v !in users ==> Get(r, v) == Get(m, v)
  {
    if users != [] {
      var u := users[|users| - 1];
      var front := users[..|users| - 1];
      AfterSendsSpec(m, front, ok);
      var before := AfterSends(m, front, ok);
      AfterSendSpec(before, u, (i: nat) => ok(u, i));
      forall v | v !in users ensures Get(AfterSends(m, users, ok), v) == Get(m, v) {
        assert v !in front;
      }
    }
  }

  /** The ping `sendPingToUser` sends, the payload "ping" by default. */
  function PingMessage(userId: UserId, payload: Option<string>): (msg: Message)
    ensures msg.kind == "ping" && msg.userId == userId
    ensures msg.message == msg.title == (if payload.Some? then payload.value else "ping")
  {
    var text := payload.GetOr("ping");
    Message("ping", text, text, userId)
  }

  /** The per-user connection counts of `getConnectionStats`. */
  function CountsOf(m: Streams): map<UserId, nat>
  {
    if m == [] then map[] else CountsOf(m[..|m| - 1])[m[|m| - 1].key := |m[|m| - 1].val|]
  }

  /** Each connected user is counted with the length of their list, and nobody else is. */
  lemma {:induction false} CountsOfSpec(m: Streams)
    ensures forall u :: u in CountsOf(m) <==> HasKey(m, u)
    ensures forall u :: HasKey(m, u) ==> CountsOf(m)[u] == |StreamsIn(m, u)|
  {
    if m != [] {
      CountsOfSpec(m[..|m| - 1]);
    }
  }

  /** What `getConnectionStats` reports. */
  datatype ConnectionStats = ConnectionStats(totalConnections: nat, connectedUsers: nat, userConnectionCounts: map<UserId, nat>)

  class NotificationBroadcaster {
    var connectedStreams: Streams

    /** Each user once, and no user with an empty list. */
    ghost predicate Valid()
      reads this
    {
      DistinctKeys(connectedStreams) && NoEmptyLists(connectedStreams)
    }

    constructor()
      ensures Valid() && connectedStreams == []
    {
      connectedStreams := [];
    }

    /** `getUserStreams` */
    function GetUserStreams(userId: UserId): (r: seq<Stream>)
      reads this
      ensures HasKey(connectedStreams, userId) ==> r == connectedStreams[KeyIndex(connectedStreams, userId).value].val
      ensures !HasKey(connectedStreams, userId) ==> r == []
    {
      StreamsIn(connectedStreams, userId)
    }

    /** `getUserStreamCount` */
    function GetUserStreamCount(userId: UserId): nat
      reads this
    {
      |GetUserStreams(userId)|
    }

    /** `hasActiveStreams` */
    predicate HasActiveStreams(userId: UserId)
      reads this
    {
      GetUserStreamCount(userId) > 0
    }

    /** In a valid map, a user has active streams exactly when connected. */
    lemma HasActiveStreamsIff(userId: UserId)
      requires Valid()
      ensures HasActiveStreams(userId) <==> userId in GetConnectedUserIds()
    {
      if HasKey(connectedStreams, userId) {
        assert connectedStreams[KeyIndex(connectedStreams, userId).value] in connectedStreams;
      }
      HasKeyIffInKeys(connectedStreams, userId);
    }

    /** `getConnectedUserIds` */
    function GetConnectedUserIds(): (r: seq<UserId>)
      reads this
      ensures |r| == |connectedStreams| && forall i :: 0 <= i < |r| ==> r[i] == connectedStreams[i].key
    {
      Keys(connectedStreams)
    }

    /** `addStream`: the stream goes at the end of the user's list. */
    method AddStream(userId: UserId, stream: Stream)
      requires Valid()
      modifies this
      ensures Valid()
      ensures connectedStreams == Put(old(connectedStreams), userId, old(GetUserStreams(userId)) + [stream])
      ensures GetUserStreams(userId) == old(GetUserStreams(userId)) + [stream]
      ensures forall v :: v != userId ==> GetUserStreams(v) == old(GetUserStreams(v))
      ensures TotalOf(connectedStreams) == old(TotalOf(connectedStreams)) + 1
    {
      var streams := GetUserStreams(userId) + [stream];
      var before := connectedStreams;
      connectedStreams := Put(connectedStreams, userId, streams);
      PutKeepsDistinct(before, userId, streams);
      GetPutSame(before, userId, streams);
      forall v | v != userId ensures Get(connectedStreams, v) == Get(before, v) {
        GetPutOther(before, userId, streams, v);
      }
      TotalPut(before, userId, streams);
    }

    /**
     * `removeStream`: the first occurrence of the stream leaves the user's
     * list, and the user leaves the map with their last stream; an absent
     * stream changes nothing.
     */
    method RemoveStream(userId: UserId, stream: Stream)
      requires Valid()
      modifies this
      ensures Valid()
      ensures GetUserStreams(userId) == RemoveFirst(old(GetUserStreams(userId)), stream)
      ensures forall v :: v != userId ==> GetUserStreams(v) == old(GetUserStreams(v))
      ensures stream !in old(GetUserStreams(userId)) ==> connectedStreams == old(connectedStreams)
      ensures stream in old(GetUserStreams(userId)) ==> TotalOf(connectedStreams) + 1 == old(TotalOf(connectedStreams))
    {
      var userStreams := GetUserStreams(userId);
      var index := IndexOf(userStreams, stream);
      RemoveFirstSpec(userStreams, stream);
      if index > -1 {
        var before := connectedStreams;
        var rest := userStreams[..index] + userStreams[index + 1..];
        RemoveFirstAt(userStreams, stream, index);
        if |rest| == 0 {
          connectedStreams := Delete(connectedStreams, userId);
          DeleteUser(before, userId);
        } else {
          connectedStreams := Put(connectedStreams, userId, rest);
          PutKeepsDistinct(before, userId, rest);
          GetPutSame(before, userId, rest);
          forall v | v != userId ensures Get(connectedStreams, v) == Get(before, v) {
            GetPutOther(before, userId, rest, v);
          }
          TotalPut(before, userId, rest);
        }
      }
    }

    /** `removeAllStreamsForUser`: the user leaves the map. */
    method RemoveAllStreamsForUser(userId: UserId)
      requires Valid()
      modifies this
      ensures Valid()
      ensures connectedStreams == Delete(old(connectedStreams), userId)
      ensures !HasActiveStreams(userId)
      ensures forall v :: v != userId ==> GetUserStreams(v) == old(GetUserStreams(v))
      ensures TotalOf(connectedStreams) + old(GetUserStreamCount(userId)) == old(TotalOf(connectedStreams))
    {
      var before := connectedStreams;
      connectedStreams := Delete(connectedStreams, userId);
      DeleteUser(before, userId);
    }

    /** `getTotalConnectionCount`: the lengths of the lists added up. */
    method GetTotalConnectionCount() returns (total: nat)
      ensures total == TotalOf(connectedStreams)
    {
      var entries := connectedStreams;
      total := 0;
      for i := 0 to |entries|
        invariant total == TotalOf(entries[..i])
      {
        assert entries[..i + 1] == entries[..i] + [entries[i]];
        TotalAppend(entries[..i], entries[i]);
        total := total + |entries[i].val|;
      }
      assert entries[..|entries|] == entries;
    }

    /**
     * `sendToUser`: the message is sent on each of the user's streams in turn,
     * and the user keeps exactly the streams that took it.
     */
    method SendToUser(userId: UserId, message: Message, ok: nat -> bool) returns (attempted: seq<Delivery>)
      requires Valid()
      modifies this
      ensures Valid()
      ensures connectedStreams == AfterSend(old(connectedStreams), userId, ok)
      ensures GetUserStreams(userId) == Succeeded(old(GetUserStreams(userId)), ok)
      ensures old(GetUserStreams(userId)) == [] ==> connectedStreams == old(connectedStreams)
      ensures |attempted| == |old(GetUserStreams(userId))| &&
        forall i :: 0 <= i < |attempted| ==> attempted[i] == Delivery(old(GetUserStreams(userId))[i], message)
    {
      AfterSendSpec(connectedStreams, userId, ok);
      var streams := GetUserStreams(userId);
      attempted := [];
      if |streams| == 0 {
        return;
      }
      var activeStreams;
      attempted, activeStreams := SendEach(streams, message, ok);
      if |activeStreams| > 0 {
        connectedStreams := Put(connectedStreams, userId, activeStreams);
      } else {
        connectedStreams := Delete(connectedStreams, userId);
      }
    }

    /** The loop of `sendToUser`: one send per stream, in order, keeping the streams that took it. */
    static method SendEach(streams: seq<Stream>, message: Message, ok: nat -> bool) returns (attempted: seq<Delivery>, activeStreams: seq<Stream>)
      ensures activeStreams == Succeeded(streams, ok)
      ensures |attempted| == |streams| && forall i :: 0 <= i < |attempted| ==> attempted[i] == Delivery(streams[i], message)
    {
      attempted := [];
      activeStreams := [];
      for i := 0 to |streams|
        invariant activeStreams == Succeeded(streams[..i], ok)
        invariant |attempted| == i && forall j :: 0 <= j < i ==> attempted[j] == Delivery(streams[j], message)
      {
        attempted := attempted + [Delivery(streams[i], message)];
        assert streams[..i + 1][..i] == streams[..i];
        if ok(i) {
          activeStreams := activeStreams + [streams[i]];
        }
      }
      assert streams[..|streams|] == streams;
    }

    /** `sendPingToUser`: a ping carrying the payload, "ping" by default. */
    method SendPingToUser(userId: UserId, payload: Option<string>, ok: nat -> bool) returns (attempted: seq<Delivery>)
      requires Valid()
      modifies this
      ensures Valid()
      ensures connectedStreams == AfterSend(old(connectedStreams), userId, ok)
      ensures forall i :: 0 <= i < |attempted| ==> attempted[i].message == PingMessage(userId, payload)
    {
      attempted := SendToUser(userId, PingMessage(userId, payload), ok);
    }

    /** Sends to each listed user in turn. */
    method SendToEach(userIds: seq<UserId>, message: Message, ok: (UserId, nat) -> bool)
      requires Valid()
      modifies this
      ensures Valid()
      ensures connectedStreams == AfterSends(old(connectedStreams), userIds, ok)
    {
      ghost var start := connectedStreams;
      for k := 0 to |userIds|
        invariant Valid()
        invariant connectedStreams == AfterSends(start, userIds[..k], ok)
      {
        var u := userIds[k];
        assert userIds[..k + 1][..k] == userIds[..k];
        var _ := SendToUser(u, message, (i: nat) => ok(u, i));
      }
      assert userIds[..|userIds|] == userIds;
    }

    /** `broadcastToUsers`: every listed user gets the message; unlisted users are untouched. */
    method BroadcastToUsers(userIds: seq<UserId>, message: Message, ok: (UserId, nat) -> bool)
      requires Valid()
      modifies this
      ensures Valid()
      ensures connectedStreams == AfterSends(old(connectedStreams), userIds, ok)
      ensures forall v :: v !in userIds ==> GetUserStreams(v) == old(GetUserStreams(v))
      ensures TotalOf(connectedStreams) <= old(TotalOf(connectedStreams))
    {
      AfterSendsSpec(connectedStreams, userIds, ok);
      SendToEach(userIds, message, ok);
    }

    /** `broadcastToAll`: every connected user gets the message. */
    method BroadcastToAll(message: Message, ok: (UserId, nat) -> bool)
      requires Valid()
      modifies this
      ensures Valid()
      ensures connectedStreams == AfterSends(old(connectedStreams), old(GetConnectedUserIds()), ok)
      ensures TotalOf(connectedStreams) <= old(TotalOf(connectedStreams))
    {
      var userIds := GetConnectedUserIds();
      AfterSendsSpec(connectedStreams, userIds, ok);
      SendToEach(userIds, message, ok);
    }

    /** `cleanupDeadConnections`: a "cleanup-ping" to every connected user, one after the other. */
    method CleanupDeadConnections(ok: (UserId, nat) -> bool)
      requires Valid()
      modifies this
      ensures Valid()
      ensures connectedStreams == AfterSends(old(connectedStreams), old(GetConnectedUserIds()), ok)
      ensures TotalOf(connectedStreams) <= old(TotalOf(connectedStreams))
    {
      var userIds := GetConnectedUserIds();
      AfterSendsSpec(connectedStreams, userIds, ok);
      PingEach(userIds, ok);
    }

    /** Pings each listed user in turn with "cleanup-ping". */
    method PingEach(userIds: seq<UserId>, ok: (UserId, nat) -> bool)
      requires Valid()
      modifies this
      ensures Valid()
      ensures connectedStreams == AfterSends(old(connectedStreams), userIds, ok)
    {
      ghost var start := connectedStreams;
      for k := 0 to |userIds|
        invariant Valid()
        invariant connectedStreams == AfterSends(start, userIds[..k], ok)
      {
        var u := userIds[k];
        assert userIds[..k + 1][..k] == userIds[..k];
        var _ := SendPingToUser(u, Some("cleanup-ping"), (i: nat) => ok(u, i));
      }
      assert userIds[..|userIds|] == userIds;
    }

    /** `getConnectionStats`: the total, the number of users and each user's count. */
    method GetConnectionStats() returns (stats: ConnectionStats)
      ensures stats.totalConnections == TotalOf(connectedStreams)
      ensures stats.connectedUsers == |GetConnectedUserIds()|
      ensures forall u :: u in stats.userConnectionCounts <==> HasKey(connectedStreams, u)
      ensures forall u :: HasKey(connectedStreams, u) ==> stats.userConnectionCounts[u] == GetUserStreamCount(u)
    {
      var entries := connectedStreams;
      var counts: map<UserId, nat> := map[];
      for i := 0 to |entries|
        invariant counts == CountsOf(entries[..i])
      {
        assert entries[..i + 1][..i] == entries[..i];
        counts := counts[entries[i].key := |entries[i].val|];
      }
      assert entries[..|entries|] == entries;
      CountsOfSpec(entries);
      var total := GetTotalConnectionCount();
      stats := ConnectionStats(total, |GetConnectedUserIds()|, counts);
    }

    /** `handleStreamDisconnect`: the stream is removed as by `removeStream`. */
    method HandleStreamDisconnect(userId: UserId, stream: Stream)
      requires Valid()
      modifies this
      ensures Valid()
      ensures GetUserStreams(userId) == RemoveFirst(old(GetUserStreams(userId)), stream)
      ensures forall v :: v != userId ==> GetUserStreams(v) == old(GetUserStreams(v))
    {
      RemoveStream(userId, stream);
    }
  }
}
