/**
 * The page logic of client/src/main.js: the join form's validation, one video slot per
 * remote peer (however many of that peer's producers are consumed), and the participant
 * count shown in the header.
 */
module Presentation {
  import opened Options
  import opened OrderedMaps
  import opened Protocol
  import Client

  // ---------------------------------------------------------------------------------------
  // The join form
  // ---------------------------------------------------------------------------------------

  /** The characters `String.prototype.trim` removes: white space and line terminators
      (section 22.1.3.32 of ECMA-262, with the Zs category as of Unicode 15). */
  predicate IsSpace(ch: char) {
    || ch == '\t' || ch == '\n' || ch == '\U{000B}' || ch == '\U{000C}' || ch == '\r' || ch == ' '
    || ch == '\U{00A0}' || ch == '\U{1680}' || ('\U{2000}' <= ch <= '\U{200A}')
    || ch == '\U{2028}' || ch == '\U{2029}' || ch == '\U{202F}' || ch == '\U{205F}'
    || ch == '\U{3000}' || ch == '\U{FEFF}'
  }

  predicate AllSpace(s: string) {
    forall i :: 0 <= i < |s| ==> IsSpace(s[i])
  }

  /** The end of the run of white space starting at `i`. */
  function SkipSpace(s: string, i: nat): (n: nat)
    requires i <= |s|
    ensures i <= n <= |s|
    ensures forall k :: i <= k < n ==> IsSpace(s[k])
    ensures n < |s| ==> !IsSpace(s[n])
    decreases |s| - i
  {
    if i < |s| && IsSpace(s[i]) then SkipSpace(s, i + 1) else i
  }

  /** The start of the run of white space ending just before `j`. */
  function SkipSpaceBack(s: string, j: nat): (n: nat)
    requires j <= |s|
    ensures n <= j
    ensures forall k :: n <= k < j ==> IsSpace(s[k])
    ensures n > 0 ==> !IsSpace(s[n - 1])
    decreases j
  {
    if j > 0 && IsSpace(s[j - 1]) then SkipSpaceBack(s, j - 1) else j
  }

  /** `r` is `s` with white space dropped before index `i` and after `r` ends. */
  predicate TrimmedAt(s: string, r: string, i: nat) {
    && i + |r| <= |s|
    && r == s[i..i + |r|]
    && (forall k :: 0 <= k < i ==> IsSpace(s[k]))
    && (forall k :: i + |r| <= k < |s| ==> IsSpace(s[k]))
  }

  /** `String.prototype.trim`: the slice of `s` left once white space is dropped from both
      ends. It is empty exactly when `s` holds nothing but white space. */
  function Trim(s: string): (r: string)
    ensures exists i :: TrimmedAt(s, r, i)
    ensures r != [] ==> !IsSpace(r[0]) && !IsSpace(r[|r| - 1])
    ensures r == [] <==> AllSpace(s)
  {
    var i := SkipSpace(s, 0);
    var j := SkipSpaceBack(s, |s|);
    if j <= i then
      assert TrimmedAt(s, [], |s|);
      []
    else
      var r := s[i..j];
      assert TrimmedAt(s, r, i);
      assert !IsSpace(s[i]);
      r
  }

  datatype Missing = RoomIdMissing | UsernameMissing

  datatype JoinForm = Refused(missing: Missing) | Accepted(roomId: RoomId, username: string)

  /** handleJoinRoom's checks: both fields are trimmed; the room id is checked first. */
  function ValidateJoin(roomText: string, usernameText: string): (r: JoinForm)
    ensures r.Accepted? <==> !AllSpace(roomText) && !AllSpace(usernameText)
    ensures AllSpace(roomText) ==> r == Refused(RoomIdMissing)
    ensures !AllSpace(roomText) && AllSpace(usernameText) ==> r == Refused(UsernameMissing)
    ensures r.Accepted? ==> r.roomId == Trim(roomText) && r.username == Trim(usernameText)
    ensures r.Accepted? ==> r.roomId != "" && !IsSpace(r.roomId[0]) && r.username != ""
  {
    var roomId := Trim(roomText);
    var username := Trim(usernameText);
    if roomId == "" then Refused(RoomIdMissing)
    else if username == "" then Refused(UsernameMissing)
    else Accepted(roomId, username)
  }

  // ---------------------------------------------------------------------------------------
  // The page
  // ---------------------------------------------------------------------------------------

  /** A remote video element `remote-<peerId>`: its caption and the tracks of its stream,
      each track named by the consumer that carries it. */
  datatype Slot = Slot(caption: string, tracks: seq<ConsumerId>)

  datatype Page = Page(
    client: Option<Client.Session>,    // sfuClient
    roomId: Option<RoomId>,            // currentRoomId
    username: Option<string>,          // currentUsername
    slots: map<PeerId, Slot>)          // the children of #remoteVideos

  const Blank := Page(None, None, None, map[])

  /** A stream never holds the same track twice (`MediaStream.addTrack` ignores a track
      already in it). */
  predicate SlotsWellFormed(p: Page) {
    forall peer :: peer in p.slots ==> forall i, j :: 0 <= i < j < |p.slots[peer].tracks| ==>
      p.slots[peer].tracks[i] != p.slots[peer].tracks[j]
  }

  /** The outcome of pressing Join. */
  datatype Joined = Rejected(missing: Missing) | Attempted(page: Page, status: Client.JoinStatus)

  /** handleJoinRoom: after validation a new session replaces `sfuClient` BEFORE connecting,
      and joinRoom runs on it (`ownId` is the socket id `connect` yields; `setup`, `snapshot`
      and `answer` are what the server and the browser answer, as in `Client.JoinRoom`, a
      failed `connect` or join-room reply being a set-up failure with nothing created). The
      consumer-created callbacks it fires build the slots as it goes, so the page keeps them
      whether or not joinRoom settles; the room and the username are recorded only once it
      resolves. */
  function JoinRoom(p: Page, roomText: string, usernameText: string, ownId: PeerId,
                    setup: Client.Setup, snapshot: Option<seq<Client.Listed>>, answer: ProducerId -> Client.Answer): (r: Joined)
    requires SlotsWellFormed(p)
    ensures r.Rejected? <==> AllSpace(roomText) || AllSpace(usernameText)
    ensures r.Rejected? ==> r.missing == ValidateJoin(roomText, usernameText).missing
    ensures r.Attempted? ==>
      var j := Client.JoinRoom(Client.NewSession(ownId), setup, snapshot, answer);
      && r.page.client == Some(j.session) && r.status == j.status
      && SlotsWellFormed(r.page)
      // every consumer whose producer has a known owner plays in that owner's slot
      && (forall pid :: HasKey(j.session.consumers, pid) && Client.PeerIdOf(j.session, pid).Some? ==>
            var owner := Client.PeerIdOf(j.session, pid).value;
            owner in r.page.slots && Get(j.session.consumers, pid).value.id in r.page.slots[owner].tracks)
      // slots already on the page stay, with their captions and tracks
      && (forall q :: q in p.slots ==>
            && q in r.page.slots && r.page.slots[q].caption == p.slots[q].caption
            && forall t :: t in p.slots[q].tracks ==> t in r.page.slots[q].tracks)
      // a new slot belongs to the owner of some producer and carries that owner's caption
      && (forall q :: q in r.page.slots && q !in p.slots ==>
            r.page.slots[q].caption == Caption(j.session, q) && exists pid :: Client.PeerIdOf(j.session, pid) == Some(q))
    ensures r.Attempted? && r.status.Entered? ==>
      r.page.roomId == Some(Trim(roomText)) && r.page.username == Some(Trim(usernameText))
    ensures r.Attempted? && !r.status.Entered? ==> r.page.roomId == p.roomId && r.page.username == p.username
    ensures r.Attempted? && setup.SetupFailed? ==> r.page.slots == p.slots
  {
    match ValidateJoin(roomText, usernameText)
    case Refused(missing) => Rejected(missing)
    case Accepted(roomId, username) =>
      var j := Client.JoinRoom(Client.NewSession(ownId), setup, snapshot, answer);
      var shown := ShowCreated(p.(client := Some(j.session)), j.effects);
      assert forall pid :: HasKey(j.session.consumers, pid) ==>
        Client.NotifyConsumerCreated(Get(j.session.consumers, pid).value.id, pid) in j.effects;
      if j.status.Entered? then Attempted(shown.(roomId := Some(roomId), username := Some(username)), j.status)
      else Attempted(shown, j.status)
  }

  /** The label of a remote video: the announced username when there is a non-empty one,
      otherwise the peer id. */
  function DisplayName(c: Client.Session, peerId: PeerId): string {
    if peerId in c.usernames && c.usernames[peerId] != "" then c.usernames[peerId] else peerId
  }

  /** createRemoteVideoElement's caption: the first eight characters of the display name. */
  function Caption(c: Client.Session, peerId: PeerId): (r: string)
    ensures r <= DisplayName(c, peerId)
    ensures |r| == if |DisplayName(c, peerId)| <= 8 then |DisplayName(c, peerId)| else 8
  {
    var name := DisplayName(c, peerId);
    if |name| <= 8 then name else name[..8]
  }

  /** After peer-joined announces a non-empty username, that peer's caption is the username
      cut to eight characters, whatever its peer id. */
  lemma CaptionAfterJoin(c: Client.Session, peerId: PeerId, username: Option<string>)
    requires peerId != c.ownId && Truthy(username)
    ensures var r := Caption(Client.OnPeerJoined(c, peerId, username).session, peerId);
      && r <= username.value
      && |r| == if |username.value| <= 8 then |username.value| else 8
  {
    var c' := Client.OnPeerJoined(c, peerId, username).session;
    assert DisplayName(c', peerId) == username.value;
  }

  /** handleConsumerCreated: the track goes into the slot of the peer that owns the
      producer, the slot being created (with its caption) the first time; without a known
      peer nothing happens. */
  function OnConsumerCreated(p: Page, consumerId: ConsumerId, producerId: ProducerId): (r: Page)
    requires p.client.Some? && SlotsWellFormed(p)
    ensures SlotsWellFormed(r)
    ensures r.client == p.client && r.roomId == p.roomId && r.username == p.username
    ensures Client.PeerIdOf(p.client.value, producerId).None? ==> r == p
    ensures Client.PeerIdOf(p.client.value, producerId).Some? ==>
      var peer := Client.PeerIdOf(p.client.value, producerId).value;
      && peer in r.slots
      && consumerId in r.slots[peer].tracks
      && r.slots[peer].caption == (if peer in p.slots then p.slots[peer].caption else Caption(p.client.value, peer))
      && (peer in p.slots ==> forall t :: t in p.slots[peer].tracks ==> t in r.slots[peer].tracks)
      && (forall t :: t in r.slots[peer].tracks ==> t == consumerId || (peer in p.slots && t in p.slots[peer].tracks))
      && r.slots.Keys == p.slots.Keys + {peer}
      && (forall q :: q in p.slots && q != peer ==> r.slots[q] == p.slots[q])
  {
    var c := p.client.value;
    match Client.PeerIdOf(c, producerId)
    case None => p
    case Some(peer) =>
      var slot := if peer in p.slots then p.slots[peer] else Slot(Caption(c, peer), []);
      var slot' := if consumerId in slot.tracks then slot else slot.(tracks := slot.tracks + [consumerId]);
      p.(slots := p.slots[peer := slot'])
  }

  /** The page's handling of the consumer-created callbacks among `effects`, in order, each
      reading the session on the page. */
  function ShowCreated(p: Page, effects: seq<Client.Effect>): (r: Page)
    requires p.client.Some? && SlotsWellFormed(p)
    ensures SlotsWellFormed(r)
    ensures r.client == p.client && r.roomId == p.roomId && r.username == p.username
    ensures forall q :: q in p.slots ==>
      && q in r.slots && r.slots[q].caption == p.slots[q].caption
      && forall t :: t in p.slots[q].tracks ==> t in r.slots[q].tracks
    ensures forall e :: e in effects && e.NotifyConsumerCreated? && Client.PeerIdOf(p.client.value, e.producerId).Some? ==>
      var q := Client.PeerIdOf(p.client.value, e.producerId).value;
      q in r.slots && e.consumerId in r.slots[q].tracks
    ensures forall q :: q in r.slots && q !in p.slots ==>
      r.slots[q].caption == Caption(p.client.value, q) && exists pid :: Client.PeerIdOf(p.client.value, pid) == Some(q)
    ensures (forall e :: e in effects ==> !e.NotifyConsumerCreated?) ==> r == p
    decreases |effects|
  {
    if |effects| == 0 then p
    else
      var e := effects[0];
      var p1 := if e.NotifyConsumerCreated? then OnConsumerCreated(p, e.consumerId, e.producerId) else p;
      var r := ShowCreated(p1, effects[1..]);
      assert forall x :: x in effects <==> x == e || x in effects[1..];
      r
  }

  /** handlePeerLeft: the peer's slot goes, whatever it held. */
  function OnPeerLeft(p: Page, peerId: PeerId): (r: Page)
    ensures peerId !in r.slots
    ensures r.slots.Keys == p.slots.Keys - {peerId}
    ensures forall q :: q in r.slots ==> r.slots[q] == p.slots[q]
    ensures r.client == p.client && r.roomId == p.roomId && r.username == p.username
  {
    p.(slots := p.slots - {peerId})
  }

  /** handleLeaveRoom: without a session nothing happens; otherwise the session leaves the
      room (a failure there keeps the page as it was) and the page returns to its blank
      state with no slots. */
  function LeaveRoom(p: Page, left: Engine<()>): (r: (Page, seq<Client.Effect>))
    ensures p.client.None? ==> r == (p, [])
    ensures p.client.Some? && left.Done? ==> r.0 == Blank && r.1 == Client.LeaveRoom(p.client.value).effects
    ensures p.client.Some? && left.Failed? ==> r.0 == p
  {
    match p.client
    case None => (p, [])
    case Some(c) =>
      match left
      case Failed(_) => (p, [])
      case Done(_) => (Blank, Client.LeaveRoom(c).effects)
  }

  // ---------------------------------------------------------------------------------------
  // The participant count
  // ---------------------------------------------------------------------------------------

  /** The distinct non-empty `appData.peerId` values of the registry. */
  function Peers(consumers: Entries<ProducerId, Client.LocalConsumer>): (r: set<string>)
    ensures forall id :: id in r <==> id != "" && exists i :: 0 <= i < |consumers| && consumers[i].1.peerId == id
    decreases |consumers|
  {
    if |consumers| == 0 then {}
    else
      var rest := Peers(consumers[1..]);
      var head := consumers[0].1.peerId;
      var r := if head != "" then {head} + rest else rest;
      forall id ensures id in r <==> id != "" && exists i :: 0 <= i < |consumers| && consumers[i].1.peerId == id {
        if id != "" && id !in r {
          forall i | 0 <= i < |consumers| ensures consumers[i].1.peerId != id {
            if i > 0 { assert consumers[i] == consumers[1..][i - 1]; }
          }
        }
        if id in rest {
          var k :| 0 <= k < |consumers[1..]| && consumers[1..][k].1.peerId == id;
          assert consumers[k + 1].1.peerId == id;
        }
      }
      r
  }

  /** updateParticipantsCount: 0 with no session, else this client plus every distinct peer
      some consumer is attributed to. */
  function ParticipantCount(p: Page): (n: nat)
    ensures p.client.None? <==> n == 0
    ensures p.client.Some? ==> n == 1 + |Peers(p.client.value.consumers)|
  {
    match p.client
    case None => 0
    case Some(c) => 1 + |Peers(c.consumers)|
  }

  lemma {:induction false} PeersAtMost(consumers: Entries<ProducerId, Client.LocalConsumer>)
    ensures |Peers(consumers)| <= |consumers|
    decreases |consumers|
  {
    if |consumers| > 0 {
      PeersAtMost(consumers[1..]);
      var head := consumers[0].1.peerId;
      assert Peers(consumers) <= {head} + Peers(consumers[1..]);
      assert |{head} + Peers(consumers[1..])| <= 1 + |Peers(consumers[1..])|;
      SubsetCard(Peers(consumers), {head} + Peers(consumers[1..]));
    }
  }

  lemma SubsetCard<T>(a: set<T>, b: set<T>)
    requires a <= b
    ensures |a| <= |b|
  {
    assert b == a + (b - a);
  }

  /** A session counts itself and at most one participant per consumer. */
  lemma CountBounds(p: Page)
    requires p.client.Some?
    ensures 1 <= ParticipantCount(p) <= 1 + |p.client.value.consumers|
  {
    PeersAtMost(p.client.value.consumers);
  }

  /** The count follows a consume that adds a new registry entry: unchanged when the peer
      already had a consumer (camera after microphone counts once), one more otherwise. */
  lemma CountAfterConsume(p: Page, producerId: ProducerId, reply: Client.ConsumeReply, local: Engine<()>)
    requires p.client.Some? && Client.WellFormed(p.client.value)
    requires !HasKey(p.client.value.consumers, producerId)
    requires Client.FinishConsume(p.client.value, producerId, reply, local).Resolved?
    ensures var c := p.client.value;
      var f := Client.FinishConsume(c, producerId, reply, local);
      var p' := p.(client := Some(f.step.session));
      && (f.consumer.peerId in Peers(c.consumers) ==> ParticipantCount(p') == ParticipantCount(p))
      && (f.consumer.peerId !in Peers(c.consumers) ==> ParticipantCount(p') == ParticipantCount(p) + 1)
  {
    var c := p.client.value;
    var f := Client.FinishConsume(c, producerId, reply, local);
    CountAfterAppend(p, f.step.session, (producerId, f.consumer));
  }

  /** The count after a session gains one registry entry at the end. */
  lemma CountAfterAppend(p: Page, c': Client.Session, e: (ProducerId, Client.LocalConsumer))
    requires p.client.Some? && e.1.peerId != ""
    requires c'.consumers == p.client.value.consumers + [e]
    ensures e.1.peerId in Peers(p.client.value.consumers) ==> ParticipantCount(p.(client := Some(c'))) == ParticipantCount(p)
    ensures e.1.peerId !in Peers(p.client.value.consumers) ==> ParticipantCount(p.(client := Some(c'))) == ParticipantCount(p) + 1
  {
    var before := Peers(p.client.value.consumers);
    PeersAppend(p.client.value.consumers, e);
    if e.1.peerId in before {
      assert before + {e.1.peerId} == before;
    }
  }

  /** Appending a registry entry adds its peer, and nothing else, to the counted peers. */
  lemma PeersAppend(cs: Entries<ProducerId, Client.LocalConsumer>, e: (ProducerId, Client.LocalConsumer))
    requires e.1.peerId != ""
    ensures Peers(cs + [e]) == Peers(cs) + {e.1.peerId}
  {
    var all := cs + [e];
    forall id ensures id in Peers(all) <==> id in Peers(cs) + {e.1.peerId} {
      if id in Peers(cs) {
        var i :| 0 <= i < |cs| && cs[i].1.peerId == id;
        assert all[i] == cs[i];
      }
      assert all[|cs|] == e;
      if id in Peers(all) && id != e.1.peerId {
        var i :| 0 <= i < |all| && all[i].1.peerId == id;
        assert i < |cs| && cs[i] == all[i];
      }
    }
  }
}
