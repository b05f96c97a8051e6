/**
 * The browser-side session (client/src/sfuClient.js): the registry of consumers keyed by
 * producer id, the producer-to-peer identity map, the usernames announced by peer-joined,
 * and the camera/microphone flags.
 *
 * Every socket event handler and every client call is a pure transition returning the new
 * client state and the effects it has on the outside world, in order: requests sent to the
 * server, consumers closed, callbacks into the page. Server replies and the results of the
 * browser's media calls arrive as parameters.
 */
module Client {
  import opened Options
  import opened OrderedMaps
  import opened Protocol

  /** The registry entry for one consumed producer: the consumer's id and its `appData`. */
  datatype LocalConsumer = LocalConsumer(id: ConsumerId, producerId: ProducerId, peerId: string, kind: Kind)

  datatype Session = Session(
    ownId: PeerId,                                    // socket.id
    consumers: Entries<ProducerId, LocalConsumer>,    // this.consumers, in insertion order
    producerPeers: map<ProducerId, string>,           // producerPeerMap
    usernames: map<PeerId, string>,                   // peerUsernameMap
    hasSendTransport: bool,
    hasRecvTransport: bool,
    hasVideoProducer: bool,
    hasAudioProducer: bool,
    videoEnabled: bool,
    audioEnabled: bool)

  /** The state the constructor leaves once the socket is connected as `ownId`: nothing
      consumed, no owner or username known, no transport or producer yet, and both the
      camera and the microphone flagged as enabled. */
  function NewSession(ownId: PeerId): (c: Session)
    ensures WellFormed(c) && c.ownId == ownId
    ensures c.consumers == [] && c.producerPeers == map[] && c.usernames == map[]
    ensures !c.hasSendTransport && !c.hasRecvTransport && !c.hasVideoProducer && !c.hasAudioProducer
    ensures c.videoEnabled && c.audioEnabled
  {
    Session(ownId, [], map[], map[], false, false, false, false, true, true)
  }

  /** The two transports a session opens: `sendTransport` and `recvTransport`. */
  datatype Direction = Outgoing | Incoming

  datatype Request = ConsumeRequest(producerId: ProducerId) | ResumeRequest(consumerId: ConsumerId)

  datatype Effect =
    | Send(request: Request)
    | CloseConsumer(consumerId: ConsumerId)
    | NotifyPeerJoined(peerId: PeerId)
    | NotifyPeerLeft(peerId: PeerId)
    | NotifyConsumerCreated(consumerId: ConsumerId, producerId: ProducerId)
    | PauseProducer(kind: Kind)
    | ResumeProducer(kind: Kind)
    | CloseProducer(kind: Kind)
    | CloseTransport(direction: Direction)
    | DisconnectSocket

  datatype ClientStep = ClientStep(session: Session, effects: seq<Effect>)

  /** The server's acknowledgement of a consume request. */
  datatype ConsumeReply =
    | ReplyError(message: string)
    | ReplyOk(consumerId: ConsumerId, producerId: ProducerId, peerId: Option<string>, kind: Kind)

  /** An entry of a get-producers snapshot; a missing field is the empty string. */
  datatype Listed = Listed(peerId: string, producerId: ProducerId, kind: Kind)

  /** The registry keeps one entry per producer id, stored under that id, and every entry
      names a peer (the 'unknown' fallback guarantees a non-empty one). */
  predicate WellFormed(c: Session) {
    && DistinctKeys(c.consumers)
    && forall e :: e in c.consumers ==> e.1.producerId == e.0 && e.1.peerId != ""
  }

  // ---------------------------------------------------------------------------------------
  // consume(producerId, kind)
  // ---------------------------------------------------------------------------------------

  /** The first half of `consume`, before the server replies. */
  datatype Started = Existing(consumer: LocalConsumer) | Requested(request: Request)

  /** `consume` checks the registry first: a producer already consumed gives back its entry
      without any request; otherwise a consume request goes out and the registry is left
      alone until the reply arrives. */
  function StartConsume(c: Session, producerId: ProducerId): (r: Started)
    ensures r.Existing? <==> HasKey(c.consumers, producerId)
    ensures r.Existing? ==> Get(c.consumers, producerId) == Some(r.consumer)
    ensures r.Requested? ==> r.request == ConsumeRequest(producerId)
  {
    match Get(c.consumers, producerId)
    case Some(existing) => Existing(existing)
    case None => Requested(ConsumeRequest(producerId))
  }

  /** The peer a new consumer is attributed to: the recorded owner of the producer when
      there is a non-empty one, else the non-empty peer id of the reply, else 'unknown'. */
  function ResolvePeerId(c: Session, producerId: ProducerId, replied: Option<string>): (r: string)
    ensures r != ""
    ensures producerId in c.producerPeers && c.producerPeers[producerId] != "" ==>
      r == c.producerPeers[producerId]
    ensures !(producerId in c.producerPeers && c.producerPeers[producerId] != "") && Truthy(replied) ==>
      r == replied.value
    ensures !(producerId in c.producerPeers && c.producerPeers[producerId] != "") && !Truthy(replied) ==>
      r == "unknown"
  {
    if producerId in c.producerPeers && c.producerPeers[producerId] != "" then c.producerPeers[producerId]
    else if Truthy(replied) then replied.value
    else "unknown"
  }

  /** The second half of `consume`: a rejected call leaves everything as it was. */
  datatype Finished = Resolved(step: ClientStep, consumer: LocalConsumer) | Rejected(message: string)

  /** The reply handler of `consume`: on success the browser-side consumer is created, and
      only then is the registry entry written, the consumer resumed and the page told. */
  function FinishConsume(c: Session, producerId: ProducerId, reply: ConsumeReply, local: Engine<()>): (r: Finished)
    ensures r.Rejected? <==> reply.ReplyError? || local.Failed?
    ensures reply.ReplyError? ==> r == Rejected(reply.message)
    ensures r.Resolved? ==>
      var c' := r.step.session;
      && r.consumer == LocalConsumer(reply.consumerId, producerId, ResolvePeerId(c, producerId, reply.peerId), reply.kind)
      && Get(c'.consumers, producerId) == Some(r.consumer)
      && (forall p :: p != producerId ==> Get(c'.consumers, p) == Get(c.consumers, p))
      && (HasKey(c.consumers, producerId) ==> |c'.consumers| == |c.consumers|)
      && (!HasKey(c.consumers, producerId) ==> c'.consumers == c.consumers + [(producerId, r.consumer)])
      && c' == c.(consumers := c'.consumers)
      && r.step.effects == [Send(ResumeRequest(reply.consumerId)), NotifyConsumerCreated(reply.consumerId, producerId)]
    ensures r.Resolved? && WellFormed(c) ==> WellFormed(r.step.session)
  {
    match reply
    case ReplyError(msg) => Rejected(msg)
    case ReplyOk(cid, _, replied, kind) =>
      match local
      case Failed(msg) => Rejected(msg)
      case Done(_) =>
        var consumer := LocalConsumer(cid, producerId, ResolvePeerId(c, producerId, replied), kind);
        var c' := c.(consumers := Set(c.consumers, producerId, consumer));
        Resolved(ClientStep(c', [Send(ResumeRequest(cid)), NotifyConsumerCreated(cid, producerId)]), consumer)
  }

  // ---------------------------------------------------------------------------------------
  // Socket event handlers
  // ---------------------------------------------------------------------------------------

  /** peer-joined: ignored when it is about this client; otherwise a non-empty username is
      remembered and the page is told. */
  function OnPeerJoined(c: Session, peerId: PeerId, username: Option<string>): (r: ClientStep)
    ensures peerId == c.ownId ==> r == ClientStep(c, [])
    ensures peerId != c.ownId ==> r.effects == [NotifyPeerJoined(peerId)]
    ensures peerId != c.ownId && Truthy(username) ==> r.session.usernames == c.usernames[peerId := username.value]
    ensures !Truthy(username) ==> r.session.usernames == c.usernames
    ensures r.session == c.(usernames := r.session.usernames)
  {
    if peerId == c.ownId then ClientStep(c, [])
    else
      var c' := if Truthy(username) then c.(usernames := c.usernames[peerId := username.value]) else c;
      ClientStep(c', [NotifyPeerJoined(peerId)])
  }

  /** Position of the first registry entry whose `appData.peerId` is `peerId`. */
  function FirstOfPeer(consumers: Entries<ProducerId, LocalConsumer>, peerId: PeerId): (i: nat)
    ensures i <= |consumers|
    ensures i < |consumers| ==> consumers[i].1.peerId == peerId
    ensures forall j :: 0 <= j < i ==> consumers[j].1.peerId != peerId
  {
    FindIndex(consumers, (lc: LocalConsumer) => lc.peerId == peerId)
  }

  /** Position of the first registry entry whose consumer id is `consumerId`. */
  function FirstWithId(consumers: Entries<ProducerId, LocalConsumer>, consumerId: ConsumerId): (i: nat)
    ensures i <= |consumers|
    ensures i < |consumers| ==> consumers[i].1.id == consumerId
    ensures forall j :: 0 <= j < i ==> consumers[j].1.id != consumerId
  {
    FindIndex(consumers, (lc: LocalConsumer) => lc.id == consumerId)
  }

  lemma DeleteAtPosition(m: Entries<ProducerId, LocalConsumer>, i: nat)
    requires DistinctKeys(m) && i < |m|
    ensures Delete(m, m[i].0) == m[..i] + m[i + 1..]
  {
    IndexOfUnique(m, m[i].0, i);
  }

  /** peer-left: closes and removes the FIRST consumer resolved to that peer (the loop
      breaks after one), then tells the page. A peer's second consumer stays registered. */
  function OnPeerLeft(c: Session, peerId: PeerId): (r: ClientStep)
    requires WellFormed(c)
    ensures WellFormed(r.session)
    ensures r.session == c.(consumers := r.session.consumers)
    ensures var i := FirstOfPeer(c.consumers, peerId);
      i == |c.consumers| ==> r == ClientStep(c, [NotifyPeerLeft(peerId)])
    ensures var i := FirstOfPeer(c.consumers, peerId);
      i < |c.consumers| ==>
        && r.session.consumers == c.consumers[..i] + c.consumers[i + 1..]
        && r.effects == [CloseConsumer(c.consumers[i].1.id), NotifyPeerLeft(peerId)]
  {
    var i := FirstOfPeer(c.consumers, peerId);
    if i == |c.consumers| then ClientStep(c, [NotifyPeerLeft(peerId)])
    else
      DeleteAtPosition(c.consumers, i);
      ClientStep(c.(consumers := Delete(c.consumers, c.consumers[i].0)),
                 [CloseConsumer(c.consumers[i].1.id), NotifyPeerLeft(peerId)])
  }

  /** new-producer: the producer-to-peer mapping is recorded first, whoever the producer
      belongs to; a consume request follows unless the producer is this client's own or is
      already consumed. */
  function OnNewProducer(c: Session, peerId: PeerId, producerId: ProducerId): (r: ClientStep)
    ensures producerId in r.session.producerPeers && r.session.producerPeers[producerId] == peerId
    ensures forall p :: p != producerId ==> (p in r.session.producerPeers <==> p in c.producerPeers)
    ensures forall p :: p != producerId && p in c.producerPeers ==> r.session.producerPeers[p] == c.producerPeers[p]
    ensures r.session == c.(producerPeers := r.session.producerPeers)
    ensures r.effects == [] <==> peerId == c.ownId || HasKey(c.consumers, producerId)
    ensures r.effects != [] ==> r.effects == [Send(ConsumeRequest(producerId))]
  {
    var c' := c.(producerPeers := c.producerPeers[producerId := peerId]);
    if peerId == c.ownId then ClientStep(c', [])
    else if HasKey(c'.consumers, producerId) then ClientStep(c', [])
    else
      match StartConsume(c', producerId)
      case Existing(_) => ClientStep(c', [])
      case Requested(req) => ClientStep(c', [Send(req)])
  }

  /** consumer-closed: closes and removes the first entry whose consumer has that id. */
  function OnConsumerClosed(c: Session, consumerId: ConsumerId): (r: ClientStep)
    requires WellFormed(c)
    ensures WellFormed(r.session)
    ensures r.session == c.(consumers := r.session.consumers)
    ensures var i := FirstWithId(c.consumers, consumerId);
      i == |c.consumers| ==> r == ClientStep(c, [])
    ensures var i := FirstWithId(c.consumers, consumerId);
      i < |c.consumers| ==>
        && r.session.consumers == c.consumers[..i] + c.consumers[i + 1..]
        && r.effects == [CloseConsumer(consumerId)]
  {
    var i := FirstWithId(c.consumers, consumerId);
    if i == |c.consumers| then ClientStep(c, [])
    else
      DeleteAtPosition(c.consumers, i);
      ClientStep(c.(consumers := Delete(c.consumers, c.consumers[i].0)), [CloseConsumer(consumerId)])
  }

  // ---------------------------------------------------------------------------------------
  // getExistingProducers
  // ---------------------------------------------------------------------------------------

  /** How the server and the browser answer the consume issued for a producer. */
  datatype Answer = Answer(reply: ConsumeReply, local: Engine<()>)

  predicate IsConsumeRequest(e: Effect) {
    e.Send? && e.request.ConsumeRequest?
  }

  /** No consume request occurs twice in `effects`. */
  predicate AtMostOnce(effects: seq<Effect>) {
    forall i, j :: 0 <= i < j < |effects| && IsConsumeRequest(effects[i]) ==> effects[j] != effects[i]
  }

  /** Registry entries present in `c` are present, unchanged, in `c'`. */
  ghost predicate Extends(c: Session, c': Session) {
    forall p :: HasKey(c.consumers, p) ==> Get(c'.consumers, p) == Get(c.consumers, p)
  }

  /** The outcome of the loop over a snapshot: the state and effects so far, and whether the
      loop ran to the end (the first rejected consume throws out of it). */
  datatype Sweep = Sweep(session: Session, effects: seq<Effect>, completed: bool)

  /** The mapping one snapshot entry leaves behind: recorded only when both ids are present. */
  function Record(c: Session, info: Listed): (c': Session)
    ensures info.producerId != "" && info.peerId != "" ==>
      c' == c.(producerPeers := c.producerPeers[info.producerId := info.peerId])
    ensures !(info.producerId != "" && info.peerId != "") ==> c' == c
    ensures c' == c.(producerPeers := c'.producerPeers)
  {
    if info.producerId != "" && info.peerId != "" then
      c.(producerPeers := c.producerPeers[info.producerId := info.peerId])
    else c
  }

  /** The mapping is recorded BEFORE the consume, so a consumer created for a listed producer
      is attributed to the peer the snapshot names, whatever the reply says. */
  lemma ListedPeerWins(c: Session, info: Listed, replied: Option<string>)
    requires info.producerId != "" && info.peerId != ""
    ensures ResolvePeerId(Record(c, info), info.producerId, replied) == info.peerId
  {
  }

  /** The reply handler of getExistingProducers: for each listed producer in order, record
      its owner, then `await consume(...)`. A consume the server or browser rejects throws
      out of the loop, leaving the rest of the snapshot unvisited. */
  function ExistingProducers(c: Session, listed: seq<Listed>, answer: ProducerId -> Answer): (r: Sweep)
    requires WellFormed(c)
    ensures WellFormed(r.session)
    ensures Extends(c, r.session)
    ensures r.session.ownId == c.ownId && r.session.usernames == c.usernames
    ensures forall e :: e in r.effects && IsConsumeRequest(e) ==> !HasKey(c.consumers, e.request.producerId)
    ensures forall e :: e in r.effects && IsConsumeRequest(e) ==> exists info :: info in listed && info.producerId == e.request.producerId
    ensures AtMostOnce(r.effects)
    ensures r.completed ==> forall info :: info in listed ==> HasKey(r.session.consumers, info.producerId)
    ensures !r.completed ==> exists info :: info in listed && !HasKey(r.session.consumers, info.producerId)
    decreases |listed|
  {
    if |listed| == 0 then Sweep(c, [], true)
    else
      var info := listed[0];
      var c1 := Record(c, info);
      match StartConsume(c1, info.producerId)
      case Existing(_) =>
        var rest := ExistingProducers(c1, listed[1..], answer);
        SubsequenceMembers(listed);
        rest
      case Requested(req) =>
        var a := answer(info.producerId);
        match FinishConsume(c1, info.producerId, a.reply, a.local)
        case Rejected(_) => Sweep(c1, [Send(req)], false)
        case Resolved(step, _) =>
          var rest := ExistingProducers(step.session, listed[1..], answer);
          ResolvedThenRest(c, listed, step, rest);
          Sweep(rest.session, [Send(req)] + step.effects + rest.effects, rest.completed)
  }

  /** One resolved consume followed by the rest of the loop keeps every promise of
      `ExistingProducers`. */
  lemma ResolvedThenRest(c: Session, listed: seq<Listed>, step: ClientStep, rest: Sweep)
    requires WellFormed(c) && |listed| > 0
    requires !HasKey(c.consumers, listed[0].producerId)
    requires HasKey(step.session.consumers, listed[0].producerId)
    requires Extends(c, step.session)
    requires forall e :: e in step.effects ==> !IsConsumeRequest(e)
    requires forall e :: e in rest.effects && IsConsumeRequest(e) ==> !HasKey(step.session.consumers, e.request.producerId)
    requires forall e :: e in rest.effects && IsConsumeRequest(e) ==> exists info :: info in listed[1..] && info.producerId == e.request.producerId
    requires AtMostOnce(rest.effects)
    requires Extends(step.session, rest.session)
    requires rest.completed ==> forall info :: info in listed[1..] ==> HasKey(rest.session.consumers, info.producerId)
    requires !rest.completed ==> exists info :: info in listed[1..] && !HasKey(rest.session.consumers, info.producerId)
    ensures var effects := [Send(ConsumeRequest(listed[0].producerId))] + step.effects + rest.effects;
      && Extends(c, rest.session)
      && (forall e :: e in effects && IsConsumeRequest(e) ==> !HasKey(c.consumers, e.request.producerId))
      && (forall e :: e in effects && IsConsumeRequest(e) ==> exists info :: info in listed && info.producerId == e.request.producerId)
      && AtMostOnce(effects)
      && (rest.completed ==> forall info :: info in listed ==> HasKey(rest.session.consumers, info.producerId))
      && (!rest.completed ==> exists info :: info in listed && !HasKey(rest.session.consumers, info.producerId))
  {
    var head := [Send(ConsumeRequest(listed[0].producerId))] + step.effects;
    SubsequenceMembers(listed);
    ExtendsTrans(c, step.session, rest.session);
    forall e | e in rest.effects && IsConsumeRequest(e) ensures !HasKey(c.consumers, e.request.producerId) {
      var p := e.request.producerId;
      assert HasKey(c.consumers, p) ==> Get(step.session.consumers, p).Some?;
    }
    assert Get(rest.session.consumers, listed[0].producerId).Some?;
    AtMostOnceConcat(head, rest.effects);
    assert head + rest.effects == [Send(ConsumeRequest(listed[0].producerId))] + step.effects + rest.effects;
  }

  lemma SubsequenceMembers(listed: seq<Listed>)
    requires |listed| > 0
    ensures forall info :: info in listed <==> info == listed[0] || info in listed[1..]
  {
    assert listed == [listed[0]] + listed[1..];
  }

  lemma ExtendsTrans(a: Session, b: Session, c: Session)
    requires Extends(a, b) && Extends(b, c)
    ensures Extends(a, c)
  {
    forall p | HasKey(a.consumers, p) ensures Get(c.consumers, p) == Get(a.consumers, p) {
      assert Get(b.consumers, p).Some?;
    }
  }

  lemma AtMostOnceConcat(head: seq<Effect>, rest: seq<Effect>)
    requires AtMostOnce(head) && AtMostOnce(rest)
    requires forall e :: e in head && IsConsumeRequest(e) ==> e !in rest
    ensures AtMostOnce(head + rest)
  {
    var all := head + rest;
    forall i, j | 0 <= i < j < |all| && IsConsumeRequest(all[i]) ensures all[j] != all[i] {
      if j < |head| {
        assert all[i] == head[i] && all[j] == head[j];
      } else if i < |head| {
        assert all[i] == head[i] && all[j] == rest[j - |head|];
        assert all[i] !in rest;
      } else {
        assert all[i] == rest[i - |head|] && all[j] == rest[j - |head|];
      }
    }
  }

  /** Entry `k` is the first listing of its producer, names both ids, and the producer was
      not consumed before the sweep: the consume the sweep issues for it is this entry's. */
  predicate Attributable(c: Session, listed: seq<Listed>, k: nat)
    requires k < |listed|
  {
    && listed[k].producerId != "" && listed[k].peerId != ""
    && !HasKey(c.consumers, listed[k].producerId)
    && forall j :: 0 <= j < k ==> listed[j].producerId != listed[k].producerId
  }

  /** Every consumer a sweep from `c` made for an attributable entry carries that entry's peer. */
  predicate Attributed(c: Session, c': Session, listed: seq<Listed>) {
    forall k :: 0 <= k < |listed| && Attributable(c, listed, k) && HasKey(c'.consumers, listed[k].producerId) ==>
      Get(c'.consumers, listed[k].producerId).value.peerId == listed[k].peerId
  }

  /** Because getExistingProducers records each owner before consuming, every consumer it
      creates for a listed producer is attributed to the peer the snapshot names for it, not
      to the reply's peer or 'unknown'. */
  lemma {:induction false} SweepAttribution(c: Session, listed: seq<Listed>, answer: ProducerId -> Answer)
    requires WellFormed(c)
    ensures Attributed(c, ExistingProducers(c, listed, answer).session, listed)
    decreases |listed|, 1
  {
    if |listed| > 0 {
      var a := answer(listed[0].producerId);
      if HasKey(c.consumers, listed[0].producerId) {
        SweepAttributionSkip(c, listed, answer);
      } else if FinishConsume(Record(c, listed[0]), listed[0].producerId, a.reply, a.local).Rejected? {
        SweepAttributionStop(c, listed, answer);
      } else {
        SweepAttributionGoOn(c, listed, answer);
      }
    }
  }

  lemma SweepAttributionSkip(c: Session, listed: seq<Listed>, answer: ProducerId -> Answer)
    requires WellFormed(c) && |listed| > 0 && HasKey(c.consumers, listed[0].producerId)
    ensures Attributed(c, ExistingProducers(c, listed, answer).session, listed)
    decreases |listed|, 0
  {
    var c1 := Record(c, listed[0]);
    SweepSkips(c, listed, answer);
    SweepAttribution(c1, listed[1..], answer);
    AttributedShift(c, c1, listed, ExistingProducers(c1, listed[1..], answer).session);
  }

  lemma SweepAttributionStop(c: Session, listed: seq<Listed>, answer: ProducerId -> Answer)
    requires WellFormed(c) && |listed| > 0 && !HasKey(c.consumers, listed[0].producerId)
    requires var a := answer(listed[0].producerId);
      FinishConsume(Record(c, listed[0]), listed[0].producerId, a.reply, a.local).Rejected?
    ensures Attributed(c, ExistingProducers(c, listed, answer).session, listed)
    decreases |listed|, 0
  {
    var c1 := Record(c, listed[0]);
    SweepStops(c, listed, answer);
    forall k | 0 <= k < |listed| && Attributable(c, listed, k) ensures !HasKey(c1.consumers, listed[k].producerId) {
    }
  }

  lemma SweepAttributionGoOn(c: Session, listed: seq<Listed>, answer: ProducerId -> Answer)
    requires WellFormed(c) && |listed| > 0 && !HasKey(c.consumers, listed[0].producerId)
    requires var a := answer(listed[0].producerId);
      FinishConsume(Record(c, listed[0]), listed[0].producerId, a.reply, a.local).Resolved?
    ensures Attributed(c, ExistingProducers(c, listed, answer).session, listed)
    decreases |listed|, 0
  {
    var info := listed[0];
    var a := answer(info.producerId);
    var f := FinishConsume(Record(c, info), info.producerId, a.reply, a.local);
    SweepGoesOn(c, listed, answer);
    SweepAttribution(f.step.session, listed[1..], answer);
    var rest := ExistingProducers(f.step.session, listed[1..], answer);
    if info.producerId != "" && info.peerId != "" {
      ListedPeerWins(c, info, a.reply.peerId);
    }
    AttributedAfterConsume(c, f.step.session, listed, rest.session, f.consumer);
  }

  /** The owners a sweep leaves recorded: those known before, and pairs of the snapshot whose
      producer id and peer id are both present; a completed sweep has recorded every such pair. */
  lemma {:induction false} SweepRecordsOwners(c: Session, listed: seq<Listed>, answer: ProducerId -> Answer)
    requires WellFormed(c)
    ensures OwnersFrom(c.producerPeers, ExistingProducers(c, listed, answer), listed)
    decreases |listed|, 1
  {
    if |listed| > 0 {
      var a := answer(listed[0].producerId);
      if HasKey(c.consumers, listed[0].producerId) {
        SweepRecordsOwnersSkip(c, listed, answer);
      } else if FinishConsume(Record(c, listed[0]), listed[0].producerId, a.reply, a.local).Rejected? {
        SweepRecordsOwnersStop(c, listed, answer);
      } else {
        SweepRecordsOwnersGoOn(c, listed, answer);
      }
    }
  }

  lemma SweepRecordsOwnersSkip(c: Session, listed: seq<Listed>, answer: ProducerId -> Answer)
    requires WellFormed(c) && |listed| > 0 && HasKey(c.consumers, listed[0].producerId)
    ensures OwnersFrom(c.producerPeers, ExistingProducers(c, listed, answer), listed)
    decreases |listed|, 0
  {
    var c1 := Record(c, listed[0]);
    SweepSkips(c, listed, answer);
    SweepRecordsOwners(c1, listed[1..], answer);
    OwnersThenRest(c, listed, ExistingProducers(c1, listed[1..], answer));
  }

  lemma SweepRecordsOwnersStop(c: Session, listed: seq<Listed>, answer: ProducerId -> Answer)
    requires WellFormed(c) && |listed| > 0 && !HasKey(c.consumers, listed[0].producerId)
    requires var a := answer(listed[0].producerId);
      FinishConsume(Record(c, listed[0]), listed[0].producerId, a.reply, a.local).Rejected?
    ensures OwnersFrom(c.producerPeers, ExistingProducers(c, listed, answer), listed)
    decreases |listed|, 0
  {
    var c1 := Record(c, listed[0]);
    SweepStops(c, listed, answer);
    OwnersThenRest(c, listed, Sweep(c1, [Send(ConsumeRequest(listed[0].producerId))], false));
  }

  lemma SweepRecordsOwnersGoOn(c: Session, listed: seq<Listed>, answer: ProducerId -> Answer)
    requires WellFormed(c) && |listed| > 0 && !HasKey(c.consumers, listed[0].producerId)
    requires var a := answer(listed[0].producerId);
      FinishConsume(Record(c, listed[0]), listed[0].producerId, a.reply, a.local).Resolved?
    ensures OwnersFrom(c.producerPeers, ExistingProducers(c, listed, answer), listed)
    decreases |listed|, 0
  {
    var info := listed[0];
    var a := answer(info.producerId);
    var f := FinishConsume(Record(c, info), info.producerId, a.reply, a.local);
    SweepGoesOn(c, listed, answer);
    SweepRecordsOwners(f.step.session, listed[1..], answer);
    var rest := ExistingProducers(f.step.session, listed[1..], answer);
    OwnersThenRest(c, listed, Sweep(rest.session, [Send(ConsumeRequest(info.producerId))] + f.step.effects + rest.effects, rest.completed));
  }

  /** Every consumer a sweep registers has been announced to the page by a consumer-created
      notice carrying its id and producer. */
  lemma {:induction false} SweepAnnounces(c: Session, listed: seq<Listed>, answer: ProducerId -> Answer)
    requires WellFormed(c)
    ensures Announced(c, ExistingProducers(c, listed, answer))
    decreases |listed|, 1
  {
    if |listed| > 0 {
      var a := answer(listed[0].producerId);
      if HasKey(c.consumers, listed[0].producerId) {
        SweepAnnouncesSkip(c, listed, answer);
      } else if FinishConsume(Record(c, listed[0]), listed[0].producerId, a.reply, a.local).Rejected? {
        SweepAnnouncesStop(c, listed, answer);
      } else {
        SweepAnnouncesGoOn(c, listed, answer);
      }
    }
  }

  lemma SweepAnnouncesSkip(c: Session, listed: seq<Listed>, answer: ProducerId -> Answer)
    requires WellFormed(c) && |listed| > 0 && HasKey(c.consumers, listed[0].producerId)
    ensures Announced(c, ExistingProducers(c, listed, answer))
    decreases |listed|, 0
  {
    var c1 := Record(c, listed[0]);
    SweepSkips(c, listed, answer);
    SweepAnnounces(c1, listed[1..], answer);
  }

  lemma SweepAnnouncesStop(c: Session, listed: seq<Listed>, answer: ProducerId -> Answer)
    requires WellFormed(c) && |listed| > 0 && !HasKey(c.consumers, listed[0].producerId)
    requires var a := answer(listed[0].producerId);
      FinishConsume(Record(c, listed[0]), listed[0].producerId, a.reply, a.local).Rejected?
    ensures Announced(c, ExistingProducers(c, listed, answer))
    decreases |listed|, 0
  {
    var c1 := Record(c, listed[0]);
    SweepStops(c, listed, answer);
  }

  lemma SweepAnnouncesGoOn(c: Session, listed: seq<Listed>, answer: ProducerId -> Answer)
    requires WellFormed(c) && |listed| > 0 && !HasKey(c.consumers, listed[0].producerId)
    requires var a := answer(listed[0].producerId);
      FinishConsume(Record(c, listed[0]), listed[0].producerId, a.reply, a.local).Resolved?
    ensures Announced(c, ExistingProducers(c, listed, answer))
    decreases |listed|, 0
  {
    var info := listed[0];
    var a := answer(info.producerId);
    var f := FinishConsume(Record(c, info), info.producerId, a.reply, a.local);
    SweepGoesOn(c, listed, answer);
    SweepAnnounces(f.step.session, listed[1..], answer);
    var rest := ExistingProducers(f.step.session, listed[1..], answer);
    AnnouncedAfterConsume(c, f.step, f.consumer, info.producerId, rest);
  }

  /** A sweep changes the session's registry and owner map and nothing else. */
  predicate KeepsRest(c: Session, r: Session) {
    r == c.(consumers := r.consumers, producerPeers := r.producerPeers)
  }

  lemma {:induction false} SweepKeepsRest(c: Session, listed: seq<Listed>, answer: ProducerId -> Answer)
    requires WellFormed(c)
    ensures KeepsRest(c, ExistingProducers(c, listed, answer).session)
    decreases |listed|, 1
  {
    if |listed| > 0 {
      var a := answer(listed[0].producerId);
      if HasKey(c.consumers, listed[0].producerId) {
        SweepKeepsRestSkip(c, listed, answer);
      } else if FinishConsume(Record(c, listed[0]), listed[0].producerId, a.reply, a.local).Rejected? {
        SweepStops(c, listed, answer);
      } else {
        SweepKeepsRestGoOn(c, listed, answer);
      }
    }
  }

  lemma SweepKeepsRestSkip(c: Session, listed: seq<Listed>, answer: ProducerId -> Answer)
    requires WellFormed(c) && |listed| > 0 && HasKey(c.consumers, listed[0].producerId)
    ensures KeepsRest(c, ExistingProducers(c, listed, answer).session)
    decreases |listed|, 0
  {
    var c1 := Record(c, listed[0]);
    SweepSkips(c, listed, answer);
    SweepKeepsRest(c1, listed[1..], answer);
    var r := ExistingProducers(c1, listed[1..], answer).session;
    assert r == c1.(consumers := r.consumers, producerPeers := r.producerPeers);
  }

  lemma SweepKeepsRestGoOn(c: Session, listed: seq<Listed>, answer: ProducerId -> Answer)
    requires WellFormed(c) && |listed| > 0 && !HasKey(c.consumers, listed[0].producerId)
    requires var a := answer(listed[0].producerId);
      FinishConsume(Record(c, listed[0]), listed[0].producerId, a.reply, a.local).Resolved?
    ensures KeepsRest(c, ExistingProducers(c, listed, answer).session)
    decreases |listed|, 0
  {
    var a := answer(listed[0].producerId);
    var f := FinishConsume(Record(c, listed[0]), listed[0].producerId, a.reply, a.local);
    SweepGoesOn(c, listed, answer);
    SweepKeepsRest(f.step.session, listed[1..], answer);
  }

  /** One step of the sweep over a producer already consumed: only its owner is recorded. */
  lemma SweepSkips(c: Session, listed: seq<Listed>, answer: ProducerId -> Answer)
    requires WellFormed(c) && |listed| > 0 && HasKey(c.consumers, listed[0].producerId)
    ensures ExistingProducers(c, listed, answer) == ExistingProducers(Record(c, listed[0]), listed[1..], answer)
  {
  }

  /** One step of the sweep whose consume is rejected: the loop ends there. */
  lemma SweepStops(c: Session, listed: seq<Listed>, answer: ProducerId -> Answer)
    requires WellFormed(c) && |listed| > 0 && !HasKey(c.consumers, listed[0].producerId)
    requires var a := answer(listed[0].producerId);
      FinishConsume(Record(c, listed[0]), listed[0].producerId, a.reply, a.local).Rejected?
    ensures ExistingProducers(c, listed, answer) == Sweep(Record(c, listed[0]), [Send(ConsumeRequest(listed[0].producerId))], false)
  {
  }

  /** One step of the sweep whose consume succeeds: the rest of the snapshot follows. */
  lemma SweepGoesOn(c: Session, listed: seq<Listed>, answer: ProducerId -> Answer)
    requires WellFormed(c) && |listed| > 0 && !HasKey(c.consumers, listed[0].producerId)
    requires var a := answer(listed[0].producerId);
      FinishConsume(Record(c, listed[0]), listed[0].producerId, a.reply, a.local).Resolved?
    ensures var a := answer(listed[0].producerId);
      var step := FinishConsume(Record(c, listed[0]), listed[0].producerId, a.reply, a.local).step;
      var rest := ExistingProducers(step.session, listed[1..], answer);
      ExistingProducers(c, listed, answer) == Sweep(rest.session, [Send(ConsumeRequest(listed[0].producerId))] + step.effects + rest.effects, rest.completed)
  {
  }

  /** The sweep's first entry needed no consume: the rest of the sweep attributes the rest. */
  lemma AttributedShift(c: Session, c1: Session, listed: seq<Listed>, final: Session)
    requires |listed| > 0 && c1.consumers == c.consumers
    requires HasKey(c.consumers, listed[0].producerId)
    requires Attributed(c1, final, listed[1..])
    ensures Attributed(c, final, listed)
  {
    forall k | 0 <= k < |listed| && Attributable(c, listed, k) && HasKey(final.consumers, listed[k].producerId)
      ensures Get(final.consumers, listed[k].producerId).value.peerId == listed[k].peerId
    {
      assert k > 0 && listed[1..][k - 1] == listed[k];
      assert Attributable(c1, listed[1..], k - 1);
    }
  }

  /** The sweep's first entry was consumed as `consumer`, then the rest of the sweep ran. */
  lemma AttributedAfterConsume(c: Session, c2: Session, listed: seq<Listed>, final: Session, consumer: LocalConsumer)
    requires |listed| > 0 && !HasKey(c.consumers, listed[0].producerId)
    requires c2.consumers == c.consumers + [(listed[0].producerId, consumer)]
    requires Get(c2.consumers, listed[0].producerId) == Some(consumer)
    requires listed[0].producerId != "" && listed[0].peerId != "" ==> consumer.peerId == listed[0].peerId
    requires Extends(c2, final)
    requires Attributed(c2, final, listed[1..])
    ensures Attributed(c, final, listed)
  {
    var p0 := listed[0].producerId;
    forall k | 0 <= k < |listed| && Attributable(c, listed, k) && HasKey(final.consumers, listed[k].producerId)
      ensures Get(final.consumers, listed[k].producerId).value.peerId == listed[k].peerId
    {
      if k == 0 {
        assert HasKey(c2.consumers, p0);
      } else {
        var p := listed[k].producerId;
        assert listed[1..][k - 1] == listed[k] && p != p0;
        assert Attributable(c2, listed[1..], k - 1);
      }
    }
  }

  /** `r` holds the owners recorded in `before` and pairs of `listed` with both ids present;
      when `r` completed, every such pair's producer has a recorded owner. */
  predicate OwnersFrom(before: map<ProducerId, string>, r: Sweep, listed: seq<Listed>) {
    var after := r.session.producerPeers;
    && (forall p :: p in before ==> p in after)
    && (forall p :: p in after ==>
          (p in before && after[p] == before[p])
          || (exists info :: info in listed && info.producerId == p && info.producerId != "" && info.peerId != ""
               && after[p] == info.peerId))
    && (r.completed ==> forall info :: info in listed && info.producerId != "" && info.peerId != "" ==>
          info.producerId in after)
  }

  /** The owner the first entry records, followed by those of the rest of the sweep. */
  lemma OwnersThenRest(c: Session, listed: seq<Listed>, r: Sweep)
    requires |listed| > 0
    requires OwnersFrom(Record(c, listed[0]).producerPeers, r, listed[1..])
    ensures OwnersFrom(c.producerPeers, r, listed)
  {
    var info := listed[0];
    var mid := Record(c, info).producerPeers;
    var after := r.session.producerPeers;
    SubsequenceMembers(listed);
    forall p | p in after
      ensures (p in c.producerPeers && after[p] == c.producerPeers[p])
        || (exists i :: i in listed && i.producerId == p && i.producerId != "" && i.peerId != "" && after[p] == i.peerId)
    {
      if p in mid && after[p] == mid[p] && p == info.producerId && info.producerId != "" && info.peerId != "" {
        assert info in listed && after[p] == info.peerId;
      }
    }
  }

  /** Every registry entry of `r` not in `c` has had its consumer-created notice. */
  ghost predicate Announced(c: Session, r: Sweep) {
    forall p :: HasKey(r.session.consumers, p) && !HasKey(c.consumers, p) ==>
      NotifyConsumerCreated(Get(r.session.consumers, p).value.id, p) in r.effects
  }

  lemma AnnouncedAfterConsume(c: Session, step: ClientStep, consumer: LocalConsumer, p0: ProducerId, rest: Sweep)
    requires !HasKey(c.consumers, p0)
    requires step.session.consumers == c.consumers + [(p0, consumer)]
    requires Get(step.session.consumers, p0) == Some(consumer)
    requires step.effects == [Send(ResumeRequest(consumer.id)), NotifyConsumerCreated(consumer.id, p0)]
    requires Extends(step.session, rest.session)
    requires Announced(step.session, rest)
    ensures Announced(c, Sweep(rest.session, [Send(ConsumeRequest(p0))] + step.effects + rest.effects, rest.completed))
  {
    var effects := [Send(ConsumeRequest(p0))] + step.effects + rest.effects;
    forall p | HasKey(rest.session.consumers, p) && !HasKey(c.consumers, p)
      ensures NotifyConsumerCreated(Get(rest.session.consumers, p).value.id, p) in effects
    {
      if p == p0 {
        assert effects[2] == NotifyConsumerCreated(consumer.id, p0);
      } else {
        assert NotifyConsumerCreated(Get(rest.session.consumers, p).value.id, p) in rest.effects;
      }
    }
  }

  // ---------------------------------------------------------------------------------------
  // joinRoom
  // ---------------------------------------------------------------------------------------

  /** How far joinRoom's set-up got: `SetupDone` when the device is loaded, both transports
      are created and the camera and microphone are produced; otherwise the message of the
      first failure and how many of the send transport, the receive transport, the camera
      producer and the microphone producer exist by then (they are made in that order). */
  datatype Setup = SetupDone | SetupFailed(message: string, created: nat)

  /** `Entered`: the promise of joinRoom resolved. `Threw`: it rejected. `Pending`: it never
      settles, because the get-producers callback threw or a consume in it was rejected, and
      `resolve()` is never reached. */
  datatype JoinStatus = Entered | Threw(message: string) | Pending

  datatype Joining = Joining(session: Session, effects: seq<Effect>, status: JoinStatus)

  /** The session with the first `n` of its transports and producers created. */
  function Prepared(c: Session, n: nat): Session {
    c.(hasSendTransport := 1 <= n, hasRecvTransport := 2 <= n, hasVideoProducer := 3 <= n, hasAudioProducer := 4 <= n)
  }

  /** joinRoom after the join-room acknowledgement: the set-up, then getExistingProducers on
      the snapshot the server sends (`None` for an error reply, which has no `producers`). */
  function JoinRoom(c: Session, setup: Setup, snapshot: Option<seq<Listed>>, answer: ProducerId -> Answer): (r: Joining)
    requires WellFormed(c)
    ensures WellFormed(r.session) && Extends(c, r.session)
    ensures r.session.ownId == c.ownId && r.session.usernames == c.usernames
    ensures r.session.videoEnabled == c.videoEnabled && r.session.audioEnabled == c.audioEnabled
    ensures r.status.Threw? <==> setup.SetupFailed?
    ensures setup.SetupFailed? ==>
      && r.status.message == setup.message && r.effects == [] && r.session.consumers == c.consumers
      && (r.session.hasSendTransport <==> setup.created >= 1) && (r.session.hasRecvTransport <==> setup.created >= 2)
      && (r.session.hasVideoProducer <==> setup.created >= 3) && (r.session.hasAudioProducer <==> setup.created >= 4)
    ensures setup.SetupDone? ==>
      r.session.hasSendTransport && r.session.hasRecvTransport && r.session.hasVideoProducer && r.session.hasAudioProducer
    ensures r.status.Entered? ==> snapshot.Some? && forall info :: info in snapshot.value ==> HasKey(r.session.consumers, info.producerId)
    ensures r.status.Pending? ==>
      setup.SetupDone? && (snapshot.None? || exists info :: info in snapshot.value && !HasKey(r.session.consumers, info.producerId))
    ensures forall p :: HasKey(r.session.consumers, p) && !HasKey(c.consumers, p) ==>
      NotifyConsumerCreated(Get(r.session.consumers, p).value.id, p) in r.effects
    ensures setup.SetupDone? && snapshot.Some? ==> Attributed(c, r.session, snapshot.value)
  {
    match setup
    case SetupFailed(message, n) => Joining(Prepared(c, n), [], Threw(message))
    case SetupDone =>
      var c1 := Prepared(c, 4);
      match snapshot
      case None => Joining(c1, [], Pending)
      case Some(listed) =>
        var sweep := ExistingProducers(c1, listed, answer);
        SweepKeepsRest(c1, listed, answer);
        SweepAnnounces(c1, listed, answer);
        SweepAttribution(c1, listed, answer);
        AttributedFrom(c, c1, listed, sweep.session);
        Joining(sweep.session, sweep.effects, if sweep.completed then Entered else Pending)
  }

  lemma AttributedFrom(c: Session, c1: Session, listed: seq<Listed>, final: Session)
    requires c1.consumers == c.consumers && Attributed(c1, final, listed)
    ensures Attributed(c, final, listed)
  {
    forall k | 0 <= k < |listed| && Attributable(c, listed, k) ensures Attributable(c1, listed, k) {
    }
  }

  // ---------------------------------------------------------------------------------------
  // toggleVideo / toggleAudio / leaveRoom / getPeerIdByProducerId
  // ---------------------------------------------------------------------------------------

  function Producing(c: Session, kind: Kind): bool {
    if kind == Video then c.hasVideoProducer else c.hasAudioProducer
  }

  function Enabled(c: Session, kind: Kind): bool {
    if kind == Video then c.videoEnabled else c.audioEnabled
  }

  /** toggleVideo (kind Video) and toggleAudio (kind Audio): with a producer of that kind,
      pause it when enabled or resume it when disabled, and flip the flag; without one,
      nothing happens. The returned flag is the one now in force. */
  function Toggle(c: Session, kind: Kind): (r: (ClientStep, bool))
    ensures r.1 == Enabled(r.0.session, kind)
    ensures Producing(c, kind) ==> r.1 == !Enabled(c, kind)
    ensures !Producing(c, kind) ==> r.0 == ClientStep(c, [])
    ensures Producing(c, kind) ==>
      r.0.effects == [if Enabled(c, kind) then PauseProducer(kind) else ResumeProducer(kind)]
    ensures Enabled(r.0.session, Other(kind)) == Enabled(c, Other(kind))
    ensures r.0.session.consumers == c.consumers && r.0.session.producerPeers == c.producerPeers
  {
    if !Producing(c, kind) then (ClientStep(c, []), Enabled(c, kind))
    else
      var effect := if Enabled(c, kind) then PauseProducer(kind) else ResumeProducer(kind);
      var c' := if kind == Video then c.(videoEnabled := !c.videoEnabled) else c.(audioEnabled := !c.audioEnabled);
      (ClientStep(c', [effect]), !Enabled(c, kind))
  }

  function Other(kind: Kind): Kind {
    if kind == Video then Audio else Video
  }

  /** Toggling twice restores the session: the producer was paused and resumed (or the
      other way round) and the flag is back where it was. */
  lemma ToggleTwice(c: Session, kind: Kind)
    ensures Toggle(Toggle(c, kind).0.session, kind).0.session == c
    ensures Toggle(Toggle(c, kind).0.session, kind).1 == Enabled(c, kind)
  {
  }

  /** The closes leaveRoom issues for the registry: one per entry, in insertion order. */
  function CloseAll(consumers: Entries<ProducerId, LocalConsumer>): (r: seq<Effect>)
    ensures |r| == |consumers|
    ensures forall i :: 0 <= i < |r| ==> r[i] == CloseConsumer(consumers[i].1.id)
    ensures forall i :: 0 <= i < |r| ==> LeavePhase(r[i]) == 2
  {
    if |consumers| == 0 then [] else [CloseConsumer(consumers[0].1.id)] + CloseAll(consumers[1..])
  }

  /** Where an effect of leaveRoom falls in its order of closes: camera then microphone
      producer, the consumers, send then receive transport, and the socket last. */
  function LeavePhase(e: Effect): nat {
    match e
    case CloseProducer(kind) => if kind == Video then 0 else 1
    case CloseConsumer(_) => 2
    case CloseTransport(direction) => if direction == Outgoing then 3 else 4
    case DisconnectSocket => 5
    case _ => 6
  }

  function ProducersHeld(c: Session): nat {
    (if c.hasVideoProducer then 1 else 0) + (if c.hasAudioProducer then 1 else 0)
  }

  function TransportsHeld(c: Session): nat {
    (if c.hasSendTransport then 1 else 0) + (if c.hasRecvTransport then 1 else 0)
  }

  /** Effects listed in leaveRoom's order of closes. */
  predicate InLeaveOrder(effects: seq<Effect>) {
    forall i, j :: 0 <= i < j < |effects| ==> LeavePhase(effects[i]) <= LeavePhase(effects[j])
  }

  /** Two runs in leaveRoom's order, the first ending no later than the second starts. */
  lemma LeaveOrderConcat(a: seq<Effect>, b: seq<Effect>, m: nat, top: nat)
    requires InLeaveOrder(a) && InLeaveOrder(b)
    requires forall i :: 0 <= i < |a| ==> LeavePhase(a[i]) <= m
    requires m <= top && forall j :: 0 <= j < |b| ==> m <= LeavePhase(b[j]) <= top
    ensures InLeaveOrder(a + b)
    ensures forall i :: 0 <= i < |a + b| ==> LeavePhase((a + b)[i]) <= top
  {
    var ab := a + b;
    forall i, j | 0 <= i < j < |ab| ensures LeavePhase(ab[i]) <= LeavePhase(ab[j]) {
      if j < |a| {
        assert ab[i] == a[i] && ab[j] == a[j];
      } else if i < |a| {
        assert ab[i] == a[i] && ab[j] == b[j - |a|];
      } else {
        assert ab[i] == b[i - |a|] && ab[j] == b[j - |a|];
      }
    }
    forall i | 0 <= i < |ab| ensures LeavePhase(ab[i]) <= top {
      if i >= |a| {
        assert ab[i] == b[i - |a|];
      }
    }
  }

  /** The producer closes of leaveRoom: camera first, then microphone, each only if held. */
  function CloseProducers(c: Session): (r: seq<Effect>)
    ensures |r| == ProducersHeld(c) && InLeaveOrder(r)
    ensures forall i :: 0 <= i < |r| ==> LeavePhase(r[i]) <= 1
    ensures forall kind :: CloseProducer(kind) in r <==> Producing(c, kind)
    ensures forall d :: CloseTransport(d) !in r
  {
    (if c.hasVideoProducer then [CloseProducer(Video)] else [])
      + (if c.hasAudioProducer then [CloseProducer(Audio)] else [])
  }

  /** The transport closes of leaveRoom: send first, then receive, each only if held. */
  function CloseTransports(c: Session): (r: seq<Effect>)
    ensures |r| == TransportsHeld(c) && InLeaveOrder(r)
    ensures forall i :: 0 <= i < |r| ==> 3 <= LeavePhase(r[i]) <= 4
    ensures CloseTransport(Outgoing) in r <==> c.hasSendTransport
    ensures CloseTransport(Incoming) in r <==> c.hasRecvTransport
    ensures forall kind :: CloseProducer(kind) !in r
  {
    (if c.hasSendTransport then [CloseTransport(Outgoing)] else [])
      + (if c.hasRecvTransport then [CloseTransport(Incoming)] else [])
  }

  /** leaveRoom: closes the producers it holds, every consumer in registry order (clearing
      the registry), the transports it holds, and disconnects the socket last. The closed
      producer and transport objects stay referenced, so their flags are kept, as are the
      identity and username maps. `LeaveRoomOrder` and `LeaveRoomCloses` state what the
      effects amount to. */
  function LeaveRoom(c: Session): (r: ClientStep)
    ensures r.session == c.(consumers := [])
    ensures r.effects == CloseProducers(c) + CloseAll(c.consumers) + CloseTransports(c) + [DisconnectSocket]
    ensures |r.effects| == ProducersHeld(c) + |c.consumers| + TransportsHeld(c) + 1
  {
    ClientStep(c.(consumers := []), CloseProducers(c) + CloseAll(c.consumers) + CloseTransports(c) + [DisconnectSocket])
  }

  /** leaveRoom's closes come in its order: producers, consumers, transports, socket. */
  lemma LeaveRoomOrder(c: Session)
    ensures InLeaveOrder(LeaveRoom(c).effects)
    ensures LeaveRoom(c).effects[|LeaveRoom(c).effects| - 1] == DisconnectSocket
  {
    LeaveOrder(CloseProducers(c), CloseAll(c.consumers), CloseTransports(c));
  }

  /** leaveRoom closes exactly the producers and transports the session holds. */
  lemma LeaveRoomCloses(c: Session)
    ensures forall kind :: CloseProducer(kind) in LeaveRoom(c).effects <==> Producing(c, kind)
    ensures CloseTransport(Outgoing) in LeaveRoom(c).effects <==> c.hasSendTransport
    ensures CloseTransport(Incoming) in LeaveRoom(c).effects <==> c.hasRecvTransport
  {
    LeaveMembers(c, CloseProducers(c), CloseAll(c.consumers), CloseTransports(c));
  }

  /** Right after the producer closes, leaveRoom closes one consumer per registry entry, in
      registry order. */
  lemma LeaveRoomConsumers(c: Session)
    ensures forall i :: 0 <= i < |c.consumers| ==>
      LeaveRoom(c).effects[ProducersHeld(c) + i] == CloseConsumer(c.consumers[i].1.id)
  {
    var producers, consumers, transports := CloseProducers(c), CloseAll(c.consumers), CloseTransports(c);
    var effects := LeaveRoom(c).effects;
    assert effects == producers + consumers + transports + [DisconnectSocket];
    ClosesAfter(effects, producers, consumers, transports, c.consumers, ProducersHeld(c));
  }

  lemma ClosesAfter(effects: seq<Effect>, producers: seq<Effect>, consumers: seq<Effect>, transports: seq<Effect>,
                    entries: Entries<ProducerId, LocalConsumer>, offset: nat)
    requires effects == producers + consumers + transports + [DisconnectSocket] && offset == |producers|
    requires |consumers| == |entries|
    requires forall i :: 0 <= i < |entries| ==> consumers[i] == CloseConsumer(entries[i].1.id)
    ensures forall i :: 0 <= i < |entries| ==> effects[offset + i] == CloseConsumer(entries[i].1.id)
  {
    forall i | 0 <= i < |entries| ensures effects[offset + i] == CloseConsumer(entries[i].1.id) {
      assert effects == producers + (consumers + (transports + [DisconnectSocket]));
    }
  }

  /** The four runs of leaveRoom's closes, each in order, stay in order once joined. */
  lemma LeaveOrder(producers: seq<Effect>, consumers: seq<Effect>, transports: seq<Effect>)
    requires InLeaveOrder(producers) && InLeaveOrder(consumers) && InLeaveOrder(transports)
    requires forall i :: 0 <= i < |producers| ==> LeavePhase(producers[i]) <= 1
    requires forall i :: 0 <= i < |consumers| ==> LeavePhase(consumers[i]) == 2
    requires forall i :: 0 <= i < |transports| ==> 3 <= LeavePhase(transports[i]) <= 4
    ensures InLeaveOrder(producers + consumers + transports + [DisconnectSocket])
  {
    LeaveOrderConcat(producers, consumers, 2, 2);
    LeaveOrderConcat(producers + consumers, transports, 3, 4);
    LeaveOrderConcat(producers + consumers + transports, [DisconnectSocket], 5, 5);
  }

  /** Which producer and transport closes the joined runs hold. */
  lemma LeaveMembers(c: Session, producers: seq<Effect>, consumers: seq<Effect>, transports: seq<Effect>)
    requires forall kind :: CloseProducer(kind) in producers <==> Producing(c, kind)
    requires forall d :: CloseTransport(d) !in producers
    requires forall i :: 0 <= i < |consumers| ==> LeavePhase(consumers[i]) == 2
    requires CloseTransport(Outgoing) in transports <==> c.hasSendTransport
    requires CloseTransport(Incoming) in transports <==> c.hasRecvTransport
    requires forall kind :: CloseProducer(kind) !in transports
    ensures var effects := producers + consumers + transports + [DisconnectSocket];
      && (forall kind :: CloseProducer(kind) in effects <==> Producing(c, kind))
      && (CloseTransport(Outgoing) in effects <==> c.hasSendTransport)
      && (CloseTransport(Incoming) in effects <==> c.hasRecvTransport)
  {
    assert forall e :: e in consumers ==> LeavePhase(e) == 2;
  }

  /** getPeerIdByProducerId: the recorded peer, with the empty string read as absent. */
  function PeerIdOf(c: Session, producerId: ProducerId): (r: Option<string>)
    ensures r.Some? <==> producerId in c.producerPeers && c.producerPeers[producerId] != ""
    ensures r.Some? ==> r.value == c.producerPeers[producerId] && r.value != ""
  {
    if producerId in c.producerPeers && c.producerPeers[producerId] != "" then Some(c.producerPeers[producerId]) else None
  }

  /** A peer with two consumers (camera and microphone) leaves: peer-left removes only the
      first one; the second stays until the server's consumer-closed for it arrives. */
  lemma PeerLeftKeepsSecondConsumer()
    ensures
      var a := LocalConsumer("c1", "p1", "bob", Audio);
      var v := LocalConsumer("c2", "p2", "bob", Video);
      var c := NewSession("me").(consumers := [("p1", a), ("p2", v)]);
      var left := OnPeerLeft(c, "bob").session;
      && left.consumers == [("p2", v)]
      && OnConsumerClosed(left, "c2").session.consumers == []
  {
    var a := LocalConsumer("c1", "p1", "bob", Audio);
    var v := LocalConsumer("c2", "p2", "bob", Video);
    var c := NewSession("me").(consumers := [("p1", a), ("p2", v)]);
    assert FirstOfPeer(c.consumers, "bob") == 0;
    var left := OnPeerLeft(c, "bob").session;
    assert left.consumers == [("p2", v)];
    assert FirstWithId(left.consumers, "c2") == 0;
  }
}
