/**
 Messages from one end to the other: the chunker over an established session on the sending
 side, a network that loses, repeats, reorders and inserts packets, and a session under a
 chunker on the receiving side (src/transform.rs, src/session.rs, src/snow_types.rs).
 */
module EndToEnd {
  import opened Common
  import opened ReplayWindow
  import opened SnowTypes
  import opened Transform
  import opened Reassembly
  import opened Completeness
  import opened Grouping
  import S = Session

  datatype Link = Link(formats: S.Formats, chunks: Codec<ChunkedData>, chunkSize: nat, id: S.SessionId) {
    /** What the chunkers and the sessions need: messages and chunks decode to what was encoded. */
    ghost predicate Readable() {
      Faithful(formats.message) && Faithful(chunks) && chunkSize >= 1
    }

    /** What delivery needs besides: packets and ciphertexts decode too. */
    ghost predicate Valid() {
      Readable() && formats.Valid()
    }
  }

  // ----- The sender -----

  /** A frame that was handed to the network, and the chunk in it unless it is a keepalive. */
  datatype Sent = Sent(nonce: nat, plaintext: Bytes, chunk: Option<ChunkedData>)

  /**
   `pending` are the chunks that the current call of `send` has still to hand over, `outgoing` is
   the queue of packets for the network, and `sent` records what they were made from.
   */
  datatype Sender = Sender(
    session: S.SessionState,
    currentGroup: nat,
    pending: seq<ChunkedData>,
    messages: seq<Bytes>,
    sent: seq<Sent>,
    outgoing: seq<S.SessionPacket>)

  datatype Action =
    | Begin(data: Bytes)     // a call of `send`, once the previous call has returned
    | WriteChunk
    | WriteKeepalive         // the keepalive task, at any time
    | GiveUp                 // the call is dropped half-way
    | Die

  function StartSending(st: Stateless): Sender {
    Sender(S.NewSession(0, st, 0, {}), 0, [], [], [], [])
  }

  function Act(l: Link, s: Sender, a: Action): Sender
    requires l.chunkSize >= 1
  {
    match a
    case Begin(data) =>
      if s.pending != [] then s
      else s.(messages := s.messages + [data],
              pending := Chunks(s.currentGroup, Split(data, l.chunkSize)),
              currentGroup := Next64(s.currentGroup))
    case WriteChunk =>
      if s.pending == [] then s
      else if s.session.dead then s.(pending := [])
      else
        var c := s.pending[0];
        var m := S.Payload(l.chunks.encode(c));
        var (after, w) := S.Write(l.formats, s.session, m);
        if w.Out?
        then s.(session := after, pending := s.pending[1..],
                sent := s.sent + [Sent(s.session.nextNonce, l.formats.message.encode(m), Some(c))],
                outgoing := s.outgoing + [S.Envelope(l.formats, l.id, w.frame)])
        else s.(session := after, pending := [])
    case WriteKeepalive =>
      var (after, w) := S.Write(l.formats, s.session, S.Keepalive);
      if w.Out?
      then s.(session := after,
              sent := s.sent + [Sent(s.session.nextNonce, l.formats.message.encode(S.Keepalive), None)],
              outgoing := s.outgoing + [S.Envelope(l.formats, l.id, w.frame)])
      else s.(session := after)
    case GiveUp => s.(pending := [])
    case Die => s.(session := s.session.(dead := true))
  }

  function SendAll(l: Link, st: Stateless, actions: seq<Action>): Sender
    requires l.chunkSize >= 1
  {
    if actions == [] then StartSending(st)
    else Act(l, SendAll(l, st, actions[..|actions| - 1]), actions[|actions| - 1])
  }

  /** The pieces of every message, by group number. */
  function PlanOf(messages: seq<Bytes>, size: nat): (plan: Plan)
    requires size >= 1
    ensures |plan| == |messages| && forall g :: 0 <= g < |plan| ==> plan[g] == Split(messages[g], size)
  {
    seq(|messages|, g requires 0 <= g < |messages| => Split(messages[g], size))
  }

  /** The order in which chunks are made. */
  predicate Earlier(a: ChunkedData, b: ChunkedData) {
    a.group < b.group || (a.group == b.group && a.index < b.index)
  }

  /** A frame carries either a keepalive or a chunk of one of the messages. */
  ghost predicate Labelled(l: Link, plan: Plan, s: Sent) {
    if s.chunk.None? then s.plaintext == l.formats.message.encode(S.Keepalive)
    else s.plaintext == l.formats.message.encode(S.Payload(l.chunks.encode(s.chunk.value))) && Genuine(plan, s.chunk.value)
  }

  ghost predicate AllLabelled(l: Link, plan: Plan, sent: seq<Sent>) {
    forall i :: 0 <= i < |sent| ==> Labelled(l, plan, sent[i])
  }

  ghost predicate NoncesGrow(sent: seq<Sent>, next: nat) {
    && (forall i :: 0 <= i < |sent| ==> sent[i].nonce < next)
    && forall i, j :: 0 <= i < j < |sent| ==> sent[i].nonce < sent[j].nonce
  }

  ghost predicate ChunksGrow(sent: seq<Sent>) {
    forall i, j :: 0 <= i < j < |sent| && sent[i].chunk.Some? && sent[j].chunk.Some? ==>
      Earlier(sent[i].chunk.value, sent[j].chunk.value)
  }

  ghost predicate AllEarlier(sent: seq<Sent>, c: ChunkedData) {
    forall i :: 0 <= i < |sent| && sent[i].chunk.Some? ==> Earlier(sent[i].chunk.value, c)
  }

  /** What is still to be handed over belongs to the last message and comes after all that was sent. */
  ghost predicate PendingOk(plan: Plan, sent: seq<Sent>, pending: seq<ChunkedData>) {
    && (forall i :: 0 <= i < |pending| ==> Genuine(plan, pending[i]) && AllEarlier(sent, pending[i]))
    && forall i, j :: 0 <= i < j < |pending| ==> Earlier(pending[i], pending[j])
  }

  ghost predicate SenderInv(l: Link, s: Sender, n: nat)
    requires l.chunkSize >= 1
  {
    var plan := PlanOf(s.messages, l.chunkSize);
    && s.session.nextNonce <= n
    && |s.messages| <= n
    && (|s.messages| < U64 ==> s.currentGroup == |s.messages|)
    && AllLabelled(l, plan, s.sent)
    && NoncesGrow(s.sent, s.session.nextNonce)
    && ChunksGrow(s.sent)
    && PendingOk(plan, s.sent, s.pending)
  }

  lemma GenuineLater(size: nat, messages: seq<Bytes>, data: Bytes, c: ChunkedData)
    requires size >= 1 && Genuine(PlanOf(messages, size), c)
    ensures Genuine(PlanOf(messages + [data], size), c)
    ensures c.group < |messages|
  {
  }

  lemma NewMessagePending(l: Link, s: Sender, data: Bytes)
    requires l.chunkSize >= 1 && AllLabelled(l, PlanOf(s.messages, l.chunkSize), s.sent)
    ensures var plan := PlanOf(s.messages + [data], l.chunkSize);
            AllLabelled(l, plan, s.sent) && PendingOk(plan, s.sent, Chunks(|s.messages|, Split(data, l.chunkSize)))
  {
    var plan, pieces := PlanOf(s.messages + [data], l.chunkSize), Split(data, l.chunkSize);
    assert plan[|s.messages|] == pieces;
    forall i | 0 <= i < |s.sent|
      ensures Labelled(l, plan, s.sent[i])
      ensures s.sent[i].chunk.Some? ==> s.sent[i].chunk.value.group < |s.messages|
    {
      assert Labelled(l, PlanOf(s.messages, l.chunkSize), s.sent[i]);
      if s.sent[i].chunk.Some? { GenuineLater(l.chunkSize, s.messages, data, s.sent[i].chunk.value); }
    }
  }

  lemma AppendSent(l: Link, plan: Plan, sent: seq<Sent>, x: Sent, next: nat)
    requires AllLabelled(l, plan, sent) && NoncesGrow(sent, x.nonce) && ChunksGrow(sent)
    requires Labelled(l, plan, x) && x.nonce < next
    requires x.chunk.Some? ==> AllEarlier(sent, x.chunk.value)
    ensures AllLabelled(l, plan, sent + [x]) && NoncesGrow(sent + [x], next) && ChunksGrow(sent + [x])
    ensures forall c :: AllEarlier(sent, c) && (x.chunk.Some? ==> Earlier(x.chunk.value, c)) ==> AllEarlier(sent + [x], c)
  {
  }

  lemma WriteChunkKeepsInv(l: Link, s: Sender, n: nat)
    requires l.chunkSize >= 1 && SenderInv(l, s, n) && n + 1 < U64
    ensures SenderInv(l, Act(l, s, WriteChunk), n + 1)
  {
    if s.pending != [] && !s.session.dead {
      var t := Act(l, s, WriteChunk);
      var plan := PlanOf(s.messages, l.chunkSize);
      var c := s.pending[0];
      var x := Sent(s.session.nextNonce, l.formats.message.encode(S.Payload(l.chunks.encode(c))), Some(c));
      assert t.session == s.session.(nextNonce := s.session.nextNonce + 1);
      if t.sent == s.sent + [x] {
        AppendSent(l, plan, s.sent, x, s.session.nextNonce + 1);
      }
    }
  }

  lemma WriteKeepaliveKeepsInv(l: Link, s: Sender, n: nat)
    requires l.chunkSize >= 1 && SenderInv(l, s, n) && n + 1 < U64
    ensures SenderInv(l, Act(l, s, WriteKeepalive), n + 1)
  {
    var plan, t := PlanOf(s.messages, l.chunkSize), Act(l, s, WriteKeepalive);
    var x := Sent(s.session.nextNonce, l.formats.message.encode(S.Keepalive), None);
    assert t.session == s.session.(nextNonce := s.session.nextNonce + 1);
    if S.Write(l.formats, s.session, S.Keepalive).1.Out? {
      AppendSent(l, plan, s.sent, x, s.session.nextNonce + 1);
      assert t.sent == s.sent + [x];
    }
  }

  lemma BeginKeepsInv(l: Link, s: Sender, data: Bytes, n: nat)
    requires l.chunkSize >= 1 && SenderInv(l, s, n) && n + 1 < U64
    ensures SenderInv(l, Act(l, s, Begin(data)), n + 1)
  {
    if s.pending == [] {
      NewMessagePending(l, s, data);
    }
  }

  lemma ActKeepsInv(l: Link, s: Sender, a: Action, n: nat)
    requires l.chunkSize >= 1 && SenderInv(l, s, n) && n + 1 < U64
    ensures SenderInv(l, Act(l, s, a), n + 1)
  {
    match a
    case Begin(data) => BeginKeepsInv(l, s, data, n);
    case WriteChunk => WriteChunkKeepsInv(l, s, n);
    case WriteKeepalive => WriteKeepaliveKeepsInv(l, s, n);
    case _ =>
  }

  lemma {:induction false} SenderRunInv(l: Link, st: Stateless, actions: seq<Action>)
    requires l.chunkSize >= 1 && |actions| < U64
    ensures SenderInv(l, SendAll(l, st, actions), |actions|)
  {
    if actions != [] {
      var n := |actions| - 1;
      SenderRunInv(l, st, actions[..n]);
      ActKeepsInv(l, SendAll(l, st, actions[..n]), actions[n], n);
    }
  }

  // ----- The receiver -----

  /**
   `accepted` are the chunks that the session let into its queue, `pulled` counts those the
   chunker has taken out, and `yielded` is what the calls of `recv` returned.
   */
  datatype Receiver = Receiver(
    session: S.SessionState,
    open: map<nat, Group>,
    done: seq<Bytes>,
    yielded: seq<Bytes>,
    panicked: bool,
    accepted: seq<ChunkedData>,
    pulled: nat)

  datatype Event =
    | Arrive(raw: Option<S.RawMessage>)
    | Recv
    | Close

  function StartReceiving(st: Stateless, seen: set<nat>): Receiver {
    Receiver(S.NewSession(0, st, 0, seen), map[], [], [], false, [], 0)
  }

  /** The chunk in a payload that the session queued, if it is one. */
  function Queued(l: Link, before: seq<Bytes>, after: seq<Bytes>): seq<ChunkedData> {
    if |after| == |before| + 1 && l.chunks.decode(after[|before|]).Some?
    then [l.chunks.decode(after[|before|]).value]
    else []
  }

  function Observe(l: Link, r: Receiver, e: Event): Receiver {
    match e
    case Arrive(raw) =>
      var after := S.Incoming(l.formats, r.session, raw).0;
      r.(session := after, accepted := r.accepted + Queued(l, r.session.inbox.queue, after.inbox.queue))
    case Recv =>
      if r.session.dead then r
      else Returned(r, Receive(l.chunks, r.open, r.done, r.session.inbox.queue))
    case Close => r.(session := r.session.(dead := true))
  }

  /** A call of `recv` that runs out of packets goes on waiting with what it has pulled so far. */
  function Returned(r: Receiver, result: Received): Receiver {
    match result
    case Panicked => r.(panicked := true)
    case Disconnected(open) => Took(r, open, [], [], [])
    case Ready(message, open, done, rest) => Took(r, open, done, [message], rest)
  }

  function Took(r: Receiver, open: map<nat, Group>, done: seq<Bytes>, more: seq<Bytes>, rest: seq<Bytes>): Receiver {
    var taken := if |rest| <= |r.session.inbox.queue| then |r.session.inbox.queue| - |rest| else 0;
    r.(open := open, done := done, yielded := r.yielded + more, pulled := r.pulled + taken,
       session := r.session.(inbox := r.session.inbox.(queue := rest)))
  }

  function ReceiveAll(l: Link, st: Stateless, seen: set<nat>, events: seq<Event>): Receiver {
    if events == [] then StartReceiving(st, seen)
    else Observe(l, ReceiveAll(l, st, seen, events[..|events| - 1]), events[|events| - 1])
  }

  /**
   What the network may deliver: anything at all, except that a ciphertext which opens for the
   receiver is one that the peer wrote under that nonce.
   */
  ghost predicate Admissible(l: Link, st: Stateless, sent: seq<Sent>, e: Event) {
    e.Arrive? && e.raw.Some? && e.raw.value.Encrypted? ==>
      var f := ParseFrame(l.formats.wire, e.raw.value.frame);
      f.Some? && Open(st, f.value.nonce, f.value.cipher, S.BUFFER).Some? ==>
        exists i :: 0 <= i < |sent| && sent[i].nonce == f.value.nonce
                    && sent[i].plaintext == Open(st, f.value.nonce, f.value.cipher, S.BUFFER).value
  }

  /** Where each accepted chunk was sent: `at` is increasing, and the window has moved past all of it. */
  ghost predicate Traced(sent: seq<Sent>, accepted: seq<ChunkedData>, at: seq<nat>, seen: set<nat>) {
    && |at| == |accepted|
    && Increasing(at)
    && |seen| <= 1
    && forall k :: 0 <= k < |at| ==>
         at[k] < |sent| && sent[at[k]].chunk == Some(accepted[k])
         && exists m :: m in seen && sent[at[k]].nonce <= m
  }

  ghost predicate Follows(l: Link, r: Receiver) {
    && !r.panicked
    && r.pulled <= |r.accepted|
    && Decodes(l.chunks, r.session.inbox.queue, r.accepted[r.pulled..])
    && FedTo(r.accepted[..r.pulled], r.open, r.yielded + r.done)
  }

  // ----- One arrival -----

  lemma DecryptStep(l: Link, st: Stateless, sent: seq<Sent>, seen: set<nat>, frame: Bytes)
    returns (i: nat, later: set<nat>)
    requires l.Readable() && |seen| <= 1
    requires Admissible(l, st, sent, Arrive(Some(S.Encrypted(frame))))
    ensures later == S.Decrypt(l.formats, st, seen, frame).0
    ensures |later| <= 1 && forall m :: m in seen ==> exists k :: k in later && m <= k
    ensures S.Decrypt(l.formats, st, seen, frame).1.Some? ==>
              && i < |sent| && S.Decrypt(l.formats, st, seen, frame).1 == l.formats.message.decode(sent[i].plaintext)
              && later == {sent[i].nonce} && forall m :: m in seen ==> m < sent[i].nonce
  {
    i, later := 0, seen;
    var f := ParseFrame(l.formats.wire, frame);
    if f.Some? {
      SizeOneOffer(seen, f.value.nonce);
      later := Offer(seen, 1, f.value.nonce);
      var plain := Open(st, f.value.nonce, f.value.cipher, S.BUFFER);
      if plain.Some? {
        i :| 0 <= i < |sent| && sent[i].nonce == f.value.nonce && sent[i].plaintext == plain.value;
      }
    }
  }

  lemma NewerIsLater(sent: seq<Sent>, next: nat, a: nat, b: nat)
    requires NoncesGrow(sent, next) && a < |sent| && b < |sent| && sent[a].nonce < sent[b].nonce
    ensures a < b
  {
  }

  /** Positions of accepted frames only grow: a newer nonce was written later. */
  lemma TracedSnoc(sent: seq<Sent>, accepted: seq<ChunkedData>, at: seq<nat>, seen: set<nat>, i: nat, c: ChunkedData,
                   next: nat)
    requires NoncesGrow(sent, next) && Traced(sent, accepted, at, seen)
    requires i < |sent| && sent[i].chunk == Some(c) && forall m :: m in seen ==> m < sent[i].nonce
    ensures Traced(sent, accepted + [c], at + [i], {sent[i].nonce})
  {
    forall k | 0 <= k < |at| ensures at[k] < i && sent[at[k]].nonce <= sent[i].nonce {
      NewerIsLater(sent, next, at[k], i);
    }
    forall x | x in at ensures x < i {
    }
    IncreasingSnoc(at, i);
  }

  lemma TracedLater(sent: seq<Sent>, accepted: seq<ChunkedData>, at: seq<nat>, seen: set<nat>, later: set<nat>)
    requires Traced(sent, accepted, at, seen) && |later| <= 1
    requires forall m :: m in seen ==> exists k :: k in later && m <= k
    ensures Traced(sent, accepted, at, later)
  {
    forall k | 0 <= k < |at| ensures exists m :: m in later && sent[at[k]].nonce <= m {
      var m :| m in seen && sent[at[k]].nonce <= m;
      var m' :| m' in later && m <= m';
    }
  }

  lemma PayloadDecodes(l: Link, c: ChunkedData)
    requires l.Readable()
    ensures l.formats.message.decode(l.formats.message.encode(S.Payload(l.chunks.encode(c)))) == Some(S.Payload(l.chunks.encode(c)))
    ensures l.formats.message.decode(l.formats.message.encode(S.Keepalive)) == Some(S.Keepalive)
    ensures l.chunks.decode(l.chunks.encode(c)) == Some(c)
  {
  }

  predicate Unchanged(r: Receiver, t: Receiver) {
    t.accepted == r.accepted && t.session.inbox.queue == r.session.inbox.queue
  }

  predicate GrewBy(l: Link, r: Receiver, t: Receiver, c: ChunkedData) {
    t.accepted == r.accepted + [c] && t.session.inbox.queue == r.session.inbox.queue + [l.chunks.encode(c)]
  }

  /** A frame that brings no payload leaves the queue alone. */
  lemma QuietArrival(l: Link, r: Receiver, frame: Bytes)
    ensures var t := Observe(l, r, Arrive(Some(S.Encrypted(frame))));
            var (seen, message) := S.Decrypt(l.formats, r.session.stateless, r.session.seen, frame);
            && t.session.seen == seen && t.session.stateless == r.session.stateless
            && (message.None? || message.value.Keepalive? ==> Unchanged(r, t))
  {
  }

  lemma ChunkArrival(l: Link, r: Receiver, frame: Bytes, c: ChunkedData)
    requires l.Readable()
    requires S.Decrypt(l.formats, r.session.stateless, r.session.seen, frame).1 == Some(S.Payload(l.chunks.encode(c)))
    ensures GrewBy(l, r, Observe(l, r, Arrive(Some(S.Encrypted(frame)))), c)
  {
    PayloadDecodes(l, c);
  }

  /** What an arrival adds: nothing, or the chunk of a frame newer than all accepted before. */
  lemma ArriveStep(l: Link, st: Stateless, plan: Plan, sent: seq<Sent>, next: nat, r: Receiver, frame: Bytes, at: seq<nat>)
    returns (at': seq<nat>)
    requires l.Readable() && AllLabelled(l, plan, sent) && NoncesGrow(sent, next)
    requires Admissible(l, st, sent, Arrive(Some(S.Encrypted(frame)))) && r.session.stateless == st
    requires Traced(sent, r.accepted, at, r.session.seen)
    ensures var t := Observe(l, r, Arrive(Some(S.Encrypted(frame))));
            && t.session.stateless == st
            && Traced(sent, t.accepted, at', t.session.seen)
            && (Unchanged(r, t) || exists c :: GrewBy(l, r, t, c))
  {
    var t := Observe(l, r, Arrive(Some(S.Encrypted(frame))));
    QuietArrival(l, r, frame);
    var i, later := DecryptStep(l, st, sent, r.session.seen, frame);
    var message := S.Decrypt(l.formats, st, r.session.seen, frame).1;
    if message.None? {
      TracedLater(sent, r.accepted, at, r.session.seen, later);
      at' := at;
    } else {
      assert Labelled(l, plan, sent[i]);
      if sent[i].chunk.None? {
        PayloadDecodes(l, ChunkedData(0, 0, 0, []));
        TracedLater(sent, r.accepted, at, r.session.seen, later);
        at' := at;
      } else {
        var c := sent[i].chunk.value;
        PayloadDecodes(l, c);
        ChunkArrival(l, r, frame, c);
        TracedSnoc(sent, r.accepted, at, r.session.seen, i, c, next);
        at' := at + [i];
      }
    }
  }

  /** Accepted chunks are genuine and in the order in which they were made. */
  lemma TracedInOrder(l: Link, plan: Plan, sent: seq<Sent>, accepted: seq<ChunkedData>, at: seq<nat>, seen: set<nat>)
    requires AllLabelled(l, plan, sent) && ChunksGrow(sent) && Traced(sent, accepted, at, seen)
    ensures AllGenuine(plan, accepted) && InOrder(accepted)
  {
    forall c | c in accepted ensures Genuine(plan, c) {
      var k :| 0 <= k < |accepted| && accepted[k] == c;
      assert Labelled(l, plan, sent[at[k]]);
    }
  }

  // ----- The chunker over the session -----

  lemma GrewFollows(l: Link, r: Receiver, t: Receiver, c: ChunkedData)
    requires l.Readable() && Follows(l, r) && GrewBy(l, r, t, c)
    requires t.open == r.open && t.done == r.done && t.yielded == r.yielded && t.panicked == r.panicked && t.pulled == r.pulled
    ensures Follows(l, t)
  {
    assert t.accepted[..t.pulled] == r.accepted[..r.pulled];
    assert t.accepted[t.pulled..] == r.accepted[r.pulled..] + [c];
  }

  lemma RecvResult(l: Link, plan: Plan, r: Receiver) returns (result: Received)
    requires l.Readable() && Follows(l, r) && AllGenuine(plan, r.accepted) && NoDuplicates(r.accepted)
    ensures result == Receive(l.chunks, r.open, r.done, r.session.inbox.queue)
    ensures FollowsFeed(r.accepted[..r.pulled], r.yielded, r.session.inbox.queue, r.accepted[r.pulled..], result)
  {
    var history, cs := r.accepted[..r.pulled], r.accepted[r.pulled..];
    assert history + cs == r.accepted;
    ReassemblySafe(plan, r.accepted);
    ReceiveFollowsFeed(l.chunks, history, r.yielded, r.done, r.session.inbox.queue, cs);
    result := Receive(l.chunks, r.open, r.done, r.session.inbox.queue);
  }

  lemma RecvFollows(l: Link, r: Receiver, result: Received)
    requires Follows(l, r)
    requires FollowsFeed(r.accepted[..r.pulled], r.yielded, r.session.inbox.queue, r.accepted[r.pulled..], result)
    ensures Follows(l, Returned(r, result))
  {
    match result
    case Disconnected(open) =>
      assert r.accepted[r.pulled..] == r.accepted[r.pulled..][..|r.session.inbox.queue|];
      assert r.yielded + [] + [] == r.yielded;
      TookFollows(l, r, open, [], [], []);
    case Ready(message, open, done, rest) =>
      TookFollows(l, r, open, done, [message], rest);
    case Panicked =>
  }

  lemma TakeMore<T>(s: seq<T>, p: nat, k: nat)
    requires p + k <= |s|
    ensures s[..p + k] == s[..p] + s[p..][..k] && s[p + k..] == s[p..][k..]
  {
  }

  lemma TookFollows(l: Link, r: Receiver, open: map<nat, Group>, done: seq<Bytes>, more: seq<Bytes>, rest: seq<Bytes>)
    requires Follows(l, r)
    requires |rest| <= |r.session.inbox.queue| && rest == r.session.inbox.queue[|r.session.inbox.queue| - |rest|..]
    requires FedTo(r.accepted[..r.pulled] + r.accepted[r.pulled..][..|r.session.inbox.queue| - |rest|], open,
                   r.yielded + more + done)
    ensures Follows(l, Took(r, open, done, more, rest))
  {
    var t := Took(r, open, done, more, rest);
    var k := |r.session.inbox.queue| - |rest|;
    TakeMore(r.accepted, r.pulled, k);
    assert t.yielded + t.done == r.yielded + more + done;
  }

  ghost predicate ReceiverInv(l: Link, st: Stateless, sent: seq<Sent>, r: Receiver) {
    && r.session.stateless == st
    && Follows(l, r)
    && exists at :: Traced(sent, r.accepted, at, r.session.seen)
  }

  lemma ArriveKeepsInv(l: Link, st: Stateless, plan: Plan, sent: seq<Sent>, next: nat, r: Receiver, raw: Option<S.RawMessage>)
    requires l.Readable() && AllLabelled(l, plan, sent) && NoncesGrow(sent, next) && ChunksGrow(sent)
    requires ReceiverInv(l, st, sent, r) && Admissible(l, st, sent, Arrive(raw))
    ensures ReceiverInv(l, st, sent, Observe(l, r, Arrive(raw)))
  {
    if raw.Some? && raw.value.Encrypted? {
      var at :| Traced(sent, r.accepted, at, r.session.seen);
      var at' := ArriveStep(l, st, plan, sent, next, r, raw.value.frame, at);
      var t := Observe(l, r, Arrive(raw));
      if !Unchanged(r, t) {
        var c :| GrewBy(l, r, t, c);
        GrewFollows(l, r, t, c);
      }
    } else {
      assert Observe(l, r, Arrive(raw)).accepted == r.accepted;
    }
  }

  lemma {:induction false} ReceiverRunInv(l: Link, st: Stateless, plan: Plan, sent: seq<Sent>, next: nat, seen: set<nat>,
                                          events: seq<Event>)
    requires l.Readable() && AllLabelled(l, plan, sent) && NoncesGrow(sent, next) && ChunksGrow(sent)
    requires |seen| <= 1 && forall e :: e in events ==> Admissible(l, st, sent, e)
    ensures ReceiverInv(l, st, sent, ReceiveAll(l, st, seen, events))
  {
    if events == [] {
      assert Traced(sent, [], [], seen);
      assert FedTo([], map[], []);
    } else {
      var n := |events| - 1;
      assert events[n] in events;
      ReceiverRunInv(l, st, plan, sent, next, seen, events[..n]);
      ObserveKeepsInv(l, st, plan, sent, next, ReceiveAll(l, st, seen, events[..n]), events[n]);
    }
  }

  lemma ObserveKeepsInv(l: Link, st: Stateless, plan: Plan, sent: seq<Sent>, next: nat, r: Receiver, e: Event)
    requires l.Readable() && AllLabelled(l, plan, sent) && NoncesGrow(sent, next) && ChunksGrow(sent)
    requires ReceiverInv(l, st, sent, r) && Admissible(l, st, sent, e)
    ensures ReceiverInv(l, st, sent, Observe(l, r, e))
  {
    match e
    case Arrive(raw) => ArriveKeepsInv(l, st, plan, sent, next, r, raw);
    case Recv =>
      var at :| Traced(sent, r.accepted, at, r.session.seen);
      TracedInOrder(l, plan, sent, r.accepted, at, r.session.seen);
      InOrderFinishes(plan, r.accepted);
      if !r.session.dead {
        var result := RecvResult(l, plan, r);
        RecvFollows(l, r, result);
      }
    case Close =>
  }

  // ----- What should come out -----

  /** The non-empty messages all of whose chunks are among these, in the order they were sent. */
  ghost function Expected(plan: Plan, messages: seq<Bytes>, cs: seq<ChunkedData>): seq<Bytes>
    requires |plan| >= |messages|
  {
    if messages == [] then []
    else
      var g := |messages| - 1;
      Expected(plan, messages[..g], cs) + (if messages[g] != [] && Whole(plan, cs, g) then [messages[g]] else [])
  }

  /** Their numbers. */
  ghost function ExpectedGroups(plan: Plan, cs: seq<ChunkedData>, n: nat): (r: seq<nat>)
    requires n <= |plan|
    ensures forall i :: 0 <= i < |r| ==> r[i] < n
  {
    if n == 0 then []
    else ExpectedGroups(plan, cs, n - 1) + (if plan[n - 1] != [] && Whole(plan, cs, n - 1) then [n - 1] else [])
  }

  lemma {:induction false} ExpectedGroupsAscend(plan: Plan, cs: seq<ChunkedData>, n: nat)
    requires n <= |plan|
    ensures Increasing(ExpectedGroups(plan, cs, n))
    ensures forall g: nat :: g in ExpectedGroups(plan, cs, n) <==> g < n && plan[g] != [] && Whole(plan, cs, g)
  {
    if n > 0 {
      ExpectedGroupsAscend(plan, cs, n - 1);
      if plan[n - 1] != [] && Whole(plan, cs, n - 1) {
        IncreasingSnoc(ExpectedGroups(plan, cs, n - 1), n - 1);
      }
    }
  }

  function Pick(messages: seq<Bytes>, groups: seq<nat>): (r: seq<Bytes>)
    requires forall i :: 0 <= i < |groups| ==> groups[i] < |messages|
    ensures |r| == |groups| && forall i :: 0 <= i < |r| ==> r[i] == messages[groups[i]]
  {
    seq(|groups|, i requires 0 <= i < |groups| => messages[groups[i]])
  }

  lemma PickAppend(messages: seq<Bytes>, a: seq<nat>, b: seq<nat>)
    requires forall i :: 0 <= i < |a| ==> a[i] < |messages|
    requires forall i :: 0 <= i < |b| ==> b[i] < |messages|
    ensures forall i :: 0 <= i < |a + b| ==> (a + b)[i] < |messages|
    ensures Pick(messages, a + b) == Pick(messages, a) + Pick(messages, b)
  {
  }

  lemma {:induction false} ExpectedIsPick(plan: Plan, messages: seq<Bytes>, cs: seq<ChunkedData>, n: nat)
    requires n <= |messages| == |plan| && forall g :: 0 <= g < |plan| ==> (plan[g] == [] <==> messages[g] == [])
    ensures Expected(plan, messages[..n], cs) == Pick(messages, ExpectedGroups(plan, cs, n))
  {
    if n > 0 {
      ExpectedIsPick(plan, messages, cs, n - 1);
      assert messages[..n][..n - 1] == messages[..n - 1];
      var more := if messages[n - 1] != [] && Whole(plan, cs, n - 1) then [n - 1] else [];
      PickAppend(messages, ExpectedGroups(plan, cs, n - 1), more);
    }
  }

  /** In order, the groups that finish are the expected ones. */
  lemma InOrderFinishesExpected(plan: Plan, cs: seq<ChunkedData>)
    requires AllGenuine(plan, cs) && InOrder(cs)
    ensures Finished(plan, cs) == ExpectedGroups(plan, cs, |plan|)
  {
    InOrderFinishes(plan, cs);
    ExpectedGroupsAscend(plan, cs, |plan|);
    forall g: nat ensures g in Finished(plan, cs) <==> g in ExpectedGroups(plan, cs, |plan|) {
      FinishedIffWhole(plan, cs, g);
    }
    IncreasingUnique(Finished(plan, cs), ExpectedGroups(plan, cs, |plan|));
  }

  /** In order, the outputs of reassembly are the expected messages. */
  lemma InOrderYieldsExpected(size: nat, messages: seq<Bytes>, cs: seq<ChunkedData>)
    requires size >= 1 && AllGenuine(PlanOf(messages, size), cs) && InOrder(cs)
    ensures Feed(cs).Next? && Payloads(Feed(cs).out) == Expected(PlanOf(messages, size), messages, cs)
  {
    var plan := PlanOf(messages, size);
    InOrderFinishes(plan, cs);
    InOrderFinishesExpected(plan, cs);
    InOrderIsUncrowded(plan, cs);
    ReassemblyComplete(plan, cs);
    ExpectedIsPick(plan, messages, cs, |messages|);
    assert messages[..|messages|] == messages;
    var out := Feed(cs).out;
    forall i | 0 <= i < |out| ensures out[i].data == messages[Groups(out)[i]] {
      JoinSplit(messages[out[i].group], size);
    }
  }

  lemma PulledInOrder(l: Link, plan: Plan, st: Stateless, sent: seq<Sent>, r: Receiver)
    requires AllLabelled(l, plan, sent) && ChunksGrow(sent) && ReceiverInv(l, st, sent, r)
    ensures AllGenuine(plan, r.accepted[..r.pulled]) && InOrder(r.accepted[..r.pulled])
  {
    var at :| Traced(sent, r.accepted, at, r.session.seen);
    TracedInOrder(l, plan, sent, r.accepted, at, r.session.seen);
    forall c | c in r.accepted[..r.pulled] ensures c in r.accepted {
    }
  }

  /**
   End to end. For every schedule of sequential sends and keepalives and every network: nothing
   panics, and what `recv` has handed over, with what it has ready, is exactly the subsequence,
   in send order, of the non-empty messages all of whose chunks the session accepted and the
   chunker took from it, each once and unchanged.
   */
  lemma {:induction false} EndToEnd(l: Link, writer: Stateless, actions: seq<Action>, reader: Stateless, seen: set<nat>, events: seq<Event>)
    requires l.Readable() && |actions| < U64 && |seen| <= 1
    requires forall e :: e in events ==> Admissible(l, reader, SendAll(l, writer, actions).sent, e)
    ensures var s := SendAll(l, writer, actions);
            var r := ReceiveAll(l, reader, seen, events);
            && !r.panicked
            && r.pulled + |r.session.inbox.queue| == |r.accepted|
            && r.yielded + r.done == Expected(PlanOf(s.messages, l.chunkSize), s.messages, r.accepted[..r.pulled])
  {
    var s := SendAll(l, writer, actions);
    var r := ReceiveAll(l, reader, seen, events);
    var plan := PlanOf(s.messages, l.chunkSize);
    SenderRunInv(l, writer, actions);
    ReceiverRunInv(l, reader, plan, s.sent, s.session.nextNonce, seen, events);
    PulledInOrder(l, plan, reader, s.sent, r);
    InOrderYieldsExpected(l.chunkSize, s.messages, r.accepted[..r.pulled]);
  }

  // ----- A network that delivers everything in order -----

  /** The arrival of a packet, as the receiving handler decodes it. */
  function Delivery(l: Link, packet: S.SessionPacket): Event {
    Arrive(l.formats.raw.decode(packet.data))
  }

  function InOrderEvents(l: Link, packets: seq<S.SessionPacket>): (events: seq<Event>)
    ensures |events| == |packets|
    ensures forall i :: 0 <= i < |packets| ==> events[i] == Delivery(l, packets[i])
  {
    seq(|packets|, i requires 0 <= i < |packets| => Delivery(l, packets[i]))
  }

  function SentChunks(sent: seq<Sent>): seq<ChunkedData> {
    if sent == [] then []
    else
      SentChunks(sent[..|sent| - 1])
        + (if sent[|sent| - 1].chunk.Some? then [sent[|sent| - 1].chunk.value] else [])
  }

  /** The packet carries, in the envelope of the session, the frame of what is on record. */
  ghost predicate Carries(l: Link, st: Stateless, packet: S.SessionPacket, x: Sent) {
    && packet == S.SessionPacket(l.id, l.formats.raw.encode(S.Encrypted(Packet(l.formats.wire, st, x.nonce, x.plaintext))))
    && Fits(l.formats.wire, st, x.nonce, x.plaintext, S.BUFFER)
  }

  /** Every outgoing packet carries the frame of its record. */
  lemma {:induction false} AllWritten(l: Link, st: Stateless, actions: seq<Action>)
    requires l.chunkSize >= 1
    ensures var s := SendAll(l, st, actions);
            && s.session.stateless == st && |s.outgoing| == |s.sent|
            && forall i :: 0 <= i < |s.sent| ==> Carries(l, st, s.outgoing[i], s.sent[i])
  {
    if actions != [] {
      AllWritten(l, st, actions[..|actions| - 1]);
    }
  }

  lemma CarriedDecodes(l: Link, st: Stateless, packet: S.SessionPacket, x: Sent)
    requires l.Valid() && Carries(l, st, packet, x)
    ensures Delivery(l, packet) == Arrive(Some(S.Encrypted(Packet(l.formats.wire, st, x.nonce, x.plaintext))))
    ensures |x.plaintext| <= S.BUFFER
  {
  }

  /** A frame newer than the window reaches the session whole. */
  lemma FrameArrives(l: Link, writer: Stateless, r: Receiver, x: Sent, plan: Plan)
    requires l.Valid() && Labelled(l, plan, x) && |x.plaintext| <= S.BUFFER
    requires r.session.stateless == Stateless(writer.key, Peer(writer.role))
    requires |r.session.seen| <= 1 && forall m :: m in r.session.seen ==> m < x.nonce
    ensures var frame := Packet(l.formats.wire, writer, x.nonce, x.plaintext);
            var t := Observe(l, r, Arrive(Some(S.Encrypted(frame))));
            && t.session.seen == {x.nonce} && t.session.stateless == r.session.stateless
            && if x.chunk.Some? then t.accepted == r.accepted + [x.chunk.value] else t.accepted == r.accepted
  {
    var frame := Packet(l.formats.wire, writer, x.nonce, x.plaintext);
    PacketParses(l.formats.wire, writer, x.nonce, x.plaintext);
    SizeOneOffer(r.session.seen, x.nonce);
    PayloadDecodes(l, if x.chunk.Some? then x.chunk.value else ChunkedData(0, 0, 0, []));
    QuietArrival(l, r, frame);
    if x.chunk.Some? {
      ChunkArrival(l, r, frame, x.chunk.value);
    }
  }

  ghost predicate TookIn(r: Receiver, t: Receiver, x: Sent) {
    && t.session.seen == {x.nonce} && t.session.stateless == r.session.stateless
    && t.accepted == r.accepted + (if x.chunk.Some? then [x.chunk.value] else [])
  }

  lemma PacketArrives(l: Link, writer: Stateless, plan: Plan, r: Receiver, packet: S.SessionPacket, x: Sent)
    requires l.Valid() && Labelled(l, plan, x) && Carries(l, writer, packet, x)
    requires r.session.stateless == Stateless(writer.key, Peer(writer.role))
    requires |r.session.seen| <= 1 && forall m :: m in r.session.seen ==> m < x.nonce
    ensures TookIn(r, Observe(l, r, Delivery(l, packet)), x)
  {
    CarriedDecodes(l, writer, packet, x);
    FrameArrives(l, writer, r, x, plan);
  }

  lemma InOrderEventsSnoc(l: Link, packets: seq<S.SessionPacket>)
    requires packets != []
    ensures InOrderEvents(l, packets) == InOrderEvents(l, packets[..|packets| - 1]) + [Delivery(l, packets[|packets| - 1])]
  {
  }

  lemma {:induction false} FifoStep(l: Link, writer: Stateless, plan: Plan, packets: seq<S.SessionPacket>, sent: seq<Sent>,
                                    next: nat)
    requires l.Valid() && AllLabelled(l, plan, sent) && NoncesGrow(sent, next) && |packets| == |sent|
    requires forall i :: 0 <= i < |sent| ==> Carries(l, writer, packets[i], sent[i])
    ensures var r := ReceiveAll(l, Stateless(writer.key, Peer(writer.role)), {}, InOrderEvents(l, packets));
            && r.session.stateless == Stateless(writer.key, Peer(writer.role))
            && r.session.seen == (if sent == [] then {} else {sent[|sent| - 1].nonce})
            && r.accepted == SentChunks(sent)
  {
    if sent != [] {
      var n := |sent| - 1;
      var reader := Stateless(writer.key, Peer(writer.role));
      FifoStep(l, writer, plan, packets[..n], sent[..n], next);
      InOrderEventsSnoc(l, packets);
      ReceiveSnoc(l, reader, {}, InOrderEvents(l, packets[..n]), Delivery(l, packets[n]));
      assert Labelled(l, plan, sent[n]);
      PacketArrives(l, writer, plan, ReceiveAll(l, reader, {}, InOrderEvents(l, packets[..n])), packets[n], sent[n]);
    }
  }

  /** When the network delivers every packet in order to the matching peer, every chunk is accepted. */
  lemma {:induction false} FifoDeliversAll(l: Link, writer: Stateless, actions: seq<Action>)
    requires l.Valid() && |actions| < U64
    ensures var s := SendAll(l, writer, actions);
            ReceiveAll(l, Stateless(writer.key, Peer(writer.role)), {}, InOrderEvents(l, s.outgoing)).accepted
            == SentChunks(s.sent)
  {
    var s := SendAll(l, writer, actions);
    SenderRunInv(l, writer, actions);
    AllWritten(l, writer, actions);
    FifoStep(l, writer, PlanOf(s.messages, l.chunkSize), s.outgoing, s.sent, s.session.nextNonce);
  }

  // ----- A network that loses, repeats and reorders -----

  /** Whatever of the outgoing packets the network delivers, and however often, is admissible. */
  lemma DeliveryIsAdmissible(l: Link, writer: Stateless, actions: seq<Action>, e: Event)
    requires l.Valid() && (e.Arrive? ==> exists p :: p in SendAll(l, writer, actions).outgoing && e == Delivery(l, p))
    ensures Admissible(l, Stateless(writer.key, Peer(writer.role)), SendAll(l, writer, actions).sent, e)
  {
    if e.Arrive? {
      var s := SendAll(l, writer, actions);
      AllWritten(l, writer, actions);
      var p :| p in s.outgoing && e == Delivery(l, p);
      var i :| 0 <= i < |s.outgoing| && s.outgoing[i] == p;
      CarriedDecodes(l, writer, p, s.sent[i]);
      PacketParses(l.formats.wire, writer, s.sent[i].nonce, s.sent[i].plaintext);
    }
  }

  /**
   End to end over the outgoing queue: for every schedule of the sender and every network that
   delivers packets of its queue, any of them, in any order, as often as it likes.
   */
  lemma {:induction false} OutgoingToYielded(l: Link, writer: Stateless, actions: seq<Action>, events: seq<Event>)
    requires l.Valid() && |actions| < U64
    requires forall e :: e in events && e.Arrive? ==> exists p :: p in SendAll(l, writer, actions).outgoing && e == Delivery(l, p)
    ensures var s := SendAll(l, writer, actions);
            var r := ReceiveAll(l, Stateless(writer.key, Peer(writer.role)), {}, events);
            && !r.panicked
            && r.pulled + |r.session.inbox.queue| == |r.accepted|
            && r.yielded + r.done == Expected(PlanOf(s.messages, l.chunkSize), s.messages, r.accepted[..r.pulled])
  {
    forall e | e in events
      ensures Admissible(l, Stateless(writer.key, Peer(writer.role)), SendAll(l, writer, actions).sent, e)
    {
      DeliveryIsAdmissible(l, writer, actions, e);
    }
    EndToEnd(l, writer, actions, Stateless(writer.key, Peer(writer.role)), {}, events);
  }

  // ----- Receiving until nothing is left -----

  function Recvs(k: nat): (events: seq<Event>)
    ensures |events| == k && forall i :: 0 <= i < k ==> events[i] == Recv
  {
    seq(k, _ => Recv)
  }

  predicate Drained(r: Receiver) {
    r.session.inbox.queue == [] && r.done == []
  }

  /** A call of `recv` that does not panic yields one message, or takes everything there is. */
  lemma RecvYieldsOrDrains(l: Link, r: Receiver)
    requires !r.session.dead && !Observe(l, r, Recv).panicked
    ensures var t := Observe(l, r, Recv);
            && t.accepted == r.accepted && t.session.dead == r.session.dead
            && |t.yielded| >= |r.yielded|
            && (|t.yielded| == |r.yielded| + 1 || Drained(t))
            && (Drained(r) ==> Drained(t))
  {
  }

  lemma ReceiveSnoc(l: Link, st: Stateless, seen: set<nat>, events: seq<Event>, e: Event)
    ensures ReceiveAll(l, st, seen, events + [e]) == Observe(l, ReceiveAll(l, st, seen, events), e)
  {
    assert (events + [e])[..|events|] == events;
  }

  lemma RecvsSnoc(events: seq<Event>, k: nat)
    ensures events + Recvs(k + 1) == events + Recvs(k) + [Recv]
  {
  }

  lemma NoPanic(l: Link, st: Stateless, plan: Plan, sent: seq<Sent>, next: nat, seen: set<nat>, events: seq<Event>, k: nat)
    requires l.Readable() && AllLabelled(l, plan, sent) && NoncesGrow(sent, next) && ChunksGrow(sent)
    requires |seen| <= 1 && forall e :: e in events ==> Admissible(l, st, sent, e)
    ensures !ReceiveAll(l, st, seen, events + Recvs(k)).panicked
  {
    ReceiverRunInv(l, st, plan, sent, next, seen, events + Recvs(k));
  }

  /** After k calls the session is as live as before, and they have yielded k messages or drained it. */
  ghost predicate YieldedOrDrained(l: Link, st: Stateless, seen: set<nat>, events: seq<Event>, k: nat) {
    var r := ReceiveAll(l, st, seen, events + Recvs(k));
    && !r.session.dead && r.accepted == ReceiveAll(l, st, seen, events).accepted
    && (|r.yielded| >= k || Drained(r))
  }

  lemma YieldOrDrainMore(l: Link, st: Stateless, seen: set<nat>, events: seq<Event>, k: nat)
    requires YieldedOrDrained(l, st, seen, events, k)
    requires !ReceiveAll(l, st, seen, events + Recvs(k + 1)).panicked
    ensures YieldedOrDrained(l, st, seen, events, k + 1)
  {
    var r := ReceiveAll(l, st, seen, events + Recvs(k));
    RecvsSnoc(events, k);
    ReceiveSnoc(l, st, seen, events + Recvs(k), Recv);
    RecvYieldsOrDrains(l, r);
  }

  lemma {:induction false} RecvsDrain(l: Link, st: Stateless, plan: Plan, sent: seq<Sent>, next: nat, seen: set<nat>,
                                      events: seq<Event>, k: nat)
    requires l.Readable() && AllLabelled(l, plan, sent) && NoncesGrow(sent, next) && ChunksGrow(sent)
    requires |seen| <= 1 && forall e :: e in events ==> Admissible(l, st, sent, e)
    requires !ReceiveAll(l, st, seen, events).session.dead
    ensures YieldedOrDrained(l, st, seen, events, k)
  {
    if k == 0 {
      assert events + Recvs(0) == events;
    } else {
      RecvsDrain(l, st, plan, sent, next, seen, events, k - 1);
      NoPanic(l, st, plan, sent, next, seen, events, k);
      YieldOrDrainMore(l, st, seen, events, k - 1);
    }
  }

  lemma {:induction false} ExpectedSize(plan: Plan, messages: seq<Bytes>, cs: seq<ChunkedData>)
    requires |plan| >= |messages|
    ensures |Expected(plan, messages, cs)| <= |messages|
  {
    if messages != [] {
      ExpectedSize(plan, messages[..|messages| - 1], cs);
    }
  }

  lemma DrainedYieldsAll(plan: Plan, messages: seq<Bytes>, r: Receiver, k: nat)
    requires |plan| >= |messages| && r.pulled + |r.session.inbox.queue| == |r.accepted|
    requires r.yielded + r.done == Expected(plan, messages, r.accepted[..r.pulled])
    requires |r.yielded| >= k > |messages| || Drained(r)
    ensures r.yielded == Expected(plan, messages, r.accepted)
  {
    ExpectedSize(plan, messages, r.accepted[..r.pulled]);
    assert |r.yielded| <= |r.yielded + r.done|;
    assert r.accepted[..|r.accepted|] == r.accepted;
    assert r.yielded + [] == r.yielded;
  }

  /** A live session loses nothing that it accepted: enough calls of `recv` yield all of it. */
  lemma {:induction false} RecvYieldsAllAccepted(l: Link, writer: Stateless, actions: seq<Action>, reader: Stateless, seen: set<nat>,
                                                 events: seq<Event>, k: nat)
    requires l.Readable() && |actions| < U64 && |seen| <= 1
    requires forall e :: e in events ==> Admissible(l, reader, SendAll(l, writer, actions).sent, e)
    requires !ReceiveAll(l, reader, seen, events).session.dead && k > |SendAll(l, writer, actions).messages|
    ensures var s := SendAll(l, writer, actions);
            ReceiveAll(l, reader, seen, events + Recvs(k)).yielded
            == Expected(PlanOf(s.messages, l.chunkSize), s.messages, ReceiveAll(l, reader, seen, events).accepted)
  {
    var s := SendAll(l, writer, actions);
    var plan := PlanOf(s.messages, l.chunkSize);
    var r := ReceiveAll(l, reader, seen, events + Recvs(k));
    SenderRunInv(l, writer, actions);
    RecvsDrain(l, reader, plan, s.sent, s.session.nextNonce, seen, events, k);
    assert |r.yielded| >= k || Drained(r);
    EndToEnd(l, writer, actions, reader, seen, events + Recvs(k));
    DrainedYieldsAll(plan, s.messages, r, k);
  }

  // ----- Nothing is lost on the way -----

  /** The step is not one in which the current call of `send` gives up or fails. */
  predicate Smooth(l: Link, s: Sender, a: Action) {
    match a
    case WriteChunk =>
      s.pending != [] ==>
        !s.session.dead && S.Write(l.formats, s.session, S.Payload(l.chunks.encode(s.pending[0]))).1.Out?
    case GiveUp => s.pending == []
    case _ => true
  }

  ghost predicate AllSmooth(l: Link, st: Stateless, actions: seq<Action>)
    requires l.chunkSize >= 1
  {
    forall n :: 0 <= n < |actions| ==> Smooth(l, SendAll(l, st, actions[..n]), actions[n])
  }

  /** Every chunk of every message was written or is still to be. */
  ghost predicate Handed(plan: Plan, s: Sender) {
    forall g, i :: 0 <= g < |plan| && 0 <= i < |plan[g]| ==>
      ChunkOf(g, plan[g], i) in SentChunks(s.sent) || ChunkOf(g, plan[g], i) in s.pending
  }

  lemma SentChunksSnoc(sent: seq<Sent>, x: Sent)
    ensures SentChunks(sent + [x]) == SentChunks(sent) + (if x.chunk.Some? then [x.chunk.value] else [])
  {
    assert (sent + [x])[..|sent|] == sent;
  }

  lemma BeginHands(l: Link, s: Sender, data: Bytes)
    requires l.chunkSize >= 1 && Handed(PlanOf(s.messages, l.chunkSize), s)
    requires s.pending == [] ==> s.currentGroup == |s.messages|
    ensures var t := Act(l, s, Begin(data)); Handed(PlanOf(t.messages, l.chunkSize), t)
  {
    var t := Act(l, s, Begin(data));
    if s.pending == [] {
      var plan, before := PlanOf(t.messages, l.chunkSize), PlanOf(s.messages, l.chunkSize);
      forall g, i | 0 <= g < |plan| && 0 <= i < |plan[g]|
        ensures ChunkOf(g, plan[g], i) in SentChunks(t.sent) || ChunkOf(g, plan[g], i) in t.pending
      {
        if g < |before| {
          assert plan[g] == before[g];
        } else {
          assert t.pending[i] == ChunkOf(g, plan[g], i);
        }
      }
    }
  }

  lemma WriteHands(l: Link, s: Sender, plan: Plan, a: Action)
    requires l.chunkSize >= 1 && Handed(plan, s) && Smooth(l, s, a) && !a.Begin?
    ensures Handed(plan, Act(l, s, a))
  {
    var t := Act(l, s, a);
    if t.sent != s.sent {
      SentChunksSnoc(s.sent, t.sent[|t.sent| - 1]);
      assert t.sent == s.sent + [t.sent[|t.sent| - 1]];
    }
    forall c | c in SentChunks(s.sent) || c in s.pending ensures c in SentChunks(t.sent) || c in t.pending {
      if a.WriteChunk? && s.pending != [] {
        assert c in s.pending ==> c == s.pending[0] || c in s.pending[1..];
      }
    }
  }

  lemma {:induction false} SmoothHandsAll(l: Link, st: Stateless, actions: seq<Action>)
    requires l.chunkSize >= 1 && |actions| < U64 && AllSmooth(l, st, actions)
    ensures var s := SendAll(l, st, actions); Handed(PlanOf(s.messages, l.chunkSize), s)
  {
    if actions != [] {
      var n := |actions| - 1;
      var s := SendAll(l, st, actions[..n]);
      forall m | 0 <= m < n ensures Smooth(l, SendAll(l, st, actions[..n][..m]), actions[..n][m]) {
        assert actions[..n][..m] == actions[..m];
      }
      SmoothHandsAll(l, st, actions[..n]);
      SenderRunInv(l, st, actions[..n]);
      if actions[n].Begin? {
        BeginHands(l, s, actions[n].data);
      } else {
        WriteHands(l, s, PlanOf(s.messages, l.chunkSize), actions[n]);
      }
    }
  }

  function NonEmpty(messages: seq<Bytes>): seq<Bytes> {
    if messages == [] then []
    else NonEmpty(messages[..|messages| - 1]) + (if messages[|messages| - 1] != [] then [messages[|messages| - 1]] else [])
  }

  lemma {:induction false} AllWholeAllExpected(plan: Plan, messages: seq<Bytes>, cs: seq<ChunkedData>)
    requires |plan| >= |messages| && forall g :: 0 <= g < |messages| ==> Whole(plan, cs, g)
    ensures Expected(plan, messages, cs) == NonEmpty(messages)
  {
    if messages != [] {
      AllWholeAllExpected(plan, messages[..|messages| - 1], cs);
    }
  }

  lemma {:induction false} ArrivalsDoNotKill(l: Link, st: Stateless, seen: set<nat>, events: seq<Event>)
    requires forall e :: e in events ==> !e.Close?
    ensures !ReceiveAll(l, st, seen, events).session.dead
  {
    if events != [] {
      ArrivalsDoNotKill(l, st, seen, events[..|events| - 1]);
      assert events[|events| - 1] in events;
    }
  }

  /**
   When the network delivers every frame in order to the matching peer and no write fails, every
   non-empty message comes out, each once, unchanged and in the order sent.
   */
  lemma {:induction false} FifoYieldsEveryMessage(l: Link, writer: Stateless, actions: seq<Action>, k: nat)
    requires l.Valid() && |actions| < U64 && AllSmooth(l, writer, actions)
    requires SendAll(l, writer, actions).pending == [] && k > |SendAll(l, writer, actions).messages|
    ensures var s := SendAll(l, writer, actions);
            ReceiveAll(l, Stateless(writer.key, Peer(writer.role)), {}, InOrderEvents(l, s.outgoing) + Recvs(k)).yielded
            == NonEmpty(s.messages)
  {
    var s := SendAll(l, writer, actions);
    var reader, events := Stateless(writer.key, Peer(writer.role)), InOrderEvents(l, s.outgoing);
    forall e | e in events ensures Admissible(l, reader, s.sent, e) {
      var i :| 0 <= i < |events| && events[i] == e;
      assert s.outgoing[i] in s.outgoing;
      DeliveryIsAdmissible(l, writer, actions, e);
    }
    ArrivalsDoNotKill(l, reader, {}, events);
    FifoDeliversAll(l, writer, actions);
    RecvYieldsAllAccepted(l, writer, actions, reader, {}, events, k);
    SmoothHandsAll(l, writer, actions);
    AllWholeAllExpected(PlanOf(s.messages, l.chunkSize), s.messages, SentChunks(s.sent));
  }
}
