/**
 One group on its own: when collecting it panics, the round trip of a message through any
 permutation of its chunks, and how `recv` follows the arrivals.
 */
module Grouping {
  import opened Common
  import opened Transform
  import opened Reassembly
  import opened Completeness

  // ----- When collecting panics -----

  /** Chunks of one group with this length, all with a slot to go to. */
  predicate OneGroup(g: nat, groupLength: nat, cs: seq<ChunkedData>) {
    forall c :: c in cs ==> c.group == g && c.groupLength == groupLength && c.index < groupLength
  }

  function FillAll(groupLength: nat, cs: seq<ChunkedData>): (r: Group)
    requires forall c :: c in cs ==> c.index < groupLength
    ensures |r.chunks| == r.groupLength == groupLength && r.size == |cs|
  {
    if cs == [] then EmptyGroup(groupLength)
    else
      assert cs[|cs| - 1] in cs;
      Put(FillAll(groupLength, cs[..|cs| - 1]), cs[|cs| - 1])
  }

  function Indices(cs: seq<ChunkedData>): set<nat> {
    if cs == [] then {} else Indices(cs[..|cs| - 1]) + {cs[|cs| - 1].index}
  }

  ghost predicate DistinctIndices(cs: seq<ChunkedData>) {
    forall i, j :: 0 <= i < j < |cs| ==> cs[i].index != cs[j].index
  }

  lemma {:induction false} IndexIn(cs: seq<ChunkedData>, x: nat)
    ensures x in Indices(cs) <==> exists i :: 0 <= i < |cs| && cs[i].index == x
  {
    if cs != [] {
      var before := cs[..|cs| - 1];
      IndexIn(before, x);
      if x in Indices(before) {
        var i :| 0 <= i < |before| && before[i].index == x;
        assert cs[i].index == x;
      }
      if exists i :: 0 <= i < |cs| && cs[i].index == x {
        var i :| 0 <= i < |cs| && cs[i].index == x;
        assert i < |before| ==> before[i].index == x;
      }
    }
  }

  lemma {:induction false} IndicesSize(cs: seq<ChunkedData>)
    ensures |Indices(cs)| <= |cs|
    ensures |Indices(cs)| == |cs| <==> DistinctIndices(cs)
  {
    if cs != [] {
      var before, last := cs[..|cs| - 1], cs[|cs| - 1];
      IndicesSize(before);
      IndexIn(before, last.index);
      assert cs == before + [last];
      if last.index in Indices(before) {
        assert Indices(cs) == Indices(before);
        var i :| 0 <= i < |before| && before[i].index == last.index;
        assert cs[i].index == cs[|before|].index;
      } else {
        assert forall i :: 0 <= i < |before| ==> before[i].index != last.index;
        if DistinctIndices(cs) {
          forall i, j | 0 <= i < j < |before| ensures before[i].index != before[j].index {
            assert cs[i].index != cs[j].index;
          }
        }
      }
    }
  }

  /** `size` counts arrivals; the filled slots are the distinct indexes that arrived. */
  lemma {:induction false} FillAllFills(groupLength: nat, cs: seq<ChunkedData>)
    requires forall c :: c in cs ==> c.index < groupLength
    ensures Filled(FillAll(groupLength, cs).chunks) == Indices(cs)
  {
    if cs != [] {
      var before, last := cs[..|cs| - 1], cs[|cs| - 1];
      assert last in cs;
      FillAllFills(groupLength, before);
    }
  }

  lemma {:induction false} CollectedIffFull(chunks: seq<Option<ChunkedData>>)
    ensures Collected(chunks).Some? <==> forall i :: 0 <= i < |chunks| ==> chunks[i].Some?
  {
    if chunks != [] {
      CollectedIffFull(chunks[..|chunks| - 1]);
    }
    forall i | 0 <= i < |chunks| && chunks[i] == None ensures Collected(chunks) == None {
      EmptySlotPanics(chunks, i);
    }
  }

  /** A group that counts as complete can be collected exactly when no index arrived twice. */
  lemma CollectIffNoRepeat(groupLength: nat, cs: seq<ChunkedData>)
    requires |cs| == groupLength && forall c :: c in cs ==> c.index < groupLength
    ensures IsComplete(FillAll(groupLength, cs))
    ensures Collected(FillAll(groupLength, cs).chunks).Some? <==> DistinctIndices(cs)
  {
    var chunks := FillAll(groupLength, cs).chunks;
    FillAllFills(groupLength, cs);
    IndicesSize(cs);
    CollectedIffFull(chunks);
    SubsetSize(Filled(chunks), Below(groupLength));
    if Collected(chunks).Some? {
      assert Filled(chunks) == Below(groupLength);
    }
    if DistinctIndices(cs) {
      forall i | 0 <= i < |chunks| ensures chunks[i].Some? {
        assert i in Below(groupLength);
      }
    }
  }

  /** Before the count is reached the group waits in the table. */
  lemma {:induction false} GroupWaits(g: nat, groupLength: nat, cs: seq<ChunkedData>)
    requires OneGroup(g, groupLength, cs) && |cs| < groupLength
    ensures Feed(cs) == Next(if cs == [] then map[] else map[g := FillAll(groupLength, cs)], [])
  {
    if cs != [] {
      var before, last := cs[..|cs| - 1], cs[|cs| - 1];
      assert last in cs;
      GroupWaits(g, groupLength, before);
      var open := Feed(before).open;
      assert Enter(open, last) == FillAll(groupLength, before);
      assert open[g := FillAll(groupLength, cs)] == map[g := FillAll(groupLength, cs)];
      assert map[g := FillAll(groupLength, cs)].Keys == {g};
    }
  }

  /**
   The table depends on the replay window below it: the arrival that brings a group to its
   length panics exactly when some index arrived twice.
   */
  lemma DuplicatePanicsIff(g: nat, groupLength: nat, cs: seq<ChunkedData>)
    requires OneGroup(g, groupLength, cs) && |cs| == groupLength >= 1
    ensures Feed(cs).Panic? <==> !DistinctIndices(cs)
    ensures forall n :: 0 <= n < groupLength ==> Feed(cs[..n]).Next? && Feed(cs[..n]).out == []
  {
    forall n | 0 <= n < groupLength ensures Feed(cs[..n]).Next? && Feed(cs[..n]).out == [] {
      GroupWaits(g, groupLength, cs[..n]);
    }
    var before, last := cs[..|cs| - 1], cs[|cs| - 1];
    assert last in cs;
    GroupWaits(g, groupLength, before);
    assert Enter(Feed(before).open, last) == FillAll(groupLength, before);
    CollectIffNoRepeat(groupLength, cs);
  }

  // ----- Ten is the limit -----

  /** The first chunks of the groups below k, for messages cut into these pieces. */
  function FirstChunks(pieces: seq<Bytes>, k: nat): (cs: seq<ChunkedData>)
    requires |pieces| == 2
  {
    if k == 0 then [] else FirstChunks(pieces, k - 1) + [ChunkOf(k - 1, pieces, 0)]
  }

  function EvictKeys(keys: set<nat>): set<nat> {
    if |keys| > OPEN_GROUPS then keys - {Least(keys)} else keys
  }

  ghost predicate OpenWith(cs: seq<ChunkedData>, keys: set<nat>) {
    Feed(cs).Next? && Feed(cs).out == [] && Feed(cs).open.Keys == keys
  }

  /** The first of two chunks opens its group. */
  lemma FeedOpens(before: seq<ChunkedData>, keys: set<nat>, c: ChunkedData)
    requires OpenWith(before, keys) && c.group !in keys && c.groupLength == 2 && c.index < 2
    ensures OpenWith(before + [c], EvictKeys(keys + {c.group}))
  {
    var open := Feed(before).open;
    var grown := open[c.group := Put(EmptyGroup(2), c)];
    assert Arrive(open, c) == Next(Evict(grown), []);
    FeedSnoc(before, c);
    assert grown.Keys == open.Keys + {c.group};
    assert (grown - {Least(grown.Keys)}).Keys == grown.Keys - {Least(grown.Keys)};
  }

  lemma BelowEvicts(k: nat)
    requires k <= OPEN_GROUPS
    ensures k !in Below(k)
    ensures EvictKeys(Below(k) + {k}) == if k < OPEN_GROUPS then Below(k + 1) else Below(k + 1) - {0}
  {
    var keys := Below(k) + {k};
    assert keys == Below(k + 1);
    if k == OPEN_GROUPS {
      assert 0 in keys && Least(keys) == 0;
    }
  }

  lemma {:induction false} FirstChunksOpen(pieces: seq<Bytes>, k: nat)
    requires |pieces| == 2 && k <= OPEN_GROUPS + 1
    ensures OpenWith(FirstChunks(pieces, k), if k <= OPEN_GROUPS then Below(k) else Below(k) - {0})
  {
    if k > 0 {
      FirstChunksOpen(pieces, k - 1);
      BelowEvicts(k - 1);
      FeedOpens(FirstChunks(pieces, k - 1), Below(k - 1), ChunkOf(k - 1, pieces, 0));
    }
  }

  lemma {:induction false} FirstChunksAt(pieces: seq<Bytes>, k: nat)
    requires |pieces| == 2
    ensures |FirstChunks(pieces, k)| == k
    ensures forall i: nat :: i < k ==> FirstChunks(pieces, k)[i] == ChunkOf(i, pieces, 0)
  {
    if k > 0 {
      FirstChunksAt(pieces, k - 1);
    }
  }

  /** With eleven open groups a message can be lost although all of its chunks arrived. */
  lemma ElevenOpenLosesAMessage(pieces: seq<Bytes>, n: nat)
    requires |pieces| == 2 && n == OPEN_GROUPS + 1
    ensures var cs := FirstChunks(pieces, n) + [ChunkOf(0, pieces, 1)];
            && |cs| == n + 1 && cs[0] == ChunkOf(0, pieces, 0) && cs[n] == ChunkOf(0, pieces, 1)
            && NoDuplicates(cs) && Feed(cs).Next? && Feed(cs).out == []
  {
    FirstChunksOpen(pieces, n);
    FirstChunksAt(pieces, n);
    FeedOpens(FirstChunks(pieces, n), Below(n) - {0}, ChunkOf(0, pieces, 1));
  }

  // ----- Permutations -----

  /** The chunks of one message, each once, in any order. */
  ghost predicate Permutation(g: nat, pieces: seq<Bytes>, cs: seq<ChunkedData>) {
    && NoDuplicates(cs)
    && (forall c :: c in cs ==> c.group == g && c.index < |pieces| && c == ChunkOf(g, pieces, c.index))
    && (forall i :: 0 <= i < |pieces| ==> ChunkOf(g, pieces, i) in cs)
  }

  /**
   For every non-empty message, chunk size and permutation of its chunks: nothing comes out
   before the last chunk, and the message itself comes out at the last chunk.
   */
  lemma {:induction false} PermutationRoundTrip(g: nat, data: Bytes, size: nat, cs: seq<ChunkedData>)
    requires data != [] && size >= 1 && Permutation(g, Split(data, size), cs)
    ensures Feed(cs).Next? && Feed(cs).out == [Delivered(g, data)]
    ensures forall n :: 0 <= n < |cs| ==> Feed(cs[..n]).Next? && Feed(cs[..n]).out == []
  {
    var pieces := Split(data, size);
    var plan: Plan := seq(g + 1, i => pieces);
    forall n | 0 <= n <= |cs|
      ensures Feed(cs[..n]).Next? && Feed(cs[..n]).out == if n < |cs| then [] else [Delivered(g, data)]
    {
      OnlyGroup(plan, g, cs, n);
      ReassemblyComplete(plan, cs[..n]);
      var out := Feed(cs[..n]).out;
      assert |out| == |Groups(out)|;
      if n == |cs| {
        assert Groups(out) == [g];
        JoinSplit(data, size);
        assert out == [Delivered(g, data)];
      }
    }
    assert cs[..|cs|] == cs;
  }

  lemma OnlyGroup(plan: Plan, g: nat, cs: seq<ChunkedData>, n: nat)
    requires g < |plan| && plan[g] != [] && Permutation(g, plan[g], cs) && n <= |cs|
    ensures AllGenuine(plan, cs[..n]) && NoDuplicates(cs[..n]) && Uncrowded(plan, cs[..n])
    ensures Finished(plan, cs[..n]) == if n < |cs| then [] else [g]
  {
    forall c | c in cs[..n] ensures c in cs {
    }
    FewOpen(plan, g, cs[..n]);
    OnlyGroupFinishes(plan, g, cs, n);
  }

  lemma FewOpen(plan: Plan, g: nat, cs: seq<ChunkedData>)
    requires forall c :: c in cs ==> c.group == g
    ensures Uncrowded(plan, cs)
  {
    forall n | 0 <= n <= |cs| ensures |Unfinished(plan, cs[..n])| <= OPEN_GROUPS {
      SubsetSize(Unfinished(plan, cs[..n]), {g});
    }
    TenOpenIsUncrowded(plan, cs);
  }

  lemma {:induction false} OnlyGroupFinishes(plan: Plan, g: nat, cs: seq<ChunkedData>, n: nat)
    requires g < |plan| && plan[g] != [] && Permutation(g, plan[g], cs) && n <= |cs|
    requires AllGenuine(plan, cs[..n])
    ensures Finished(plan, cs[..n]) == if n < |cs| then [] else [g]
  {
    if n == 0 {
      assert ChunkOf(g, plan[g], 0) in cs;
    } else {
      var before, c := cs[..n - 1], cs[n - 1];
      assert cs[..n] == before + [c] && c in cs[..n];
      assert forall d :: d in before ==> d in cs[..n];
      OnlyGroupFinishes(plan, g, cs, n - 1);
      FinishedSnoc(plan, before, c);
      if n == |cs| {
        assert cs[..n] == cs;
      } else {
        assert cs[n] in cs && cs[n] !in cs[..n];
        NewChunkLeavesGroupOpen(plan, cs[..n], cs[n]);
      }
    }
  }

  // ----- `recv` follows the arrivals -----

  ghost predicate Decodes(codec: Codec<ChunkedData>, inbox: seq<Bytes>, cs: seq<ChunkedData>) {
    |inbox| == |cs| && forall i :: 0 <= i < |cs| ==> codec.decode(inbox[i]) == Some(cs[i])
  }

  ghost predicate FedTo(cs: seq<ChunkedData>, open: map<nat, Group>, payloads: seq<Bytes>) {
    Feed(cs).Next? && Feed(cs).open == open && Payloads(Feed(cs).out) == payloads
  }

  /**
   The result of a call that found `history` behind it and these packets in front of it: it took
   packets from the front, and what earlier calls handed over, the message it hands over and what
   is left waiting are together exactly the outputs of all arrivals so far.
   */
  ghost predicate FollowsFeed(history: seq<ChunkedData>, yielded: seq<Bytes>, inbox: seq<Bytes>, cs: seq<ChunkedData>,
                              r: Received)
    requires |inbox| == |cs|
  {
    match r
    case Panicked => false
    case Disconnected(open) => FedTo(history + cs, open, yielded)
    case Ready(message, open, left, rest) =>
      && |rest| <= |inbox| && rest == inbox[|inbox| - |rest|..]
      && FedTo(history + cs[..|inbox| - |rest|], open, yielded + [message] + left)
  }

  lemma FollowsFeedLater(history: seq<ChunkedData>, yielded: seq<Bytes>, inbox: seq<Bytes>, cs: seq<ChunkedData>,
                         r: Received)
    requires |inbox| == |cs| >= 1 && FollowsFeed(history + [cs[0]], yielded, inbox[1..], cs[1..], r)
    ensures FollowsFeed(history, yielded, inbox, cs, r)
  {
    assert history + cs == history + [cs[0]] + cs[1..];
    if r.Ready? {
      var k := |inbox| - |r.rest|;
      assert history + [cs[0]] + cs[1..][..k - 1] == history + cs[..k];
    }
  }

  /** However the arrivals are spread over calls of `recv`, each call continues the same run. */
  lemma {:induction false} ReceiveFollowsFeed(codec: Codec<ChunkedData>, history: seq<ChunkedData>, yielded: seq<Bytes>,
                                              done: seq<Bytes>, inbox: seq<Bytes>, cs: seq<ChunkedData>)
    requires Decodes(codec, inbox, cs) && Feed(history + cs).Next?
    requires Feed(history).Next? && Payloads(Feed(history).out) == yielded + done
    ensures FollowsFeed(history, yielded, inbox, cs, Receive(codec, Feed(history).open, done, inbox))
    decreases |inbox|
  {
    if done != [] {
      ReadyFollowsFeed(history, yielded, done, inbox, cs);
    } else if inbox == [] {
      assert history + cs == history && yielded + done == yielded;
    } else {
      var c := cs[0];
      assert codec.decode(inbox[0]) == Some(c);
      var out := OneMore(history, cs, yielded);
      ReceiveFollowsFeed(codec, history + [c], yielded, Payloads(out), inbox[1..], cs[1..]);
      FollowsFeedLater(history, yielded, inbox, cs, Receive(codec, Feed(history + [c]).open, Payloads(out), inbox[1..]));
    }
  }

  lemma ReadyFollowsFeed(history: seq<ChunkedData>, yielded: seq<Bytes>, done: seq<Bytes>, inbox: seq<Bytes>,
                         cs: seq<ChunkedData>)
    requires |inbox| == |cs| && done != [] && Feed(history).Next? && Payloads(Feed(history).out) == yielded + done
    ensures FollowsFeed(history, yielded, inbox, cs, Ready(done[0], Feed(history).open, done[1..], inbox))
  {
    assert yielded + done == yielded + [done[0]] + done[1..];
    assert history + cs[..0] == history;
  }

  lemma FeedUnsnoc(before: seq<ChunkedData>, c: ChunkedData)
    requires Feed(before + [c]).Next?
    ensures Feed(before).Next? && Arrive(Feed(before).open, c).Next?
    ensures Feed(before + [c])
         == Next(Arrive(Feed(before).open, c).open, Feed(before).out + Arrive(Feed(before).open, c).out)
  {
    assert (before + [c])[..|before|] == before;
  }

  lemma PayloadsAppend(a: seq<Delivered>, b: seq<Delivered>)
    ensures Payloads(a + b) == Payloads(a) + Payloads(b)
  {
  }

  lemma OneMore(history: seq<ChunkedData>, cs: seq<ChunkedData>, yielded: seq<Bytes>) returns (out: seq<Delivered>)
    requires cs != [] && Feed(history + cs).Next?
    requires Feed(history).Next? && Payloads(Feed(history).out) == yielded
    ensures history + cs == history + [cs[0]] + cs[1..]
    ensures Feed(history + [cs[0]]).Next? && Payloads(Feed(history + [cs[0]]).out) == yielded + Payloads(out)
    ensures Arrive(Feed(history).open, cs[0]) == Next(Feed(history + [cs[0]]).open, out)
  {
    assert history + cs == history + [cs[0]] + cs[1..];
    FeedPrefix(history + [cs[0]], cs[1..]);
    FeedUnsnoc(history, cs[0]);
    out := Arrive(Feed(history).open, cs[0]).out;
    PayloadsAppend(Feed(history).out, out);
  }

  lemma {:induction false} FeedPrefix(a: seq<ChunkedData>, b: seq<ChunkedData>)
    requires Feed(a + b).Next?
    ensures Feed(a).Next?
    decreases |b|
  {
    if b == [] {
      assert a + b == a;
    } else {
      assert (a + b)[..|a + b| - 1] == a + b[..|b| - 1];
      FeedPrefix(a, b[..|b| - 1]);
    }
  }
}
