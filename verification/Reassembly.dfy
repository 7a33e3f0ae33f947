/**
 Safety and completeness of reassembly under loss and reordering.

 A plan lists, for every group number, the pieces its message was cut into. The reference
 emits a group at the arrival of the last of its chunks and has no table at all.
 */
module Reassembly {
  import opened Common
  import opened Transform

  type Plan = seq<seq<Bytes>>

  ghost predicate Genuine(plan: Plan, c: ChunkedData) {
    c.group < |plan| && c.index < |plan[c.group]| && c == ChunkOf(c.group, plan[c.group], c.index)
  }

  ghost predicate AllGenuine(plan: Plan, cs: seq<ChunkedData>) {
    forall c :: c in cs ==> Genuine(plan, c)
  }

  /** Every chunk of the group has arrived. */
  ghost predicate Whole(plan: Plan, cs: seq<ChunkedData>, g: nat)
    requires g < |plan|
  {
    forall i :: 0 <= i < |plan[g]| ==> ChunkOf(g, plan[g], i) in cs
  }

  /** Some chunk of the group has arrived. */
  ghost predicate Touched(cs: seq<ChunkedData>, g: nat) {
    exists c :: c in cs && c.group == g
  }

  /** The groups of which some but not all chunks have arrived. */
  ghost function Unfinished(plan: Plan, cs: seq<ChunkedData>): (r: set<nat>)
    ensures forall g: nat :: g in r <==> g < |plan| && Touched(cs, g) && !Whole(plan, cs, g)
  {
    set g | g in Below(|plan|) && Touched(cs, g) && !Whole(plan, cs, g)
  }

  /** The groups in the order in which their last chunks arrived. */
  ghost function Finished(plan: Plan, cs: seq<ChunkedData>): seq<nat>
    requires AllGenuine(plan, cs)
  {
    if cs == [] then []
    else
      var c := cs[|cs| - 1];
      assert Genuine(plan, c);
      Finished(plan, cs[..|cs| - 1]) + (if Whole(plan, cs, c.group) then [c.group] else [])
  }

  function Groups(out: seq<Delivered>): (r: seq<nat>)
    ensures |r| == |out| && forall i :: 0 <= i < |r| ==> r[i] == out[i].group
  {
    seq(|out|, i requires 0 <= i < |out| => out[i].group)
  }

  /** `a` is `b` with some entries left out. */
  ghost predicate Subsequence(a: seq<nat>, b: seq<nat>) {
    a == [] ||
    (b != [] &&
     ((a[|a| - 1] == b[|b| - 1] && Subsequence(a[..|a| - 1], b[..|b| - 1])) || Subsequence(a, b[..|b| - 1])))
  }

  /** What every output is: a whole message, as it was sent. */
  ghost predicate AsSent(plan: Plan, out: seq<Delivered>) {
    forall i :: 0 <= i < |out| ==> out[i].group < |plan| && out[i].data == Join(plan[out[i].group])
  }

  // ----- The groups that have finished -----

  lemma FinishedSnoc(plan: Plan, before: seq<ChunkedData>, c: ChunkedData)
    requires AllGenuine(plan, before) && Genuine(plan, c)
    ensures AllGenuine(plan, before + [c])
    ensures Finished(plan, before + [c])
         == Finished(plan, before) + (if Whole(plan, before + [c], c.group) then [c.group] else [])
  {
    assert (before + [c])[..|before|] == before;
  }

  /** One more chunk changes only its own group. */
  lemma WholeSnoc(plan: Plan, before: seq<ChunkedData>, c: ChunkedData, g: nat)
    requires g < |plan|
    ensures Whole(plan, before, g) ==> Whole(plan, before + [c], g)
    ensures g != c.group ==> (Whole(plan, before + [c], g) <==> Whole(plan, before, g))
  {
    if g != c.group && Whole(plan, before + [c], g) {
      forall i | 0 <= i < |plan[g]| ensures ChunkOf(g, plan[g], i) in before {
        assert ChunkOf(g, plan[g], i) in before + [c];
      }
    }
  }

  lemma {:induction false} FinishedIffWhole(plan: Plan, cs: seq<ChunkedData>, g: nat)
    requires AllGenuine(plan, cs) && NoDuplicates(cs)
    ensures g in Finished(plan, cs) <==> g < |plan| && plan[g] != [] && Whole(plan, cs, g)
  {
    if cs == [] {
      if g < |plan| && plan[g] != [] {
        assert ChunkOf(g, plan[g], 0) !in cs;
      }
    } else {
      var before, c := cs[..|cs| - 1], cs[|cs| - 1];
      FinishedIffWhole(plan, before, g);
      assert cs == before + [c] && c in cs;
      FinishedSnoc(plan, before, c);
      if g < |plan| {
        WholeSnoc(plan, before, c, g);
      }
      NewChunkLeavesGroupOpen(plan, before, c);
    }
  }

  lemma {:induction false} FinishedOnce(plan: Plan, cs: seq<ChunkedData>)
    requires AllGenuine(plan, cs) && NoDuplicates(cs)
    ensures NoDuplicates(Finished(plan, cs))
  {
    if cs != [] {
      var before, c := cs[..|cs| - 1], cs[|cs| - 1];
      FinishedOnce(plan, before);
      FinishedIffWhole(plan, before, c.group);
      NewChunkLeavesGroupOpen(plan, before, c);
    }
  }

  /** A group that lacks a chunk is not whole. */
  lemma NewChunkLeavesGroupOpen(plan: Plan, before: seq<ChunkedData>, c: ChunkedData)
    requires Genuine(plan, c) && c !in before
    ensures !Whole(plan, before, c.group)
  {
    assert ChunkOf(c.group, plan[c.group], c.index) !in before;
  }

  // ----- One open group against the chunks that arrived -----

  ghost function Filled(chunks: seq<Option<ChunkedData>>): (r: set<nat>)
    ensures forall i: nat :: i in r <==> i < |chunks| && chunks[i].Some?
  {
    set i | i in Below(|chunks|) && chunks[i].Some?
  }

  /** An open group holds some of the arrived chunks in their slots and counts exactly those. */
  ghost predicate Holds(plan: Plan, cs: seq<ChunkedData>, g: nat, group: Group) {
    && g < |plan|
    && |group.chunks| == group.groupLength == |plan[g]|
    && group.size == |Filled(group.chunks)|
    && forall i :: 0 <= i < |group.chunks| && group.chunks[i].Some? ==>
         group.chunks[i] == Some(ChunkOf(g, plan[g], i)) && ChunkOf(g, plan[g], i) in cs
  }

  /** It holds all of them. */
  ghost predicate HoldsAll(plan: Plan, cs: seq<ChunkedData>, g: nat, group: Group)
    requires Holds(plan, cs, g, group)
  {
    forall i :: 0 <= i < |group.chunks| ==> (group.chunks[i].Some? <==> ChunkOf(g, plan[g], i) in cs)
  }

  lemma PutHolds(plan: Plan, cs: seq<ChunkedData>, c: ChunkedData, group: Group)
    requires Genuine(plan, c) && c !in cs && Holds(plan, cs, c.group, group)
    ensures Holds(plan, cs + [c], c.group, Put(group, c))
    ensures HoldsAll(plan, cs, c.group, group) ==> HoldsAll(plan, cs + [c], c.group, Put(group, c))
  {
    var after := Put(group, c);
    assert group.chunks[c.index].None?;
    assert Filled(after.chunks) == Filled(group.chunks) + {c.index};
    if HoldsAll(plan, cs, c.group, group) {
      forall i | 0 <= i < |after.chunks|
        ensures after.chunks[i].Some? <==> ChunkOf(c.group, plan[c.group], i) in cs + [c]
      {
        assert i != c.index ==> after.chunks[i] == group.chunks[i];
        assert ChunkOf(c.group, plan[c.group], i).index == i;
      }
    }
  }

  lemma EmptyHolds(plan: Plan, cs: seq<ChunkedData>, g: nat)
    requires g < |plan|
    ensures Holds(plan, cs, g, EmptyGroup(|plan[g]|))
    ensures !Touched(cs, g) ==> HoldsAll(plan, cs, g, EmptyGroup(|plan[g]|))
  {
    assert Filled(EmptyGroup(|plan[g]|).chunks) == {};
    if !Touched(cs, g) {
      forall i | 0 <= i < |plan[g]| ensures ChunkOf(g, plan[g], i) !in cs {
        assert ChunkOf(g, plan[g], i).group == g;
      }
    }
  }

  /** The count reaches the length exactly when every slot is filled. */
  lemma CompleteIffFull(plan: Plan, cs: seq<ChunkedData>, g: nat, group: Group)
    requires Holds(plan, cs, g, group)
    ensures IsComplete(group) <==> forall i :: 0 <= i < |group.chunks| ==> group.chunks[i].Some?
    ensures IsComplete(group) ==> Whole(plan, cs, g)
    ensures HoldsAll(plan, cs, g, group) ==> (IsComplete(group) <==> Whole(plan, cs, g))
  {
    SubsetSize(Filled(group.chunks), Below(|group.chunks|));
    if IsComplete(group) {
      forall i | 0 <= i < |group.chunks| ensures group.chunks[i].Some? {
        assert i in Below(|group.chunks|);
      }
    }
    if forall i :: 0 <= i < |group.chunks| ==> group.chunks[i].Some? {
      assert Filled(group.chunks) == Below(|group.chunks|);
    }
  }

  lemma JoinSnoc(pieces: seq<Bytes>, last: Bytes)
    ensures Join(pieces + [last]) == Join(pieces) + last
  {
    if pieces == [] {
      assert [last][1..] == [];
    } else {
      assert (pieces + [last])[1..] == pieces[1..] + [last];
      JoinSnoc(pieces[1..], last);
    }
  }

  lemma {:induction false} FullCollects(g: nat, pieces: seq<Bytes>, chunks: seq<Option<ChunkedData>>, n: nat)
    requires |chunks| == |pieces| && n <= |chunks|
    requires forall i :: 0 <= i < n ==> chunks[i] == Some(ChunkOf(g, pieces, i))
    ensures Collected(chunks[..n]) == Some(Join(pieces[..n]))
  {
    if n > 0 {
      FullCollects(g, pieces, chunks, n - 1);
      assert chunks[..n][..n - 1] == chunks[..n - 1];
      assert pieces[..n] == pieces[..n - 1] + [pieces[n - 1]];
      JoinSnoc(pieces[..n - 1], pieces[n - 1]);
    }
  }

  lemma CompleteCollects(plan: Plan, cs: seq<ChunkedData>, g: nat, group: Group)
    requires Holds(plan, cs, g, group) && IsComplete(group)
    ensures Collected(group.chunks) == Some(Join(plan[g]))
  {
    CompleteIffFull(plan, cs, g, group);
    FullCollects(g, plan[g], group.chunks, |group.chunks|);
    assert group.chunks[..|group.chunks|] == group.chunks && plan[g][..|plan[g]|] == plan[g];
  }

  // ----- The table -----

  ghost predicate TableOk(plan: Plan, cs: seq<ChunkedData>, open: map<nat, Group>) {
    && |open.Keys| <= OPEN_GROUPS
    && forall g :: g in open ==> Holds(plan, cs, g, open[g]) && !IsComplete(open[g]) && Touched(cs, g)
  }

  lemma HoldsLater(plan: Plan, cs: seq<ChunkedData>, c: ChunkedData, g: nat, group: Group)
    requires Holds(plan, cs, g, group)
    ensures Holds(plan, cs + [c], g, group)
    ensures HoldsAll(plan, cs, g, group) && g != c.group ==> HoldsAll(plan, cs + [c], g, group)
  {
    if HoldsAll(plan, cs, g, group) && g != c.group {
      forall i | 0 <= i < |group.chunks|
        ensures group.chunks[i].Some? <==> ChunkOf(g, plan[g], i) in cs + [c]
      {
        assert ChunkOf(g, plan[g], i).group == g;
      }
    }
  }

  /** The group entered by a new chunk holds only arrived chunks. */
  lemma EnterHolds(plan: Plan, cs: seq<ChunkedData>, open: map<nat, Group>, c: ChunkedData)
    requires TableOk(plan, cs, open) && Genuine(plan, c) && c !in cs
    ensures Holds(plan, cs, c.group, Enter(open, c))
    ensures Holds(plan, cs + [c], c.group, Put(Enter(open, c), c))
  {
    EmptyHolds(plan, cs, c.group);
    PutHolds(plan, cs, c, Enter(open, c));
  }

  lemma EvictSize(open: map<nat, Group>)
    requires |open.Keys| <= OPEN_GROUPS + 1
    ensures |Evict(open).Keys| <= OPEN_GROUPS
  {
    if |open.Keys| > OPEN_GROUPS {
      assert (open - {Least(open.Keys)}).Keys == open.Keys - {Least(open.Keys)};
    }
  }

  /** Groups other than the chunk's own stay sound. */
  lemma OthersStay(plan: Plan, cs: seq<ChunkedData>, open: map<nat, Group>, c: ChunkedData, g: nat)
    requires TableOk(plan, cs, open) && g in open && g != c.group
    ensures Holds(plan, cs + [c], g, open[g]) && !IsComplete(open[g]) && Touched(cs + [c], g)
  {
    HoldsLater(plan, cs, c, g, open[g]);
    var d :| d in cs && d.group == g;
    assert d in cs + [c];
  }

  /** One new chunk that completes its group: the message comes out and the table stays sound. */
  lemma ArriveLast(plan: Plan, cs: seq<ChunkedData>, open: map<nat, Group>, c: ChunkedData)
    requires TableOk(plan, cs, open) && Genuine(plan, c) && c !in cs
    requires Holds(plan, cs + [c], c.group, Put(Enter(open, c), c)) && IsComplete(Put(Enter(open, c), c))
    ensures Arrive(open, c) == Next(open - {c.group}, [Delivered(c.group, Join(plan[c.group]))])
    ensures TableOk(plan, cs + [c], open - {c.group})
    ensures Whole(plan, cs + [c], c.group)
  {
    var after, rest := Put(Enter(open, c), c), open - {c.group};
    assert rest.Keys == open.Keys - {c.group};
    SubsetSize(rest.Keys, open.Keys);
    assert Arrive(open, c) == Next(rest, [Delivered(c.group, Join(plan[c.group]))]) by {
      CompleteCollects(plan, cs + [c], c.group, after);
    }
    assert Whole(plan, cs + [c], c.group) by {
      CompleteIffFull(plan, cs + [c], c.group, after);
    }
    forall g | g in rest
      ensures Holds(plan, cs + [c], g, rest[g]) && !IsComplete(rest[g]) && Touched(cs + [c], g)
    {
      OthersStay(plan, cs, open, c, g);
    }
  }

  /** One new chunk that does not complete its group. */
  lemma ArriveMore(plan: Plan, cs: seq<ChunkedData>, open: map<nat, Group>, c: ChunkedData)
    requires TableOk(plan, cs, open) && Genuine(plan, c) && c !in cs
    requires Holds(plan, cs + [c], c.group, Put(Enter(open, c), c)) && !IsComplete(Put(Enter(open, c), c))
    ensures Arrive(open, c) == Next(Evict(open[c.group := Put(Enter(open, c), c)]), [])
    ensures TableOk(plan, cs + [c], Evict(open[c.group := Put(Enter(open, c), c)]))
  {
    var grown := open[c.group := Put(Enter(open, c), c)];
    assert grown.Keys == open.Keys + {c.group};
    EvictSize(grown);
    forall g | g in grown
      ensures Holds(plan, cs + [c], g, grown[g]) && !IsComplete(grown[g]) && Touched(cs + [c], g)
    {
      if g != c.group {
        OthersStay(plan, cs, open, c, g);
      } else {
        assert c in cs + [c];
      }
    }
  }

  /** One new chunk: nothing panics, the table stays sound, and only a whole message comes out. */
  lemma ArriveSafe(plan: Plan, cs: seq<ChunkedData>, open: map<nat, Group>, c: ChunkedData)
    requires TableOk(plan, cs, open) && Genuine(plan, c) && c !in cs
    ensures var r := Arrive(open, c);
            && r.Next? && TableOk(plan, cs + [c], r.open)
            && (r.out == [] || (r.out == [Delivered(c.group, Join(plan[c.group]))] && Whole(plan, cs + [c], c.group)))
  {
    EnterHolds(plan, cs, open, c);
    if IsComplete(Put(Enter(open, c), c)) {
      ArriveLast(plan, cs, open, c);
    } else {
      ArriveMore(plan, cs, open, c);
    }
  }

  lemma FeedSnoc(before: seq<ChunkedData>, c: ChunkedData)
    requires Feed(before).Next? && Arrive(Feed(before).open, c).Next?
    ensures Feed(before + [c])
         == Next(Arrive(Feed(before).open, c).open, Feed(before).out + Arrive(Feed(before).open, c).out)
  {
    assert (before + [c])[..|before|] == before;
  }

  /**
   Safety. However the chunks of however many groups are interleaved, and whatever is lost or
   evicted: if no chunk arrives twice, nothing panics, every output is a message as it was sent,
   each at most once, and in the order in which the last chunks arrived.
   */
  lemma {:induction false} ReassemblySafe(plan: Plan, cs: seq<ChunkedData>)
    requires AllGenuine(plan, cs) && NoDuplicates(cs)
    ensures Feed(cs).Next?
    ensures TableOk(plan, cs, Feed(cs).open)
    ensures AsSent(plan, Feed(cs).out)
    ensures Subsequence(Groups(Feed(cs).out), Finished(plan, cs))
  {
    if cs != [] {
      var before, c := cs[..|cs| - 1], cs[|cs| - 1];
      assert cs == before + [c] && c in cs;
      ReassemblySafe(plan, before);
      ArriveSafe(plan, before, Feed(before).open, c);
      FeedSnoc(before, c);
      FinishedSnoc(plan, before, c);
      OutputsStay(plan, before, c, Feed(before).out, Arrive(Feed(before).open, c).out);
    }
  }

  lemma OutputsStay(plan: Plan, before: seq<ChunkedData>, c: ChunkedData, out: seq<Delivered>, more: seq<Delivered>)
    requires AllGenuine(plan, before) && Genuine(plan, c) && AllGenuine(plan, before + [c])
    requires AsSent(plan, out) && Subsequence(Groups(out), Finished(plan, before))
    requires more == [] ||
             (more == [Delivered(c.group, Join(plan[c.group]))] && Whole(plan, before + [c], c.group))
    ensures AsSent(plan, out + more)
    ensures Subsequence(Groups(out + more), Finished(plan, before + [c]))
  {
    FinishedSnoc(plan, before, c);
    if more == [] {
      assert out + more == out;
      SubsequenceSkip(Groups(out), Finished(plan, before), Finished(plan, before + [c]));
    } else {
      assert Groups(out + more) == Groups(out) + [c.group];
      SubsequenceKeep(Groups(out), Finished(plan, before), c.group);
    }
  }

  lemma SubsequenceSkip(a: seq<nat>, b: seq<nat>, longer: seq<nat>)
    requires Subsequence(a, b) && (longer == b || (|longer| == |b| + 1 && longer[..|b|] == b))
    ensures Subsequence(a, longer)
  {
  }

  lemma SubsequenceKeep(a: seq<nat>, b: seq<nat>, x: nat)
    requires Subsequence(a, b)
    ensures Subsequence(a + [x], b + [x])
  {
    assert (a + [x])[..|a|] == a && (b + [x])[..|b|] == b;
  }

  lemma {:induction false} SubsequenceDistinct(a: seq<nat>, b: seq<nat>)
    requires Subsequence(a, b) && NoDuplicates(b)
    ensures NoDuplicates(a)
    ensures forall x :: x in a ==> x in b
  {
    if a != [] {
      if a[|a| - 1] == b[|b| - 1] && Subsequence(a[..|a| - 1], b[..|b| - 1]) {
        var fewer := a[..|a| - 1];
        SubsequenceDistinct(fewer, b[..|b| - 1]);
        assert a == fewer + [a[|a| - 1]];
        forall i | 0 <= i < |fewer| ensures a[i] != a[|a| - 1] {
          assert fewer[i] in b[..|b| - 1];
        }
      } else {
        SubsequenceDistinct(a, b[..|b| - 1]);
      }
    }
  }

  /** No message comes out twice, and only messages all of whose chunks arrived. */
  lemma {:induction false} NoMessageTwice(plan: Plan, cs: seq<ChunkedData>)
    requires AllGenuine(plan, cs) && NoDuplicates(cs)
    ensures Feed(cs).Next? && NoDuplicates(Groups(Feed(cs).out))
    ensures forall d :: d in Feed(cs).out ==> d.group < |plan| && Whole(plan, cs, d.group)
  {
    ReassemblySafe(plan, cs);
    FinishedOnce(plan, cs);
    var out := Feed(cs).out;
    SubsequenceDistinct(Groups(out), Finished(plan, cs));
    forall d | d in out ensures d.group < |plan| && Whole(plan, cs, d.group) {
      var i :| 0 <= i < |out| && out[i] == d;
      assert Groups(out)[i] in Finished(plan, cs);
      FinishedIffWhole(plan, cs, d.group);
    }
  }
}
