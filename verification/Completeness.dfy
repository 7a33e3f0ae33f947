/**
 Which messages come out of the table of open groups (src/transform.rs): exactly the fully
 delivered ones that no clean-up has dropped, and when that is all of them.
 */
module Completeness {
  import opened Common
  import opened Transform
  import opened Reassembly

  // ----- What the clean-up drops -----

  /** The table once the chunk is filed and a complete group is taken out, before the clean-up. */
  function Filed(open: map<nat, Group>, c: ChunkedData): map<nat, Group>
    requires c.index < |Enter(open, c).chunks|
  {
    var after := Put(Enter(open, c), c);
    if IsComplete(after) then open - {c.group} else open[c.group := after]
  }

  /** The groups that the clean-up drops from the table. */
  function DroppedBy(open: map<nat, Group>, c: ChunkedData): set<nat> {
    if c.index >= |Enter(open, c).chunks| then {} else Filed(open, c).Keys - Evict(Filed(open, c)).Keys
  }

  /** The groups that the clean-up after each arrival drops. */
  function Drops(cs: seq<ChunkedData>): (r: seq<set<nat>>)
    ensures |r| == |cs|
  {
    if cs == [] then []
    else
      var before, c := cs[..|cs| - 1], cs[|cs| - 1];
      Drops(before) + [if Feed(before).Next? then DroppedBy(Feed(before).open, c) else {}]
  }

  ghost predicate EverDropped(cs: seq<ChunkedData>, g: nat) {
    exists n :: 0 <= n < |cs| && g in Drops(cs)[n]
  }

  /** Eviction spares a group with fewer than ten higher-numbered ones, and hits exactly one with ten. */
  lemma EvictedIff(open: map<nat, Group>, g: nat)
    requires |open.Keys| <= 11 && g in open
    ensures g !in Evict(open) <==> |Above(open.Keys, g)| >= 10
    ensures forall h :: h in Evict(open) ==> h in open && Evict(open)[h] == open[h]
  {
    var above := Above(open.Keys, g);
    SubsetSize(above, open.Keys - {g});
    assert g !in above;
    if |open.Keys| > OPEN_GROUPS {
      if g == Least(open.Keys) {
        assert above == open.Keys - {g};
      } else {
        var m := Least(open.Keys);
        SubsetSize(above, open.Keys - {g, m});
        assert |open.Keys - {g, m}| == |open.Keys| - 2;
      }
    }
  }

  /** Filing a new chunk: nothing panics, every open group stays sound, and a complete one comes out. */
  lemma FiledOk(plan: Plan, cs: seq<ChunkedData>, open: map<nat, Group>, c: ChunkedData)
    requires TableOk(plan, cs, open) && Genuine(plan, c) && c !in cs
    ensures c.index < |Enter(open, c).chunks|
    ensures var filed, r := Filed(open, c), Arrive(open, c);
            && r.Next? && r.open == Evict(filed) && TableOk(plan, cs + [c], r.open)
            && |filed.Keys| <= OPEN_GROUPS + 1
            && (forall h :: h in filed ==> Holds(plan, cs + [c], h, filed[h]) && Touched(cs + [c], h))
            && Groups(r.out) == if IsComplete(Put(Enter(open, c), c)) then [c.group] else []
  {
    EnterHolds(plan, cs, open, c);
    var filed := Filed(open, c);
    SubsetSize(filed.Keys, open.Keys + {c.group});
    if IsComplete(Put(Enter(open, c), c)) {
      ArriveLast(plan, cs, open, c);
      SubsetSize(filed.Keys, open.Keys);
    } else {
      ArriveMore(plan, cs, open, c);
    }
    forall h | h in filed ensures Holds(plan, cs + [c], h, filed[h]) && Touched(cs + [c], h) {
      if h != c.group {
        OthersStay(plan, cs, open, c, h);
      } else {
        assert c in cs + [c];
      }
    }
  }

  // ----- The fate of one group -----

  /** Nothing of the group is missing: it is in the table with all its chunks until it comes out whole. */
  ghost predicate Intact(plan: Plan, cs: seq<ChunkedData>, open: map<nat, Group>, out: seq<nat>, g: nat)
    requires g < |plan| && (g in open ==> Holds(plan, cs, g, open[g]))
  {
    && (g in out <==> Whole(plan, cs, g))
    && (g in open <==> Touched(cs, g) && !Whole(plan, cs, g))
    && (g in open ==> HoldsAll(plan, cs, g, open[g]))
  }

  /** A chunk of it that arrived is no longer in the table, and it has not come out. */
  ghost predicate Lost(plan: Plan, cs: seq<ChunkedData>, open: map<nat, Group>, out: seq<nat>, g: nat)
    requires g < |plan| && (g in open ==> Holds(plan, cs, g, open[g]))
  {
    && g !in out
    && exists i :: 0 <= i < |plan[g]| && ChunkOf(g, plan[g], i) in cs && (g in open ==> open[g].chunks[i].None?)
  }

  lemma TouchedSnoc(cs: seq<ChunkedData>, c: ChunkedData, g: nat)
    ensures g != c.group ==> (Touched(cs + [c], g) <==> Touched(cs, g))
    ensures Touched(cs + [c], c.group)
  {
    assert c in cs + [c];
    if Touched(cs, g) {
      var d :| d in cs && d.group == g;
      assert d in cs + [c];
    }
  }

  /** Before the clean-up an intact group is still intact. */
  lemma IntactFiled(plan: Plan, cs: seq<ChunkedData>, open: map<nat, Group>, out: seq<nat>, c: ChunkedData, g: nat)
    requires TableOk(plan, cs, open) && Genuine(plan, c) && c !in cs && g < |plan| && Intact(plan, cs, open, out, g)
    ensures c.index < |Enter(open, c).chunks| && Arrive(open, c).Next?
    ensures g in Filed(open, c) ==> Holds(plan, cs + [c], g, Filed(open, c)[g])
    ensures Intact(plan, cs + [c], Filed(open, c), out + Groups(Arrive(open, c).out), g)
  {
    FiledOk(plan, cs, open, c);
    TouchedSnoc(cs, c, g);
    if g != c.group {
      WholeSnoc(plan, cs, c, g);
      if g in open { HoldsLater(plan, cs, c, g, open[g]); }
    } else {
      NewChunkLeavesGroupOpen(plan, cs, c);
      EnterHolds(plan, cs, open, c);
      EmptyHolds(plan, cs, g);
      PutHolds(plan, cs, c, Enter(open, c));
      CompleteIffFull(plan, cs + [c], g, Put(Enter(open, c), c));
    }
  }

  /** Lost once dropped, and intact until then. */
  ghost predicate Fated(plan: Plan, cs: seq<ChunkedData>, open: map<nat, Group>, out: seq<nat>, g: nat, dropped: bool)
    requires g < |plan| && (g in open ==> Holds(plan, cs, g, open[g]))
  {
    if dropped then Lost(plan, cs, open, out, g) else Intact(plan, cs, open, out, g)
  }

  lemma TouchedHasChunk(plan: Plan, cs: seq<ChunkedData>, g: nat)
    requires AllGenuine(plan, cs) && Touched(cs, g)
    ensures g < |plan| && exists i :: 0 <= i < |plan[g]| && ChunkOf(g, plan[g], i) in cs
  {
    var d :| d in cs && d.group == g;
    assert Genuine(plan, d);
    assert ChunkOf(g, plan[g], d.index) in cs;
  }

  /** A clean-up that drops an intact group loses it. */
  lemma CleanUpFate(plan: Plan, cs: seq<ChunkedData>, filed: map<nat, Group>, rest: map<nat, Group>, out: seq<nat>, g: nat)
    requires g < |plan| && rest == Evict(filed) && (g in filed ==> Holds(plan, cs, g, filed[g]))
    requires Intact(plan, cs, filed, out, g)
    requires g in filed ==> exists i :: 0 <= i < |plan[g]| && ChunkOf(g, plan[g], i) in cs
    ensures g in rest ==> g in filed && rest[g] == filed[g]
    ensures Fated(plan, cs, rest, out, g, g in filed.Keys - rest.Keys)
  {
  }

  /** A lost group stays lost, whatever of it is still to come. */
  lemma LostStep(plan: Plan, cs: seq<ChunkedData>, open: map<nat, Group>, out: seq<nat>, c: ChunkedData, g: nat)
    requires Genuine(plan, c) && c !in cs
    requires TableOk(plan, cs, open) && g < |plan| && Lost(plan, cs, open, out, g)
    ensures var r := Arrive(open, c);
            && r.Next? && TableOk(plan, cs + [c], r.open)
            && Lost(plan, cs + [c], r.open, out + Groups(r.out), g)
  {
    FiledOk(plan, cs, open, c);
    var i :| 0 <= i < |plan[g]| && ChunkOf(g, plan[g], i) in cs && (g in open ==> open[g].chunks[i].None?);
    assert ChunkOf(g, plan[g], i) in cs + [c];
    if g == c.group {
      assert i != c.index;
      EnterHolds(plan, cs, open, c);
      var after := Put(Enter(open, c), c);
      assert after.chunks[i].None?;
      CompleteIffFull(plan, cs + [c], g, after);
    }
  }

  lemma IntactStep(plan: Plan, cs: seq<ChunkedData>, open: map<nat, Group>, out: seq<nat>, c: ChunkedData, g: nat)
    requires AllGenuine(plan, cs + [c]) && Genuine(plan, c) && c !in cs
    requires TableOk(plan, cs, open) && g < |plan| && Intact(plan, cs, open, out, g)
    ensures Arrive(open, c).Next? && TableOk(plan, cs + [c], Arrive(open, c).open)
    ensures Fated(plan, cs + [c], Arrive(open, c).open, out + Groups(Arrive(open, c).out), g, g in DroppedBy(open, c))
  {
    FiledOk(plan, cs, open, c);
    IntactFiled(plan, cs, open, out, c, g);
    var filed := Filed(open, c);
    if g in filed {
      TouchedHasChunk(plan, cs + [c], g);
    }
    CleanUpFate(plan, cs + [c], filed, Arrive(open, c).open, out + Groups(Arrive(open, c).out), g);
  }

  lemma FateStep(plan: Plan, cs: seq<ChunkedData>, open: map<nat, Group>, out: seq<nat>, c: ChunkedData, g: nat, dropped: bool)
    requires AllGenuine(plan, cs + [c]) && Genuine(plan, c) && c !in cs
    requires TableOk(plan, cs, open) && g < |plan| && Fated(plan, cs, open, out, g, dropped)
    ensures Arrive(open, c).Next? && TableOk(plan, cs + [c], Arrive(open, c).open)
    ensures Fated(plan, cs + [c], Arrive(open, c).open, out + Groups(Arrive(open, c).out), g, dropped || g in DroppedBy(open, c))
  {
    if dropped {
      LostStep(plan, cs, open, out, c, g);
    } else {
      IntactStep(plan, cs, open, out, c, g);
    }
  }

  ghost predicate FateOk(plan: Plan, cs: seq<ChunkedData>, g: nat)
    requires g < |plan|
  {
    && Feed(cs).Next? && TableOk(plan, cs, Feed(cs).open)
    && Fated(plan, cs, Feed(cs).open, Groups(Feed(cs).out), g, EverDropped(cs, g))
  }

  lemma FateSnoc(plan: Plan, before: seq<ChunkedData>, c: ChunkedData, g: nat)
    requires AllGenuine(plan, before + [c]) && Genuine(plan, c) && c !in before && g < |plan| && FateOk(plan, before, g)
    ensures FateOk(plan, before + [c], g)
  {
    var f := Feed(before);
    FateStep(plan, before, f.open, Groups(f.out), c, g, EverDropped(before, g));
    var r := Arrive(f.open, c);
    FeedSnoc(before, c);
    DroppedSnoc(before, c, g);
    FateFollows(plan, before + [c], r.open, f.out, r.out, g, EverDropped(before, g) || g in DroppedBy(f.open, c));
  }

  lemma FateFollows(plan: Plan, cs: seq<ChunkedData>, open: map<nat, Group>, out: seq<Delivered>, more: seq<Delivered>,
                    g: nat, dropped: bool)
    requires Feed(cs) == Next(open, out + more) && TableOk(plan, cs, open) && g < |plan|
    requires Fated(plan, cs, open, Groups(out) + Groups(more), g, dropped) && dropped == EverDropped(cs, g)
    ensures FateOk(plan, cs, g)
  {
    assert Groups(out + more) == Groups(out) + Groups(more);
  }

  lemma Unsnoc(plan: Plan, cs: seq<ChunkedData>)
    requires cs != [] && AllGenuine(plan, cs) && NoDuplicates(cs)
    ensures var before, c := cs[..|cs| - 1], cs[|cs| - 1];
            && AllGenuine(plan, before) && NoDuplicates(before) && Genuine(plan, c) && c !in before
            && cs == before + [c]
  {
    assert cs[|cs| - 1] in cs;
  }

  /** A group is lost once a clean-up has dropped it, and intact until then. */
  lemma {:induction false} Fate(plan: Plan, cs: seq<ChunkedData>, g: nat)
    requires AllGenuine(plan, cs) && NoDuplicates(cs) && g < |plan| && plan[g] != []
    ensures FateOk(plan, cs, g)
  {
    if cs == [] {
      assert ChunkOf(g, plan[g], 0) !in cs;
    } else {
      Unsnoc(plan, cs);
      Fate(plan, cs[..|cs| - 1], g);
      FateSnoc(plan, cs[..|cs| - 1], cs[|cs| - 1], g);
    }
  }

  lemma DroppedSnoc(before: seq<ChunkedData>, c: ChunkedData, g: nat)
    requires Feed(before).Next?
    ensures EverDropped(before + [c], g) <==> EverDropped(before, g) || g in DroppedBy(Feed(before).open, c)
  {
    var cs, k := before + [c], |before|;
    assert cs[..k] == before && cs[k] == c;
    var now := DroppedBy(Feed(before).open, c);
    assert Drops(cs) == Drops(before) + [now];
    if EverDropped(before, g) {
      var n :| 0 <= n < k && g in Drops(before)[n];
      assert Drops(cs)[n] == Drops(before)[n];
    }
    assert g in now ==> g in Drops(cs)[k];
  }

  /** What has been dropped depends on the arrivals so far only. */
  lemma {:induction false} DropsPrefix(cs: seq<ChunkedData>, k: nat)
    requires k <= |cs|
    ensures Drops(cs[..k]) == Drops(cs)[..k]
    decreases |cs|
  {
    if k == |cs| {
      assert cs[..k] == cs;
    } else {
      var before := cs[..|cs| - 1];
      DropsPrefix(before, k);
      assert before[..k] == cs[..k];
    }
  }

  lemma DropsAt(cs: seq<ChunkedData>, n: nat)
    requires n < |cs| && Feed(cs[..n]).Next?
    ensures Drops(cs)[n] == DroppedBy(Feed(cs[..n]).open, cs[n])
  {
    DropsPrefix(cs, n + 1);
    assert cs[..n + 1][..n] == cs[..n];
    assert Drops(cs)[n] == Drops(cs[..n + 1])[n];
  }

  /**
   Exactly which messages come out, for any duplicate-free delivery: those of which every chunk
   arrived and which no clean-up dropped on the way.
   */
  lemma {:induction false} ComesOutIff(plan: Plan, cs: seq<ChunkedData>, g: nat)
    requires AllGenuine(plan, cs) && NoDuplicates(cs)
    ensures Feed(cs).Next?
    ensures g in Groups(Feed(cs).out) <==> g in Finished(plan, cs) && !EverDropped(cs, g)
  {
    ReassemblySafe(plan, cs);
    FinishedIffWhole(plan, cs, g);
    FinishedOnce(plan, cs);
    SubsequenceDistinct(Groups(Feed(cs).out), Finished(plan, cs));
    if g < |plan| && plan[g] != [] {
      Fate(plan, cs, g);
    }
  }

  // ----- When all of them come out -----

  /** No clean-up drops a group of which all chunks arrive sooner or later. */
  ghost predicate DropsOnlyUndelivered(plan: Plan, cs: seq<ChunkedData>)
    requires AllGenuine(plan, cs)
  {
    forall n, g :: 0 <= n < |cs| && g in Drops(cs)[n] ==> g !in Finished(plan, cs)
  }

  lemma {:induction false} SubsequenceOfAll(a: seq<nat>, b: seq<nat>)
    requires Subsequence(a, b) && NoDuplicates(b) && forall x :: x in b ==> x in a
    ensures a == b
  {
    if b != [] {
      assert b[0] in a;
      var last, fewer := b[|b| - 1], b[..|b| - 1];
      assert last in b;
      if a[|a| - 1] == last && Subsequence(a[..|a| - 1], fewer) {
        forall x | x in fewer ensures x in a[..|a| - 1] {
          assert x in b && x != last;
        }
        SubsequenceOfAll(a[..|a| - 1], fewer);
        assert a == a[..|a| - 1] + [last] && b == fewer + [last];
      } else {
        SubsequenceDistinct(a, fewer);
      }
    }
  }

  /**
   Completeness, exactly. The output is all the fully delivered messages, in the order in which
   their last chunks arrived, if and only if no clean-up drops one of them.
   */
  lemma {:induction false} ReassemblyCompleteIff(plan: Plan, cs: seq<ChunkedData>)
    requires AllGenuine(plan, cs) && NoDuplicates(cs)
    ensures Feed(cs).Next?
    ensures Groups(Feed(cs).out) == Finished(plan, cs) <==> DropsOnlyUndelivered(plan, cs)
  {
    ReassemblySafe(plan, cs);
    FinishedOnce(plan, cs);
    var out, all := Groups(Feed(cs).out), Finished(plan, cs);
    forall g: nat ensures g in out <==> g in all && !EverDropped(cs, g) {
      ComesOutIff(plan, cs, g);
    }
    if DropsOnlyUndelivered(plan, cs) {
      SubsequenceOfAll(out, all);
    }
    if out == all {
      forall n, g | 0 <= n < |cs| && g in Drops(cs)[n] ensures g !in all {
        assert EverDropped(cs, g);
      }
    }
  }

  /** Every unfinished group that `full` will finish is among the ten highest-numbered unfinished ones. */
  ghost predicate Roomy(plan: Plan, full: seq<ChunkedData>, cs: seq<ChunkedData>) {
    forall g :: g in Unfinished(plan, cs) && Whole(plan, full, g) ==> |Above(Unfinished(plan, cs), g)| < OPEN_GROUPS
  }

  ghost predicate Uncrowded(plan: Plan, full: seq<ChunkedData>) {
    forall n :: 0 <= n <= |full| ==> Roomy(plan, full, full[..n])
  }

  lemma WholeMonotone(plan: Plan, cs: seq<ChunkedData>, full: seq<ChunkedData>, g: nat)
    requires g < |plan| && cs <= full && Whole(plan, cs, g)
    ensures Whole(plan, full, g)
  {
    forall i | 0 <= i < |plan[g]| ensures ChunkOf(g, plan[g], i) in full {
      assert ChunkOf(g, plan[g], i) in cs;
    }
  }

  /** With room, a clean-up drops only groups that are never fully delivered. */
  lemma {:induction false} RoomDropsOnlyUndelivered(plan: Plan, full: seq<ChunkedData>, n: nat)
    requires AllGenuine(plan, full) && NoDuplicates(full) && Uncrowded(plan, full) && n <= |full|
    ensures forall m, g :: 0 <= m < n && g in Drops(full)[m] ==> g !in Finished(plan, full)
  {
    if n > 0 {
      RoomDropsOnlyUndelivered(plan, full, n - 1);
      forall g | g in Drops(full)[n - 1] ensures g !in Finished(plan, full) {
        FinishedIffWhole(plan, full, g);
        if g in Finished(plan, full) {
          NoRoomToDrop(plan, full, n - 1, g);
        }
      }
    }
  }

  lemma NoRoomToDrop(plan: Plan, full: seq<ChunkedData>, n: nat, g: nat)
    requires AllGenuine(plan, full) && NoDuplicates(full) && n < |full| && Roomy(plan, full, full[..n + 1])
    requires forall m, h :: 0 <= m < n && h in Drops(full)[m] ==> h !in Finished(plan, full)
    requires g in Finished(plan, full)
    ensures g !in Drops(full)[n]
  {
    var cs, c := full[..n], full[n];
    assert full[..n + 1] == cs + [c] && c in full && c !in cs;
    ReassemblySafe(plan, cs);
    DropsAt(full, n);
    DropsPrefix(full, n);
    FinishedIffWhole(plan, full, g);
    NothingToDrop(plan, full, cs, Feed(cs).open, c, g);
  }

  lemma NothingToDrop(plan: Plan, full: seq<ChunkedData>, cs: seq<ChunkedData>, open: map<nat, Group>, c: ChunkedData, g: nat)
    requires AllGenuine(plan, full) && NoDuplicates(full) && cs + [c] <= full
    requires AllGenuine(plan, cs) && NoDuplicates(cs) && Genuine(plan, c) && c !in cs
    requires Feed(cs).Next? && open == Feed(cs).open && TableOk(plan, cs, open)
    requires forall h :: EverDropped(cs, h) ==> h !in Finished(plan, full)
    requires Roomy(plan, full, cs + [c]) && g < |plan| && Whole(plan, full, g)
    ensures g !in DroppedBy(open, c)
  {
    FiledOk(plan, cs, open, c);
    var filed := Filed(open, c);
    forall h | h in filed ensures h in Unfinished(plan, cs + [c]) {
      FiledIsUnfinished(plan, full, cs, open, c, h);
    }
    if g in filed {
      EvictedIff(filed, g);
      SubsetSize(Above(filed.Keys, g), Above(Unfinished(plan, cs + [c]), g));
    }
  }

  lemma FiledIsUnfinished(plan: Plan, full: seq<ChunkedData>, cs: seq<ChunkedData>, open: map<nat, Group>, c: ChunkedData, h: nat)
    requires AllGenuine(plan, full) && NoDuplicates(full) && cs + [c] <= full
    requires AllGenuine(plan, cs) && NoDuplicates(cs) && Genuine(plan, c) && c !in cs
    requires Feed(cs).Next? && open == Feed(cs).open && TableOk(plan, cs, open)
    requires EverDropped(cs, h) ==> h !in Finished(plan, full)
    requires c.index < |Enter(open, c).chunks| && h in Filed(open, c)
    ensures h in Unfinished(plan, cs + [c])
  {
    FiledOk(plan, cs, open, c);
    TouchedHasChunk(plan, cs + [c], h);
    if Whole(plan, cs + [c], h) {
      WholeMonotone(plan, cs + [c], full, h);
      FinishedIffWhole(plan, full, h);
      FiledIsNotWhole(plan, cs, open, Groups(Feed(cs).out), c, h);
    }
  }

  lemma FiledIsNotWhole(plan: Plan, cs: seq<ChunkedData>, open: map<nat, Group>, out: seq<nat>, c: ChunkedData, h: nat)
    requires AllGenuine(plan, cs) && NoDuplicates(cs) && Genuine(plan, c) && c !in cs
    requires h < |plan| && plan[h] != [] && !EverDropped(cs, h)
    requires Feed(cs).Next? && open == Feed(cs).open && out == Groups(Feed(cs).out) && TableOk(plan, cs, open)
    requires c.index < |Enter(open, c).chunks| && h in Filed(open, c)
    ensures !Whole(plan, cs + [c], h)
  {
    Fate(plan, cs, h);
    IntactFiled(plan, cs, open, out, c, h);
  }

  /**
   So when every group that will be finished stays among the ten highest-numbered unfinished
   groups, exactly the fully delivered messages come out.
   */
  lemma {:induction false} ReassemblyComplete(plan: Plan, cs: seq<ChunkedData>)
    requires AllGenuine(plan, cs) && NoDuplicates(cs) && Uncrowded(plan, cs)
    ensures Feed(cs).Next? && Groups(Feed(cs).out) == Finished(plan, cs) && AsSent(plan, Feed(cs).out)
  {
    RoomDropsOnlyUndelivered(plan, cs, |cs|);
    ReassemblyCompleteIff(plan, cs);
    ReassemblySafe(plan, cs);
  }

  /** In particular when at most ten groups are ever open together. */
  lemma TenOpenIsUncrowded(plan: Plan, cs: seq<ChunkedData>)
    requires forall n :: 0 <= n <= |cs| ==> |Unfinished(plan, cs[..n])| <= OPEN_GROUPS
    ensures Uncrowded(plan, cs)
  {
    forall n | 0 <= n <= |cs| ensures Roomy(plan, cs, cs[..n]) {
      var u := Unfinished(plan, cs[..n]);
      forall g | g in u ensures |Above(u, g)| < OPEN_GROUPS {
        SubsetSize(Above(u, g), u - {g});
      }
    }
  }

  /** Chunks in the order in which they were sent. */
  ghost predicate InOrder(cs: seq<ChunkedData>) {
    forall i, j :: 0 <= i < j < |cs| ==>
      cs[i].group < cs[j].group || (cs[i].group == cs[j].group && cs[i].index < cs[j].index)
  }

  lemma ChunkStillToCome(plan: Plan, cs: seq<ChunkedData>, n: nat, g: nat) returns (k: nat)
    requires n <= |cs| && g < |plan| && !Whole(plan, cs[..n], g) && Whole(plan, cs, g)
    ensures n <= k < |cs| && cs[k].group == g
  {
    var i :| 0 <= i < |plan[g]| && ChunkOf(g, plan[g], i) !in cs[..n];
    var d := ChunkOf(g, plan[g], i);
    k :| 0 <= k < |cs| && cs[k] == d;
  }

  /** And when the chunks arrive in order, however many groups are left unfinished behind. */
  lemma InOrderIsUncrowded(plan: Plan, cs: seq<ChunkedData>)
    requires AllGenuine(plan, cs) && InOrder(cs)
    ensures Uncrowded(plan, cs)
  {
    forall n | 0 <= n <= |cs| ensures Roomy(plan, cs, cs[..n]) {
      forall g | g in Unfinished(plan, cs[..n]) && Whole(plan, cs, g)
        ensures |Above(Unfinished(plan, cs[..n]), g)| < OPEN_GROUPS
      {
        var k := ChunkStillToCome(plan, cs, n, g);
        NothingAbove(plan, cs, n, k);
      }
    }
  }

  lemma NothingAbove(plan: Plan, cs: seq<ChunkedData>, n: nat, k: nat)
    requires InOrder(cs) && n <= k < |cs|
    ensures Above(Unfinished(plan, cs[..n]), cs[k].group) == {}
  {
    forall h | h in Unfinished(plan, cs[..n]) ensures h <= cs[k].group {
      var d :| d in cs[..n] && d.group == h;
      var j :| 0 <= j < n && cs[..n][j] == d;
      assert cs[j] == d;
    }
  }

  /** In order, the groups finish in increasing order. */
  lemma {:induction false} InOrderFinishes(plan: Plan, cs: seq<ChunkedData>)
    requires AllGenuine(plan, cs) && InOrder(cs)
    ensures NoDuplicates(cs)
    ensures Increasing(Finished(plan, cs))
  {
    if cs != [] {
      var before, c := cs[..|cs| - 1], cs[|cs| - 1];
      assert cs == before + [c] && c in cs;
      InOrderFinishes(plan, before);
      FinishedSnoc(plan, before, c);
      forall g | g in Finished(plan, before) ensures g < c.group {
        FinishedBelow(plan, before, c, g);
      }
      IncreasingSnoc(Finished(plan, before), c.group);
    }
  }

  lemma FinishedBelow(plan: Plan, before: seq<ChunkedData>, c: ChunkedData, g: nat)
    requires AllGenuine(plan, before) && Genuine(plan, c) && InOrder(before + [c]) && NoDuplicates(before)
    requires g in Finished(plan, before)
    ensures g < c.group
  {
    var cs := before + [c];
    FinishedIffWhole(plan, before, g);
    assert ChunkOf(g, plan[g], 0) in before;
    var i :| 0 <= i < |before| && before[i] == ChunkOf(g, plan[g], 0);
    assert cs[i] == before[i] && cs[|before|] == c;
    assert c !in before by {
      forall j | 0 <= j < |before| ensures before[j] != c {
        assert cs[j] == before[j];
      }
    }
    NewChunkLeavesGroupOpen(plan, before, c);
  }
}
