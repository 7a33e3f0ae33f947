/**
 Splitting messages into numbered chunks and putting them together again (src/transform.rs):
 the value-level specification, and the two classes proved against it.
 */
module Transform {
  import opened Common

  datatype ChunkedData = ChunkedData(group: nat, index: nat, groupLength: nat, data: Bytes)

  // ----- Cutting a message -----

  function Split(data: Bytes, size: nat): (pieces: seq<Bytes>)
    requires size >= 1
    ensures forall p :: p in pieces ==> 1 <= |p| <= size
    ensures pieces == [] <==> data == []
    decreases |data|
  {
    if data == [] then []
    else if |data| <= size then [data]
    else [data[..size]] + Split(data[size..], size)
  }

  function Join(pieces: seq<Bytes>): Bytes {
    if pieces == [] then [] else pieces[0] + Join(pieces[1..])
  }

  lemma {:induction false} JoinSplit(data: Bytes, size: nat)
    requires size >= 1
    ensures Join(Split(data, size)) == data
    decreases |data|
  {
    if |data| > size {
      var rest := data[size..];
      JoinSplit(rest, size);
      assert data == data[..size] + rest;
    } else if data != [] {
      assert Join([data]) == data + Join([]);
    }
  }

  /** Only the last piece may be shorter than the chunk size. */
  lemma {:induction false} SplitPieceSizes(data: Bytes, size: nat, i: nat)
    requires size >= 1 && i + 1 < |Split(data, size)|
    ensures |Split(data, size)[i]| == size
    decreases |data|
  {
    if i > 0 {
      SplitPieceSizes(data[size..], size, i - 1);
    }
  }

  /** The chunk at one position of a message cut into pieces. */
  function ChunkOf(group: nat, pieces: seq<Bytes>, index: nat): ChunkedData
    requires index < |pieces|
  {
    ChunkedData(group, index, |pieces|, pieces[index])
  }

  function Chunks(group: nat, pieces: seq<Bytes>): (r: seq<ChunkedData>)
    ensures |r| == |pieces| && forall i :: 0 <= i < |r| ==> r[i] == ChunkOf(group, pieces, i)
  {
    seq(|pieces|, i requires 0 <= i < |pieces| => ChunkOf(group, pieces, i))
  }

  // ----- One group -----

  datatype Group = Group(chunks: seq<Option<ChunkedData>>, size: nat, groupLength: nat)

  function EmptyGroup(groupLength: nat): Group {
    Group(seq(groupLength, _ => None), 0, groupLength)
  }

  /** Fill a slot. Every arrival counts towards the size, whether or not the slot was empty. */
  function Put(g: Group, c: ChunkedData): Group
    requires c.index < |g.chunks|
  {
    Group(g.chunks[c.index := Some(c)], g.size + 1, g.groupLength)
  }

  predicate IsComplete(g: Group) {
    g.size == g.groupLength
  }

  /** The data of all slots in order; no value when some slot is empty (the program panics). */
  function Collected(chunks: seq<Option<ChunkedData>>): Option<Bytes> {
    if chunks == [] then Some([])
    else
      match (Collected(chunks[..|chunks| - 1]), chunks[|chunks| - 1])
      case (Some(d), Some(c)) => Some(d + c.data)
      case _ => None
  }

  class ChunkGroup {
    var chunks: seq<Option<ChunkedData>>
    var size: nat
    var groupLength: nat

    function Value(): Group
      reads this
    {
      Group(chunks, size, groupLength)
    }

    constructor (groupLength: nat)
      ensures Value() == EmptyGroup(groupLength)
    {
      chunks := seq(groupLength, _ => None);
      size := 0;
      this.groupLength := groupLength;
    }

    /** Remove the slot, then insert the filled one; removing past the end panics. */
    method AddChunk(chunk: ChunkedData) returns (ok: bool)
      modifies this
      ensures ok <==> chunk.index < |old(chunks)|
      ensures Value() == if ok then Put(old(Value()), chunk) else old(Value())
    {
      var i := chunk.index;
      if i >= |chunks| {
        return false;
      }
      chunks := chunks[..i] + chunks[i + 1..];
      chunks := chunks[..i] + [Some(chunk)] + chunks[i..];
      size := size + 1;
      ok := true;
    }

    method Complete() returns (r: bool)
      ensures r == IsComplete(Value())
    {
      r := size == groupLength;
    }

    /** `None` when a slot is empty: unwrapping it panics. */
    method Collect() returns (r: Option<Bytes>)
      ensures r == Collected(chunks)
    {
      var output: Bytes := [];
      var i := 0;
      while i < |chunks|
        invariant 0 <= i <= |chunks|
        invariant Collected(chunks[..i]) == Some(output)
      {
        assert chunks[..i + 1][..i] == chunks[..i];
        if chunks[i].None? {
          EmptySlotPanics(chunks, i);
          return None;
        }
        output := output + chunks[i].value.data;
        i := i + 1;
      }
      assert chunks[..i] == chunks;
      r := Some(output);
    }
  }

  lemma {:induction false} EmptySlotPanics(chunks: seq<Option<ChunkedData>>, i: nat)
    requires i < |chunks| && chunks[i] == None
    ensures Collected(chunks) == None
  {
    if i < |chunks| - 1 {
      EmptySlotPanics(chunks[..|chunks| - 1], i);
    }
  }

  // ----- The table of open groups -----

  const OPEN_GROUPS: nat := 10

  datatype Delivered = Delivered(group: nat, data: Bytes)

  datatype Outcome =
    | Next(open: map<nat, Group>, out: seq<Delivered>)
    | Panic

  /** Keep at most ten open groups, giving up the lowest-numbered one. */
  function Evict(open: map<nat, Group>): map<nat, Group> {
    if |open.Keys| > OPEN_GROUPS then open - {Least(open.Keys)} else open
  }

  /** The group an arriving chunk belongs to, opened if it is not in the table. */
  function Enter(open: map<nat, Group>, c: ChunkedData): Group {
    if c.group in open then open[c.group] else EmptyGroup(c.groupLength)
  }

  /** One arrival at the table. */
  function Arrive(open: map<nat, Group>, c: ChunkedData): Outcome {
    var before := Enter(open, c);
    if c.index >= |before.chunks| then Panic
    else
      var after := Put(before, c);
      if IsComplete(after) then
        match Collected(after.chunks)
        case None => Panic
        case Some(data) => Next(Evict(open - {c.group}), [Delivered(c.group, data)])
      else Next(Evict(open[c.group := after]), [])
  }

  /** A whole sequence of arrivals, starting from the empty table. */
  function Feed(arrived: seq<ChunkedData>): Outcome {
    if arrived == [] then Next(map[], [])
    else
      match Feed(arrived[..|arrived| - 1])
      case Panic => Panic
      case Next(open, out) =>
        match Arrive(open, arrived[|arrived| - 1])
        case Panic => Panic
        case Next(open', more) => Next(open', out + more)
  }

  function Payloads(out: seq<Delivered>): (r: seq<Bytes>)
    ensures |r| == |out| && forall i :: 0 <= i < |r| ==> r[i] == out[i].data
  {
    seq(|out|, i requires 0 <= i < |out| => out[i].data)
  }

  // ----- Receiving: pull packets until a message is ready -----

  datatype Received =
    | Ready(message: Bytes, open: map<nat, Group>, done: seq<Bytes>, rest: seq<Bytes>)
    | Disconnected(open: map<nat, Group>)
    | Panicked

  /** What one packet from the delegate does. */
  function Pulled(codec: Codec<ChunkedData>, open: map<nat, Group>, packet: Bytes): Outcome {
    match codec.decode(packet)
    case None => Panic
    case Some(c) => Arrive(open, c)
  }

  /** One call of `recv` when the delegate has these packets to give and then fails. */
  function Receive(codec: Codec<ChunkedData>, open: map<nat, Group>, done: seq<Bytes>, inbox: seq<Bytes>): Received
    decreases |inbox|
  {
    if done != [] then Ready(done[0], open, done[1..], inbox)
    else if inbox == [] then Disconnected(open)
    else
      match codec.decode(inbox[0])
      case None => Panicked
      case Some(c) =>
        match Arrive(open, c)
        case Panic => Panicked
        case Next(open', out) => Receive(codec, open', Payloads(out), inbox[1..])
  }

  lemma ReceiveStep(codec: Codec<ChunkedData>, open: map<nat, Group>, inbox: seq<Bytes>)
    requires inbox != []
    ensures Receive(codec, open, [], inbox) ==
            match Pulled(codec, open, inbox[0])
            case Panic => Panicked
            case Next(open', out) => Receive(codec, open', Payloads(out), inbox[1..])
  {
  }

  /** The packets a message is sent as. */
  function Encoded(codec: Codec<ChunkedData>, cs: seq<ChunkedData>): (r: seq<Bytes>)
    ensures |r| == |cs| && forall i :: 0 <= i < |r| ==> r[i] == codec.encode(cs[i])
  {
    seq(|cs|, i requires 0 <= i < |cs| => codec.encode(cs[i]))
  }

  class Chunker {
    const codec: Codec<ChunkedData>
    const chunkSize: nat
    var currentGroup: nat
    var chunkGroups: map<nat, ChunkGroup>
    var completedChunks: seq<Bytes>
    ghost var repr: set<ChunkGroup>

    ghost predicate Valid()
      reads this
    {
      && chunkSize >= 1
      && (forall g :: g in chunkGroups ==> chunkGroups[g] in repr)
      && forall g, h :: g in chunkGroups && h in chunkGroups && g != h ==> chunkGroups[g] != chunkGroups[h]
    }

    /** The values of the open groups. */
    ghost function Open(): map<nat, Group>
      reads this, repr
      requires Valid()
    {
      map g | g in chunkGroups :: chunkGroups[g].Value()
    }

    constructor (codec: Codec<ChunkedData>, chunkSize: nat)
      requires chunkSize >= 1
      ensures Valid() && fresh(repr) && this.codec == codec && this.chunkSize == chunkSize
      ensures currentGroup == 0 && Open() == map[] && completedChunks == []
    {
      this.codec, this.chunkSize := codec, chunkSize;
      currentGroup, chunkGroups, completedChunks := 0, map[], [];
      repr := {};
    }

    /** The group of this number, opened empty when there is none. */
    method Entry(chunk: ChunkedData) returns (group: ChunkGroup)
      requires Valid()
      modifies `chunkGroups, `repr
      ensures Valid() && fresh(repr - old(repr)) && old(repr) <= repr
      ensures chunk.group in chunkGroups && chunkGroups[chunk.group] == group
      ensures Open() == old(Open())[chunk.group := Enter(old(Open()), chunk)]
    {
      if chunk.group in chunkGroups {
        group := chunkGroups[chunk.group];
      } else {
        group := new ChunkGroup(chunk.groupLength);
        chunkGroups := chunkGroups[chunk.group := group];
        repr := repr + {group};
      }
    }

    /** Drop the lowest-numbered group when more than ten are open. */
    method CleanUp()
      requires Valid()
      modifies `chunkGroups
      ensures Valid() && Open() == Evict(old(Open()))
    {
      assert Open().Keys == chunkGroups.Keys;
      if |chunkGroups.Keys| > OPEN_GROUPS {
        chunkGroups := chunkGroups - {Least(chunkGroups.Keys)};
      }
    }

    /** Puts the chunk into its group; not ok when it has no slot. */
    method Fill(chunk: ChunkedData) returns (ok: bool)
      requires Valid()
      modifies `chunkGroups, `repr, repr
      ensures Valid() && fresh(repr - old(repr)) && chunk.group in chunkGroups
      ensures ok <==> chunk.index < |Enter(old(Open()), chunk).chunks|
      ensures ok ==> Open() == old(Open())[chunk.group := Put(Enter(old(Open()), chunk), chunk)]
    {
      ghost var before := Open();
      var group := Entry(chunk);
      assert group.Value() == Open()[chunk.group] == Enter(before, chunk);
      label entered:
      ok := group.AddChunk(chunk);
      assert forall g :: g in chunkGroups && g != chunk.group ==> unchanged@entered(chunkGroups[g]);
    }

    /** Removes and collects the group once it is complete; not ok when collecting it panics. */
    method Finish(g: nat) returns (ok: bool)
      requires Valid() && g in chunkGroups
      modifies `chunkGroups, `completedChunks
      ensures Valid()
      ensures var group := old(Open()[g]);
              if !IsComplete(group) then ok && Open() == old(Open()) && completedChunks == old(completedChunks)
              else match Collected(group.chunks)
                   case None => !ok
                   case Some(data) => ok && Open() == old(Open()) - {g} && completedChunks == old(completedChunks) + [data]
    {
      ok := true;
      var isComplete := chunkGroups[g].Complete();
      if isComplete {
        var data := chunkGroups[g].Collect();
        if data.None? {
          return false;
        }
        chunkGroups := chunkGroups - {g};
        completedChunks := completedChunks + [data.value];
      }
    }

    /** Files one chunk; not ok when the program panics. */
    method AddChunk(chunk: ChunkedData) returns (ok: bool)
      requires Valid()
      modifies `chunkGroups, `completedChunks, `repr, repr
      ensures Valid() && fresh(repr - old(repr))
      ensures match Arrive(old(Open()), chunk)
              case Panic => !ok
              case Next(open, out) => ok && Open() == open && completedChunks == old(completedChunks) + Payloads(out)
    {
      ghost var before := Open();
      ok := Fill(chunk);
      if !ok {
        return;
      }
      ghost var after := Put(Enter(before, chunk), chunk);
      ok := Finish(chunk.group);
      if !ok {
        return;
      }
      assert before[chunk.group := after] - {chunk.group} == before - {chunk.group};
      CleanUp();
    }

    method NextReadyChunk() returns (r: Option<Bytes>)
      modifies `completedChunks
      ensures old(completedChunks) == [] ==> r == None && completedChunks == []
      ensures old(completedChunks) != [] ==>
                r == Some(old(completedChunks)[0]) && completedChunks == old(completedChunks)[1..]
    {
      if completedChunks == [] {
        return None;
      }
      r := Some(completedChunks[0]);
      completedChunks := completedChunks[1..];
    }

    /**
     Takes the next group number, cuts the message, and hands the packets to the delegate one by
     one; `accepted` of them go through before the delegate fails, which ends the call.
     */
    method Send(data: Bytes, accepted: nat) returns (ok: bool, sent: seq<Bytes>)
      requires Valid()
      modifies `currentGroup
      ensures Valid() && currentGroup == Next64(old(currentGroup))
      ensures var all := Encoded(codec, Chunks(old(currentGroup), Split(data, chunkSize)));
              && ok == (|all| <= accepted)
              && sent == if ok then all else all[..accepted]
    {
      var pieces := Split(data, chunkSize);
      var groupLength := |pieces|;
      var group := currentGroup;
      currentGroup := Next64(group);
      ghost var all := Encoded(codec, Chunks(group, pieces));
      sent := [];
      var index := 0;
      while index < groupLength
        invariant 0 <= index <= groupLength && index <= accepted
        invariant currentGroup == Next64(old(currentGroup))
        invariant sent == all[..index]
      {
        if index == accepted {
          return false, sent;
        }
        sent := sent + [codec.encode(ChunkedData(group, index, groupLength, pieces[index]))];
        index := index + 1;
      }
      ok := true;
    }

    /** Decodes and files one packet; not ok when the program panics. */
    method Pull(packet: Bytes) returns (ok: bool)
      requires Valid()
      modifies `chunkGroups, `completedChunks, `repr, repr
      ensures Valid() && fresh(repr - old(repr))
      ensures match Pulled(codec, old(Open()), packet)
              case Panic => !ok
              case Next(open, out) => ok && Open() == open && completedChunks == old(completedChunks) + Payloads(out)
    {
      var decoded := codec.decode(packet);
      if decoded.None? {
        return false;
      }
      ok := AddChunk(decoded.value);
    }

    /** The inbox is what the delegate gives before it fails. */
    method Recv(inbox: seq<Bytes>) returns (r: Option<Bytes>, panicked: bool, rest: seq<Bytes>)
      requires Valid()
      modifies `chunkGroups, `completedChunks, `repr, repr
      ensures Valid() && fresh(repr - old(repr))
      ensures match Receive(codec, old(Open()), old(completedChunks), inbox)
              case Panicked => panicked
              case Disconnected(open) =>
                !panicked && r == None && Open() == open && completedChunks == [] && rest == []
              case Ready(message, open, done, left) =>
                !panicked && r == Some(message) && Open() == open && completedChunks == done && rest == left
    {
      rest := inbox;
      panicked := false;
      ghost var result := Receive(codec, Open(), completedChunks, inbox);
      while true
        invariant Valid() && fresh(repr - old(repr)) && !panicked
        invariant result == Receive(codec, Open(), completedChunks, rest)
        decreases |rest|
      {
        r := NextReadyChunk();
        if r.Some? {
          return;
        }
        if rest == [] {
          return;
        }
        ghost var open := Open();
        var ok := Pull(rest[0]);
        ReceiveStep(codec, open, rest);
        if !ok {
          return None, true, rest;
        }
        rest := rest[1..];
      }
    }
  }
}
