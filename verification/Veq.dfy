/** The choice of roles when two sockets connect (src/veq.rs). */
module Veq {
  import opened Common
  import opened SnowTypes
  import H = Handler
  import O = Handshake

  /** The socket with the smaller public key initiates. */
  predicate IsInitiator(own: PublicKey, remote: PublicKey) {
    LexLess(own, remote)
  }

  /** Start a session with a remote key, in the role that the keys decide. */
  function Connect(s: H.State, id: H.SessionId, remote: PublicKey): H.State {
    if IsInitiator(s.key, remote) then H.Initiate(s, id, remote, true) else H.Respond(s, id, remote, true)
  }

  /** The position at which two different keys of any lengths are decided. */
  lemma {:induction false} DecidedAt(a: PublicKey, b: PublicKey) returns (k: nat)
    requires a != b
    ensures k <= |a| && k <= |b| && a[..k] == b[..k]
    ensures k == |a| || k == |b| || a[k] != b[k]
    ensures IsInitiator(a, b) <==> k < |b| && (k == |a| || a[k] < b[k])
  {
    if a == [] || b == [] || a[0] != b[0] {
      k := 0;
    } else {
      assert a == [a[0]] + a[1..] && b == [b[0]] + b[1..];
      var j := DecidedAt(a[1..], b[1..]);
      k := j + 1;
      assert a[..k] == [a[0]] + a[1..][..j] && b[..k] == [b[0]] + b[1..][..j];
    }
  }

  /** With different keys exactly one side initiates and the other responds; with equal keys both respond. */
  lemma RolesAgree(a: PublicKey, b: PublicKey)
    ensures a != b ==> (IsInitiator(a, b) <==> !IsInitiator(b, a))
    ensures a == b ==> !IsInitiator(a, b) && !IsInitiator(b, a)
  {
    LexTrichotomy(a, b);
  }

  /** So when two sockets connect to each other under one id, they meet: one initiates, the other waits for it. */
  lemma ConnectedPairMeets(a: H.State, b: H.State, id: H.SessionId)
    requires a.key != b.key
    ensures var a1, b1 := Connect(a, id, b.key), Connect(b, id, a.key);
            if IsInitiator(a.key, b.key) then O.Meet(a1, b1, id) else O.Meet(b1, a1, id)
  {
    RolesAgree(a.key, b.key);
    O.StartedMeet(a, b, id);
    O.StartedMeet(b, a, id);
  }

  /** Two sockets with one key both poke, and neither ever sends an initiation. */
  lemma EqualKeysBothPoke(a: H.State, b: H.State, id: H.SessionId)
    requires a.key == b.key
    ensures id in Connect(a, id, b.key).pokers && id in Connect(b, id, a.key).pokers
    ensures id !in Connect(a, id, b.key).initiators && id !in Connect(b, id, a.key).initiators
  {
    RolesAgree(a.key, b.key);
  }
}
