/**
  The onion circuits of the Tor-like socket. The cipher is a parameter: decryption undoes
  encryption, and a wrapped message is a 12-byte nonce longer and a 16-byte tag longer. Every
  party uses the same key, and frames are taken whole.
 */
module Onion {
  import opened Common

  const NONCE := 12
  const TAG := 16
  const WRAP := NONCE + TAG
  const HEADER := 12

  datatype Cipher = Cipher(
    enc: (seq<Byte>, seq<Byte>) -> seq<Byte>,
    dec: (seq<Byte>, seq<Byte>) -> Option<seq<Byte>>)

  predicate Undoes(c: Cipher, nonce: seq<Byte>, plain: seq<Byte>) {
    |c.enc(nonce, plain)| == |plain| + TAG && c.dec(nonce, c.enc(nonce, plain)) == Some(plain)
  }

  ghost predicate Sound(c: Cipher) {
    forall nonce, plain :: |nonce| == NONCE ==> Undoes(c, nonce, plain)
  }

  function Wrap(c: Cipher, nonce: seq<Byte>, plain: seq<Byte>): (r: seq<Byte>) {
    nonce + c.enc(nonce, plain)
  }

  function Unwrap(c: Cipher, data: seq<Byte>): (r: Option<seq<Byte>>) {
    if |data| < WRAP then None else c.dec(data[..NONCE], data[NONCE..])
  }

  lemma Unwraps(c: Cipher, nonce: seq<Byte>, plain: seq<Byte>)
    requires Sound(c) && |nonce| == NONCE
    ensures |Wrap(c, nonce, plain)| == |plain| + WRAP
    ensures Unwrap(c, Wrap(c, nonce, plain)) == Some(plain)
  {
    assert Undoes(c, nonce, plain);
    var w := Wrap(c, nonce, plain);
    assert w[..NONCE] == nonce && w[NONCE..] == c.enc(nonce, plain);
  }

  // -------- the header of a set-up message --------

  datatype Hop = Hop(ip: seq<Byte>, port: nat)

  predicate Address(h: Hop) {
    |h.ip| == 4 && h.port < 0x1_0000
  }

  // The marker, the address and the port at their places in the twelve bytes; the rest is padding.
  function IsDest(m: seq<Byte>): (r: Byte)
    requires |m| >= HEADER
  {
    m[0]
  }

  function NextHop(m: seq<Byte>): (h: Hop)
    requires |m| >= HEADER
  {
    Hop(m[4..8], m[8] as int + 256 * m[9] as int)
  }

  // -------- what the parties do --------

  datatype Accepted = Target | Forward(next: Hop, frame: seq<Byte>) | Refused

  // A relay that takes a new connection reads one layer.
  function Accept(c: Cipher, frame: seq<Byte>): (a: Accepted) {
    match Unwrap(c, frame)
    case None => Refused
    case Some(m) =>
      if |m| < HEADER then Refused
      else if IsDest(m) == 1 then Target
      else Forward(NextHop(m), m[HEADER..])
  }

  // The k-th frame of a circuit, each relay passing on the rest of what it has read.
  function Passed(c: Cipher, frame: seq<Byte>, k: nat): (r: Option<seq<Byte>>) {
    if k == 0 then Some(frame)
    else match Passed(c, frame, k - 1)
      case None => None
      case Some(f) => if Accept(c, f).Forward? then Some(Accept(c, f).frame) else None
  }

  function Peeled(c: Cipher, data: seq<Byte>, k: nat): (r: Option<seq<Byte>>)
    decreases k
  {
    if k == 0 then Some(data)
    else match Unwrap(c, data)
      case None => None
      case Some(plain) => Peeled(c, plain, k - 1)
  }

  // What a circuit frame must be for its relays from the i-th on.
  ghost predicate Circuit(c: Cipher, frame: seq<Byte>, hops: seq<Hop>, i: nat)
    requires i < |hops|
    decreases |hops| - i
  {
    && |frame| == (HEADER + WRAP) * (|hops| - i)
    && if i == |hops| - 1 then Accept(c, frame) == Target
       else
         && Accept(c, frame).Forward?
         && Accept(c, frame).next == hops[i + 1]
         && Circuit(c, Accept(c, frame).frame, hops, i + 1)
  }

  // Every relay of the circuit reads exactly the address of the next, and the last the marker.
  lemma {:induction false} CircuitVisits(c: Cipher, frame: seq<Byte>, hops: seq<Hop>, k: nat)
    requires hops != [] && Circuit(c, frame, hops, 0) && k < |hops|
    ensures Passed(c, frame, k).Some? && Circuit(c, Passed(c, frame, k).value, hops, k)
    ensures var f := Passed(c, frame, k).value;
      && |f| == (HEADER + WRAP) * (|hops| - k)
      && (Accept(c, f) == Target <==> k == |hops| - 1)
      && (k < |hops| - 1 ==> Accept(c, f).Forward? && Accept(c, f).next == hops[k + 1])
  {
    if k > 0 {
      CircuitVisits(c, frame, hops, k - 1);
    }
  }

  // A further layer put round the frame of relay i + 1 makes the frame of relay i.
  lemma CircuitGrows(c: Cipher, inner: seq<Byte>, hops: seq<Hop>, i: nat, nonce: seq<Byte>, m: seq<Byte>)
    requires Sound(c) && |nonce| == NONCE && i + 1 < |hops|
    requires Circuit(c, inner, hops, i + 1)
    requires |m| == HEADER && IsDest(m) == 0 && NextHop(m) == hops[i + 1]
    ensures Circuit(c, Wrap(c, nonce, m + inner), hops, i)
  {
    Unwraps(c, nonce, m + inner);
    var plain := m + inner;
    assert plain[HEADER..] == inner && plain[4..8] == m[4..8];
    var n := |hops| - i;
    assert (HEADER + WRAP) * n == (HEADER + WRAP) * (n - 1) + HEADER + WRAP;
  }

  // -------- the sender's loop --------

  method Copy(dst: array<Byte>, at: nat, src: seq<Byte>)
    requires at + |src| <= dst.Length
    modifies dst
    ensures dst[..at] == old(dst[..at])
    ensures dst[at..at + |src|] == src
    ensures dst[at + |src|..] == old(dst[at + |src|..])
  {
    forall k | 0 <= k < |src| {
      dst[at + k] := src[k];
    }
  }

  method PutHeader(buffer: array<Byte>, hop: Hop)
    requires buffer.Length >= HEADER && Address(hop)
    modifies buffer
    ensures IsDest(buffer[..HEADER]) == 0 && NextHop(buffer[..HEADER]) == hop
    ensures buffer[HEADER..] == old(buffer[HEADER..])
  {
    buffer[0] := 0;
    Copy(buffer, 4, hop.ip);
    assert buffer[0] == 0;
    buffer[8], buffer[9] := hop.port % 256, hop.port / 256;
    assert buffer[4..8] == hop.ip;
    assert buffer[..HEADER][4..8] == buffer[4..8];
  }

  // One call of the cipher: a fresh nonce and then the ciphertext.
  method Encrypt(c: Cipher, dst: array<Byte>, nonce: seq<Byte>, plain: seq<Byte>) returns (len: nat)
    requires Sound(c) && |nonce| == NONCE && |plain| + WRAP <= dst.Length
    modifies dst
    ensures len == |plain| + WRAP
    ensures dst[..len] == Wrap(c, nonce, plain)
  {
    Unwraps(c, nonce, plain);
    len := |plain| + WRAP;
    Copy(dst, 0, Wrap(c, nonce, plain));
    assert dst[..len] == dst[0..0 + len];
  }

  // -------- data --------

  ghost predicate Nonces(ns: seq<seq<Byte>>) {
    forall i :: 0 <= i < |ns| ==> |ns[i]| == NONCE
  }

  // A message under one layer for each nonce, the first innermost.
  function Layers(c: Cipher, ns: seq<seq<Byte>>, s: seq<Byte>): (r: seq<Byte>) {
    if ns == [] then s else Wrap(c, ns[|ns| - 1], Layers(c, ns[..|ns| - 1], s))
  }

  // Taking k layers off leaves what the layers below them made, 28 bytes shorter for each.
  lemma {:induction false} PeelsLayers(c: Cipher, ns: seq<seq<Byte>>, s: seq<Byte>, k: nat)
    requires Sound(c) && Nonces(ns) && k <= |ns|
    ensures Peeled(c, Layers(c, ns, s), k) == Some(Layers(c, ns[..|ns| - k], s))
    decreases k
  {
    if k == 0 {
      assert ns[..|ns|] == ns;
    } else {
      var last := |ns| - 1;
      Unwraps(c, ns[last], Layers(c, ns[..last], s));
      PeelsLayers(c, ns[..last], s, k - 1);
      assert ns[..last][..last - (k - 1)] == ns[..|ns| - k];
    }
  }

  lemma {:induction false} LayersSize(c: Cipher, ns: seq<seq<Byte>>, s: seq<Byte>)
    requires Sound(c) && Nonces(ns)
    ensures |Layers(c, ns, s)| == |s| + WRAP * |ns|
  {
    if ns != [] {
      var last := |ns| - 1;
      LayersSize(c, ns[..last], s);
      Unwraps(c, ns[last], Layers(c, ns[..last], s));
    }
  }

  lemma {:induction false} LayersOnLayers(c: Cipher, inner: seq<seq<Byte>>, outer: seq<seq<Byte>>, s: seq<Byte>)
    ensures Layers(c, outer, Layers(c, inner, s)) == Layers(c, inner + outer, s)
    decreases |outer|
  {
    if outer == [] {
      assert inner + outer == inner;
    } else {
      var last := |outer| - 1;
      LayersOnLayers(c, inner, outer[..last], s);
      assert (inner + outer)[..|inner + outer| - 1] == inner + outer[..last];
    }
  }

  // A relay of an open circuit takes a layer off on the way out and puts one on on the way back.
  function Relayed(c: Cipher, encrypt: bool, nonce: seq<Byte>, frame: seq<Byte>): (r: Option<seq<Byte>>) {
    if encrypt then Some(Wrap(c, nonce, frame)) else Unwrap(c, frame)
  }

  function RelayedAll(c: Cipher, encrypt: bool, ns: seq<seq<Byte>>, frame: seq<Byte>): (r: Option<seq<Byte>>) {
    if ns == [] then Some(frame)
    else match RelayedAll(c, encrypt, ns[..|ns| - 1], frame)
      case None => None
      case Some(f) => Relayed(c, encrypt, ns[|ns| - 1], f)
  }

  lemma {:induction false} RelayedOut(c: Cipher, unused: seq<seq<Byte>>, ns: seq<seq<Byte>>, s: seq<Byte>)
    requires Sound(c) && Nonces(ns) && |unused| <= |ns|
    ensures RelayedAll(c, false, unused, Layers(c, ns, s)) == Some(Layers(c, ns[..|ns| - |unused|], s))
    decreases |unused|
  {
    if unused == [] {
      assert ns[..|ns|] == ns;
    } else {
      var last := |unused| - 1;
      RelayedOut(c, unused[..last], ns, s);
      var left := ns[..|ns| - last];
      PeelsLayers(c, left, s, 1);
      assert left[..|left| - 1] == ns[..|ns| - |unused|];
    }
  }

  lemma {:induction false} RelayedBack(c: Cipher, ns: seq<seq<Byte>>, frame: seq<Byte>)
    ensures RelayedAll(c, true, ns, frame) == Some(Layers(c, ns, frame))
    decreases |ns|
  {
    if ns != [] {
      RelayedBack(c, ns[..|ns| - 1], frame);
    }
  }

  // Through any number of relays, what the sender sends is what the target reads.
  lemma SenderToTarget(c: Cipher, relays: seq<seq<Byte>>, ns: seq<seq<Byte>>, s: seq<Byte>)
    requires Sound(c) && Nonces(ns) && |ns| == |relays| + 1
    ensures var arrived := RelayedAll(c, false, relays, Layers(c, ns, s));
      arrived.Some? && |arrived.value| == |s| + WRAP && Peeled(c, arrived.value, 1) == Some(s)
  {
    RelayedOut(c, relays, ns, s);
    PeelsLayers(c, ns[..1], s, 1);
    LayersSize(c, ns[..1], s);
    assert ns[..1][..0] == [];
  }

  // And what the target sends back is what the sender reads.
  lemma TargetToSender(c: Cipher, relays: seq<seq<Byte>>, first: seq<Byte>, s: seq<Byte>)
    requires Sound(c) && Nonces(relays) && |first| == NONCE
    ensures var arrived := RelayedAll(c, true, relays, Layers(c, [first], s));
      && arrived.Some? && |arrived.value| == |s| + WRAP * (|relays| + 1)
      && Peeled(c, arrived.value, |relays| + 1) == Some(s)
  {
    var ns := [first] + relays;
    RelayedBack(c, relays, Layers(c, [first], s));
    LayersOnLayers(c, [first], relays, s);
    LayersSize(c, ns, s);
    PeelsLayers(c, ns, s, |ns|);
    assert ns[..0] == [];
  }

  // One turn of the sender's loop: the header if there is one, and a layer round it all.
  method AddLayer(c: Cipher, buf: array<Byte>, buffer: array<Byte>, size: nat, header: bool, hop: Hop, nonce: seq<Byte>)
    returns (len: nat, ghost m: seq<Byte>)
    requires Sound(c) && |nonce| == NONCE && Address(hop)
    requires buf != buffer && buf.Length == buffer.Length
    requires size + WRAP + (if header then HEADER else 0) <= buf.Length
    modifies buf, buffer
    ensures if header then |m| == HEADER && IsDest(m) == 0 && NextHop(m) == hop else m == []
    ensures len == size + |m| + WRAP && buf[..len] == Wrap(c, nonce, m + old(buf[..size]))
  {
    var offset := if header then HEADER else 0;
    ghost var inner := buf[..size];
    Copy(buffer, offset, buf[..size]);
    len := size + offset;
    ghost var tail := buffer[offset..];
    assert tail[..size] == buffer[offset..offset + size] == inner;
    if header {
      PutHeader(buffer, hop);
    }
    m := buffer[..offset];
    assert buffer[..len] == m + buffer[offset..][..size];
    len := Encrypt(c, buf, nonce, buffer[..len]);
  }

  // Layers are put on from the destination outwards; the set-up message gets a header with each.
  method GenerateCircuits(c: Cipher, buf: array<Byte>, buffer: array<Byte>, size: nat, header: bool, layer: nat,
                          relays: seq<Hop>, ns: seq<seq<Byte>>) returns (len: nat)
    requires Sound(c) && Nonces(ns) && |ns| == layer + 1
    requires buf != buffer && buf.Length == buffer.Length
    requires size + WRAP + layer * (WRAP + if header then HEADER else 0) <= buf.Length
    requires |relays| == layer + 1 && forall i :: 0 <= i < |relays| ==> Address(relays[i])
    modifies buf, buffer
    ensures len <= buf.Length
    ensures !header ==> buf[..len] == Layers(c, ns, old(buf[..size]))
    ensures header && size == HEADER && IsDest(old(buf[..size])) == 1 ==> Circuit(c, buf[..len], relays, 0)
  {
    ghost var payload := buf[..size];
    len := Encrypt(c, buffer, ns[0], buf[..size]);
    Copy(buf, 0, buffer[..len]);
    assert buf[..len] == buf[0..0 + len];
    Innermost(c, header, relays, ns, payload);
    var i := layer;
    ghost var each := WRAP + if header then HEADER else 0;
    ghost var room := layer * each;
    while i > 0
      invariant 0 <= i <= layer
      invariant room == i * each && len + room <= buf.Length
      invariant Built(c, header, relays, ns, payload, i, buf[..len])
    {
      i := i - 1;
      LessRoom(i, each);
      room := room - each;
      ghost var inner := buf[..len];
      ghost var m;
      len, m := AddLayer(c, buf, buffer, len, header, relays[i + 1], ns[layer - i]);
      BuiltGrows(c, header, relays, ns, payload, i, inner, m);
    }
    assert ns[..layer + 1] == ns;
  }

  // What the buffer holds when the relays from the i-th on have their layers.
  ghost predicate Built(c: Cipher, header: bool, relays: seq<Hop>, ns: seq<seq<Byte>>, payload: seq<Byte>, i: nat,
                        data: seq<Byte>)
    requires i < |relays| == |ns|
  {
    if header then |payload| == HEADER && IsDest(payload) == 1 ==> Circuit(c, data, relays, i)
    else data == Layers(c, ns[..|ns| - i], payload)
  }

  lemma BuiltGrows(c: Cipher, header: bool, relays: seq<Hop>, ns: seq<seq<Byte>>, payload: seq<Byte>, i: nat,
                   inner: seq<Byte>, m: seq<Byte>)
    requires Sound(c) && Nonces(ns) && i + 1 < |relays| == |ns|
    requires Built(c, header, relays, ns, payload, i + 1, inner)
    requires if header then |m| == HEADER && IsDest(m) == 0 && NextHop(m) == relays[i + 1] else m == []
    ensures Built(c, header, relays, ns, payload, i, Wrap(c, ns[|ns| - 1 - i], m + inner))
  {
    var k := |ns| - 1 - i;
    if header {
      if |payload| == HEADER && IsDest(payload) == 1 {
        CircuitGrows(c, inner, relays, i, ns[k], m);
      }
    } else {
      assert m + inner == inner;
      assert ns[..k + 1][..k] == ns[..k];
    }
  }

  lemma LessRoom(i: nat, w: nat)
    ensures (i + 1) * w == i * w + w && i * w >= 0
  {
  }

  lemma Innermost(c: Cipher, header: bool, relays: seq<Hop>, ns: seq<seq<Byte>>, payload: seq<Byte>)
    requires Sound(c) && Nonces(ns) && 0 < |relays| == |ns|
    ensures Built(c, header, relays, ns, payload, |relays| - 1, Wrap(c, ns[0], payload))
  {
    Unwraps(c, ns[0], payload);
    assert ns[..1][..0] == [] && ns[..1][0] == ns[0];
  }

  // The reader's loop.
  method RecvDecryptOnion(c: Cipher, frame: seq<Byte>, layer: nat) returns (r: Option<seq<Byte>>)
    ensures r == Peeled(c, frame, layer + 1)
  {
    var buffer := frame;
    for i := 0 to layer + 1
      invariant Peeled(c, buffer, layer + 1 - i) == Peeled(c, frame, layer + 1)
    {
      if |buffer| < WRAP {
        return None;
      }
      var plain := c.dec(buffer[..NONCE], buffer[NONCE..]);
      if plain == None {
        return None;
      }
      buffer := plain.value;
    }
    return Some(buffer);
  }
}
