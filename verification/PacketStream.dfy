// Packets over a byte stream: PacketProtoEncoder, PacketStreamSender and PacketProtoDecoder of
// badvpn/flow.
//
// A packet travels as its length, two bytes with the low one first, and its payload.

module PacketStream {
  import opened Common

  const HEADER: nat := 2            // sizeof(struct packetproto_header)
  const MAX_PAYLOAD: nat := 0xFFFF  // PACKETPROTO_MAXPAYLOAD

  type Packet = seq<byte>

  // htol16
  function Le16(x: nat): (r: seq<byte>)
    ensures |r| == HEADER
  {
    [x % 256, x / 256 % 256]
  }

  // ltoh16
  function LengthAt(s: seq<byte>): (r: nat)
    requires |s| >= HEADER
    ensures r <= MAX_PAYLOAD
  {
    var low: nat, high: nat := s[0], s[1];
    low + 256 * high
  }

  // PACKETPROTO_ENCLEN
  function EncLen(len: nat): nat { HEADER + len }

  function Frame(p: Packet): (r: seq<byte>)
    ensures |r| == EncLen(|p|)
  {
    Le16(|p|) + p
  }

  lemma FrameLength(p: Packet, rest: seq<byte>)
    requires |p| <= MAX_PAYLOAD
    ensures var s := Frame(p) + rest;
      LengthAt(s) == |p| && s[HEADER..EncLen(|p|)] == p && s[EncLen(|p|)..] == rest
  {
    LengthRoundTrip(|p|);
    var s := Frame(p) + rest;
    assert s[0] == Le16(|p|)[0] && s[1] == Le16(|p|)[1];
  }

  lemma LengthRoundTrip(x: nat)
    requires x <= MAX_PAYLOAD
    ensures LengthAt(Le16(x)) == x
  {
  }

  // What the encoder makes of a list of packets, and the sender puts on the stream.
  function Encode(ps: seq<Packet>): seq<byte> {
    if ps == [] then [] else Frame(ps[0]) + Encode(ps[1..])
  }

  // ---------------------------------------------------------------------------------------
  // The decoder as a machine
  // ---------------------------------------------------------------------------------------

  // `pending` is what has been received and not decoded; either a decoded packet is being
  // delivered or the decoder waits for data.
  datatype State = State(mtu: nat, pending: seq<byte>, sending: bool, delivered: seq<Packet>, errors: nat)

  datatype Event =
    | Received(data: seq<byte>)  // the input calls input_handler_done
    | Accepted                   // the output calls output_handler_done
    | Reset                      // PacketProtoDecoder_Reset

  // A whole packet of legal length is at the front.
  predicate HasPacket(s: seq<byte>, mtu: nat) {
    |s| >= HEADER && LengthAt(s) <= mtu && |s| >= EncLen(LengthAt(s))
  }

  predicate TooLarge(s: seq<byte>, mtu: nat) {
    |s| >= HEADER && LengthAt(s) > mtu
  }

  // process_data
  function Process(s: State): State {
    if TooLarge(s.pending, s.mtu) then s.(pending := [], sending := false, errors := s.errors + 1)
    else if HasPacket(s.pending, s.mtu) then
      var n := EncLen(LengthAt(s.pending));
      s.(pending := s.pending[n..], sending := true, delivered := s.delivered + [s.pending[HEADER..n]])
    else s.(sending := false)
  }

  ghost predicate Enabled(s: State, e: Event) {
    match e
    case Received(data) => !s.sending && data != []
    case Accepted => s.sending
    case Reset => true
  }

  function Step(s: State, e: Event): State {
    match e
    case Received(data) => Process(s.(pending := s.pending + data))
    case Accepted => Process(s)
    case Reset => s.(pending := [])
  }

  function Run(s: State, events: seq<Event>): State
    decreases |events|
  {
    if events == [] then s else Run(Step(s, events[0]), events[1..])
  }

  ghost predicate Possible(s: State, events: seq<Event>)
    decreases |events|
  {
    events == [] || (Enabled(s, events[0]) && Possible(Step(s, events[0]), events[1..]))
  }

  // All that has come in.
  function Taken(events: seq<Event>): seq<byte>
    decreases |events|
  {
    if events == [] then [] else (if events[0].Received? then events[0].data else []) + Taken(events[1..])
  }

  function Begin(mtu: nat): State {
    State(mtu, [], false, [], 0)
  }

  // ---------------------------------------------------------------------------------------
  // Round trip
  // ---------------------------------------------------------------------------------------

  // What is pending and what is still to come are the encoding of the packets that are still to
  // be delivered.
  ghost predicate OnTrack(s: State, ps: seq<Packet>, coming: seq<byte>) {
    && (forall p :: p in ps ==> |p| <= s.mtu)
    && s.mtu <= MAX_PAYLOAD && s.errors == 0
    && |s.delivered| <= |ps| && s.delivered == ps[..|s.delivered|]
    && s.pending + coming == Encode(ps[|s.delivered|..])
    && (!s.sending ==> !HasPacket(s.pending, s.mtu) && !TooLarge(s.pending, s.mtu))
  }

  // A prefix of an encoding never looks too large, and when it has a packet, that is the first.
  lemma PrefixOfEncoding(pending: seq<byte>, coming: seq<byte>, ps: seq<Packet>, mtu: nat)
    requires forall p :: p in ps ==> |p| <= mtu
    requires mtu <= MAX_PAYLOAD && pending + coming == Encode(ps)
    ensures !TooLarge(pending, mtu)
    ensures |pending| >= HEADER ==> ps != []
    ensures HasPacket(pending, mtu) ==>
      var n := EncLen(LengthAt(pending));
      && ps != [] && pending[HEADER..n] == ps[0] && pending[n..] + coming == Encode(ps[1..])
  {
    if |pending| >= HEADER && ps != [] {
      var p := ps[0];
      assert p in ps;
      FrameLength(p, Encode(ps[1..]));
      var s := pending + coming;
      assert LengthAt(pending) == LengthAt(s) == |p|;
      if HasPacket(pending, mtu) {
        var n := EncLen(|p|);
        assert pending[HEADER..n] == s[HEADER..n];
        assert pending[n..] + coming == s[n..];
      }
    }
  }

  lemma ProcessOnTrack(s: State, ps: seq<Packet>, coming: seq<byte>)
    requires (forall p :: p in ps ==> |p| <= s.mtu) && s.mtu <= MAX_PAYLOAD && s.errors == 0
    requires |s.delivered| <= |ps| && s.delivered == ps[..|s.delivered|]
    requires s.pending + coming == Encode(ps[|s.delivered|..])
    ensures OnTrack(Process(s), ps, coming)
  {
    var k := |s.delivered|;
    PrefixOfEncoding(s.pending, coming, ps[k..], s.mtu);
    if HasPacket(s.pending, s.mtu) {
      assert ps[k..][0] == ps[k] && ps[k..][1..] == ps[k + 1..];
      assert ps[..k + 1] == ps[..k] + [ps[k]];
    }
  }

  lemma StepOnTrack(s: State, e: Event, ps: seq<Packet>, coming: seq<byte>)
    requires !e.Reset? && Enabled(s, e)
    requires OnTrack(s, ps, (if e.Received? then e.data else []) + coming)
    ensures OnTrack(Step(s, e), ps, coming)
  {
    match e
    case Received(data) =>
      assert s.pending + (data + coming) == (s.pending + data) + coming;
      ProcessOnTrack(s.(pending := s.pending + data), ps, coming);
    case Accepted =>
      assert [] + coming == coming;
      ProcessOnTrack(s, ps, coming);
  }

  lemma {:induction false} RunOnTrack(s: State, events: seq<Event>, ps: seq<Packet>, coming: seq<byte>)
    requires OnTrack(s, ps, Taken(events) + coming) && Possible(s, events)
    requires forall i :: 0 <= i < |events| ==> !events[i].Reset?
    ensures OnTrack(Run(s, events), ps, coming)
    decreases |events|
  {
    hide Step, OnTrack, Enabled;
    if events == [] {
      assert [] + coming == coming;
    } else {
      var e := events[0];
      var data := if e.Received? then e.data else [];
      Regroup(data, Taken(events[1..]), coming);
      StepOnTrack(s, e, ps, Taken(events[1..]) + coming);
      RunOnTrack(Step(s, e), events[1..], ps, coming);
    }
  }

  // However the encoding of some packets is cut into chunks, the decoder delivers these packets
  // in this order, reports no error, and, when the chunks have all come and it wants more data,
  // has delivered all of them.
  lemma RoundTrip(mtu: nat, ps: seq<Packet>, events: seq<Event>, coming: seq<byte>)
    requires mtu <= MAX_PAYLOAD && forall p :: p in ps ==> |p| <= mtu
    requires Taken(events) + coming == Encode(ps) && Possible(Begin(mtu), events)
    requires forall i :: 0 <= i < |events| ==> !events[i].Reset?
    ensures var s := Run(Begin(mtu), events);
      && s.errors == 0 && s.delivered <= ps
      && Encode(s.delivered) + s.pending == Taken(events)
      && (coming == [] && !s.sending ==> s.delivered == ps && s.pending == [])
  {
    hide Encode, Run, Taken, Possible, HasPacket, TooLarge;
    assert ps[0..] == ps;
    assert [] + (Taken(events) + coming) == Taken(events) + coming;
    StartsOnTrack(mtu, ps, Taken(events) + coming);
    RunOnTrack(Begin(mtu), events, ps, coming);
    RunKeepsMtu(Begin(mtu), events);
    TrackSays(Run(Begin(mtu), events), ps, Taken(events), coming);
  }

  lemma StartsOnTrack(mtu: nat, ps: seq<Packet>, coming: seq<byte>)
    requires mtu <= MAX_PAYLOAD && (forall p :: p in ps ==> |p| <= mtu) && coming == Encode(ps)
    ensures OnTrack(Begin(mtu), ps, coming)
  {
    hide Encode;
    assert ps[0..] == ps && ps[..0] == [] && [] + coming == coming;
  }

  lemma {:induction false} RunKeepsMtu(s: State, events: seq<Event>)
    ensures Run(s, events).mtu == s.mtu
    decreases |events|
  {
    if events != [] { RunKeepsMtu(Step(s, events[0]), events[1..]); }
  }

  lemma TrackSays(s: State, ps: seq<Packet>, taken: seq<byte>, coming: seq<byte>)
    requires OnTrack(s, ps, coming) && taken + coming == Encode(ps)
    ensures s.errors == 0 && s.delivered <= ps && Encode(s.delivered) + s.pending == taken
    ensures coming == [] && !s.sending ==> s.delivered == ps && s.pending == []
  {
    var k := |s.delivered|;
    EncodeSplit(ps, k);
    hide Encode, HasPacket, TooLarge;
    assert Encode(s.delivered) + (s.pending + coming) == Encode(s.delivered) + s.pending + coming;
    Cancel(Encode(s.delivered) + s.pending, taken, coming);
    if coming == [] && !s.sending {
      if k < |ps| {
        NothingLeft(s.pending, ps[k..], s.mtu);
      } else {
        EncodeNone();
        assert ps[k..] == [] && s.pending + [] == s.pending;
      }
    }
  }

  lemma EncodeNone()
    ensures Encode([]) == []
  {
  }

  lemma Cancel(a: seq<byte>, b: seq<byte>, c: seq<byte>)
    requires a + c == b + c
    ensures a == b
  {
    assert |a| == |b|;
    assert a == (a + c)[..|a|] && b == (b + c)[..|b|];
  }

  lemma {:induction false} EncodeSplit(ps: seq<Packet>, k: nat)
    requires k <= |ps|
    ensures Encode(ps) == Encode(ps[..k]) + Encode(ps[k..])
  {
    if k == 0 {
      assert ps[0..] == ps && ps[..0] == [];
    } else {
      hide Frame;
      EncodeSplit(ps[1..], k - 1);
      var front, back := ps[..k], ps[k..];
      assert ps[1..][..k - 1] == front[1..] && ps[1..][k - 1..] == back && front[0] == ps[0];
      Regroup(Frame(ps[0]), Encode(front[1..]), Encode(back));
    }
  }

  // A whole encoding of at least one packet has a packet at its front.
  lemma NothingLeft(pending: seq<byte>, ps: seq<Packet>, mtu: nat)
    requires ps != [] && (forall p :: p in ps ==> |p| <= mtu) && mtu <= MAX_PAYLOAD && pending + [] == Encode(ps)
    ensures HasPacket(pending, mtu)
  {
    assert ps[0] in ps;
    FrameLength(ps[0], Encode(ps[1..]));
    assert pending == Encode(ps);
  }

  // ---------------------------------------------------------------------------------------
  // The code
  // ---------------------------------------------------------------------------------------

  class Encoder {
    const inputMtu: nat
    var outputPacket: Option<array<byte>>

    // PacketProtoEncoder_Init
    constructor (inputMtu: nat)
      requires inputMtu <= MAX_PAYLOAD
      ensures this.inputMtu == inputMtu && outputPacket.None?
    {
      this.inputMtu := inputMtu;
      outputPacket := None;
    }

    // output_handler_recv: the input is asked for a packet behind the room for its header.
    method OutputHandlerRecv(data: array<byte>) returns (at: nat)
      requires outputPacket.None? && data.Length >= EncLen(inputMtu)
      modifies this
      ensures outputPacket == Some(data) && at == HEADER && at + inputMtu <= data.Length
    {
      outputPacket := Some(data);
      at := HEADER;
    }

    // input_handler_done: the input has put a packet of length `inLen` there.
    method InputHandlerDone(inLen: nat) returns (outLen: nat)
      requires outputPacket.Some? && inLen <= inputMtu <= MAX_PAYLOAD
      requires outputPacket.value.Length >= EncLen(inputMtu)
      modifies this, outputPacket.value
      ensures outputPacket.None? && outLen == EncLen(inLen)
      ensures old(outputPacket).value[..outLen] == Frame(old(outputPacket.value[HEADER..EncLen(inLen)]))
    {
      var a := outputPacket.value;
      ghost var p := a[HEADER..EncLen(inLen)];
      a[0], a[1] := inLen % 256, inLen / 256 % 256;
      outputPacket := None;
      outLen := EncLen(inLen);
      assert a[..outLen] == [a[0], a[1]] + a[HEADER..EncLen(inLen)];
    }
  }

  function Flat(ps: seq<Packet>): seq<byte> {
    if ps == [] then [] else ps[0] + Flat(ps[1..])
  }

  lemma {:induction false} FlatSnoc(ps: seq<Packet>, p: Packet)
    ensures Flat(ps + [p]) == Flat(ps) + p
  {
    if ps == [] {
      assert [] + [p] == [p] && Flat([p]) == p + Flat([]);
    } else {
      FlatSnoc(ps[1..], p);
      assert (ps + [p])[1..] == ps[1..] + [p];
      assert ps[0] + (Flat(ps[1..]) + p) == (ps[0] + Flat(ps[1..])) + p;
    }
  }

  // Sending the encoder's packets puts the encoding on the stream.
  lemma {:induction false} FlatFrames(ps: seq<Packet>, frames: seq<Packet>)
    requires |frames| == |ps| && forall i :: 0 <= i < |ps| ==> frames[i] == Frame(ps[i])
    ensures Flat(frames) == Encode(ps)
  {
    if ps != [] { FlatFrames(ps[1..], frames[1..]); }
  }

  lemma TakenMore(before: seq<byte>, p: Packet, used: nat, n: nat)
    requires used + n <= |p|
    ensures before + p[..used] + p[used..used + n] == before + p[..used + n]
  {
    Regroup(before, p[..used], p[used..used + n]);
    assert p[..used + n] == p[..used] + p[used..used + n];
  }

  // What send_data does next.
  datatype Next = More(from: nat, len: nat) | Finished

  class Sender {
    var inLen: int
    var inUsed: nat
    var input: seq<byte>           // the packet being sent
    ghost var passed: seq<byte>    // what the output has taken
    ghost var packets: seq<Packet> // the packets that are done

    // While a packet is being sent, the output has some of it to take; it has taken all packets
    // before it, and this one up to in_used.
    ghost predicate Valid()
      reads this
    {
      && (inLen == -1 || 0 <= inUsed < inLen == |input|)
      && passed == Flat(packets) + if inLen == -1 then [] else input[..inUsed]
    }

    constructor ()
      ensures Valid() && inLen == -1 && passed == [] && packets == []
    {
      inLen, inUsed, input, passed, packets := -1, 0, [], [], [];
    }

    method SendData() returns (next: Next)
      requires 0 <= inUsed <= inLen == |input| && passed == Flat(packets) + input[..inUsed]
      modifies this
      ensures Valid() && passed == old(passed) && input == old(input) && inUsed == old(inUsed)
      ensures if inUsed < |input|
        then next == More(inUsed, |input| - inUsed) && inLen == old(inLen) && packets == old(packets)
              else next == Finished && inLen == -1 && packets == old(packets) + [input]
    {
      if inUsed < inLen {
        next := More(inUsed, inLen - inUsed);
      } else {
        inLen := -1;
        next := Finished;
        FlatSnoc(packets, input);
        assert input[..inUsed] == input;
        packets := packets + [input];
        assert passed == Flat(packets) + [];
      }
    }

    method InputHandlerSend(data: seq<byte>) returns (next: Next)
      requires Valid() && inLen == -1
      modifies this
      ensures Valid() && passed == old(passed) && input == data && inUsed == 0
      ensures if data != [] then next == More(0, |data|) && inLen == |data| && packets == old(packets)
              else next == Finished && inLen == -1 && packets == old(packets) + [data]
    {
      inLen := |data|;
      input := data;
      inUsed := 0;
      next := SendData();
    }

    // The output has taken n bytes.  The packet is done when all its bytes have been taken, and
    // until then the output is given the rest of it.
    method OutputHandlerDone(n: nat) returns (next: Next)
      requires Valid() && inLen >= 0 && 0 < n <= inLen - inUsed
      modifies this
      ensures Valid() && input == old(input) && inUsed == old(inUsed) + n
      ensures passed == old(passed) + input[old(inUsed)..inUsed]
      ensures if inUsed < |input|
        then next == More(inUsed, |input| - inUsed) && inLen == old(inLen) && packets == old(packets)
              else next == Finished && inLen == -1 && packets == old(packets) + [input]
    {
      hide Flat;
      TakenMore(Flat(packets), input, inUsed, n);
      passed := passed + input[inUsed..inUsed + n];
      inUsed := inUsed + n;
      next := SendData();
    }
  }

  // What process_data asks for: the output to take the packet at a place in the buffer, or the
  // input for data at a place in the buffer.
  datatype Action = Send(at: nat, len: nat) | Recv(at: nat, len: nat, error: bool)

  // The packet in the buffer, and what is pending behind it.
  lemma ProcessTakes(s: State, b: seq<byte>, at: nat, used: nat)
    requires at + used <= |b| && s.pending == b[at..at + used] && HasPacket(s.pending, s.mtu)
    ensures var n := EncLen(LengthAt(s.pending));
      && n <= used
      && Process(s) == s.(pending := b[at + n..at + used], sending := true,
                          delivered := s.delivered + [b[at + HEADER..at + n]])
  {
    hide LengthAt;
    Slices(b, at, used, EncLen(LengthAt(s.pending)));
  }

  lemma Slices(b: seq<byte>, at: nat, used: nat, n: nat)
    requires HEADER <= n <= used && at + used <= |b|
    ensures b[at..at + used][HEADER..n] == b[at + HEADER..at + n]
    ensures b[at..at + used][n..] == b[at + n..at + used]
  {
  }

  class Decoder {
    const outputMtu: nat
    const buf: array<byte>
    var bufStart: nat
    var bufUsed: nat
    ghost var sending: bool
    ghost var delivered: seq<Packet>
    ghost var errors: nat
    ghost var packetAt: nat  // where the packet last delivered lies

    ghost predicate Fits()
      reads this
    {
      && outputMtu <= MAX_PAYLOAD && buf.Length == EncLen(outputMtu)
      && bufStart + bufUsed <= buf.Length
    }

    // There is always room for the data asked for, and a packet being delivered stays where it
    // is, before what is pending.
    ghost predicate Valid()
      reads this, buf
    {
      && Fits()
      && (!sending ==> bufStart + bufUsed < buf.Length)
      && (sending ==> delivered != [] && PacketInPlace())
    }

    ghost predicate PacketInPlace()
      requires Fits() && delivered != []
      reads this, buf
    {
      var p := delivered[|delivered| - 1];
      packetAt + |p| <= bufStart && buf[packetAt..packetAt + |p|] == p
    }

    ghost function Now(): State
      requires Fits()
      reads this, buf
    {
      State(outputMtu, buf[bufStart..bufStart + bufUsed], sending, delivered, errors)
    }

    // PacketProtoDecoder_Init; it begins by asking for as much as the buffer holds.
    constructor (mtu: nat)
      ensures Valid() && Now() == Begin(outputMtu) && outputMtu == Min(mtu, MAX_PAYLOAD)
      ensures bufStart == 0 && fresh(buf)
    {
      var limit := Min(mtu, MAX_PAYLOAD);
      outputMtu := limit;
      buf := new byte[EncLen(limit)];
      bufStart, bufUsed := 0, 0;
      sending, delivered, errors, packetAt := false, [], 0, 0;
    }

    // The memmove of process_data.
    method Compact()
      requires Fits()
      modifies this`bufStart, buf
      ensures Fits() && bufStart == 0 && Now() == old(Now())
    {
      ghost var pending := buf[bufStart..bufStart + bufUsed];
      forall i | 0 <= i < bufUsed {
        buf[i] := buf[bufStart + i];
      }
      bufStart := 0;
      assert buf[0..bufUsed] == pending;
    }

    method ProcessData() returns (a: Action)
      requires Fits()
      modifies this, buf
      ensures Valid() && Now() == Process(old(Now()))
      ensures sending ==> a == Send(packetAt, |delivered[|delivered| - 1]|)
      ensures !sending ==>
        a == Recv(bufStart + bufUsed, buf.Length - (bufStart + bufUsed), TooLarge(old(Now()).pending, outputMtu))
    {
      hide Process, Valid;
      var wasError := false;
      if bufUsed >= HEADER {
        var len := LengthAt(buf[bufStart..bufStart + bufUsed]);
        if len > outputMtu {
          wasError := true;
        } else if bufUsed - HEADER >= len {
          a := Deliver(len);
          return;
        }
      }
      a := AskForData(wasError);
    }

    // The part of process_data that submits a packet.
    method Deliver(len: nat) returns (a: Action)
      requires Fits() && HasPacket(Now().pending, outputMtu) && len == LengthAt(Now().pending)
      modifies this`bufStart, this`bufUsed, this`sending, this`delivered, this`packetAt
      ensures Valid() && Now() == Process(old(Now()))
      ensures sending && a == Send(packetAt, |delivered[|delivered| - 1]|)
    {
      hide LengthAt, Process, HasPacket;
      ProcessTakes(Now(), buf[..], bufStart, bufUsed);
      a := Send(bufStart + HEADER, len);
      TakePacket(len);
    }

    method TakePacket(len: nat)
      requires Fits() && EncLen(len) <= bufUsed
      modifies this`bufStart, this`bufUsed, this`sending, this`delivered, this`packetAt
      ensures Valid() && sending && packetAt == old(bufStart) + HEADER && bufStart == packetAt + len
      ensures bufStart + bufUsed == old(bufStart + bufUsed)
      ensures delivered == old(delivered) + [buf[..][packetAt..bufStart]]
    {
      packetAt := bufStart + HEADER;
      bufStart := bufStart + EncLen(len);
      bufUsed := bufUsed - EncLen(len);
      delivered := delivered + [buf[packetAt..bufStart]];
      sending := true;
    }

    // The rest of process_data.
    method AskForData(wasError: bool) returns (a: Action)
      requires Fits() && !HasPacket(Now().pending, outputMtu) && wasError == TooLarge(Now().pending, outputMtu)
      modifies this`bufStart, this`bufUsed, this`sending, this`errors, buf
      ensures Valid() && Now() == Process(old(Now())) && !sending
      ensures a == Recv(bufStart + bufUsed, buf.Length - (bufStart + bufUsed), wasError)
    {
      sending := false;
      if wasError {
        bufStart := 0;
        bufUsed := 0;
        errors := errors + 1;
      } else if bufStart + bufUsed == buf.Length {
        Compact();
      }
      a := Recv(bufStart + bufUsed, buf.Length - (bufStart + bufUsed), wasError);
    }

    // input_handler_done, when the input has put `data` where it was asked to.
    method InputHandlerDone(data: seq<byte>) returns (a: Action)
      requires Valid() && !sending && 0 < |data| <= buf.Length - (bufStart + bufUsed)
      modifies this, buf
      ensures Valid() && Now() == Step(old(Now()), Received(data))
      ensures sending ==> a == Send(packetAt, |delivered[|delivered| - 1]|)
      ensures !sending ==> a.Recv? && a.at == bufStart + bufUsed && a.len == buf.Length - a.at > 0
      ensures a.Recv? && a.error <==> errors > old(errors)
    {
      Store(data);
      a := ProcessData();
    }

    method Store(data: seq<byte>)
      requires Fits() && |data| <= buf.Length - (bufStart + bufUsed)
      modifies this`bufUsed, buf
      ensures Fits() && Now() == old(Now()).(pending := old(Now()).pending + data)
    {
      ghost var pending := buf[bufStart..bufStart + bufUsed];
      var at := bufStart + bufUsed;
      forall i | 0 <= i < |data| {
        buf[at + i] := data[i];
      }
      bufUsed := bufUsed + |data|;
      assert buf[bufStart..bufStart + bufUsed] == pending + data;
    }

    // output_handler_done
    method OutputHandlerDone() returns (a: Action)
      requires Valid() && sending
      modifies this, buf
      ensures Valid() && Now() == Step(old(Now()), Accepted)
      ensures sending ==> a == Send(packetAt, |delivered[|delivered| - 1]|)
      ensures !sending ==> a.Recv? && a.at == bufStart + bufUsed && a.len == buf.Length - a.at > 0
      ensures a.Recv? && a.error <==> errors > old(errors)
    {
      a := ProcessData();
    }

    // PacketProtoDecoder_Reset.  A packet being delivered, or the place of the data asked for,
    // does not move.
    method Reset()
      requires Valid()
      modifies this`bufStart, this`bufUsed
      ensures Valid() && Now() == Step(old(Now()), Event.Reset)
      ensures bufStart + bufUsed == old(bufStart + bufUsed)
    {
      bufStart := bufStart + bufUsed;
      bufUsed := 0;
    }
  }
}
