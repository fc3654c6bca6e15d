// XMODEM (lib/xmodem/src/lib.rs): transmit and receive run against each other over two
// in-order byte channels, a byte at a time, in any interleaving. On its way to the
// receiver, one payload or checksum byte of each attempt at a packet may be altered.

module Xmodem {
  const SOH := 1
  const EOT := 4
  const ACK := 6
  const NAK := 21
  const CAN := 24
  const FRAME := 132
  const RETRIES := 10

  type Bytes = seq<int>

  predicate AreBytes(s: Bytes) {
    forall i :: 0 <= i < |s| ==> 0 <= s[i] < 256
  }

  // ---------------------------------------------------------------- checksum

  /** get_checksum: the wrapping sum. */
  function Checksum(buf: Bytes): (c: int)
    ensures 0 <= c < 256
  {
    if buf == [] then 0 else (Checksum(buf[..|buf| - 1]) + buf[|buf| - 1]) % 256
  }

  /** Any change of one byte shows in the checksum. */
  lemma {:induction false} OneByteShows(a: Bytes, b: Bytes, k: nat)
    requires |a| == |b| && AreBytes(a) && AreBytes(b) && k < |a| && a[k] != b[k]
    requires forall i :: 0 <= i < |a| && i != k ==> a[i] == b[i]
    ensures Checksum(a) != Checksum(b)
  {
    var n := |a| - 1;
    if k == n {
      assert a[..n] == b[..n];
      AddShows(Checksum(a[..n]), a[n], b[n]);
    } else {
      OneByteShows(a[..n], b[..n], k);
      AddShows(a[n], Checksum(a[..n]), Checksum(b[..n]));
    }
  }

  lemma AddShows(x: int, u: int, v: int)
    requires 0 <= x < 256 && 0 <= u < 256 && 0 <= v < 256 && u != v
    ensures (x + u) % 256 != (x + v) % 256 && (u + x) % 256 != (v + x) % 256
  {
  }

  // ------------------------------------------------------------------- input

  /** How many packets the input makes. */
  function Packets(data: Bytes): nat {
    (|data| + 127) / 128
  }

  /** What read_max finds for packet m. */
  function ChunkSize(data: Bytes, m: nat): nat {
    if |data| <= 128 * m then 0 else if |data| - 128 * m < 128 then |data| - 128 * m else 128
  }

  function Zeros(n: nat): (r: Bytes)
    ensures |r| == n && forall i :: 0 <= i < n ==> r[i] == 0
  {
    seq(n, _ => 0)
  }

  /** The input padded with zeros to whole packets. */
  function Padded(data: Bytes): (r: Bytes)
    ensures |r| == 128 * Packets(data)
  {
    data + Zeros(128 * Packets(data) - |data|)
  }

  /** Packet m: what read_max found, the rest zeroed. */
  function Packet(data: Bytes, m: nat): (r: Bytes)
    ensures |r| == 128
  {
    var n := ChunkSize(data, m);
    (if n == 0 then [] else data[128 * m..128 * m + n]) + Zeros(128 - n)
  }

  lemma PacketIsPadded(data: Bytes, m: nat)
    requires m < Packets(data)
    ensures Packet(data, m) == Padded(data)[128 * m..128 * (m + 1)]
  {
  }

  function Frame(num: int, payload: Bytes): (r: Bytes)
    requires |payload| == 128
    ensures |r| == FRAME
  {
    [SOH, num, 255 - num] + payload + [Checksum(payload)]
  }

  // ------------------------------------------------------------------- states

  datatype Error = BrokenPipe | InvalidData | Aborted

  /** The sender's next step. */
  datatype SPc =
    | Load               // read_max, and the choice between a packet and the end
    | SNak               // expect_byte(NAK), once
    | Put(i: nat)        // write_byte of byte i of the frame
    | Reply              // read_byte(true)
    | PutEot             // write_byte(EOT)
    | EotNak             // expect_byte(NAK)
    | PutEot2            // write_byte(EOT)
    | EotAck             // expect_byte(ACK)
    | SCancel            // write_byte(CAN)
    | SDone
    | SErr(error: Error)

  /** The receiver's next step. */
  datatype RPc =
    | Begin              // write_byte(NAK), once
    | First              // read_byte(true)
    | Num                // expect_byte_or_cancel(packet)
    | Cmpl               // expect_byte_or_cancel(255 - packet)
    | Body(j: nat)       // read_exact
    | Check              // read_byte(false), and the comparison
    | PutAck             // write_byte(ACK); then the packet is written out
    | PutNak             // write_byte(NAK)
    | EndNak             // write_byte(NAK), after EOT
    | EndEot             // expect_byte(EOT)
    | EndAck             // write_byte(ACK)
    | RCancel(why: Error) // write_byte(CAN)
    | RDone
    | RErr(error: Error)

  /** line and bad (proof state): the bytes of this attempt as they went onto the
      channel, and the position of the altered one, -1 if there is none. */
  datatype Sys = Sys(data: Bytes,
                     spc: SPc, started: bool, snum: int, m: nat, stries: nat, written: nat,
                     rpc: RPc, rnum: int, rtries: nat, buf: Bytes, out: Bytes, received: nat,
                     fwd: Bytes, back: Bytes, line: Bytes, bad: int)

  function Payload(s: Sys): (r: Bytes)
    ensures |r| == 128
  {
    Packet(s.data, s.m)
  }

  function Start(data: Bytes): Sys {
    Sys(data, Load, false, 1, 0, 0, 0, Begin, 1, 0, [], [], 0, [], [], [], -1)
  }

  /** A Step takes what goes onto the channel if that is altered, -1 if not. */
  datatype Act = SStep(alter: int) | RStep

  predicate SReads(pc: SPc) {
    pc.SNak? || pc.Reply? || pc.EotNak? || pc.EotAck?
  }

  predicate RReads(pc: RPc) {
    pc.First? || pc.Num? || pc.Cmpl? || pc.Body? || pc.Check? || pc.EndEot?
  }

  /** Reads block on an empty channel; one payload or checksum byte may be altered. */
  predicate Enabled(s: Sys, a: Act) {
    match a
    case SStep(alter) =>
      && !s.spc.SDone? && !s.spc.SErr? && (SReads(s.spc) ==> s.back != [])
      && (s.spc.Put? ==> s.spc.i < FRAME)
      && (alter != -1 ==>
            s.spc.Put? && 3 <= s.spc.i && s.bad == -1 && 0 <= alter < 256 &&
            alter != Frame(s.snum, Payload(s))[s.spc.i])
    case RStep => !s.rpc.RDone? && !s.rpc.RErr? && (RReads(s.rpc) ==> s.fwd != [])
  }

  function Apply(s: Sys, a: Act): Sys
    requires Enabled(s, a)
  {
    match a
    case SStep(alter) => Sender(s, alter)
    case RStep => Receiver(s)
  }

  /** One step of transmit_with_progress and write_packet. */
  function Sender(s: Sys, alter: int): Sys
    requires Enabled(s, SStep(alter))
  {
    match s.spc
    case Load =>
      if !s.started then s.(spc := SNak)
      else if ChunkSize(s.data, s.m) == 0 then s.(spc := PutEot)
      else s.(spc := Put(0), line := [], bad := -1)
    case SNak =>
      var t := s.(back := s.back[1..]);
      if s.back[0] == NAK then t.(spc := Load, started := true)
      else t.(spc := SErr(if s.back[0] == CAN then Aborted else InvalidData))
    case Put(i) =>
      var b := if alter == -1 then Frame(s.snum, Payload(s))[i] else alter;
      s.(fwd := s.fwd + [b], line := s.line + [b], bad := if alter == -1 then s.bad else i,
         spc := if i + 1 == FRAME then Reply else Put(i + 1))
    case Reply =>
      var t := s.(back := s.back[1..]);
      if s.back[0] == CAN then t.(spc := SErr(Aborted))
      else if s.back[0] == ACK then
        t.(spc := Load, snum := (s.snum + 1) % 256, m := s.m + 1, stries := 0,
           written := s.written + ChunkSize(s.data, s.m))
      else if s.back[0] == NAK then
        if s.stries + 1 == RETRIES then t.(stries := s.stries + 1, spc := SErr(BrokenPipe))
        else t.(stries := s.stries + 1, spc := Put(0), line := [], bad := -1)
      else t.(spc := SCancel)
    case PutEot => s.(fwd := s.fwd + [EOT], spc := EotNak)
    case EotNak =>
      var t := s.(back := s.back[1..]);
      if s.back[0] == NAK then t.(spc := PutEot2)
      else t.(spc := SErr(if s.back[0] == CAN then Aborted else InvalidData))
    case PutEot2 => s.(fwd := s.fwd + [EOT], spc := EotAck)
    case EotAck =>
      var t := s.(back := s.back[1..]);
      if s.back[0] == ACK then t.(spc := SDone)
      else t.(spc := SErr(if s.back[0] == CAN then Aborted else InvalidData))
    case SCancel => s.(fwd := s.fwd + [CAN], spc := SErr(InvalidData))
    case _ => s
  }

  /** One step of receive_with_progress and read_packet. */
  function Receiver(s: Sys): Sys
    requires Enabled(s, RStep)
  {
    match s.rpc
    case Begin => s.(back := s.back + [NAK], rpc := First)
    case First =>
      var t := s.(fwd := s.fwd[1..]);
      if s.fwd[0] == CAN then t.(rpc := RErr(Aborted))
      else if s.fwd[0] == EOT then t.(rpc := EndNak)
      else if s.fwd[0] != SOH then t.(rpc := RCancel(InvalidData))
      else t.(rpc := Num)
    case Num =>
      var t := s.(fwd := s.fwd[1..]);
      if s.fwd[0] == s.rnum then t.(rpc := Cmpl)
      else t.(rpc := RCancel(if s.fwd[0] == CAN then Aborted else InvalidData))
    case Cmpl =>
      var t := s.(fwd := s.fwd[1..]);
      if s.fwd[0] == 255 - s.rnum then t.(rpc := Body(0), buf := [])
      else t.(rpc := RCancel(if s.fwd[0] == CAN then Aborted else InvalidData))
    case Body(j) =>
      s.(fwd := s.fwd[1..], buf := s.buf + [s.fwd[0]], rpc := if j + 1 == 128 then Check else Body(j + 1))
    case Check =>
      var t := s.(fwd := s.fwd[1..]);
      if s.fwd[0] != Checksum(s.buf) then t.(rpc := PutNak)
      else t.(rnum := (s.rnum + 1) % 256, rpc := PutAck)
    case PutAck =>
      s.(back := s.back + [ACK], out := s.out + s.buf, received := s.received + 128, rtries := 0, rpc := First)
    case PutNak =>
      s.(back := s.back + [NAK], rtries := s.rtries + 1,
         rpc := if s.rtries + 1 == RETRIES then RErr(BrokenPipe) else First)
    case EndNak => s.(back := s.back + [NAK], rpc := EndEot)
    case EndEot =>
      var t := s.(fwd := s.fwd[1..]);
      if s.fwd[0] == EOT then t.(rpc := EndAck)
      else t.(rpc := RErr(if s.fwd[0] == CAN then Aborted else InvalidData))
    case EndAck => s.(back := s.back + [ACK], rpc := RDone)
    case RCancel(why) => s.(back := s.back + [CAN], rpc := RErr(why))
    case _ => s
  }

  // --------------------------------------------------------------- invariants

  /** How many bytes of the frame the receiver has read; FRAME + 1 elsewhere. */
  function Pos(pc: RPc): nat {
    match pc
    case First => 0
    case Num => 1
    case Cmpl => 2
    case Body(j) => 3 + j
    case Check => 131
    case PutAck => FRAME
    case PutNak => FRAME
    case _ => FRAME + 1
  }

  /** The bytes on the line are the frame's, but for the altered one. */
  ghost predicate LineOk(s: Sys) {
    var f := Frame(s.snum, Payload(s));
    && |s.line| <= FRAME && AreBytes(s.line)
    && (s.bad == -1 || 3 <= s.bad < |s.line|)
    && (forall k :: 0 <= k < |s.line| ==> (s.line[k] == f[k] <==> k != s.bad))
  }

  /** The receiver is reading this attempt. */
  ghost predicate Reading(s: Sys, n: nat) {
    && |s.line| == n && LineOk(s) && Pos(s.rpc) <= n && s.fwd == s.line[Pos(s.rpc)..] && s.back == []
    && (s.rpc.Body? ==> s.rpc.j < 128 && s.buf == s.line[3..Pos(s.rpc)])
    && (s.rpc.Check? || s.rpc.PutAck? || s.rpc.PutNak? ==> s.buf == s.line[3..131])
    && (s.rpc.PutAck? ==> s.bad == -1) && (s.rpc.PutNak? ==> s.bad != -1)
    && s.rnum == (if s.rpc.PutAck? then (s.snum + 1) % 256 else s.snum)
    && s.m <= Packets(s.data) && s.rtries == s.stries && s.out == Padded(s.data)[..128 * s.m]
  }

  /** Both are between packets, m of which are through. */
  ghost predicate Settled(s: Sys, m: nat) {
    && m <= Packets(s.data) && s.out == Padded(s.data)[..128 * m] && s.fwd == []
  }

  ghost predicate Together(s: Sys) {
    match s.spc
    case Load =>
      if s.started then Settled(s, s.m) && s.back == [] && s.rpc == First && s.rtries == 0 && s.rnum == s.snum
      else Settled(s, 0) && s.m == 0 && s.rnum == s.snum && s.rtries == 0 &&
           ((s.back == [] && s.rpc == Begin) || (s.back == [NAK] && s.rpc == First))
    case SNak =>
      Settled(s, 0) && s.m == 0 && s.rnum == s.snum && s.rtries == 0 &&
      ((s.back == [] && s.rpc == Begin) || (s.back == [NAK] && s.rpc == First))
    case Put(i) => i < FRAME && s.m < Packets(s.data) && Reading(s, i)
    case Reply =>
      && s.m < Packets(s.data)
      && (|| Reading(s, FRAME)
          || (Settled(s, s.m + 1) && s.back == [ACK] && s.rpc == First && s.rtries == 0 &&
             s.rnum == (s.snum + 1) % 256 &&
              s.bad == -1)
          || (Settled(s, s.m) && s.back == [NAK] && s.rtries == s.stries + 1 && s.rnum == s.snum && s.bad != -1 &&
              s.rpc == (if s.rtries == RETRIES then RErr(BrokenPipe) else First)))
    case PutEot => s.m == Packets(s.data) && Settled(s, s.m) && s.back == [] && s.rpc == First
    case EotNak =>
      && s.m == Packets(s.data) && s.out == Padded(s.data)
      && (|| (s.fwd == [EOT] && s.back == [] && s.rpc == First)
          || (s.fwd == [] && s.back == [] && s.rpc == EndNak)
          || (s.fwd == [] && s.back == [NAK] && s.rpc == EndEot))
    case PutEot2 => s.m == Packets(s.data) && s.out == Padded(s.data) && s.fwd == [] && s.back == [] && s.rpc == EndEot
    case EotAck =>
      && s.m == Packets(s.data) && s.out == Padded(s.data)
      && (|| (s.fwd == [EOT] && s.back == [] && s.rpc == EndEot)
          || (s.fwd == [] && s.back == [] && s.rpc == EndAck)
          || (s.fwd == [] && s.back == [ACK] && s.rpc == RDone))
    case SDone => s.m == Packets(s.data) && s.out == Padded(s.data) && s.fwd == [] && s.back == [] && s.rpc == RDone
    case SErr(e) =>
      e == BrokenPipe && s.stries == RETRIES && s.rtries == RETRIES && s.rpc == RErr(BrokenPipe) && s.fwd == [] &&
      s.back == [] && s.m < Packets(s.data) && Settled(s, s.m)
    case SCancel => false
  }

  ghost predicate Inv(s: Sys) {
    && AreBytes(s.data) && s.snum == (s.m + 1) % 256 && 0 <= s.rnum < 256
    && s.written == (if 128 * s.m <= |s.data| then 128 * s.m else |s.data|) && s.received == |s.out|
    && (s.stries < RETRIES || s.spc.SErr?) && (s.rtries < RETRIES || s.rpc.RErr?) && s.rtries <= RETRIES
    && (s.spc.Load? || s.spc.SNak? || s.spc.PutEot? ==> s.stries == 0)
    && (s.spc.Load? || s.spc.SNak? || s.started) && (s.spc.SNak? ==> !s.started)
    && Together(s)
  }

  // ------------------------------------------------------------ one step keeps it

  lemma InvStart(data: Bytes)
    requires AreBytes(data)
    ensures Inv(Start(data))
  {
  }

  lemma FrameBytes(s: Sys)
    requires Inv(s)
    ensures AreBytes(Frame(s.snum, Payload(s)))
  {
  }

  lemma PutLine(s: Sys, alter: int)
    requires Inv(s) && Enabled(s, SStep(alter)) && s.spc.Put? && LineOk(s) && |s.line| == s.spc.i
    ensures LineOk(Sender(s, alter))
  {
    FrameBytes(s);
    hide Frame, Packet, Reading, Checksum;
    var t := Sender(s, alter);
    var i := s.spc.i;
    assert forall k :: 0 <= k < i ==> t.line[k] == s.line[k];
    assert Frame(t.snum, Payload(t)) == Frame(s.snum, Payload(s));
  }

  /** One more byte is on the line and on the channel, and the receiver is where it was. */
  lemma PutStep(s: Sys, alter: int)
    requires Inv(s) && Enabled(s, SStep(alter)) && s.spc.Put?
    ensures Reading(s, s.spc.i)
    ensures var t := Sender(s, alter);
            && |t.line| == s.spc.i + 1 && t.line == s.line + t.line[|s.line|..] && t.fwd == s.fwd + t.line[|s.line|..]
            && t == s.(fwd := t.fwd, line := t.line, bad := t.bad, spc := t.spc)
            && (s.rpc.PutAck? || s.rpc.PutNak? ==> t.bad == s.bad)
  {
    hide LineOk, Frame, Packet, Checksum, Padded;
    var t := Sender(s, alter);
    assert t.line[|s.line|..] == [t.line[|s.line|]];
  }

  /** What comes after leaves every part before it as it is. */
  lemma Longer(a: Bytes, b: Bytes, p: nat)
    requires p <= |a|
    ensures (a + b)[p..] == a[p..] + b
    ensures p >= 3 ==> (a + b)[3..p] == a[3..p]
    ensures |a| >= 131 ==> (a + b)[3..131] == a[3..131]
  {
  }

  lemma PutReading(s: Sys, alter: int)
    requires Inv(s) && Enabled(s, SStep(alter)) && s.spc.Put?
    ensures Reading(Sender(s, alter), s.spc.i + 1)
  {
    PutStep(s, alter);
    PutLine(s, alter);
    Longer(s.line, Sender(s, alter).line[|s.line|..], Pos(s.rpc));
    hide Inv, LineOk, Frame, Packet, Checksum, Sender, Padded, Packets, Enabled;
  }

  lemma PutInv(s: Sys, alter: int)
    requires Inv(s) && Enabled(s, SStep(alter)) && s.spc.Put?
    ensures Inv(Sender(s, alter))
  {
    PutReading(s, alter);
    hide Reading, Frame, Packet;
  }

  lemma ReplyInv(s: Sys)
    requires Inv(s) && Enabled(s, SStep(-1)) && s.spc.Reply?
    ensures Inv(Sender(s, -1))
  {
    hide Frame, Packet, Checksum;
    var t := Sender(s, -1);
    if t.spc.Put? {
      AgainInv(s);
    }
  }

  lemma AgainInv(s: Sys)
    requires Inv(s) && Enabled(s, SStep(-1)) && s.spc.Reply? && Sender(s, -1).spc.Put?
    ensures Inv(Sender(s, -1))
  {
    hide Frame, Packet, Checksum;
    var t := Sender(s, -1);
    assert LineOk(t);
    assert t.line[0..] == [];
  }

  lemma LoadInv(s: Sys)
    requires Inv(s) && Enabled(s, SStep(-1)) && s.spc.Load?
    ensures Inv(Sender(s, -1))
  {
    hide Frame, Packet, Padded, Checksum;
    var t := Sender(s, -1);
    if t.spc.Put? {
      EmptyLine(s, t);
    }
  }

  lemma EmptyLine(s: Sys, t: Sys)
    requires Inv(s) && s.spc.Load? && s.started && t == s.(spc := Put(0), line := [], bad := -1)
    ensures Reading(t, 0)
  {
    hide Frame, Packet, Padded, Checksum;
    assert LineOk(t);
    assert t.line[0..] == [];
  }

  lemma OtherSenderInv(s: Sys, alter: int)
    requires Inv(s) && Enabled(s, SStep(alter)) && !s.spc.Put? && !s.spc.Reply? && !s.spc.Load?
    ensures Inv(Sender(s, alter))
  {
    hide Reading, Frame, Packet;
    if s.spc.PutEot? {
      assert Padded(s.data)[..128 * s.m] == Padded(s.data);
    }
  }

  lemma SameLine(s: Sys, t: Sys)
    requires LineOk(s) && t.line == s.line && t.bad == s.bad && t.snum == s.snum && t.data == s.data && t.m == s.m
    ensures LineOk(t)
  {
  }

  lemma HeaderByte(s: Sys, n: nat)
    requires Reading(s, n) && s.fwd != [] && (s.rpc.First? || s.rpc.Num? || s.rpc.Cmpl?)
    ensures s.fwd[0] == (if s.rpc.First? then SOH else if s.rpc.Num? then s.snum else 255 - s.snum)
    ensures Pos(s.rpc) < |s.line| && s.fwd[1..] == s.line[Pos(s.rpc) + 1..]
  {
    hide Packet, Checksum;
    var p := Pos(s.rpc);
    var f := Frame(s.snum, Payload(s));
    assert s.fwd[0] == s.line[p] && s.line[p] == f[p];
  }

  lemma HeaderInv(s: Sys, n: nat)
    requires Inv(s) && Enabled(s, RStep) && Reading(s, n) && (s.rpc.First? || s.rpc.Num? || s.rpc.Cmpl?)
    ensures Reading(Receiver(s), n)
  {
    hide Frame, Packet, Together;
    HeaderByte(s, n);
    SameLine(s, Receiver(s));
    hide LineOk;
    assert s.rpc.Cmpl? ==> s.line[3..3] == [];
  }

  lemma BodyInv(s: Sys, n: nat)
    requires Inv(s) && Enabled(s, RStep) && Reading(s, n) && s.rpc.Body?
    ensures Reading(Receiver(s), n)
  {
    hide Frame, Packet;
    var t := Receiver(s);
    var p := Pos(s.rpc);
    assert s.fwd[0] == s.line[p];
    assert s.fwd[1..] == s.line[p + 1..];
    SameLine(s, t);
    hide LineOk;
    assert s.line[3..p + 1] == s.line[3..p] + [s.line[p]];
  }

  lemma ReadingOn(s: Sys, n: nat)
    requires Inv(s) && Enabled(s, RStep) && ((s.spc.Put? && n == s.spc.i) || (s.spc.Reply? && n == FRAME))
    requires s.rpc.First? || s.rpc.Num? || s.rpc.Cmpl? || s.rpc.Body? || s.rpc.Check?
    requires Reading(s, n) && Reading(Receiver(s), n)
    ensures Inv(Receiver(s))
  {
    hide Reading;
  }

  /** The comparison of checksums finds out whether a byte was altered. */
  lemma CheckTells(s: Sys)
    requires Inv(s) && Reading(s, FRAME) && s.rpc.Check?
    ensures s.fwd[0] == Checksum(s.buf) <==> s.bad == -1
    ensures s.bad == -1 ==> s.buf == Payload(s)
  {
    var payload := Payload(s);
    var f := Frame(s.snum, payload);
    FrameBytes(s);
    assert f[3..131] == payload && f[131] == Checksum(payload);
    assert s.fwd[0] == s.line[131];
    assert forall k :: 0 <= k < 128 ==> s.buf[k] == s.line[3 + k] && payload[k] == f[3 + k];
    if 3 <= s.bad < 131 {
      OneByteShows(s.buf, payload, s.bad - 3);
    } else {
      assert s.buf == payload;
    }
  }

  lemma CheckInv(s: Sys)
    requires Inv(s) && Enabled(s, RStep) && Reading(s, FRAME) && s.rpc.Check?
    ensures Reading(Receiver(s), FRAME)
  {
    CheckTells(s);
    assert s.fwd[1..] == s.line[132..];
    SameLine(s, Receiver(s));
    hide LineOk, Frame, Packet, Checksum;
  }

  lemma AckInv(s: Sys)
    requires Inv(s) && s.spc.Reply? && Reading(s, FRAME) && s.rpc.PutAck?
    ensures Inv(Receiver(s))
  {
    var f := Frame(s.snum, Payload(s));
    assert s.buf == Payload(s) by {
      assert s.line[3..131] == f[3..131];
      assert f[3..131] == Payload(s);
    }
    PacketIsPadded(s.data, s.m);
    var p := Padded(s.data);
    assert p[..128 * (s.m + 1)] == p[..128 * s.m] + p[128 * s.m..128 * (s.m + 1)];
  }

  lemma NakInv(s: Sys)
    requires Inv(s) && s.spc.Reply? && Reading(s, FRAME) && s.rpc.PutNak?
    ensures Inv(Receiver(s))
  {
    hide LineOk, Frame, Packet;
    assert s.fwd == [];
  }

  lemma ReadingInv(s: Sys, n: nat)
    requires Inv(s) && Enabled(s, RStep) && Reading(s, n) &&
             ((s.spc.Put? && n == s.spc.i) || (s.spc.Reply? && n == FRAME))
    ensures Inv(Receiver(s))
  {
    ReadingPc(s, n);
    hide Inv, Reading, Receiver;
    if s.rpc.PutAck? {
      AckInv(s);
    } else if s.rpc.PutNak? {
      NakInv(s);
    } else {
      if s.rpc.Check? {
        CheckInv(s);
      } else if s.rpc.Body? {
        BodyInv(s, n);
      } else {
        HeaderInv(s, n);
      }
      ReadingOn(s, n);
    }
  }

  lemma ReadingPc(s: Sys, n: nat)
    requires Inv(s) && Enabled(s, RStep) && Reading(s, n) &&
             ((s.spc.Put? && n == s.spc.i) || (s.spc.Reply? && n == FRAME))
    ensures s.rpc.PutAck? || s.rpc.PutNak? ==> s.spc.Reply?
    ensures s.rpc.Check? ==> n == FRAME
    ensures s.rpc.PutAck? || s.rpc.PutNak? || s.rpc.First? || s.rpc.Num? || s.rpc.Cmpl? || s.rpc.Body? || s.rpc.Check?
  {
    hide LineOk;
    assert s.rpc.Check? ==> |s.fwd| > 0;
  }

  lemma InvKept(s: Sys, a: Act)
    requires Inv(s) && Enabled(s, a)
    ensures Inv(Apply(s, a))
  {
    hide Reading, LineOk, Sender, Receiver;
    match a
    case SStep(alter) =>
      if s.spc.Put? {
        PutInv(s, alter);
      } else if s.spc.Reply? {
        ReplyInv(s);
      } else if s.spc.Load? {
        LoadInv(s);
      } else {
        OtherSenderInv(s, alter);
      }
    case RStep =>
      if s.spc.Put? {
        ReadingInv(s, s.spc.i);
      } else if s.spc.Reply? && Reading(s, FRAME) {
        ReadingInv(s, FRAME);
      } else {
        OtherReceiverInv(s);
      }
  }

  lemma OtherReceiverInv(s: Sys)
    requires Inv(s) && Enabled(s, RStep) && !s.spc.Put? && !(s.spc.Reply? && Reading(s, FRAME))
    ensures Inv(Receiver(s))
  {
    hide Reading, LineOk;
  }

  // ------------------------------------------------------------------- runs

  ghost predicate Legal(s: Sys, acts: seq<Act>)
    decreases |acts|
  {
    acts == [] || (Enabled(s, acts[0]) && Legal(Apply(s, acts[0]), acts[1..]))
  }

  ghost function Exec(s: Sys, acts: seq<Act>): Sys
    requires Legal(s, acts)
    decreases |acts|
  {
    if acts == [] then s else Exec(Apply(s, acts[0]), acts[1..])
  }

  lemma {:induction false} InvAlways(s: Sys, acts: seq<Act>)
    requires Inv(s) && Legal(s, acts)
    ensures Inv(Exec(s, acts)) && Exec(s, acts).data == s.data
    decreases |acts|
  {
    hide Inv;
    if acts != [] {
      InvKept(s, acts[0]);
      InvAlways(Apply(s, acts[0]), acts[1..]);
    }
  }

  /** What has been written out is always a prefix of the padded input, and packet
      numbers agree when both sides are between packets. Nothing but ten failures of
      one packet ends a transfer early, and then for both sides. */
  lemma Safety(data: Bytes, acts: seq<Act>)
    requires AreBytes(data) && Legal(Start(data), acts)
    ensures var s := Exec(Start(data), acts);
            s.out <= Padded(data) && s.received == |s.out| && s.written <= |data| &&
            (s.spc.Load? ==> s.rnum == s.snum && s.snum == (|s.out| / 128 + 1) % 256) &&
            (s.spc.SErr? ==> s.spc.error == BrokenPipe && s.stries == RETRIES && s.rpc == RErr(BrokenPipe)) &&
            (s.rpc.RErr? ==> s.rpc.error == BrokenPipe && s.rtries == RETRIES) &&
            !s.spc.SCancel? && !s.rpc.RCancel?
  {
    InvStart(data);
    InvAlways(Start(data), acts);
    Safe(Exec(Start(data), acts));
  }

  lemma Safe(s: Sys)
    requires Inv(s)
    ensures s.out <= Padded(s.data) && s.written <= |s.data|
    ensures s.spc.Load? ==> s.rnum == s.snum && |s.out| == 128 * s.m
    ensures s.spc.SErr? ==> s.spc.error == BrokenPipe && s.stries == RETRIES && s.rpc == RErr(BrokenPipe)
    ensures s.rpc.RErr? ==> s.rpc.error == BrokenPipe && s.rtries == RETRIES
    ensures !s.spc.SCancel? && !s.rpc.RCancel?
  {
    hide LineOk, Frame, Packet;
  }

  /** A finished transfer is complete, with the byte counts that are promised. */
  lemma Complete(data: Bytes, acts: seq<Act>)
    requires AreBytes(data) && Legal(Start(data), acts)
    ensures var s := Exec(Start(data), acts);
            s.spc == SDone ==>
              s.out == Padded(data) && s.received == |Padded(data)| && s.written == |data| && s.rpc == RDone
  {
    InvStart(data);
    InvAlways(Start(data), acts);
  }

  // ------------------------------------------------------------------- progress

  predicate Over(s: Sys) {
    (s.spc.SDone? || s.spc.SErr?) && (s.rpc.RDone? || s.rpc.RErr?)
  }

  /** Neither side ever waits for a byte that will not come. */
  lemma NoDeadlock(s: Sys)
    requires Inv(s)
    ensures Over(s) || Enabled(s, SStep(-1)) || Enabled(s, RStep)
  {
    hide LineOk, Frame, Packet;
  }

  function SPos(pc: SPc, started: bool): int {
    match pc
    case Load => if started then 135 else 137
    case SNak => 136
    case Put(i) => 134 - i
    case Reply => 2
    case PutEot => 5
    case EotNak => 4
    case PutEot2 => 3
    case EotAck => 2
    case SCancel => 1
    case SDone => 0
    case SErr(_) => 0
  }

  function RPos(pc: RPc): int {
    match pc
    case Begin => 136
    case First => 135
    case Num => 134
    case Cmpl => 133
    case Body(j) => 132 - j
    case Check => 4
    case PutAck => 3
    case PutNak => 3
    case EndNak => 4
    case EndEot => 3
    case EndAck => 2
    case RCancel(_) => 1
    case RDone => 0
    case RErr(_) => 0
  }

  function SRank(s: Sys): int {
    1600 * (Packets(s.data) - s.m) + 140 * (RETRIES - s.stries) + SPos(s.spc, s.started)
  }

  function RRank(s: Sys): int {
    20 * (128 * Packets(s.data) - |s.out|) + 140 * (RETRIES - s.rtries) + RPos(s.rpc)
  }

  /** Every step brings the end nearer, whatever is altered: a run has at most
      SRank + RRank steps, so with NoDeadlock both sides always come to an end. */
  lemma StepCloser(s: Sys, a: Act)
    requires Inv(s) && Enabled(s, a)
    ensures SRank(s) >= 0 && RRank(s) >= 0
    ensures SRank(Apply(s, a)) + RRank(Apply(s, a)) < SRank(s) + RRank(s)
  {
    Bounds(s);
    hide Inv, LineOk, Frame, Packet, Payload, Padded, Checksum;
    match a
    case SStep(alter) => SenderCloser(s, alter);
    case RStep => ReceiverCloser(s);
  }

  lemma SenderCloser(s: Sys, alter: int)
    requires Enabled(s, SStep(alter)) && s.stries < RETRIES
    ensures SRank(Sender(s, alter)) < SRank(s) && RRank(Sender(s, alter)) == RRank(s)
  {
    SenderMoves(s, alter);
    hide Sender, SPos, RPos, Packets, Enabled;
  }

  /** The sender moves on in a packet, or to another try, or to another packet. */
  lemma SenderMoves(s: Sys, alter: int)
    requires Enabled(s, SStep(alter)) && s.stries < RETRIES
    ensures var t := Sender(s, alter);
            && t.data == s.data && t.out == s.out && t.rtries == s.rtries && t.rpc == s.rpc &&
               SPos(t.spc, t.started) <= 137
            && 0 <= SPos(s.spc, s.started)
            && (|| (t.m == s.m && t.stries == s.stries && SPos(t.spc, t.started) < SPos(s.spc, s.started))
                || (t.m == s.m && t.stries == s.stries + 1)
                || (t.m == s.m + 1 && t.stries == 0))
  {
    hide Frame, Packet, Payload, Packets, ChunkSize;
    if s.spc.Put? {
      PutMoves(s, alter);
    }
  }

  lemma PutMoves(s: Sys, alter: int)
    requires Enabled(s, SStep(alter)) && s.spc.Put?
    ensures var t := Sender(s, alter);
            t.data == s.data && t.out == s.out && t.rtries == s.rtries && t.rpc == s.rpc && t.m == s.m &&
            t.stries == s.stries &&
            0 < SPos(t.spc, t.started) < SPos(s.spc, s.started) <= 137
  {
    hide Frame, Packet, Payload, Packets, ChunkSize;
  }

  lemma ReceiverCloser(s: Sys)
    requires Enabled(s, RStep) && s.rtries < RETRIES && (s.rpc.PutAck? ==> |s.buf| == 128) &&
             (s.rpc.Body? ==> s.rpc.j < 128)
    ensures RRank(Receiver(s)) < RRank(s) && SRank(Receiver(s)) == SRank(s)
  {
    ReceiverMoves(s);
    hide Receiver, SPos, RPos, Packets, Enabled;
  }

  lemma ReceiverMoves(s: Sys)
    requires Enabled(s, RStep) && s.rtries < RETRIES && (s.rpc.PutAck? ==> |s.buf| == 128) &&
             (s.rpc.Body? ==> s.rpc.j < 128)
    ensures var t := Receiver(s);
            && t.data == s.data && t.m == s.m && t.stries == s.stries && t.spc == s.spc && t.started == s.started
            && 0 <= RPos(s.rpc) && RPos(t.rpc) <= 136
            && (|| (t.out == s.out && t.rtries == s.rtries && RPos(t.rpc) < RPos(s.rpc))
                || (t.out == s.out && t.rtries == s.rtries + 1)
                || (|t.out| == |s.out| + 128 && t.rtries == 0))
  {
    hide Packets, Checksum;
  }

  lemma {:induction false} RunsEnd(s: Sys, acts: seq<Act>)
    requires Inv(s) && Legal(s, acts)
    ensures |acts| <= SRank(s) + RRank(s)
    decreases |acts|
  {
    hide Inv, SRank, RRank;
    Nonnegative(s);
    if acts != [] {
      StepCloser(s, acts[0]);
      InvKept(s, acts[0]);
      RunsEnd(Apply(s, acts[0]), acts[1..]);
    }
  }

  lemma Nonnegative(s: Sys)
    requires Inv(s)
    ensures SRank(s) >= 0 && RRank(s) >= 0
  {
    Bounds(s);
    hide Inv, Packets;
  }

  /** A run that cannot go on is a whole transfer, unless one packet failed ten times. */
  lemma Outcome(data: Bytes, acts: seq<Act>)
    requires AreBytes(data) && Legal(Start(data), acts)
    requires var s := Exec(Start(data), acts); !Enabled(s, SStep(-1)) && !Enabled(s, RStep)
    ensures var s := Exec(Start(data), acts);
            || (s.spc == SDone && s.rpc == RDone && s.out == Padded(data) && s.received == |Padded(data)| &&
               s.written == |data|)
            || (s.spc == SErr(BrokenPipe) && s.rpc == RErr(BrokenPipe) && s.stries == s.rtries == RETRIES)
  {
    InvStart(data);
    InvAlways(Start(data), acts);
    var s := Exec(Start(data), acts);
    NoDeadlock(s);
    Ends(s);
  }

  lemma Ends(s: Sys)
    requires Inv(s) && Over(s)
    ensures || (s.spc == SDone && s.rpc == RDone && s.out == Padded(s.data) && s.received == |Padded(s.data)| &&
                s.written == |s.data|)
            || (s.spc == SErr(BrokenPipe) && s.rpc == RErr(BrokenPipe) && s.stries == s.rtries == RETRIES)
  {
    hide LineOk, Frame, Packet;
  }

  lemma Bounds(s: Sys)
    requires Inv(s)
    ensures s.m <= Packets(s.data) && |s.out| <= 128 * Packets(s.data)
    ensures s.spc.Put? ==> s.spc.i < FRAME
    ensures s.rpc.Body? ==> s.rpc.j < 128
    ensures !s.spc.SErr? ==> s.stries < RETRIES
    ensures s.rtries <= RETRIES && s.stries <= RETRIES && (!s.rpc.RErr? ==> s.rtries < RETRIES)
    ensures s.rpc.PutAck? ==> |s.buf| == 128
  {
    hide LineOk, Frame, Packet;
  }

  // ------------------------------------------------------------------- the code

  /** io::Result, with the kinds of errors that the loops tell apart. Eof is a read from
      a stream that has ended. */
  datatype Result = Ok(n: int) | Interrupted | Failed(error: Error) | Eof

  lemma {:induction false} Snoc(s: Sys, acts: seq<Act>, a: Act)
    requires Legal(s, acts) && Enabled(Exec(s, acts), a)
    ensures Legal(s, acts + [a]) && Exec(s, acts + [a]) == Apply(Exec(s, acts), a)
    decreases |acts|
  {
    hide Apply, Enabled;
    if acts == [] {
      assert [] + [a] == [a] && [a][1..] == [];
    } else {
      Snoc(Apply(s, acts[0]), acts[1..], a);
      assert (acts + [a])[1..] == acts[1..] + [a];
    }
  }

  /** One end of a transfer over a stream: input is what is still to be read, output what
      has been written. The proof state says which steps of the machine were taken. */
  class Port {
    var packet: int
    var started: bool
    var input: Bytes
    var output: Bytes
    ghost var from: Sys
    ghost var acts: seq<Act>
    ghost var s: Sys
    ghost const mine: Act  // this side's steps, nothing altered

    /** The machine came from its start to s by this side's steps alone. */
    ghost predicate Ran()
      reads this
    {
      Legal(from, acts) && Exec(from, acts) == s && forall i :: 0 <= i < |acts| ==> acts[i] == mine
    }

    /** The receiver's fields are the machine's. */
    ghost predicate Receiving()
      reads this
    {
      mine == RStep && Ran() && packet == s.rnum && input == s.fwd && output == s.back && (started <==> !s.rpc.Begin?)
    }

    constructor ForReceiving(s: Sys)
      requires s.rpc == Begin && s.rnum == 1 && s.rtries == 0 && s.back == [] && s.out == [] && s.received == 0
      ensures Receiving() && this.s == s && from == s && acts == []
    {
      packet, started, input, output := 1, false, s.fwd, [];
      from, acts, this.s, mine := s, [], s, RStep;
    }

    ghost method Take()
      requires Ran() && Enabled(s, mine)
      modifies this`acts, this`s
      ensures Ran() && s == Apply(old(s), mine)
    {
      Snoc(from, acts, mine);
      acts := acts + [mine];
      s := Apply(s, mine);
    }

    method ReadByte() returns (ok: bool, byte: int)
      modifies this`input
      ensures ok <==> old(input) != []
      ensures ok ==> byte == old(input)[0] && input == old(input)[1..]
      ensures !ok ==> input == old(input)
    {
      ok, byte := input != [], 0;
      if ok {
        byte := input[0];
        input := input[1..];
      }
    }

    method WriteByte(byte: int)
      modifies this`output
      ensures output == old(output) + [byte]
    {
      output := output + [byte];
    }

    /** expect_byte_or_cancel, when the machine is at Num or Cmpl. */
    method ExpectOrCancel(byte: int) returns (r: Result)
      requires Receiving() && ((s.rpc.Num? && byte == packet) || (s.rpc.Cmpl? && byte == 255 - packet))
      modifies this
      ensures Receiving() && from == old(from) && s.out == old(s.out) && s.received == old(s.received) &&
              s.rtries == old(s.rtries)
      ensures r.Ok? ==> s.rpc == (if old(s.rpc.Num?) then Cmpl else Body(0)) && |input| < |old(input)|
      ensures r.Ok? && old(s.rpc.Cmpl?) ==> s.buf == []
      ensures r.Failed? ==> s.rpc == RErr(r.error)
      ensures r.Eof? ==> s == old(s) && input == []
      ensures !r.Interrupted?
    {
      hide Legal, Exec;
      if input != [] {
        Take();
      }
      var ok, b := ReadByte();
      if !ok {
        return Eof;
      }
      if b == byte {
        return Ok(b);
      }
      WriteByte(CAN);
      Take();
      r := Failed(if b == CAN then Aborted else InvalidData);
    }

    /** The output and what the receiver counts are as they were. */
    twostate predicate Kept()
      reads this
    {
      from == old(from) && s.out == old(s.out) && s.received == old(s.received) && s.rtries == old(s.rtries)
    }

    /** After EOT: NAK, a second EOT, ACK. */
    method EndOfTransfer() returns (r: Result)
      requires Receiving() && s.rpc.EndNak?
      modifies this
      ensures Receiving() && Kept()
      ensures r.Ok? ==> r == Ok(0) && s.rpc == RDone
      ensures r.Failed? ==> s.rpc == RErr(r.error)
      ensures r.Eof? ==> input == [] && RReads(s.rpc)
      ensures !r.Interrupted?
    {
      hide Legal, Exec;
      Take();
      WriteByte(NAK);
      if input != [] {
        Take();
      }
      var ok, b := ReadByte();
      if !ok {
        return Eof;
      }
      if b != EOT {
        return Failed(if b == CAN then Aborted else InvalidData);
      }
      Take();
      WriteByte(ACK);
      r := Ok(0);
    }

    /** read_exact of a packet. */
    method ReadBody() returns (r: Result, buf: Bytes)
      requires Receiving() && s.rpc == Body(0) && s.buf == []
      modifies this
      ensures Receiving() && Kept() && |input| <= |old(input)|
      ensures r.Ok? ==> s.rpc.Check? && s.buf == buf
      ensures r.Ok? || (r.Eof? && input == [] && RReads(s.rpc))
    {
      hide Legal, Exec;
      buf := [];
      for j := 0 to 128
        invariant Receiving() && Kept() && s.buf == buf && |input| <= |old(input)|
        invariant s.rpc == (if j == 128 then Check else Body(j))
      {
        if input != [] {
          Take();
        }
        var ok, b := ReadByte();
        if !ok {
          return Eof, buf;
        }
        buf := buf + [b];
      }
      r := Ok(128);
    }

    /** The comparison of checksums, and the answer. */
    method Answer(buf: Bytes) returns (r: Result)
      requires Receiving() && s.rpc.Check? && s.buf == buf && s.rtries < RETRIES
      modifies this
      ensures Receiving() && from == old(from) && |input| <= |old(input)|
      ensures r.Ok? ==> r == Ok(128) && s.rpc == First && s.rtries == 0 && s.out == old(s.out) + buf
      ensures r.Ok? ==> s.received == old(s.received) + 128
      ensures !r.Ok? ==> s.out == old(s.out) && s.received == old(s.received)
      ensures r.Interrupted? ==> s.rtries == old(s.rtries) + 1
      ensures r.Interrupted? ==> s.rpc == (if s.rtries == RETRIES then RErr(BrokenPipe) else First)
      ensures r.Eof? ==> input == [] && RReads(s.rpc)
      ensures !r.Failed?
    {
      hide Legal, Exec, Checksum;
      if input != [] {
        Take();
      }
      var ok, checksum := ReadByte();
      if !ok {
        return Eof;
      }
      if checksum != Checksum(buf) {
        Take();
        WriteByte(NAK);
        return Interrupted;
      }
      packet := (packet + 1) % 256;
      Take();
      WriteByte(ACK);
      r := Ok(128);
    }

    /** The first NAK, once, and the first byte of a packet. */
    method ReadFirst() returns (ok: bool, first: int)
      requires Receiving() && (s.rpc.Begin? || s.rpc.First?)
      modifies this
      ensures Receiving() && Kept() && |input| <= |old(input)|
      ensures !ok ==> input == [] && s.rpc == First
      ensures ok ==> |input| < |old(input)|
      ensures ok ==> s.rpc == if first == CAN then RErr(Aborted) else if first == EOT then EndNak
                              else if first != SOH then RCancel(InvalidData) else Num
    {
      hide Legal, Exec, Checksum;
      if !started {
        Take();
        WriteByte(NAK);
        started := true;
      }
      if input != [] {
        Take();
      }
      ok, first := ReadByte();
    }

    method Cancel()
      requires Receiving() && s.rpc.RCancel?
      modifies this
      ensures Receiving() && Kept() && s.rpc == RErr(old(s.rpc.why)) && input == old(input)
    {
      hide Legal, Exec, Checksum;
      Take();
      WriteByte(CAN);
    }

    /** read_packet: what it does and answers is what the machine's receiver does. */
    method ReadPacket() returns (r: Result, buf: Bytes)
      requires Receiving() && (s.rpc.Begin? || s.rpc.First?) && s.rtries < RETRIES
      modifies this
      ensures Receiving() && from == old(from)
      ensures r.Ok? ==> r == Ok(0) || r == Ok(128)
      ensures r == Ok(0) ==> s.rpc == RDone && s.out == old(s.out) && s.received == old(s.received)
      ensures r == Ok(128) ==> s.rpc == First && s.rtries == 0 && s.out == old(s.out) + buf && |input| < |old(input)|
      ensures r == Ok(128) ==> s.received == old(s.received) + 128
      ensures !r.Ok? ==> s.out == old(s.out) && s.received == old(s.received)
      ensures r.Interrupted? ==> s.rtries == old(s.rtries) + 1 && |input| < |old(input)|
      ensures r.Interrupted? ==> s.rpc == (if s.rtries == RETRIES then RErr(BrokenPipe) else First)
      ensures r.Failed? ==> s.rpc == RErr(r.error)
      ensures r.Eof? ==> input == [] && RReads(s.rpc)
    {
      hide Legal, Exec, Receiver, Sender, Ran, Receiving;
      buf := [];
      var ok, first := ReadFirst();
      if !ok {
        return Eof, buf;
      }
      if first == CAN {
        return Failed(Aborted), buf;
      }
      if first == EOT {
        r := EndOfTransfer();
        return;
      } else if first != SOH {
        Cancel();
        return Failed(InvalidData), buf;
      }
      r := ExpectOrCancel(packet);
      if !r.Ok? {
        return;
      }
      r := ExpectOrCancel(255 - packet);
      if !r.Ok? {
        return;
      }
      r, buf := ReadBody();
      if !r.Ok? {
        return;
      }
      r := Answer(buf);
    }

    /** receive_with_progress: its output and byte count are the machine's; it returns
        where the machine ends, or where the stream does. */
    method Receive() returns (r: Result, into: Bytes)
      requires Receiving() && s.rpc.Begin? && s.rtries == 0 && s.out == [] && s.received == 0
      modifies this
      ensures Receiving() && from == old(from) && into == s.out
      ensures r.Ok? ==> s.rpc == RDone && r == Ok(s.received)
      ensures r.Failed? ==> s.rpc == RErr(r.error)
      ensures r.Eof? ==> input == [] && RReads(s.rpc)
      ensures !r.Interrupted?
    {
      hide Legal, Exec;
      into := [];
      var received := 0;
      while true
        invariant Receiving() && from == old(from) && (s.rpc.Begin? || s.rpc.First?) && s.rtries == 0
        invariant into == s.out && received == s.received
        decreases |input|
      {
        var tries, done := 0, false;
        ghost var left := |input|;
        while tries < RETRIES && !done
          invariant 0 <= tries <= RETRIES && Receiving() && from == old(from) && |input| <= left
          invariant into == s.out && received == s.received
          invariant done ==> s.rpc.First? && s.rtries == 0 && |input| < left
          invariant !done ==> s.rtries == tries
          invariant !done ==> if tries == RETRIES then s.rpc == RErr(BrokenPipe) else s.rpc.Begin? || s.rpc.First?
          decreases RETRIES - tries, if done then 0 else 1
        {
          var buf;
          r, buf := ReadPacket();
          match r {
            case Interrupted => tries := tries + 1;
            case Failed(_) => return;
            case Eof => return;
            case Ok(n) =>
              if n == 0 {
                return Ok(received), into;
              }
              received := received + n;
              into := into + buf;
              done := true;
          }
        }
        if !done {
          return Failed(BrokenPipe), into;
        }
      }
    }

    // ------------------------------------------------------------ the sender's side

    /** The sender's fields are the machine's. */
    ghost predicate Sending()
      reads this
    {
      mine == SStep(-1) && Ran() && packet == s.snum && input == s.back && output == s.fwd
    }

    constructor ForSending(s: Sys)
      requires s.spc == Load && !s.started && s.snum == 1 && s.m == 0 && s.stries == 0 && s.written == 0 && s.fwd == []
      ensures Sending() && this.s == s && from == s && acts == [] && !started
    {
      packet, started, input, output := 1, false, s.back, [];
      from, acts, this.s, mine := s, [], s, SStep(-1);
    }

    /** What the sender counts is as it was. */
    twostate predicate Waited()
      reads this
    {
      && from == old(from) && s.data == old(s.data) && s.m == old(s.m) && s.stries == old(s.stries)
      && s.written == old(s.written) && |input| <= |old(input)|
    }

    /** expect_byte. */
    method ExpectByte(byte: int) returns (r: Result)
      requires Sending() && ((s.spc.SNak? && byte == NAK) || (s.spc.EotNak? && byte == NAK) ||
               (s.spc.EotAck? && byte == ACK))
      modifies this
      ensures Sending() && Waited() && started == old(started)
      ensures r.Ok? ==> s.spc == if old(s.spc.SNak?) then Load else if old(s.spc.EotNak?) then PutEot2 else SDone
      ensures s.started == (old(s.started) || (r.Ok? && old(s.spc.SNak?)))
      ensures r.Failed? ==> s.spc == SErr(r.error)
      ensures r.Eof? ==> input == [] && SReads(s.spc)
      ensures !r.Interrupted?
    {
      hide Legal, Exec, Frame, Packet, ChunkSize;
      if input != [] {
        Take();
      }
      var ok, b := ReadByte();
      if !ok {
        return Eof;
      }
      r := if b == byte then Ok(b) else Failed(if b == CAN then Aborted else InvalidData);
    }

    /** The end of a transfer: EOT, NAK, EOT, ACK. */
    method WriteEnd() returns (r: Result)
      requires Sending() && s.spc.Load? && s.started && ChunkSize(s.data, s.m) == 0
      modifies this
      ensures Sending() && Waited() && s.started && started == old(started)
      ensures r.Ok? ==> r == Ok(0) && s.spc == SDone
      ensures r.Failed? ==> s.spc == SErr(r.error)
      ensures r.Eof? ==> input == [] && SReads(s.spc)
      ensures !r.Interrupted?
    {
      hide Legal, Exec, Frame, Packet;
      Take();
      Take();
      WriteByte(EOT);
      r := ExpectByte(NAK);
      if !r.Ok? {
        return;
      }
      Take();
      WriteByte(EOT);
      r := ExpectByte(ACK);
      if r.Ok? {
        r := Ok(0);
      }
    }

    /** One byte of the frame goes out. */
    method PutByte(byte: int, ghost i: nat)
      requires Sending() && s.spc == Put(i) && i < FRAME && byte == Frame(s.snum, Payload(s))[i]
      modifies this
      ensures Sending() && Waited() && s.spc == (if i + 1 == FRAME then Reply else Put(i + 1)) && s.snum == old(s.snum)
      ensures s.started == old(s.started) && started == old(started) && packet == old(packet)
    {
      hide Legal, Exec, Frame, Packet, ChunkSize;
      Take();
      WriteByte(byte);
    }

    method PutFrame(buf: Bytes)
      requires Sending() && s.spc == Put(0) && |buf| == 128 && buf == Payload(s)
      modifies this
      ensures Sending() && Waited() && s.spc == Reply && s.started == old(s.started) && started == old(started)
    {
      hide Legal, Exec, Packet, ChunkSize, Checksum;
      PutByte(SOH, 0);
      PutByte(packet, 1);
      PutByte(255 - packet, 2);
      for j := 0 to 128
        invariant Sending() && Waited() && s.spc == Put(3 + j) && s.started == old(s.started) && started == old(started)
        invariant packet == old(packet)
      {
        PutByte(buf[j], 3 + j);
      }
      PutByte(Checksum(buf), 131);
    }

    /** The receiver's answer to a packet. */
    method TakeReply() returns (r: Result)
      requires Sending() && s.spc == Reply && s.stries < RETRIES
      modifies this
      ensures Sending() && from == old(from) && s.data == old(s.data) && |input| <= |old(input)| &&
              s.started == old(s.started)
      ensures started == old(started)
      ensures r.Ok? ==> r == Ok(128) && s.spc == Load && s.m == old(s.m) + 1 && s.stries == 0
      ensures r.Ok? ==> s.written == old(s.written) + ChunkSize(s.data, old(s.m)) && |input| < |old(input)|
      ensures !r.Ok? ==> s.m == old(s.m) && s.written == old(s.written)
      ensures r.Interrupted? ==> s.stries == old(s.stries) + 1
      ensures r.Interrupted? ==> s.spc == if s.stries == RETRIES then SErr(BrokenPipe) else Put(0)
      ensures r.Failed? ==> s.spc == SErr(r.error)
      ensures r.Eof? ==> input == [] && SReads(s.spc)
    {
      hide Legal, Exec, Frame, Packet, ChunkSize;
      if input != [] {
        Take();
      }
      var ok, b := ReadByte();
      if !ok {
        return Eof;
      }
      if b == CAN {
        return Failed(Aborted);
      }
      if b == ACK {
        packet := (packet + 1) % 256;
        return Ok(128);
      } else if b == NAK {
        return Interrupted;
      }
      Take();
      WriteByte(CAN);
      r := Failed(InvalidData);
    }

    /** write_packet: what it does and answers is what the machine's sender does. */
    method WritePacket(buf: Bytes) returns (r: Result)
      requires Sending() && s.started == started && s.stries < RETRIES
      requires s.spc.Load? || (s.spc == Put(0) && s.started && buf != [])
      requires if ChunkSize(s.data, s.m) == 0 then buf == [] else buf == Payload(s)
      modifies this
      ensures Sending() && s.started == started && from == old(from) && s.data == old(s.data) && |input| <= |old(input)|
      ensures r.Ok? ==> r == if buf == [] then Ok(0) else Ok(128)
      ensures r == Ok(0) ==> s.spc == SDone && s.written == old(s.written)
      ensures r == Ok(128) ==> s.spc == Load && s.m == old(s.m) + 1 && s.stries == 0
      ensures r == Ok(128) ==> s.written == old(s.written) + ChunkSize(s.data, old(s.m)) && |input| < |old(input)|
      ensures !r.Ok? ==> s.m == old(s.m) && s.written == old(s.written)
      ensures r.Interrupted? ==> buf != [] && s.started && s.stries == old(s.stries) + 1
      ensures r.Interrupted? ==> s.spc == if s.stries == RETRIES then SErr(BrokenPipe) else Put(0)
      ensures r.Failed? ==> s.spc == SErr(r.error)
      ensures r.Eof? ==> input == [] && SReads(s.spc)
    {
      hide Legal, Exec, Frame, Packet;
      if !started {
        Take();
        r := ExpectByte(NAK);
        if !r.Ok? {
          return;
        }
        started := true;
      }
      if buf == [] {
        r := WriteEnd();
        return;
      }
      if s.spc.Load? {
        Take();
      }
      PutFrame(buf);
      r := TakeReply();
    }

    /** transmit_with_progress, of the machine's data: it returns where the machine ends,
        with its byte count, or where the stream does. */
    method Transmit(data: Bytes) returns (r: Result)
      requires Sending() && s.data == data && s.spc.Load? && !s.started && !started && s.m == 0 && s.stries == 0 &&
               s.written == 0
      modifies this
      ensures Sending() && from == old(from)
      ensures r.Ok? ==> s.spc == SDone && r == Ok(s.written)
      ensures r.Failed? ==> s.spc == SErr(r.error)
      ensures r.Eof? ==> input == [] && SReads(s.spc)
      ensures !r.Interrupted?
    {
      hide Legal, Exec, Packet, Ran;
      var m, written := 0, 0;
      while true
        invariant Sending() && s.started == started && from == old(from) && s.data == data && m == s.m &&
                  written == s.written
        invariant s.spc.Load? && s.stries == 0
        decreases |input|
      {
        var n := ChunkSize(data, m);
        if n == 0 {
          r := WritePacket([]);
          if r.Ok? {
            r := Ok(written);
          }
          return;
        }
        var buf := Packet(data, m);
        var tries, done := 0, false;
        ghost var left := |input|;
        while tries < RETRIES && !done
          invariant 0 <= tries <= RETRIES && Sending() && s.started == started && from == old(from) && s.data == data
          invariant |input| <= left
          invariant done ==> s.spc.Load? && s.stries == 0 && m + 1 == s.m && written == s.written && |input| < left
          invariant !done ==> s.stries == tries && m == s.m && written == s.written
          invariant !done ==> if tries == RETRIES then s.spc == SErr(BrokenPipe)
                              else s.spc.Load? || (s.spc == Put(0) && s.started)
          decreases RETRIES - tries, if done then 0 else 1
        {
          r := WritePacket(buf);
          match r {
            case Interrupted => tries := tries + 1;
            case Failed(_) => return;
            case Eof => return;
            case Ok(_) =>
              written := written + n;
              done := true;
          }
        }
        if !done {
          return Failed(BrokenPipe);
        }
        m := m + 1;
      }
    }
  }
}
