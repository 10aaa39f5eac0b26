/**
 Reading the last handshake from a WireGuard device dump (internal/wg/wg_linux.go):
 only an entry that carries the pinned key and a non-zero time counts.
 */
module WgHandshake {
  import opened Common
  import opened Netlink

  const PEERS := 8
  const PUBLIC_KEY := 1
  const LAST_HANDSHAKE := 6
  const GENL_HDR_LEN := 4

  datatype Time = Time(sec: int, nsec: int)

  const NEVER := Time(0, 0)

  /** An unsigned integer of any width. */
  function GetUint(e: Endian, b: seq<Byte>): nat {
    if b == [] then 0
    else if e == LittleEndian then b[0] as int + 256 * GetUint(e, b[1..])
    else 256 * GetUint(e, b[..|b| - 1]) + b[|b| - 1] as int
  }

  /** Reinterpreted as a signed 64-bit integer. */
  function Signed64(v: nat): int {
    if v % 0x1_0000_0000_0000_0000 >= 0x8000_0000_0000_0000
    then v % 0x1_0000_0000_0000_0000 - 0x1_0000_0000_0000_0000 else v % 0x1_0000_0000_0000_0000
  }

  predicate IsKey(a: Attr) {
    a.typ == PUBLIC_KEY && |a.val| == 32
  }

  predicate IsTime(a: Attr) {
    a.typ == LAST_HANDSHAKE && |a.val| >= 16
  }

  function TimeOf(e: Endian, v: seq<Byte>): Time
    requires |v| >= 16
  {
    Time(Signed64(GetUint(e, v[0..8])), Signed64(GetUint(e, v[8..16])))
  }

  // ---- a time as the kernel writes it ---------------------------------------------------------

  function PutUint(e: Endian, v: nat, n: nat): (b: seq<Byte>)
    ensures |b| == n
  {
    if n == 0 then []
    else if e == LittleEndian then [v % 256] + PutUint(e, v / 256, n - 1)
    else PutUint(e, v / 256, n - 1) + [v % 256]
  }

  function Pow256(n: nat): nat {
    if n == 0 then 1 else 256 * Pow256(n - 1)
  }

  lemma {:induction false} UintRoundTrip(e: Endian, v: nat, n: nat)
    requires v < Pow256(n)
    ensures GetUint(e, PutUint(e, v, n)) == v
  {
    if n > 0 {
      UintRoundTrip(e, v / 256, n - 1);
      var b := PutUint(e, v, n);
      if e == LittleEndian {
        assert b[1..] == PutUint(e, v / 256, n - 1);
      } else {
        assert b[..|b| - 1] == PutUint(e, v / 256, n - 1);
      }
    }
  }

  lemma EightBytes()
    ensures Pow256(8) == 0x1_0000_0000_0000_0000
  {
    assert Pow256(4) == 0x1_0000_0000;
  }

  predicate Is64(v: int) {
    -0x8000_0000_0000_0000 <= v < 0x8000_0000_0000_0000
  }

  /** Two's complement. */
  function Unsigned64(v: int): (u: nat)
    requires Is64(v)
    ensures u < 0x1_0000_0000_0000_0000
  {
    if v < 0 then v + 0x1_0000_0000_0000_0000 else v
  }

  function PutInt64(e: Endian, v: int): (b: seq<Byte>)
    requires Is64(v)
    ensures |b| == 8
  {
    PutUint(e, Unsigned64(v), 8)
  }

  lemma Int64RoundTrip(e: Endian, v: int)
    requires Is64(v)
    ensures Signed64(GetUint(e, PutInt64(e, v))) == v
  {
    Uint64RoundTrip(e, Unsigned64(v));
    UnsignedSigned(v);
  }

  lemma UnsignedSigned(v: int)
    requires Is64(v)
    ensures Signed64(Unsigned64(v)) == v
  {}

  lemma Uint64RoundTrip(e: Endian, u: nat)
    requires u < 0x1_0000_0000_0000_0000
    ensures GetUint(e, PutUint(e, u, 8)) == u
  {
    EightBytes();
    UintRoundTrip(e, u, 8);
  }

  /** The kernel's timespec: seconds, then nanoseconds. */
  function PutTime(e: Endian, t: Time): (b: seq<Byte>)
    requires Is64(t.sec) && Is64(t.nsec)
    ensures |b| == 16
  {
    PutInt64(e, t.sec) + PutInt64(e, t.nsec)
  }

  /** Any time reads back as it was written, whatever follows it. */
  lemma TimeRoundTrip(e: Endian, t: Time, more: seq<Byte>)
    requires Is64(t.sec) && Is64(t.nsec)
    ensures TimeOf(e, PutTime(e, t) + more) == t
  {
    var v := PutTime(e, t) + more;
    Int64RoundTrip(e, t.sec);
    Int64RoundTrip(e, t.nsec);
    assert v[0..8] == PutInt64(e, t.sec) && v[8..16] == PutInt64(e, t.nsec);
  }

  /** The key of an entry is its last well-formed key attribute; its time likewise. */
  function KeyIn(attrs: seq<Attr>, n: nat): Option<seq<Byte>>
    requires n <= |attrs|
  {
    if n == 0 then None else if IsKey(attrs[n - 1]) then Some(attrs[n - 1].val) else KeyIn(attrs, n - 1)
  }

  function TimeIn(e: Endian, attrs: seq<Attr>, n: nat): Option<Time>
    requires n <= |attrs|
  {
    if n == 0 then None
    else if IsTime(attrs[n - 1]) then Some(TimeOf(e, attrs[n - 1].val))
    else TimeIn(e, attrs, n - 1)
  }

  function Reported(e: Endian, attrs: seq<Attr>, pinned: seq<Byte>): Option<Time> {
    var t := TimeIn(e, attrs, |attrs|);
    if KeyIn(attrs, |attrs|) == Some(pinned) && t != Some(NEVER) then t else None
  }

  function HandshakeOf(e: Endian, peer: seq<Byte>, pinned: seq<Byte>): Option<Time> {
    Reported(e, Walk(e, peer), pinned)
  }

  ghost predicate LastKeyAt(attrs: seq<Attr>, i: int) {
    0 <= i < |attrs| && IsKey(attrs[i]) && forall j :: i < j < |attrs| ==> !IsKey(attrs[j])
  }

  ghost predicate LastTimeAt(attrs: seq<Attr>, i: int) {
    0 <= i < |attrs| && IsTime(attrs[i]) && forall j :: i < j < |attrs| ==> !IsTime(attrs[j])
  }

  lemma {:induction false} KeyInLast(attrs: seq<Attr>, n: nat, i: int)
    requires n <= |attrs| && LastKeyAt(attrs, i) && i < n
    ensures KeyIn(attrs, n) == Some(attrs[i].val)
  {
    if n - 1 != i {
      KeyInLast(attrs, n - 1, i);
    }
  }

  lemma {:induction false} TimeInLast(e: Endian, attrs: seq<Attr>, n: nat, i: int)
    requires n <= |attrs| && LastTimeAt(attrs, i) && i < n
    ensures TimeIn(e, attrs, n) == Some(TimeOf(e, attrs[i].val))
  {
    if n - 1 != i {
      TimeInLast(e, attrs, n - 1, i);
    }
  }

  lemma {:induction false} KeyInFound(attrs: seq<Attr>, n: nat) returns (i: int)
    requires n <= |attrs| && KeyIn(attrs, n).Some? && forall j :: n <= j < |attrs| ==> !IsKey(attrs[j])
    ensures LastKeyAt(attrs, i)
  {
    if IsKey(attrs[n - 1]) {
      i := n - 1;
    } else {
      i := KeyInFound(attrs, n - 1);
    }
  }

  lemma {:induction false} TimeInFound(e: Endian, attrs: seq<Attr>, n: nat) returns (i: int)
    requires n <= |attrs| && TimeIn(e, attrs, n).Some? && forall j :: n <= j < |attrs| ==> !IsTime(attrs[j])
    ensures LastTimeAt(attrs, i)
  {
    if IsTime(attrs[n - 1]) {
      i := n - 1;
    } else {
      i := TimeInFound(e, attrs, n - 1);
    }
  }

  /** Attribute `i` is the last key and names `pinned`; attribute `j` is the last time and says `t`. */
  ghost predicate Says(e: Endian, attrs: seq<Attr>, pinned: seq<Byte>, t: Time, i: int, j: int) {
    LastKeyAt(attrs, i) && attrs[i].val == pinned && LastTimeAt(attrs, j) && TimeOf(e, attrs[j].val) == t
  }

  ghost predicate SaysSomewhere(e: Endian, attrs: seq<Attr>, pinned: seq<Byte>, t: Time) {
    exists i, j :: Says(e, attrs, pinned, t, i, j)
  }

  lemma ReportedFound(e: Endian, attrs: seq<Attr>, pinned: seq<Byte>, t: Time) returns (i: int, j: int)
    requires Reported(e, attrs, pinned) == Some(t)
    ensures t != NEVER && Says(e, attrs, pinned, t, i, j)
  {
    i := KeyInFound(attrs, |attrs|);
    KeyInLast(attrs, |attrs|, i);
    j := TimeInFound(e, attrs, |attrs|);
    TimeInLast(e, attrs, |attrs|, j);
  }

  lemma ReportedSaid(e: Endian, attrs: seq<Attr>, pinned: seq<Byte>, t: Time, i: int, j: int)
    ensures t != NEVER && Says(e, attrs, pinned, t, i, j) ==> Reported(e, attrs, pinned) == Some(t)
  {
    if t != NEVER && Says(e, attrs, pinned, t, i, j) {
      KeyInLast(attrs, |attrs|, i);
      TimeInLast(e, attrs, |attrs|, j);
    }
  }

  lemma ReportedSays(e: Endian, attrs: seq<Attr>, pinned: seq<Byte>, t: Time)
    ensures Reported(e, attrs, pinned) == Some(t) <==> t != NEVER && SaysSomewhere(e, attrs, pinned, t)
  {
    if Reported(e, attrs, pinned) == Some(t) {
      var i, j := ReportedFound(e, attrs, pinned, t);
      assert Says(e, attrs, pinned, t, i, j);
    }
    forall i, j ensures t != NEVER && Says(e, attrs, pinned, t, i, j) ==> Reported(e, attrs, pinned) == Some(t) {
      ReportedSaid(e, attrs, pinned, t, i, j);
    }
  }

  /**
   A time is reported exactly for an entry whose last key attribute is the pinned key
   and whose last time attribute says that time, which is not zero.
   */
  lemma ReportedIff(e: Endian, peer: seq<Byte>, pinned: seq<Byte>, t: Time)
    ensures HandshakeOf(e, peer, pinned) == Some(t) <==> t != NEVER && SaysSomewhere(e, Walk(e, peer), pinned, t)
  {
    ReportedSays(e, Walk(e, peer), pinned, t);
  }

  /** An entry with a key and a time, in this order, reports that time for that key exactly if it is not zero. */
  lemma EntryRoundTrip(e: Endian, key: seq<Byte>, t: Time, pinned: seq<Byte>)
    requires |key| == 32 && Is64(t.sec) && Is64(t.nsec)
    ensures HandshakeOf(e, EncodeAll(e, [Attr(1, key), Attr(6, PutTime(e, t))]), pinned)
            == if key == pinned && t != Time(0, 0) then Some(t) else None
  {
    var attrs := [Attr(PUBLIC_KEY, key), Attr(LAST_HANDSHAKE, PutTime(e, t))];
    EntryWalk(e, attrs);
    TimeRoundTrip(e, t, []);
    assert PutTime(e, t) + [] == PutTime(e, t);
    EntryReports(e, attrs, key, t, pinned);
  }

  lemma EntryWalk(e: Endian, attrs: seq<Attr>)
    requires forall i :: 0 <= i < |attrs| ==> Fits(attrs[i]) && attrs[i].typ < TYPE_MASK
    ensures Walk(e, EncodeAll(e, attrs)) == attrs
  {
    RoundTrip(e, attrs);
    MaskedAlready(attrs);
  }

  lemma MaskedAlready(attrs: seq<Attr>)
    requires forall i :: 0 <= i < |attrs| ==> attrs[i].typ < TYPE_MASK
    ensures AllMasked(attrs) == attrs
  {
    forall i | 0 <= i < |attrs| ensures AllMasked(attrs)[i] == attrs[i] {
      assert attrs[i].typ % TYPE_MASK == attrs[i].typ;
    }
  }

  lemma EntryReports(e: Endian, attrs: seq<Attr>, key: seq<Byte>, t: Time, pinned: seq<Byte>)
    requires |attrs| == 2 && attrs[0] == Attr(PUBLIC_KEY, key) && |key| == 32
    requires IsTime(attrs[1]) && TimeOf(e, attrs[1].val) == t
    ensures Reported(e, attrs, pinned) == if key == pinned && t != NEVER then Some(t) else None
  {
    assert KeyIn(attrs, 1) == Some(key) && KeyIn(attrs, 2) == Some(key);
    assert TimeIn(e, attrs, 2) == Some(t);
  }

  /** Decode one peer entry. */
  method PeerHandshake(e: Endian, peer: seq<Byte>, pinned: seq<Byte>) returns (t: Option<Time>)
    ensures t == HandshakeOf(e, peer, pinned)
  {
    var attrs := AttrWalk(e, peer);
    var key: Option<seq<Byte>>, time: Option<Time> := None, None;
    for i := 0 to |attrs|
      invariant key == KeyIn(attrs, i) && time == TimeIn(e, attrs, i)
    {
      if IsKey(attrs[i]) {
        key := Some(attrs[i].val);
      } else if IsTime(attrs[i]) {
        time := Some(TimeOf(e, attrs[i].val));
      }
    }
    if key != Some(pinned) || time == Some(NEVER) {
      return None;
    }
    return time;
  }

  // ---- a whole reply --------------------------------------------------------------------

  /** One message of a dump: an error, an acknowledgement or end mark, or device data. */
  datatype Msg = Failure | Finished | Data(bytes: seq<Byte>)

  function Later(acc: Option<Time>, t: Option<Time>): Option<Time> {
    if t.Some? then t else acc
  }

  /** The last time reported by the first `n` entries of a peer list, or `acc`. */
  function InPeers(e: Endian, entries: seq<Attr>, n: nat, pinned: seq<Byte>, acc: Option<Time>): Option<Time>
    requires n <= |entries|
  {
    if n == 0 then acc else Later(InPeers(e, entries, n - 1, pinned, acc), HandshakeOf(e, entries[n - 1].val, pinned))
  }

  function InDevice(e: Endian, attrs: seq<Attr>, n: nat, pinned: seq<Byte>, acc: Option<Time>): Option<Time>
    requires n <= |attrs|
  {
    if n == 0 then acc
    else if attrs[n - 1].typ != PEERS then InDevice(e, attrs, n - 1, pinned, acc)
    else InPeers(e, Walk(e, attrs[n - 1].val), |Walk(e, attrs[n - 1].val)|, pinned,
                 InDevice(e, attrs, n - 1, pinned, acc))
  }

  function DeviceAttrs(e: Endian, m: Msg): seq<Attr> {
    if m.Data? && |m.bytes| >= GENL_HDR_LEN then Walk(e, m.bytes[GENL_HDR_LEN..]) else []
  }

  function InMsg(e: Endian, m: Msg, pinned: seq<Byte>, acc: Option<Time>): Option<Time> {
    InDevice(e, DeviceAttrs(e, m), |DeviceAttrs(e, m)|, pinned, acc)
  }

  /** What `read` makes of the first `n` messages, one after the other. */
  function Fold(read: (Msg, Option<Time>) -> Option<Time>, msgs: seq<Msg>, n: nat): Option<Time>
    requires n <= |msgs|
  {
    if n == 0 then None else read(msgs[n - 1], Fold(read, msgs, n - 1))
  }

  function Reader(e: Endian, pinned: seq<Byte>): (Msg, Option<Time>) -> Option<Time> {
    (m, acc) => InMsg(e, m, pinned, acc)
  }

  function InReply(e: Endian, msgs: seq<Msg>, n: nat, pinned: seq<Byte>): Option<Time>
    requires n <= |msgs|
  {
    Fold(Reader(e, pinned), msgs, n)
  }

  // ---- what a reply reports ------------------------------------------------------------------

  ghost predicate PeersReport(e: Endian, entries: seq<Attr>, n: nat, pinned: seq<Byte>, t: Option<Time>)
    requires n <= |entries|
  {
    exists i :: 0 <= i < n && HandshakeOf(e, entries[i].val, pinned) == t
  }

  ghost predicate AttrReports(e: Endian, a: Attr, pinned: seq<Byte>, t: Option<Time>) {
    a.typ == PEERS && PeersReport(e, Walk(e, a.val), |Walk(e, a.val)|, pinned, t)
  }

  ghost predicate DeviceReports(e: Endian, attrs: seq<Attr>, n: nat, pinned: seq<Byte>, t: Option<Time>)
    requires n <= |attrs|
  {
    exists i :: 0 <= i < n && AttrReports(e, attrs[i], pinned, t)
  }

  ghost predicate MsgReports(e: Endian, m: Msg, pinned: seq<Byte>, t: Option<Time>) {
    DeviceReports(e, DeviceAttrs(e, m), |DeviceAttrs(e, m)|, pinned, t)
  }

  lemma {:induction false} InPeersSound(e: Endian, entries: seq<Attr>, n: nat, pinned: seq<Byte>, acc: Option<Time>)
    requires n <= |entries|
    ensures var r := InPeers(e, entries, n, pinned, acc); r == acc || (r.Some? && PeersReport(e, entries, n, pinned, r))
    ensures forall t: Option<Time> :: t.Some? && PeersReport(e, entries, n, pinned, t) ==>
      InPeers(e, entries, n, pinned, acc).Some?
    ensures acc.Some? ==> InPeers(e, entries, n, pinned, acc).Some?
  {
    if n > 0 {
      InPeersSound(e, entries, n - 1, pinned, acc);
      PeersReportStep(e, entries, n, pinned);
    }
  }

  lemma PeersReportStep(e: Endian, entries: seq<Attr>, n: nat, pinned: seq<Byte>)
    requires 0 < n <= |entries|
    ensures forall t :: PeersReport(e, entries, n, pinned, t) <==>
      PeersReport(e, entries, n - 1, pinned, t) || HandshakeOf(e, entries[n - 1].val, pinned) == t
  {}

  lemma {:induction false} InDeviceSound(e: Endian, attrs: seq<Attr>, n: nat, pinned: seq<Byte>, acc: Option<Time>)
    requires n <= |attrs|
    ensures var r := InDevice(e, attrs, n, pinned, acc); r == acc || (r.Some? && DeviceReports(e, attrs, n, pinned, r))
    ensures forall t: Option<Time> :: t.Some? && DeviceReports(e, attrs, n, pinned, t) ==>
      InDevice(e, attrs, n, pinned, acc).Some?
    ensures acc.Some? ==> InDevice(e, attrs, n, pinned, acc).Some?
  {
    if n > 0 {
      InDeviceSound(e, attrs, n - 1, pinned, acc);
      if attrs[n - 1].typ == PEERS {
        var entries := Walk(e, attrs[n - 1].val);
        InPeersSound(e, entries, |entries|, pinned, InDevice(e, attrs, n - 1, pinned, acc));
      }
      DeviceReportsStep(e, attrs, n, pinned);
    }
  }

  lemma DeviceReportsStep(e: Endian, attrs: seq<Attr>, n: nat, pinned: seq<Byte>)
    requires 0 < n <= |attrs|
    ensures forall t :: DeviceReports(e, attrs, n, pinned, t) <==>
      DeviceReports(e, attrs, n - 1, pinned, t) || AttrReports(e, attrs[n - 1], pinned, t)
  {}

  lemma InMsgSound(e: Endian, m: Msg, pinned: seq<Byte>, acc: Option<Time>)
    ensures var r := InMsg(e, m, pinned, acc); r == acc || (r.Some? && MsgReports(e, m, pinned, r))
    ensures acc.Some? ==> InMsg(e, m, pinned, acc).Some?
  {
    InDeviceSound(e, DeviceAttrs(e, m), |DeviceAttrs(e, m)|, pinned, acc);
  }

  lemma InMsgComplete(e: Endian, m: Msg, pinned: seq<Byte>, acc: Option<Time>, t: Option<Time>)
    requires t.Some? && MsgReports(e, m, pinned, t)
    ensures InMsg(e, m, pinned, acc).Some?
  {
    InDeviceSound(e, DeviceAttrs(e, m), |DeviceAttrs(e, m)|, pinned, acc);
  }

  lemma {:induction false} FoldSound(read: (Msg, Option<Time>) -> Option<Time>, reports: (Msg, Option<Time>) -> bool,
                                     msgs: seq<Msg>, n: nat) returns (i: nat)
    requires forall m, acc :: read(m, acc) == acc || reports(m, read(m, acc))
    requires n <= |msgs| && Fold(read, msgs, n).Some?
    ensures i < n && reports(msgs[i], Fold(read, msgs, n))
  {
    i := n - 1;
    if Fold(read, msgs, n) == Fold(read, msgs, i) {
      i := FoldSound(read, reports, msgs, i);
    }
  }

  lemma {:induction false} FoldComplete(read: (Msg, Option<Time>) -> Option<Time>, msgs: seq<Msg>, n: nat, i: nat)
    requires forall m, acc: Option<Time> :: acc.Some? ==> read(m, acc).Some?
    requires i < n <= |msgs| && forall acc :: read(msgs[i], acc).Some?
    ensures Fold(read, msgs, n).Some?
  {
    if i < n - 1 {
      FoldComplete(read, msgs, n - 1, i);
    }
  }

  /** A reply reports a time only from an entry that carries the pinned key and that non-zero time. */
  lemma InReplySound(e: Endian, msgs: seq<Msg>, n: nat, pinned: seq<Byte>) returns (i: nat)
    requires n <= |msgs| && InReply(e, msgs, n, pinned).Some?
    ensures i < n && MsgReports(e, msgs[i], pinned, InReply(e, msgs, n, pinned))
  {
    var read := Reader(e, pinned);
    var reports := (m, t) => MsgReports(e, m, pinned, t);
    forall m, acc ensures read(m, acc) == acc || reports(m, read(m, acc)) {
      InMsgSound(e, m, pinned, acc);
    }
    i := FoldSound(read, reports, msgs, n);
  }

  /** And reports one whenever there is such an entry. */
  lemma InReplyComplete(e: Endian, msgs: seq<Msg>, n: nat, pinned: seq<Byte>, t: Option<Time>, i: nat)
    requires i < n <= |msgs| && t.Some? && MsgReports(e, msgs[i], pinned, t)
    ensures InReply(e, msgs, n, pinned).Some?
  {
    var read := Reader(e, pinned);
    forall m, acc: Option<Time> | acc.Some? ensures read(m, acc).Some? {
      InMsgSound(e, m, pinned, acc);
    }
    forall acc ensures read(msgs[i], acc).Some? {
      InMsgComplete(e, msgs[i], pinned, acc, t);
    }
    FoldComplete(read, msgs, n, i);
  }

  // ---- scanning ---------------------------------------------------------------------------------

  method ScanPeers(e: Endian, peers: seq<Byte>, pinned: seq<Byte>, acc: Option<Time>) returns (ts: Option<Time>)
    ensures ts == InPeers(e, Walk(e, peers), |Walk(e, peers)|, pinned, acc)
  {
    ts := acc;
    var entries := AttrWalk(e, peers);
    for i := 0 to |entries|
      invariant ts == InPeers(e, entries, i, pinned, acc)
    {
      var t := PeerHandshake(e, entries[i].val, pinned);
      if t.Some? {
        ts := t;
      }
    }
  }

  method ScanDevice(e: Endian, data: seq<Byte>, pinned: seq<Byte>, acc: Option<Time>) returns (ts: Option<Time>)
    ensures ts == InDevice(e, Walk(e, data), |Walk(e, data)|, pinned, acc)
  {
    ts := acc;
    var attrs := AttrWalk(e, data);
    for i := 0 to |attrs|
      invariant ts == InDevice(e, attrs, i, pinned, acc)
    {
      if attrs[i].typ == PEERS {
        ts := ScanPeers(e, attrs[i].val, pinned, ts);
      }
    }
  }

  method ScanMsg(e: Endian, m: Msg, pinned: seq<Byte>, acc: Option<Time>) returns (ts: Option<Time>)
    ensures ts == InMsg(e, m, pinned, acc)
  {
    ts := acc;
    if m.Data? && |m.bytes| >= GENL_HDR_LEN {
      ts := ScanDevice(e, m.bytes[GENL_HDR_LEN..], pinned, acc);
    }
  }

  lemma InPrefix(msgs: seq<Msg>, i: nat, m: Msg)
    requires i < |msgs|
    ensures m in msgs[..i + 1] <==> m in msgs[..i] || msgs[i] == m
  {
    assert msgs[..i + 1] == msgs[..i] + [msgs[i]];
  }

  /** One datagram of a dump: the pinned peer's time if known, and whether the dump is over. */
  method ScanReply(e: Endian, msgs: seq<Msg>, pinned: seq<Byte>) returns (ts: Option<Time>, done: bool, ok: bool)
    ensures ok <==> Failure !in msgs
    ensures ok ==> ts == InReply(e, msgs, |msgs|, pinned) && (done <==> Finished in msgs)
    ensures !ok ==> ts == None
  {
    ts, done, ok := None, false, true;
    var i := 0;
    while i < |msgs|
      invariant i <= |msgs| && Failure !in msgs[..i]
      invariant done <==> Finished in msgs[..i]
      invariant ts == InReply(e, msgs, i, pinned)
    {
      if msgs[i] == Failure {
        return None, false, false;
      }
      done := done || msgs[i] == Finished;
      InPrefix(msgs, i, Finished);
      InPrefix(msgs, i, Failure);
      var t := ScanMsg(e, msgs[i], pinned, ts);
      InReplyStep(e, msgs, i, pinned);
      ts := t;
      i := i + 1;
    }
    assert msgs[..i] == msgs;
  }

  lemma InReplyStep(e: Endian, msgs: seq<Msg>, i: nat, pinned: seq<Byte>)
    requires i < |msgs|
    ensures InReply(e, msgs, i + 1, pinned) == InMsg(e, msgs[i], pinned, InReply(e, msgs, i, pinned))
  {}

  // ---- what the kernel's own encoding means --------------------------------------------------

  function PeerAttrs(peers: seq<seq<Byte>>): seq<Attr> {
    seq(|peers|, i requires 0 <= i < |peers| => Attr(NestedType(i % TYPE_MASK), peers[i]))
  }

  /** A device message nesting any peers, each and all within the length field, holds exactly those entries. */
  lemma DeviceMessage(e: Endian, header: seq<Byte>, peers: seq<seq<Byte>>)
    requires |header| == 4 && AllFit(PeerAttrs(peers))
    requires |EncodeAll(e, PeerAttrs(peers))| <= MAX_DATA
    ensures var inner := EncodeAll(e, PeerAttrs(peers));
      && DeviceAttrs(e, Data(header + EncodeNested(e, 8, inner))) == [Attr(8, inner)]
      && |Walk(e, inner)| == |peers| && forall i :: 0 <= i < |peers| ==> Walk(e, inner)[i].val == peers[i]
  {
    var inner := EncodeAll(e, PeerAttrs(peers));
    RoundTrip(e, PeerAttrs(peers));
    OneNested(e, header, inner);
  }

  lemma OneNested(e: Endian, header: seq<Byte>, inner: seq<Byte>)
    requires |header| == GENL_HDR_LEN && |inner| <= MAX_DATA
    ensures DeviceAttrs(e, Data(header + EncodeNested(e, PEERS, inner))) == [Attr(PEERS, inner)]
  {
    var outer := Attr(NestedType(PEERS), inner);
    assert (header + Encode(e, outer))[GENL_HDR_LEN..] == Encode(e, outer) + [];
    WalkFirst(e, outer, []);
  }
}
