/** The ADB transport to the module: message framing over bulk transfers, the sync
    push built on it, and the status marker of a shell command. */
module AdbFraming {
  import opened Text

  type Octet = x: int | 0 <= x < 256

  type Word = x: int | 0 <= x < 0x1_0000_0000

  type Bytes = seq<Octet>

  const MAX_PAYLOAD: nat := 4096

  // ---------------------------------------------------------------- words

  function Le32(n: Word): (b: Bytes)
    ensures |b| == 4
  {
    [n % 256, n / 256 % 256, n / 65536 % 256, n / 16777216]
  }

  function FromLe32(b: Bytes): Word
    requires |b| == 4
  {
    var b0: int, b1: int, b2: int, b3: int := b[0], b[1], b[2], b[3];
    b0 + 256 * b1 + 65536 * b2 + 16777216 * b3
  }

  lemma Le32RoundTrip(n: Word)
    ensures FromLe32(Le32(n)) == n
  {
    assert n == n % 256 + 256 * (n / 256);
    assert n / 256 == n / 256 % 256 + 256 * (n / 65536);
    assert n / 65536 == n / 65536 % 256 + 256 * (n / 16777216);
  }

  function Sum(b: Bytes): nat {
    if b == [] then 0 else b[0] + Sum(b[1..])
  }

  lemma {:induction false} SumBound(b: Bytes)
    ensures Sum(b) <= 255 * |b|
  {
    if b == [] {
    } else {
      SumBound(b[1..]);
    }
  }

  lemma {:induction false} SumUpdate(b: Bytes, i: nat, x: Octet)
    requires i < |b|
    ensures Sum(b[i := x]) == Sum(b) - b[i] + x
  {
    if i > 0 {
      SumUpdate(b[1..], i - 1, x);
      assert b[i := x][1..] == b[1..][i - 1 := x];
    } else {
      assert b[i := x][1..] == b[1..];
    }
  }

  // ---------------------------------------------------------------- one message

  datatype Message = Message(cmd: Word, arg0: Word, arg1: Word, payload: Bytes)

  const CMD_WRTE: Word := 0x45545257
  const CMD_OKAY: Word := 0x59414B4F

  function Checksum(payload: Bytes): Word {
    Sum(payload) % 0x1_0000_0000
  }

  function Header(m: Message): (b: Bytes)
    requires |m.payload| < 0x1_0000_0000
    ensures |b| == 24
  {
    Le32(m.cmd) + Le32(m.arg0) + Le32(m.arg1) + Le32(|m.payload|) + Le32(Checksum(m.payload)) + Le32(0xFFFF_FFFF - m.cmd)
  }

  function Field(header: Bytes, k: nat): Word
    requires |header| == 24 && k < 6
  {
    FromLe32(header[4 * k..4 * k + 4])
  }

  lemma HeaderFields(m: Message)
    requires |m.payload| < 0x1_0000_0000
    ensures var h := Header(m);
            && Field(h, 0) == m.cmd && Field(h, 1) == m.arg0 && Field(h, 2) == m.arg1
            && Field(h, 3) == |m.payload| && Field(h, 4) == Checksum(m.payload)
  {
    hide Le32, FromLe32;
    var h := Header(m);
    assert h[0..4] == Le32(m.cmd) && h[4..8] == Le32(m.arg0) && h[8..12] == Le32(m.arg1);
    assert h[12..16] == Le32(|m.payload|) && h[16..20] == Le32(Checksum(m.payload));
    Le32RoundTrip(m.cmd);
    Le32RoundTrip(m.arg0);
    Le32RoundTrip(m.arg1);
    Le32RoundTrip(|m.payload|);
    Le32RoundTrip(Checksum(m.payload));
  }

  // ---------------------------------------------------------------- reading transfers

  datatype Reading = Reading(bytes: Option<Bytes>, left: seq<Bytes>)

  /** Reads until n bytes are there; what a transfer brings beyond them is lost, an
      empty one is a read that timed out. None when the transfers run out first. */
  function ReadExact(n: nat, out: Bytes, transfers: seq<Bytes>): Reading
    requires |out| <= n
    decreases |transfers|
  {
    if |out| == n then Reading(Some(out), transfers)
    else if transfers == [] then Reading(None, [])
    else
      var chunk := transfers[0];
      var room := n - |out|;
      ReadExact(n, out + if |chunk| <= room then chunk else chunk[..room], transfers[1..])
  }

  datatype Received = Got(m: Message) | TimedOut | BadLength | BadChecksum

  function Receive(transfers: seq<Bytes>): (Received, seq<Bytes>) {
    var h := ReadExact(24, [], transfers);
    if h.bytes.None? || |h.bytes.value| != 24 then (TimedOut, h.left)
    else
      var header := h.bytes.value;
      var length := Field(header, 3);
      if length > MAX_PAYLOAD then (BadLength, h.left)
      else
        var p := ReadExact(length, [], h.left);
        if p.bytes.None? then (TimedOut, p.left)
        else if Checksum(p.bytes.value) != Field(header, 4) then (BadChecksum, p.left)
        else (Got(Message(Field(header, 0), Field(header, 1), Field(header, 2), p.bytes.value)), p.left)
  }

  /** The transfers a message is sent in: the header, then the payload if any. */
  function Blocks(m: Message): seq<Bytes>
    requires |m.payload| < 0x1_0000_0000
  {
    [Header(m)] + if m.payload == [] then [] else [m.payload]
  }

  ghost predicate Sendable(ms: seq<Message>) {
    forall i :: 0 <= i < |ms| ==> |ms[i].payload| <= MAX_PAYLOAD
  }

  function AllBlocks(ms: seq<Message>): seq<Bytes>
    requires Sendable(ms)
  {
    if ms == [] then [] else Blocks(ms[0]) + AllBlocks(ms[1..])
  }

  /** transfers carry the blocks cut up in any way, with timeouts anywhere, no
      transfer reaching across the end of a block. */
  predicate Fragments(transfers: seq<Bytes>, blocks: seq<Bytes>)
    decreases |transfers|
  {
    if transfers == [] then blocks == []
    else if transfers[0] == [] then Fragments(transfers[1..], blocks)
    else
      && blocks != [] && transfers[0] <= blocks[0]
      && Fragments(transfers[1..], (if transfers[0] == blocks[0] then [] else [blocks[0][|transfers[0]|..]]) + blocks[1..])
  }

  /** Reading a block's length yields the block and leaves the others. */
  lemma {:induction false} ReadBlock(out: Bytes, transfers: seq<Bytes>, block: Bytes, blocks: seq<Bytes>)
    requires block != [] && Fragments(transfers, [block] + blocks)
    ensures var got := ReadExact(|out| + |block|, out, transfers);
            got.bytes == Some(out + block) && Fragments(got.left, blocks)
    decreases |transfers|
  {
    var chunk := transfers[0];
    assert ([block] + blocks)[1..] == blocks;
    if chunk == [] {
      assert out + chunk == out;
      ReadBlock(out, transfers[1..], block, blocks);
    } else if chunk == block {
      assert [] + blocks == blocks;
    } else {
      var rest := block[|chunk|..];
      assert block == chunk + rest;
      assert (out + chunk) + rest == out + block;
      ReadBlock(out + chunk, transfers[1..], rest, blocks);
    }
  }

  lemma ReceiveOne(transfers: seq<Bytes>, m: Message, blocks: seq<Bytes>)
    requires |m.payload| <= MAX_PAYLOAD && Fragments(transfers, Blocks(m) + blocks)
    ensures Receive(transfers).0 == Got(m) && Fragments(Receive(transfers).1, blocks)
  {
    hide ReadExact, Header, Fragments;
    HeaderFields(m);
    assert Blocks(m) + blocks == [Header(m)] + (if m.payload == [] then [] else [m.payload]) + blocks;
    if m.payload == [] {
      assert [Header(m)] + [] + blocks == [Header(m)] + blocks;
      ReadBlock([], transfers, Header(m), blocks);
      ReadNothing(ReadExact(24, [], transfers).left);
    } else {
      assert [Header(m)] + [m.payload] + blocks == [Header(m)] + ([m.payload] + blocks);
      ReadBlock([], transfers, Header(m), [m.payload] + blocks);
      ReadBlock([], ReadExact(24, [], transfers).left, m.payload, blocks);
    }
    assert [] + Header(m) == Header(m) && [] + m.payload == m.payload;
  }

  lemma ReadNothing(transfers: seq<Bytes>)
    ensures ReadExact(0, [], transfers) == Reading(Some([]), transfers)
  {
  }

  function ReceiveAll(transfers: seq<Bytes>, n: nat): seq<Received>
    decreases n
  {
    if n == 0 then [] else var (r, left) := Receive(transfers); [r] + ReceiveAll(left, n - 1)
  }

  /** Receiving undoes sending, for any messages and any such fragmentation. */
  lemma {:induction false} ReceiveUndoesSend(transfers: seq<Bytes>, ms: seq<Message>)
    requires Sendable(ms) && Fragments(transfers, AllBlocks(ms))
    ensures |ReceiveAll(transfers, |ms|)| == |ms|
    ensures forall i :: 0 <= i < |ms| ==> ReceiveAll(transfers, |ms|)[i] == Got(ms[i])
    decreases |ms|
  {
    hide Receive, Fragments, Blocks;
    if ms == [] {
    } else {
      ReceiveOne(transfers, ms[0], AllBlocks(ms[1..]));
      ReceiveUndoesSend(Receive(transfers).1, ms[1..]);
      assert forall i :: 0 < i < |ms| ==> ms[i] == ms[1..][i - 1];
    }
  }

  lemma ChecksumIsSum(b: Bytes)
    requires |b| <= MAX_PAYLOAD
    ensures Checksum(b) == Sum(b)
  {
    SumBound(b);
  }

  /** Up to the payload limit the byte sum cannot wrap, so a payload put in place
      of the one the header was made for is accepted exactly when its byte sum is
      the same. */
  lemma ChecksumDecides(transfers: seq<Bytes>, m: Message, payload: Bytes, blocks: seq<Bytes>)
    requires 0 < |payload| == |m.payload| <= MAX_PAYLOAD
    requires Fragments(transfers, [Header(m), payload] + blocks)
    ensures Receive(transfers).0 == if Sum(payload) == Sum(m.payload) then Got(m.(payload := payload)) else BadChecksum
  {
    hide ReadExact, Header, Fragments, Sum, Checksum, Field;
    HeaderFields(m);
    ChecksumIsSum(payload);
    ChecksumIsSum(m.payload);
    assert [Header(m), payload] + blocks == [Header(m)] + ([payload] + blocks);
    ReadBlock([], transfers, Header(m), [payload] + blocks);
    ReadBlock([], ReadExact(24, [], transfers).left, payload, blocks);
    assert [] + Header(m) == Header(m) && [] + payload == payload;
  }

  /** So any change of a single octet is caught; an exchange of two is not. */
  lemma WhatTheChecksumCatches(transfers: seq<Bytes>, m: Message, i: nat, j: nat, x: Octet, blocks: seq<Bytes>)
    requires |m.payload| <= MAX_PAYLOAD && i < |m.payload| && j < |m.payload| && x != m.payload[i]
    ensures Fragments(transfers, [Header(m), m.payload[i := x]] + blocks) ==> Receive(transfers).0 == BadChecksum
    ensures var swapped := m.payload[i := m.payload[j]][j := m.payload[i]];
            Fragments(transfers, [Header(m), swapped] + blocks) ==> Receive(transfers).0 == Got(m.(payload := swapped))
  {
    hide Receive, Header, Fragments, Sum;
    var changed, swapped := m.payload[i := x], m.payload[i := m.payload[j]][j := m.payload[i]];
    SumUpdate(m.payload, i, x);
    SumUpdate(m.payload, i, m.payload[j]);
    SumUpdate(m.payload[i := m.payload[j]], j, m.payload[i]);
    if Fragments(transfers, [Header(m), changed] + blocks) {
      ChecksumDecides(transfers, m, changed, blocks);
    }
    if Fragments(transfers, [Header(m), swapped] + blocks) {
      ChecksumDecides(transfers, m, swapped, blocks);
    }
  }

  // ---------------------------------------------------------------- outcomes of a read

  function Joined(parts: seq<Bytes>): Bytes {
    if parts == [] then [] else parts[0] + Joined(parts[1..])
  }

  lemma JoinedHead(parts: seq<Bytes>, j: nat)
    requires 0 < j <= |parts|
    ensures Joined(parts[..j]) == parts[0] + Joined(parts[1..][..j - 1])
  {
    assert parts[..j][1..] == parts[1..][..j - 1];
  }

  /** A read gets the first bytes that come in, whatever the transfers; it fails exactly
      when there are too few. It takes no transfer behind the one that fills it, and what
      that one brings beyond is gone. */
  lemma {:induction false} ReadTakesTheFirstBytes(n: nat, out: Bytes, transfers: seq<Bytes>) returns (k: nat)
    requires |out| <= n
    ensures var r := ReadExact(n, out, transfers);
            && k <= |transfers| && r.left == transfers[k..]
            && (r.bytes.Some? <==> |out| + |Joined(transfers)| >= n)
            && (r.bytes.Some? ==> r.bytes.value == (out + Joined(transfers))[..n])
    ensures forall j :: 0 <= j < k ==> |out| + |Joined(transfers[..j])| < n
    decreases |transfers|
  {
    if |out| == n || transfers == [] {
      k := 0;
      assert (out + Joined(transfers))[..|out|] == out;
    } else {
      var chunk, room := transfers[0], n - |out|;
      assert transfers[..0] == [];
      if |chunk| <= room {
        var m := ReadTakesTheFirstBytes(n, out + chunk, transfers[1..]);
        k := m + 1;
        assert out + chunk + Joined(transfers[1..]) == out + Joined(transfers);
        forall j | 0 <= j < k
          ensures |out| + |Joined(transfers[..j])| < n
        {
          if j > 0 {
            JoinedHead(transfers, j);
          }
        }
      } else {
        k := 1;
        assert (out + Joined(transfers))[..n] == out + chunk[..room];
        assert ReadExact(n, out, transfers) == ReadExact(n, out + chunk[..room], transfers[1..]);
      }
    }
  }

  lemma {:induction false} FragmentsJoin(transfers: seq<Bytes>, blocks: seq<Bytes>)
    requires Fragments(transfers, blocks)
    ensures Joined(transfers) == Joined(blocks)
    decreases |transfers|
  {
    if transfers == [] {
    } else if transfers[0] == [] {
      FragmentsJoin(transfers[1..], blocks);
      assert [] + Joined(transfers[1..]) == Joined(transfers[1..]);
    } else {
      var t, b := transfers[0], blocks[0];
      var later := (if t == b then [] else [b[|t|..]]) + blocks[1..];
      FragmentsJoin(transfers[1..], later);
      if t == b {
        assert later == blocks[1..];
      } else {
        assert later[1..] == blocks[1..];
        assert t + (b[|t|..] + Joined(blocks[1..])) == b + Joined(blocks[1..]);
      }
    }
  }

  /** A message over the limit is refused by its header alone; one that breaks off is
      waited for in vain. */
  lemma BadMessagesAreTold(transfers: seq<Bytes>, m: Message, part: Bytes, blocks: seq<Bytes>)
    requires |m.payload| < 0x1_0000_0000
    ensures |m.payload| > 4096 && Fragments(transfers, Blocks(m) + blocks) ==>
              Receive(transfers).0 == BadLength && Fragments(Receive(transfers).1, [m.payload] + blocks)
    ensures |m.payload| <= 4096 && |part| < |m.payload| && Fragments(transfers, [Header(m)] + if part == [] then [] else [part]) ==>
              Receive(transfers) == (TimedOut, [])
    ensures |Joined(transfers)| < 24 ==> Receive(transfers) == (TimedOut, [])
  {
    hide ReadExact, Header, Fragments, Field, Checksum;
    HeaderFields(m);
    assert [] + Header(m) == Header(m);
    var h := ReadExact(24, [], transfers);
    if |Joined(transfers)| < 24 {
      EarlyEnd(24, transfers);
    }
    if |m.payload| > 4096 && Fragments(transfers, Blocks(m) + blocks) {
      assert Blocks(m) + blocks == [Header(m)] + ([m.payload] + blocks);
      ReadBlock([], transfers, Header(m), [m.payload] + blocks);
    }
    var rest := if part == [] then [] else [part];
    if |m.payload| <= 4096 && |part| < |m.payload| && Fragments(transfers, [Header(m)] + rest) {
      ReadBlock([], transfers, Header(m), rest);
      FragmentsJoin(h.left, rest);
      EarlyEnd(|m.payload|, h.left);
    }
  }

  lemma EarlyEnd(n: nat, transfers: seq<Bytes>)
    requires |Joined(transfers)| < n
    ensures ReadExact(n, [], transfers) == Reading(None, [])
  {
    NoneIsDry(n, [], transfers);
    var k := ReadTakesTheFirstBytes(n, [], transfers);
  }

  lemma {:induction false} NoneIsDry(n: nat, out: Bytes, transfers: seq<Bytes>)
    requires |out| <= n
    ensures ReadExact(n, out, transfers).bytes.None? ==> ReadExact(n, out, transfers).left == []
    decreases |transfers|
  {
    if |out| < n && transfers != [] {
      var chunk, room := transfers[0], n - |out|;
      NoneIsDry(n, out + if |chunk| <= room then chunk else chunk[..room], transfers[1..]);
    }
  }

  // ---------------------------------------------------------------- byte by byte

  /** The number, least significant octet first. */
  predicate LittleEndian(b: Bytes, n: int) {
    && |b| == 4
    && var b0: int, b1: int, b2: int, b3: int := b[0], b[1], b[2], b[3];
       b0 + 256 * b1 + 65536 * b2 + 16777216 * b3 == n
  }

  predicate Spells(b: Bytes, text: string) {
    |b| == |text| && forall i :: 0 <= i < |b| ==> b[i] == text[i] as int
  }

  lemma Le32IsLittleEndian(n: Word)
    ensures LittleEndian(Le32(n), n)
  {
    Le32RoundTrip(n);
  }

  /** The six words of a header; the last one is the command with every bit flipped. */
  lemma HeaderBytes(m: Message)
    requires |m.payload| < 0x1_0000_0000
    ensures var h := Header(m);
            && LittleEndian(h[0..4], m.cmd) && LittleEndian(h[4..8], m.arg0) && LittleEndian(h[8..12], m.arg1)
            && LittleEndian(h[12..16], |m.payload|) && LittleEndian(h[16..20], Sum(m.payload) % 0x1_0000_0000)
            && LittleEndian(h[20..24], 0xFFFF_FFFF - m.cmd)
  {
    hide Le32, LittleEndian, Sum;
    var h := Header(m);
    var flipped: Word := 0xFFFF_FFFF - m.cmd;
    assert h[0..4] == Le32(m.cmd) && h[4..8] == Le32(m.arg0) && h[8..12] == Le32(m.arg1);
    assert h[12..16] == Le32(|m.payload|) && h[16..20] == Le32(Checksum(m.payload)) && h[20..24] == Le32(flipped);
    Le32IsLittleEndian(m.cmd);
    Le32IsLittleEndian(m.arg0);
    Le32IsLittleEndian(m.arg1);
    Le32IsLittleEndian(|m.payload|);
    Le32IsLittleEndian(Checksum(m.payload));
    Le32IsLittleEndian(flipped);
  }

  /** The commands of the stream are their own names. */
  lemma CommandsAreNames(b: Bytes)
    ensures Spells(b, "WRTE") ==> LittleEndian(b, CMD_WRTE)
    ensures Spells(b, "OKAY") ==> LittleEndian(b, CMD_OKAY)
  {
  }

  // ---------------------------------------------------------------- sync push

  const SEND_ID: Bytes := [0x53, 0x45, 0x4E, 0x44]
  const DATA_ID: Bytes := [0x44, 0x41, 0x54, 0x41]
  const DONE_ID: Bytes := [0x44, 0x4F, 0x4E, 0x45]
  const CHUNK: nat := MAX_PAYLOAD - 8

  function Frame(id: Bytes, body: Bytes): Bytes
    requires |body| < 0x1_0000_0000
  {
    id + Le32(|body|) + body
  }

  /** The DATA frames of a file. */
  function DataFrames(data: Bytes): seq<Bytes> {
    if data == [] then []
    else
      var n := if |data| < CHUNK then |data| else CHUNK;
      [Frame(DATA_ID, data[..n])] + DataFrames(data[n..])
  }

  function SyncFrames(name: Bytes, data: Bytes, time: Word): seq<Bytes>
    requires |name| < 0x1_0000_0000
  {
    [Frame(SEND_ID, name)] + DataFrames(data) + [DONE_ID + Le32(time)]
  }

  /** What the receiver of DATA frames puts together. */
  function Reassemble(frames: seq<Bytes>): Option<Bytes> {
    if frames == [] then Some([])
    else if |frames[0]| < 8 || frames[0][..4] != DATA_ID || FromLe32(frames[0][4..8]) != |frames[0]| - 8 then None
    else match Reassemble(frames[1..]) case None => None case Some(tail) => Some(frames[0][8..] + tail)
  }

  /** Every DATA frame fits an ADB message and together they are the file. */
  lemma {:induction false} FramesReassemble(data: Bytes)
    ensures Reassemble(DataFrames(data)) == Some(data)
    ensures forall i :: 0 <= i < |DataFrames(data)| ==> 8 < |DataFrames(data)[i]| <= MAX_PAYLOAD
    ensures |DataFrames(data)| > 0 ==> |DataFrames(data)[0]| == 8 + if |data| < CHUNK then |data| else CHUNK
    ensures forall i :: 0 <= i < |DataFrames(data)| ==> |DataFrames(data)[i]| <= |DataFrames(data)[0]|
    decreases |data|
  {
    if data == [] {
    } else {
      var n := if |data| < CHUNK then |data| else CHUNK;
      FrameParts(data[..n]);
      FramesReassemble(data[n..]);
      assert data == data[..n] + data[n..];
    }
  }

  lemma FrameParts(body: Bytes)
    requires |body| <= CHUNK
    ensures var f := Frame(DATA_ID, body);
            && |f| == 8 + |body| && f[..4] == DATA_ID && FromLe32(f[4..8]) == |body| && f[8..] == body
  {
    hide Le32, FromLe32;
    Le32RoundTrip(|body|);
    assert Frame(DATA_ID, body)[4..8] == Le32(|body|);
  }

  lemma NameIsFrame(id: Bytes, name: string, body: Bytes)
    requires |id| == 4 && Spells(id, name) && |body| < 0x1_0000_0000
    ensures var f := Frame(id, body);
            |f| == 8 + |body| && Spells(f[..4], name) && LittleEndian(f[4..8], |body|) && f[8..] == body
  {
    hide Le32, LittleEndian;
    Le32IsLittleEndian(|body|);
    var f := Frame(id, body);
    assert f[..4] == id && f[4..8] == Le32(|body|) && f[8..] == body;
  }

  /** The i-th DATA frame holds the i-th 4088 bytes of the file, the last one what is
      left of it. */
  lemma {:induction false} DataFrameAt(data: Bytes, i: nat)
    requires i < |DataFrames(data)|
    ensures var f := DataFrames(data)[i];
            && 4088 * i < |data| && |f| > 8 && Spells(f[..4], "DATA") && LittleEndian(f[4..8], |f| - 8)
            && f[8..] == data[4088 * i..if |data| < 4088 * (i + 1) then |data| else 4088 * (i + 1)]
    decreases |data|
  {
    hide LittleEndian, Le32, Frame, Spells;
    var n := if |data| < CHUNK then |data| else CHUNK;
    if i == 0 {
      DataSpells();
      NameIsFrame(DATA_ID, "DATA", data[..n]);
    } else {
      DataFrameAt(data[n..], i - 1);
      var rest := data[n..];
      var from, to := 4088 * (i - 1), if |rest| < 4088 * i then |rest| else 4088 * i;
      SliceOfTail(data, n, from, to);
    }
  }

  lemma SliceOfTail(data: Bytes, n: nat, i: nat, j: nat)
    requires n <= |data| && i <= j <= |data| - n
    ensures data[n..][i..j] == data[n + i..n + j]
  {
  }

  lemma DataSpells()
    ensures Spells(DATA_ID, "DATA") && Spells(SEND_ID, "SEND") && Spells(DONE_ID, "DONE")
  {
  }

  /** What a push consists of, byte by byte, around the DATA frames. */
  lemma PushBytes(name: Bytes, data: Bytes, time: Word)
    requires |name| < 0x1_0000_0000
    ensures var frames := SyncFrames(name, data, time);
            var first, last := frames[0], frames[|frames| - 1];
            && |first| == 8 + |name| && Spells(first[..4], "SEND") && LittleEndian(first[4..8], |name|) && first[8..] == name
            && |last| == 8 && Spells(last[..4], "DONE") && LittleEndian(last[4..8], time)
            && frames[1..|frames| - 1] == DataFrames(data)
  {
    hide LittleEndian, Le32, Frame, Spells, DataFrames;
    DataSpells();
    NameIsFrame(SEND_ID, "SEND", name);
    SyncFramesAre(name, data, time);
    Le32IsLittleEndian(time);
    var last := DONE_ID + Le32(time);
    assert last[..4] == DONE_ID && last[4..8] == Le32(time);
  }

  type Limit = n: nat | n <= MAX_PAYLOAD

  /** How far a sequence of frames gets over one stream: how many are written,
      whether all of them were acknowledged, and what is left to read. A frame over
      the announced limit is not written, one without its acknowledgement is the
      last. */
  function PushRun(local: Word, remote: Word, frames: seq<Bytes>, limit: Limit, incoming: seq<Bytes>): (nat, bool, seq<Bytes>) {
    if frames == [] then (0, true, incoming)
    else if |frames[0]| > limit then (0, false, incoming)
    else
      var (r, left) := Receive(incoming);
      if r != Got(Message(CMD_OKAY, remote, local, [])) then (1, false, left)
      else
        var (n, ok, end) := PushRun(local, remote, frames[1..], limit, left);
        (n + 1, ok, end)
  }

  lemma PushRunStep(local: Word, remote: Word, frames: seq<Bytes>, limit: Limit, incoming: seq<Bytes>)
    requires frames != []
    ensures PushRun(local, remote, frames, limit, incoming) ==
              if |frames[0]| > limit then (0, false, incoming)
              else if Receive(incoming).0 != Got(Message(CMD_OKAY, remote, local, [])) then (1, false, Receive(incoming).1)
              else var tail := PushRun(local, remote, frames[1..], limit, Receive(incoming).1); (tail.0 + 1, tail.1, tail.2)
  {
    hide Receive;
  }

  lemma PushRunEnd(local: Word, remote: Word, limit: Limit, incoming: seq<Bytes>)
    ensures PushRun(local, remote, [], limit, incoming) == (0, true, incoming)
  {
  }

  /** The client's side of one connection: the writes it makes, the transfers still
      to come in, and the payload limit the module announced. */
  class AdbClient {
    var outgoing: seq<Bytes>
    var incoming: seq<Bytes>
    var remoteMaxPayload: Limit

    constructor (incoming: seq<Bytes>, limit: nat)
      ensures outgoing == [] && this.incoming == incoming
      ensures remoteMaxPayload == if 0 < limit < MAX_PAYLOAD then limit else MAX_PAYLOAD
    {
      outgoing := [];
      this.incoming := incoming;
      remoteMaxPayload := if 0 < limit < MAX_PAYLOAD then limit else MAX_PAYLOAD;
    }

    method Send(m: Message)
      requires |m.payload| < 0x1_0000_0000
      modifies this`outgoing
      ensures outgoing == old(outgoing) + Blocks(m)
    {
      outgoing := outgoing + [Header(m)];
      if m.payload != [] {
        outgoing := outgoing + [m.payload];
      }
    }

    method ReadExactly(n: nat) returns (bytes: Option<Bytes>)
      modifies this`incoming
      ensures Reading(bytes, incoming) == ReadExact(n, [], old(incoming))
      ensures bytes.Some? ==> |bytes.value| == n
    {
      var out: Bytes := [];
      while |out| < n && incoming != []
        invariant |out| <= n
        invariant ReadExact(n, out, incoming) == ReadExact(n, [], old(incoming))
        decreases |incoming|
      {
        var chunk, room := incoming[0], n - |out|;
        incoming := incoming[1..];
        out := out + if |chunk| <= room then chunk else chunk[..room];
      }
      return if |out| != n then None else Some(out);
    }

    method ReceiveMessage() returns (r: Received)
      modifies this`incoming
      ensures (r, incoming) == Receive(old(incoming))
    {
      hide ReadExact, Field, Checksum;
      var header := ReadExactly(24);
      if header.None? {
        return TimedOut;
      }
      var length := Field(header.value, 3);
      if length > MAX_PAYLOAD {
        return BadLength;
      }
      var payload := ReadExactly(length);
      if payload.None? {
        return TimedOut;
      }
      if Checksum(payload.value) != Field(header.value, 4) {
        return BadChecksum;
      }
      return Got(Message(Field(header.value, 0), Field(header.value, 1), Field(header.value, 2), payload.value));
    }

    /** Writes one chunk of a stream and waits for its acknowledgement. */
    method WriteStream(local: Word, remote: Word, data: Bytes) returns (ok: bool)
      modifies this`outgoing, this`incoming
      ensures |data| > remoteMaxPayload ==> !ok && outgoing == old(outgoing) && incoming == old(incoming)
      ensures |data| <= remoteMaxPayload ==>
                && outgoing == old(outgoing) + Blocks(Message(CMD_WRTE, local, remote, data))
                && incoming == Receive(old(incoming)).1
                && ok == (Receive(old(incoming)).0 == Got(Message(CMD_OKAY, remote, local, [])))
    {
      hide Receive, Blocks;
      if |data| > remoteMaxPayload {
        return false;
      }
      Send(Message(CMD_WRTE, local, remote, data));
      var r := ReceiveMessage();
      return r == Got(Message(CMD_OKAY, remote, local, []));
    }

    /** Writes frame i of a push, base being what was written before the push. */
    method WriteFrame(local: Word, remote: Word, frame: Bytes, ghost frames: seq<Bytes>, ghost i: nat, ghost base: seq<Bytes>)
      returns (n: nat, up: bool)
      requires i < |frames| && frames[i] == frame && Fits(frames[..i], remoteMaxPayload)
      requires outgoing == base + Written(local, remote, frames[..i])
      modifies this`outgoing, this`incoming
      ensures n == if |frame| <= remoteMaxPayload then 1 else 0
      ensures up ==> n == 1
      ensures Fits(frames[..i + n], remoteMaxPayload) && Fits(frames[..i + n], MAX_PAYLOAD)
      ensures outgoing == base + Written(local, remote, frames[..i + n])
      ensures PushRun(local, remote, frames[i..], remoteMaxPayload, old(incoming))
              == Later(n, up, PushRun(local, remote, frames[i + 1..], remoteMaxPayload, incoming), incoming)
    {
      hide Blocks, Receive, Written, PushRun, Fits, AllBlocks;
      PushRunStep(local, remote, frames[i..], remoteMaxPayload, incoming);
      assert frames[i..][1..] == frames[i + 1..];
      FitsTheMost(frames[..i], remoteMaxPayload);
      if |frame| <= remoteMaxPayload {
        OneWritten(local, remote, frames, i, remoteMaxPayload);
      }
      up := WriteStream(local, remote, frame);
      n := if |frame| <= remoteMaxPayload then 1 else 0;
    }

    /** Sends a file over an open sync stream, frame by frame; stops at the first
        frame that does not fit the announced limit or is not acknowledged. */
    method PushFrames(local: Word, remote: Word, name: Bytes, data: Bytes, time: Word) returns (sent: nat, ok: bool)
      requires |name| < 0xFFFF_0000
      modifies this`outgoing, this`incoming
      ensures (sent, ok, incoming) == PushRun(local, remote, SyncFrames(name, data, time), remoteMaxPayload, old(incoming))
      ensures var frames := SyncFrames(name, data, time);
              && sent <= |frames| && (ok ==> sent == |frames|)
              && Fits(frames[..sent], remoteMaxPayload)
              && outgoing == old(outgoing) + Written(local, remote, frames[..sent])
    {
      hide DataFrames, Written, PushRun, Le32, Frame, Fits, SyncFrames, Later;
      ghost var frames := SyncFrames(name, data, time);
      ghost var base := outgoing;
      ghost var limit := remoteMaxPayload;
      ghost var whole := PushRun(local, remote, frames, limit, incoming);
      SyncFramesAre(name, data, time);
      NothingSent(local, remote, limit);
      assert frames[..0] == [] && frames[0..] == frames && data[0..] == data;
      assert frames[1..] == DataFrames(data) + [DONE_ID + Le32(time)];
      var n, up := WriteFrame(local, remote, Frame(SEND_ID, name), frames, 0, base);
      LaterEnds(n, PushRun(local, remote, frames[1..], limit, incoming), PushRun(local, remote, frames[n..], limit, incoming), incoming);
      sent := n;
      var off := 0;
      while up && off < |data|
        invariant off <= |data| && sent <= |frames| && (up ==> sent > 0)
        invariant up ==> frames[sent..] == DataFrames(data[off..]) + [DONE_ID + Le32(time)]
        invariant Fits(frames[..sent], limit) && Fits(frames[..sent], MAX_PAYLOAD)
        invariant outgoing == base + Written(local, remote, frames[..sent])
        invariant whole == Later(sent, up, PushRun(local, remote, frames[sent..], limit, incoming), incoming)
        invariant remoteMaxPayload == limit
        decreases |data| - off
      {
        var end := if off + CHUNK < |data| then off + CHUNK else |data|;
        NextFrame(data, off, end);
        assert frames[sent] == Frame(DATA_ID, data[off..end]) && frames[sent + 1..] == frames[sent..][1..];
        ghost var rest := PushRun(local, remote, frames[sent..], limit, incoming);
        n, up := WriteFrame(local, remote, Frame(DATA_ID, data[off..end]), frames, sent, base);
        LaterJoins(sent, n, up, rest, PushRun(local, remote, frames[sent + 1..], limit, incoming), incoming);
        LaterEnds(sent + n, PushRun(local, remote, frames[sent + 1..], limit, incoming),
                  PushRun(local, remote, frames[sent + n..], limit, incoming), incoming);
        off := end;
        sent := sent + n;
      }
      if !up {
        LaterEnds(sent, PushRun(local, remote, frames[sent..], limit, incoming), (0, false, incoming), incoming);
        return sent, false;
      }
      NoFrames(data[off..]);
      assert frames[sent..] == [DONE_ID + Le32(time)];
      assert frames[sent] == DONE_ID + Le32(time) && frames[sent + 1..] == [];
      ghost var rest := PushRun(local, remote, frames[sent..], limit, incoming);
      n, up := WriteFrame(local, remote, DONE_ID + Le32(time), frames, sent, base);
      LaterJoins(sent, n, up, rest, PushRun(local, remote, frames[sent + 1..], limit, incoming), incoming);
      PushRunEnd(local, remote, limit, incoming);
      LaterOfNothing(sent + n, up, incoming);
      return sent + n, up;
    }
  }

  /** Runs of frames one behind the other. */
  lemma LaterJoins(m: nat, n: nat, up: bool, rest: (nat, bool, seq<Bytes>), tail: (nat, bool, seq<Bytes>), incoming: seq<Bytes>)
    requires rest == Later(n, up, tail, incoming)
    ensures forall before :: Later(m, true, rest, before) == Later(m + n, up, tail, incoming)
  {
  }

  lemma LaterEnds(m: nat, rest: (nat, bool, seq<Bytes>), other: (nat, bool, seq<Bytes>), incoming: seq<Bytes>)
    ensures Later(m, false, rest, incoming) == Later(m, false, other, incoming) == (m, false, incoming)
  {
  }

  lemma LaterOfNothing(m: nat, up: bool, incoming: seq<Bytes>)
    ensures Later(m, up, (0, true, incoming), incoming) == (m, up, incoming)
  {
  }

  /** A run of which n frames are through, the last one acknowledged if up. */
  function Later(n: nat, up: bool, rest: (nat, bool, seq<Bytes>), incoming: seq<Bytes>): (nat, bool, seq<Bytes>) {
    if up then (n + rest.0, rest.1, rest.2) else (n, false, incoming)
  }

  lemma FitsTheMost(frames: seq<Bytes>, limit: Limit)
    requires Fits(frames, limit)
    ensures Fits(frames, MAX_PAYLOAD)
  {
  }

  lemma NothingSent(local: Word, remote: Word, limit: Limit)
    ensures Fits([], limit) && Fits([], MAX_PAYLOAD) && Written(local, remote, []) == []
  {
  }

  predicate Fits(frames: seq<Bytes>, limit: nat) {
    forall i :: 0 <= i < |frames| ==> |frames[i]| <= limit
  }

  /** The messages that carry a sequence of frames over one stream. */
  function StreamMessages(local: Word, remote: Word, frames: seq<Bytes>): (ms: seq<Message>)
    ensures |ms| == |frames|
    ensures forall i :: 0 <= i < |frames| ==> ms[i] == Message(CMD_WRTE, local, remote, frames[i])
  {
    seq(|frames|, i requires 0 <= i < |frames| => Message(CMD_WRTE, local, remote, frames[i]))
  }

  /** The transfers these are sent in. */
  function Written(local: Word, remote: Word, frames: seq<Bytes>): seq<Bytes>
    requires Fits(frames, MAX_PAYLOAD)
  {
    AllBlocks(StreamMessages(local, remote, frames))
  }

  lemma OneWritten(local: Word, remote: Word, frames: seq<Bytes>, i: nat, limit: Limit)
    requires i < |frames| && Fits(frames[..i], limit) && |frames[i]| <= limit
    ensures Fits(frames[..i], MAX_PAYLOAD) && Fits(frames[..i + 1], MAX_PAYLOAD) && Fits(frames[..i + 1], limit)
    ensures Written(local, remote, frames[..i + 1]) == Written(local, remote, frames[..i]) + Blocks(Message(CMD_WRTE, local, remote, frames[i]))
  {
    hide Blocks;
    var before, m := StreamMessages(local, remote, frames[..i]), Message(CMD_WRTE, local, remote, frames[i]);
    assert StreamMessages(local, remote, frames[..i + 1]) == before + [m];
    OneMoreMessage(before, m);
  }

  lemma {:induction false} OneMoreMessage(ms: seq<Message>, m: Message)
    requires Sendable(ms) && |m.payload| <= MAX_PAYLOAD
    ensures AllBlocks(ms + [m]) == AllBlocks(ms) + Blocks(m)
  {
    hide Blocks;
    if ms == [] {
      assert ms + [m] == [m] && [m][1..] == [];
    } else {
      assert (ms + [m])[1..] == ms[1..] + [m];
      OneMoreMessage(ms[1..], m);
    }
  }

  /** A push whose frames all went out arrives: whatever way the transfers are cut
      up, the module receives the file name, the file and the time, in that order. */
  lemma PushArrives(local: Word, remote: Word, name: Bytes, data: Bytes, time: Word, transfers: seq<Bytes>)
    requires |name| < 0x1_0000_0000 && Fits(SyncFrames(name, data, time), MAX_PAYLOAD)
    requires Fragments(transfers, Written(local, remote, SyncFrames(name, data, time)))
    ensures var n := |DataFrames(data)| + 2;
            var received := ReceiveAll(transfers, n);
            && |received| == n
            && received[0] == Got(Message(CMD_WRTE, local, remote, Frame(SEND_ID, name)))
            && received[n - 1] == Got(Message(CMD_WRTE, local, remote, DONE_ID + Le32(time)))
            && Reassemble(Payloads(received[1..n - 1])) == Some(data)
  {
    hide Receive, ReceiveAll, Fragments, AllBlocks, DataFrames, Reassemble, Frame, Le32, Fits, SyncFrames, StreamMessages, Payloads,
      Sendable;
    var frames, inner := SyncFrames(name, data, time), DataFrames(data);
    var received := ReceiveAll(transfers, |frames|);
    FitsMeansSendable(local, remote, frames);
    ReceiveUndoesSend(transfers, StreamMessages(local, remote, frames));
    FramesReassemble(data);
    SyncFramesAre(name, data, time);
    DataPayloads(frames, received, local, remote);
    assert frames[1..|frames| - 1] == inner;
  }

  lemma SyncFramesAre(name: Bytes, data: Bytes, time: Word)
    requires |name| < 0x1_0000_0000
    ensures var frames := SyncFrames(name, data, time);
            && |frames| == |DataFrames(data)| + 2 && frames[0] == Frame(SEND_ID, name) && frames[|frames| - 1] == DONE_ID + Le32(time)
            && frames[1..|frames| - 1] == DataFrames(data)
  {
    hide DataFrames, Frame, Le32;
  }

  /** The payloads between the first and the last message. */
  lemma DataPayloads(frames: seq<Bytes>, received: seq<Received>, local: Word, remote: Word)
    requires |received| == |frames| >= 2
    requires forall i :: 0 <= i < |frames| ==> received[i] == Got(Message(CMD_WRTE, local, remote, frames[i]))
    ensures Payloads(received[1..|frames| - 1]) == frames[1..|frames| - 1]
  {
    hide Payloads;
  }

  lemma FitsMeansSendable(local: Word, remote: Word, frames: seq<Bytes>)
    requires Fits(frames, MAX_PAYLOAD)
    ensures Sendable(StreamMessages(local, remote, frames))
  {
  }

  /** The payloads of a sequence of received messages. */
  function Payloads(received: seq<Received>): (r: seq<Bytes>)
    ensures |r| == |received|
    ensures forall i :: 0 <= i < |r| ==> r[i] == if received[i].Got? then received[i].m.payload else []
  {
    seq(|received|, i requires 0 <= i < |received| => if received[i].Got? then received[i].m.payload else [])
  }

  lemma NextFrame(data: Bytes, off: nat, end: nat)
    requires off < |data| && end == if off + CHUNK < |data| then off + CHUNK else |data|
    ensures DataFrames(data[off..]) == [Frame(DATA_ID, data[off..end])] + DataFrames(data[end..])
  {
    assert data[off..][..end - off] == data[off..end] && data[off..][end - off..] == data[end..];
  }

  lemma NoFrames(data: Bytes)
    requires data == []
    ensures DataFrames(data) == []
  {
  }

  /** A push is never refused for the size of a frame exactly when the largest of
      them fits what the module announced. */
  lemma PushFitsIff(name: Bytes, data: Bytes, time: Word, limit: nat)
    requires |name| < 0x1_0000_0000
    ensures Fits(SyncFrames(name, data, time), limit) <==> 8 + |name| <= limit && 8 + (if |data| < 4088 then |data| else 4088) <= limit
  {
    hide DataFrames;
    FramesReassemble(data);
    var frames, inner := SyncFrames(name, data, time), DataFrames(data);
    assert frames[0] == Frame(SEND_ID, name) && frames[|frames| - 1] == DONE_ID + Le32(time);
    assert forall i :: 0 <= i < |inner| ==> frames[i + 1] == inner[i];
    if data == [] {
      NoFrames(data);
    } else {
      SomeFrames(data);
      assert frames[1] == inner[0];
    }
  }

  /** The next n messages to come in are acknowledgements of this stream. */
  predicate Acknowledged(local: Word, remote: Word, incoming: seq<Bytes>, n: nat)
    decreases n
  {
    n == 0 || (Receive(incoming).0 == Got(Message(CMD_OKAY, remote, local, [])) && Acknowledged(local, remote, Receive(incoming).1, n - 1))
  }

  /** n acknowledgements, each in a transfer of its own. */
  function Acknowledgements(local: Word, remote: Word, n: nat): seq<Bytes> {
    if n == 0 then [] else [Header(Message(CMD_OKAY, remote, local, []))] + Acknowledgements(local, remote, n - 1)
  }

  lemma {:induction false} AcknowledgementsAreRead(local: Word, remote: Word, n: nat)
    ensures Acknowledged(local, remote, Acknowledgements(local, remote, n), n)
  {
    hide Receive;
    if n == 0 {
    } else {
      ReceiveEmpty(Message(CMD_OKAY, remote, local, []), Acknowledgements(local, remote, n - 1));
      AcknowledgementsAreRead(local, remote, n - 1);
    }
  }

  lemma ReceiveEmpty(m: Message, rest: seq<Bytes>)
    requires m.payload == []
    ensures Receive([Header(m)] + rest) == (Got(m), rest)
  {
    hide Header, Field;
    HeaderFields(m);
    assert ([Header(m)] + rest)[1..] == rest && [] + Header(m) == Header(m);
    assert ReadExact(24, [], [Header(m)] + rest) == Reading(Some(Header(m)), rest);
    ReadNothing(rest);
  }

  /** A push goes through exactly when every frame fits and every one is acknowledged. */
  lemma {:induction false} PushNeedsEveryAcknowledgement(local: Word, remote: Word, frames: seq<Bytes>, limit: Limit, incoming: seq<Bytes>)
    ensures PushRun(local, remote, frames, limit, incoming).1 <==>
              Fits(frames, limit) && Acknowledged(local, remote, incoming, |frames|)
    decreases |frames|
  {
    hide Receive, PushRun;
    if frames == [] {
      PushRunEnd(local, remote, limit, incoming);
    } else {
      PushRunStep(local, remote, frames, limit, incoming);
      PushNeedsEveryAcknowledgement(local, remote, frames[1..], limit, Receive(incoming).1);
      assert Fits(frames, limit) <==> |frames[0]| <= limit && Fits(frames[1..], limit) by {
        assert forall i :: 0 < i < |frames| ==> frames[i] == frames[1..][i - 1];
      }
    }
  }

  /** With every acknowledgement in, a push stops exactly at the first frame that is
      too long. */
  lemma {:induction false} PushStopsAtLongFrame(local: Word, remote: Word, frames: seq<Bytes>, limit: Limit, incoming: seq<Bytes>)
    requires Acknowledged(local, remote, incoming, |frames|)
    ensures var (n, ok, left) := PushRun(local, remote, frames, limit, incoming);
            && n <= |frames| && Fits(frames[..n], limit)
            && (ok <==> Fits(frames, limit)) && (ok <==> n == |frames|)
            && (n < |frames| ==> |frames[n]| > limit)
    decreases |frames|
  {
    hide Receive, PushRun;
    if frames == [] {
      PushRunEnd(local, remote, limit, incoming);
    } else {
      PushRunStep(local, remote, frames, limit, incoming);
      if |frames[0]| <= limit {
        PushStopsAtLongFrame(local, remote, frames[1..], limit, Receive(incoming).1);
        var n := PushRun(local, remote, frames, limit, incoming).0;
        assert forall i :: 0 < i < |frames| ==> frames[i] == frames[1..][i - 1];
        assert forall i :: 0 < i < n ==> frames[..n][i] == frames[1..][..n - 1][i - 1];
      }
    }
  }

  /** What that means for a file: the push goes through if and only if the name frame
      and the longest DATA frame fit what the module announced. If the name fits and
      the file does not, everything before the first long DATA frame has been sent. */
  lemma PushGoesThroughIff(local: Word, remote: Word, name: Bytes, data: Bytes, time: Word, limit: Limit, incoming: seq<Bytes>)
    requires |name| < 0x1_0000_0000 && Acknowledged(local, remote, incoming, |DataFrames(data)| + 2)
    ensures var longest := 8 + if |data| < 4088 then |data| else 4088;
            var (n, ok, left) := PushRun(local, remote, SyncFrames(name, data, time), limit, incoming);
            && (ok <==> 8 + |name| <= limit && longest <= limit)
            && (8 + |name| > limit ==> n == 0)
            && (8 + |name| <= limit < longest ==> n == 1)
  {
    hide DataFrames, PushRun, Receive, Acknowledged, Fits;
    var frames, inner := SyncFrames(name, data, time), DataFrames(data);
    PushStopsAtLongFrame(local, remote, frames, limit, incoming);
    PushFitsIff(name, data, time, limit);
    FramesReassemble(data);
    assert frames[0] == Frame(SEND_ID, name) && |frames[0]| == 8 + |name|;
    var n := PushRun(local, remote, frames, limit, incoming).0;
    if n > 0 {
      FitsFirst(frames[..n], limit);
    }
    if 8 + |name| <= limit < 8 + (if |data| < CHUNK then |data| else CHUNK) {
      if data == [] {
        NoFrames(data);
      } else {
        SomeFrames(data);
        assert frames[1] == inner[0];
        if n > 1 {
          FitsSecond(frames[..n], limit);
        }
      }
    }
  }

  lemma FitsFirst(frames: seq<Bytes>, limit: nat)
    requires frames != [] && Fits(frames, limit)
    ensures |frames[0]| <= limit
  {
  }

  lemma FitsSecond(frames: seq<Bytes>, limit: nat)
    requires |frames| > 1 && Fits(frames, limit)
    ensures |frames[1]| <= limit
  {
  }

  /** A module that announces 1024 bytes gets the name of a longer file and nothing
      of the file. */
  lemma LongFileIsCutOff(local: Word, remote: Word, name: Bytes, data: Bytes, time: Word)
    requires |name| < 1000 && |data| > 1016
    ensures var incoming := Acknowledgements(local, remote, |DataFrames(data)| + 2);
            var (n, ok, left) := PushRun(local, remote, SyncFrames(name, data, time), 1024, incoming);
            n == 1 && !ok
  {
    hide DataFrames, PushRun, Acknowledged, Acknowledgements;
    AcknowledgementsAreRead(local, remote, |DataFrames(data)| + 2);
    PushGoesThroughIff(local, remote, name, data, time, 1024, Acknowledgements(local, remote, |DataFrames(data)| + 2));
  }

  lemma SomeFrames(data: Bytes)
    requires data != []
    ensures DataFrames(data) != []
  {
  }

  // ---------------------------------------------------------------- shell status

  function Marker(token: string): string {
    "__MAVO_STATUS_" + token + "_"
  }

  /** Last position of sub in s, or -1. */
  function LastIndexOf(s: string, sub: string): (r: int)
    ensures r < 0 ==> r == -1 && forall i :: !At(s, sub, i)
    ensures r >= 0 ==> At(s, sub, r) && forall i :: i > r ==> !At(s, sub, i)
  {
    LastIndexFrom(s, sub, |s|)
  }

  function LastIndexFrom(s: string, sub: string, from: nat): (r: int)
    ensures r < 0 ==> r == -1 && forall i :: 0 <= i <= from ==> !At(s, sub, i)
    ensures r >= 0 ==> r <= from && At(s, sub, r) && forall i :: r < i <= from ==> !At(s, sub, i)
  {
    hide At;
    if At(s, sub, from) then from
    else if from == 0 then -1
    else LastIndexFrom(s, sub, from - 1)
  }

  /** Python's int of a byte string: blanks around it, a sign, and single
      underscores between digits are allowed. */
  function ParseInt(s: string): Option<int> {
    var t := TrimSpace(s);
    var signed := t != "" && (t[0] == '-' || t[0] == '+');
    var value := DigitGroups(if signed then t[1..] else t, 0);
    if value.None? then None else Some(if t != "" && t[0] == '-' then 0 - value.value else value.value)
  }

  function DigitGroups(s: string, before: nat): Option<nat> {
    if s == "" || !IsDigit(s[0]) then None
    else
      var value := before * 10 + ((s[0] as int) - ('0' as int));
      if |s| == 1 then Some(value)
      else DigitGroups(if s[1] == '_' then s[2..] else s[1..], value)
  }

  /** Digits appended to a number already read. */
  lemma {:induction false} DigitGroupsOfDigits(a: string, n: nat)
    requires AllDigits(a) && a != ""
    ensures DigitGroups(a, n) == Some(n * Power10(|a|) + DigitsValue(a))
    decreases |a|
  {
    hide DigitsValue;
    var value := n * 10 + ((a[0] as int) - ('0' as int));
    if |a| == 1 {
      OneDigit(a);
      assert Power10(1) == 10 * Power10(0);
    } else {
      assert IsDigit(a[1]);
      DigitGroupsOfDigits(a[1..], value);
      LeadingDigit(a);
      Carry(n, (a[0] as int) - ('0' as int), Power10(|a| - 1), Power10(|a|));
    }
  }

  lemma Carry(n: nat, d: nat, p: nat, q: nat)
    requires q == 10 * p
    ensures (n * 10 + d) * p == n * q + d * p
  {
    assert n * 10 * p == n * q;
  }

  function Power10(k: nat): nat {
    if k == 0 then 1 else 10 * Power10(k - 1)
  }

  lemma TimesTen(d: nat, k: nat)
    requires k > 0
    ensures d * Power10(k - 1) * 10 == d * Power10(k)
  {
    assert Power10(k) == 10 * Power10(k - 1);
  }

  lemma OneDigit(a: string)
    requires AllDigits(a) && |a| == 1
    ensures DigitsValue(a) == (a[0] as int) - ('0' as int)
  {
    assert a[..0] == "";
  }

  lemma {:induction false} LeadingDigit(a: string)
    requires AllDigits(a) && |a| > 1
    ensures DigitsValue(a) == ((a[0] as int) - ('0' as int)) * Power10(|a| - 1) + DigitsValue(a[1..])
  {
    var n := |a| - 1;
    assert a[1..][..n - 1] == a[..n][1..] && a[1..][n - 1] == a[n];
    if n == 1 {
      OneDigit(a[..1]);
      OneDigit(a[1..]);
      assert Power10(1) == 10 * Power10(0);
    } else {
      LeadingDigit(a[..n]);
      TimesTen((a[0] as int) - ('0' as int), n);
    }
  }

  lemma ParseIntOfDigits(n: nat)
    ensures ParseInt(Digits(n)) == Some(n)
  {
    hide DigitGroups, DigitsValue, Power10, Digits;
    var s := Digits(n);
    assert IsDigit(s[0]) && IsDigit(s[|s| - 1]);
    assert TrimSpace(s) == s;
    DigitGroupsOfDigits(s, 0);
    DigitsRoundTrip(n);
  }

  /** The text and exit status read out of a shell command's output; without the
      closing underscores the last character is cut off instead. */
  function ShellStatus(output: string, token: string): Option<(string, int)> {
    var i := LastIndexOf(output, Marker(token));
    if i < 0 then None
    else
      var rest := output[i + |Marker(token)|..];
      var end := IndexOf(rest, "__");
      var number := if end >= 0 then rest[..end] else if rest == "" then "" else rest[..|rest| - 1];
      match ParseInt(number) case None => None case Some(status) => Some((output[..i], status))
  }

  /** The wrapped command's own output cannot disturb the status, even if it holds
      the marker. */
  lemma StatusSurvivesAnyOutput(text: string, token: string, status: nat)
    requires AllDigits(token)
    ensures ShellStatus(text + "\n__MAVO_STATUS_" + token + "_" + Digits(status) + "__\n", token) == Some((text + "\n", status))
  {
    hide ParseInt, Digits, IndexOf, LastIndexOf;
    var digits := Digits(status);
    MarkerFound(text, token, digits + "__\n");
    assert text + "\n__MAVO_STATUS_" + token + "_" + (digits + "__\n") == text + "\n__MAVO_STATUS_" + token + "_" + digits + "__\n";
    EndOfDigits(digits);
    ParseIntOfDigits(status);
  }

  /** Output that ends right behind the digits loses the last of them: the status comes
      out divided by ten, or not at all. */
  lemma StatusCutShort(text: string, token: string, status: nat)
    requires AllDigits(token)
    ensures ShellStatus(text + "\n__MAVO_STATUS_" + token + "_" + Digits(status), token)
            == if status < 10 then None else Some((text + "\n", status / 10))
  {
    hide ParseInt, IndexOf, LastIndexOf;
    var digits := Digits(status);
    MarkerFound(text, token, digits);
    NoUnderscores(digits);
    if status < 10 {
      NothingIsNoNumber();
      assert digits[..|digits| - 1] == "";
    } else {
      ParseIntOfDigits(status / 10);
      assert digits[..|digits| - 1] == Digits(status / 10);
    }
  }

  lemma NothingIsNoNumber()
    ensures ParseInt("") == None
  {
  }

  lemma NoUnderscores(digits: string)
    requires AllDigits(digits)
    ensures IndexOf(digits, "__") == -1
  {
    if IndexOf(digits, "__") >= 0 {
      AtChar(digits, "__", IndexOf(digits, "__"), 0);
    }
  }

  /** Without the marker there is no status. */
  lemma NoMarkerNoStatus(output: string, token: string)
    requires !Contains(output, "__MAVO_STATUS_" + token + "_")
    ensures ShellStatus(output, token) == None
  {
    hide At;
    var i := LastIndexOf(output, Marker(token));
    ContainsAt(output, Marker(token), i);
  }

  lemma ContainsAt(s: string, sub: string, i: int)
    requires !Contains(s, sub)
    ensures !At(s, sub, i)
  {
  }

  /** The marker that closes the output is the one that is found. */
  lemma MarkerFound(text: string, token: string, tail: string)
    requires AllDigits(token) && 'M' !in tail
    ensures var output := text + "\n__MAVO_STATUS_" + token + "_" + tail;
            var i := LastIndexOf(output, Marker(token));
            && i >= 0 && output[..i] == text + "\n" && i + |Marker(token)| <= |output| && output[i + |Marker(token)|..] == tail
  {
    hide LastIndexOf, Marker;
    MarkerText(text, token, tail);
    MarkerBehind(text + "\n", token, tail);
  }

  lemma MarkerText(text: string, token: string, tail: string)
    ensures text + "\n__MAVO_STATUS_" + token + "_" + tail == text + "\n" + (Marker(token) + tail)
  {
    LineEndApart();
    assert text + "\n__MAVO_STATUS_" == text + "\n" + "__MAVO_STATUS_";
  }

  lemma LineEndApart()
    ensures "\n__MAVO_STATUS_" == "\n" + "__MAVO_STATUS_"
  {
  }

  lemma MarkerBehind(head: string, token: string, tail: string)
    requires AllDigits(token) && 'M' !in tail
    ensures var output := head + (Marker(token) + tail);
            && LastIndexOf(output, Marker(token)) == |head| && output[..|head|] == head && output[|head| + |Marker(token)|..] == tail
  {
    hide LastIndexOf;
    var marker := Marker(token);
    var output := head + (marker + tail);
    assert output[|head|..|head| + |marker|] == marker && output[|head| + |marker|..] == tail;
    assert At(output, marker, |head|);
    forall i | i > |head|
      ensures !At(output, marker, i)
    {
      MarkerOnlyOnce(output, token, |head|, i);
    }
  }

  lemma MarkerOnlyOnce(output: string, token: string, start: nat, i: int)
    requires AllDigits(token) && i > start
    requires start + |Marker(token)| <= |output| && output[start..start + |Marker(token)|] == Marker(token)
    requires 'M' !in output[start + |Marker(token)|..]
    ensures !At(output, Marker(token), i)
  {
    var marker := Marker(token);
    assert marker[2] == 'M' && forall k :: 3 <= k < |marker| ==> marker[k] != 'M';
    forall k | start + 2 < k < |output|
      ensures output[k] != 'M'
    {
      if k < start + |marker| {
        assert output[start..start + |marker|][k - start] == output[k];
      } else {
        assert output[start + |marker|..][k - start - |marker|] == output[k];
      }
    }
    OccursWithin(output, marker, i);
    hide At;
    if At(output, marker, i) {
      AtChar(output, marker, i, 2);
    }
  }

  lemma OccursWithin(s: string, sub: string, i: int)
    ensures At(s, sub, i) ==> 0 <= i && i + |sub| <= |s|
  {
  }

  lemma EndOfDigits(digits: string)
    requires forall i :: 0 <= i < |digits| ==> digits[i] != '_'
    ensures IndexOf(digits + "__\n", "__") == |digits|
    ensures (digits + "__\n")[..|digits|] == digits
  {
    hide IndexOf;
    var s := digits + "__\n";
    assert At(s, "__", |digits|);
    hide At;
    forall i | i < |digits|
      ensures !At(s, "__", i)
    {
      if At(s, "__", i) {
        AtChar(s, "__", i, 0);
      }
    }
    IndexIs(s, "__", |digits|);
  }
}
