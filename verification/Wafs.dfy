/** The WAFS object: a keeper's snapshot or package as bytes (internal/livelist/wafs.go). */
module Wafs {
  import opened Bytes
  import opened Net
  import Seqs

  const MAGIC: bytes := [87, 65, 70, 83]  // "WAFS"
  const PACK_VERSION: byte := 1

  const KIND_SNAPSHOT: byte := 1
  const KIND_PACKAGE: byte := 2

  const TYPE_CIDR: byte := 1
  const TYPE_STRING: byte := 2

  const REC_ADD: byte := 1

  const PACK_HEADER := 52

  datatype Head = Head(kind: byte, typ: byte, flags: byte, epoch: u64, seqNo: u64, hash: u64, key: bytes, count: nat)

  datatype Rec = Rec(op: byte, prefix: Prefix, value: bytes, exp: i64, reason: bytes)

  datatype Error = Short | BadMagic | BadVersion | BadFamily(fam: byte) | BadType(typ: byte)

  datatype Result<+T> = Ok(value: T) | Err(error: Error)

  datatype Object = Object(head: Head, recs: seq<Rec>)

  predicate HasReasons(flags: byte) { flags % 2 == 1 }

  // The encoder a keeper uses.

  function EncodeNet(r: Rec): bytes {
    [r.op, if r.prefix.addr.V4? then 4 else 6, (if 0 <= r.prefix.bits < 256 then r.prefix.bits else 255)]
    + (if r.prefix.addr.NoAddr? then [] else r.prefix.addr.b)
    + LE(8, Unsigned(r.exp))
  }

  function EncodeText(s: bytes): (t: bytes)
    ensures |t| == 2 + |s|
  {
    LE(2, |s|) + s
  }

  function EncodeStr(reasons: bool, r: Rec): bytes {
    [r.op] + EncodeText(r.value) + LE(8, Unsigned(r.exp)) + if reasons then EncodeText(r.reason) else []
  }

  function EncodeRec(typ: byte, flags: byte, r: Rec): bytes {
    if typ == TYPE_CIDR then EncodeNet(r) else EncodeStr(HasReasons(flags), r)
  }

  function EncodeRecs(typ: byte, flags: byte, recs: seq<Rec>): bytes {
    if recs == [] then [] else EncodeRec(typ, flags, recs[0]) + EncodeRecs(typ, flags, recs[1..])
  }

  function EncodeHead(h: Head): (s: bytes)
    requires |h.key| == 16
    ensures |s| == PACK_HEADER
  {
    MAGIC + [PACK_VERSION, h.kind, h.typ, h.flags]
    + LE(8, h.epoch) + LE(8, h.seqNo) + LE(8, h.hash) + h.key + LE(4, h.count)
  }

  function Encode(o: Object): bytes
    requires |o.head.key| == 16
  {
    EncodeHead(o.head) + EncodeRecs(o.head.typ, o.head.flags, o.recs)
  }

  predicate WellFormedRec(typ: byte, flags: byte, r: Rec) {
    if typ == TYPE_CIDR then
      r.prefix.Valid() && r.value == [] && r.reason == []
    else
      && r.prefix == NO_PREFIX && |r.value| < 0x1_0000 && |r.reason| < 0x1_0000
      && (HasReasons(flags) || r.reason == [])
  }

  predicate WellFormed(o: Object) {
    && |o.head.key| == 16
    && o.head.count == |o.recs| < 0x1_0000_0000
    && (o.recs == [] || o.head.typ == TYPE_CIDR || o.head.typ == TYPE_STRING)
    && forall i | 0 <= i < |o.recs| :: WellFormedRec(o.head.typ, o.head.flags, o.recs[i])
  }

  // The decoder as a function of the unread bytes.

  function DecodeAddr(fam: byte, data: bytes): (a: Result<(Addr, bytes)>)
    ensures a.Ok? ==> |a.value.1| >= 8
  {
    if fam == 4 then
      if |data| < 4 + 8 then Err(Short) else Ok((V4(data[..4]), data[4..]))
    else if fam == 6 then
      if |data| < 16 + 8 then Err(Short) else Ok((V6(data[..16]), data[16..]))
    else Err(BadFamily(fam))
  }

  function DecodeNet(data: bytes): Result<(Rec, bytes)> {
    if |data| < 3 then Err(Short)
    else
      match DecodeAddr(data[1], data[3..])
      case Err(e) => Err(e)
      case Ok((a, rest)) => Ok((Rec(data[0], PrefixFrom(a, data[2]), [], Exp(rest), []), rest[8..]))
  }

  /** A 16-bit length, that many bytes, and room bytes after them. */
  function DecodeText(data: bytes, room: nat): (t: Result<(bytes, bytes)>)
    ensures t.Ok? ==> |t.value.1| >= room
  {
    if |data| < 2 then Err(Short)
    else
      var n := UnLE(data[..2]);
      if |data| - 2 < n + room then Err(Short) else Ok((data[2..2 + n], data[2 + n..]))
  }

  function DecodeStr(reasons: bool, data: bytes): Result<(Rec, bytes)> {
    if |data| < 1 then Err(Short)
    else
      match DecodeText(data[1..], 8)
      case Err(e) => Err(e)
      case Ok((v, rest)) =>
        var r := Rec(data[0], NO_PREFIX, v, Exp(rest), []);
        if !reasons then Ok((r, rest[8..]))
        else
          match DecodeText(rest[8..], 0)
          case Err(e) => Err(e)
          case Ok((why, tail)) => Ok((r.(reason := why), tail))
  }

  function DecodeRec(typ: byte, flags: byte, data: bytes): Result<(Rec, bytes)> {
    if |data| < 1 then Err(Short)
    else if typ == TYPE_CIDR then DecodeNet(data)
    else if typ == TYPE_STRING then DecodeStr(HasReasons(flags), data)
    else Err(BadType(typ))
  }

  function Exp(data: bytes): i64
    requires |data| >= 8
  {
    Widths();
    Signed(UnLE(data[..8]))
  }

  function DecodeRecs(typ: byte, flags: byte, count: nat, data: bytes): Result<(seq<Rec>, bytes)> {
    if count == 0 then Ok(([], data))
    else
      match DecodeRec(typ, flags, data)
      case Err(e) => Err(e)
      case Ok((r, rest)) =>
        match DecodeRecs(typ, flags, count - 1, rest)
        case Err(e) => Err(e)
        case Ok((recs, tail)) => Ok(([r] + recs, tail))
  }

  function DecodeHead(data: bytes): Head
    requires |data| >= PACK_HEADER
  {
    Widths();
    Head(data[5], data[6], data[7], UnLE(data[8..16]), UnLE(data[16..24]), UnLE(data[24..32]),
         data[32..48], UnLE(data[48..52]))
  }

  function Decode(data: bytes): Result<Object> {
    if |data| < PACK_HEADER then Err(Short)
    else if data[..4] != MAGIC then Err(BadMagic)
    else if data[4] != PACK_VERSION then Err(BadVersion)
    else
      var h := DecodeHead(data);
      match DecodeRecs(h.typ, h.flags, h.count, data[PACK_HEADER..])
      case Err(e) => Err(e)
      case Ok((recs, _)) => Ok(Object(h, recs))
  }

  /** What is refused before any record is read, and why: too little for a header, other first bytes than "WAFS",
      another version; then, unless there are no records, a type that is neither prefixes nor texts. */
  lemma RefusedAtOnce(data: bytes)
    ensures |data| < 52 ==> Decode(data) == Err(Short)
    ensures |data| >= 52 && data[..4] != MAGIC ==> Decode(data) == Err(BadMagic)
    ensures |data| >= 52 && data[..4] == MAGIC && data[4] != PACK_VERSION ==> Decode(data) == Err(BadVersion)
    ensures |data| >= 52 && data[..4] == MAGIC && data[4] == PACK_VERSION && data[6] !in {TYPE_CIDR, TYPE_STRING} ==>
              var count := UnLE(data[48..52]);
              if count == 0 then Decode(data) == Ok(Object(DecodeHead(data), []))
              else Decode(data) == Err(if |data| == 52 then Short else BadType(data[6]))
  {
  }

  // One record.

  lemma ExpRoundTrip(v: i64, rest: bytes)
    ensures var data := LE(8, Unsigned(v)) + rest; Exp(data) == v && data[8..] == rest
  {
    Widths();
    UnLEOfLE(8, Unsigned(v));
    assert (LE(8, Unsigned(v)) + rest)[..8] == LE(8, Unsigned(v));
  }

  lemma ExpReencode(data: bytes)
    requires |data| >= 8
    ensures data == LE(8, Unsigned(Exp(data))) + data[8..]
  {
    Widths();
    LEOfUnLE(data[..8]);
  }

  lemma TextRoundTrip(s: bytes, rest: bytes, room: nat)
    requires |s| < 0x1_0000 && |rest| >= room
    ensures DecodeText(EncodeText(s) + rest, room) == Ok((s, rest))
  {
    Widths();
    UnLEOfLE(2, |s|);
    var data := EncodeText(s) + rest;
    assert data[..2] == LE(2, |s|);
    assert data[2..2 + |s|] == s && data[2 + |s|..] == rest;
  }

  lemma TextTruncated(s: bytes, rest: bytes, room: nat, k: nat)
    requires |s| < 0x1_0000 && |rest| >= room && k < 2 + |s| + room
    ensures DecodeText((EncodeText(s) + rest)[..k], room) == Err(Short)
  {
    if k >= 2 {
      Widths();
      UnLEOfLE(2, |s|);
      assert (EncodeText(s) + rest)[..k][..2] == LE(2, |s|);
    }
  }

  lemma TextReencode(data: bytes, room: nat)
    requires DecodeText(data, room).Ok?
    ensures var (s, rest) := DecodeText(data, room).value; data == EncodeText(s) + rest
  {
    LEOfUnLE(data[..2]);
  }

  lemma NetRoundTrip(r: Rec, rest: bytes)
    requires WellFormedRec(TYPE_CIDR, 0, r)
    ensures DecodeNet(EncodeNet(r) + rest) == Ok((r, rest))
  {
    var a, more := r.prefix.addr.b, LE(8, Unsigned(r.exp)) + rest;
    var data, lead := EncodeNet(r) + rest, [r.op, if r.prefix.addr.V4? then 4 else 6, r.prefix.bits as byte];
    ExpRoundTrip(r.exp, rest);
    hide LE, Exp;
    Seqs.Assoc(lead + a, LE(8, Unsigned(r.exp)), rest);
    Seqs.Assoc(lead, a, more);
    Seqs.Split(lead, a + more);
    Seqs.Split(a, more);
  }

  lemma NetReencode(data: bytes)
    requires DecodeNet(data).Ok? && DecodeNet(data).value.0.prefix.Valid()
    ensures var (r, rest) := DecodeNet(data).value; data == EncodeNet(r) + rest
  {
    var (r, rest) := DecodeNet(data).value;
    var a := r.prefix.addr.b;
    var more := data[3..][|a|..];
    ExpReencode(more);
    hide LE, Exp;
    Seqs.Join(data, 3);
    Seqs.Join(data[3..], |a|);
    Seqs.Assoc(data[..3] + a, LE(8, Unsigned(r.exp)), rest);
    Seqs.Assoc(data[..3], a, more);
  }

  lemma StrRoundTrip(reasons: bool, r: Rec, rest: bytes)
    requires WellFormedRec(TYPE_STRING, if reasons then 1 else 0, r)
    ensures DecodeStr(reasons, EncodeStr(reasons, r) + rest) == Ok((r, rest))
  {
    hide EncodeText, DecodeText, Exp, LE;
    var tail := (if reasons then EncodeText(r.reason) else []) + rest;
    var more := LE(8, Unsigned(r.exp)) + tail;
    assert (EncodeStr(reasons, r) + rest)[1..] == EncodeText(r.value) + more;
    TextRoundTrip(r.value, more, 8);
    ExpRoundTrip(r.exp, tail);
    if reasons {
      TextRoundTrip(r.reason, rest, 0);
    } else {
      assert tail == rest;
    }
  }

  /** The parts of a packed string record after its first byte. */
  lemma StrParts(reasons: bool, r: Rec)
    ensures EncodeStr(reasons, r) == [r.op] + (EncodeText(r.value)
              + (LE(8, Unsigned(r.exp)) + if reasons then EncodeText(r.reason) else []))
  {
    hide LE, EncodeText;
    var tail := if reasons then EncodeText(r.reason) else [];
    Seqs.Assoc([r.op] + EncodeText(r.value), LE(8, Unsigned(r.exp)), tail);
    Seqs.Assoc([r.op], EncodeText(r.value), LE(8, Unsigned(r.exp)) + tail);
  }

  lemma StrTruncated(reasons: bool, r: Rec, k: nat)
    requires WellFormedRec(TYPE_STRING, if reasons then 1 else 0, r)
    requires k < |EncodeStr(reasons, r)|
    ensures DecodeStr(reasons, EncodeStr(reasons, r)[..k]) == Err(Short)
  {
    if k == 0 { return; }
    var v, exp := EncodeText(r.value), LE(8, Unsigned(r.exp));
    var tail := if reasons then EncodeText(r.reason) else [];
    StrParts(reasons, r);
    Seqs.Cut([r.op], v + (exp + tail), k);
    if k <= |v| + 8 {
      ValueTruncated(reasons, r, exp + tail, k - 1);
    } else {
      Seqs.Cut(v, exp + tail, k - 1);
      Seqs.Cut(exp, tail, k - 1 - |v|);
      ReasonTruncated(r, k - 9 - |v|);
    }
  }

  /** The cut falls before the end of the expiry. */
  lemma ValueTruncated(reasons: bool, r: Rec, more: bytes, k: nat)
    requires |r.value| < 0x1_0000 && |more| >= 8 && k < |EncodeText(r.value)| + 8
    ensures DecodeStr(reasons, [r.op] + (EncodeText(r.value) + more)[..k]) == Err(Short)
  {
    TextTruncated(r.value, more, 8, k);
    Seqs.Split([r.op], (EncodeText(r.value) + more)[..k]);
  }

  /** The cut falls inside the reason. */
  lemma ReasonTruncated(r: Rec, j: nat)
    requires WellFormedRec(TYPE_STRING, 1, r)
    requires j < |EncodeText(r.reason)|
    ensures var cut := LE(8, Unsigned(r.exp)) + EncodeText(r.reason)[..j];
            DecodeStr(true, [r.op] + (EncodeText(r.value) + cut)) == Err(Short)
  {
    var rest := EncodeText(r.reason)[..j];
    TextRoundTrip(r.value, LE(8, Unsigned(r.exp)) + rest, 8);
    ExpRoundTrip(r.exp, rest);
    TextTruncated(r.reason, [], 0, j);
    Seqs.Cut(EncodeText(r.reason), [], j);
    Seqs.Split([r.op], EncodeText(r.value) + (LE(8, Unsigned(r.exp)) + rest));
    hide LE, EncodeText, DecodeText, Exp;
  }

  lemma StrReencode(reasons: bool, data: bytes)
    requires DecodeStr(reasons, data).Ok?
    ensures var (r, rest) := DecodeStr(reasons, data).value; data == EncodeStr(reasons, r) + rest
  {
    TextReencode(data[1..], 8);
    var (v, more) := DecodeText(data[1..], 8).value;
    var exp := LE(8, Unsigned(Exp(more)));
    ExpReencode(more);
    if reasons { TextReencode(more[8..], 0); }
    hide LE, Exp, EncodeText, DecodeText;
    Seqs.HeadTail(data);
    var (r, rest) := DecodeStr(reasons, data).value;
    var tail := if reasons then EncodeText(r.reason) else [];
    assert more[8..] == tail + rest;
    Seqs.Assoc([data[0]], EncodeText(v), more);
    Seqs.Assoc([data[0]] + EncodeText(v), exp, tail + rest);
    Seqs.Assoc([data[0]] + EncodeText(v) + exp, tail, rest);
  }

  lemma RecRoundTrip(typ: byte, flags: byte, r: Rec, rest: bytes)
    requires typ == TYPE_CIDR || typ == TYPE_STRING
    requires WellFormedRec(typ, flags, r)
    ensures DecodeRec(typ, flags, EncodeRec(typ, flags, r) + rest) == Ok((r, rest))
  {
    if typ == TYPE_CIDR { NetRoundTrip(r, rest); } else { StrRoundTrip(HasReasons(flags), r, rest); }
  }

  lemma RecTruncated(typ: byte, flags: byte, r: Rec, k: nat)
    requires typ == TYPE_CIDR || typ == TYPE_STRING
    requires WellFormedRec(typ, flags, r)
    requires k < |EncodeRec(typ, flags, r)|
    ensures DecodeRec(typ, flags, EncodeRec(typ, flags, r)[..k]) == Err(Short)
  {
    if typ == TYPE_STRING { StrTruncated(HasReasons(flags), r, k); }
  }

  lemma RecReencode(typ: byte, flags: byte, data: bytes)
    requires DecodeRec(typ, flags, data).Ok?
    requires typ == TYPE_CIDR ==> DecodeRec(typ, flags, data).value.0.prefix.Valid()
    ensures var (r, rest) := DecodeRec(typ, flags, data).value;
            data == EncodeRec(typ, flags, r) + rest
  {
    if typ == TYPE_CIDR { NetReencode(data); } else { StrReencode(HasReasons(flags), data); }
  }

  // Many records.

  /** Reading a first record and then n more is reading n + 1. */
  lemma RecsStep(typ: byte, flags: byte, n: nat, data: bytes, r: Rec, rest: bytes, recs: seq<Rec>, tail: bytes)
    requires DecodeRec(typ, flags, data) == Ok((r, rest))
    requires DecodeRecs(typ, flags, n, rest) == Ok((recs, tail))
    ensures DecodeRecs(typ, flags, n + 1, data) == Ok(([r] + recs, tail))
  {
    hide DecodeRec;
  }

  /** Packing a first record and the others, whatever follows. */
  lemma EncodeStep(typ: byte, flags: byte, recs: seq<Rec>, rest: bytes)
    requires recs != []
    ensures EncodeRecs(typ, flags, recs) + rest
         == EncodeRec(typ, flags, recs[0]) + (EncodeRecs(typ, flags, recs[1..]) + rest)
  {
    hide EncodeRec;
    Seqs.Assoc(EncodeRec(typ, flags, recs[0]), EncodeRecs(typ, flags, recs[1..]), rest);
  }

  lemma {:induction false} RecsRoundTrip(typ: byte, flags: byte, recs: seq<Rec>, rest: bytes)
    requires recs == [] || typ == TYPE_CIDR || typ == TYPE_STRING
    requires forall i | 0 <= i < |recs| :: WellFormedRec(typ, flags, recs[i])
    ensures DecodeRecs(typ, flags, |recs|, EncodeRecs(typ, flags, recs) + rest) == Ok((recs, rest))
  {
    if recs == [] {
      assert EncodeRecs(typ, flags, recs) + rest == rest;
    } else {
      hide *;
      var data, more := EncodeRecs(typ, flags, recs) + rest, EncodeRecs(typ, flags, recs[1..]) + rest;
      EncodeStep(typ, flags, recs, rest);
      RecRoundTrip(typ, flags, recs[0], more);
      RecsRoundTrip(typ, flags, recs[1..], rest);
      RecsStep(typ, flags, |recs| - 1, data, recs[0], more, recs[1..], rest);
      Seqs.HeadTail(recs);
    }
  }

  lemma {:induction false} RecsTruncated(typ: byte, flags: byte, recs: seq<Rec>, k: nat)
    requires recs == [] || typ == TYPE_CIDR || typ == TYPE_STRING
    requires forall i | 0 <= i < |recs| :: WellFormedRec(typ, flags, recs[i])
    requires k < |EncodeRecs(typ, flags, recs)|
    ensures DecodeRecs(typ, flags, |recs|, EncodeRecs(typ, flags, recs)[..k]) == Err(Short)
  {
    hide DecodeRec, EncodeRec, WellFormedRec;
    var one, more := EncodeRec(typ, flags, recs[0]), EncodeRecs(typ, flags, recs[1..]);
    var data := (one + more)[..k];
    if k < |one| {
      assert data == one[..k];
      RecTruncated(typ, flags, recs[0], k);
    } else {
      assert data == one + more[..k - |one|];
      RecRoundTrip(typ, flags, recs[0], more[..k - |one|]);
      RecsTruncated(typ, flags, recs[1..], k - |one|);
    }
  }

  lemma {:induction false} RecsReencode(typ: byte, flags: byte, count: nat, data: bytes)
    requires DecodeRecs(typ, flags, count, data).Ok?
    requires typ == TYPE_CIDR ==>
      forall r | r in DecodeRecs(typ, flags, count, data).value.0 :: r.prefix.Valid()
    ensures var (recs, rest) := DecodeRecs(typ, flags, count, data).value;
            |recs| == count && data == EncodeRecs(typ, flags, recs) + rest
  {
    hide DecodeRec, EncodeRec;
    if count > 0 {
      var (r, tail) := DecodeRec(typ, flags, data).value;
      var (recs, rest) := DecodeRecs(typ, flags, count - 1, tail).value;
      assert r in [r] + recs && ([r] + recs)[1..] == recs;
      RecReencode(typ, flags, data);
      RecsReencode(typ, flags, count - 1, tail);
    }
  }

  // Whole objects.

  lemma HeadFields(h: Head, rest: bytes)
    requires |h.key| == 16
    ensures var data := EncodeHead(h) + rest;
            && data[..8] == MAGIC + [PACK_VERSION, h.kind, h.typ, h.flags]
            && data[8..16] == LE(8, h.epoch) && data[16..24] == LE(8, h.seqNo) && data[24..32] == LE(8, h.hash)
            && data[32..48] == h.key && data[48..52] == LE(4, h.count) && data[PACK_HEADER..] == rest
  {
    hide LE;
    var a := MAGIC + [PACK_VERSION, h.kind, h.typ, h.flags];
    var b, c, d := LE(8, h.epoch), LE(8, h.seqNo), LE(8, h.hash);
    var e, f := h.key, LE(4, h.count);
    Seqs.Middle([], a, b + c + d + e + f + rest);
    Seqs.Middle(a, b, c + d + e + f + rest);
    Seqs.Middle(a + b, c, d + e + f + rest);
    Seqs.Middle(a + b + c, d, e + f + rest);
    Seqs.Middle(a + b + c + d, e, f + rest);
    Seqs.Middle(a + b + c + d + e, f, rest);
    Seqs.Split(EncodeHead(h), rest);
  }

  lemma HeadRoundTrip(h: Head, rest: bytes)
    requires |h.key| == 16 && h.count < 0x1_0000_0000
    ensures var data := EncodeHead(h) + rest;
            data[..4] == MAGIC && data[4] == PACK_VERSION && DecodeHead(data) == h && data[PACK_HEADER..] == rest
  {
    Widths();
    var data := EncodeHead(h) + rest;
    HeadFields(h, rest);
    UnLEOfLE(8, h.epoch);
    UnLEOfLE(8, h.seqNo);
    UnLEOfLE(8, h.hash);
    UnLEOfLE(4, h.count);
    hide EncodeHead, LE, UnLE;
    assert data[..4] == data[..8][..4] && data[4] == data[..8][4];
    assert data[5] == data[..8][5] && data[6] == data[..8][6] && data[7] == data[..8][7];
  }

  /** Unpacking undoes packing, whatever follows the object. */
  lemma RoundTrip(o: Object, rest: bytes)
    requires WellFormed(o)
    ensures Decode(Encode(o) + rest) == Ok(o)
  {
    var body := EncodeRecs(o.head.typ, o.head.flags, o.recs) + rest;
    assert Encode(o) + rest == EncodeHead(o.head) + body;
    HeadRoundTrip(o.head, body);
    RecsRoundTrip(o.head.typ, o.head.flags, o.recs, rest);
  }

  /** Every strict prefix of an object is refused, and as truncated. */
  lemma Truncated(o: Object, k: nat)
    requires WellFormed(o) && k < |Encode(o)|
    ensures Decode(Encode(o)[..k]) == Err(Short)
  {
    if k >= PACK_HEADER {
      var body := EncodeRecs(o.head.typ, o.head.flags, o.recs);
      assert Encode(o)[..k] == EncodeHead(o.head) + body[..k - PACK_HEADER];
      HeadRoundTrip(o.head, body[..k - PACK_HEADER]);
      RecsTruncated(o.head.typ, o.head.flags, o.recs, k - PACK_HEADER);
    }
  }

  lemma Field(data: bytes, at: nat, n: nat)
    requires at + n <= |data|
    ensures data[..at] + LE(n, UnLE(data[at..at + n])) == data[..at + n]
  {
    LEOfUnLE(data[at..at + n]);
    Seqs.Grow(data, at, n);
  }

  lemma HeadReencode(data: bytes)
    requires |data| >= PACK_HEADER && data[..4] == MAGIC && data[4] == PACK_VERSION
    ensures EncodeHead(DecodeHead(data)) == data[..PACK_HEADER]
  {
    hide LE, UnLE;
    assert data[..8] == data[..4] + [data[4], data[5], data[6], data[7]];
    Field(data, 8, 8);
    Field(data, 16, 8);
    Field(data, 24, 8);
    assert data[..32] + data[32..48] == data[..48];
    Field(data, 48, 4);
  }

  /** Nothing is invented: packing what was read gives back the bytes that were read. */
  lemma Reencode(data: bytes)
    requires Decode(data).Ok?
    requires Decode(data).value.head.typ == TYPE_CIDR ==>
      forall r | r in Decode(data).value.recs :: r.prefix.Valid()
    ensures var o := Decode(data).value;
            |o.head.key| == 16 && |o.recs| == o.head.count && Encode(o) <= data
  {
    var h := Decode(data).value.head;
    HeadReencode(data);
    RecsReencode(h.typ, h.flags, h.count, data[PACK_HEADER..]);
    hide EncodeHead, EncodeRecs, DecodeRecs;
    var (recs, rest) := DecodeRecs(h.typ, h.flags, h.count, data[PACK_HEADER..]).value;
    Seqs.Join(data, PACK_HEADER);
    Seqs.Assoc(EncodeHead(h), EncodeRecs(h.typ, h.flags, recs), rest);
  }

  /** The length byte is not checked: one above 32 unpacks too, into a prefix without a length. */
  lemma AnyLengthUnpacks(op: byte, bits: byte, a: bytes, exp: i64, rest: bytes)
    requires |a| == 4
    ensures DecodeNet([op, 4, bits] + a + LE(8, Unsigned(exp)) + rest)
         == Ok((Rec(op, Prefix(V4(a), if bits <= 32 then bits else -1), [], exp, []), rest))
  {
    var lead, more := [op, 4, bits], LE(8, Unsigned(exp)) + rest;
    ExpRoundTrip(exp, rest);
    hide LE, Exp;
    Seqs.Assoc(lead + a, LE(8, Unsigned(exp)), rest);
    Seqs.Assoc(lead, a, more);
    Seqs.Split(lead, a + more);
    Seqs.Split(a, more);
  }

  /** One turn of the cursor loop: the record that starts at pos, and where the next one starts. */
  method UnpackRec(typ: byte, flags: byte, data: bytes, start: nat) returns (res: Result<Rec>, pos: nat)
    requires start <= |data|
    ensures start <= pos <= |data|
    ensures DecodeRec(typ, flags, data[start..]) == if res.Ok? then Ok((res.value, data[pos..])) else Err(res.error)
  {
    hide LE, UnLE, Exp, EncodeText, DecodeText, DecodeAddr;
    pos := start;
    if pos + 1 > |data| { return Err(Short), pos; }
    var op := data[pos];
    pos := pos + 1;
    if typ == TYPE_CIDR {
      if pos + 2 > |data| { return Err(Short), pos; }
      var fam, bits := data[pos], data[pos + 1];
      pos := pos + 2;
      Seqs.DropDrop(data, start, 3);
      var addr, at := UnpackAddr(fam, data, pos);
      if addr.Err? { return Err(addr.error), at; }
      pos := at;
      res := Ok(Rec(op, PrefixFrom(addr.value, bits), [], Exp(data[pos..]), []));
      Seqs.DropDrop(data, pos, 8);
      pos := pos + 8;
    } else if typ == TYPE_STRING {
      Seqs.DropDrop(data, start, 1);
      var value, at := UnpackText(data, pos, 8);
      if value.Err? { return Err(value.error), pos; }
      pos := at;
      var exp := Exp(data[pos..]);
      Seqs.DropDrop(data, pos, 8);
      pos := pos + 8;
      if !HasReasons(flags) { return Ok(Rec(op, NO_PREFIX, value.value, exp, [])), pos; }
      var reason, end := UnpackText(data, pos, 0);
      if reason.Err? { return Err(reason.error), pos; }
      pos := end;
      res := Ok(Rec(op, NO_PREFIX, value.value, exp, reason.value));
    } else {
      res := Err(BadType(typ));
    }
  }

  method UnpackAddr(fam: byte, data: bytes, start: nat) returns (res: Result<Addr>, pos: nat)
    requires start <= |data|
    ensures start <= pos <= |data| && (res.Ok? ==> pos + 8 <= |data|)
    ensures DecodeAddr(fam, data[start..]) == if res.Ok? then Ok((res.value, data[pos..])) else Err(res.error)
  {
    pos := start;
    if fam == 4 {
      if pos + 4 + 8 > |data| { return Err(Short), pos; }
      Seqs.DropDrop(data, pos, 4);
      res := Ok(V4(data[pos..pos + 4]));
      pos := pos + 4;
    } else if fam == 6 {
      if pos + 16 + 8 > |data| { return Err(Short), pos; }
      Seqs.DropDrop(data, pos, 16);
      res := Ok(V6(data[pos..pos + 16]));
      pos := pos + 16;
    } else {
      return Err(BadFamily(fam)), pos;
    }
  }

  method UnpackText(data: bytes, start: nat, room: nat) returns (res: Result<bytes>, pos: nat)
    requires start <= |data|
    ensures start <= pos <= |data|
    ensures DecodeText(data[start..], room) == if res.Ok? then Ok((res.value, data[pos..])) else Err(res.error)
  {
    pos := start;
    ghost var unread := data[start..];
    if pos + 2 > |data| { return Err(Short), pos; }
    var n := UnLE(data[pos..pos + 2]);
    assert data[pos..pos + 2] == unread[..2];
    pos := pos + 2;
    if pos + n + room > |data| { return Err(Short), pos; }
    res := Ok(data[pos..pos + n]);
    assert data[pos..pos + n] == unread[2..2 + n];
    pos := pos + n;
    assert data[pos..] == unread[2 + n..];
  }

  /** The cursor loop: pos only moves forward and every read stays inside data. */
  method UnpackRecs(head: Head, data: bytes) returns (res: Result<seq<Rec>>)
    requires |data| >= PACK_HEADER
    ensures var whole := DecodeRecs(head.typ, head.flags, head.count, data[PACK_HEADER..]);
            if res.Ok? then whole.Ok? && whole.value.0 == res.value else whole == Err(res.error)
  {
    hide DecodeRec, DecodeRecs;
    var recs: seq<Rec> := [];
    var pos := PACK_HEADER;
    ghost var whole := DecodeRecs(head.typ, head.flags, head.count, data[PACK_HEADER..]);
    if whole.Ok? { assert [] + whole.value.0 == whole.value.0; }
    for i := 0 to head.count
      invariant PACK_HEADER <= pos <= |data|
      invariant whole == After(recs, DecodeRecs(head.typ, head.flags, head.count - i, data[pos..]))
    {
      var r, next := UnpackRec(head.typ, head.flags, data, pos);
      if r.Err? {
        StopsAt(head.typ, head.flags, head.count - i, data[pos..], r.error);
        return Err(r.error);
      }
      AfterOne(head.typ, head.flags, head.count - i, data[pos..], recs, r.value, data[next..]);
      recs, pos := recs + [r.value], next;
    }
    NothingLeft(head.typ, head.flags, data[pos..]);
    assert recs + [] == recs;
    return Ok(recs);
  }

  method Unpack(data: bytes) returns (res: Result<Object>)
    ensures res == Decode(data)
  {
    if |data| < PACK_HEADER { return Err(Short); }
    if data[..4] != MAGIC { return Err(BadMagic); }
    if data[4] != PACK_VERSION { return Err(BadVersion); }
    var head := DecodeHead(data);
    var recs := UnpackRecs(head, data);
    return if recs.Ok? then Ok(Object(head, recs.value)) else Err(recs.error);
  }

  /** The outcome of a decoding that goes on after recs were read. */
  ghost function After(recs: seq<Rec>, rest: Result<(seq<Rec>, bytes)>): Result<(seq<Rec>, bytes)> {
    match rest
    case Err(e) => Err(e)
    case Ok((more, tail)) => Ok((recs + more, tail))
  }

  /** One more record read moves it from the unread side to the read side. */
  lemma AfterOne(typ: byte, flags: byte, n: nat, data: bytes, recs: seq<Rec>, r: Rec, rest: bytes)
    requires n > 0 && DecodeRec(typ, flags, data) == Ok((r, rest))
    ensures After(recs, DecodeRecs(typ, flags, n, data)) == After(recs + [r], DecodeRecs(typ, flags, n - 1, rest))
  {
    hide DecodeRec;
    var more := DecodeRecs(typ, flags, n - 1, rest);
    if more.Ok? {
      assert recs + ([r] + more.value.0) == recs + [r] + more.value.0;
    }
  }

  lemma StopsAt(typ: byte, flags: byte, n: nat, data: bytes, e: Error)
    requires n > 0 && DecodeRec(typ, flags, data) == Err(e)
    ensures DecodeRecs(typ, flags, n, data) == Err(e)
  {
    hide DecodeRec;
  }

  lemma NothingLeft(typ: byte, flags: byte, data: bytes)
    ensures DecodeRecs(typ, flags, 0, data) == Ok(([], data))
  {
    hide DecodeRec;
  }
}
