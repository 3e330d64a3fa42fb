/**
 The text wire format between collector and archiver: ten comma-separated fields
 written by the node's exporter, the collector key appended by the collector, batches
 joined by semicolons (gossip_collector/src/exporter.rs), and the archiver's decoder
 (gossip_archiver/src/lib.rs, gossip_archiver/src/main.rs).
 */
module WireFormat {
  import opened Prelude
  import opened Text
  import opened ArchiverTypes

  const INTRA := ','
  const INTER := ';'
  const FIELD_COUNT := 11
  const MAX_U16: nat := 0xFFFF
  const MAX_U64: nat := U64_RANGE - 1

  type U16 = n: nat | n <= MAX_U16
  type I64 = i: int | -MAX_I64 - 1 <= i <= MAX_I64

  /** Microsecond timestamps chrono can represent: years -262143 to 262142. */
  predicate ValidMicros(t: int) {
    -8_334_601_228_800_000_000 <= t <= 8_210_266_876_799_999_999
  }

  datatype MessageType = ChannelAnnouncement | NodeAnnouncement | ChannelUpdate | Ping | Pong

  function TypeText(t: MessageType): string {
    match t
    case ChannelAnnouncement => "ca"
    case NodeAnnouncement => "na"
    case ChannelUpdate => "cu"
    case Ping => "ping"
    case Pong => "pong"
  }

  /** Discriminants of the archiver's enum, in which 0 is the unused Unknown. */
  function TypeCode(t: MessageType): nat {
    match t
    case ChannelAnnouncement => 1
    case NodeAnnouncement => 2
    case ChannelUpdate => 3
    case Ping => 4
    case Pong => 5
  }

  function ParseType(s: string): Option<MessageType> {
    if s == "ca" then Some(ChannelAnnouncement)
    else if s == "na" then Some(NodeAnnouncement)
    else if s == "cu" then Some(ChannelUpdate)
    else if s == "ping" then Some(Ping)
    else if s == "pong" then Some(Pong)
    else None
  }

  /** Library code the format relies on: the 64-bit hash of a text and the parser of
      message directions. */
  datatype Codec = Codec(hash: string -> nat, parseDir: string -> Option<nat>)

  /** What the node exports for one gossip message. */
  datatype Export =
    Export(
      now: I64,
      peer: string,
      msgType: MessageType,
      msgDir: string,
      msgSize: U16,
      innerHash: U64,
      msg: string,
      sendTs: Option<I64>,
      nodeId: Option<string>,
      scid: Option<U64>)

  function OptionalText(o: Option<string>): string {
    if o.Some? then o.value else ""
  }

  function Fields(e: Export): (fields: seq<string>)
    ensures |fields| == FIELD_COUNT - 1
  {
    [PrintInt(e.now), e.peer, TypeText(e.msgType), e.msgDir, PrintNat(e.msgSize), PrintNat(e.innerHash), e.msg,
     if e.sendTs.Some? then PrintInt(e.sendTs.value) else "",
     OptionalText(e.nodeId),
     if e.scid.Some? then PrintNat(e.scid.value) else ""]
  }

  /** The line the collector forwards: the exported text with the collector key appended. */
  function Line(e: Export, collector: string): string {
    Join(Fields(e), INTRA) + ([INTRA] + collector)
  }

  function Lines(es: seq<Export>, collector: string): seq<string> {
    seq(|es|, i requires 0 <= i < |es| => Line(es[i], collector))
  }

  /** A published batch. */
  function Payload(es: seq<Export>, collector: string): string {
    Join(Lines(es, collector), INTER)
  }

  function ParseMicros(s: string): Option<int> {
    var t := ParseI64(s);
    if t.Some? && ValidMicros(t.value) then t else None
  }

  /** An optional field: absent when empty, otherwise parsed, which may fail. */
  datatype Field<T> = Bad | Good(value: Option<T>)

  function OptionalField<T>(s: string, parsed: Option<T>): Field<T> {
    if s == "" then Good(None) else if parsed.Some? then Good(parsed) else Bad
  }

  function DecodeMsg(codec: Codec, line: string): Option<ExportedGossip> {
    var p := Split(line, INTRA);
    if |p| != FIELD_COUNT then None
    else
      var now, msgType, dir := ParseMicros(p[0]), ParseType(p[2]), codec.parseDir(p[3]);
      var size, inner := ParseUnsigned(p[4], MAX_U16), ParseUnsigned(p[5], MAX_U64);
      var orig, scid := OptionalField(p[7], ParseMicros(p[7])), OptionalField(p[9], ParseUnsigned(p[9], MAX_U64));
      if now.None? || msgType.None? || dir.None? || size.None? || inner.None? || orig.Bad? || scid.Bad? then None
      else Some(ExportedGossip(
        now.value, orig.value, p[10], p[1], codec.hash(p[1]),
        if p[8] == "" then None else Some(p[8]),
        TypeCode(msgType.value), dir.value, size.value, scid.value, p[6], codec.hash(p[6]), inner.value))
  }

  /** The decoder's loop over a payload: every line decoded before the first bad one is
      forwarded, and a bad line ends the loop. */
  function DecodeLines(codec: Codec, lines: seq<string>): (seq<ExportedGossip>, bool) {
    if lines == [] then ([], true)
    else
      var (sent, ok) := DecodeLines(codec, lines[..|lines| - 1]);
      var last := DecodeMsg(codec, lines[|lines| - 1]);
      if !ok then (sent, false)
      else if last.None? then (sent, false)
      else (sent + [last.value], true)
  }

  method DecodePayload(codec: Codec, payload: string) returns (sent: seq<ExportedGossip>, ok: bool)
    ensures (sent, ok) == DecodeLines(codec, Split(payload, ';'))
  {
    var lines := Split(payload, INTER);
    sent := [];
    for i := 0 to |lines|
      invariant (sent, true) == DecodeLines(codec, lines[..i])
    {
      assert lines[..i + 1][..i] == lines[..i];
      var decoded := DecodeMsg(codec, lines[i]);
      if decoded.None? {
        DecodeStops(codec, lines, i + 1);
        return sent, false;
      }
      sent := sent + [decoded.value];
    }
    assert lines[..|lines|] == lines;
    ok := true;
  }

  lemma {:induction false} DecodeStops(codec: Codec, lines: seq<string>, n: nat)
    requires n <= |lines| && !DecodeLines(codec, lines[..n]).1
    ensures DecodeLines(codec, lines) == DecodeLines(codec, lines[..n])
    decreases |lines| - n
  {
    if n == |lines| {
      assert lines[..n] == lines;
    } else {
      assert lines[..n + 1][..n] == lines[..n];
      DecodeStops(codec, lines, n + 1);
    }
  }

  // ----- What a line says

  predicate IsMicros(text: string, t: int) {
    ParseI64(text) == Some(t) && -8_334_601_228_800_000_000 <= t <= 8_210_266_876_799_999_999
  }

  predicate IsUnsigned(text: string, max: nat, n: nat) {
    ParseUnsigned(text, max) == Some(n)
  }

  /** An optional field is empty or says its value. */
  ghost predicate SaysIf<T(!new)>(text: string, o: Option<T>, says: T -> bool) {
    if text == "" then o.None? else o.Some? && says(o.value)
  }

  /** The code under which a type name is stored. */
  ghost predicate NamesType(text: string, code: nat) {
    || (text == "ca" && code == 1)
    || (text == "na" && code == 2)
    || (text == "cu" && code == 3)
    || (text == "ping" && code == 4)
    || (text == "pong" && code == 5)
  }

  /** The record a line stands for, field by field: time of export, peer, type, direction,
      size, inner hash, message, time of origin, originating node, scid, collector. */
  ghost predicate Says(codec: Codec, line: string, g: ExportedGossip) {
    var p := Split(line, ',');
    && |p| == 11
    && IsMicros(p[0], g.netTimestamp)
    && g.peer == p[1] && g.peerHash == codec.hash(p[1])
    && NamesType(p[2], g.msgType)
    && codec.parseDir(p[3]) == Some(g.msgDir)
    && IsUnsigned(p[4], 0xFFFF, g.msgSize)
    && IsUnsigned(p[5], 0xFFFF_FFFF_FFFF_FFFF, g.innerHash)
    && g.msg == p[6] && g.msgHash == codec.hash(p[6])
    && SaysIf(p[7], g.origTimestamp, t => IsMicros(p[7], t))
    && SaysIf(p[8], g.origNode, n => n == p[8])
    && SaysIf(p[9], g.scid, n => IsUnsigned(p[9], 0xFFFF_FFFF_FFFF_FFFF, n))
    && g.collector == p[10]
  }

  /** The decoder returns a record iff the line stands for it, and nothing otherwise. */
  lemma DecodesWhatItSays(codec: Codec, line: string, g: ExportedGossip)
    ensures DecodeMsg(codec, line) == Some(g) <==> Says(codec, line, g)
  {
    hide Split, ParseI64, ParseUnsigned;
    var p := Split(line, ',');
    if |p| == 11 {
      TypeNamed(p[2], g.msgType);
      hide ParseType, TypeCode, NamesType;
    }
  }

  lemma TypeNamed(text: string, code: nat)
    ensures NamesType(text, code) <==> ParseType(text).Some? && TypeCode(ParseType(text).value) == code
  {
  }

  // ----- Round trip

  /** `g` is the decoded form of `e` as exported by `collector`. */
  ghost predicate Matches(codec: Codec, e: Export, collector: string, g: ExportedGossip) {
    && g.netTimestamp == e.now && g.origTimestamp == e.sendTs
    && g.collector == collector && g.peer == e.peer && g.peerHash == codec.hash(e.peer)
    && g.origNode == e.nodeId && NamesType(TypeText(e.msgType), g.msgType) && codec.parseDir(e.msgDir) == Some(g.msgDir)
    && g.msgSize == e.msgSize && g.scid == e.scid
    && g.msg == e.msg && g.msgHash == codec.hash(e.msg) && g.innerHash == e.innerHash
  }

  predicate NoDelimiter(s: string) { INTRA !in s && INTER !in s }

  /** The texts contain no delimiter, a present node id is not empty, and timestamps
      and direction are ones the archiver's libraries accept. */
  predicate Clean(codec: Codec, e: Export, collector: string) {
    && NoDelimiter(e.peer) && NoDelimiter(e.msgDir) && NoDelimiter(e.msg) && NoDelimiter(OptionalText(e.nodeId))
    && NoDelimiter(collector)
    && Acceptable(codec, e)
  }

  predicate Acceptable(codec: Codec, e: Export) {
    && e.nodeId != Some("")
    && ValidMicros(e.now) && (e.sendTs.Some? ==> ValidMicros(e.sendTs.value))
    && codec.parseDir(e.msgDir).Some?
  }

  ghost predicate RoundTrips(codec: Codec, es: seq<Export>, collector: string) {
    var (sent, ok) := DecodeLines(codec, Split(Payload(es, collector), ';'));
    ok && |sent| == |es| && forall i :: 0 <= i < |es| ==> Matches(codec, es[i], collector, sent[i])
  }

  /** Appending the collector key is joining it as an eleventh field. */
  lemma {:induction false} JoinSuffix(parts: seq<string>, c: char, suffix: string)
    requires parts != []
    ensures Join(parts, c) + ([c] + suffix) == Join(parts + [suffix], c)
  {
    if |parts| == 1 {
      assert (parts + [suffix])[1..] == [suffix];
    } else {
      JoinSuffix(parts[1..], c, suffix);
      assert (parts + [suffix])[1..] == parts[1..] + [suffix];
    }
  }

  lemma LineIsJoin(e: Export, collector: string)
    ensures Line(e, collector) == Join(Fields(e) + [collector], INTRA)
  {
    JoinSuffix(Fields(e), INTRA, collector);
  }

  /** Numbers and type names never contain a delimiter. */
  lemma PrintedClean(e: Export)
    ensures NoDelimiter(PrintInt(e.now)) && NoDelimiter(PrintNat(e.msgSize)) && NoDelimiter(PrintNat(e.innerHash))
    ensures e.sendTs.Some? ==> NoDelimiter(PrintInt(e.sendTs.value))
    ensures e.scid.Some? ==> NoDelimiter(PrintNat(e.scid.value))
    ensures NoDelimiter(TypeText(e.msgType))
  {
    PrintIntClean(e.now);
    PrintNatDigits(e.msgSize);
    PrintNatDigits(e.innerHash);
    if e.sendTs.Some? { PrintIntClean(e.sendTs.value); }
    if e.scid.Some? { PrintNatDigits(e.scid.value); }
  }

  lemma PrintIntClean(i: int)
    ensures NoDelimiter(PrintInt(i)) && PrintInt(i) != ""
  {
    PrintNatDigits(if i < 0 then -i else i);
  }

  /** The eleven fields contain a given delimiter iff one of the five texts does. */
  lemma FieldsContain(e: Export, collector: string, d: char)
    requires d == INTRA || d == INTER
    ensures (exists p :: p in Fields(e) + [collector] && d in p) <==>
            d in e.peer || d in e.msgDir || d in e.msg || d in OptionalText(e.nodeId) || d in collector
  {
    PrintedClean(e);
    var f := Fields(e) + [collector];
    assert f[1] == e.peer && f[3] == e.msgDir && f[6] == e.msg && f[8] == OptionalText(e.nodeId) && f[10] == collector;
    if p :| p in f && d in p {
      var i :| 0 <= i < |f| && f[i] == p;
      assert i == 1 || i == 3 || i == 6 || i == 8 || i == 10;
    }
  }

  lemma LineContains(e: Export, collector: string)
    ensures INTER in Line(e, collector) <==>
            INTER in e.peer || INTER in e.msgDir || INTER in e.msg || INTER in OptionalText(e.nodeId)
            || INTER in collector
    ensures |Split(Line(e, collector), INTRA)| == FIELD_COUNT <==>
            INTRA !in e.peer && INTRA !in e.msgDir && INTRA !in e.msg && INTRA !in OptionalText(e.nodeId)
            && INTRA !in collector
  {
    var f := Fields(e) + [collector];
    LineIsJoin(e, collector);
    JoinContains(f, INTRA, INTER);
    FieldsContain(e, collector, INTER);
    FieldsContain(e, collector, INTRA);
    SplitCount(Line(e, collector), INTRA);
    JoinCount(f, INTRA);
  }

  lemma TypeRoundTrip(t: MessageType)
    ensures ParseType(TypeText(t)) == Some(t)
  {
  }

  /** Decoding the eleven printed fields themselves. */
  lemma DecodeFields(codec: Codec, e: Export, collector: string)
    requires Split(Line(e, collector), INTRA) == Fields(e) + [collector]
    ensures DecodeMsg(codec, Line(e, collector)).Some?
            && Matches(codec, e, collector, DecodeMsg(codec, Line(e, collector)).value)
            <==> Acceptable(codec, e)
  {
    ParsePrintI64(e.now);
    ParsePrintUnsigned(e.msgSize, MAX_U16);
    ParsePrintUnsigned(e.innerHash, MAX_U64);
    OptionalMicros(e.sendTs);
    OptionalScid(e.scid);
    TypeRoundTrip(e.msgType);
    TypeNamed(TypeText(e.msgType), TypeCode(e.msgType));
    hide NamesType, TypeCode, ValidMicros;
    hide Split, Join, PrintInt, PrintNat, ParseI64, ParseUnsigned, Line, ParseType, TypeText, OptionalField;
    var p := Fields(e) + [collector];
    assert p[0] == PrintInt(e.now) && p[1] == e.peer && p[2] == TypeText(e.msgType) && p[3] == e.msgDir;
    assert p[4] == PrintNat(e.msgSize) && p[5] == PrintNat(e.innerHash) && p[6] == e.msg;
    assert p[7] == (if e.sendTs.Some? then PrintInt(e.sendTs.value) else "");
    assert p[9] == (if e.scid.Some? then PrintNat(e.scid.value) else "");
    assert p[8] == OptionalText(e.nodeId) && p[10] == collector;
  }

  lemma OptionalMicros(o: Option<I64>)
    ensures var text := if o.Some? then PrintInt(o.value) else "";
            OptionalField(text, ParseMicros(text)) == if o.None? || ValidMicros(o.value) then Good(o) else Bad
  {
    if o.Some? {
      ParsePrintI64(o.value);
      PrintIntClean(o.value);
    }
  }

  lemma OptionalScid(o: Option<U64>)
    ensures var text := if o.Some? then PrintNat(o.value) else "";
            OptionalField(text, ParseUnsigned(text, MAX_U64)) == Good(o)
  {
    if o.Some? {
      ParsePrintUnsigned(o.value, MAX_U64);
      PrintNatDigits(o.value);
    }
  }

  /** One line decodes to its record iff the record is clean up to the batch delimiter. */
  lemma LineRoundTripIff(codec: Codec, e: Export, collector: string)
    requires INTER !in Line(e, collector)
    ensures DecodeMsg(codec, Line(e, collector)).Some?
            && Matches(codec, e, collector, DecodeMsg(codec, Line(e, collector)).value)
            <==> Clean(codec, e, collector)
  {
    LineContains(e, collector);
    if |Split(Line(e, collector), INTRA)| == FIELD_COUNT {
      var f := Fields(e) + [collector];
      LineIsJoin(e, collector);
      FieldsContain(e, collector, INTRA);
      SplitJoin(f, INTRA);
      DecodeFields(codec, e, collector);
    }
  }

  lemma {:induction false} DecodedInOrder(codec: Codec, lines: seq<string>)
    ensures |DecodeLines(codec, lines).0| <= |lines|
    ensures DecodeLines(codec, lines).1 ==> |DecodeLines(codec, lines).0| == |lines|
    ensures !DecodeLines(codec, lines).1 ==>
              |DecodeLines(codec, lines).0| < |lines| && DecodeMsg(codec, lines[|DecodeLines(codec, lines).0|]).None?
    ensures DecodeLines(codec, lines).1 <==> forall i :: 0 <= i < |lines| ==> DecodeMsg(codec, lines[i]).Some?
    ensures forall i :: 0 <= i < |DecodeLines(codec, lines).0| ==>
            DecodeMsg(codec, lines[i]) == Some(DecodeLines(codec, lines).0[i])
  {
    hide DecodeMsg;
    if lines != [] {
      DecodedInOrder(codec, lines[..|lines| - 1]);
    }
  }

  /** The exact round-trip condition.  A non-empty batch decodes to the same records in
      the same order if and only if every record is clean. */
  lemma RoundTripIff(codec: Codec, es: seq<Export>, collector: string)
    requires es != []
    ensures RoundTrips(codec, es, collector) <==> forall i :: 0 <= i < |es| ==> Clean(codec, es[i], collector)
  {
    var lines := Lines(es, collector);
    var pieces := Split(Payload(es, collector), INTER);
    DecodedInOrder(codec, pieces);
    SplitCount(Payload(es, collector), INTER);
    JoinCount(lines, INTER);
    hide DecodeMsg, DecodeLines, Matches, Line, Split, Join, Count;
    if forall i :: 0 <= i < |es| ==> Clean(codec, es[i], collector) {
      forall p | p in lines ensures INTER !in p {
        var i :| 0 <= i < |es| && lines[i] == p;
        LineContains(es[i], collector);
      }
      CleanLinesRoundTrip(codec, es, collector);
    }
    if RoundTrips(codec, es, collector) {
      assert |pieces| == |es|;
      CleanLinesRoundTrip(codec, es, collector);
    }
  }

  lemma CleanLinesRoundTrip(codec: Codec, es: seq<Export>, collector: string)
    requires es != [] && forall p :: p in Lines(es, collector) ==> INTER !in p
    ensures RoundTrips(codec, es, collector) <==> forall i :: 0 <= i < |es| ==> Clean(codec, es[i], collector)
  {
    var lines := Lines(es, collector);
    SplitJoin(lines, INTER);
    DecodedInOrder(codec, lines);
    forall i | 0 <= i < |es|
      ensures DecodeMsg(codec, lines[i]).Some? && Matches(codec, es[i], collector, DecodeMsg(codec, lines[i]).value)
              <==> Clean(codec, es[i], collector)
    {
      assert lines[i] in lines;
      LineRoundTripIff(codec, es[i], collector);
    }
  }

  /** For every line the archiver accepts, the field the exporter filters on is the
      decoded peer. */
  lemma FilteredFieldIsPeer(codec: Codec, line: string)
    requires DecodeMsg(codec, line).Some?
    ensures |Split(line, INTRA)| > 1 && Split(line, INTRA)[1] == DecodeMsg(codec, line).value.peer
  {
  }
}
