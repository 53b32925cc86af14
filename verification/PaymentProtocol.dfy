/**
 * The payment request messages of BIP70: outputs, details and requests as they
 * are built, written and parsed. Strings are bytes without their final zero.
 */
module PaymentProtocol {
  import opened Wrappers
  import opened Wire
  import opened Buffer
  import opened ProtoBuf

  type Text = seq<Byte>

  const MAIN: Text := [109, 97, 105, 110]
  const NONE: Text := [110, 111, 110, 101]

  /** What strlen makes of a string. */
  function CString(s: Text): Text {
    if |s| == 0 || s[0] == 0 then [] else [s[0]] + CString(s[1..])
  }

  predicate IsCString(s: Text) {
    forall k :: 0 <= k < |s| ==> s[k] != 0
  }

  lemma {:induction false} CStringIs(s: Text)
    requires IsCString(s)
    ensures CString(s) == s
  {
    if |s| > 0 {
      CStringIs(s[1..]);
    }
  }

  /** It is what comes before the first zero. */
  lemma {:induction false} CStringCuts(s: Text)
    ensures CString(s) <= s && IsCString(CString(s))
    ensures |CString(s)| < |s| ==> s[|CString(s)|] == 0
  {
    if |s| > 0 && s[0] != 0 {
      CStringCuts(s[1..]);
    }
  }

  // ----------------------------------------------------------------- outputs

  /** `noAmount` is the mark that the amount is the default and not written. */
  datatype Output = Output(amount: nat, script: seq<Byte>, noAmount: bool, unknown: seq<Field>)

  /** An output while it is parsed: the script may still be missing. */
  datatype Parsing = Parsing(amount: nat, script: Option<seq<Byte>>, noAmount: bool, unknown: seq<Field>)

  /** `_BRPaymentProtocolOutput` */
  function NewOutput(amount: nat, script: seq<Byte>): Output {
    Output(amount, script, false, [])
  }

  /** Whether a buffer of ten bytes besides the data is too short for the record of an unknown field. */
  predicate IsCutOff(f: Field) {
    var n := |VarBytes(f.key)|;
    match f.key % 8
    case 0 => n + |VarBytes(f.num)| > 10
    case 1 => n + 8 > 10
    case 2 => f.data.Some? && n + |VarBytes(|f.data.value|)| > 10
    case 5 => n + 4 > 10
    case _ => false
  }

  /** `_ProtoBufUnknown` goes wrong on data outside the buffer, and on records that it cuts off. */
  function UnknownFate(f: Field, wraps: bool): Fate {
    if wraps || IsCutOff(f) then Astray else Fine
  }

  /** The place of the first record whose key is not lower, or the number of records. */
  function FirstNotLower(unknown: seq<Field>, key: nat, k: nat): (r: nat)
    requires k <= |unknown|
    ensures k <= r <= |unknown|
    ensures r < |unknown| ==> unknown[r].key >= key
    decreases |unknown| - k
  {
    if k == |unknown| || unknown[k].key >= key then k else FirstNotLower(unknown, key, k + 1)
  }

  /**
   * `_ProtoBufUnknown` on the records: one of the same key is replaced; where
   * all keys are lower the new record goes in front of the last one.
   */
  function Keep(unknown: seq<Field>, f: Field): seq<Field> {
    var k := FirstNotLower(unknown, f.key, 0);
    if k < |unknown| then
      unknown[..k] + [f] + unknown[if unknown[k].key == f.key then k + 1 else k..]
    else if k == 0 then [f]
    else unknown[..k - 1] + [f] + unknown[k - 1..]
  }

  /** The record of an unknown field. */
  function RecordBytes(f: Field): seq<Byte> {
    VarBytes(f.key) +
    (match f.key % 8
     case 0 => VarBytes(f.num)
     case 1 => Le(f.num, 8)
     case 2 => (match f.data case Some(data) => VarBytes(|data|) + data case None => [])
     case 5 => Le(f.num, 4)
     case _ => [])
  }

  /** A record is cut off exactly if it is longer than its data and ten bytes. */
  lemma {:induction false} CutOffExactly(f: Field)
    requires f.key <= MAX64
    ensures var room := 10 + if f.key % 8 == 2 && f.data.Some? then |f.data.value| else 0;
      IsCutOff(f) <==> |RecordBytes(f)| > room
  {
    TenBytes(f.key);
    hide VarBytes;
    hide Le;
  }

  /** Keeping a record replaces the one of the same key that it meets first, and loses no other. */
  lemma {:induction false} KeepLosesNothing(unknown: seq<Field>, f: Field, g: Field)
    ensures f in Keep(unknown, f)
    ensures g in unknown && g.key != f.key ==> g in Keep(unknown, f)
    ensures g in Keep(unknown, f) ==> g == f || g in unknown
  {
    var k := FirstNotLower(unknown, f.key, 0);
    var from := if k < |unknown| then if unknown[k].key == f.key then k + 1 else k else if k > 0 then k - 1 else 0;
    var to := if k < |unknown| || k == 0 then k else k - 1;
    hide FirstNotLower;
    assert Keep(unknown, f) == unknown[..to] + [f] + unknown[from..];
    if g in unknown && g.key != f.key {
      var j :| 0 <= j < |unknown| && unknown[j] == g;
      if j < to {
        assert unknown[..to][j] == g;
      } else {
        assert unknown[from..][j - from] == g;
      }
    }
  }

  /** It goes in front of the first record whose key is not lower, and where all are lower in
      front of the last one. */
  lemma {:induction false} KeepPlaces(unknown: seq<Field>, f: Field) returns (k: nat)
    ensures k < |Keep(unknown, f)| && Keep(unknown, f)[k] == f && k <= |unknown| && Keep(unknown, f)[..k] == unknown[..k]
    ensures forall j :: 0 <= j < k ==> unknown[j].key < f.key
    ensures if exists g :: g in unknown && g.key >= f.key then k < |unknown| && unknown[k].key >= f.key
            else k == if unknown == [] then 0 else |unknown| - 1
  {
    FirstIs(unknown, f.key, 0);
    k := FirstNotLower(unknown, f.key, 0);
    if k == |unknown| && k > 0 {
      k := k - 1;
    }
    hide FirstNotLower;
  }

  lemma {:induction false} FirstIs(unknown: seq<Field>, key: nat, k: nat)
    requires k <= |unknown| && forall j :: 0 <= j < k ==> unknown[j].key < key
    ensures forall j :: 0 <= j < FirstNotLower(unknown, key, k) ==> unknown[j].key < key
    decreases |unknown| - k
  {
    if k < |unknown| && unknown[k].key < key {
      FirstIs(unknown, key, k + 1);
    }
  }

  function OutputFate(f: Field, wraps: bool): Fate {
    if f.key / 8 == 1 then Fine
    else if f.key / 8 == 2 then if wraps then Astray else Fine
    else UnknownFate(f, wraps)
  }

  function ApplyToOutput(p: Parsing, f: Field): Parsing {
    if f.key / 8 == 1 then p.(amount := f.num, noAmount := false)
    else if f.key / 8 == 2 then p.(script := f.data)
    else p.(unknown := Keep(p.unknown, f))
  }

  /** `_BRPaymentProtocolOutputParse`: the script is required. */
  function ParseOutput(buf: seq<Byte>): Outcome<Option<Output>> {
    Then(ReadMessage(ApplyToOutput, OutputFate, buf, Parsing(0, None, true, [])), FinishOutput)
  }

  function FinishOutput(p: Parsing): Option<Output> {
    if p.script.Some? then Some(Output(p.amount, p.script.value, p.noAmount, p.unknown)) else None
  }

  /** Parsing an output does not end exactly when a field starts where an earlier one did. */
  lemma {:induction false} ParsingOutputEnds(buf: seq<Byte>)
    ensures ParseOutput(buf).Endless? <==> exists i: nat, k: nat :: ComesBack(OutputFate, buf, i, k)
  {
    hide FieldAt;
    StuckExactly(OutputFate, buf);
    hide FateOf;
    hide ComesBack;
    hide Clear;
    hide Place;
  }

  function OutputPieces(o: Output): seq<Piece> {
    (if o.noAmount then [] else [Int(1, o.amount)]) + [Data(2, o.script)]
  }

  predicate OutputFits(o: Output) {
    o.unknown == [] && o.amount <= MAX64 && |o.script| <= MAX64 && (o.noAmount ==> o.amount == 0) && |OutputBytes(o)| <= MAX64
  }

  function OutputBytes(o: Output): seq<Byte> {
    PiecesBytes(OutputPieces(o))
  }

  lemma {:induction false} OutputComesBack(o: Output)
    requires OutputFits(o)
    ensures ParseOutput(OutputBytes(o)) == Ended(Some(o))
  {
    var p := Parsing(0, None, true, []);
    MessageComesBack(ApplyToOutput, OutputFate, OutputPieces(o), p);
    hide ReadMessage;
    if o.noAmount {
      assert OutputPieces(o) == [Data(2, o.script)];
      OneApplied(ApplyToOutput, Data(2, o.script), p);
    } else {
      AppliedJoin(ApplyToOutput, [Int(1, o.amount)], [Data(2, o.script)], p);
      OneApplied(ApplyToOutput, Int(1, o.amount), p);
      OneApplied(ApplyToOutput, Data(2, o.script), ApplyToOutput(p, FieldOf(Int(1, o.amount))));
    }
  }

  lemma {:induction false} OneApplied<S>(apply: (S, Field) -> S, p: Piece, s: S)
    ensures ApplyAll(apply, [p], s) == apply(s, FieldOf(p))
  {
    assert [p][1..] == [];
  }

  /** `piece` if it is to be written. */
  function Opt(written: bool, piece: Piece): seq<Piece> {
    if written then [piece] else []
  }

  function OptData(key: nat, data: Option<seq<Byte>>): seq<Piece> {
    match data case Some(d) => [Data(key, d)] case None => []
  }

  lemma {:induction false} OptApplied<S>(apply: (S, Field) -> S, written: bool, p: Piece, s: S)
    ensures ApplyAll(apply, Opt(written, p), s) == if written then apply(s, FieldOf(p)) else s
  {
    if written {
      OneApplied(apply, p, s);
    }
  }

  lemma {:induction false} OptDataApplied<S>(apply: (S, Field) -> S, key: nat, data: Option<seq<Byte>>, s: S)
    ensures ApplyAll(apply, OptData(key, data), s) ==
      if data.Some? then apply(s, FieldOf(Data(key, data.value))) else s
  {
    if data.Some? {
      OneApplied(apply, Data(key, data.value), s);
    }
  }

  // ----------------------------------------------------------------- details

  datatype Details = Details(
    network: Text, outputs: seq<Output>, time: nat, expires: nat, memo: Option<Text>, paymentURL: Option<Text>,
    merchantData: Option<seq<Byte>>, noNetwork: bool, noTime: bool, noExpires: bool, unknown: seq<Field>)

  /** What an output is made from. */
  datatype Payment = Payment(amount: nat, script: seq<Byte>)

  function NewOutputs(payments: seq<Payment>): (s: seq<Output>)
    ensures |s| == |payments|
  {
    seq(|payments|, k requires 0 <= k < |payments| => NewOutput(payments[k].amount, payments[k].script))
  }

  /** BRPaymentProtocolDetailsNew */
  function NewDetails(network: Option<Text>, payments: seq<Payment>, time: nat, expires: nat, memo: Option<Text>,
                      paymentURL: Option<Text>, merchantData: Option<seq<Byte>>): Details {
    Details(if network.Some? then network.value else MAIN, NewOutputs(payments), time, expires, memo, paymentURL,
            merchantData, network.None?, false, false, [])
  }

  /** Details while they are parsed. */
  datatype DetailsParsing = DetailsParsing(details: Details, network: Option<Text>)

  /** An output field without data makes the source read fields from nowhere, for ever. */
  function DetailsFate(f: Field, wraps: bool): Fate {
    var key := f.key / 8;
    if key == 3 || key == 4 then Fine
    else if key == 0 || key > 7 then UnknownFate(f, wraps)
    else if wraps then Astray
    else if key == 2 then if f.data.None? then Stuck else FateOf(OutputFate, f.data.value)
    else Fine
  }

  function ApplyToDetails(p: DetailsParsing, f: Field): DetailsParsing {
    var d := p.details;
    var key := f.key / 8;
    if key == 1 then p.(network := if f.data.Some? then f.data else p.network)
    else if key == 2 then
      var o := if f.data.Some? then ParseOutput(f.data.value) else Endless;
      if o.Ended? && o.value.Some? then p.(details := d.(outputs := d.outputs + [o.value.value])) else p
    else if key == 3 then p.(details := d.(time := f.num, noTime := false))
    else if key == 4 then p.(details := d.(expires := f.num, noExpires := false))
    else if key == 5 then p.(details := d.(memo := if f.data.Some? then f.data else d.memo))
    else if key == 6 then p.(details := d.(paymentURL := if f.data.Some? then f.data else d.paymentURL))
    else if key == 7 then p.(details := d.(merchantData := if f.data.Some? then f.data else d.merchantData))
    else p.(details := d.(unknown := Keep(d.unknown, f)))
  }

  const BLANK: DetailsParsing :=
    DetailsParsing(Details([], [], 0, 0, None, None, None, false, true, true, []), None)

  function FinishDetails(p: DetailsParsing): Details {
    if p.network.Some? then p.details.(network := p.network.value)
    else p.details.(network := MAIN, noNetwork := true)
  }

  /** BRPaymentProtocolDetailsParse */
  function ParseDetails(buf: seq<Byte>): Outcome<Details> {
    Then(ReadMessage(ApplyToDetails, DetailsFate, buf, BLANK), FinishDetails)
  }

  /** After fields that do no harm comes an output field that has no data or does not end itself. */
  ghost predicate BadOutputAt(buf: seq<Byte>, k: nat) {
    && Clear(DetailsFate, buf, k) && Place(buf, k) < |buf|
    && var r := FieldAt(buf, Place(buf, k));
      && r.field.key / 8 == 2 && !r.wraps && !r.long
      && (r.field.data.None? || ParseOutput(r.field.data.value).Endless?)
  }

  lemma {:induction false} BadOutputIsStuck(buf: seq<Byte>, k: nat)
    ensures BadOutputAt(buf, k) <==> FateAt(DetailsFate, buf, k, Stuck)
  {
    hide FieldAt;
    hide FateOf;
    hide Clear;
    hide Place;
    hide IsCutOff;
  }

  /**
   * Parsing details does not end exactly when an output field has no data or an
   * output that does not end, or a field starts where an earlier one did.
   */
  lemma {:induction false} ParsingDetailsEnds(buf: seq<Byte>)
    ensures ParseDetails(buf).Endless? <==>
      (exists k: nat :: BadOutputAt(buf, k)) || (exists i: nat, k: nat :: ComesBack(DetailsFate, buf, i, k))
  {
    hide FieldAt;
    StuckExactly(DetailsFate, buf);
    hide FateOf;
    hide ComesBack;
    hide Clear;
    hide Place;
    hide DetailsFate;
    hide BadOutputAt;
    hide FateAt;
    forall k: nat
      ensures BadOutputAt(buf, k) <==> FateAt(DetailsFate, buf, k, Stuck)
    {
      BadOutputIsStuck(buf, k);
    }
  }

  /** Two bytes that are an output field with a number for its content: parsing them does not end. */
  lemma {:induction false} NumberForOutput()
    ensures ParseDetails([16, 0]) == Endless
  {
    hide FateOf;
    var bad: seq<Byte> := [16, 0];
    assert ReadVar(bad, 0) == Number(16, 1);
    assert FieldAt(bad, 0).field.key == 16 && FieldAt(bad, 0).field.data.None?;
    assert BadOutputAt(bad, 0);
    ParsingDetailsEnds(bad);
  }

  /** A field of data whose length is eleven less than 2^64. */
  function LongField(key: Byte): seq<Byte> {
    [key, 0xF5, 0xFF, 0xFF, 0xFF, 0xFF, 0xFF, 0xFF, 0xFF, 0xFF, 0x01]
  }

  lemma {:induction false} LongFieldWraps(key: Byte)
    requires key < 128 && key % 8 == LENDELIM
    ensures FieldAt(LongField(key), 0) == ReadField(Field(key, 0, None), 0, true, false)
  {
    var buf := LongField(key);
    LengthOfLongField();
    assert buf[1..11] == VarBytes(MAX64 - 10);
    VarRoundTrips(buf, 1, MAX64 - 10);
    assert buf[0..1] == [key];
    LastByte(key);
    VarRoundTrips(buf, 0, key);
    hide VarBytes;
    hide ReadVar;
    hide LongField;
  }

  lemma {:induction false} OneByteMore(i: nat, b: Byte, rest: nat)
    requires i >= 128 && i == rest * 128 + (b - 128) && b >= 128
    ensures VarBytes(i) == [b] + VarBytes(rest)
  {
    assert i / 128 == rest && MoreByte(i) == b;
  }

  lemma {:induction false} LengthOfLongField()
    ensures VarBytes(MAX64 - 10) == [0xF5, 0xFF, 0xFF, 0xFF, 0xFF, 0xFF, 0xFF, 0xFF, 0xFF, 0x01]
  {
    hide VarBytes;
    LastByte(0x1);
    OneByteMore(0xFF, 0xFF, 0x1);
    OneByteMore(0x7FFF, 0xFF, 0xFF);
    OneByteMore(0x3F_FFFF, 0xFF, 0x7FFF);
    OneByteMore(0x1FFF_FFFF, 0xFF, 0x3F_FFFF);
    OneByteMore(0xF_FFFF_FFFF, 0xFF, 0x1FFF_FFFF);
    OneByteMore(0x7FF_FFFF_FFFF, 0xFF, 0xF_FFFF_FFFF);
    OneByteMore(0x3_FFFF_FFFF_FFFF, 0xFF, 0x7FF_FFFF_FFFF);
    OneByteMore(0x1FF_FFFF_FFFF_FFFF, 0xFF, 0x3_FFFF_FFFF_FFFF);
    OneByteMore(MAX64 - 10, 0xF5, 0x1FF_FFFF_FFFF_FFFF);
  }

  lemma {:induction false} LongFieldComesBack(fate: (Field, bool) -> Fate, key: Byte)
    requires key < 128 && key % 8 == LENDELIM && fate(Field(key, 0, None), true).Fine?
    ensures ComesBack(fate, LongField(key), 0, 1)
  {
    LongFieldWraps(key);
    hide FieldAt;
    assert Place(LongField(key), 0) == 0;
    assert Place(LongField(key), 1) == 0;
  }

  /** A length for the time, the amount or the version that leads the offset back to 0: parsing does not end. */
  lemma {:induction false} LengthForNumber()
    ensures ParseDetails(LongField(0x1A)).Endless?
    ensures ParseOutput(LongField(0x0A)).Endless?
    ensures ParseRequest(LongField(0x0A)).Endless?
  {
    hide ParseDetails;
    hide ParseOutput;
    hide ParseRequest;
    hide LongField;
    hide ComesBack;
    LongFieldComesBack(DetailsFate, 0x1A);
    ParsingDetailsEnds(LongField(0x1A));
    LongFieldComesBack(OutputFate, 0x0A);
    ParsingOutputEnds(LongField(0x0A));
    LongFieldComesBack(RequestFate, 0x0A);
    ParsingRequestEnds(LongField(0x0A));
  }

  /** Where no length is so large, parsing details goes wrong only at outputs and cut-off records. */
  lemma {:induction false} EndsWithoutWrapping(buf: seq<Byte>)
    requires forall k: nat :: Place(buf, k) < |buf| ==> !FieldAt(buf, Place(buf, k)).wraps
    ensures ParseDetails(buf).Endless? <==> exists k: nat :: BadOutputAt(buf, k)
  {
    hide FieldAt;
    hide Place;
    hide ParseDetails;
    hide BadOutputAt;
    ParsingDetailsEnds(buf);
    forall i: nat, k: nat | ComesBack(DetailsFate, buf, i, k)
      ensures false
    {
      var m := ComesBackByWrapping(DetailsFate, buf, i, k);
    }
  }

  function OutputsPieces(s: seq<Output>): seq<Piece> {
    if |s| == 0 then [] else OutputsPieces(s[..|s| - 1]) + [Data(2, OutputBytes(s[|s| - 1]))]
  }

  function DetailsPieces(d: Details): seq<Piece> {
    Opt(!d.noNetwork, Data(1, CString(d.network))) + (OutputsPieces(d.outputs) + TailPieces(d))
  }

  function TailPieces(d: Details): seq<Piece> {
    Opt(!d.noTime, Int(3, d.time)) + (Opt(!d.noExpires, Int(4, d.expires)) + TextPieces(d))
  }

  function TextPieces(d: Details): seq<Piece> {
    OptData(5, Terminated(d.memo)) + (OptData(6, Terminated(d.paymentURL)) + OptData(7, d.merchantData))
  }

  function Terminated(s: Option<Text>): Option<Text> {
    match s case Some(text) => Some(CString(text)) case None => None
  }

  function DetailsBytes(d: Details): seq<Byte> {
    PiecesBytes(DetailsPieces(d))
  }

  predicate TextFits(s: Text) {
    IsCString(s) && |s| <= MAX64
  }

  /** Details without unknown fields, with texts that are C strings and numbers and lengths of 64 bits. */
  predicate DetailsFit(d: Details) {
    && d.unknown == [] && TextFits(d.network) && d.time <= MAX64 && d.expires <= MAX64
    && (d.memo.Some? ==> TextFits(d.memo.value)) && (d.paymentURL.Some? ==> TextFits(d.paymentURL.value))
    && (d.merchantData.Some? ==> |d.merchantData.value| <= MAX64)
    && (d.noNetwork ==> d.network == MAIN) && (d.noTime ==> d.time == 0) && (d.noExpires ==> d.expires == 0)
    && |DetailsBytes(d)| <= MAX64 && forall k :: 0 <= k < |d.outputs| ==> OutputFits(d.outputs[k])
  }

  lemma {:induction false} OutputsApplied(s: seq<Output>, p: DetailsParsing)
    requires forall k :: 0 <= k < |s| ==> OutputFits(s[k])
    ensures ApplyAll(ApplyToDetails, OutputsPieces(s), p) ==
      p.(details := p.details.(outputs := p.details.outputs + s))
  {
    hide ParseOutput;
    hide OutputBytes;
    hide OutputFits;
    if |s| == 0 {
      assert p.details.outputs + s == p.details.outputs;
    } else {
      var n := |s| - 1;
      var last := Data(2, OutputBytes(s[n]));
      AppliedJoin(ApplyToDetails, OutputsPieces(s[..n]), [last], p);
      OutputsApplied(s[..n], p);
      OneApplied(ApplyToDetails, last, p.(details := p.details.(outputs := p.details.outputs + s[..n])));
      OutputComesBack(s[n]);
      assert p.details.outputs + s[..n] + [s[n]] == p.details.outputs + s;
    }
  }

  lemma {:induction false} TextsApplied(d: Details, p: DetailsParsing)
    requires p.details.memo.None? && p.details.paymentURL.None? && p.details.merchantData.None?
    requires Terminated(d.memo) == d.memo && Terminated(d.paymentURL) == d.paymentURL
    ensures ApplyAll(ApplyToDetails, TextPieces(d), p) ==
      p.(details := p.details.(memo := d.memo, paymentURL := d.paymentURL, merchantData := d.merchantData))
  {
    hide ParseOutput;
    hide Terminated;
    hide ApplyAll;
    var q := p.(details := p.details.(memo := d.memo));
    var r := q.(details := q.details.(paymentURL := d.paymentURL));
    AppliedJoin(ApplyToDetails, OptData(5, d.memo), OptData(6, d.paymentURL) + OptData(7, d.merchantData), p);
    OptDataApplied(ApplyToDetails, 5, d.memo, p);
    AppliedJoin(ApplyToDetails, OptData(6, d.paymentURL), OptData(7, d.merchantData), q);
    OptDataApplied(ApplyToDetails, 6, d.paymentURL, q);
    OptDataApplied(ApplyToDetails, 7, d.merchantData, r);
  }

  lemma {:induction false} TailApplied(d: Details, p: DetailsParsing)
    requires p.details.memo.None? && p.details.paymentURL.None? && p.details.merchantData.None?
    requires p.details.time == p.details.expires == 0 && p.details.noTime && p.details.noExpires
    requires (d.noTime ==> d.time == 0) && (d.noExpires ==> d.expires == 0)
    requires Terminated(d.memo) == d.memo && Terminated(d.paymentURL) == d.paymentURL
    ensures ApplyAll(ApplyToDetails, TailPieces(d), p) ==
      p.(details := p.details.(time := d.time, noTime := d.noTime, expires := d.expires, noExpires := d.noExpires,
                               memo := d.memo, paymentURL := d.paymentURL, merchantData := d.merchantData))
  {
    hide ParseOutput;
    hide Terminated;
    hide TextPieces;
    var q := p.(details := p.details.(time := d.time, noTime := d.noTime));
    var r := q.(details := q.details.(expires := d.expires, noExpires := d.noExpires));
    AppliedJoin(ApplyToDetails, Opt(!d.noTime, Int(3, d.time)), Opt(!d.noExpires, Int(4, d.expires)) + TextPieces(d), p);
    OptApplied(ApplyToDetails, !d.noTime, Int(3, d.time), p);
    AppliedJoin(ApplyToDetails, Opt(!d.noExpires, Int(4, d.expires)), TextPieces(d), q);
    OptApplied(ApplyToDetails, !d.noExpires, Int(4, d.expires), q);
    TextsApplied(d, r);
  }

  lemma {:induction false} TerminatedIs(s: Option<Text>)
    requires s.Some? ==> TextFits(s.value)
    ensures Terminated(s) == s
  {
    if s.Some? {
      CStringIs(s.value);
    }
  }

  lemma {:induction false} DetailsApplied(d: Details)
    requires DetailsFit(d)
    ensures FinishDetails(ApplyAll(ApplyToDetails, DetailsPieces(d), BLANK)) == d
  {
    hide ParseOutput;
    hide OutputFits;
    hide TailPieces;
    hide OutputsPieces;
    hide OutputBytes;
    CStringIs(d.network);
    TerminatedIs(d.memo);
    TerminatedIs(d.paymentURL);
    hide CString;
    var net := Opt(!d.noNetwork, Data(1, d.network));
    var p := BLANK.(network := if d.noNetwork then None else Some(d.network));
    AppliedJoin(ApplyToDetails, net, OutputsPieces(d.outputs) + TailPieces(d), BLANK);
    OptApplied(ApplyToDetails, !d.noNetwork, Data(1, d.network), BLANK);
    var q := p.(details := p.details.(outputs := d.outputs));
    AppliedJoin(ApplyToDetails, OutputsPieces(d.outputs), TailPieces(d), p);
    OutputsApplied(d.outputs, p);
    assert p.details.outputs + d.outputs == d.outputs;
    TailApplied(d, q);
  }

  lemma {:induction false} OutputsPiecesFit(s: seq<Output>)
    requires forall k :: 0 <= k < |s| ==> |OutputBytes(s[k])| <= MAX64
    ensures AllFit(OutputsPieces(s))
  {
    hide OutputBytes;
    if |s| > 0 {
      OutputsPiecesFit(s[..|s| - 1]);
    }
  }

  lemma {:induction false} FitTogether(ps: seq<Piece>, qs: seq<Piece>)
    requires AllFit(ps) && AllFit(qs)
    ensures AllFit(ps + qs)
  {
  }

  lemma {:induction false} TextPiecesFit(d: Details)
    requires d.memo.Some? ==> |CString(d.memo.value)| <= MAX64
    requires d.paymentURL.Some? ==> |CString(d.paymentURL.value)| <= MAX64
    requires d.merchantData.Some? ==> |d.merchantData.value| <= MAX64
    ensures AllFit(TextPieces(d))
  {
    FitTogether(OptData(6, Terminated(d.paymentURL)), OptData(7, d.merchantData));
    FitTogether(OptData(5, Terminated(d.memo)), OptData(6, Terminated(d.paymentURL)) + OptData(7, d.merchantData));
  }

  lemma {:induction false} TailPiecesFit(d: Details)
    requires AllFit(TextPieces(d)) && d.time <= MAX64 && d.expires <= MAX64
    ensures AllFit(TailPieces(d))
  {
    hide TextPieces;
    FitTogether(Opt(!d.noExpires, Int(4, d.expires)), TextPieces(d));
    FitTogether(Opt(!d.noTime, Int(3, d.time)), Opt(!d.noExpires, Int(4, d.expires)) + TextPieces(d));
  }

  lemma {:induction false} DetailsPiecesFit(d: Details)
    requires DetailsFit(d)
    ensures AllFit(DetailsPieces(d))
  {
    assert forall k :: 0 <= k < |d.outputs| ==> |OutputBytes(d.outputs[k])| <= MAX64;
    hide OutputFits;
    hide OutputBytes;
    OutputsPiecesFit(d.outputs);
    hide OutputsPieces;
    CStringIs(d.network);
    if d.memo.Some? { CStringIs(d.memo.value); }
    if d.paymentURL.Some? { CStringIs(d.paymentURL.value); }
    hide CString;
    hide IsCString;
    TextPiecesFit(d);
    TailPiecesFit(d);
    hide TailPieces;
    hide TextPieces;
    FitTogether(OutputsPieces(d.outputs), TailPieces(d));
    FitTogether(Opt(!d.noNetwork, Data(1, CString(d.network))), OutputsPieces(d.outputs) + TailPieces(d));
  }

  lemma {:induction false} FineTogether(fate: (Field, bool) -> Fate, ps: seq<Piece>, qs: seq<Piece>)
    requires AllFine(fate, ps) && AllFine(fate, qs)
    ensures AllFine(fate, ps + qs)
  {
    hide FieldOf;
  }

  lemma {:induction false} OptsAreFine(d: Details)
    ensures AllFine(DetailsFate, Opt(!d.noNetwork, Data(1, CString(d.network))))
    ensures AllFine(DetailsFate, Opt(!d.noTime, Int(3, d.time))) && AllFine(DetailsFate, Opt(!d.noExpires, Int(4, d.expires)))
    ensures AllFine(DetailsFate, OptData(5, Terminated(d.memo))) && AllFine(DetailsFate, OptData(6, Terminated(d.paymentURL)))
    ensures AllFine(DetailsFate, OptData(7, d.merchantData))
  {
    hide FateOf;
    hide UnknownFate;
    hide CString;
    hide Terminated;
    forall key: nat, data: Option<seq<Byte>> | key == 5 || key == 6 || key == 7
      ensures AllFine(DetailsFate, OptData(key, data))
    {
    }
  }

  lemma {:induction false} OutputsAreFine(s: seq<Output>)
    requires forall k :: 0 <= k < |s| ==> OutputFits(s[k])
    ensures AllFine(DetailsFate, OutputsPieces(s))
  {
    hide OutputFits;
    hide OutputBytes;
    hide ReadAll;
    hide IsCutOff;
    if |s| > 0 {
      var n := |s| - 1;
      OutputsAreFine(s[..n]);
      OutputComesBack(s[n]);
      FineTogether(DetailsFate, OutputsPieces(s[..n]), [Data(2, OutputBytes(s[n]))]);
    }
  }

  lemma {:induction false} DetailsAreFine(d: Details)
    requires DetailsFit(d)
    ensures AllFine(DetailsFate, DetailsPieces(d))
  {
    OptsAreFine(d);
    OutputsAreFine(d.outputs);
    hide AllFine;
    hide OutputsPieces;
    hide Opt;
    hide OptData;
    FineTogether(DetailsFate, OptData(6, Terminated(d.paymentURL)), OptData(7, d.merchantData));
    FineTogether(DetailsFate, OptData(5, Terminated(d.memo)), OptData(6, Terminated(d.paymentURL)) + OptData(7, d.merchantData));
    FineTogether(DetailsFate, Opt(!d.noExpires, Int(4, d.expires)), TextPieces(d));
    FineTogether(DetailsFate, Opt(!d.noTime, Int(3, d.time)), Opt(!d.noExpires, Int(4, d.expires)) + TextPieces(d));
    FineTogether(DetailsFate, OutputsPieces(d.outputs), TailPieces(d));
    FineTogether(DetailsFate, Opt(!d.noNetwork, Data(1, CString(d.network))), OutputsPieces(d.outputs) + TailPieces(d));
  }

  /** Parsing serialized details gives the same details: fields, defaults and outputs. */
  lemma {:induction false} DetailsRoundTrip(d: Details)
    requires DetailsFit(d)
    ensures ParseDetails(DetailsBytes(d)) == Ended(d)
  {
    hide DetailsPieces;
    hide ReadAll;
    hide ApplyAll;
    hide FinishDetails;
    hide ReadMessage;
    DetailsPiecesFit(d);
    DetailsAreFine(d);
    MessageComesBack(ApplyToDetails, DetailsFate, DetailsPieces(d), BLANK);
    DetailsApplied(d);
  }

  /** Newly built details are such that they come back. */
  lemma {:induction false} NewDetailsComeBack(network: Option<Text>, payments: seq<Payment>, time: nat, expires: nat, memo: Option<Text>,
                            paymentURL: Option<Text>, merchantData: Option<seq<Byte>>)
    requires network.Some? ==> TextFits(network.value)
    requires memo.Some? ==> TextFits(memo.value)
    requires paymentURL.Some? ==> TextFits(paymentURL.value)
    requires merchantData.Some? ==> |merchantData.value| <= MAX64
    requires time <= MAX64 && expires <= MAX64
    requires forall k :: 0 <= k < |payments| ==> payments[k].amount <= MAX64 && |payments[k].script| <= MAX64 - 100
    requires |DetailsBytes(NewDetails(network, payments, time, expires, memo, paymentURL, merchantData))| <= MAX64
    ensures var d := NewDetails(network, payments, time, expires, memo, paymentURL, merchantData);
      DetailsFit(d) && ParseDetails(DetailsBytes(d)) == Ended(d)
  {
    var d := NewDetails(network, payments, time, expires, memo, paymentURL, merchantData);
    forall k | 0 <= k < |payments|
      ensures OutputFits(d.outputs[k]) && |OutputBytes(d.outputs[k])| <= MAX64
    {
      OutputLength(payments[k].amount, payments[k].script);
    }
    hide OutputFits;
    hide OutputBytes;
    DetailsRoundTrip(d);
  }

  lemma {:induction false} OutputLength(amount: nat, script: seq<Byte>)
    requires amount <= MAX64 && |script| <= MAX64
    ensures |OutputBytes(NewOutput(amount, script))| <= |script| + 22
  {
    hide VarBytes;
    var a, b := Int(1, amount), Data(2, script);
    assert OutputPieces(NewOutput(amount, script)) == [a, b];
    TwoPieces(a, b);
    assert Pow128(10) == 0x40_0000_0000_0000_0000;
    assert Pow128(1) == 128;
    VarLength(amount, 10);
    VarLength(|script|, 10);
    VarLength(8, 1);
    VarLength(18, 1);
  }

  lemma {:induction false} TwoPieces(a: Piece, b: Piece)
    ensures PiecesBytes([a, b]) == PieceBytes(a) + PieceBytes(b)
  {
    hide PieceBytes;
    assert [a, b][1..] == [b] && [b][1..] == [];
    assert PiecesBytes([b]) == PieceBytes(b) + PiecesBytes([]);
  }

  // ---------------------------------------------------------------- requests

  datatype Request = Request(
    version: nat, pkiType: Text, pkiData: Option<seq<Byte>>, details: Details, signature: Option<seq<Byte>>,
    noVersion: bool, noPkiType: bool, unknown: seq<Field>)

  /** BRPaymentProtocolRequestNew: the version 0 asks for the default, and details are required. */
  function NewRequest(version: nat, pkiType: Option<Text>, pkiData: Option<seq<Byte>>, details: Option<Details>,
                      signature: Option<seq<Byte>>): Option<Request> {
    if details.None? then None
    else Some(Request(if version == 0 then 1 else version, if pkiType.Some? then pkiType.value else NONE, pkiData,
                      details.value, signature, version == 0, pkiType.None?, []))
  }

  datatype RequestParsing = RequestParsing(
    version: nat, noVersion: bool, pkiType: Option<Text>, pkiData: Option<seq<Byte>>, details: Option<Details>,
    signature: Option<seq<Byte>>, unknown: seq<Field>)

  function RequestFate(f: Field, wraps: bool): Fate {
    var key := f.key / 8;
    if key == 1 then Fine
    else if key == 0 || key > 5 then UnknownFate(f, wraps)
    else if wraps then Astray
    else if key == 4 && f.data.Some? then FateOf(DetailsFate, f.data.value)
    else Fine
  }

  function ApplyToRequest(p: RequestParsing, f: Field): RequestParsing {
    var key := f.key / 8;
    if key == 1 then p.(version := f.num % (MAX32 + 1), noVersion := false)
    else if key == 2 then p.(pkiType := if f.data.Some? then f.data else p.pkiType)
    else if key == 3 then p.(pkiData := if f.data.Some? then f.data else p.pkiData)
    else if key == 4 then
      var d := if f.data.Some? then ParseDetails(f.data.value) else Endless;
      p.(details := if d.Ended? then Some(d.value) else None)
    else if key == 5 then p.(signature := if f.data.Some? then f.data else p.signature)
    else p.(unknown := Keep(p.unknown, f))
  }

  const BLANK_REQUEST: RequestParsing := RequestParsing(1, true, None, None, None, None, [])

  function FinishRequest(p: RequestParsing): Option<Request> {
    if p.details.None? then None
    else Some(Request(p.version, if p.pkiType.Some? then p.pkiType.value else NONE, p.pkiData, p.details.value,
                      p.signature, p.noVersion, p.pkiType.None?, p.unknown))
  }

  /** BRPaymentProtocolRequestParse */
  function ParseRequest(buf: seq<Byte>): Outcome<Option<Request>> {
    Then(ReadMessage(ApplyToRequest, RequestFate, buf, BLANK_REQUEST), FinishRequest)
  }

  ghost predicate BadDetailsAt(buf: seq<Byte>, k: nat) {
    && Clear(RequestFate, buf, k) && Place(buf, k) < |buf|
    && var r := FieldAt(buf, Place(buf, k));
      r.field.key / 8 == 4 && !r.wraps && !r.long && r.field.data.Some? && ParseDetails(r.field.data.value).Endless?
  }

  lemma {:induction false} BadDetailsAreStuck(buf: seq<Byte>, k: nat)
    ensures BadDetailsAt(buf, k) <==> FateAt(RequestFate, buf, k, Stuck)
  {
    hide FieldAt;
    hide FateOf;
    hide Clear;
    hide Place;
    hide IsCutOff;
  }

  /**
   * Parsing a request does not end exactly when parsing its details does not,
   * or a field starts where an earlier one did.
   */
  lemma {:induction false} ParsingRequestEnds(buf: seq<Byte>)
    ensures ParseRequest(buf).Endless? <==>
      (exists k: nat :: BadDetailsAt(buf, k)) || (exists i: nat, k: nat :: ComesBack(RequestFate, buf, i, k))
  {
    hide FieldAt;
    StuckExactly(RequestFate, buf);
    hide FateOf;
    hide ComesBack;
    hide Clear;
    hide Place;
    hide RequestFate;
    hide BadDetailsAt;
    hide FateAt;
    forall k: nat
      ensures BadDetailsAt(buf, k) <==> FateAt(RequestFate, buf, k, Stuck)
    {
      BadDetailsAreStuck(buf, k);
    }
  }

  function RequestPieces(r: Request): seq<Piece> {
    Opt(!r.noVersion, Int(1, r.version)) + (Opt(!r.noPkiType, Data(2, CString(r.pkiType))) + BodyPieces(r))
  }

  function BodyPieces(r: Request): seq<Piece> {
    OptData(3, r.pkiData) + ([Data(4, DetailsBytes(r.details))] + OptData(5, r.signature))
  }

  function RequestBytes(r: Request): seq<Byte> {
    PiecesBytes(RequestPieces(r))
  }

  predicate RequestFits(r: Request) {
    && r.unknown == [] && r.version <= MAX32 && TextFits(r.pkiType)
    && (r.pkiData.Some? ==> |r.pkiData.value| <= MAX64) && (r.signature.Some? ==> |r.signature.value| <= MAX64)
    && (r.noVersion ==> r.version == 1) && (r.noPkiType ==> r.pkiType == NONE)
    && DetailsFit(r.details) && |RequestBytes(r)| <= MAX64
  }

  lemma {:induction false} BodyApplied(r: Request, p: RequestParsing)
    requires p.pkiData.None? && p.signature.None? && ParseDetails(DetailsBytes(r.details)) == Ended(r.details)
    ensures ApplyAll(ApplyToRequest, BodyPieces(r), p) ==
      p.(pkiData := r.pkiData, details := Some(r.details), signature := r.signature)
  {
    hide ParseDetails;
    hide DetailsBytes;
    var details := Data(4, DetailsBytes(r.details));
    var q := p.(pkiData := r.pkiData);
    var s := q.(details := Some(r.details));
    AppliedJoin(ApplyToRequest, OptData(3, r.pkiData), [details] + OptData(5, r.signature), p);
    OptDataApplied(ApplyToRequest, 3, r.pkiData, p);
    AppliedJoin(ApplyToRequest, [details], OptData(5, r.signature), q);
    OneApplied(ApplyToRequest, details, q);
    OptDataApplied(ApplyToRequest, 5, r.signature, s);
  }

  lemma {:induction false} RequestApplied(r: Request)
    requires RequestFits(r)
    ensures FinishRequest(ApplyAll(ApplyToRequest, RequestPieces(r), BLANK_REQUEST)) == Some(r)
  {
    hide ParseDetails;
    hide DetailsBytes;
    hide DetailsFit;
    hide BodyPieces;
    hide ApplyAll;
    hide Keep;
    hide IsCString;
    CStringIs(r.pkiType);
    hide CString;
    DetailsRoundTrip(r.details);
    var p := BLANK_REQUEST.(version := r.version, noVersion := r.noVersion);
    var q := p.(pkiType := if r.noPkiType then None else Some(r.pkiType));
    AppliedJoin(ApplyToRequest, Opt(!r.noVersion, Int(1, r.version)),
                Opt(!r.noPkiType, Data(2, r.pkiType)) + BodyPieces(r), BLANK_REQUEST);
    OptApplied(ApplyToRequest, !r.noVersion, Int(1, r.version), BLANK_REQUEST);
    AppliedJoin(ApplyToRequest, Opt(!r.noPkiType, Data(2, r.pkiType)), BodyPieces(r), p);
    OptApplied(ApplyToRequest, !r.noPkiType, Data(2, r.pkiType), p);
    BodyApplied(r, q);
  }

  lemma {:induction false} RequestPiecesFit(r: Request)
    requires RequestFits(r)
    ensures AllFit(RequestPieces(r))
  {
    assert |DetailsBytes(r.details)| <= MAX64;
    hide DetailsFit;
    hide DetailsBytes;
    CStringIs(r.pkiType);
    hide CString;
    var details := Data(4, DetailsBytes(r.details));
    FitTogether([details], OptData(5, r.signature));
    FitTogether(OptData(3, r.pkiData), [details] + OptData(5, r.signature));
    FitTogether(Opt(!r.noPkiType, Data(2, r.pkiType)), BodyPieces(r));
    FitTogether(Opt(!r.noVersion, Int(1, r.version)), Opt(!r.noPkiType, Data(2, r.pkiType)) + BodyPieces(r));
  }

  lemma {:induction false} RequestIsFine(r: Request)
    requires RequestFits(r)
    ensures AllFine(RequestFate, RequestPieces(r))
  {
    DetailsRoundTrip(r.details);
    hide DetailsFit;
    hide DetailsBytes;
    hide ReadAll;
    hide IsCutOff;
    hide CString;
    var details := Data(4, DetailsBytes(r.details));
    FineTogether(RequestFate, [details], OptData(5, r.signature));
    FineTogether(RequestFate, OptData(3, r.pkiData), [details] + OptData(5, r.signature));
    FineTogether(RequestFate, Opt(!r.noPkiType, Data(2, CString(r.pkiType))), BodyPieces(r));
    FineTogether(RequestFate, Opt(!r.noVersion, Int(1, r.version)), Opt(!r.noPkiType, Data(2, CString(r.pkiType))) + BodyPieces(r));
  }

  /** Parsing a serialized request gives the same request, the details within it included. */
  lemma {:induction false} RequestRoundTrip(r: Request)
    requires RequestFits(r)
    ensures ParseRequest(RequestBytes(r)) == Ended(Some(r))
  {
    hide RequestPieces;
    hide ReadAll;
    hide ApplyAll;
    hide FinishRequest;
    hide ReadMessage;
    RequestPiecesFit(r);
    RequestIsFine(r);
    MessageComesBack(ApplyToRequest, RequestFate, RequestPieces(r), BLANK_REQUEST);
    RequestApplied(r);
  }

  /** Newly built requests are such that they come back. */
  lemma {:induction false} NewRequestComesBack(version: nat, pkiType: Option<Text>, pkiData: Option<seq<Byte>>, details: Details,
                             signature: Option<seq<Byte>>)
    requires version <= MAX32 && (pkiType.Some? ==> TextFits(pkiType.value))
    requires pkiData.Some? ==> |pkiData.value| <= MAX64
    requires signature.Some? ==> |signature.value| <= MAX64
    requires DetailsFit(details)
    requires |RequestBytes(NewRequest(version, pkiType, pkiData, Some(details), signature).value)| <= MAX64
    ensures var r := NewRequest(version, pkiType, pkiData, Some(details), signature);
      r.Some? && ParseRequest(RequestBytes(r.value)) == Ended(r)
  {
    hide DetailsFit;
    hide DetailsBytes;
    RequestRoundTrip(NewRequest(version, pkiType, pkiData, Some(details), signature).value);
  }

  /** What is missing has the defaults of BIP70: the network "main", the public key type "none",
      version 1, and no amount; a script and details are required. */
  lemma {:induction false} DefaultsAre(details: Details)
    ensures ParseDetails([]) == Ended(Details([109, 97, 105, 110], [], 0, 0, None, None, None, true, true, true, []))
    ensures ParseOutput([]) == Ended(None) && ParseRequest([]) == Ended(None)
    ensures FinishRequest(BLANK_REQUEST.(details := Some(details))) ==
      Some(Request(1, [110, 111, 110, 101], None, details, None, true, true, []))
  {
  }

  // ------------------------------------------------- the messages of the standard

  lemma {:induction false} SmallInt(key: nat, i: Byte)
    requires key < 16 && i < 128
    ensures PieceBytes(Int(key, i)) == [key * 8, i]
  {
    LastByte(key * 8);
    LastByte(i);
  }

  lemma {:induction false} SmallData(key: nat, data: seq<Byte>)
    requires key < 15 && |data| < 128
    ensures PieceBytes(Data(key, data)) == [key * 8 + 2, |data|] + data
  {
    LastByte(key * 8 + 2);
    LastByte(|data|);
    hide VarBytes;
  }

  lemma {:induction false} SmallText(key: nat, c: Byte)
    requires key < 15
    ensures PieceBytes(Data(key, [c])) == [key * 8 + 2, 1, c]
  {
    SmallData(key, [c]);
    hide PieceBytes;
  }

  lemma {:induction false} PieceInFront(p: Piece, ps: seq<Piece>)
    ensures PiecesBytes([p] + ps) == PieceBytes(p) + PiecesBytes(ps)
  {
    assert ([p] + ps)[1..] == ps;
  }

  /** An output as BIP70 defines it: field 1 is the amount and field 2 the script. */
  lemma {:induction false} OutputOnTheWire(amount: Byte, script: seq<Byte>)
    requires amount < 128 && |script| < 100
    ensures OutputBytes(NewOutput(amount, script)) == [0x08, amount, 0x12, |script|] + script
  {
    SmallInt(1, amount);
    SmallData(2, script);
    hide PieceBytes;
    PieceInFront(Int(1, amount), [Data(2, script)]);
    OnePieceAlone(Data(2, script));
    hide PiecesBytes;
  }

  /** Details as BIP70 defines them: network 1, outputs 2, time 3, expires 4, memo 5, payment URL 6
      and merchant data 7. */
  lemma {:induction false} DetailsOnTheWire(net: Byte, memo: Byte, url: Byte, data: Byte, time: Byte, expires: Byte, amount: Byte, op: Byte)
    requires 0 < net && 0 < memo && 0 < url && time < 128 && expires < 128 && amount < 128
    ensures DetailsBytes(NewDetails(Some([net]), [Payment(amount, [op])], time, expires, Some([memo]), Some([url]), Some([data]))) ==
      [0x0A, 1, net] + ([0x12, 5, 0x08, amount, 0x12, 1, op] +
      ([0x18, time] + ([0x20, expires] + ([0x2A, 1, memo] + ([0x32, 1, url] + [0x3A, 1, data])))))
  {
    hide *;
    var o := Data(2, [0x08, amount, 0x12, 1, op]);
    DetailsParts(net, memo, url, data, time, expires, amount, op, o);
    SmallText(1, net);
    SmallOutput(amount, op);
    SmallInt(3, time);
    SmallInt(4, expires);
    SmallText(5, memo);
    SmallText(6, url);
    SmallText(7, data);
  }

  lemma {:induction false} SmallOutput(amount: Byte, op: Byte)
    ensures PieceBytes(Data(2, [0x08, amount, 0x12, 1, op])) == [0x12, 5, 0x08, amount, 0x12, 1, op]
  {
    SmallData(2, [0x08, amount, 0x12, 1, op]);
    hide PieceBytes;
  }

  lemma {:induction false} DetailsParts(net: Byte, memo: Byte, url: Byte, data: Byte, time: Byte, expires: Byte, amount: Byte,
                                        op: Byte, o: Piece)
    requires 0 < net && 0 < memo && 0 < url && amount < 128 && o == Data(2, [0x08, amount, 0x12, 1, op])
    ensures DetailsBytes(NewDetails(Some([net]), [Payment(amount, [op])], time, expires, Some([memo]), Some([url]), Some([data]))) ==
      PieceBytes(Data(1, [net])) + (PieceBytes(o) + (PieceBytes(Int(3, time)) + (PieceBytes(Int(4, expires)) +
      (PieceBytes(Data(5, [memo])) + (PieceBytes(Data(6, [url])) + PieceBytes(Data(7, [data])))))))
  {
    hide PieceBytes;
    hide PiecesBytes;
    hide CString;
    hide DetailsPieces;
    hide OutputsPieces;
    var d := NewDetails(Some([net]), [Payment(amount, [op])], time, expires, Some([memo]), Some([url]), Some([data]));
    assert d.outputs == [NewOutput(amount, [op])];
    OneOutputPiece(d, amount, op);
    OneCharacter(net);
    OneCharacter(memo);
    OneCharacter(url);
    SmallDetailsPieces(d, o);
    SevenPieces(Data(1, [net]), o, Int(3, time), Int(4, expires), Data(5, [memo]), Data(6, [url]), Data(7, [data]));
  }

  lemma {:induction false} OneOutputPiece(d: Details, amount: Byte, op: Byte)
    requires d.outputs == [NewOutput(amount, [op])] && amount < 128
    ensures OutputsPieces(d.outputs) == [Data(2, [0x08, amount, 0x12, 1, op])]
  {
    OutputOnTheWire(amount, [op]);
    assert [0x08, amount, 0x12, 1] + [op] == [0x08, amount, 0x12, 1, op];
    hide OutputBytes;
    assert d.outputs[..0] == [] && OutputsPieces(d.outputs[..0]) == [];
  }

  lemma {:induction false} SmallDetailsPieces(d: Details, o: Piece)
    requires !d.noNetwork && !d.noTime && !d.noExpires && d.memo.Some? && d.paymentURL.Some? && d.merchantData.Some?
    requires OutputsPieces(d.outputs) == [o]
    ensures DetailsPieces(d) ==
      [Data(1, CString(d.network))] + ([o] + ([Int(3, d.time)] + ([Int(4, d.expires)] +
      ([Data(5, CString(d.memo.value))] + ([Data(6, CString(d.paymentURL.value))] + [Data(7, d.merchantData.value)])))))
  {
    hide CString;
    hide OutputsPieces;
  }

  lemma {:induction false} SevenPieces(a: Piece, b: Piece, c: Piece, d: Piece, e: Piece, f: Piece, g: Piece)
    ensures PiecesBytes([a] + ([b] + ([c] + ([d] + ([e] + ([f] + [g])))))) ==
      PieceBytes(a) + (PieceBytes(b) + (PieceBytes(c) + (PieceBytes(d) + (PieceBytes(e) + (PieceBytes(f) + PieceBytes(g))))))
  {
    hide PieceBytes;
    OnePieceAlone(g);
    hide PiecesBytes;
    PieceInFront(f, [g]);
    PieceInFront(e, [f] + [g]);
    PieceInFront(d, [e] + ([f] + [g]));
    PieceInFront(c, [d] + ([e] + ([f] + [g])));
    PieceInFront(b, [c] + ([d] + ([e] + ([f] + [g]))));
    PieceInFront(a, [b] + ([c] + ([d] + ([e] + ([f] + [g])))));
  }

  lemma {:induction false} OnePieceAlone(p: Piece)
    ensures PiecesBytes([p]) == PieceBytes(p)
  {
    hide PieceBytes;
    assert [p][1..] == [];
  }

  lemma {:induction false} OneCharacter(c: Byte)
    requires c != 0
    ensures CString([c]) == [c]
  {
    CStringIs([c]);
  }

  /** A request as BIP70 defines it: version 1, public key type 2, its data 3, details 4, signature 5. */
  lemma {:induction false} RequestOnTheWire(r: Request, pki: Byte, data: Byte, sig: Byte, details: seq<Byte>)
    requires r.version < 128 && !r.noVersion && !r.noPkiType && pki != 0 && r.pkiType == [pki]
    requires r.pkiData == Some([data]) && r.signature == Some([sig]) && details == DetailsBytes(r.details) && |details| < 128
    ensures RequestBytes(r) ==
      [0x08, r.version] + ([0x12, 1, pki] + ([0x1A, 1, data] + (([0x22, |details|] + details) + [0x2A, 1, sig])))
  {
    hide *;
    RequestParts(r, pki, data, sig, details);
    SmallInt(1, r.version);
    SmallText(2, pki);
    SmallText(3, data);
    SmallData(4, details);
    SmallText(5, sig);
  }

  lemma {:induction false} RequestParts(r: Request, pki: Byte, data: Byte, sig: Byte, details: seq<Byte>)
    requires !r.noVersion && !r.noPkiType && pki != 0 && r.pkiType == [pki]
    requires r.pkiData == Some([data]) && r.signature == Some([sig]) && details == DetailsBytes(r.details)
    ensures RequestBytes(r) ==
      PieceBytes(Int(1, r.version)) + (PieceBytes(Data(2, [pki])) + (PieceBytes(Data(3, [data])) +
      (PieceBytes(Data(4, details)) + PieceBytes(Data(5, [sig])))))
  {
    hide PieceBytes;
    hide PiecesBytes;
    hide CString;
    hide DetailsBytes;
    hide RequestPieces;
    SmallRequestPieces(r);
    OneCharacter(pki);
    FivePieces(Int(1, r.version), Data(2, [pki]), Data(3, [data]), Data(4, details), Data(5, [sig]));
  }

  lemma {:induction false} FivePieces(a: Piece, b: Piece, c: Piece, d: Piece, e: Piece)
    ensures PiecesBytes([a] + ([b] + ([c] + ([d] + [e])))) ==
      PieceBytes(a) + (PieceBytes(b) + (PieceBytes(c) + (PieceBytes(d) + PieceBytes(e))))
  {
    hide PieceBytes;
    OnePieceAlone(e);
    hide PiecesBytes;
    PieceInFront(d, [e]);
    PieceInFront(c, [d] + [e]);
    PieceInFront(b, [c] + ([d] + [e]));
    PieceInFront(a, [b] + ([c] + ([d] + [e])));
  }

  lemma {:induction false} SmallRequestPieces(r: Request)
    requires !r.noVersion && !r.noPkiType && r.pkiData.Some? && r.signature.Some?
    ensures RequestPieces(r) ==
      [Int(1, r.version)] + ([Data(2, CString(r.pkiType))] + ([Data(3, r.pkiData.value)] +
      ([Data(4, DetailsBytes(r.details))] + [Data(5, r.signature.value)])))
  {
    hide CString;
    hide DetailsBytes;
  }

  // ----------------------------------------------------------- the procedures

  method ParseOutputFrom(buf: seq<Byte>) returns (o: Outcome<Option<Output>>)
    ensures o == ParseOutput(buf)
  {
    var p := ReadFields(ApplyToOutput, OutputFate, buf, Parsing(0, None, true, []));
    o := Then(p, FinishOutput);
  }

  method ParseDetailsFrom(buf: seq<Byte>) returns (d: Outcome<Details>)
    ensures d == ParseDetails(buf)
  {
    var p := ReadFields(ApplyToDetails, DetailsFate, buf, BLANK);
    d := Then(p, FinishDetails);
  }

  method ParseRequestFrom(buf: seq<Byte>) returns (r: Outcome<Option<Request>>)
    ensures r == ParseRequest(buf)
  {
    var p := ReadFields(ApplyToRequest, RequestFate, buf, BLANK_REQUEST);
    r := Then(p, FinishRequest);
  }

  /** The result of a serializer: the length asked for, or the bytes written, or 0 when they do not fit. */
  twostate predicate Serialized(data: array?<Byte>, dataLen: nat, n: nat, s: seq<Byte>)
    requires data != null ==> dataLen <= data.Length
    reads data
  {
    && (data == null ==> n == |s|)
    && (data != null && |s| <= dataLen ==> n == |s| && data[..n] == s)
    && (data != null && |s| > dataLen ==> n == 0)
  }

  method PutPiece(data: array?<Byte>, dataLen: nat, off: nat, p: Piece) returns (off': nat)
    requires data != null ==> dataLen <= data.Length
    modifies data
    ensures off' == off + |PieceBytes(p)| && Wrote(data, dataLen, off, off', PieceBytes(p))
  {
    match p
    case Int(key, i) => off' := PutInt(data, dataLen, off, key, i);
    case Data(key, bytes) => off' := PutData(data, dataLen, off, key, bytes);
  }

  method PutPieces(data: array?<Byte>, dataLen: nat, off: nat, ps: seq<Piece>) returns (off': nat)
    requires data != null ==> dataLen <= data.Length
    modifies data
    ensures off' == off + |PiecesBytes(ps)| && Wrote(data, dataLen, off, off', PiecesBytes(ps))
  {
    hide PieceBytes;
    off' := off;
    for k := 0 to |ps|
      invariant off' == off + |PiecesBytes(ps[..k])| && Wrote(data, dataLen, off, off', PiecesBytes(ps[..k]))
    {
      OnePieceMore(ps, k);
      off' := PutPiece(data, dataLen, off', ps[k]);
    }
    assert ps[..|ps|] == ps;
  }

  lemma {:induction false} OnePieceMore(ps: seq<Piece>, k: nat)
    requires k < |ps|
    ensures PiecesBytes(ps[..k + 1]) == PiecesBytes(ps[..k]) + PieceBytes(ps[k])
  {
    hide PieceBytes;
    assert ps[..k + 1] == ps[..k] + [ps[k]];
    PiecesJoin(ps[..k], [ps[k]]);
    assert [ps[k]][1..] == [];
    assert PiecesBytes([ps[k]]) == PieceBytes(ps[k]) + PiecesBytes([]);
  }

  /** `_BRPaymentProtocolOutputSerialize` */
  method SerializeOutput(o: Output, data: array?<Byte>, dataLen: nat) returns (n: nat)
    requires data != null ==> dataLen <= data.Length
    requires o.unknown == []
    modifies data
    ensures Serialized(data, dataLen, n, OutputBytes(o))
  {
    hide PiecesBytes;
    n := PutPieces(data, dataLen, 0, OutputPieces(o));
    if data != null && n > dataLen {
      n := 0;
    }
  }

  /** The loop over the outputs: each is measured, written to a buffer of its own, and put in as data. */
  method PutOutputs(data: array?<Byte>, dataLen: nat, off: nat, s: seq<Output>) returns (off': nat)
    requires data != null ==> dataLen <= data.Length
    requires forall k :: 0 <= k < |s| ==> s[k].unknown == []
    modifies data
    ensures off' == off + |PiecesBytes(OutputsPieces(s))|
    ensures Wrote(data, dataLen, off, off', PiecesBytes(OutputsPieces(s)))
  {
    hide OutputBytes;
    hide PieceBytes;
    off' := off;
    for k := 0 to |s|
      invariant off' == off + |PiecesBytes(OutputsPieces(s[..k]))|
      invariant Wrote(data, dataLen, off, off', PiecesBytes(OutputsPieces(s[..k])))
    {
      var bytes := OutputToBuffer(s[k]);
      OneOutputMore(s, k);
      off' := PutPiece(data, dataLen, off', Data(2, bytes));
    }
    assert s[..|s|] == s;
  }

  method OutputToBuffer(o: Output) returns (bytes: seq<Byte>)
    requires o.unknown == []
    ensures bytes == OutputBytes(o)
  {
    hide OutputBytes;
    var l := SerializeOutput(o, null, 0);
    var outBuf := new Byte[l];
    l := SerializeOutput(o, outBuf, l);
    bytes := outBuf[..l];
  }

  lemma {:induction false} OneOutputMore(s: seq<Output>, k: nat)
    requires k < |s|
    ensures PiecesBytes(OutputsPieces(s[..k + 1])) ==
      PiecesBytes(OutputsPieces(s[..k])) + PieceBytes(Data(2, OutputBytes(s[k])))
  {
    hide PieceBytes;
    hide OutputBytes;
    assert s[..k + 1][..k] == s[..k];
    var p := Data(2, OutputBytes(s[k]));
    PiecesJoin(OutputsPieces(s[..k]), [p]);
    assert [p][1..] == [];
    assert PiecesBytes([p]) == PieceBytes(p) + PiecesBytes([]);
  }

  /** BRPaymentProtocolDetailsSerialize */
  method SerializeDetails(d: Details, data: array?<Byte>, dataLen: nat) returns (n: nat)
    requires data != null ==> dataLen <= data.Length
    requires d.unknown == [] && forall k :: 0 <= k < |d.outputs| ==> d.outputs[k].unknown == []
    modifies data
    ensures Serialized(data, dataLen, n, DetailsBytes(d))
  {
    hide PiecesBytes;
    hide OutputsPieces;
    hide CString;
    n := PutPieces(data, dataLen, 0, Opt(!d.noNetwork, Data(1, CString(d.network))));
    n := PutOutputs(data, dataLen, n, d.outputs);
    n := PutPieces(data, dataLen, n, TailPieces(d));
    hide TailPieces;
    PiecesJoin(OutputsPieces(d.outputs), TailPieces(d));
    PiecesJoin(Opt(!d.noNetwork, Data(1, CString(d.network))), OutputsPieces(d.outputs) + TailPieces(d));
    if data != null && n > dataLen {
      n := 0;
    }
  }

  /** BRPaymentProtocolRequestSerialize: the details are measured, written to a buffer and put in as data. */
  method SerializeRequest(r: Request, data: array?<Byte>, dataLen: nat) returns (n: nat)
    requires data != null ==> dataLen <= data.Length
    requires r.unknown == [] && r.details.unknown == []
    requires forall k :: 0 <= k < |r.details.outputs| ==> r.details.outputs[k].unknown == []
    modifies data
    ensures Serialized(data, dataLen, n, RequestBytes(r))
  {
    hide PiecesBytes;
    hide DetailsBytes;
    hide CString;
    var l := SerializeDetails(r.details, null, 0);
    var detailsBuf := new Byte[l];
    l := SerializeDetails(r.details, detailsBuf, l);
    var details := detailsBuf[..l];
    n := PutPieces(data, dataLen, 0, Opt(!r.noVersion, Int(1, r.version))
      + (Opt(!r.noPkiType, Data(2, CString(r.pkiType)))
      + (OptData(3, r.pkiData) + ([Data(4, details)] + OptData(5, r.signature)))));
    if data != null && n > dataLen {
      n := 0;
    }
  }
}
