/**
 * The wire format of transactions: what is written, what is read back, and
 * which bytes are hashed.
 *
 * `isScript` stands for the test BRScriptPubKeyIsValid. Hashes are modelled as
 * the bytes that go into them.
 */
module TxWire {
  import opened Wrappers
  import opened Wire
  import Bitcoin

  /** An absent script, signature or witness is the source's NULL; an empty one is not. */
  datatype Input = Input(
    txHash: seq<Byte>, index: nat, amount: nat, script: Option<seq<Byte>>, signature: Option<seq<Byte>>,
    segwit: Option<seq<Byte>>, sequence: nat)

  datatype Output = Output(amount: nat, script: seq<Byte>)

  datatype Tx = Tx(version: nat, inputs: seq<Input>, outputs: seq<Output>, lockTime: nat)

  // ----------------------------------------------------------------- writing

  function BytesOf(o: Option<seq<Byte>>): seq<Byte> {
    match o case Some(s) => s case None => []
  }

  /** An input without a signature is written with the script it spends, and the amount unless that is 0. */
  function InputBytes(i: Input): seq<Byte> {
    var script := BytesOf(if i.signature.Some? then i.signature else i.script);
    var amount := if i.signature.None? && i.amount != 0 then Le(i.amount, 8) else [];
    i.txHash + (Le(i.index, 4) + (VarIntBytes(|script|) + (script + (amount + Le(i.sequence, 4)))))
  }

  function OutputBytes(o: Output): seq<Byte> {
    Le(o.amount, 8) + (VarIntBytes(|o.script|) + o.script)
  }

  /** The bytes of a list, one element after the other. */
  function ManyBytes<T>(bytes: T -> seq<Byte>, s: seq<T>): seq<Byte> {
    if |s| == 0 then [] else ManyBytes(bytes, s[..|s| - 1]) + bytes(s[|s| - 1])
  }

  /** How many items a witness is made of, an item being a length and as many bytes. */
  function ItemCount(w: seq<Byte>): nat
    decreases |w|
  {
    if |w| == 0 then 0
    else if FirstItem(w) >= |w| then 1
    else 1 + ItemCount(w[FirstItem(w)..])
  }

  function FirstItem(w: seq<Byte>): (n: nat)
    ensures n > 0
  {
    VarInt(w).len + VarInt(w).value
  }

  function WitnessBytes(i: Input): seq<Byte> {
    var w := BytesOf(i.segwit);
    VarIntBytes(ItemCount(w)) + w
  }

  predicate HasWitness(s: seq<Input>) {
    exists k :: 0 <= k < |s| && BytesOf(s[k].segwit) != []
  }

  /** The inputs and outputs with their counts. */
  function BodyBytes(tx: Tx): seq<Byte> {
    VarIntBytes(|tx.inputs|) + (ManyBytes(InputBytes, tx.inputs) + (VarIntBytes(|tx.outputs|) + ManyBytes(OutputBytes, tx.outputs)))
  }

  /** What BRTransactionSerialize writes. */
  function Serialize(tx: Tx): seq<Byte> {
    if HasWitness(tx.inputs)
    then Le(tx.version, 4) + ([0, 1] + (BodyBytes(tx) + (ManyBytes(WitnessBytes, tx.inputs) + Le(tx.lockTime, 4))))
    else Le(tx.version, 4) + (BodyBytes(tx) + Le(tx.lockTime, 4))
  }

  /** The transaction with every witness emptied. */
  function Strip(tx: Tx): Tx {
    tx.(inputs := seq(|tx.inputs|, k requires 0 <= k < |tx.inputs| => tx.inputs[k].(segwit := Some([]))))
  }

  // ----------------------------------------------------------------- reading

  datatype At<T> = At(value: T, off: nat)

  /** Up to n elements, one after the other; reading stops behind the end of the buffer. */
  function Many<T>(item: nat -> At<T>, end: nat, off: nat, n: nat): (r: At<seq<T>>)
    ensures |r.value| <= n
  {
    if n == 0 then At([], off)
    else
      var r := Many(item, end, off, n - 1);
      if r.off > end then r
      else At(r.value + [item(r.off).value], item(r.off).off)
  }

  function ZeroBytes(n: nat): seq<Byte> {
    seq(n, i => 0)
  }

  /** A length and as many bytes: where the bytes start, how many they are, and whether the buffer holds them. */
  datatype Field = Field(start: nat, len: nat, fits: bool)

  function ParseField(buf: seq<Byte>, off: nat): (f: Field)
    ensures f.fits ==> f.start + f.len <= |buf|
  {
    var s := VarInt(Rest(buf, off));
    Field(off + s.len, s.value, off + s.len + s.value <= |buf|)
  }

  function ParseInput(isScript: seq<Byte> -> bool, buf: seq<Byte>, off: nat, flagged: bool): At<Input> {
    var txHash := if off + 32 <= |buf| then buf[off..off + 32] else ZeroBytes(32);
    var index := GetLe(buf, off + 32, 4);
    var f := ParseField(buf, off + 36);
    var script := if f.fits then buf[f.start..f.start + f.len] else [];
    var unsigned := f.fits && isScript(script);
    var amount := if unsigned then GetLe(buf, f.start + f.len, 8) else 0;
    var end := f.start + f.len + if unsigned then 8 else 0;
    At(Input(txHash, index, amount,
             if unsigned then Some(script) else None,
             if f.fits && !unsigned then Some(script) else None,
             if flagged then None else Some([]),
             GetLe(buf, end, 4)),
       end + 4)
  }

  function InputAt(isScript: seq<Byte> -> bool, buf: seq<Byte>, flagged: bool): nat -> At<Input> {
    (off: nat) => ParseInput(isScript, buf, off, flagged)
  }

  function ParseOutput(buf: seq<Byte>, off: nat): At<Output> {
    var f := ParseField(buf, off + 8);
    At(Output(GetLe(buf, off, 8), if f.fits then buf[f.start..f.start + f.len] else []), f.start + f.len)
  }

  function OutputAt(buf: seq<Byte>): nat -> At<Output> {
    (off: nat) => ParseOutput(buf, off)
  }

  /** The length of `count` items, when the item at an offset has the length `step`. */
  function ItemsLen(step: nat -> nat, off: nat, count: nat): nat {
    if count == 0 then 0
    else
      var len := ItemsLen(step, off, count - 1);
      len + step(off + len)
  }

  function ItemLen(buf: seq<Byte>): nat -> nat {
    (off: nat) => VarInt(Rest(buf, off)).value + VarInt(Rest(buf, off)).len
  }

  /** A witness; None where the buffer ends too early. */
  function ParseWitness(buf: seq<Byte>, off: nat): At<Option<seq<Byte>>> {
    var count := VarInt(Rest(buf, off));
    var start := off + count.len;
    var len := ItemsLen(ItemLen(buf), start, count.value);
    At(if start + len <= |buf| then Some(buf[start..start + len]) else None, start + len)
  }

  function WitnessAt(buf: seq<Byte>): nat -> At<Option<seq<Byte>>> {
    (off: nat) => ParseWitness(buf, off)
  }

  /** The inputs with the witnesses that were read. */
  function WithWitnesses(s: seq<Input>, w: seq<Option<seq<Byte>>>): (r: seq<Input>)
    requires |w| <= |s|
    ensures |r| == |s|
  {
    seq(|s|, k requires 0 <= k < |s| => if k < |w| && w[k].Some? then s[k].(segwit := w[k]) else s[k])
  }

  /** `txHash` and `wtxHash` are the hashed bytes; None is the zero hash of an unsigned transaction. */
  datatype Parsed = Parsed(tx: Tx, txHash: Option<seq<Byte>>, wtxHash: Option<seq<Byte>>)

  predicate AllSigned(s: seq<Input>) {
    forall k :: 0 <= k < |s| ==> s[k].script.None?
  }

  /** The marker and flag, if there are any, and the number of inputs. */
  datatype Head = Head(flag: nat, count: nat, off: nat)

  function ParseHead(buf: seq<Byte>): Head {
    var c := VarInt(Rest(buf, 4));
    var off := 4 + c.len;
    if c.value == 0 && off + 1 <= |buf| then
      if buf[off] != 0 then
        var d := VarInt(Rest(buf, off + 1));
        Head(buf[off], d.value, off + 1 + d.len)
      else Head(0, 0, off + 1)
    else Head(0, c.value, off)
  }

  /** The bytes hashed for a witness transaction's txHash: marker, flag and witnesses cut out. */
  function CutOut(buf: seq<Byte>, witnessOff: nat, version: nat, lockTime: nat): seq<Byte> {
    Le(version, 4) + ((if 6 <= witnessOff <= |buf| then buf[6..witnessOff] else []) + Le(lockTime, 4))
  }

  /** BRTransactionParse */
  function Parse(isScript: seq<Byte> -> bool, buf: seq<Byte>): Option<Parsed> {
    var version := GetLe(buf, 0, 4);
    var head := ParseHead(buf);
    var ins := Many(InputAt(isScript, buf, head.flag != 0), |buf|, head.off, head.count);
    var outCount := VarInt(Rest(buf, ins.off));
    var outs := Many(OutputAt(buf), |buf|, ins.off + outCount.len, outCount.value);
    var wits := if head.flag != 0 then Many(WitnessAt(buf), |buf|, outs.off, |ins.value|) else At([], outs.off);
    var off := wits.off + 4;
    if head.count == 0 || off > |buf| then None
    else Some(Finish(buf, version, head.flag != 0, WithWitnesses(ins.value, wits.value), outs, wits.off))
  }

  /** The last lines: the lock time at `off`, and what is hashed. */
  function Finish(buf: seq<Byte>, version: nat, flagged: bool, s: seq<Input>, outs: At<seq<Output>>, off: nat): Parsed
    requires off + 4 <= |buf|
  {
    var lockTime := GetLe(buf, off, 4);
    var tx := Tx(version, s, outs.value, lockTime);
    if !AllSigned(s) then Parsed(tx, None, None)
    else if flagged then Parsed(tx, Some(CutOut(buf, outs.off, version, lockTime)), Some(buf[..off + 4]))
    else Parsed(tx, Some(buf[..off + 4]), Some(buf[..off + 4]))
  }

  // ------------------------------------------------------- whatever is parsed

  lemma {:induction false} ManyRead<T>(item: nat -> At<T>, holds: T -> bool, end: nat, off: nat, n: nat)
    requires forall o: nat :: item(o).off >= o && holds(item(o).value)
    ensures var r := Many(item, end, off, n);
      && r.off >= off && (r.off <= end ==> |r.value| == n) && forall k :: 0 <= k < |r.value| ==> holds(r.value[k])
  {
    if n > 0 {
      ManyRead(item, holds, end, off, n - 1);
    }
  }

  function HasHash(i: Input): bool { |i.txHash| == 32 }

  function AnyOutput(o: Output): bool { true }

  function AnyWitness(w: Option<seq<Byte>>): bool { true }

  function InputsOf(isScript: seq<Byte> -> bool, buf: seq<Byte>): At<seq<Input>> {
    var head := ParseHead(buf);
    Many(InputAt(isScript, buf, head.flag != 0), |buf|, head.off, head.count)
  }

  lemma {:induction false} InputsAreRead(isScript: seq<Byte> -> bool, buf: seq<Byte>)
    ensures var r := InputsOf(isScript, buf);
      && (r.off <= |buf| ==> |r.value| == ParseHead(buf).count)
      && forall k :: 0 <= k < |r.value| ==> |r.value[k].txHash| == 32
  {
    var head := ParseHead(buf);
    PartsAdvance(isScript, buf, head.flag != 0);
    hide ParseHead;
    hide InputAt;
    hide Many;
    ManyRead(InputAt(isScript, buf, head.flag != 0), HasHash, |buf|, head.off, head.count);
    HashesAreWhole(InputsOf(isScript, buf).value);
  }

  lemma {:induction false} RestAdvances(buf: seq<Byte>, from: nat, n: nat, inputs: nat)
    ensures var outs := Many(OutputAt(buf), |buf|, from, n);
      outs.off >= from && Many(WitnessAt(buf), |buf|, outs.off, inputs).off >= outs.off
  {
    PartsAdvance((s: seq<Byte>) => false, buf, false);
    hide OutputAt;
    hide WitnessAt;
    hide Many;
    ManyRead(OutputAt(buf), AnyOutput, |buf|, from, n);
    ManyRead(WitnessAt(buf), AnyWitness, |buf|, Many(OutputAt(buf), |buf|, from, n).off, inputs);
  }

  /** What is parsed are the inputs that were announced, with witnesses. */
  lemma {:induction false} ParsedInputs(isScript: seq<Byte> -> bool, buf: seq<Byte>)
    requires Parse(isScript, buf).Some?
    ensures var ins, r := InputsOf(isScript, buf), Parse(isScript, buf).value;
      && ParseHead(buf).count > 0 && ins.off <= |buf|
      && |r.tx.inputs| == |ins.value| && (forall k :: 0 <= k < |ins.value| ==> SameBut(r.tx.inputs[k], ins.value[k]))
      && (r.txHash.Some? <==> AllSigned(r.tx.inputs)) && (r.wtxHash.Some? <==> AllSigned(r.tx.inputs))
  {
    hide ParseHead;
    hide VarInt;
    hide Many;
    hide CutOut;
    hide AllSigned;
    hide GetLe;
    var ins := InputsOf(isScript, buf);
    var outCount := VarInt(Rest(buf, ins.off));
    RestAdvances(buf, ins.off + outCount.len, outCount.value, |ins.value|);
    hide OutputAt;
    hide WitnessAt;
    hide InputAt;
    hide InputsOf;
  }

  /** The inputs differ at most in their witnesses. */
  predicate SameBut(i: Input, j: Input) {
    i == j.(segwit := i.segwit)
  }

  /** Whatever the bytes, a parsed transaction has inputs, each with a hash of 32 bytes, and it has
      hashes itself exactly if none of the inputs was taken for a script. */
  lemma {:induction false} ParsedIsWhole(isScript: seq<Byte> -> bool, buf: seq<Byte>)
    requires Parse(isScript, buf).Some?
    ensures var r := Parse(isScript, buf).value;
      && |r.tx.inputs| > 0 && (forall k :: 0 <= k < |r.tx.inputs| ==> |r.tx.inputs[k].txHash| == 32)
      && (r.txHash.Some? <==> r.wtxHash.Some?)
      && (r.txHash.Some? <==> forall k :: 0 <= k < |r.tx.inputs| ==> r.tx.inputs[k].script.None?)
  {
    ParsedInputs(isScript, buf);
    InputsAreRead(isScript, buf);
    hide Parse;
    hide InputsOf;
    hide ParseHead;
  }

  lemma {:induction false} HashesAreWhole(s: seq<Input>)
    ensures (forall k :: 0 <= k < |s| ==> HasHash(s[k])) ==> forall k :: 0 <= k < |s| ==> |s[k].txHash| == 32
  {
  }

  lemma {:induction false} PartsAdvance(isScript: seq<Byte> -> bool, buf: seq<Byte>, flagged: bool)
    ensures forall o: nat :: InputAt(isScript, buf, flagged)(o).off >= o && HasHash(InputAt(isScript, buf, flagged)(o).value)
    ensures forall o: nat :: OutputAt(buf)(o).off >= o && WitnessAt(buf)(o).off >= o
  {
    hide VarInt;
    hide GetLe;
    hide ItemsLen;
  }

  // -------------------------------------------------------------- round trip

  /**
   * What a transaction must be like to survive the wire: numbers in range, and
   * each input either signed, with a signature that is not taken for a script,
   * or not signed, with a script that is and an amount.
   */
  predicate InputFits(isScript: seq<Byte> -> bool, i: Input) {
    && |i.txHash| == 32 && i.index <= MAX32 && i.sequence <= MAX32 && i.amount <= MAX64
    && |BytesOf(i.script)| <= MAX64 && |BytesOf(i.signature)| <= MAX64
    && if i.signature.Some? then !isScript(i.signature.value)
       else i.script.Some? && isScript(i.script.value) && i.amount != 0
  }

  predicate OutputFits(o: Output) {
    o.amount <= MAX64 && |o.script| <= MAX64
  }

  /** The items of a witness end where it ends. */
  predicate Framed(w: seq<Byte>)
    decreases |w|
  {
    |w| == 0 || (FirstItem(w) <= |w| && Framed(w[FirstItem(w)..]))
  }

  predicate WitnessFits(i: Input) {
    Framed(BytesOf(i.segwit)) && ItemCount(BytesOf(i.segwit)) <= MAX64
  }

  predicate Fits(isScript: seq<Byte> -> bool, tx: Tx) {
    && tx.version <= MAX32 && tx.lockTime <= MAX32
    && 0 < |tx.inputs| <= MAX64 && |tx.outputs| <= MAX64
    && (forall k :: 0 <= k < |tx.inputs| ==> InputFits(isScript, tx.inputs[k]) && WitnessFits(tx.inputs[k]))
    && (forall k :: 0 <= k < |tx.outputs| ==> OutputFits(tx.outputs[k]))
  }

  /** What the wire carries of an input, before the witnesses are read. */
  function Carried(i: Input, flagged: bool): Input {
    var w := if flagged then None else Some([]);
    if i.signature.Some? then i.(amount := 0, script := None, segwit := w) else i.(signature := None, segwit := w)
  }

  function CarriedAll(s: seq<Input>, flagged: bool): (r: seq<Input>)
    ensures |r| == |s|
  {
    seq(|s|, k requires 0 <= k < |s| => Carried(s[k], flagged))
  }

  function View(i: Input): Input {
    Carried(i, false).(segwit := Some(BytesOf(i.segwit)))
  }

  function ViewTx(tx: Tx): Tx {
    tx.(inputs := seq(|tx.inputs|, k requires 0 <= k < |tx.inputs| => View(tx.inputs[k])))
  }

  lemma {:induction false} FieldAt(buf: seq<Byte>, off: nat, s: seq<Byte>)
    requires |s| <= MAX64 && HasAt(buf, off, VarIntBytes(|s|)) && HasAt(buf, off + |VarIntBytes(|s|)|, s)
    ensures ParseField(buf, off) == Field(off + |VarIntBytes(|s|)|, |s|, true)
  {
    VarIntAt(buf, off, |s|);
  }

  /** The parts of an input and where they are. */
  predicate InputPartsAt(buf: seq<Byte>, off: nat, i: Input, script: seq<Byte>, amount: seq<Byte>, start: nat) {
    && HasAt(buf, off, i.txHash) && HasAt(buf, off + 32, Le(i.index, 4))
    && start == off + 36 + |VarIntBytes(|script|)|
    && HasAt(buf, off + 36, VarIntBytes(|script|)) && HasAt(buf, start, script)
    && HasAt(buf, start + |script|, amount) && HasAt(buf, start + |script| + |amount|, Le(i.sequence, 4))
  }

  function ScriptOf(i: Input): seq<Byte> {
    BytesOf(if i.signature.Some? then i.signature else i.script)
  }

  function AmountOf(i: Input): seq<Byte> {
    if i.signature.None? && i.amount != 0 then Le(i.amount, 8) else []
  }

  lemma {:induction false} InputHasParts(buf: seq<Byte>, off: nat, i: Input)
    requires |i.txHash| == 32 && HasAt(buf, off, InputBytes(i))
    ensures InputPartsAt(buf, off, i, ScriptOf(i), AmountOf(i), off + 36 + |VarIntBytes(|ScriptOf(i)|)|)
    ensures |InputBytes(i)| == 40 + |VarIntBytes(|ScriptOf(i)|)| + |ScriptOf(i)| + |AmountOf(i)|
  {
    hide VarIntBytes;
    hide Le;
    hide HasAt;
    var script, amount, e := ScriptOf(i), AmountOf(i), Le(i.sequence, 4);
    var v := VarIntBytes(|script|);
    HasParts(buf, off, i.txHash, Le(i.index, 4) + (v + (script + (amount + e))));
    HasParts(buf, off + 32, Le(i.index, 4), v + (script + (amount + e)));
    HasParts(buf, off + 36, v, script + (amount + e));
    HasParts(buf, off + 36 + |v|, script, amount + e);
    HasParts(buf, off + 36 + |v| + |script|, amount, e);
  }

  lemma {:induction false} PartsComeBack(isScript: seq<Byte> -> bool, buf: seq<Byte>, off: nat, flagged: bool, i: Input, start: nat)
    requires InputFits(isScript, i) && InputPartsAt(buf, off, i, ScriptOf(i), AmountOf(i), start)
    ensures ParseInput(isScript, buf, off, flagged) == At(Carried(i, flagged), start + |ScriptOf(i)| + |AmountOf(i)| + 4)
  {
    hide VarIntBytes;
    hide VarInt;
    hide GetLe;
    hide Le;
    hide ParseField;
    hide FromLe;
    var script, amount := ScriptOf(i), AmountOf(i);
    Number32At(buf, off + 32, i.index);
    FieldAt(buf, off + 36, script);
    if i.signature.None? {
      Number64At(buf, start + |script|, i.amount);
    }
    Number32At(buf, start + |script| + |amount|, i.sequence);
  }

  lemma {:induction false} InputComesBack(isScript: seq<Byte> -> bool, buf: seq<Byte>, off: nat, flagged: bool, i: Input)
    requires InputFits(isScript, i) && HasAt(buf, off, InputBytes(i))
    ensures InputAt(isScript, buf, flagged)(off) == At(Carried(i, flagged), off + |InputBytes(i)|)
  {
    hide VarIntBytes;
    hide Le;
    hide HasAt;
    hide ParseInput;
    hide InputBytes;
    hide Carried;
    hide InputPartsAt;
    InputHasParts(buf, off, i);
    PartsComeBack(isScript, buf, off, flagged, i, off + 36 + |VarIntBytes(|ScriptOf(i)|)|);
  }

  lemma {:induction false} OutputComesBack(buf: seq<Byte>, off: nat, o: Output)
    requires OutputFits(o) && HasAt(buf, off, OutputBytes(o))
    ensures OutputAt(buf)(off) == At(o, off + |OutputBytes(o)|)
  {
    hide VarIntBytes;
    hide VarInt;
    hide GetLe;
    hide Le;
    hide ParseField;
    hide FromLe;
    HasParts(buf, off, Le(o.amount, 8), VarIntBytes(|o.script|) + o.script);
    Number64At(buf, off, o.amount);
    HasParts(buf, off + 8, VarIntBytes(|o.script|), o.script);
    FieldAt(buf, off + 8, o.script);
  }

  /** If each element comes back from wherever it stands, the list comes back. */
  lemma {:induction false} ManyComeBack<S, T>(bytes: S -> seq<Byte>, item: nat -> At<T>, view: S -> T,
                                              buf: seq<Byte>, off: nat, s: seq<S>)
    requires HasAt(buf, off, ManyBytes(bytes, s))
    requires forall k: nat, o: nat :: k < |s| && HasAt(buf, o, bytes(s[k])) ==>
      item(o) == At(view(s[k]), o + |bytes(s[k])|)
    ensures Many(item, |buf|, off, |s|).off == off + |ManyBytes(bytes, s)|
    ensures Many(item, |buf|, off, |s|).value == seq(|s|, k requires 0 <= k < |s| => view(s[k]))
  {
    hide HasAt;
    if |s| > 0 {
      var n := |s| - 1;
      HasParts(buf, off, ManyBytes(bytes, s[..n]), bytes(s[n]));
      ManyComeBack(bytes, item, view, buf, off, s[..n]);
      assert item(off + |ManyBytes(bytes, s[..n])|).value == view(s[n]);
    }
  }

  // the items of a witness, read from the front and from the back

  lemma {:induction false} ItemsLenFromFront(step: nat -> nat, off: nat, count: nat)
    ensures ItemsLen(step, off, count + 1) == step(off) + ItemsLen(step, off + step(off), count)
  {
    if count == 0 {
      assert ItemsLen(step, off, 0) == 0;
    } else {
      ItemsLenFromFront(step, off, count - 1);
    }
  }

  lemma {:induction false} VarIntStays(w: seq<Byte>, rest: seq<Byte>)
    requires |w| > 0 && VarInt(w).len <= |w|
    ensures VarInt(w + rest) == VarInt(w)
  {
    var n := VarInt(w).len - 1;
    assert (w + rest)[0] == w[0];
    assert (w + rest)[1..1 + n] == w[1..1 + n];
  }

  lemma {:induction false} ItemAt(buf: seq<Byte>, off: nat, w: seq<Byte>)
    requires 0 < |w| && FirstItem(w) <= |w| && HasAt(buf, off, w)
    ensures ItemLen(buf)(off) == FirstItem(w)
  {
    assert buf[off..] == w + buf[off + |w|..];
    VarIntStays(w, buf[off + |w|..]);
  }

  lemma {:induction false} FrontItem(w: seq<Byte>)
    requires 0 < |w| && Framed(w)
    ensures FirstItem(w) <= |w| && Framed(w[FirstItem(w)..]) && ItemCount(w) == 1 + ItemCount(w[FirstItem(w)..])
  {
  }

  lemma {:induction false} WitnessHasItsItems(buf: seq<Byte>, off: nat, w: seq<Byte>)
    requires Framed(w) && HasAt(buf, off, w)
    ensures ItemsLen(ItemLen(buf), off, ItemCount(w)) == |w|
    decreases |w|
  {
    hide *;
    if |w| == 0 {
      NoItems(ItemLen(buf), off, w);
    } else {
      var step := FirstItem(w);
      FrontItem(w);
      ItemAt(buf, off, w);
      AfterItem(buf, off, w, step);
      WitnessHasItsItems(buf, off + step, w[step..]);
      OneItemMore(buf, off, w, step, ItemCount(w[step..]));
    }
  }

  lemma {:induction false} NoItems(step: nat -> nat, off: nat, w: seq<Byte>)
    requires |w| == 0
    ensures ItemsLen(step, off, ItemCount(w)) == 0
  {
  }

  lemma {:induction false} AfterItem(buf: seq<Byte>, off: nat, w: seq<Byte>, step: nat)
    requires step <= |w| && HasAt(buf, off, w)
    ensures HasAt(buf, off + step, w[step..])
  {
    assert w == w[..step] + w[step..];
    HasParts(buf, off, w[..step], w[step..]);
  }

  lemma {:induction false} OneItemMore(buf: seq<Byte>, off: nat, w: seq<Byte>, step: nat, count: nat)
    requires ItemLen(buf)(off) == step <= |w| && ItemsLen(ItemLen(buf), off + step, count) == |w| - step
    ensures ItemsLen(ItemLen(buf), off, 1 + count) == |w|
  {
    ItemsLenFromFront(ItemLen(buf), off, count);
  }

  function WitnessOf(i: Input): Option<seq<Byte>> {
    Some(BytesOf(i.segwit))
  }

  lemma {:induction false} CountedItems(buf: seq<Byte>, off: nat, w: seq<Byte>, count: nat)
    requires count <= MAX64 && HasAt(buf, off, VarIntBytes(count)) && HasAt(buf, off + |VarIntBytes(count)|, w)
    requires ItemsLen(ItemLen(buf), off + |VarIntBytes(count)|, count) == |w|
    ensures ParseWitness(buf, off) == At(Some(w), off + |VarIntBytes(count)| + |w|)
  {
    hide VarIntBytes;
    hide VarInt;
    VarIntAt(buf, off, count);
  }

  function WitnessesOf(s: seq<Input>): (w: seq<Option<seq<Byte>>>)
    ensures |w| == |s|
  {
    seq(|s|, k requires 0 <= k < |s| => WitnessOf(s[k]))
  }

  lemma {:induction false} WitnessComesBack(buf: seq<Byte>, off: nat, i: Input)
    requires WitnessFits(i) && HasAt(buf, off, WitnessBytes(i))
    ensures WitnessAt(buf)(off) == At(WitnessOf(i), off + |WitnessBytes(i)|)
  {
    hide VarIntBytes;
    hide VarInt;
    hide ItemCount;
    hide ItemLen;
    hide ParseWitness;
    hide Framed;
    var w := BytesOf(i.segwit);
    HasParts(buf, off, VarIntBytes(ItemCount(w)), w);
    WitnessHasItsItems(buf, off + |VarIntBytes(ItemCount(w))|, w);
    CountedItems(buf, off, w, ItemCount(w));
  }

  function Carrying(flagged: bool): Input -> Input {
    i => Carried(i, flagged)
  }

  /** The body of a transaction as it is found at an offset. */
  predicate BodyAt(isScript: seq<Byte> -> bool, buf: seq<Byte>, off: nat, tx: Tx, flagged: bool) {
    var first := off + |VarIntBytes(|tx.inputs|)|;
    var ins := Many(InputAt(isScript, buf, flagged), |buf|, first, |tx.inputs|);
    var outCount := VarInt(Rest(buf, ins.off));
    && VarInt(Rest(buf, off)) == Read(|tx.inputs|, |VarIntBytes(|tx.inputs|)|)
    && ins.value == CarriedAll(tx.inputs, flagged)
    && outCount.value == |tx.outputs|
    && Many(OutputAt(buf), |buf|, ins.off + outCount.len, |tx.outputs|) == At(tx.outputs, off + |BodyBytes(tx)|)
  }

  lemma {:induction false} InputsComeBack(isScript: seq<Byte> -> bool, buf: seq<Byte>, off: nat, flagged: bool, s: seq<Input>)
    requires forall k :: 0 <= k < |s| ==> InputFits(isScript, s[k])
    requires HasAt(buf, off, ManyBytes(InputBytes, s))
    ensures Many(InputAt(isScript, buf, flagged), |buf|, off, |s|) ==
      At(CarriedAll(s, flagged), off + |ManyBytes(InputBytes, s)|)
  {
    hide HasAt;
    hide InputFits;
    hide ManyBytes;
    hide Many;
    hide Carried;
    hide InputBytes;
    hide ParseInput;
    forall k: nat, o: nat | k < |s| && HasAt(buf, o, InputBytes(s[k]))
      ensures InputAt(isScript, buf, flagged)(o) == At(Carrying(flagged)(s[k]), o + |InputBytes(s[k])|)
    {
      InputComesBack(isScript, buf, o, flagged, s[k]);
    }
    ManyComeBack(InputBytes, InputAt(isScript, buf, flagged), Carrying(flagged), buf, off, s);
    assert Many(InputAt(isScript, buf, flagged), |buf|, off, |s|).value == CarriedAll(s, flagged);
  }

  function Same(o: Output): Output { o }

  lemma {:induction false} OutputsComeBack(buf: seq<Byte>, off: nat, s: seq<Output>)
    requires forall k :: 0 <= k < |s| ==> OutputFits(s[k])
    requires HasAt(buf, off, ManyBytes(OutputBytes, s))
    ensures Many(OutputAt(buf), |buf|, off, |s|) == At(s, off + |ManyBytes(OutputBytes, s)|)
  {
    hide HasAt;
    hide OutputFits;
    hide ManyBytes;
    hide Many;
    hide OutputBytes;
    hide ParseOutput;
    forall k: nat, o: nat | k < |s| && HasAt(buf, o, OutputBytes(s[k]))
      ensures OutputAt(buf)(o) == At(Same(s[k]), o + |OutputBytes(s[k])|)
    {
      OutputComesBack(buf, o, s[k]);
    }
    ManyComeBack(OutputBytes, OutputAt(buf), Same, buf, off, s);
    var r := Many(OutputAt(buf), |buf|, off, |s|).value;
    forall k | 0 <= k < |s|
      ensures r[k] == s[k]
    {
      assert r[k] == Same(s[k]);
    }
    assert r == s;
  }

  lemma {:induction false} WitnessesComeBack(buf: seq<Byte>, off: nat, s: seq<Input>)
    requires forall k :: 0 <= k < |s| ==> WitnessFits(s[k])
    requires HasAt(buf, off, ManyBytes(WitnessBytes, s))
    ensures Many(WitnessAt(buf), |buf|, off, |s|) ==
      At(WitnessesOf(s), off + |ManyBytes(WitnessBytes, s)|)
  {
    hide HasAt;
    hide WitnessFits;
    hide ManyBytes;
    hide Many;
    hide WitnessBytes;
    hide ParseWitness;
    forall k: nat, o: nat | k < |s| && HasAt(buf, o, WitnessBytes(s[k]))
      ensures WitnessAt(buf)(o) == At(WitnessOf(s[k]), o + |WitnessBytes(s[k])|)
    {
      WitnessComesBack(buf, o, s[k]);
    }
    ManyComeBack(WitnessBytes, WitnessAt(buf), WitnessOf, buf, off, s);
    assert Many(WitnessAt(buf), |buf|, off, |s|).value == WitnessesOf(s);
  }

  lemma {:induction false} BodyComesBack(isScript: seq<Byte> -> bool, buf: seq<Byte>, off: nat, tx: Tx, flagged: bool)
    requires Fits(isScript, tx) && HasAt(buf, off, BodyBytes(tx))
    ensures BodyAt(isScript, buf, off, tx, flagged)
  {
    hide HasAt;
    hide VarIntBytes;
    hide VarInt;
    hide InputFits;
    hide OutputFits;
    hide WitnessFits;
    hide ManyBytes;
    hide Many;
    hide CarriedAll;
    var v, i := VarIntBytes(|tx.inputs|), ManyBytes(InputBytes, tx.inputs);
    var w, o := VarIntBytes(|tx.outputs|), ManyBytes(OutputBytes, tx.outputs);
    HasParts(buf, off, v, i + (w + o));
    VarIntAt(buf, off, |tx.inputs|);
    HasParts(buf, off + |v|, i, w + o);
    InputsComeBack(isScript, buf, off + |v|, flagged, tx.inputs);
    HasParts(buf, off + |v| + |i|, w, o);
    VarIntAt(buf, off + |v| + |i|, |tx.outputs|);
    OutputsComeBack(buf, off + |v| + |i| + |w|, tx.outputs);
  }

  // the witness-free serialization, which is what txHash commits to

  lemma {:induction false} BytesWithoutWitness(s: seq<Input>, t: seq<Input>)
    requires |s| == |t| && forall k :: 0 <= k < |s| ==> t[k] == s[k].(segwit := Some([]))
    ensures ManyBytes(InputBytes, t) == ManyBytes(InputBytes, s)
  {
    if |s| > 0 {
      var n := |s| - 1;
      BytesWithoutWitness(s[..n], t[..n]);
      assert InputBytes(t[n]) == InputBytes(s[n]);
    }
  }

  lemma {:induction false} StrippedBytes(tx: Tx)
    ensures Serialize(Strip(tx)) == Le(tx.version, 4) + (BodyBytes(tx) + Le(tx.lockTime, 4))
  {
    hide InputBytes;
    hide VarIntBytes;
    hide Le;
    BytesWithoutWitness(tx.inputs, Strip(tx).inputs);
  }

  lemma {:induction false} WithoutWitness(tx: Tx)
    requires !HasWitness(tx.inputs)
    ensures WithWitnesses(CarriedAll(tx.inputs, false), []) == ViewTx(tx).inputs
  {
  }

  lemma {:induction false} WitnessesPutBack(tx: Tx)
    ensures WithWitnesses(CarriedAll(tx.inputs, true), WitnessesOf(tx.inputs)) == ViewTx(tx).inputs
  {
  }

  predicate IsSigned(tx: Tx) {
    forall k :: 0 <= k < |tx.inputs| ==> tx.inputs[k].signature.Some?
  }

  lemma {:induction false} SignedView(isScript: seq<Byte> -> bool, tx: Tx)
    requires Fits(isScript, tx)
    ensures AllSigned(ViewTx(tx).inputs) == IsSigned(tx)
  {
    if !IsSigned(tx) {
      var k :| 0 <= k < |tx.inputs| && tx.inputs[k].signature.None?;
      assert InputFits(isScript, tx.inputs[k]);
      assert ViewTx(tx).inputs[k].script.Some?;
    }
  }

  /** What a serialized transaction is parsed to: the fields it carries, and the hashed bytes. */
  function Expected(tx: Tx): Parsed {
    if IsSigned(tx) then Parsed(ViewTx(tx), Some(Serialize(Strip(tx))), Some(Serialize(tx)))
    else Parsed(ViewTx(tx), None, None)
  }

  lemma {:induction false} PlainComesBack(isScript: seq<Byte> -> bool, tx: Tx, buf: seq<Byte>)
    requires Fits(isScript, tx) && !HasWitness(tx.inputs) && HasAt(buf, 0, Serialize(tx))
    ensures Parse(isScript, buf) == Some(Expected(tx))
  {
    hide Many;
    hide ManyBytes;
    hide VarInt;
    hide VarIntBytes;
    hide GetLe;
    hide Le;
    hide InputFits;
    hide OutputFits;
    hide WitnessFits;
    hide WithWitnesses;
    hide CarriedAll;
    hide BodyBytes;
    hide ViewTx;
    hide IsSigned;
    hide AllSigned;
    HasParts(buf, 0, Le(tx.version, 4), BodyBytes(tx) + Le(tx.lockTime, 4));
    HasParts(buf, 4, BodyBytes(tx), Le(tx.lockTime, 4));
    Number32At(buf, 0, tx.version);
    BodyComesBack(isScript, buf, 4, tx, false);
    Number32At(buf, 4 + |BodyBytes(tx)|, tx.lockTime);
    WithoutWitness(tx);
    SignedView(isScript, tx);
    StrippedBytes(tx);
    ViewFields(tx);
  }

  lemma {:induction false} ViewFields(tx: Tx)
    ensures ViewTx(tx) == Tx(tx.version, ViewTx(tx).inputs, tx.outputs, tx.lockTime)
  {
  }

  lemma {:induction false} FlagAt(buf: seq<Byte>, count: nat, len: nat)
    requires HasAt(buf, 4, [0, 1]) && VarInt(Rest(buf, 6)) == Read(count, len)
    ensures ParseHead(buf) == Head(1, count, 6 + len)
  {
    assert buf[4] == buf[4..6][0] == 0 && buf[5] == buf[4..6][1] == 1;
    assert buf[4..][0] == 0;
  }

  lemma {:induction false} FlaggedComesBack(isScript: seq<Byte> -> bool, tx: Tx, buf: seq<Byte>)
    requires Fits(isScript, tx) && HasWitness(tx.inputs) && HasAt(buf, 0, Serialize(tx))
    ensures Parse(isScript, buf) == Some(Expected(tx))
  {
    hide Many;
    hide ManyBytes;
    hide VarInt;
    hide VarIntBytes;
    hide GetLe;
    hide Le;
    hide InputFits;
    hide OutputFits;
    hide WitnessFits;
    hide WithWitnesses;
    hide CarriedAll;
    hide BodyBytes;
    hide ParseHead;
    hide ViewTx;
    hide IsSigned;
    hide AllSigned;
    hide WitnessOf;
    var b, w, l := BodyBytes(tx), ManyBytes(WitnessBytes, tx.inputs), Le(tx.lockTime, 4);
    HasParts(buf, 0, Le(tx.version, 4), [0, 1] + (b + (w + l)));
    Number32At(buf, 0, tx.version);
    HasParts(buf, 4, [0, 1], b + (w + l));
    HasParts(buf, 6, b, w + l);
    BodyComesBack(isScript, buf, 6, tx, true);
    FlagAt(buf, |tx.inputs|, |VarIntBytes(|tx.inputs|)|);
    HasParts(buf, 6 + |b|, w, l);
    WitnessesComeBack(buf, 6 + |b|, tx.inputs);
    Number32At(buf, 6 + |b| + |w|, tx.lockTime);
    WitnessesPutBack(tx);
    SignedView(isScript, tx);
    StrippedBytes(tx);
    ViewFields(tx);
  }

  /**
   * Reading back what was written gives the same transaction, whatever follows
   * it in the buffer. The bytes hashed for its txHash are the serialization
   * with the witnesses stripped, and those for its wtxHash are all of it.
   */
  lemma {:induction false} TransactionRoundTrips(isScript: seq<Byte> -> bool, tx: Tx, rest: seq<Byte>)
    requires Fits(isScript, tx)
    ensures Parse(isScript, Serialize(tx) + rest) == Some(Expected(tx))
  {
    hide *;
    if HasWitness(tx.inputs) {
      FrontAt(Serialize(tx), rest);
      FlaggedComesBack(isScript, tx, Serialize(tx) + rest);
    } else {
      FrontAt(Serialize(tx), rest);
      PlainComesBack(isScript, tx, Serialize(tx) + rest);
    }
  }

  lemma {:induction false} FrontAt(s: seq<Byte>, rest: seq<Byte>)
    ensures HasAt(s + rest, 0, s)
  {
  }

  // ------------------------------------------------------------------- sizes

  const OP_0: Byte := 0

  function VarIntSize(i: nat): nat {
    |VarIntBytes(i)|
  }

  predicate HasBoth(i: Input) {
    i.signature.Some? && i.segwit.Some?
  }

  predicate PaysToWitness(i: Input) {
    i.script.Some? && |i.script.value| > 0 && i.script.value[0] == OP_0
  }

  /** What an input adds to the size outside the witnesses: exact when signed, an estimate otherwise. */
  function InputSize(i: Input): nat {
    if HasBoth(i) then 32 + 4 + VarIntSize(|i.signature.value|) + |i.signature.value| + 4
    else if PaysToWitness(i) then 0
    else Bitcoin.TX_INPUT_SIZE
  }

  function WitnessSize(i: Input): nat {
    if HasBoth(i) then |i.segwit.value| else if PaysToWitness(i) then Bitcoin.TX_INPUT_SIZE else 0
  }

  function OutputSize(o: Output): nat {
    8 + VarIntSize(|o.script|) + |o.script|
  }

  function Sum<T>(f: T -> nat, s: seq<T>): nat {
    if |s| == 0 then 0 else Sum(f, s[..|s| - 1]) + f(s[|s| - 1])
  }

  function BaseSize(tx: Tx): nat {
    8 + VarIntSize(|tx.inputs|) + VarIntSize(|tx.outputs|) + Sum(InputSize, tx.inputs) + Sum(OutputSize, tx.outputs)
  }

  function WitnessesSize(tx: Tx): nat {
    var sum := Sum(WitnessSize, tx.inputs);
    if sum > 0 then sum + 2 + |tx.inputs| else 0
  }

  lemma {:induction false} SumGrows<T>(f: T -> nat, s: seq<T>, k: nat)
    requires k < |s|
    ensures Sum(f, s[..k + 1]) == Sum(f, s[..k]) + f(s[k])
  {
    assert s[..k + 1][..k] == s[..k];
  }

  /** The two loops that BRTransactionSize and BRTransactionVSize share. */
  method AddSizes(tx: Tx) returns (size: nat, witSize: nat)
    ensures size == BaseSize(tx) && witSize == WitnessesSize(tx)
  {
    hide VarIntBytes;
    size, witSize := 8 + VarIntSize(|tx.inputs|) + VarIntSize(|tx.outputs|), 0;
    ghost var start := size;
    for k := 0 to |tx.inputs|
      invariant size == start + Sum(InputSize, tx.inputs[..k])
      invariant witSize == Sum(WitnessSize, tx.inputs[..k])
    {
      SumGrows(InputSize, tx.inputs, k);
      SumGrows(WitnessSize, tx.inputs, k);
      var i := tx.inputs[k];
      if i.signature.Some? && i.segwit.Some? {
        size := size + 32 + 4 + VarIntSize(|i.signature.value|) + |i.signature.value| + 4;
        witSize := witSize + |i.segwit.value|;
      } else if i.script.Some? && |i.script.value| > 0 && i.script.value[0] == OP_0 {
        witSize := witSize + Bitcoin.TX_INPUT_SIZE;
      } else {
        size := size + Bitcoin.TX_INPUT_SIZE;
      }
    }
    assert tx.inputs[..|tx.inputs|] == tx.inputs;
    start := size;
    for k := 0 to |tx.outputs|
      invariant size == start + Sum(OutputSize, tx.outputs[..k])
    {
      SumGrows(OutputSize, tx.outputs, k);
      size := size + 8 + VarIntSize(|tx.outputs[k].script|) + |tx.outputs[k].script|;
    }
    assert tx.outputs[..|tx.outputs|] == tx.outputs;
    if witSize > 0 {
      witSize := witSize + 2 + |tx.inputs|;
    }
  }

  /** BRTransactionSize */
  method TransactionSize(tx: Tx) returns (size: nat)
    ensures size == BaseSize(tx) + WitnessesSize(tx)
    ensures IsComplete(tx) ==> size <= |Serialize(tx)|
    ensures IsComplete(tx) ==> (size == |Serialize(tx)| <==> CountsAreShort(tx))
  {
    var base, wit := AddSizes(tx);
    size := base + wit;
    if IsComplete(tx) {
      SizesAre(tx);
      ExcessIsZero(tx);
    }
  }

  /** BRTransactionVSize */
  method TransactionVSize(tx: Tx) returns (vsize: nat)
    ensures vsize == (4 * BaseSize(tx) + WitnessesSize(tx) + 3) / 4
    ensures IsComplete(tx) && CountsAreShort(tx) ==>
      vsize == (3 * |Serialize(Strip(tx))| + |Serialize(tx)| + 3) / 4
  {
    var base, wit := AddSizes(tx);
    vsize := (base * 4 + wit + 3) / 4;
    if IsComplete(tx) && CountsAreShort(tx) {
      SizesAre(tx);
      ExcessIsZero(tx);
    }
  }

  /** Every input is signed and has a witness, if only an empty one: BRTransactionIsSigned. */
  predicate IsComplete(tx: Tx) {
    forall k :: 0 <= k < |tx.inputs| ==> HasBoth(tx.inputs[k]) && |tx.inputs[k].txHash| == 32
  }

  /** The size functions allow one byte for the number of items of a witness. */
  function Excess(i: Input): nat {
    VarIntSize(ItemCount(BytesOf(i.segwit))) - 1
  }

  predicate CountsAreShort(tx: Tx) {
    HasWitness(tx.inputs) ==>
      forall k :: 0 <= k < |tx.inputs| ==> ItemCount(BytesOf(tx.inputs[k].segwit)) < 253
  }

  lemma {:induction false} LengthOfMany<T>(bytes: T -> seq<Byte>, f: T -> nat, s: seq<T>)
    requires forall k :: 0 <= k < |s| ==> |bytes(s[k])| == f(s[k])
    ensures |ManyBytes(bytes, s)| == Sum(f, s)
  {
    if |s| > 0 {
      LengthOfMany(bytes, f, s[..|s| - 1]);
    }
  }

  lemma {:induction false} OneWitnessLength(i: Input)
    requires HasBoth(i)
    ensures |WitnessBytes(i)| == WitnessSize(i) + 1 + Excess(i)
  {
    hide VarIntBytes;
    hide ItemCount;
  }

  lemma {:induction false} WitnessLengths(s: seq<Input>)
    requires forall k :: 0 <= k < |s| ==> HasBoth(s[k])
    ensures |ManyBytes(WitnessBytes, s)| == Sum(WitnessSize, s) + |s| + Sum(Excess, s)
  {
    hide WitnessBytes;
    hide WitnessSize;
    hide Excess;
    hide HasBoth;
    if |s| > 0 {
      var n := |s| - 1;
      WitnessLengths(s[..n]);
      OneWitnessLength(s[n]);
    }
  }

  lemma {:induction false} SumOfZeros<T>(f: T -> nat, s: seq<T>)
    ensures Sum(f, s) == 0 <==> forall k :: 0 <= k < |s| ==> f(s[k]) == 0
  {
    if |s| > 0 {
      SumOfZeros(f, s[..|s| - 1]);
      assert forall k :: 0 <= k < |s| - 1 ==> s[..|s| - 1][k] == s[k];
    }
  }

  lemma {:induction false} InputLength(i: Input)
    requires HasBoth(i) && |i.txHash| == 32
    ensures |InputBytes(i)| == InputSize(i)
  {
  }

  lemma {:induction false} BodyLength(tx: Tx)
    requires IsComplete(tx)
    ensures |BodyBytes(tx)| + 8 == BaseSize(tx)
  {
    hide VarIntBytes;
    hide InputBytes;
    hide InputSize;
    forall k | 0 <= k < |tx.inputs|
      ensures |InputBytes(tx.inputs[k])| == InputSize(tx.inputs[k])
    {
      InputLength(tx.inputs[k]);
    }
    LengthOfMany(InputBytes, InputSize, tx.inputs);
    LengthOfMany(OutputBytes, OutputSize, tx.outputs);
  }

  lemma {:induction false} WitnessSizes(tx: Tx)
    requires IsComplete(tx)
    ensures HasWitness(tx.inputs) <==> Sum(WitnessSize, tx.inputs) > 0
  {
    hide Sum;
    SumOfZeros(WitnessSize, tx.inputs);
    if HasWitness(tx.inputs) {
      var k :| 0 <= k < |tx.inputs| && BytesOf(tx.inputs[k].segwit) != [];
      assert WitnessSize(tx.inputs[k]) > 0;
    }
  }

  /** The computed sizes of a signed transaction against the bytes really written. */
  lemma {:induction false} SizesAre(tx: Tx)
    requires IsComplete(tx)
    ensures |Serialize(Strip(tx))| == BaseSize(tx)
    ensures |Serialize(tx)| == BaseSize(tx) + WitnessesSize(tx) + if HasWitness(tx.inputs) then Sum(Excess, tx.inputs) else 0
  {
    hide BodyBytes;
    hide BaseSize;
    hide Sum;
    hide Le;
    StrippedBytes(tx);
    BodyLength(tx);
    WitnessSizes(tx);
    WitnessLengths(tx.inputs);
  }

  lemma {:induction false} ShortCount(n: nat)
    ensures VarIntSize(n) == 1 <==> n < 253
  {
  }

  lemma {:induction false} ExcessIsZero(tx: Tx)
    ensures CountsAreShort(tx) <==> (HasWitness(tx.inputs) ==> Sum(Excess, tx.inputs) == 0)
  {
    hide VarIntBytes;
    hide ItemCount;
    hide Sum;
    SumOfZeros(Excess, tx.inputs);
    forall k | 0 <= k < |tx.inputs|
      ensures Excess(tx.inputs[k]) == 0 <==> ItemCount(BytesOf(tx.inputs[k].segwit)) < 253
    {
      ShortCount(ItemCount(BytesOf(tx.inputs[k].segwit)));
    }
  }
}
