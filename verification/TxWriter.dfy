/**
 * BRTransactionSerialize as it writes: an offset that moves over a buffer, a
 * missing buffer standing for a question about the length, and a buffer that
 * may be too short.
 */
module TxWriter {
  import opened Wire
  import opened TxWire
  import opened Buffer

  // ------------------------------------------- where the offset gets in a buffer

  /** A number that does not fit is skipped. */
  function PastVarInt(dataLen: nat, off: nat, i: nat): nat {
    if off + VarIntSize(i) <= dataLen then off + VarIntSize(i) else off
  }

  /** An input that does not fit is skipped. */
  function PastInput(dataLen: nat, off: nat, i: Input): nat {
    var end := PastVarInt(dataLen, off + |i.txHash| + 4, |ScriptOf(i)|) + |ScriptOf(i)| + |AmountOf(i)| + 4;
    if end <= dataLen then end else off
  }

  function PastOutput(dataLen: nat, off: nat, o: Output): nat {
    PastVarInt(dataLen, off + 8, |o.script|) + |o.script|
  }

  function PastWitness(dataLen: nat, off: nat, i: Input): nat {
    PastVarInt(dataLen, off, ItemCount(BytesOf(i.segwit))) + |BytesOf(i.segwit)|
  }

  function PastMany<T>(past: (nat, T) -> nat, off: nat, s: seq<T>): nat {
    if |s| == 0 then off else past(PastMany(past, off, s[..|s| - 1]), s[|s| - 1])
  }

  function PastInputs(dataLen: nat, off: nat, s: seq<Input>): nat {
    PastMany((o, i) => PastInput(dataLen, o, i), off, s)
  }

  /** Outputs that do not fit are skipped, all of them. */
  function PastOutputs(dataLen: nat, off: nat, s: seq<Output>): nat {
    var end := PastMany((o, output) => PastOutput(dataLen, o, output), off, s);
    if end <= dataLen then end else off
  }

  function PastWitnesses(dataLen: nat, off: nat, s: seq<Input>): nat {
    PastMany((o, i) => PastWitness(dataLen, o, i), off, s)
  }

  function PastBody(dataLen: nat, off: nat, tx: Tx): nat {
    PastOutputs(dataLen, PastVarInt(dataLen, PastInputs(dataLen, PastVarInt(dataLen, off, |tx.inputs|), tx.inputs),
                                    |tx.outputs|), tx.outputs)
  }

  /** Where the offset gets for a buffer of a length. */
  function PastAll(dataLen: nat, tx: Tx): nat {
    (if HasWitness(tx.inputs) then PastWitnesses(dataLen, PastBody(dataLen, 6, tx), tx.inputs)
     else PastBody(dataLen, 4, tx)) + 4
  }

  lemma {:induction false} PastManyIs<T>(past: (nat, T) -> nat, bytes: T -> seq<Byte>, dataLen: nat, off: nat, s: seq<T>)
    requires forall o: nat, x: T :: past(o, x) <= o + |bytes(x)|
    requires forall o: nat, x: T :: o + |bytes(x)| <= dataLen ==> past(o, x) == o + |bytes(x)|
    ensures PastMany(past, off, s) <= off + |ManyBytes(bytes, s)|
    ensures off + |ManyBytes(bytes, s)| <= dataLen ==> PastMany(past, off, s) == off + |ManyBytes(bytes, s)|
  {
    if |s| > 0 {
      PastManyIs(past, bytes, dataLen, off, s[..|s| - 1]);
    }
  }

  /** The offset gets no further than the bytes, and as far if they fit. */
  predicate Gets(dataLen: nat, off: nat, off': nat, n: nat) {
    off' <= off + n && (off + n <= dataLen ==> off' == off + n)
  }

  lemma {:induction false} InputsGet(dataLen: nat, off: nat, s: seq<Input>)
    ensures Gets(dataLen, off, PastInputs(dataLen, off, s), |ManyBytes(InputBytes, s)|)
  {
    hide VarIntBytes;
    PastManyIs((o, i) => PastInput(dataLen, o, i), InputBytes, dataLen, off, s);
  }

  lemma {:induction false} OutputsGet(dataLen: nat, off: nat, s: seq<Output>)
    ensures Gets(dataLen, off, PastOutputs(dataLen, off, s), |ManyBytes(OutputBytes, s)|)
  {
    hide VarIntBytes;
    PastManyIs((o, output) => PastOutput(dataLen, o, output), OutputBytes, dataLen, off, s);
  }

  lemma {:induction false} WitnessesGet(dataLen: nat, off: nat, s: seq<Input>)
    ensures Gets(dataLen, off, PastWitnesses(dataLen, off, s), |ManyBytes(WitnessBytes, s)|)
  {
    hide VarIntBytes;
    hide ItemCount;
    PastManyIs((o, i) => PastWitness(dataLen, o, i), WitnessBytes, dataLen, off, s);
  }

  lemma {:induction false} BodyGets(dataLen: nat, off: nat, tx: Tx)
    ensures Gets(dataLen, off, PastBody(dataLen, off, tx), |BodyBytes(tx)|)
  {
    hide VarIntBytes;
    hide ManyBytes;
    hide PastInputs;
    hide PastOutputs;
    var first := PastVarInt(dataLen, off, |tx.inputs|);
    InputsGet(dataLen, first, tx.inputs);
    var second := PastVarInt(dataLen, PastInputs(dataLen, first, tx.inputs), |tx.outputs|);
    OutputsGet(dataLen, second, tx.outputs);
  }

  /** Skipping only shortens, and nothing is skipped where everything fits. */
  lemma {:induction false} PastAllIs(dataLen: nat, tx: Tx)
    ensures PastAll(dataLen, tx) <= |Serialize(tx)|
    ensures |Serialize(tx)| <= dataLen ==> PastAll(dataLen, tx) == |Serialize(tx)|
  {
    hide BodyBytes;
    hide PastBody;
    hide ManyBytes;
    hide PastWitnesses;
    BodyGets(dataLen, 4, tx);
    BodyGets(dataLen, 6, tx);
    WitnessesGet(dataLen, PastBody(dataLen, 6, tx), tx.inputs);
  }

  /** A buffer of ten bytes for a transaction with an input: the input is skipped, and the rest fits. */
  lemma {:induction false} ShortBufferIsFilled(i: Input)
    requires |i.txHash| == 32 && BytesOf(i.segwit) == []
    ensures var tx := Tx(1, [i], [], 0); PastAll(10, tx) == 10 && |Serialize(tx)| > 10
  {
    var tx := Tx(1, [i], [], 0);
    assert [i][..0] == [] && !HasWitness([i]);
    assert PastInput(10, 5, i) == 5;
    assert PastInputs(10, 5, [i]) == PastInput(10, PastInputs(10, 5, [i][..0]), i);
    assert PastInputs(10, 5, [i]) == 5;
    assert ManyBytes(InputBytes, [i]) == ManyBytes(InputBytes, []) + InputBytes(i);
    assert |InputBytes(i)| > 32;
  }

  /** The same for outputs: they are skipped together. */
  lemma {:induction false} ShortBufferSkipsOutputs(o: Output)
    ensures var tx := Tx(1, [], [o], 0); PastAll(10, tx) == 10 && |Serialize(tx)| > 10
  {
    var tx := Tx(1, [], [o], 0);
    assert [o][..0] == [] && !HasWitness([]);
    assert PastInputs(10, 5, []) == 5;
    var past := (x: nat, output: Output) => PastOutput(10, x, output);
    assert PastMany(past, 6, [o][..0]) == 6;
    assert PastMany(past, 6, [o]) == PastOutput(10, 6, o) > 10;
    assert PastOutputs(10, 6, [o]) == 6;
    assert ManyBytes(OutputBytes, [o]) == ManyBytes(OutputBytes, []) + OutputBytes(o);
  }

  // --------------------------------------------------------------- the procedures

  /** `off += BRVarIntSet(...)`, which does not move on when there is no room. */
  method PutVarInt(data: array?<Byte>, dataLen: nat, off: nat, i: nat) returns (off': nat)
    requires data != null ==> dataLen <= data.Length
    modifies data
    ensures off' >= off && Wrote(data, dataLen, off, off', VarIntBytes(i))
    ensures data != null ==> off' == PastVarInt(dataLen, off, i)
  {
    off' := off;
    if data == null || off + VarIntSize(i) <= dataLen {
      off' := Put(data, dataLen, off, VarIntBytes(i));
    }
  }

  /** `_BRTxInputData`: the end of the input, or 0 bytes when it does not fit. */
  method PutInput(data: array?<Byte>, dataLen: nat, off: nat, i: Input) returns (off': nat)
    requires data != null ==> dataLen <= data.Length
    modifies data
    ensures off' >= off && Wrote(data, dataLen, off, off', InputBytes(i))
    ensures data != null ==> off' == PastInput(dataLen, off, i)
  {
    hide VarIntBytes;
    hide Le;
    var script, amount := ScriptOf(i), AmountOf(i);
    off' := Put(data, dataLen, off, i.txHash);
    off' := Put(data, dataLen, off', Le(i.index, 4));
    off' := PutVarInt(data, dataLen, off', |script|);
    off' := Put(data, dataLen, off', script);
    off' := Put(data, dataLen, off', amount);
    off' := Put(data, dataLen, off', Le(i.sequence, 4));
    if data != null && off' > dataLen {
      off' := off;
    }
  }

  lemma {:induction false} ManyGrows<T>(bytes: T -> seq<Byte>, s: seq<T>, k: nat)
    requires k < |s|
    ensures ManyBytes(bytes, s[..k + 1]) == ManyBytes(bytes, s[..k]) + bytes(s[k])
  {
    assert s[..k + 1][..k] == s[..k];
  }

  method PutInputs(data: array?<Byte>, dataLen: nat, off: nat, s: seq<Input>) returns (off': nat)
    requires data != null ==> dataLen <= data.Length
    modifies data
    ensures off' >= off && Wrote(data, dataLen, off, off', ManyBytes(InputBytes, s))
    ensures data != null ==> off' == PastInputs(dataLen, off, s)
  {
    hide InputBytes;
    hide PastInput;
    off' := off;
    for k := 0 to |s|
      invariant off' >= off && Wrote(data, dataLen, off, off', ManyBytes(InputBytes, s[..k]))
      invariant data != null ==> off' == PastInputs(dataLen, off, s[..k])
    {
      assert s[..k + 1][..k] == s[..k];
      ManyGrows(InputBytes, s, k);
      off' := PutInput(data, dataLen, off', s[k]);
    }
    assert s[..|s|] == s;
  }

  /** `_BRTransactionOutputData` for all outputs: their end, or 0 bytes when they do not fit. */
  method PutOutputs(data: array?<Byte>, dataLen: nat, off: nat, s: seq<Output>) returns (off': nat)
    requires data != null ==> dataLen <= data.Length
    modifies data
    ensures off' >= off && Wrote(data, dataLen, off, off', ManyBytes(OutputBytes, s))
    ensures data != null ==> off' == PastOutputs(dataLen, off, s)
  {
    hide OutputBytes;
    hide PastOutput;
    off' := off;
    for k := 0 to |s|
      invariant off' >= off && Wrote(data, dataLen, off, off', ManyBytes(OutputBytes, s[..k]))
      invariant data != null ==> off' == PastMany((o, output) => PastOutput(dataLen, o, output), off, s[..k])
    {
      assert s[..k + 1][..k] == s[..k];
      ManyGrows(OutputBytes, s, k);
      off' := PutOutput(data, dataLen, off', s[k]);
    }
    assert s[..|s|] == s;
    if data != null && off' > dataLen {
      off' := off;
    }
  }

  method PutOutput(data: array?<Byte>, dataLen: nat, off: nat, o: Output) returns (off': nat)
    requires data != null ==> dataLen <= data.Length
    modifies data
    ensures off' >= off && Wrote(data, dataLen, off, off', OutputBytes(o))
    ensures data != null ==> off' == PastOutput(dataLen, off, o)
  {
    hide VarIntBytes;
    hide Le;
    off' := Put(data, dataLen, off, Le(o.amount, 8));
    off' := PutVarInt(data, dataLen, off', |o.script|);
    off' := Put(data, dataLen, off', o.script);
  }

  /** The loop that counts the items of a witness. */
  method CountItems(w: seq<Byte>) returns (count: nat)
    ensures count == ItemCount(w)
  {
    count := 0;
    var woff := 0;
    while woff < |w|
      invariant 0 <= woff && ItemCount(w) == count + if woff < |w| then ItemCount(w[woff..]) else 0
      decreases |w| - woff
    {
      var item := VarInt(w[woff..]);
      NextItem(w, woff, item.len + item.value);
      woff := woff + item.len + item.value;
      count := count + 1;
    }
  }

  lemma {:induction false} NextItem(w: seq<Byte>, woff: nat, step: nat)
    requires woff < |w| && step == FirstItem(w[woff..])
    ensures ItemCount(w[woff..]) == 1 + if woff + step < |w| then ItemCount(w[woff + step..]) else 0
  {
    hide VarInt;
    if woff + step < |w| {
      assert w[woff..][step..] == w[woff + step..];
    }
  }

  method PutWitnesses(data: array?<Byte>, dataLen: nat, off: nat, s: seq<Input>) returns (off': nat)
    requires data != null ==> dataLen <= data.Length
    modifies data
    ensures off' >= off && Wrote(data, dataLen, off, off', ManyBytes(WitnessBytes, s))
    ensures data != null ==> off' == PastWitnesses(dataLen, off, s)
  {
    hide VarIntBytes;
    hide ItemCount;
    off' := off;
    for k := 0 to |s|
      invariant off' >= off && Wrote(data, dataLen, off, off', ManyBytes(WitnessBytes, s[..k]))
      invariant data != null ==> off' == PastWitnesses(dataLen, off, s[..k])
    {
      assert s[..k + 1][..k] == s[..k];
      ManyGrows(WitnessBytes, s, k);
      off' := PutWitness(data, dataLen, off', BytesOf(s[k].segwit));
    }
    assert s[..|s|] == s;
  }

  method PutWitness(data: array?<Byte>, dataLen: nat, off: nat, w: seq<Byte>) returns (off': nat)
    requires data != null ==> dataLen <= data.Length
    modifies data
    ensures off' >= off && Wrote(data, dataLen, off, off', VarIntBytes(ItemCount(w)) + w)
    ensures data != null ==> off' == PastVarInt(dataLen, off, ItemCount(w)) + |w|
  {
    hide VarIntBytes;
    hide ItemCount;
    var count := CountItems(w);
    off' := PutVarInt(data, dataLen, off, count);
    off' := Put(data, dataLen, off', w);
  }

  method PutBody(data: array?<Byte>, dataLen: nat, off: nat, tx: Tx) returns (off': nat)
    requires data != null ==> dataLen <= data.Length
    modifies data
    ensures off' >= off && Wrote(data, dataLen, off, off', BodyBytes(tx))
    ensures data != null ==> off' == PastBody(dataLen, off, tx)
  {
    hide PastInputs;
    hide PastOutputs;
    hide VarIntBytes;
    hide ManyBytes;
    off' := PutVarInt(data, dataLen, off, |tx.inputs|);
    off' := PutInputs(data, dataLen, off', tx.inputs);
    off' := PutVarInt(data, dataLen, off', |tx.outputs|);
    off' := PutOutputs(data, dataLen, off', tx.outputs);
  }

  lemma {:induction false} SerializeIsLong(tx: Tx)
    ensures |Serialize(tx)| > 8
  {
    hide ManyBytes;
  }

  /**
   * BRTransactionSerialize: without a buffer, the length of the serialization;
   * with one that is long enough, the serialization itself. In a buffer that is
   * too short what does not fit is skipped; the result is then 0 exactly when
   * the rest does not fit either, and otherwise a number below the length needed.
   */
  method SerializeTo(tx: Tx, data: array?<Byte>, dataLen: nat) returns (n: nat)
    requires data != null ==> dataLen <= data.Length
    modifies data
    ensures data == null ==> n == |Serialize(tx)|
    ensures data != null && |Serialize(tx)| <= dataLen ==> n == |Serialize(tx)| && data[..n] == Serialize(tx)
    ensures data != null ==> n == if PastAll(dataLen, tx) <= dataLen then PastAll(dataLen, tx) else 0
    ensures data != null ==> (n == |Serialize(tx)| <==> |Serialize(tx)| <= dataLen)
  {
    hide PastBody;
    hide PastWitnesses;
    SerializeIsLong(tx);
    hide Le;
    hide BodyBytes;
    hide ManyBytes;
    var flagged := HasWitness(tx.inputs);
    var off := Put(data, dataLen, 0, Le(tx.version, 4));
    if flagged {
      off := Put(data, dataLen, off, [0, 1]);
    }
    off := PutBody(data, dataLen, off, tx);
    if flagged {
      off := PutWitnesses(data, dataLen, off, tx.inputs);
    }
    off := Put(data, dataLen, off, Le(tx.lockTime, 4));
    n := if data == null || off <= dataLen then off else 0;
  }
}
