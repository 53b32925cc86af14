/** BRTransactionParse as it reads: counts, and an offset that moves until it leaves the buffer. */
module TxReader {
  import opened Wrappers
  import opened Wire
  import opened TxWire

  lemma {:induction false} ManyStops<T>(item: nat -> At<T>, end: nat, off: nat, i: nat, n: nat)
    requires i <= n && Many(item, end, off, i).off > end
    ensures Many(item, end, off, n) == Many(item, end, off, i)
    decreases n
  {
    if i < n {
      ManyStops(item, end, off, i, n - 1);
    }
  }

  method ReadInputs(isScript: seq<Byte> -> bool, buf: seq<Byte>, start: nat, flagged: bool, n: nat)
    returns (ins: seq<Input>, off: nat)
    ensures At(ins, off) == Many(InputAt(isScript, buf, flagged), |buf|, start, n)
  {
    hide ParseInput;
    ins, off := [], start;
    var i := 0;
    while off <= |buf| && i < n
      invariant i <= n && At(ins, off) == Many(InputAt(isScript, buf, flagged), |buf|, start, i)
      decreases n - i
    {
      var r := ParseInput(isScript, buf, off, flagged);
      ins, off := ins + [r.value], r.off;
      i := i + 1;
    }
    if i < n {
      ManyStops(InputAt(isScript, buf, flagged), |buf|, start, i, n);
    }
  }

  method ReadOutputs(buf: seq<Byte>, start: nat, n: nat) returns (outs: seq<Output>, off: nat)
    ensures At(outs, off) == Many(OutputAt(buf), |buf|, start, n)
  {
    hide ParseOutput;
    outs, off := [], start;
    var i := 0;
    while off <= |buf| && i < n
      invariant i <= n && At(outs, off) == Many(OutputAt(buf), |buf|, start, i)
      decreases n - i
    {
      var r := ParseOutput(buf, off);
      outs, off := outs + [r.value], r.off;
      i := i + 1;
    }
    if i < n {
      ManyStops(OutputAt(buf), |buf|, start, i, n);
    }
  }

  /** One witness: its items are only measured. */
  method ReadWitness(buf: seq<Byte>, start: nat) returns (w: Option<seq<Byte>>, off: nat)
    ensures At(w, off) == ParseWitness(buf, start)
  {
    hide VarInt;
    var count := VarInt(Rest(buf, start));
    off := start + count.len;
    var len, j := 0, 0;
    while j < count.value
      invariant 0 <= j <= count.value && len == ItemsLen(ItemLen(buf), off, j)
    {
      var item := VarInt(Rest(buf, off + len));
      len := len + item.value + item.len;
      j := j + 1;
    }
    w := if off + len <= |buf| then Some(buf[off..off + len]) else None;
    off := off + len;
  }

  lemma {:induction false} MoreWitnesses(s: seq<Input>, w: seq<Option<seq<Byte>>>, one: Option<seq<Byte>>)
    requires |w| < |s|
    ensures WithWitnesses(s, w + [one]) ==
      if one.Some? then WithWitnesses(s, w)[|w| := WithWitnesses(s, w)[|w|].(segwit := one)] else WithWitnesses(s, w)
  {
  }

  /** The last loop, which sets the witnesses of the inputs one by one. */
  method ReadWitnesses(buf: seq<Byte>, start: nat, s: seq<Input>) returns (ins: seq<Input>, off: nat)
    ensures var w := Many(WitnessAt(buf), |buf|, start, |s|);
      off == w.off && ins == WithWitnesses(s, w.value)
  {
    hide WithWitnesses;
    hide ParseWitness;
    NoWitnesses(s);
    ins, off := s, start;
    ghost var ws: seq<Option<seq<Byte>>> := [];
    var i := 0;
    while off <= |buf| && i < |s|
      invariant 0 <= i <= |s| && |ws| == i && At(ws, off) == Many(WitnessAt(buf), |buf|, start, i)
      invariant ins == WithWitnesses(s, ws)
      decreases |s| - i
    {
      var w, end := ReadWitness(buf, off);
      MoreWitnesses(s, ws, w);
      if w.Some? {
        ins := ins[i := ins[i].(segwit := w)];
      }
      ws, off := ws + [w], end;
      i := i + 1;
    }
    if i < |s| {
      ManyStops(WitnessAt(buf), |buf|, start, i, |s|);
    }
  }

  lemma {:induction false} NoWitnesses(s: seq<Input>)
    ensures WithWitnesses(s, []) == s
  {
  }

  /** BRTransactionParse; what it returns for a serialized transaction is lemma TransactionRoundTrips. */
  method ParseFrom(isScript: seq<Byte> -> bool, buf: seq<Byte>) returns (r: Option<Parsed>)
    ensures r == Parse(isScript, buf)
  {
    hide Many;
    hide VarInt;
    hide ParseHead;
    hide GetLe;
    hide Finish;
    hide WithWitnesses;
    var version := GetLe(buf, 0, 4);
    var head := ParseHead(buf);
    var flagged := head.flag != 0;
    var ins, off := ReadInputs(isScript, buf, head.off, flagged, head.count);
    var outCount := VarInt(Rest(buf, off));
    var outs;
    outs, off := ReadOutputs(buf, off + outCount.len, outCount.value);
    var witnessOff := off;
    if flagged {
      ins, off := ReadWitnesses(buf, off, ins);
    } else {
      NoWitnesses(ins);
    }
    if head.count == 0 || off + 4 > |buf| {
      r := None;
    } else {
      r := Some(Finish(buf, version, flagged, ins, At(outs, witnessOff), off));
    }
  }
}
