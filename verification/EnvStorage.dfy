/**
  The configuration in JVMTI environment-local storage (`phasicj/agent/jvm/env_storage.rs`): written to raw memory
  when the agent is loaded, read back in every callback, released when the virtual machine dies; all the while the
  class file load hook (`phasicj/agent/jvm/events.rs`) and the machine itself use the same memory.
 */
module EnvStorage {
  import opened Wrappers
  import opened Utf8
  import opened RawMemory
  import opened AgentConf
  import ClassFiles

  // ---------------------------------------------------------------- little-endian words

  function ToBytes(n: nat, k: nat): (r: seq<byte>)
    ensures |r| == k
  {
    if k == 0 then [] else [n % 256] + ToBytes(n / 256, k - 1)
  }

  function FromBytes(b: seq<byte>): nat {
    if b == [] then 0 else b[0] + 256 * FromBytes(b[1..])
  }

  function Power256(k: nat): nat {
    if k == 0 then 1 else 256 * Power256(k - 1)
  }

  lemma {:induction false} WordRoundTrip(n: nat, k: nat)
    requires n < Power256(k)
    ensures FromBytes(ToBytes(n, k)) == n
  {
    if k == 0 {
    } else {
      WordRoundTrip(n / 256, k - 1);
      assert ToBytes(n, k)[1..] == ToBytes(n / 256, k - 1);
    }
  }

  lemma {:induction false} AddressRoundTrip(n: nat)
    requires n < SPACE
    ensures FromBytes(ToBytes(n, 8)) == n
  {
    assert Power256(8) == 256 * (256 * (256 * (256 * Power256(4))));
    assert Power256(4) == 0x1_0000_0000;
    WordRoundTrip(n, 8);
  }

  lemma {:induction false} FromBytesStep(b: seq<byte>, k: nat)
    requires k < |b|
    ensures FromBytes(b[k..]) == b[k] as int + 256 * FromBytes(b[k + 1..])
  {
    assert b[k..][1..] == b[k + 1..];
  }

  /** Words are little-endian. */
  lemma {:induction false} LittleEndian(b: seq<byte>)
    requires |b| == 8
    ensures FromBytes(b) == b[0] as int + 0x100 * b[1] as int + 0x1_0000 * b[2] as int + 0x100_0000 * b[3] as int
        + 0x1_0000_0000 * b[4] as int + 0x100_0000_0000 * b[5] as int
        + 0x1_0000_0000_0000 * b[6] as int + 0x100_0000_0000_0000 * b[7] as int
  {
    hide FromBytes;
    assert b[0..] == b;
    FromBytesStep(b, 0);
    FromBytesStep(b, 1);
    FromBytesStep(b, 2);
    FromBytesStep(b, 3);
    FromBytesStep(b, 4);
    FromBytesStep(b, 5);
    FromBytesStep(b, 6);
    FromBytesStep(b, 7);
    FromNothing(b[8..]);
  }

  lemma {:induction false} FromNothing(b: seq<byte>)
    requires b == []
    ensures FromBytes(b) == 0
  {}

  // ---------------------------------------------------------------- the record

  /** `RawEnvStorage`. With `repr(C)` on a 64-bit machine the fields are at 0, 8, 16, 24 and 25. */
  datatype RawEnvStorage = RawEnvStorage(verbose: bool, execPtr: nat, execLen: nat, dumpBefore: bool, dumpAfter: bool)

  const SIZE := 32
  const ALIGN := 8

  function BoolByte(b: bool): byte { if b then 1 else 0 }

  /** Writes the fields and leaves the padding as it is. */
  function WriteRecord(m: Memory, p: nat, r: RawEnvStorage): Memory {
    var m1 := Store(m, p, [BoolByte(r.verbose)]);
    var m2 := Store(m1, p + 8, ToBytes(r.execPtr, 8));
    var m3 := Store(m2, p + 16, ToBytes(r.execLen, 8));
    Store(m3, p + 24, [BoolByte(r.dumpBefore), BoolByte(r.dumpAfter)])
  }

  /** None if the memory is not there or holds no valid record: a `bool` other than 0 or 1. */
  function ReadRecord(m: Memory, p: nat): Option<RawEnvStorage> {
    if !Mapped(m, p, SIZE) then None
    else
      var b := Load(m, p, SIZE);
      if b[0] > 1 || b[24] > 1 || b[25] > 1 then None
      else Some(RawEnvStorage(b[0] == 1, FromBytes(b[8..16]), FromBytes(b[16..24]), b[24] == 1, b[25] == 1))
  }

  /** Each field is where it belongs: flags as one byte, 0 or 1, the address and the length as 8-byte words. */
  lemma {:induction false} FieldsWritten(m: Memory, p: nat, r: RawEnvStorage)
    ensures var m' := WriteRecord(m, p, r);
            && Holds(m', p, [if r.verbose then 1 else 0]) && Holds(m', p + 8, ToBytes(r.execPtr, 8))
            && Holds(m', p + 16, ToBytes(r.execLen, 8))
            && Holds(m', p + 24, [if r.dumpBefore then 1 else 0, if r.dumpAfter then 1 else 0])
  {
    var a, b, c, d := [BoolByte(r.verbose)], ToBytes(r.execPtr, 8), ToBytes(r.execLen, 8),
        [BoolByte(r.dumpBefore), BoolByte(r.dumpAfter)];
    var m1 := Store(m, p, a);
    var m2 := Store(m1, p + 8, b);
    var m3 := Store(m2, p + 16, c);
    StoreHolds(m, p, a);
    StoreHolds(m1, p + 8, b);
    StoreHolds(m2, p + 16, c);
    StoreHolds(m3, p + 24, d);
    StoreElsewhere(m1, p + 8, b, p, a);
    StoreElsewhere(m2, p + 16, c, p, a);
    StoreElsewhere(m2, p + 16, c, p + 8, b);
    StoreElsewhere(m3, p + 24, d, p, a);
    StoreElsewhere(m3, p + 24, d, p + 8, b);
    StoreElsewhere(m3, p + 24, d, p + 16, c);
  }

  /** Writing the record touches its 32 bytes only. */
  lemma {:induction false} WriteRecordLocal(m: Memory, p: nat, r: RawEnvStorage)
    ensures SameOutside(m, WriteRecord(m, p, r), p, SIZE)
  {
    hide Store, SameOutside, ToBytes;
    SameAsItself(m, p, SIZE);
    var m1 := Store(m, p, [BoolByte(r.verbose)]);
    var m2 := Store(m1, p + 8, ToBytes(r.execPtr, 8));
    var m3 := Store(m2, p + 16, ToBytes(r.execLen, 8));
    StoreInside(m, m, p, SIZE, 0, [BoolByte(r.verbose)]);
    StoreInside(m, m1, p, SIZE, 8, ToBytes(r.execPtr, 8));
    StoreInside(m, m2, p, SIZE, 16, ToBytes(r.execLen, 8));
    StoreInside(m, m3, p, SIZE, 24, [BoolByte(r.dumpBefore), BoolByte(r.dumpAfter)]);
  }

  lemma {:induction false} RecordRead(m: Memory, p: nat, r: RawEnvStorage)
    requires Mapped(m, p, SIZE) && r.execPtr < SPACE && r.execLen < SPACE
    requires Holds(m, p, [BoolByte(r.verbose)]) && Holds(m, p + 8, ToBytes(r.execPtr, 8))
    requires Holds(m, p + 16, ToBytes(r.execLen, 8))
        && Holds(m, p + 24, [BoolByte(r.dumpBefore), BoolByte(r.dumpAfter)])
    ensures ReadRecord(m, p) == Some(r)
  {
    var b := Load(m, p, SIZE);
    LoadPart(m, p, SIZE, 0, [BoolByte(r.verbose)]);
    LoadPart(m, p, SIZE, 8, ToBytes(r.execPtr, 8));
    LoadPart(m, p, SIZE, 16, ToBytes(r.execLen, 8));
    LoadPart(m, p, SIZE, 24, [BoolByte(r.dumpBefore), BoolByte(r.dumpAfter)]);
    assert b[0] == b[0..1][0] && b[24] == b[24..26][0] && b[25] == b[24..26][1];
    AddressRoundTrip(r.execPtr);
    AddressRoundTrip(r.execLen);
  }

  /** What counts as a record: 32 bytes that are there, of which the three flags are 0 or 1. */
  lemma {:induction false} RecordReadIff(m: Memory, p: nat)
    ensures ReadRecord(m, p).Some? <==>
            Mapped(m, p, 32) && m.cells[p] in {0, 1} && m.cells[p + 24] in {0, 1} && m.cells[p + 25] in {0, 1}
    ensures ReadRecord(m, p).Some? ==>
              var r := ReadRecord(m, p).value;
              && (r.verbose <==> m.cells[p] == 1)
              && (r.dumpBefore <==> m.cells[p + 24] == 1) && (r.dumpAfter <==> m.cells[p + 25] == 1)
              && r.execPtr == FromBytes(Load(m, p, 32)[8..16]) && r.execLen == FromBytes(Load(m, p, 32)[16..24])
  {
    if Mapped(m, p, SIZE) {
      var b := Load(m, p, SIZE);
      assert b[0] == m.cells[p + 0] && b[24] == m.cells[p + 24] && b[25] == m.cells[p + 25];
    }
  }

  /** A record that was written is read back, whatever the padding holds. */
  lemma {:induction false} ReadWritten(m: Memory, p: nat, r: RawEnvStorage)
    requires Mapped(m, p, SIZE) && r.execPtr < SPACE && r.execLen < SPACE
    ensures ReadRecord(WriteRecord(m, p, r), p) == Some(r)
  {
    FieldsWritten(m, p, r);
    WriteRecordLocal(m, p, r);
    RecordRead(WriteRecord(m, p, r), p, r);
  }

  // ---------------------------------------------------------------- init, of, free

  /** The environment as the agent sees it: memory and the storage slot. */
  datatype Env = Env(memory: Memory, slot: nat)

  /** How a call ends: normally, with a panic, or with an access Rust gives no meaning to. */
  datatype Outcome = Fine(env: Env) | Panics(env: Env) | Undefined

  datatype Reading = Absent | Found(conf: Conf) | Unreadable

  /** `to_env_storage`. */
  function ToEnvStorage(m: Memory, r: RawEnvStorage): Reading {
    if r.execPtr == 0 then Found(Conf(r.verbose, None, r.dumpBefore, r.dumpAfter))
    else if !Mapped(m, r.execPtr, r.execLen) then Unreadable
    else
      var s := Decode(Load(m, r.execPtr, r.execLen));
      if s.None? then Unreadable else Found(Conf(r.verbose, s, r.dumpBefore, r.dumpAfter))
  }

  /** `of`. */
  function Of(e: Env): Reading {
    if e.slot == 0 then Absent
    else
      var r := ReadRecord(e.memory, e.slot);
      if r.None? then Unreadable else ToEnvStorage(e.memory, r.value)
  }

  /** `from_conf`: copies the path, if there is one, and fills in the record; None is a panic. */
  function FromConf(m: Memory, c: Conf, exec: Answer): Option<(Memory, RawEnvStorage)> {
    if c.phasicjExec.None? then Some((m, RawEnvStorage(c.verbose, 0, 0, c.dumpBefore, c.dumpAfter)))
    else
      var bytes := Encode(c.phasicjExec.value);
      var r := Allocate(m, |bytes|, Agent, exec);
      if bytes == [] || r.None? then None
      else Some((Store(r.value.0, r.value.1, bytes),
          RawEnvStorage(c.verbose, r.value.1, |bytes|, c.dumpBefore, c.dumpAfter)))
  }

  /** `init`: the record is allocated first, then the path; the slot is set last. */
  function Init(e: Env, c: Conf, outer: Answer, exec: Answer): Outcome {
    if Of(e).Unreadable? then Undefined
    else if Of(e).Found? then Panics(e)
    else
      var r := Allocate(e.memory, SIZE, Agent, outer);
      if r.None? then Panics(e)
      else if r.value.1 % ALIGN != 0 then Panics(e.(memory := r.value.0))
      else
        var f := FromConf(r.value.0, c, exec);
        if f.None? then Panics(e.(memory := r.value.0))
        else Fine(Env(WriteRecord(f.value.0, r.value.1, f.value.1), r.value.1))
  }

  /** `free`: releases the path and clears the slot; the record itself stays allocated. */
  function Release(e: Env): Outcome {
    if e.slot == 0 then Panics(e)
    else
      var r := ReadRecord(e.memory, e.slot);
      if r.None? then Undefined
      else if r.value.execPtr == 0 then Fine(e.(slot := 0))
      else if r.value.execPtr !in e.memory.live then Panics(e)
      else Fine(Env(Deallocate(e.memory, r.value.execPtr), 0))
  }

  // ---------------------------------------------------------------- the class file load hook

  const MAX_INT := 0x7fff_ffff

  /** The new class data a hook leaves behind, if any. */
  datatype NewData = Unchanged | Replaced(base: nat, length: nat)

  /** `pj_class_file_load_hook`. What the instrumenter made of the class is a parameter: None if it failed. The buffer
      counts as the machine's, which is to deallocate it. */
  function LoadHook(e: Env, className: string, instrumented: Option<seq<byte>>, r: Answer): (Outcome, NewData) {
    match Of(e)
    case Absent => (Panics(e), Unchanged)
    case Unreadable => (Undefined, Unchanged)
    case Found(_) =>
      if ClassFiles.IsRuntimeClass(className) || instrumented.None? then (Fine(e), Unchanged)
      else
        var bytes := instrumented.value;
        var a := Allocate(e.memory, |bytes|, Vm, r);
        if a.None? then (Panics(e), Unchanged)
        else
          var after := e.(memory := Store(a.value.0, a.value.1, bytes));
          if |bytes| > MAX_INT then (Panics(after), Unchanged) else (Fine(after), Replaced(a.value.1, |bytes|))
  }

  // ---------------------------------------------------------------- runs

  /** What happens to the environment: the agent's own calls, and what the machine does with blocks that are its own. */
  datatype Action =
    | InitStorage(conf: Conf, outer: Answer, exec: Answer)
    | FreeStorage
    | Hook(className: string, instrumented: Option<seq<byte>>, answer: Answer)
    | VmAllocate(size: nat, answer: Answer)
    | VmDeallocate(base: nat)
    | VmStore(base: nat, offset: nat, data: seq<byte>)

  predicate VmOwns(m: Memory, a: nat) { a in m.live && m.live[a].owner.Vm? }

  /** What the machine does by itself: it touches its own blocks only. */
  function VmMove(m: Memory, l: Action): Memory {
    match l
    case VmAllocate(n, r) => if Allocate(m, n, Vm, r).None? then m else Allocate(m, n, Vm, r).value.0
    case VmDeallocate(a) => if VmOwns(m, a) then Deallocate(m, a) else m
    case VmStore(a, off, data) => if VmOwns(m, a) && off + |data| <= m.live[a].size then Store(m, a + off, data) else m
    case _ => m
  }

  function Step(e: Env, l: Action): Outcome {
    match l
    case InitStorage(c, outer, exec) => Init(e, c, outer, exec)
    case FreeStorage => Release(e)
    case Hook(name, data, r) => LoadHook(e, name, data, r).0
    case _ => Fine(e.(memory := VmMove(e.memory, l)))
  }

  /** A run ends at the first call that does not return normally. */
  function Run(e: Env, ls: seq<Action>): Outcome
    decreases |ls|
  {
    if ls == [] then Fine(e)
    else if !Step(e, ls[0]).Fine? then Step(e, ls[0])
    else Run(Step(e, ls[0]).env, ls[1..])
  }

  const EMPTY := Env(Memory(map[], map[]), 0)

  function ExpectedAfter(was: Option<Conf>, l: Action): Option<Conf> {
    if l.InitStorage? then Some(l.conf) else if l.FreeStorage? then None else was
  }

  /** What should be stored after `ls`: the configuration of the last `init`, unless a `free` came later. */
  function Expected(was: Option<Conf>, ls: seq<Action>): Option<Conf>
    decreases |ls|
  {
    if ls == [] then was else Expected(ExpectedAfter(was, ls[0]), ls[1..])
  }

  function CountFrees(ls: seq<Action>): nat {
    if ls == [] then 0 else (if ls[0].FreeStorage? then 1 else 0) + CountFrees(ls[1..])
  }

  // ---------------------------------------------------------------- the stored configuration

  /** The path is stored: its block, all of it, holds the encoded string. */
  ghost predicate ExecStored(m: Memory, r: RawEnvStorage, exec: Option<string>) {
    if exec.None? then r.execPtr == 0
    else
      && r.execPtr in m.live && m.live[r.execPtr] == Block(r.execLen, Agent)
      && Mapped(m, r.execPtr, r.execLen) && Load(m, r.execPtr, r.execLen) == Encode(exec.value)
  }

  /** The configuration `c` is stored in the blocks `p` and, if it has a path, one more. */
  ghost predicate Stored(m: Memory, p: nat, c: Conf) {
    && p in m.live && m.live[p] == Block(SIZE, Agent)
    && ReadRecord(m, p).Some?
    && var r := ReadRecord(m, p).value;
       && r.verbose == c.verbose && r.dumpBefore == c.dumpBefore && r.dumpAfter == c.dumpAfter
       && r.execPtr != p && ExecStored(m, r, c.phasicjExec)
  }

  function Blocks(c: Option<Conf>): nat {
    if c.None? then 0 else if c.value.phasicjExec.None? then 1 else 2
  }

  /** Between any two actions: `stored` is what is stored, and the agent holds the blocks of that and `lost` others. */
  ghost predicate Inv(e: Env, stored: Option<Conf>, lost: nat) {
    && Valid(e.memory)
    && (if stored.None? then e.slot == 0 else e.slot != 0 && Stored(e.memory, e.slot, stored.value))
    && |OwnedBy(e.memory, Agent)| == lost + Blocks(stored)
  }

  /** What is stored is what `of` gives. */
  lemma {:induction false} OfStored(e: Env, stored: Option<Conf>, lost: nat)
    requires Inv(e, stored, lost)
    ensures Of(e) == if stored.None? then Absent else Found(stored.value)
  {
    if stored.Some? {
      var r := ReadRecord(e.memory, e.slot).value;
      var c := stored.value;
      if c.phasicjExec.Some? {
        DecodeEncode(c.phasicjExec.value);
        assert r.execPtr > 0;
      }
    }
  }

  lemma {:induction false} StoredKept(m: Memory, m': Memory, p: nat, c: Conf)
    requires Valid(m) && Stored(m, p, c) && Keeps(m, m', Agent)
    ensures Stored(m', p, c)
  {
    var r := ReadRecord(m, p).value;
    assert SameBytes(m, m', p, SIZE);
    LoadSame(m, m', p, SIZE);
    if c.phasicjExec.Some? {
      assert SameBytes(m, m', r.execPtr, r.execLen);
      LoadSame(m, m', r.execPtr, r.execLen);
    }
  }

  lemma {:induction false} InvKept(e: Env, m': Memory, stored: Option<Conf>, lost: nat)
    requires Inv(e, stored, lost) && Valid(m') && Keeps(e.memory, m', Agent)
    requires OwnedBy(m', Agent) == OwnedBy(e.memory, Agent)
    ensures Inv(e.(memory := m'), stored, lost)
  {
    if stored.Some? { StoredKept(e.memory, m', e.slot, stored.value); }
  }

  // ---------------------------------------------------------------- init

  /** Storing the path: a new block that holds it. */
  lemma {:induction false} FromConfStores(m: Memory, c: Conf, exec: Answer)
    requires Valid(m) && FromConf(m, c, exec).Some?
    ensures var (m', r) := FromConf(m, c, exec).value;
            && Valid(m') && ExecStored(m', r, c.phasicjExec) && r.execPtr < SPACE && r.execLen < SPACE
            && r.verbose == c.verbose && r.dumpBefore == c.dumpBefore && r.dumpAfter == c.dumpAfter
            && r.execPtr !in m.live
            && (if c.phasicjExec.None? then m' == m else m'.live == m.live[r.execPtr := Block(r.execLen, Agent)])
  {
    if c.phasicjExec.Some? {
      var bytes := Encode(c.phasicjExec.value);
      AllocateKeeps(m, |bytes|, Agent, exec);
      var (m1, q) := Allocate(m, |bytes|, Agent, exec).value;
      StoreValid(m1, q, bytes);
      LoadStored(m1, q, bytes);
    }
  }

  /** Writing the record next to a stored path. */
  lemma {:induction false} RecordStored(m: Memory, p: nat, r: RawEnvStorage, c: Conf)
    requires Valid(m) && p in m.live && m.live[p] == Block(SIZE, Agent) && ExecStored(m, r, c.phasicjExec)
    requires r.execPtr != p && r.execPtr < SPACE && r.execLen < SPACE
    requires r.verbose == c.verbose && r.dumpBefore == c.dumpBefore && r.dumpAfter == c.dumpAfter
    ensures Valid(WriteRecord(m, p, r)) && Stored(WriteRecord(m, p, r), p, c)
  {
    var m' := WriteRecord(m, p, r);
    WriteRecordLocal(m, p, r);
    OutsideValid(m, m', p, SIZE);
    assert Mapped(m, p, SIZE);
    ReadWritten(m, p, r);
    if c.phasicjExec.Some? {
      assert Disjoint(p, SIZE, r.execPtr, r.execLen);
      LoadSame(m, m', r.execPtr, r.execLen);
    }
  }

  lemma {:induction false} AgentGains(m: Memory, m': Memory, p: nat, n: nat)
    requires p !in m.live && m'.live == m.live[p := Block(n, Agent)]
    ensures OwnedBy(m', Agent) == OwnedBy(m, Agent) + {p} && |OwnedBy(m', Agent)| == |OwnedBy(m, Agent)| + 1
  {
    assert OwnedBy(m', Agent) == OwnedBy(m, Agent) + {p};
  }

  /** Storing the path and the record, once there is room for the record. */
  lemma {:induction false} RecordAndPathStored(m: Memory, p: nat, c: Conf, exec: Answer)
    requires Valid(m) && p in m.live && m.live[p] == Block(SIZE, Agent) && FromConf(m, c, exec).Some?
    ensures var (m', r) := FromConf(m, c, exec).value;
            var end := WriteRecord(m', p, r);
            && Valid(end) && Stored(end, p, c)
            && |OwnedBy(end, Agent)| == |OwnedBy(m, Agent)| + (if c.phasicjExec.None? then 0 else 1)
  {
    hide Valid, FromConf, WriteRecord, ExecStored, Stored;
    FromConfStores(m, c, exec);
    var (m', r) := FromConf(m, c, exec).value;
    if c.phasicjExec.Some? { AgentGains(m, m', r.execPtr, r.execLen); }
    RecordStored(m', p, r, c);
    WriteRecordLocal(m', p, r);
    assert OwnedBy(WriteRecord(m', p, r), Agent) == OwnedBy(m', Agent);
  }

  lemma {:induction false} InitStores(e: Env, c: Conf, outer: Answer, exec: Answer, lost: nat)
    requires Inv(e, None, lost) && Init(e, c, outer, exec).Fine?
    ensures Inv(Init(e, c, outer, exec).env, Some(c), lost)
  {
    AllocateKeeps(e.memory, SIZE, Agent, outer);
    var (m1, p) := Allocate(e.memory, SIZE, Agent, outer).value;
    AgentGains(e.memory, m1, p, SIZE);
    RecordAndPathStored(m1, p, c, exec);
  }

  /** `init` returns normally exactly when nothing is stored yet, the machine provides an aligned record, and the
      path, if there is one, is not empty and the machine provides room for it. An empty path always panics. */
  lemma {:induction false} InitSucceedsIff(e: Env, c: Conf, outer: Answer, exec: Answer, stored: Option<Conf>,
          lost: nat)
    requires Inv(e, stored, lost)
    ensures !Init(e, c, outer, exec).Undefined?
    ensures var a := Allocate(e.memory, 32, Agent, outer);
            Init(e, c, outer, exec).Fine? <==>
              && stored.None? && a.Some? && a.value.1 % 8 == 0
              && (c.phasicjExec.Some? ==>
                    c.phasicjExec.value != "" && Allocate(a.value.0, |Encode(c.phasicjExec.value)|, Agent, exec).Some?)
  {
    OfStored(e, stored, lost);
    if c.phasicjExec.Some? { EncodeEmpty(c.phasicjExec.value); }
  }

  /** Configurations that come from option strings never reach the panic on an empty allocation: storing them fails only
      if something is stored already or the machine refuses memory or misplaces it. */
  lemma {:induction false} ParsedConfIsStored(ss: seq<string>, e: Env, outer: Answer, exec: Answer, lost: nat)
    requires ApplyStrings(DEFAULTS, ss).Done? && Inv(e, None, lost)
    ensures var c := ApplyStrings(DEFAULTS, ss).conf;
            var a := Allocate(e.memory, 32, Agent, outer);
            Init(e, c, outer, exec).Fine? <==>
              && a.Some? && a.value.1 % 8 == 0
              && (c.phasicjExec.Some? ==> Allocate(a.value.0, |c.phasicjExec.value|, Agent, exec).Some?)
  {
    StringsKeepStorable(DEFAULTS, ss);
    var c := ApplyStrings(DEFAULTS, ss).conf;
    InitSucceedsIff(e, c, outer, exec, None, lost);
    if c.phasicjExec.Some? { AsciiIsItself(c.phasicjExec.value); }
  }

  // ---------------------------------------------------------------- free

  lemma {:induction false} AgentLoses(m: Memory, q: nat)
    requires Valid(m) && q in m.live && m.live[q].owner == Agent
    ensures var m' := Deallocate(m, q);
            && Valid(m') && OwnedBy(m', Agent) == OwnedBy(m, Agent) - {q}
            && m'.live.Keys == m.live.Keys - {q} && (forall a :: a in m'.live ==> m'.live[a] == m.live[a])
  {
    DeallocateValid(m, q);
  }

  lemma {:induction false} ReleaseCases(e: Env, c: Conf, lost: nat)
    requires Inv(e, Some(c), lost)
    ensures var q := ReadRecord(e.memory, e.slot).value.execPtr;
            if c.phasicjExec.None? then q == 0 && Release(e) == Fine(Env(e.memory, 0))
            else
              && q in e.memory.live && q != e.slot && e.memory.live[q].owner == Agent && q > 0
              && Release(e) == Fine(Env(Deallocate(e.memory, q), 0))
  {}

  /** `free` after `init` returns normally. It deallocates the path's block and nothing else: the record stays allocated
      though nothing refers to it any more. A second `free` panics. */
  lemma {:induction false} FreeReleasesPath(e: Env, c: Conf, lost: nat)
    requires Inv(e, Some(c), lost)
    ensures Release(e).Fine? && Inv(Release(e).env, None, lost + 1)
    ensures var m, m' := e.memory, Release(e).env.memory;
            && e.slot in m'.live && m'.live[e.slot] == Block(SIZE, Agent)
            && m'.live.Keys == m.live.Keys - (if c.phasicjExec.None? then {} else {ReadRecord(m, e.slot).value.execPtr})
    ensures Release(Release(e).env).Panics?
  {
    ReleaseCases(e, c, lost);
    if c.phasicjExec.Some? { AgentLoses(e.memory, ReadRecord(e.memory, e.slot).value.execPtr); }
  }

  // ---------------------------------------------------------------- the hook and the machine

  /** Filling a block of the machine. */
  lemma {:induction false} FillKeeps(m: Memory, p: nat, data: seq<byte>)
    requires Valid(m) && VmOwns(m, p) && |data| <= m.live[p].size
    ensures Valid(Store(m, p, data)) && Keeps(m, Store(m, p, data), Agent)
  {
    StoreKeeps(m, p, 0, data, Agent);
  }

  /** A new buffer of the machine, filled. */
  lemma {:induction false} BufferFilled(m: Memory, data: seq<byte>, r: Answer)
    requires Valid(m) && data != [] && Allocate(m, |data|, Vm, r).Some?
    ensures var (m1, p) := Allocate(m, |data|, Vm, r).value;
            var m2 := Store(m1, p, data);
            && Valid(m2) && Keeps(m, m2, Agent) && m2.live == m.live[p := Block(|data|, Vm)] && p !in m.live
  {
    AllocateKeeps(m, |data|, Vm, r);
    var (m1, p) := Allocate(m, |data|, Vm, r).value;
    FillKeeps(m1, p, data);
    KeepsTrans(m, m1, Store(m1, p, data), Agent);
  }

  lemma {:induction false} MachineGains(m: Memory, m': Memory, p: nat, n: nat)
    requires p !in m.live && m'.live == m.live[p := Block(n, Vm)]
    ensures OwnedBy(m', Agent) == OwnedBy(m, Agent) && VmOwns(m', p)
  {}

  /** What the hook does, given what `of` finds. */
  lemma {:induction false} HookCases(e: Env, name: string, data: Option<seq<byte>>, r: Answer, c: Conf)
    requires Of(e) == Found(c)
    ensures var (o, d) := LoadHook(e, name, data, r);
            if ClassFiles.IsRuntimeClass(name) || data.None? then o == Fine(e) && d.Unchanged?
            else
              var a := Allocate(e.memory, |data.value|, Vm, r);
              if a.None? then o == Panics(e) && d.Unchanged?
              else
                var after := e.(memory := Store(a.value.0, a.value.1, data.value));
                if |data.value| > MAX_INT then o == Panics(after) && d.Unchanged?
                else o == Fine(after) && d == Replaced(a.value.1, |data.value|)
  {}

  lemma {:induction false} BufferKeepsInv(e: Env, data: seq<byte>, r: Answer, c: Conf, lost: nat)
    requires Inv(e, Some(c), lost) && Allocate(e.memory, |data|, Vm, r).Some?
    ensures var (m1, p) := Allocate(e.memory, |data|, Vm, r).value;
            Inv(e.(memory := Store(m1, p, data)), Some(c), lost)
  {
    var (m1, p) := Allocate(e.memory, |data|, Vm, r).value;
    var m2 := Store(m1, p, data);
    if data == [] {
      assert m2.cells == m1.cells;
      assert m2 == e.memory;
    } else {
      BufferFilled(e.memory, data, r);
      MachineGains(e.memory, m2, p, |data|);
      InvKept(e, m2, Some(c), lost);
    }
  }

  /** The hook leaves the agent's storage alone; it returns normally unless the machine refuses the buffer or the
      class is longer than a `jint` can say. It changes nothing for classes whose name begins with `phasicj/agent/rt/`
      and for classes the instrumenter rejects, and it replaces every other class. */
  lemma {:induction false} HookKeeps(e: Env, name: string, data: Option<seq<byte>>, r: Answer, c: Conf, lost: nat)
    requires Inv(e, Some(c), lost)
    ensures var (o, d) := LoadHook(e, name, data, r);
            var skip := "phasicj/agent/rt/" <= name || data.None?;
            && !o.Undefined?
            && (o.Fine? <==> skip || (Allocate(e.memory, |data.value|, Vm, r).Some? && |data.value| <= 0x7fff_ffff))
            && (o.Fine? ==> Inv(o.env, Some(c), lost) && (d.Replaced? <==> !skip) && (skip ==> o.env == e))
  {
    OfStored(e, Some(c), lost);
    HookCases(e, name, data, r, c);
    if !ClassFiles.IsRuntimeClass(name) && data.Some? && Allocate(e.memory, |data.value|, Vm, r).Some? {
      BufferKeepsInv(e, data.value, r, c, lost);
    }
  }

  /** The buffer a hook hands over is new, holds exactly what the instrumenter gave, and is the machine's to release. */
  lemma {:induction false} HookCopies(e: Env, name: string, data: Option<seq<byte>>, r: Answer, c: Conf, lost: nat)
    requires Inv(e, Some(c), lost) && LoadHook(e, name, data, r).1.Replaced?
    ensures var (o, d) := LoadHook(e, name, data, r);
            && o.Fine? && data.Some? && d.length == |data.value|
            && Mapped(o.env.memory, d.base, d.length) && Load(o.env.memory, d.base, d.length) == data.value
            && (d.length > 0 ==> d.base !in e.memory.live && VmOwns(o.env.memory, d.base))
  {
    OfStored(e, Some(c), lost);
    HookCases(e, name, data, r, c);
    var (m1, p) := Allocate(e.memory, |data.value|, Vm, r).value;
    LoadStored(m1, p, data.value);
    if data.value != [] {
      BufferFilled(e.memory, data.value, r);
      MachineGains(e.memory, Store(m1, p, data.value), p, |data.value|);
    }
  }

  /** The agent's blocks are the same in `m'`. */
  ghost predicate AgentUntouched(m: Memory, m': Memory) {
    Valid(m') && Keeps(m, m', Agent) && OwnedBy(m', Agent) == OwnedBy(m, Agent)
  }

  lemma {:induction false} NothingTouched(m: Memory)
    requires Valid(m)
    ensures AgentUntouched(m, m)
  {}

  lemma {:induction false} VmAllocateKeeps(m: Memory, n: nat, r: Answer)
    requires Valid(m) && Allocate(m, n, Vm, r).Some?
    ensures AgentUntouched(m, Allocate(m, n, Vm, r).value.0)
  {
    AllocateKeeps(m, n, Vm, r);
  }

  lemma {:induction false} VmDeallocateKeeps(m: Memory, a: nat)
    requires Valid(m) && VmOwns(m, a)
    ensures AgentUntouched(m, Deallocate(m, a))
  {
    DeallocateKeeps(m, a, Agent);
  }

  lemma {:induction false} VmStoreKeeps(m: Memory, a: nat, off: nat, data: seq<byte>)
    requires Valid(m) && VmOwns(m, a) && off + |data| <= m.live[a].size
    ensures AgentUntouched(m, Store(m, a + off, data))
  {
    StoreKeeps(m, a, off, data, Agent);
  }

  /** What the machine can do with its blocks; it can do nothing with those of the agent. */
  lemma {:induction false} VmMoveActs(m: Memory, a: nat, off: nat, data: seq<byte>, n: nat, r: Answer)
    ensures Allocate(m, n, Vm, r).Some? ==> VmMove(m, VmAllocate(n, r)) == Allocate(m, n, Vm, r).value.0
    ensures a in m.live && m.live[a].owner == Vm ==> VmMove(m, VmDeallocate(a)) == Deallocate(m, a)
    ensures a in m.live && m.live[a].owner == Vm && off + |data| <= m.live[a].size ==>
              var m' := VmMove(m, VmStore(a, off, data));
              Mapped(m', a + off, |data|) && Load(m', a + off, |data|) == data
    ensures a in m.live && m.live[a].owner == Agent ==>
              VmMove(m, VmDeallocate(a)) == m && VmMove(m, VmStore(a, off, data)) == m
  {
    hide Allocate, Deallocate, Store, Load;
    LoadStored(m, a + off, data);
  }

  lemma {:induction false} VmMoveKeeps(m: Memory, l: Action)
    requires Valid(m)
    ensures AgentUntouched(m, VmMove(m, l))
  {
    hide Valid, AgentUntouched, Allocate, Deallocate, Store;
    if l.VmAllocate? && Allocate(m, l.size, Vm, l.answer).Some? {
      VmAllocateKeeps(m, l.size, l.answer);
    } else if l.VmDeallocate? && VmOwns(m, l.base) {
      VmDeallocateKeeps(m, l.base);
    } else if l.VmStore? && VmOwns(m, l.base) && l.offset + |l.data| <= m.live[l.base].size {
      VmStoreKeeps(m, l.base, l.offset, l.data);
    } else {
      assert VmMove(m, l) == m;
      NothingTouched(m);
    }
  }

  /** The machine never disturbs what is stored. */
  lemma {:induction false} VmKeeps(e: Env, l: Action, stored: Option<Conf>, lost: nat)
    requires Inv(e, stored, lost)
    ensures Inv(e.(memory := VmMove(e.memory, l)), stored, lost)
  {
    VmMoveKeeps(e.memory, l);
    InvKept(e, VmMove(e.memory, l), stored, lost);
  }

  // ---------------------------------------------------------------- whole runs

  lemma {:induction false} StepKeeps(e: Env, l: Action, stored: Option<Conf>, lost: nat)
    requires Inv(e, stored, lost)
    ensures !Step(e, l).Undefined?
    ensures Step(e, l).Fine? ==> Inv(Step(e, l).env, ExpectedAfter(stored, l), lost + if l.FreeStorage? then 1 else 0)
  {
    OfStored(e, stored, lost);
    match l
    case InitStorage(c, outer, exec) =>
      InitSucceedsIff(e, c, outer, exec, stored, lost);
      if Step(e, l).Fine? { InitStores(e, c, outer, exec, lost); }
    case FreeStorage => if stored.Some? { FreeReleasesPath(e, stored.value, lost); }
    case Hook(name, data, r) => if stored.Some? { HookKeeps(e, name, data, r, stored.value, lost); }
    case _ => VmKeeps(e, l, stored, lost);
  }

  lemma {:induction false} RunKeeps(e: Env, ls: seq<Action>, stored: Option<Conf>, lost: nat)
    requires Inv(e, stored, lost)
    ensures !Run(e, ls).Undefined?
    ensures Run(e, ls).Fine? ==> Inv(Run(e, ls).env, Expected(stored, ls), lost + CountFrees(ls))
    decreases |ls|
  {
    if ls == [] {
    } else {
      StepKeeps(e, ls[0], stored, lost);
      if Step(e, ls[0]).Fine? {
        RunKeeps(Step(e, ls[0]).env, ls[1..], ExpectedAfter(stored, ls[0]), lost + if ls[0].FreeStorage? then 1 else 0);
      }
    }
  }

  /** Storage agreement, over every run: no access is undefined; `of` gives the configuration of the last `init`, or
      nothing after `free`, whatever else uses the memory; and the agent never gives back a record, so it holds one
      block for every `free` besides what is stored. */
  lemma {:induction false} StorageAgrees(ls: seq<Action>)
    ensures !Run(EMPTY, ls).Undefined?
    ensures Run(EMPTY, ls).Fine? ==>
              var e, stored := Run(EMPTY, ls).env, Expected(None, ls);
              && Of(e) == (if stored.None? then Absent else Found(stored.value))
              && |OwnedBy(e.memory, Agent)| == CountFrees(ls) + Blocks(stored)
  {
    assert OwnedBy(EMPTY.memory, Agent) == {};
    RunKeeps(EMPTY, ls, None, 0);
    if Run(EMPTY, ls).Fine? { OfStored(Run(EMPTY, ls).env, Expected(None, ls), CountFrees(ls)); }
  }
}
