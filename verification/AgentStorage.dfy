/**
  `EnvStorage` and the class file load hook in the form of the source: calls that change the memory and the storage
  slot of a `jvmtiEnv` one after the other. Each is proved against its specification in `EnvStorage`. The answers of
  the virtual machine to requests for memory are parameters; a panic is the result `false`.
 */
module AgentStorage {
  import opened Wrappers
  import opened Utf8
  import opened RawMemory
  import opened AgentConf
  import opened EnvStorage
  import ClassFiles

  class JvmtiEnv {
    var memory: Memory
    var slot: nat

    constructor ()
      ensures Value() == EMPTY
    {
      memory, slot := Memory(map[], map[]), 0;
    }

    function Value(): Env
      reads this
    {
      Env(memory, slot)
    }

    /** JVMTI `Allocate`, with the check for errors around it. */
    method JvmtiAllocate(size: nat, owner: Owner, answer: Answer) returns (base: Option<nat>)
      modifies this`memory
      ensures var r := Allocate(old(memory), size, owner, answer);
              if r.None? then base == None && memory == old(memory) else base == Some(r.value.1) && memory == r.value.0
    {
      var r := Allocate(memory, size, owner, answer);
      if r.None? { return None; }
      memory := r.value.0;
      return Some(r.value.1);
    }

    /** `allocate`: never asks for nothing. */
    method AllocateBytes(size: nat, answer: Answer) returns (base: Option<nat>)
      modifies this`memory
      ensures var r := Allocate(old(memory), size, Agent, answer);
              if size == 0 || r.None? then base == None && memory == old(memory)
              else base == Some(r.value.1) && memory == r.value.0
    {
      if size == 0 { return None; }
      base := JvmtiAllocate(size, Agent, answer);
    }

    /** `allocate_type`: the record must be aligned. */
    method AllocateRecord(answer: Answer) returns (base: Option<nat>)
      modifies this`memory
      ensures var r := Allocate(old(memory), SIZE, Agent, answer);
              if r.None? then base == None && memory == old(memory)
              else memory == r.value.0 && base == if r.value.1 % ALIGN == 0 then Some(r.value.1) else None
    {
      base := AllocateBytes(SIZE, answer);
      if base.Some? && base.value % ALIGN != 0 { base := None; }
    }

    /** `copy_nonoverlapping` into this memory. */
    method Copy(source: seq<byte>, destination: nat)
      modifies this`memory
      ensures memory == Store(old(memory), destination, source)
    {
      memory := Store(memory, destination, source);
    }

    /** `from_conf`. */
    method WriteConf(conf: Conf, exec: Answer) returns (record: Option<RawEnvStorage>)
      modifies this`memory
      ensures var r := FromConf(old(memory), conf, exec);
              if r.None? then record == None && memory == old(memory)
              else record == Some(r.value.1) && memory == r.value.0
    {
      var pointer, length := 0, 0;
      if conf.phasicjExec.Some? {
        var bytes := Encode(conf.phasicjExec.value);
        length := |bytes|;
        var p := AllocateBytes(length, exec);
        if p.None? { return None; }
        pointer := p.value;
        Copy(bytes, pointer);
      }
      return Some(RawEnvStorage(conf.verbose, pointer, length, conf.dumpBefore, conf.dumpAfter));
    }

    /** `init`. */
    method InitStorage(conf: Conf, outer: Answer, exec: Answer) returns (ok: bool)
      requires !Of(Value()).Unreadable?
      modifies this
      ensures Init(old(Value()), conf, outer, exec) == if ok then Fine(Value()) else Panics(Value())
    {
      if Of(Value()).Found? { return false; }
      var storage := AllocateRecord(outer);
      if storage.None? { return false; }
      var record := WriteConf(conf, exec);
      if record.None? { return false; }
      memory := WriteRecord(memory, storage.value, record.value);
      slot := storage.value;
      return true;
    }

    /** `free`. */
    method FreeStorage() returns (ok: bool)
      requires slot != 0 ==> ReadRecord(memory, slot).Some?
      modifies this
      ensures Release(old(Value())) == if ok then Fine(Value()) else Panics(Value())
    {
      if slot == 0 { return false; }
      var pointer := ReadRecord(memory, slot).value.execPtr;
      if pointer != 0 {
        if pointer !in memory.live { return false; }
        memory := Deallocate(memory, pointer);
      }
      slot := 0;
      return true;
    }

    /** `pj_class_file_load_hook`. */
    method ClassFileLoadHook(className: string, instrumented: Option<seq<byte>>, answer: Answer)
            returns (ok: bool, newData: NewData)
      requires !Of(Value()).Unreadable?
      modifies this
      ensures LoadHook(old(Value()), className, instrumented, answer)
          == (if ok then Fine(Value()) else Panics(Value()), newData)
      ensures ok ==> (newData.Replaced? <==> instrumented.Some? && !("phasicj/agent/rt/" <= className))
    {
      newData := Unchanged;
      if Of(Value()).Absent? { return false, newData; }
      if ClassFiles.IsRuntimeClass(className) { return true, newData; }
      if instrumented.None? { return true, newData; }
      var buffer := JvmtiAllocate(|instrumented.value|, Vm, answer);
      if buffer.None? { return false, newData; }
      Copy(instrumented.value, buffer.value);
      if |instrumented.value| > MAX_INT { return false, newData; }
      newData := Replaced(buffer.value, |instrumented.value|);
      ok := true;
    }

    /** `pj_vm_death` after the storage was set up: what was stored is released and no longer found. */
    method VmDeath(ghost conf: Conf, ghost lost: nat)
      requires Inv(Value(), Some(conf), lost)
      modifies this
      ensures Inv(Value(), None, lost + 1) && Of(Value()) == Absent
    {
      ReleaseCases(Value(), conf, lost);
      FreeReleasesPath(Value(), conf, lost);
      var ok := FreeStorage();
      assert ok;
    }
  }
}
