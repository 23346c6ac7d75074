/**
  The machine of `JavaVm` against the rules of the Java Virtual Machine Specification (SE 15): MONITORENTER and
  MONITOREXIT (section 6.5), exception dispatch (section 2.10), calls and returns (section 2.6), each said without the
  functions the machine is made of.
 */
module MonitorRules {
  import opened Wrappers
  import opened Bytecode
  import opened JavaVm

  /** Thread `t` is about to execute a monitor instruction on the object at `a`. */
  predicate AtMonitor(prog: Program, s: State, t: Tid, kind: Kind, a: nat) {
    && Alive(s, t) && s.threads[t].mode.Running?
    && AtInsn(prog, s.threads[t].frames[0]) && InsnAt(prog, s.threads[t].frames[0]) == Monitor(kind)
    && s.threads[t].frames[0].data.stack != [] && s.threads[t].frames[0].data.stack[0] == Ref(a)
  }

  /** The thread has gone on to the next instruction and has taken one value off its stack; its callers and all other
      threads are where they were, and the heap is the same. */
  predicate WentOn(s: State, s': State, t: Tid) {
    && Alive(s, t) && Alive(s', t) && s.threads[t].frames[0].data.stack != []
    && s'.threads.Keys == s.threads.Keys && (forall u :: u in s.threads && u != t ==> s'.threads[u] == s.threads[u])
    && s'.threads[t].mode.Running? && s'.threads[t].frames[1..] == s.threads[t].frames[1..]
    && s'.threads[t].frames[0].mid == s.threads[t].frames[0].mid
    && s'.threads[t].frames[0].pc == s.threads[t].frames[0].pc + 1
    && s'.threads[t].frames[0].data.locals == s.threads[t].frames[0].data.locals
    && s'.threads[t].frames[0].data.stack == s.threads[t].frames[0].data.stack[1..]
    && s'.shared.heap == s.shared.heap
  }

  /** MONITORENTER waits exactly while another thread owns the monitor. Otherwise the thread owns it afterwards, with an
      entry count of one or of one more than before, and no other monitor changes. */
  lemma {:induction false} EnterRules(sem: Semantics, prog: Program, t: Tid, input: int, s: State, a: nat)
    requires AtMonitor(prog, s, t, Enter, a)
    ensures var r, m := Step(sem, prog, t, input, s), s.shared.monitors;
            && (r.None? <==> a in m && m[a].owner != t)
            && (r.Some? ==>
                  && WentOn(s, r.value, t)
                  && r.value.shared.monitors.Keys == m.Keys + {a}
                  && r.value.shared.monitors[a].owner == t
                  && r.value.shared.monitors[a].count == (if a in m then m[a].count else 0) + 1
                  && forall b :: b in m && b != a ==> r.value.shared.monitors[b] == m[b])
  {}

  /** MONITOREXIT by the owner lowers the entry count by one and frees the monitor when it gets to zero; it never waits.
      By any other thread it throws and changes no monitor. */
  lemma {:induction false} ExitRules(sem: Semantics, prog: Program, t: Tid, input: int, s: State, a: nat)
    requires AtMonitor(prog, s, t, Exit, a)
    ensures var r, m := Step(sem, prog, t, input, s), s.shared.monitors;
            && r.Some?
            && (a in m && m[a].owner == t ==>
                  && WentOn(s, r.value, t)
                  && (a in r.value.shared.monitors <==> m[a].count > 1)
                  && (m[a].count > 1 ==> r.value.shared.monitors[a] == Lock(t, m[a].count - 1))
                  && r.value.shared.monitors - {a} == m - {a})
            && (!(a in m && m[a].owner == t) ==>
                  var (exc, shared) := sem.fault(NotOwner, s.shared);
                  && r.value.shared == shared && Alive(r.value, t) && r.value.threads[t].mode == Unwinding(exc)
                  && r.value.threads[t].frames == s.threads[t].frames)
  {
    var f := s.threads[t].frames[0];
    assert [f] + s.threads[t].frames[1..] == s.threads[t].frames;
  }

  /** On null both instructions throw. */
  lemma {:induction false} NullRules(sem: Semantics, prog: Program, t: Tid, input: int, s: State, kind: Kind)
    requires Alive(s, t) && s.threads[t].mode.Running?
    requires AtInsn(prog, s.threads[t].frames[0]) && InsnAt(prog, s.threads[t].frames[0]) == Monitor(kind)
    requires s.threads[t].frames[0].data.stack != [] && s.threads[t].frames[0].data.stack[0] == Null
    ensures var r := Step(sem, prog, t, input, s);
            var (exc, shared) := sem.fault(NullMonitor, s.shared);
            && r.Some? && r.value.shared == shared && Alive(r.value, t) && r.value.threads[t].mode == Unwinding(exc)
            && r.value.threads[t].frames == s.threads[t].frames
  {
    var f := s.threads[t].frames[0];
    assert [f] + s.threads[t].frames[1..] == s.threads[t].frames;
  }

  /** Entering a monitor and leaving it again gives back all monitors as they were. */
  lemma {:induction false} EnterThenExit(sem: Semantics, prog: Program, t: Tid, s: State, s1: State, s2: State, a: nat,
      i: int, j: int)
    requires AtMonitor(prog, s, t, Enter, a) && Step(sem, prog, t, i, s) == Some(s1)
    requires AtMonitor(prog, s1, t, Exit, a) && Step(sem, prog, t, j, s1) == Some(s2)
    requires a in s.shared.monitors ==> s.shared.monitors[a].count >= 1
    ensures s2.shared.monitors == s.shared.monitors
  {
    hide Step;
    EnterRules(sem, prog, t, i, s, a);
    ExitRules(sem, prog, t, j, s1, a);
    var m, m1, m2 := s.shared.monitors, s1.shared.monitors, s2.shared.monitors;
    assert m2 - {a} == m1 - {a};
    assert forall b :: b in m2 && b != a ==> b in m2 - {a};
    assert forall b :: b in m && b != a ==> b in m1 - {a} && m2[b] == m[b] by {
      assert forall b :: b in m && b != a ==> b in m1 - {a} && (m1 - {a})[b] == m[b] && b in m2 - {a};
    }
    assert m2.Keys == m.Keys;
  }

  // ---------------------------------------------------------------- exceptions

  /** Dispatch takes the first entry of the table that covers the position and catches the exception, if there is
      one. */
  lemma {:induction false} FirstHandler(sem: Semantics, table: seq<Range>, pc: nat, exc: Value, shared: Shared)
    ensures var i := FindHandler(sem, table, pc, exc, shared);
            && i <= |table|
            && (forall j :: 0 <= j < i ==>
                  !(table[j].start <= pc < table[j].end && sem.catches(table[j].catchType, exc, shared)))
            && (i < |table| ==> table[i].start <= pc < table[i].end && sem.catches(table[i].catchType, exc, shared))
  {
    if table == [] {
    } else {
      FirstHandler(sem, table[1..], pc, exc, shared);
      var i := FindHandler(sem, table, pc, exc, shared);
      if i > 0 {
        forall j | 0 <= j < i
          ensures !(table[j].start <= pc < table[j].end && sem.catches(table[j].catchType, exc, shared))
        {
          if j > 0 { assert table[1..][j - 1] == table[j]; }
        }
      }
    }
  }

  /** The table entry covers the position and catches the exception. */
  predicate Fits(sem: Semantics, r: Range, pc: nat, exc: Value, shared: Shared) {
    r.start <= pc < r.end && sem.catches(r.catchType, exc, shared)
  }

  /** Unwinding enters the handler of the first entry that fits, with the exception as the only value on the stack, or
      leaves the method if none fits; the locals, the other threads, the heap and the monitors stay. */
  lemma {:induction false} UnwindRules(sem: Semantics, prog: Program, t: Tid, input: int, s: State, i: nat)
    requires Alive(s, t) && s.threads[t].mode.Unwinding? && s.threads[t].frames[0].mid in prog
    requires var f, exc := s.threads[t].frames[0], s.threads[t].mode.exc;
             var table := prog[f.mid].table;
             && i <= |table| && (forall j :: 0 <= j < i ==> !Fits(sem, table[j], f.pc, exc, s.shared))
             && (i < |table| ==> Fits(sem, table[i], f.pc, exc, s.shared))
    ensures var r, f, exc := Step(sem, prog, t, input, s), s.threads[t].frames[0], s.threads[t].mode.exc;
            var table, below := prog[f.mid].table, s.threads[t].frames[1..];
            && r.Some? && r.value.shared == s.shared
            && r.value.threads == s.threads[t :=
                 if i < |table|
                 then Thread([Frame(f.mid, table[i].handler, Data(f.data.locals, [exc]))] + below, Running)
                 else Thread(below, Unwinding(exc))]
  {
    var f, exc := s.threads[t].frames[0], s.threads[t].mode.exc;
    var table := prog[f.mid].table;
    FirstHandler(sem, table, f.pc, exc, s.shared);
    var k := FindHandler(sem, table, f.pc, exc, s.shared);
    assert k < i ==> !Fits(sem, table[k], f.pc, exc, s.shared);
    assert k == i;
  }

  // ---------------------------------------------------------------- calls and returns

  /** Thread `t` is about to execute a plain instruction with outcome `o`. */
  predicate AtPlain(sem: Semantics, prog: Program, s: State, t: Tid, input: int, targets: seq<nat>, o: Outcome) {
    && Alive(s, t) && s.threads[t].mode.Running? && AtInsn(prog, s.threads[t].frames[0])
    && var f := s.threads[t].frames[0];
       var i := InsnAt(prog, f);
       i.Plain? && i.targets == targets && sem.exec(i.op, input, t, f.mid, f.data, s.shared) == o
  }

  /** Going on, jumping and throwing. */
  lemma {:induction false} StayRules(sem: Semantics, prog: Program, t: Tid, input: int, s: State, targets: seq<nat>,
      o: Outcome)
    requires AtPlain(sem, prog, s, t, input, targets, o)
    ensures var r, frames := Step(sem, prog, t, input, s), s.threads[t].frames;
            && (o.Next? ==> r == Some(State(s.threads[t :=
                  Thread([Frame(frames[0].mid, frames[0].pc + 1, o.data)] + frames[1..], Running)], o.shared)))
            && (o.Jump? && o.target < |targets| ==> r == Some(State(s.threads[t :=
                  Thread([Frame(frames[0].mid, targets[o.target], o.data)] + frames[1..], Running)], o.shared)))
            && (o.Raise? ==> r == Some(State(s.threads[t := Thread(frames, Unwinding(o.exc))], o.shared)))
            && (o.Blocked? ==> r == None)
  {
    assert [s.threads[t].frames[0]] + s.threads[t].frames[1..] == s.threads[t].frames;
  }

  /** A call puts a frame at the start of the called method on top and leaves the caller at the call. */
  lemma {:induction false} InvokeRules(sem: Semantics, prog: Program, t: Tid, input: int, s: State, targets: seq<nat>,
      o: Outcome)
    requires AtPlain(sem, prog, s, t, input, targets, o) && o.Invoke?
    ensures var r, frames := Step(sem, prog, t, input, s), s.threads[t].frames;
            && (r.Some? <==> o.mid in prog)
            && (r.Some? ==> r.value == State(s.threads[t := Thread([Frame(o.mid, 0, o.args),
                  Frame(frames[0].mid, frames[0].pc, o.data)] + frames[1..], Running)], o.shared))
  {}

  /** A return removes the frame; the caller goes on behind the call, with the results on its stack. */
  lemma {:induction false} ReturnRules(sem: Semantics, prog: Program, t: Tid, input: int, s: State, targets: seq<nat>,
      o: Outcome)
    requires AtPlain(sem, prog, s, t, input, targets, o) && o.Result?
    ensures var r, frames := Step(sem, prog, t, input, s), s.threads[t].frames;
            && r.Some? && r.value.shared == o.shared
            && r.value.threads == s.threads[t := Thread(
                 if |frames| == 1 then []
                 else [Frame(frames[1].mid, frames[1].pc + 1, Data(frames[1].data.locals,
                        o.values + frames[1].data.stack))] + frames[2..], Running)]
  {
    var frames := s.threads[t].frames;
    assert |frames| > 1 ==> frames[1..][1..] == frames[2..];
  }

  /** Starting a thread lets the starter go on and adds one new thread at the start of the given method. */
  lemma {:induction false} StartRules(sem: Semantics, prog: Program, t: Tid, input: int, s: State, targets: seq<nat>,
      o: Outcome)
    requires AtPlain(sem, prog, s, t, input, targets, o) && o.Start?
    ensures var r, frames := Step(sem, prog, t, input, s), s.threads[t].frames;
            && (r.Some? <==> o.mid in prog && o.child !in s.threads)
            && (r.Some? ==>
                  && r.value.shared == o.shared && r.value.threads.Keys == s.threads.Keys + {o.child}
                  && r.value.threads[o.child] == Thread([Frame(o.mid, 0, o.args)], Running)
                  && r.value.threads[t]
                      == Thread([Frame(frames[0].mid, frames[0].pc + 1, o.data)] + frames[1..], Running)
                  && forall u :: u in s.threads && u != t ==> r.value.threads[u] == s.threads[u])
  {}
}
