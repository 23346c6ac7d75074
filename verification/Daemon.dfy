/**
  The recording daemon (`phasicj/daemon/rtevents.rs`) and the clients that replay recorded events into it
  (`phasicj/daemon/tests/sqlite_replay_client/main.rs`), as a system of atomic steps: any number of clients, each
  with at most one request outstanding, one connection behind a mutex. An insertion may fail; that panics while the
  mutex is held and so poisons it.
 */
module Daemon {
  import opened Wrappers

  /** A row of `rtevents`; the column `description` may be null. */
  datatype Row = Row(id: int, description: Option<string>)

  function LargestId(table: seq<Row>): int
    requires table != []
  {
    var last := table[|table| - 1].id;
    if |table| == 1 then last
    else
      var rest := LargestId(table[..|table| - 1]);
      if last >= rest then last else rest
  }

  /** The id SQLite gives to a new row of a table with an INTEGER PRIMARY KEY: 1 if there are no rows, else one more
      than the largest. */
  function NextId(table: seq<Row>): int {
    if table == [] then 1 else LargestId(table) + 1
  }

  function Insert(table: seq<Row>, description: string): seq<Row> {
    table + [Row(NextId(table), Some(description))]
  }

  /** What a client gets out of a table, in row order: it stops at the first null. */
  function Readable(table: seq<Row>): seq<string> {
    if table == [] || table[0].description.None? then [] else [table[0].description.value] + Readable(table[1..])
  }

  type Cid = nat

  /** Where a client's current request is. */
  datatype Phase =
    | Ready       // none outstanding
    | Requested   // on its way to the daemon
    | Locked      // holds the connection
    | Stored      // inserted, still holds the connection
    | Replying    // connection released, acknowledgement on its way
    | Failed      // answered with an error; the client has given up

  /** A client that replays `input`, of which `acked` events are acknowledged. */
  datatype Client = Client(input: seq<string>, acked: nat, phase: Phase)

  datatype State = State(table: seq<Row>, holder: Option<Cid>, poisoned: bool, clients: map<Cid, Client>)

  datatype Action = Send(c: Cid) | Lock(c: Cid) | Execute(c: Cid, works: bool) | Unlock(c: Cid) | Ack(c: Cid)

  function SetClient(s: State, c: Cid, client: Client): State {
    s.(clients := s.clients[c := client])
  }

  /** None if the action is not possible, or has to wait for the mutex. */
  function Step(s: State, l: Action): Option<State> {
    if l.c !in s.clients then None
    else
      var c := s.clients[l.c];
      match l
      case Send(_) => if c.phase.Ready? && c.acked < |c.input| then Some(SetClient(s, l.c, c.(phase := Requested)))
          else None
      case Lock(_) =>
        if !c.phase.Requested? || s.holder.Some? then None
        else if s.poisoned then Some(SetClient(s, l.c, c.(phase := Failed)))
        else Some(SetClient(s, l.c, c.(phase := Locked)).(holder := Some(l.c)))
      case Execute(_, works) =>
        if !c.phase.Locked? || c.acked >= |c.input| then None
        else if works then Some(SetClient(s, l.c, c.(phase := Stored)).(table := Insert(s.table, c.input[c.acked])))
        else Some(SetClient(s, l.c, c.(phase := Failed)).(holder := None, poisoned := true))
      case Unlock(_) => if c.phase.Stored? then Some(SetClient(s, l.c, c.(phase := Replying)).(holder := None))
          else None
      case Ack(_) => if c.phase.Replying? then Some(SetClient(s, l.c, Client(c.input, c.acked + 1, Ready))) else None
  }

  function Run(s: State, ls: seq<Action>): Option<State>
    decreases |ls|
  {
    if ls == [] then Some(s)
    else
      var r := Step(s, ls[0]);
      if r.None? then None else Run(r.value, ls[1..])
  }

  /** A new daemon, and clients that have not sent anything. */
  predicate Fresh(s: State) {
    && s.table == [] && s.holder.None? && !s.poisoned
    && forall c :: c in s.clients ==> s.clients[c].acked == 0 && s.clients[c].phase.Ready?
  }

  /** A new daemon with the given inputs to replay. */
  function Start(inputs: map<Cid, seq<string>>): State {
    State([], None, false, map c | c in inputs :: Client(inputs[c], 0, Ready))
  }

  /** There is a fresh state for all inputs, and only one. */
  lemma {:induction false} FreshIsStart(s: State, inputs: map<Cid, seq<string>>)
    ensures Fresh(s) && s.clients.Keys == inputs.Keys && (forall c :: c in inputs ==> s.clients[c].input == inputs[c])
            <==> s == Start(inputs)
  {
    if Fresh(s) && s.clients.Keys == inputs.Keys && forall c :: c in inputs ==> s.clients[c].input == inputs[c] {
      assert s.clients == Start(inputs).clients;
    }
  }

  /** How many of a client's events are in the table. */
  function StoredCount(c: Client): nat {
    c.acked + if c.phase.Stored? || c.phase.Replying? then 1 else 0
  }

  /** The clients whose events were inserted, in that order. */
  function Inserters(ls: seq<Action>): seq<Cid> {
    if ls == [] then []
    else (if ls[0].Execute? && ls[0].works then [ls[0].c] else []) + Inserters(ls[1..])
  }

  /** The descriptions in `table` that came from client `c`. */
  function From(table: seq<Row>, origins: seq<Cid>, c: Cid): seq<string>
    requires |table| == |origins|
  {
    if table == [] then []
    else
      var n := |table| - 1;
      From(table[..n], origins[..n], c)
      + if origins[n] == c && table[n].description.Some? then [table[n].description.value] else []
  }

  predicate ClientOk(c: Client) {
    StoredCount(c) <= |c.input| && (c.phase.Requested? || c.phase.Locked? ==> c.acked < |c.input|)
  }

  predicate NumberedFromOne(table: seq<Row>) {
    forall i :: 0 <= i < |table| ==> table[i].id == i + 1 && table[i].description.Some?
  }

  /** What holds in every reachable state, given who inserted the rows. */
  ghost predicate Inv(s: State, origins: seq<Cid>) {
    && |origins| == |s.table| && NumberedFromOne(s.table)
    && (forall c :: s.holder == Some(c) <==>
          c in s.clients && (s.clients[c].phase.Locked? || s.clients[c].phase.Stored?))
    && (forall c :: c in s.clients ==> ClientOk(s.clients[c]))
    && (forall c :: c in s.clients ==> From(s.table, origins, c) == s.clients[c].input[..StoredCount(s.clients[c])])
    && (forall i :: 0 <= i < |origins| ==> origins[i] in s.clients)
  }

  lemma {:induction false} NextIdIs(table: seq<Row>)
    requires NumberedFromOne(table)
    ensures NextId(table) == |table| + 1
  {
    if table == [] {
    } else if |table| > 1 {
      NextIdIs(table[..|table| - 1]);
    }
  }

  /** A new row's id is greater than every id in the table, and the least such number; a table without rows begins
      with 1. */
  lemma {:induction false} NextIdIsLeast(table: seq<Row>)
    ensures table == [] ==> NextId(table) == 1
    ensures forall i :: 0 <= i < |table| ==> table[i].id < NextId(table)
    ensures table != [] ==> exists i :: 0 <= i < |table| && table[i].id == NextId(table) - 1
  {
    if |table| > 1 {
      var n := |table| - 1;
      NextIdIsLeast(table[..n]);
      if table[n].id < LargestId(table[..n]) {
        var i :| 0 <= i < n && table[..n][i].id == NextId(table[..n]) - 1;
        assert table[i].id == NextId(table) - 1;
      } else {
        assert table[n].id == NextId(table) - 1;
      }
      assert forall i :: 0 <= i < n ==> table[..n][i] == table[i];
    } else if |table| == 1 {
      assert table[0].id == NextId(table) - 1;
    }
  }

  lemma {:induction false} FromAppended(table: seq<Row>, origins: seq<Cid>, row: Row, who: Cid, c: Cid)
    requires |table| == |origins| && row.description.Some?
    ensures From(table + [row], origins + [who], c) == From(table, origins, c) + if who == c
        then [row.description.value] else []
  {
    assert (table + [row])[..|table|] == table && (origins + [who])[..|origins|] == origins;
  }

  lemma {:induction false} InsertFrom(s: State, origins: seq<Cid>, c: Cid, d: Cid)
    requires Inv(s, origins) && Step(s, Execute(c, true)).Some? && d in s.clients
    ensures var s' := Step(s, Execute(c, true)).value;
            From(s'.table, origins + [c], d) == s'.clients[d].input[..StoredCount(s'.clients[d])]
  {
    hide From, NextId, NumberedFromOne;
    var client := s.clients[c];
    FromAppended(s.table, origins, Row(NextId(s.table), Some(client.input[client.acked])), c, d);
    assert From(s.table, origins, d) == s.clients[d].input[..StoredCount(s.clients[d])];
    assert client.input[..client.acked] + [client.input[client.acked]] == client.input[..client.acked + 1];
    assert From(s.table, origins, d) + [] == From(s.table, origins, d);
  }

  lemma {:induction false} InsertHolder(s: State, origins: seq<Cid>, c: Cid)
    requires Inv(s, origins) && Step(s, Execute(c, true)).Some?
    ensures var s' := Step(s, Execute(c, true)).value;
            && (forall d :: d in s'.clients ==> ClientOk(s'.clients[d]))
            && forall d :: s'.holder == Some(d) <==>
                  d in s'.clients && (s'.clients[d].phase.Locked? || s'.clients[d].phase.Stored?)
  {
    assert s.holder == Some(c);
  }

  /** An insertion keeps the invariant. */
  lemma {:induction false} InsertKeeps(s: State, origins: seq<Cid>, c: Cid)
    requires Inv(s, origins) && Step(s, Execute(c, true)).Some?
    ensures Inv(Step(s, Execute(c, true)).value, origins + [c])
  {
    var s' := Step(s, Execute(c, true)).value;
    NextIdIs(s.table);
    InsertHolder(s, origins, c);
    forall d | d in s'.clients ensures From(s'.table, origins + [c], d)
        == s'.clients[d].input[..StoredCount(s'.clients[d])] {
      InsertFrom(s, origins, c, d);
    }
  }

  /** The other actions change neither the table nor how much of a client's input is in it. */
  lemma {:induction false} OtherStep(s: State, l: Action)
    requires Step(s, l).Some? && !(l.Execute? && l.works)
    ensures var s' := Step(s, l).value;
            && s'.table == s.table && s'.clients.Keys == s.clients.Keys
            && forall d :: d in s.clients ==>
                  s'.clients[d].input == s.clients[d].input && StoredCount(s'.clients[d]) == StoredCount(s.clients[d])
  {}

  lemma {:induction false} OtherStepHolder(s: State, origins: seq<Cid>, l: Action)
    requires Inv(s, origins) && Step(s, l).Some? && !(l.Execute? && l.works)
    ensures var s' := Step(s, l).value;
            && (forall c :: c in s'.clients ==> ClientOk(s'.clients[c]))
            && forall c :: s'.holder == Some(c) <==>
                  c in s'.clients && (s'.clients[c].phase.Locked? || s'.clients[c].phase.Stored?)
  {
    var c := l.c;
    assert s.holder == Some(c) <==> s.clients[c].phase.Locked? || s.clients[c].phase.Stored?;
    assert ClientOk(s.clients[c]);
  }

  lemma {:induction false} OtherStepKeeps(s: State, origins: seq<Cid>, l: Action)
    requires Inv(s, origins) && Step(s, l).Some? && !(l.Execute? && l.works)
    ensures Inv(Step(s, l).value, origins)
  {
    OtherStep(s, l);
    OtherStepHolder(s, origins, l);
  }

  lemma {:induction false} StepKeeps(s: State, origins: seq<Cid>, l: Action)
    requires Inv(s, origins) && Step(s, l).Some?
    ensures Inv(Step(s, l).value, origins + if l.Execute? && l.works then [l.c] else [])
  {
    if l.Execute? && l.works {
      InsertKeeps(s, origins, l.c);
    } else {
      assert origins + [] == origins;
      OtherStepKeeps(s, origins, l);
    }
  }

  lemma {:induction false} Regroup(origins: seq<Cid>, ls: seq<Action>)
    requires ls != []
    ensures origins + Inserters(ls) == (origins + if ls[0].Execute? && ls[0].works then [ls[0].c] else [])
        + Inserters(ls[1..])
  {
    Associate(origins, if ls[0].Execute? && ls[0].works then [ls[0].c] else [], Inserters(ls[1..]));
  }

  lemma {:induction false} Associate(a: seq<Cid>, b: seq<Cid>, c: seq<Cid>)
    ensures a + (b + c) == (a + b) + c
  {}

  lemma {:induction false} RunKeeps(s: State, origins: seq<Cid>, ls: seq<Action>, all: seq<Cid>)
    requires Inv(s, origins) && Run(s, ls).Some? && all == origins + Inserters(ls)
    ensures Inv(Run(s, ls).value, all)
    decreases |ls|
  {
    if ls == [] {
      assert all == origins;
    } else {
      StepKeeps(s, origins, ls[0]);
      Regroup(origins, ls);
      RunKeeps(Step(s, ls[0]).value, origins + if ls[0].Execute? && ls[0].works then [ls[0].c] else [], ls[1..], all);
    }
  }

  lemma {:induction false} InputsStay(s: State, ls: seq<Action>, c: Cid)
    requires Run(s, ls).Some? && c in s.clients
    ensures c in Run(s, ls).value.clients && Run(s, ls).value.clients[c].input == s.clients[c].input
    ensures Run(s, ls).value.clients.Keys == s.clients.Keys
    decreases |ls|
  {
    if ls == [] {
    } else {
      assert Step(s, ls[0]).value.clients.Keys == s.clients.Keys;
      InputsStay(Step(s, ls[0]).value, ls[1..], c);
    }
  }

  /** Over every run of a new daemon, with any number of clients, any interleaving and any failing insertions: the
      rows have the ids 1, 2, 3, ...; they are a merge of prefixes of the clients' inputs, in the order of the
      insertions; and of each client's events at most one more is stored than is acknowledged. */
  lemma {:induction false} TableIsMerge(s: State, ls: seq<Action>, c: Cid)
    requires Fresh(s) && Run(s, ls).Some? && c in s.clients
    ensures var s' := Run(s, ls).value;
            var who := Inserters(ls);
            && |who| == |s'.table| && NumberedFromOne(s'.table) && (forall i :: 0 <= i < |who| ==> who[i] in s.clients)
            && c in s'.clients && StoredCount(s'.clients[c]) <= |s.clients[c].input|
            && From(s'.table, who, c) == s.clients[c].input[..StoredCount(s'.clients[c])]
            && s'.clients[c].acked <= StoredCount(s'.clients[c]) <= s'.clients[c].acked + 1
  {
    assert Inv(s, []);
    RunKeeps(s, [], ls, Inserters(ls));
    InputsStay(s, ls, c);
  }

  lemma {:induction false} FreshHasInv(s: State)
    requires Fresh(s)
    ensures Inv(s, [])
  {}

  lemma {:induction false} PoisonStays(s: State, origins: seq<Cid>, ls: seq<Action>)
    requires Inv(s, origins) && s.poisoned && s.holder.None? && Run(s, ls).Some?
    ensures Run(s, ls).value.table == s.table && Run(s, ls).value.poisoned
    decreases |ls|
  {
    hide From, NumberedFromOne;
    if ls == [] {
    } else {
      var l := ls[0];
      assert s.holder != Some(l.c);
      assert !l.Execute?;
      StepKeeps(s, origins, l);
      assert origins + [] == origins;
      PoisonStays(Step(s, l).value, origins, ls[1..]);
    }
  }

  lemma {:induction false} RunSplit(s: State, a: seq<Action>, b: seq<Action>)
    requires Run(s, a + b).Some?
    ensures Run(s, a).Some? && Run(Run(s, a).value, b) == Run(s, a + b)
    decreases |a|
  {
    if a == [] {
      assert a + b == b;
    } else {
      assert (a + b)[1..] == a[1..] + b;
      RunSplit(Step(s, a[0]).value, a[1..], b);
    }
  }

  /** A failing insertion is the last one: it stores nothing itself, and whatever the clients do afterwards, nothing is
      stored any more and the mutex stays poisoned. */
  lemma {:induction false} NothingAfterFailure(s: State, a: seq<Action>, c: Cid, b: seq<Action>)
    requires Fresh(s) && Run(s, a + ([Execute(c, false)] + b)).Some?
    ensures Run(s, a).Some?
    ensures var end := Run(s, a + ([Execute(c, false)] + b)).value; end.table == Run(s, a).value.table && end.poisoned
  {
    hide From, NumberedFromOne;
    RunSplit(s, a, [Execute(c, false)] + b);
    var m := Run(s, a).value;
    FreshHasInv(s);
    RunKeeps(s, [], a, Inserters(a));
    StepKeeps(m, Inserters(a), Execute(c, false));
    assert ([Execute(c, false)] + b)[1..] == b;
    assert Inserters(a) + [] == Inserters(a);
    PoisonStays(Step(m, Execute(c, false)).value, Inserters(a), b);
  }

  // ---------------------------------------------------------------- progress

  predicate Finished(c: Client) {
    c.phase.Failed? || (c.phase.Ready? && c.acked == |c.input|)
  }

  /** The next action of a client. */
  function NextAction(c: Cid, client: Client): Action {
    match client.phase
    case Ready => Send(c)
    case Requested => Lock(c)
    case Locked => Execute(c, true)
    case Stored => Unlock(c)
    case Replying => Ack(c)
    case Failed => Send(c)
  }

  /** The connection is no deadlock: a client that is not finished can move, or waits for one that can. */
  lemma {:induction false} SomeoneMoves(s: State, origins: seq<Cid>, c: Cid)
    requires Inv(s, origins) && c in s.clients && !Finished(s.clients[c])
    ensures Step(s, NextAction(c, s.clients[c])).Some? ||
            (s.clients[c].phase.Requested? && s.holder.Some? && s.holder.value in s.clients && s.holder.value != c
             && Step(s, NextAction(s.holder.value, s.clients[s.holder.value])).Some?)
  {
    if s.clients[c].phase.Requested? && s.holder.Some? {
      var h := s.holder.value;
      assert h in s.clients && (s.clients[h].phase.Locked? || s.clients[h].phase.Stored?);
    }
  }

  predicate Works(l: Action) { l.Execute? ==> l.works }

  predicate AllWork(ls: seq<Action>) { forall i :: 0 <= i < |ls| ==> Works(ls[i]) }

  /** No insertion has failed. */
  predicate Healthy(s: State) {
    !s.poisoned && forall c :: c in s.clients ==> !s.clients[c].phase.Failed?
  }

  lemma {:induction false} StaysHealthy(s: State, ls: seq<Action>)
    requires Healthy(s) && AllWork(ls) && Run(s, ls).Some?
    ensures Healthy(Run(s, ls).value)
    decreases |ls|
  {
    if ls == [] {
    } else {
      assert Works(ls[0]);
      assert forall i :: 0 <= i < |ls| - 1 ==> ls[1..][i] == ls[i + 1];
      StaysHealthy(Step(s, ls[0]).value, ls[1..]);
    }
  }

  /** How many actions a client's current request has taken. */
  function PhaseRank(ph: Phase): nat {
    match ph
    case Ready => 0 case Requested => 1 case Locked => 2 case Stored => 3 case Replying => 4 case Failed => 0
  }

  function Progress(c: Client): nat {
    5 * c.acked + PhaseRank(c.phase)
  }

  function CountOf(ls: seq<Action>, c: Cid): nat {
    if ls == [] then 0 else (if ls[0].c == c then 1 else 0) + CountOf(ls[1..], c)
  }

  lemma {:induction false} StepProgress(s: State, l: Action, c: Cid)
    requires Healthy(s) && Works(l) && Step(s, l).Some? && c in s.clients
    ensures c in Step(s, l).value.clients
    ensures Progress(Step(s, l).value.clients[c]) == Progress(s.clients[c]) + if l.c == c then 1 else 0
  {}

  /** While no insertion fails, every action of a client brings it one further: over any run a client's actions are
      five for every acknowledged event and one for each step of the request under way, so they never exceed five
      times its input. */
  lemma {:induction false} ActionsAreProgress(s: State, ls: seq<Action>, c: Cid)
    requires Healthy(s) && AllWork(ls) && Run(s, ls).Some? && c in s.clients
    ensures c in Run(s, ls).value.clients
    ensures Progress(Run(s, ls).value.clients[c]) == Progress(s.clients[c]) + CountOf(ls, c)
    decreases |ls|
  {
    hide Progress;
    if ls == [] {
    } else {
      assert Works(ls[0]);
      assert forall i :: 0 <= i < |ls| - 1 ==> ls[1..][i] == ls[i + 1];
      assert AllWork([ls[0]]);
      StaysHealthy(s, [ls[0]]);
      assert [ls[0]][1..] == [];
      assert Run(s, [ls[0]]) == Run(Step(s, ls[0]).value, []);
      StepProgress(s, ls[0], c);
      ActionsAreProgress(Step(s, ls[0]).value, ls[1..], c);
    }
  }

  // ---------------------------------------------------------------- every run can be completed

  predicate Open(s: State, c: Cid) { s.holder.None? || s.holder == Some(c) }

  function Done(c: Client): Client { Client(c.input, |c.input|, Ready) }

  lemma {:induction false} RunConcat(s: State, a: seq<Action>, b: seq<Action>)
    requires Run(s, a).Some?
    ensures Run(s, a + b) == Run(Run(s, a).value, b)
    decreases |a|
  {
    if a == [] {
      assert a + b == b;
    } else {
      assert (a + b)[1..] == a[1..] + b;
      RunConcat(Step(s, a[0]).value, a[1..], b);
    }
  }

  /** What a working step of client `c` at an open connection leaves. */
  lemma {:induction false} NextStep(s: State, origins: seq<Cid>, c: Cid)
    requires Inv(s, origins) && Healthy(s) && c in s.clients && Open(s, c) && !Finished(s.clients[c])
    ensures var l := NextAction(c, s.clients[c]);
            && Step(s, l).Some? && Works(l) && l.c == c
            && var s' := Step(s, l).value;
               && Healthy(s') && Open(s', c) && s'.clients.Keys == s.clients.Keys
               && s'.clients == s.clients[c := s'.clients[c]] && s'.clients[c].input == s.clients[c].input
               && Progress(s'.clients[c]) == Progress(s.clients[c]) + 1
               && (Finished(s'.clients[c]) ==> s'.holder.None?)
  {
    assert s.holder == Some(c) <==> s.clients[c].phase.Locked? || s.clients[c].phase.Stored?;
    assert ClientOk(s.clients[c]);
    var l := NextAction(c, s.clients[c]);
    StepProgress(s, l, c);
  }

  lemma {:induction false} ProgressBound(c: Client)
    requires ClientOk(c)
    ensures Progress(c) <= 5 * |c.input|
  {}

  /** One client runs to its end; the others stay where they are. */
  lemma {:induction false} FinishClient(s: State, origins: seq<Cid>, c: Cid)
          returns (ls: seq<Action>, s': State, origins': seq<Cid>)
    requires Inv(s, origins) && Healthy(s) && c in s.clients && Open(s, c) && !s.clients[c].phase.Failed?
    ensures Run(s, ls) == Some(s') && AllWork(ls) && Inv(s', origins') && Healthy(s')
    ensures s'.holder.None? && s'.clients == s.clients[c := Done(s.clients[c])]
    decreases 5 * |s.clients[c].input| - Progress(s.clients[c])
  {
    hide From, NumberedFromOne, NextId, Step, Progress;
    assert ClientOk(s.clients[c]);
    ProgressBound(s.clients[c]);
    if Finished(s.clients[c]) {
      ls, s', origins' := [], s, origins;
      assert s.holder != Some(c);
      assert s.clients == s.clients[c := Done(s.clients[c])];
    } else {
      var l := NextAction(c, s.clients[c]);
      NextStep(s, origins, c);
      StepKeeps(s, origins, l);
      var s1 := Step(s, l).value;
      assert ClientOk(s1.clients[c]);
      ProgressBound(s1.clients[c]);
      var rest;
      rest, s', origins' := FinishClient(s1, origins + (if l.Execute? && l.works then [l.c] else []), c);
      ls := [l] + rest;
      assert ls[1..] == rest;
    }
  }

  function Unfinished(s: State): set<Cid> {
    set c | c in s.clients && !Finished(s.clients[c])
  }

  /** All clients run to their ends. */
  lemma {:induction false} FinishAll(s: State, origins: seq<Cid>) returns (ls: seq<Action>, s': State)
    requires Inv(s, origins) && Healthy(s)
    ensures Run(s, ls) == Some(s') && AllWork(ls)
    ensures s'.clients.Keys == s.clients.Keys && forall c :: c in s.clients ==> s'.clients[c] == Done(s.clients[c])
    decreases |Unfinished(s)|
  {
    hide Inv, Step, Run;
    if Unfinished(s) == {} {
      ls, s' := [], s;
      NothingToDo(s);
    } else {
      var c := NextToFinish(s, origins);
      var a, m, origins' := FinishClient(s, origins, c);
      assert Unfinished(m) == Unfinished(s) - {c};
      var b;
      b, s' := FinishAll(m, origins');
      ls := a + b;
      RunConcat(s, a, b);
    }
  }

  lemma {:induction false} NothingToDo(s: State)
    requires Unfinished(s) == {} && Healthy(s)
    ensures Run(s, []) == Some(s) && forall c :: c in s.clients ==> s.clients[c] == Done(s.clients[c])
  {
    forall c | c in s.clients ensures s.clients[c] == Done(s.clients[c]) {
      assert c !in Unfinished(s);
    }
  }

  /** The holder of the connection if there is one, else anybody who is not finished. */
  lemma {:induction false} NextToFinish(s: State, origins: seq<Cid>) returns (c: Cid)
    requires Inv(s, origins) && Unfinished(s) != {}
    ensures c in Unfinished(s) && Open(s, c)
  {
    if s.holder.Some? {
      c := s.holder.value;
      assert s.holder == Some(c);
    } else {
      c :| c in Unfinished(s);
    }
  }

  /** Every run of a new daemon in which no insertion fails can be continued so that every client's input is stored and
      acknowledged; and no client makes more than five actions per event, however the run goes. */
  lemma {:induction false} EveryRunCompletes(s: State, ls: seq<Action>) returns (more: seq<Action>)
    requires Fresh(s) && AllWork(ls) && Run(s, ls).Some?
    ensures AllWork(more) && Run(s, ls + more).Some?
    ensures forall c :: c in s.clients ==>
              && CountOf(ls, c) <= 5 * |s.clients[c].input|
              && c in Run(s, ls + more).value.clients
              && Run(s, ls + more).value.clients[c] == Done(s.clients[c])
  {
    hide Run, Step;
    FreshIsGood(s);
    RunKeeps(s, [], ls, Inserters(ls));
    StaysHealthy(s, ls);
    var m := Run(s, ls).value;
    var end;
    more, end := FinishAll(m, Inserters(ls));
    RunConcat(s, ls, more);
    forall c | c in s.clients
      ensures CountOf(ls, c) <= 5 * |s.clients[c].input| && c in end.clients && end.clients[c] == Done(s.clients[c])
    {
      InputsStay(s, ls, c);
      ActionsAreProgress(s, ls, c);
      assert ClientOk(m.clients[c]);
      ProgressBound(m.clients[c]);
    }
  }

  lemma {:induction false} FreshIsGood(s: State)
    requires Fresh(s)
    ensures Inv(s, []) && Healthy(s)
  {}

  // ---------------------------------------------------------------- replay

  function Rows(descriptions: seq<string>): seq<Row> {
    seq(|descriptions|, i requires 0 <= i < |descriptions| => Row(i + 1, Some(descriptions[i])))
  }

  lemma {:induction false} ReadableAt(table: seq<Row>)
    requires NumberedFromOne(table)
    ensures |Readable(table)| == |table| && forall i :: 0 <= i < |table| ==>
          table[i].description == Some(Readable(table)[i])
  {
    ReadableAll(table);
  }

  lemma {:induction false} ReadableAll(table: seq<Row>)
    requires forall i :: 0 <= i < |table| ==> table[i].description.Some?
    ensures |Readable(table)| == |table| && forall i :: 0 <= i < |table| ==>
          table[i].description == Some(Readable(table)[i])
  {
    if table == [] {
    } else {
      ReadableAll(table[1..]);
      assert forall i :: 1 <= i < |table| ==> table[i] == table[1..][i - 1];
    }
  }

  lemma {:induction false} OnlyOrigin(table: seq<Row>, origins: seq<Cid>, c: Cid)
    requires |table| == |origins| && NumberedFromOne(table) && forall i :: 0 <= i < |origins| ==> origins[i] == c
    ensures From(table, origins, c) == Readable(table)
  {
    ReadableAt(table);
    if table == [] {
    } else {
      var n := |table| - 1;
      OnlyOrigin(table[..n], origins[..n], c);
      ReadableAt(table[..n]);
      assert From(table, origins, c) == Readable(table[..n]) + [table[n].description.value];
      assert Readable(table) == Readable(table[..n]) + [table[n].description.value];
    }
  }

  lemma {:induction false} RowsOfReadable(table: seq<Row>)
    requires NumberedFromOne(table)
    ensures table == Rows(Readable(table))
  {
    ReadableAt(table);
  }

  /** One client that replays a table another daemon recorded, into a new daemon: at any time the new table is a
      prefix of the old one, ids included; once everything is acknowledged they are equal. */
  lemma {:induction false} ReplayReproduces(source: seq<Row>, s: State, ls: seq<Action>, c: Cid)
    requires NumberedFromOne(source)
    requires Fresh(s) && s.clients == map[c := Client(Readable(source), 0, Ready)] && Run(s, ls).Some?
    ensures var s' := Run(s, ls).value;
            && s'.table <= source
            && (c in s'.clients && s'.clients[c].acked == |source| ==> s'.table == source)
  {
    TableIsMerge(s, ls, c);
    var s' := Run(s, ls).value;
    OnlyOrigin(s'.table, Inserters(ls), c);
    ReadableAt(source);
    RowsOfReadable(source);
    RowsOfReadable(s'.table);
    var k := StoredCount(s'.clients[c]);
    assert s'.table == source[..k];
  }

  // ---------------------------------------------------------------- the recorder and the replay client as they run

  /** A database file: its table `rtevents`, if it has one. */
  class Connection {
    var rtevents: Option<seq<Row>>

    constructor (existing: Option<seq<Row>>)
      ensures rtevents == existing
    {
      rtevents := existing;
    }

    /** CREATE TABLE fails if the table exists. */
    method CreateTable() returns (ok: bool)
      modifies this
      ensures ok == old(rtevents).None?
      ensures rtevents == if ok then Some([]) else old(rtevents)
    {
      ok := rtevents.None?;
      if ok { rtevents := Some([]); }
    }

    method InsertDescription(description: string)
      requires rtevents.Some?
      modifies this
      ensures rtevents == Some(Insert(old(rtevents.value), description))
    {
      rtevents := Some(rtevents.value + [Row(NextId(rtevents.value), Some(description))]);
    }
  }

  /** The table after inserting descriptions one by one. */
  function InsertAll(table: seq<Row>, descriptions: seq<string>): seq<Row> {
    if descriptions == [] then table
    else Insert(InsertAll(table, descriptions[..|descriptions| - 1]), descriptions[|descriptions| - 1])
  }

  lemma {:induction false} ReadableInserted(table: seq<Row>, description: string)
    requires NumberedFromOne(table)
    ensures NumberedFromOne(Insert(table, description))
    ensures Readable(Insert(table, description)) == Readable(table) + [description]
  {
    NextIdIs(table);
    ReadableAt(table);
    ReadableAt(Insert(table, description));
  }

  /** Replaying into a recorder numbers the new rows on, and what can be read afterwards is what could be read before
      followed by the replayed descriptions. */
  lemma {:induction false} InsertAllNumbered(table: seq<Row>, descriptions: seq<string>)
    requires NumberedFromOne(table)
    ensures NumberedFromOne(InsertAll(table, descriptions))
    ensures Readable(InsertAll(table, descriptions)) == Readable(table) + descriptions
    decreases |descriptions|
  {
    hide NumberedFromOne, Readable, Insert;
    if descriptions == [] {
      assert Readable(table) + [] == Readable(table);
    } else {
      var n := |descriptions| - 1;
      InsertAllNumbered(table, descriptions[..n]);
      ReadableInserted(InsertAll(table, descriptions[..n]), descriptions[n]);
      assert descriptions[..n] + [descriptions[n]] == descriptions;
      assert Readable(table) + (descriptions[..n] + [descriptions[n]]) == (Readable(table) + descriptions[..n])
          + [descriptions[n]];
    }
  }

  /** Replaying a recorded table into a new recorder copies it, ids included. */
  lemma {:induction false} ReplayCopies(source: seq<Row>)
    requires NumberedFromOne(source)
    ensures InsertAll([], Readable(source)) == source
  {
    InsertAllNumbered([], Readable(source));
    RowsOfReadable(source);
    RowsOfReadable(InsertAll([], Readable(source)));
    assert Readable([]) + Readable(source) == Readable(source);
  }

  class SqliteRecorder {
    const connection: Connection
    var poisoned: bool  // the mutex around the connection

    /** `new`, once the table has been created. */
    constructor (database: Connection)
      requires database.rtevents.Some?
      ensures connection == database && !poisoned
    {
      connection := database;
      poisoned := false;
    }

    /** `new`: None if the database already has the table, whose rows are then left alone. */
    static method New(database: Connection) returns (recorder: Option<SqliteRecorder>)
      modifies database
      ensures recorder.Some? <==> old(database.rtevents).None?
      ensures database.rtevents == if recorder.Some? then Some([]) else old(database.rtevents)
      ensures recorder.Some? ==>
            fresh(recorder.value) && recorder.value.connection == database && !recorder.value.poisoned
    {
      var ok := database.CreateTable();
      if !ok { return None; }
      var r := new SqliteRecorder(database);
      return Some(r);
    }

    /** `record_events`: one new row, then the acknowledgement. A poisoned mutex panics; so does an insertion that
        does not work, and it poisons the mutex. */
    method RecordEvents(description: string, works: bool) returns (ack: Option<string>)
      requires connection.rtevents.Some?
      modifies this`poisoned, connection
      ensures ack == if !old(poisoned) && works then Some("ack") else None
      ensures poisoned == (old(poisoned) || !works)
      ensures connection.rtevents ==
              if !old(poisoned) && works then Some(Insert(old(connection.rtevents.value), description))
                  else old(connection.rtevents)
    {
      if poisoned {
        return None;
      }
      if !works {
        poisoned := true;
        return None;
      }
      connection.InsertDescription(description);
      return Some("ack");
    }

    /** The replay client's loop, against a recorder whose insertions work: one request for every row, each awaited;
        it gives up at a row without description. */
    method Replay(source: seq<Row>) returns (ok: bool)
      requires connection.rtevents.Some? && !poisoned
      modifies this`poisoned, connection
      ensures connection.rtevents == Some(InsertAll(old(connection.rtevents.value), Readable(source))) && !poisoned
      ensures ok <==> forall i :: 0 <= i < |source| ==> source[i].description.Some?
    {
      hide InsertAll, Readable, Insert;
      ghost var table := connection.rtevents.value;
      ReadableNothing(source, table);
      for i := 0 to |source|
        invariant !poisoned && forall j :: 0 <= j < i ==> source[j].description.Some?
        invariant connection.rtevents == Some(InsertAll(table, Readable(source[..i])))
      {
        if source[i].description.None? {
          ReadableStops(source, i);
          return false;
        }
        ReadableNext(source, i, table);
        var ack := RecordEvents(source[i].description.value, true);
      }
      assert source[..|source|] == source;
      ok := true;
    }
  }

  lemma {:induction false} ReadableNothing(source: seq<Row>, table: seq<Row>)
    ensures InsertAll(table, Readable(source[..0])) == table
  {}

  /** Reading one more row and inserting its description. */
  lemma {:induction false} ReadableNext(source: seq<Row>, i: nat, table: seq<Row>)
    requires i < |source| && forall j :: 0 <= j <= i ==> source[j].description.Some?
    ensures InsertAll(table, Readable(source[..i + 1])) ==
            Insert(InsertAll(table, Readable(source[..i])), source[i].description.value)
  {
    ReadableAll(source[..i]);
    ReadableAll(source[..i + 1]);
    var read, next := Readable(source[..i]), Readable(source[..i + 1]);
    assert next == read + [source[i].description.value];
    assert next[..|next| - 1] == read;
  }

  lemma {:induction false} ReadableStops(table: seq<Row>, n: nat)
    requires n < |table| && table[n].description.None?
    requires forall i :: 0 <= i < n ==> table[i].description.Some?
    ensures Readable(table) == Readable(table[..n])
  {
    if n == 0 {
    } else {
      ReadableStops(table[1..], n - 1);
      assert table[..n][1..] == table[1..][..n - 1];
    }
  }
}
