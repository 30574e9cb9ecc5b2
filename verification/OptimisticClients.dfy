/**
 The optimistic retry loop: read the project's config, change it, write it
 back checked against the version read, up to three times. Any number of
 callers share one versioned document.
 */
module OptimisticClients {
  import opened Prelude
  import opened VersionedRegister

  const ATTEMPTS := 3

  /**
   What each caller's change makes of a value on each attempt; `None` when it
   changes nothing.
   */
  type Change<!V> = (nat, nat, V) -> Option<V>

  datatype Outcome = Changed | Unchanged | Error

  /** `attempt` counts from 0; a holding caller has read `version` and is about to write `value`. */
  datatype Phase<V> =
    | Reading(attempt: nat)
    | Holding(attempt: nat, version: int, value: V)
    | Done(outcome: Outcome)

  /** A write that landed: whose, from which attempt, over which version, as which version. */
  datatype Entry = Entry(id: nat, attempt: nat, over: int, version: int)

  /** `start` is the document before any caller; `history` and `gets` record the run. */
  datatype State<V> = State(
    start: Register<V>, register: Register<V>, history: seq<Entry>,
    callers: map<nat, Phase<V>>, gets: map<nat, nat>)

  datatype Step =
    | Call(id: nat)
    | Get(id: nat)
    | GetFails(id: nat)
    | Upsert(id: nat, version: int)   // the store's answer to a write: checked, numbered by the store
    | UpsertFails(id: nat)

  predicate Enabled<V>(s: State<V>, step: Step) {
    match step
    case Call(id) => id !in s.callers
    case Get(id) => id in s.callers && s.callers[id].Reading? && id in s.gets
    case GetFails(id) => id in s.callers && s.callers[id].Reading? && id in s.gets
    case Upsert(id, version) => id in s.callers && s.callers[id].Holding? && version > s.register.version
    case UpsertFails(id) => id in s.callers && s.callers[id].Holding?
  }

  function To<V>(s: State<V>, id: nat, p: Phase<V>): State<V> {
    s.(callers := s.callers[id := p])
  }

  /** After a write that did not land: the next attempt, if there is one. */
  function Retry<V>(attempt: nat): Phase<V> {
    if attempt + 1 < ATTEMPTS then Reading(attempt + 1) else Done(Error)
  }

  /** A version above 0 is sent as the expected one; otherwise the write is unconditional. */
  predicate Lands<V>(r: Register<V>, read: int) {
    read > 0 ==> r.version == read
  }

  function Apply<V>(change: Change<V>, s: State<V>, step: Step): State<V>
    requires Enabled(s, step)
  {
    match step
    case Call(id) => To(s, id, Reading(0)).(gets := s.gets[id := 0])
    case Get(id) =>
      var k := s.callers[id].attempt;
      var s' := s.(gets := s.gets[id := s.gets[id] + 1]);
      (match change(id, k, s.register.value)
       case None => To(s', id, Done(Unchanged))
       case Some(v) => To(s', id, Holding(k, s.register.version, v)))
    case GetFails(id) => To(s, id, Done(Error)).(gets := s.gets[id := s.gets[id] + 1])
    case Upsert(id, version) =>
      var p := s.callers[id];
      if Lands(s.register, p.version) then
        To(s, id, Done(Changed)).(
          register := Register(version, p.value),
          history := s.history + [Entry(id, p.attempt, s.register.version, version)])
      else To(s, id, Retry(p.attempt))
    case UpsertFails(id) => To(s, id, Retry(s.callers[id].attempt))
  }

  predicate Start<V(==)>(s: State<V>) {
    s.register == s.start && s.history == [] && s.callers == map[] && s.gets == map[]
  }

  ghost predicate Run<V>(change: Change<V>, run: seq<State<V>>, steps: seq<Step>) {
    && |run| == |steps| + 1
    && Start(run[0])
    && forall i :: 0 <= i < |steps| ==> Enabled(run[i], steps[i]) && run[i + 1] == Apply(change, run[i], steps[i])
  }

  /**
   The changes of `history`, one after the other: each applied to the value
   it replaced, over its version, by a higher one. `None` when some entry
   does not follow the one before it.
   */
  function Replay<V>(change: Change<V>, start: Register<V>, history: seq<Entry>): Option<Register<V>> {
    if history == [] then Some(start)
    else
      var e := history[|history| - 1];
      match Replay(change, start, history[..|history| - 1])
      case None => None
      case Some(r) =>
        if r.version == e.over && e.version > e.over && change(e.id, e.attempt, r.value).Some?
        then Some(Register(e.version, change(e.id, e.attempt, r.value).value))
        else None
  }

  /** How many of the writes that landed are `id`'s. */
  function Landed(history: seq<Entry>, id: nat): nat {
    if history == [] then 0
    else Landed(history[..|history| - 1], id) + if history[|history| - 1].id == id then 1 else 0
  }

  /** How many writes a caller answered `Changed` for. */
  function Answered<V(==)>(s: State<V>, id: nat): nat {
    if id in s.callers && s.callers[id] == Done(Changed) then 1 else 0
  }

  /**
   What the callers are promised: the document is the composition of exactly
   the changes that were answered `Changed`, and nobody tries a fourth time.
   */
  ghost predicate Serial<V>(change: Change<V>, s: State<V>) {
    && Replay(change, s.start, s.history) == Some(s.register)
    && (forall id :: Landed(s.history, id) == Answered(s, id))
    && (forall id :: id in s.gets ==> s.gets[id] <= ATTEMPTS)
  }

  /** A caller's own bookkeeping: what it holds was made from the version it read. */
  ghost predicate CallerSound<V>(change: Change<V>, s: State<V>, id: nat)
    requires id in s.callers
  {
    && id in s.gets && s.gets[id] <= ATTEMPTS
    && (s.callers[id].Reading? ==> s.gets[id] == s.callers[id].attempt < ATTEMPTS)
    && (s.callers[id].Holding? ==>
          var p := s.callers[id];
          && s.gets[id] == p.attempt + 1
          && 0 < p.version <= s.register.version
          && (p.version == s.register.version ==> change(id, p.attempt, s.register.value) == Some(p.value)))
  }

  ghost predicate Inv<V>(change: Change<V>, s: State<V>) {
    && Serial(change, s)
    && s.register.version > 0
    && s.gets.Keys == s.callers.Keys
    && (forall id :: id in s.callers ==> CallerSound(change, s, id))
  }

  lemma {:induction false} KeepsMover<V>(change: Change<V>, s: State<V>, step: Step)
    requires Enabled(s, step) && s.register.version > 0
    requires step.id in s.callers ==> CallerSound(change, s, step.id)
    ensures CallerSound(change, Apply(change, s, step), step.id)
  {
  }

  lemma {:induction false} KeepsOther<V>(change: Change<V>, s: State<V>, step: Step, id: nat)
    requires Enabled(s, step) && id in s.callers && id != step.id && CallerSound(change, s, id)
    ensures id in Apply(change, s, step).callers && Apply(change, s, step).callers[id] == s.callers[id]
    ensures CallerSound(change, Apply(change, s, step), id)
  {
  }

  /** One write more: it extends the replay, and is its caller's only one. */
  lemma {:induction false} KeepsHistory<V>(change: Change<V>, s: State<V>, step: Step)
    requires Enabled(s, step) && s.register.version > 0
    requires Replay(change, s.start, s.history) == Some(s.register)
    requires step.id in s.callers ==> CallerSound(change, s, step.id)
    ensures var s' := Apply(change, s, step);
            && s'.register.version > 0
            && Replay(change, s.start, s'.history) == Some(s'.register)
            && forall id :: Landed(s'.history, id) ==
                 Landed(s.history, id) + if s'.history != s.history && id == step.id then 1 else 0
  {
  }

  lemma {:induction false} KeepsSound<V>(change: Change<V>, s: State<V>, step: Step, id: nat)
    requires Inv(change, s) && Enabled(s, step) && id in Apply(change, s, step).callers
    ensures CallerSound(change, Apply(change, s, step), id)
    ensures id != step.id ==> Answered(Apply(change, s, step), id) == Answered(s, id)
  {
    if id == step.id {
      KeepsMover(change, s, step);
    } else {
      KeepsOther(change, s, step, id);
    }
  }

  lemma {:induction false} KeepsInv<V>(change: Change<V>, s: State<V>, step: Step)
    requires Inv(change, s) && Enabled(s, step)
    ensures Inv(change, Apply(change, s, step))
  {
    var s' := Apply(change, s, step);
    KeepsHistory(change, s, step);
    forall id | id in s'.callers
      ensures CallerSound(change, s', id)
    {
      KeepsSound(change, s, step, id);
    }
    forall id
      ensures Landed(s'.history, id) == Answered(s', id)
    {
      if id in s'.callers {
        KeepsSound(change, s, step, id);
      }
    }
    assert s'.gets.Keys == s'.callers.Keys;
  }

  lemma {:induction false} Serialises<V>(change: Change<V>, run: seq<State<V>>, steps: seq<Step>, n: nat)
    requires Run(change, run, steps) && n < |run| && run[0].start.version > 0
    ensures Inv(change, run[n]) && run[n].start == run[0].start
  {
    if n > 0 {
      Serialises(change, run, steps, n - 1);
      KeepsInv(change, run[n - 1], steps[n - 1]);
    }
  }

  ghost predicate AlwaysSerial(version: int) {
    forall change: Change<int>, run: seq<State<int>>, steps: seq<Step>, n: nat ::
      Run(change, run, steps) && n < |run| && run[0].start.version == version ==> Serial(change, run[n])
  }

  /** Both callers of a document without a version have read it. */
  lemma {:induction false} BothHold(change: Change<int>, version: int) returns (run: seq<State<int>>, steps: seq<Step>)
    requires forall id, k, v :: change(id, k, v) == Some(v + 1)
    ensures Run(change, run, steps)
    ensures run[0].start == Register(version, 0)
    ensures run[|steps|] == State(Register(version, 0), Register(version, 0), [],
                                  map[0 := Holding(0, version, 1), 1 := Holding(0, version, 1)], map[0 := 1, 1 := 1])
  {
    var s0 := State(Register(version, 0), Register(version, 0), [], map[], map[]);
    var s1 := Apply(change, s0, Call(0));
    var s2 := Apply(change, s1, Call(1));
    var s3 := Apply(change, s2, Get(0));
    run, steps := [s0, s1, s2, s3, Apply(change, s3, Get(1))], [Call(0), Call(1), Get(0), Get(1)];
  }

  /** Two unconditional writes of one reading: the second is not a change of what it replaced. */
  lemma {:induction false} SecondWriteLoses(change: Change<int>, s: State<int>)
    requires s.history == [Entry(0, 0, s.start.version, 1), Entry(1, 0, 1, 2)] && s.register.value == 1
    requires s.start.value == 0 && forall id, k, v :: change(id, k, v) == Some(v + 1)
    ensures !Serial(change, s)
  {
    var first := [Entry(0, 0, s.start.version, 1)];
    assert first[..0] == [] && s.history[..1] == first;
    assert Replay(change, s.start, first) in {None, Some(Register(1, 1))};
  }

  /** At version 0 or below the writes are unconditional: the second of two callers loses the first's. */
  lemma {:induction false} Unversioned(version: int)
    requires version <= 0
    ensures !AlwaysSerial(version)
  {
    hide Serial, Replay;
    var change: Change<int> := (id: nat, attempt: nat, v: int) => Some(v + 1);
    var run, steps := BothHold(change, version);
    var s1 := Apply(change, run[|steps|], Upsert(0, 1));
    var s2 := Apply(change, s1, Upsert(1, 2));
    assert Run(change, run + [s1, s2], steps + [Upsert(0, 1), Upsert(1, 2)]);
    assert (run + [s1, s2])[|steps| + 2] == s2;
    SecondWriteLoses(change, s2);
  }

  /** Callers serialise in every run exactly when the document they start from has a version. */
  lemma {:induction false} SerialisesBound(version: int)
    ensures AlwaysSerial(version) <==> version > 0
  {
    if version > 0 {
      forall change: Change<int>, run: seq<State<int>>, steps: seq<Step>, n: nat
        | Run(change, run, steps) && n < |run| && run[0].start.version == version
        ensures Serial(change, run[n])
      {
        Serialises(change, run, steps, n);
      }
    } else {
      Unversioned(version);
    }
  }

  /** The shared document as one caller drives it, with the other callers writing in between. */
  class SharedConfig<V> {
    const change: Change<V>
    ghost const start: Register<V>
    var register: Register<V>
    ghost var history: seq<Entry>

    /** The document is the composition of the changes that landed. */
    ghost predicate Valid()
      reads this`register, this`history
    {
      register.version > 0 && Replay(change, start, history) == Some(register)
    }

    constructor (change: Change<V>, register: Register<V>)
      requires register.version > 0
      ensures Valid() && this.change == change && this.start == this.register == register && history == []
    {
      this.change, this.start, this.register, this.history := change, register, register, [];
    }

    /** A write of `value` that another caller may have overtaken. */
    method Upsert(ghost id: nat, ghost attempt: nat, value: V, expected: Option<int>) returns (ok: bool)
      requires Valid()
      requires expected.Some? && expected.value <= register.version
      requires expected.value == register.version ==> change(id, attempt, register.value) == Some(value)
      modifies this`register, this`history
      ensures Valid()
      ensures ok ==> expected.value == old(register).version < register.version && register.value == value
      ensures ok ==> history == old(history) + [Entry(id, attempt, old(register).version, register.version)]
      ensures !ok ==> register == old(register) && history == old(history)
    {
      var reachable: bool := *;
      ok := reachable && (expected.Some? ==> expected.value == register.version);
      if ok {
        var version: int :| version > register.version;
        ghost var entry := Entry(id, attempt, register.version, version);
        assert (history + [entry])[..|history|] == history;
        register, history := Register(version, value), history + [entry];
      }
    }

    /** Any number of writes by callers other than `id`. */
    method OthersWrite(id: nat)
      requires Valid()
      modifies this`register, this`history
      ensures Valid() && Landed(history, id) == Landed(old(history), id)
      ensures register == old(register) || register.version > old(register).version
    {
      var writes: nat :| 0 <= writes;
      for i := 0 to writes
        invariant Valid() && Landed(history, id) == Landed(old(history), id)
        invariant register == old(register) || register.version > old(register).version
      {
        var other: nat, attempt: nat := *, *;
        var made := change(other, attempt, register.value);
        if made.Some? && other != id {
          ghost var before := history;
          var ok := Upsert(other, attempt, made.value, Some(register.version));
          assert ok ==> history[..|history| - 1] == before;
        }
      }
    }

    /**
     One caller's update, with others writing around each of its calls. It
     lands its change once when it answers `Changed` and never otherwise,
     and reads the document at most three times.
     */
    method Update(id: nat) returns (outcome: Outcome, ghost gets: nat)
      requires Valid()
      modifies this`register, this`history
      ensures Valid()
      ensures Landed(history, id) == Landed(old(history), id) + if outcome == Changed then 1 else 0
      ensures gets <= ATTEMPTS
    {
      gets := 0;
      for attempt := 0 to ATTEMPTS
        invariant Valid() && gets == attempt && Landed(history, id) == Landed(old(history), id)
      {
        OthersWrite(id);
        gets := gets + 1;
        var readable: bool := *;
        if !readable {
          return Error, gets;
        }
        var held := register;
        var made := change(id, attempt, held.value);
        if made.None? {
          return Unchanged, gets;
        }
        OthersWrite(id);
        ghost var before := history;
        var ok := Upsert(id, attempt, made.value, if held.version > 0 then Some(held.version) else None);
        if ok {
          assert history[..|history| - 1] == before;
          return Changed, gets;
        }
      }
      outcome := Error;
    }
  }
}
