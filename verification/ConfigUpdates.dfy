/**
 The optimistic callers over the claim protocol: every write a caller makes is
 one call of the protocol, taken step by step among the calls of the others.
 When no two calls together outlive a claim, and every read finds the document
 as its header announced it, a write is to its caller one checked step.
 */
module ConfigUpdates {
  import opened Prelude
  import opened VersionClaims
  import opened VersionedRegister
  import Protocol = ClaimProtocol
  import Clients = OptimisticClients

  type Value<P> = seq<P>

  /**
   The document and the calls on it, the callers, and which call is each
   caller's, if one is under way. `start`, `history` and `gets` record the run.
   */
  datatype State<P> = State(
    doc: Protocol.State<P>, under: map<nat, nat>,
    start: Register<Value<P>>, history: seq<Clients.Entry>,
    callers: map<nat, Clients.Phase<Value<P>>>, gets: map<nat, nat>)

  datatype Step<P> =
    | Tick(d: nat)
    | Call(id: nat)
    | Get(id: nat)                               // reads the header's version and the parts
    | GetFails(id: nat)
    | Begin(id: nat, call: nat)                  // the write reaches the client
    | Unreachable(id: nat)                       // or does not
    | Move(id: nat, step: Protocol.Step<P>)      // a step of the caller's write
    | Answered(id: nat)                          // the write was refused, or failed

  predicate Over(p: Protocol.Phase) {
    p.Refused? || p.Failed? || p.Crashed?
  }

  predicate Enabled<P(!new)>(s: State<P>, step: Step<P>) {
    match step
    case Tick(d) => true
    case Call(id) => id !in s.callers
    case Get(id) => id in s.callers && s.callers[id].Reading? && id in s.gets
    case GetFails(id) => id in s.callers && s.callers[id].Reading? && id in s.gets
    case Begin(id, call) =>
      && id in s.callers && s.callers[id].Holding? && id !in s.under
      && Protocol.Enabled(s.doc, Write(s.callers[id], call))
    case Unreachable(id) => id in s.callers && s.callers[id].Holding? && id !in s.under
    case Move(id, step) =>
      && id in s.callers && s.callers[id].Holding? && id in s.under
      && !step.Tick? && !step.ReadHeader? && step.id == s.under[id]
      && Protocol.Enabled(s.doc, step)
    case Answered(id) =>
      && id in s.callers && s.callers[id].Holding? && id in s.under
      && s.under[id] in s.doc.calls && Over(s.doc.calls[s.under[id]].phase)
  }

  /** The write of a holding caller: a version above 0 is sent as the expected one. */
  function Write<P>(p: Clients.Phase<Value<P>>, call: nat): Protocol.Step<P>
    requires p.Holding?
  {
    Protocol.ReadHeader(call, p.value, if p.version > 0 then Some(p.version) else None, true)
  }

  function To<P>(s: State<P>, id: nat, p: Clients.Phase<Value<P>>): State<P> {
    s.(callers := s.callers[id := p])
  }

  function Apply<P(!new)>(change: Clients.Change<Value<P>>, s: State<P>, step: Step<P>): State<P>
    requires Enabled(s, step)
  {
    match step
    case Tick(d) => s.(doc := Protocol.Apply(s.doc, Protocol.Tick(d)))
    case Call(id) => To(s, id, Clients.Reading(0)).(gets := s.gets[id := 0])
    case Get(id) =>
      var k := s.callers[id].attempt;
      var s' := s.(gets := s.gets[id := s.gets[id] + 1]);
      (match change(id, k, s.doc.stored)
       case None => To(s', id, Clients.Done(Clients.Unchanged))
       case Some(v) => To(s', id, Clients.Holding(k, s.doc.committed.version, v)))
    case GetFails(id) => To(s, id, Clients.Done(Clients.Error)).(gets := s.gets[id := s.gets[id] + 1])
    case Begin(id, call) => s.(doc := Protocol.Apply(s.doc, Write(s.callers[id], call)), under := s.under[id := call])
    case Unreachable(id) => To(s, id, Clients.Retry(s.callers[id].attempt))
    case Move(id, step) =>
      var s' := s.(doc := Protocol.Apply(s.doc, step));
      if step.PutHeader? then
        To(s', id, Clients.Done(Clients.Changed)).(
          under := s.under - {id},
          history := s.history + [Clients.Entry(id, s.callers[id].attempt, s.doc.committed.version, s'.doc.committed.version)])
      else s'
    case Answered(id) => To(s, id, Clients.Retry(s.callers[id].attempt)).(under := s.under - {id})
  }

  /** What the callers see: the document as its header announces it. */
  function AsClients<P>(s: State<P>): Clients.State<Value<P>> {
    Clients.State(s.start, s.doc.committed, s.history, s.callers, s.gets)
  }

  predicate Start<P(==)>(s: State<P>) {
    && Protocol.Start(s.doc) && s.under == map[]
    && Clients.Start(AsClients(s))
  }

  /** A read finds the document as its header announces it: no write half done, none given up half done. */
  predicate ReadsWhole<P(==)>(s: State<P>, step: Step<P>) {
    step.Get? ==> s.doc.stored == s.doc.committed.value
  }

  /** A run on which every write under way is timely. */
  ghost predicate Run<P(!new)>(change: Clients.Change<Value<P>>, run: seq<State<P>>, steps: seq<Step<P>>, d: int) {
    && |run| == |steps| + 1
    && Start(run[0])
    && (forall i :: 0 <= i < |steps| ==> Enabled(run[i], steps[i]) && run[i + 1] == Apply(change, run[i], steps[i]))
    && (forall i :: 0 <= i < |run| ==> Protocol.Timely(run[i].doc, d))
  }

  ghost predicate AllWhole<P(!new)>(run: seq<State<P>>, steps: seq<Step<P>>) {
    forall i :: 0 <= i < |steps| && i < |run| ==> ReadsWhole(run[i], steps[i])
  }

  // ----- the invariant

  /** What holds of the document whatever its callers are. */
  ghost predicate DocSound<P(!new)>(s: Protocol.State<P>, d: int) {
    && Protocol.Exclusive(s) && Protocol.Ordered(s, d)
    && forall call :: call in s.calls ==>
         Protocol.ExpectsItsRead(s.calls[call]) && Protocol.ProbedPassable(s, s.calls[call])
  }

  /** A caller's write is of what it holds, over the version it read. */
  ghost predicate Linked<P(!new)>(s: State<P>, id: nat) {
    id in s.under ==>
      && id in s.callers && s.callers[id].Holding? && s.under[id] in s.doc.calls
      && var c := s.doc.calls[s.under[id]];
         && c.value == s.callers[id].value
         && (s.callers[id].version > 0 ==> c.expected == Some(s.callers[id].version))
  }

  ghost predicate AllLinked<P(!new)>(s: State<P>) {
    forall id :: id in s.under ==> Linked(s, id)
  }

  ghost predicate Inv<P(!new)>(change: Clients.Change<Value<P>>, s: State<P>, d: int) {
    DocSound(s.doc, d) && AllLinked(s) && Clients.Inv(change, AsClients(s))
  }

  lemma {:induction false} KeepsDoc<P(!new)>(s: Protocol.State<P>, step: Protocol.Step<P>, d: int)
    requires DocSound(s, d) && Protocol.Enabled(s, step)
    requires Protocol.Timely(s, d) && 0 <= d && 2 * d <= CLAIM_TTL
    ensures DocSound(Protocol.Apply(s, step), d)
  {
    hide Protocol.Exclusive, Protocol.Ordered, Protocol.Timely, Protocol.Apply, Protocol.Enabled, Protocol.ExpectsItsRead;
    Protocol.KeepsExclusive(s, step, d);
    Protocol.KeepsOrdered(s, step, d);
    forall call | call in Protocol.Apply(s, step).calls
      ensures Protocol.ExpectsItsRead(Protocol.Apply(s, step).calls[call])
      ensures Protocol.ProbedPassable(Protocol.Apply(s, step), Protocol.Apply(s, step).calls[call])
    {
      Protocol.KeepsExpectation(s, step, call);
      Protocol.KeepsProbed(s, step, call);
    }
  }

  /** A step of the document leaves what its calls write, and over what. */
  lemma {:induction false} CallsStay<P(!new)>(s: Protocol.State<P>, step: Protocol.Step<P>)
    requires Protocol.Enabled(s, step)
    ensures forall call :: call in s.calls ==>
              && call in Protocol.Apply(s, step).calls
              && Protocol.Apply(s, step).calls[call].value == s.calls[call].value
              && Protocol.Apply(s, step).calls[call].expected == s.calls[call].expected
    ensures !step.PutHeader? ==> Protocol.Apply(s, step).committed == s.committed
  {
  }

  /** A write begun is a call of what its caller holds. */
  lemma {:induction false} BeginsCall<P(!new)>(s: Protocol.State<P>, p: Clients.Phase<Value<P>>, call: nat)
    requires p.Holding? && Protocol.Enabled(s, Write(p, call))
    ensures var s' := Protocol.Apply(s, Write(p, call));
            && call in s'.calls && s'.calls[call].value == p.value
            && (p.version > 0 ==> s'.calls[call].expected == Some(p.version))
  {
  }

  lemma {:induction false} KeepsLinked<P(!new)>(change: Clients.Change<Value<P>>, s: State<P>, step: Step<P>)
    requires AllLinked(s) && Enabled(s, step)
    ensures AllLinked(Apply(change, s, step))
  {
    hide Protocol.Apply, Protocol.Enabled, Write;
    match step {
      case Tick(d) => CallsStay(s.doc, Protocol.Tick(d));
      case Move(_, step) => CallsStay(s.doc, step);
      case Begin(id, call) =>
        BeginsCall(s.doc, s.callers[id], call);
        CallsStay(s.doc, Write(s.callers[id], call));
      case _ =>
    }
  }

  /** The step of the callers' register that a step amounts to; none when they see nothing of it. */
  function ClientStep<P>(s: State<P>, step: Step<P>): Option<Clients.Step> {
    match step
    case Call(id) => Some(Clients.Call(id))
    case Get(id) => Some(Clients.Get(id))
    case GetFails(id) => Some(Clients.GetFails(id))
    case Unreachable(id) => Some(Clients.UpsertFails(id))
    case Answered(id) => Some(Clients.UpsertFails(id))
    case Move(id, PutHeader(call)) =>
      if call in s.doc.calls && s.doc.calls[call].phase.Writing?
      then Some(Clients.Upsert(id, s.doc.calls[call].phase.version)) else None
    case _ => None
  }

  /** A header put is, to its caller, a write that lands on the version it read. */
  lemma {:induction false} PutLands<P(!new)>(change: Clients.Change<Value<P>>, s: State<P>, id: nat, call: nat, d: int)
    requires DocSound(s.doc, d) && Linked(s, id) && Enabled(s, Move(id, Protocol.PutHeader(call)))
    requires s.callers[id].version > 0
    ensures var step := Move(id, Protocol.PutHeader(call));
            && ClientStep(s, step).Some? && Clients.Enabled(AsClients(s), ClientStep(s, step).value)
            && AsClients(Apply(change, s, step)) == Clients.Apply(change, AsClients(s), ClientStep(s, step).value)
  {
    hide Protocol.Ordered;
    var c := s.doc.calls[call];
    assert Protocol.CallSound(s.doc, call) && Protocol.ExpectsItsRead(c);
    Protocol.FollowsItsRead(s.doc, call, d);
    assert c.phase.version > s.doc.committed.version == s.callers[id].version;
  }

  /** Any other step changes nothing the callers see of the document. */
  lemma {:induction false} SameRegister<P(!new)>(s: Protocol.State<P>, step: Protocol.Step<P>)
    requires Protocol.Enabled(s, step) && !step.PutHeader?
    ensures Protocol.Apply(s, step).committed == s.committed
  {
  }

  /** Every step is one step of the callers' register, or changes nothing the callers see. */
  lemma {:induction false} Refines<P(!new)>(change: Clients.Change<Value<P>>, s: State<P>, step: Step<P>, d: int)
    requires Inv(change, s, d) && Enabled(s, step) && ReadsWhole(s, step)
    ensures var a, a' := AsClients(s), AsClients(Apply(change, s, step));
            match ClientStep(s, step)
            case None => a' == a
            case Some(c) => Clients.Enabled(a, c) && a' == Clients.Apply(change, a, c)
  {
    hide Protocol.Apply, Protocol.Enabled, DocSound;
    match step {
      case Tick(d) => SameRegister(s.doc, Protocol.Tick(d));
      case Begin(id, call) => SameRegister(s.doc, Write(s.callers[id], call));
      case Move(id, PutHeader(call)) =>
        assert Clients.CallerSound(change, AsClients(s), id);
        PutLands(change, s, id, call, d);
      case Move(id, step) => SameRegister(s.doc, step);
      case _ =>
    }
  }

  lemma {:induction false} KeepsInv<P(!new)>(change: Clients.Change<Value<P>>, s: State<P>, step: Step<P>, d: int)
    requires Inv(change, s, d) && Enabled(s, step) && ReadsWhole(s, step)
    requires Protocol.Timely(s.doc, d) && 0 <= d && 2 * d <= CLAIM_TTL
    ensures Inv(change, Apply(change, s, step), d)
  {
    hide Protocol.Apply, DocSound, AllLinked, Clients.Inv, Clients.Apply, Clients.Enabled, Protocol.Timely;
    Refines(change, s, step, d);
    KeepsLinked(change, s, step);
    if ClientStep(s, step).Some? {
      Clients.KeepsInv(change, AsClients(s), ClientStep(s, step).value);
    }
    match step {
      case Tick(e) => KeepsDoc(s.doc, Protocol.Tick(e), d);
      case Begin(id, call) => KeepsDoc(s.doc, Write(s.callers[id], call), d);
      case Move(_, step) => KeepsDoc(s.doc, step, d);
      case _ =>
    }
  }

  lemma {:induction false} StartsInv<P(!new)>(change: Clients.Change<Value<P>>, s: State<P>, d: int)
    requires Start(s) && s.start.version > 0
    ensures Inv(change, s, d)
  {
  }

  /** One step of a run. */
  lemma {:induction false} RunStep<P(!new)>(change: Clients.Change<Value<P>>, run: seq<State<P>>, steps: seq<Step<P>>, d: int, i: nat)
    requires Run(change, run, steps, d)
    ensures |run| == |steps| + 1 && Start(run[0])
    ensures i < |steps| ==> Enabled(run[i], steps[i]) && run[i + 1] == Apply(change, run[i], steps[i])
    ensures i < |run| ==> Protocol.Timely(run[i].doc, d)
  {
  }

  lemma {:induction false} SameStart<P(!new)>(change: Clients.Change<Value<P>>, s: State<P>, step: Step<P>)
    requires Enabled(s, step)
    ensures Apply(change, s, step).start == s.start
  {
    hide Protocol.Apply, Protocol.Enabled;
  }

  /**
   Any number of callers over the protocol: when no two calls together
   outlive a claim and reads find the document whole, it is the composition
   of exactly the changes answered as made.
   */
  lemma {:induction false} UpdatesSerialise<P(!new)>(change: Clients.Change<Value<P>>, run: seq<State<P>>, steps: seq<Step<P>>, d: int, n: nat)
    requires Run(change, run, steps, d) && AllWhole(run, steps) && 0 <= d && 2 * d <= CLAIM_TTL
    requires n < |run| && run[0].start.version > 0
    ensures Inv(change, run[n], d) && run[n].start == run[0].start
    ensures Clients.Serial(change, AsClients(run[n]))
  {
    hide DocSound, AllLinked, Clients.CallerSound, Clients.Serial, Run, Apply, Enabled, Start, Protocol.Timely;
    if n == 0 {
      RunStep(change, run, steps, d, 0);
      StartsInv(change, run[0], d);
    } else {
      UpdatesSerialise(change, run, steps, d, n - 1);
      RunStep(change, run, steps, d, n - 1);
      assert ReadsWhole(run[n - 1], steps[n - 1]);
      KeepsInv(change, run[n - 1], steps[n - 1], d);
      SameStart(change, run[n - 1], steps[n - 1]);
    }
  }

  // ----- both conditions are needed

  /** Every run whose writes take at most `d`, and whose reads find the document whole if `whole` says so. */
  ghost predicate AlwaysSerial(d: int, whole: bool) {
    forall change: Clients.Change<Value<int>>, run: seq<State<int>>, steps: seq<Step<int>>, n: nat ::
      Run(change, run, steps, d) && (whole ==> AllWhole(run, steps)) && n < |run| && run[0].start.version > 0 ==>
        Clients.Serial(change, AsClients(run[n]))
  }

  /** A change that adds one to every part, and so shows when it is lost. */
  function Counted(id: nat, attempt: nat, v: Value<int>): Option<Value<int>> {
    Some(seq(|v|, i requires 0 <= i < |v| => v[i] + 1))
  }

  function Fresh(parts: Value<int>): (s: State<int>)
    ensures Start(s)
  {
    State(Protocol.State(0, 1, 1, Register(1, parts), parts, map[], map[], map[], map[]),
          map[], Register(1, parts), [], map[], map[])
  }

  /** A run with one more step. */
  lemma {:induction false} Extend(run: seq<State<int>>, steps: seq<Step<int>>, d: int, whole: bool, step: Step<int>)
    returns (run': seq<State<int>>, steps': seq<Step<int>>)
    requires Run(Counted, run, steps, d) && (whole ==> AllWhole(run, steps) && ReadsWhole(run[|steps|], step))
    requires Enabled(run[|steps|], step) && Protocol.Timely(Apply(Counted, run[|steps|], step).doc, d)
    ensures Run(Counted, run', steps', d) && (whole ==> AllWhole(run', steps')) && run'[0] == run[0]
    ensures |run'| == |steps'| + 1 && run'[|steps'|] == Apply(Counted, run[|steps|], step)
  {
    hide Apply, Enabled;
    run', steps' := run + [Apply(Counted, run[|steps|], step)], steps + [step];
  }

  /** Two callers hold what they made of version 1. */
  lemma {:induction false} BothRead(d: int) returns (run: seq<State<int>>, steps: seq<Step<int>>)
    requires 0 <= d
    ensures Run(Counted, run, steps, d) && AllWhole(run, steps) && run[0].start.version > 0
    ensures run[|steps|] ==
            State(Protocol.State(0, 1, 1, Register(1, [0]), [0], map[], map[], map[], map[]),
                  map[], Register(1, [0]), [],
                  map[0 := Clients.Holding(0, 1, [1]), 1 := Clients.Holding(0, 1, [1])], map[0 := 1, 1 := 1])
  {
    run, steps := [Fresh([0])], [];
    assert Run(Counted, run, steps, d) && AllWhole(run, steps);
    hide Run, AllWhole;
    CountedOne(0);
    CountedOne(1);
    hide Counted;
    run, steps := Extend(run, steps, d, true, Call(0));
    run, steps := Extend(run, steps, d, true, Call(1));
    run, steps := Extend(run, steps, d, true, Get(0));
    run, steps := Extend(run, steps, d, true, Get(1));
  }

  lemma {:induction false} CountedOne(id: nat)
    ensures Counted(id, 0, [0]) == Some([1])
  {
    assert Counted(id, 0, [0]).value == [1];
  }

  /** The first caller's write claims version 2 at time 0. */
  lemma {:induction false} FirstClaims(d: int) returns (run: seq<State<int>>, steps: seq<Step<int>>)
    requires 0 <= d
    ensures Run(Counted, run, steps, d) && AllWhole(run, steps) && run[0].start.version > 0
    ensures run[|steps|] ==
            State(Protocol.State(0, 1, 2, Register(1, [0]), [0], map[2 := Claimed(0)], map[2 := 0], map[],
                                 map[0 := Protocol.Call([1], Some(1), true, 1, 0, 0, Protocol.Writing(2, 0))]),
                  map[0 := 0], Register(1, [0]), [],
                  map[0 := Clients.Holding(0, 1, [1]), 1 := Clients.Holding(0, 1, [1])], map[0 := 1, 1 := 1])
  {
    hide Run, AllWhole;
    run, steps := BothRead(d);
    run, steps := Extend(run, steps, d, true, Begin(0, 0));
    run, steps := Extend(run, steps, d, true, Move(0, Protocol.Check(0)));
    run, steps := Extend(run, steps, d, true, Move(0, Protocol.TryClaim(0)));
  }

  /** The second caller's write reads version 1 just before the first puts version 2, at its deadline. */
  lemma {:induction false} SecondBegins(d: int) returns (run: seq<State<int>>, steps: seq<Step<int>>)
    requires 0 <= d
    ensures Run(Counted, run, steps, d) && AllWhole(run, steps) && run[0].start.version > 0
    ensures run[|steps|] ==
            State(Protocol.State(d, 1, 2, Register(1, [0]), [0], map[2 := Claimed(0)], map[2 := 0], map[],
                                 map[0 := Protocol.Call([1], Some(1), true, 1, 0, 0, Protocol.Writing(2, 0)),
                                     1 := Protocol.Call([1], Some(1), true, 1, d, d, Protocol.HeaderRead)]),
                  map[0 := 0, 1 := 1], Register(1, [0]), [],
                  map[0 := Clients.Holding(0, 1, [1]), 1 := Clients.Holding(0, 1, [1])], map[0 := 1, 1 := 1])
  {
    hide Run, AllWhole;
    run, steps := FirstClaims(d);
    run, steps := Extend(run, steps, d, true, Tick(d));
    run, steps := Extend(run, steps, d, true, Begin(1, 1));
  }

  lemma {:induction false} FirstPuts(d: int) returns (run: seq<State<int>>, steps: seq<Step<int>>)
    requires 0 <= d
    ensures Run(Counted, run, steps, d) && AllWhole(run, steps) && run[0].start.version > 0
    ensures run[|steps|] ==
            State(Protocol.State(d, 1, 2, Register(2, [1]), [1], map[2 := Claimed(0)], map[2 := 0], map[2 := d],
                                 map[0 := Protocol.Call([1], Some(1), true, 1, 0, 0, Protocol.Returned),
                                     1 := Protocol.Call([1], Some(1), true, 1, d, d, Protocol.HeaderRead)]),
                  map[1 := 1], Register(1, [0]), [Clients.Entry(0, 0, 1, 2)],
                  map[0 := Clients.Done(Clients.Changed), 1 := Clients.Holding(0, 1, [1])], map[0 := 1, 1 := 1])
  {
    hide Run, AllWhole;
    run, steps := SecondBegins(d);
    run, steps := Extend(run, steps, d, true, Move(0, Protocol.WritePart(0)));
    run, steps := Extend(run, steps, d, true, Move(0, Protocol.PutHeader(0)));
  }

  /** Its own claim is stamped when the first's has expired. */
  lemma {:induction false} SecondStamps(d: int) returns (run: seq<State<int>>, steps: seq<Step<int>>)
    requires 0 <= d && CLAIM_TTL < 2 * d
    ensures Run(Counted, run, steps, d) && AllWhole(run, steps) && run[0].start.version > 0
    ensures run[|steps|] ==
            State(Protocol.State(2 * d, 1, 2, Register(2, [1]), [1], map[2 := Claimed(0)], map[2 := 0], map[2 := d],
                                 map[0 := Protocol.Call([1], Some(1), true, 1, 0, 0, Protocol.Returned),
                                     1 := Protocol.Call([1], Some(1), true, 1, d, 2 * d, Protocol.Probing(2))]),
                  map[1 := 1], Register(1, [0]), [Clients.Entry(0, 0, 1, 2)],
                  map[0 := Clients.Done(Clients.Changed), 1 := Clients.Holding(0, 1, [1])], map[0 := 1, 1 := 1])
  {
    hide Run, AllWhole;
    run, steps := FirstPuts(d);
    run, steps := Extend(run, steps, d, true, Tick(d));
    run, steps := Extend(run, steps, d, true, Move(1, Protocol.Check(1)));
  }

  /** So it skips version 2 and puts version 3, although its caller read version 1. */
  lemma {:induction false} SecondSkips(d: int) returns (run: seq<State<int>>, steps: seq<Step<int>>)
    requires 0 <= d && CLAIM_TTL < 2 * d
    ensures Run(Counted, run, steps, d) && AllWhole(run, steps) && run[0].start.version > 0
    ensures run[|steps|] ==
            State(Protocol.State(2 * d, 1, 2, Register(2, [1]), [1], map[2 := Claimed(0)], map[2 := 0], map[2 := d],
                                 map[0 := Protocol.Call([1], Some(1), true, 1, 0, 0, Protocol.Returned),
                                     1 := Protocol.Call([1], Some(1), true, 1, d, 2 * d, Protocol.Probing(3))]),
                  map[1 := 1], Register(1, [0]), [Clients.Entry(0, 0, 1, 2)],
                  map[0 := Clients.Done(Clients.Changed), 1 := Clients.Holding(0, 1, [1])], map[0 := 1, 1 := 1])
  {
    hide Run, AllWhole;
    run, steps := SecondStamps(d);
    run, steps := Extend(run, steps, d, true, Move(1, Protocol.TryClaim(1)));
    run, steps := Extend(run, steps, d, true, Move(1, Protocol.Inspect(1)));
  }

  lemma {:induction false} SecondClaims(d: int) returns (run: seq<State<int>>, steps: seq<Step<int>>)
    requires 0 <= d && CLAIM_TTL < 2 * d
    ensures Run(Counted, run, steps, d) && AllWhole(run, steps) && run[0].start.version > 0
    ensures run[|steps|] ==
            State(Protocol.State(2 * d, 1, 3, Register(2, [1]), [1], map[2 := Claimed(0), 3 := Claimed(2 * d)], map[2 := 0, 3 := 1], map[2 := d],
                                 map[0 := Protocol.Call([1], Some(1), true, 1, 0, 0, Protocol.Returned),
                                     1 := Protocol.Call([1], Some(1), true, 1, d, 2 * d, Protocol.Writing(3, 0))]),
                  map[1 := 1], Register(1, [0]), [Clients.Entry(0, 0, 1, 2)],
                  map[0 := Clients.Done(Clients.Changed), 1 := Clients.Holding(0, 1, [1])], map[0 := 1, 1 := 1])
  {
    hide Run, AllWhole;
    run, steps := SecondSkips(d);
    run, steps := Extend(run, steps, d, true, Move(1, Protocol.TryClaim(1)));
  }

  lemma {:induction false} SecondPuts(d: int) returns (run: seq<State<int>>, steps: seq<Step<int>>)
    requires 0 <= d && CLAIM_TTL < 2 * d
    ensures Run(Counted, run, steps, d) && AllWhole(run, steps) && run[0].start.version > 0
    ensures AsClients(run[|steps|]) ==
            Clients.State(Register(1, [0]), Register(3, [1]), [Clients.Entry(0, 0, 1, 2), Clients.Entry(1, 0, 2, 3)],
                          map[0 := Clients.Done(Clients.Changed), 1 := Clients.Done(Clients.Changed)], map[0 := 1, 1 := 1])
  {
    hide Run, AllWhole;
    run, steps := SecondClaims(d);
    run, steps := Extend(run, steps, d, true, Move(1, Protocol.WritePart(1)));
    run, steps := Extend(run, steps, d, true, Move(1, Protocol.PutHeader(1)));
  }

  /** Two writes of one reading: the register misses the first's change. */
  lemma {:induction false} FirstMissing(a: Clients.State<Value<int>>)
    requires a.start == Register(1, [0]) && a.register == Register(3, [1])
    requires a.history == [Clients.Entry(0, 0, 1, 2), Clients.Entry(1, 0, 2, 3)]
    ensures !Clients.Serial(Counted, a)
  {
    var first := [Clients.Entry(0, 0, 1, 2)];
    assert first[..0] == [] && a.history[..1] == first;
    CountedOne(0);
    assert Clients.Replay(Counted, a.start, first) == Some(Register(2, [1]));
    assert Counted(1, 0, [1]).value[0] == 2;
  }

  lemma {:induction false} TornHolds(d: int) returns (run: seq<State<int>>, steps: seq<Step<int>>)
    requires 0 <= d
    ensures Run(Counted, run, steps, d) && run[0].start.version > 0
    ensures run[|steps|] ==
            State(Protocol.State(0, 1, 1, Register(1, [0, 0]), [0, 0], map[], map[], map[], map[]),
                  map[], Register(1, [0, 0]), [],
                  map[0 := Clients.Holding(0, 1, [1, 1])], map[0 := 1])
  {
    run, steps := [Fresh([0, 0])], [];
    assert Run(Counted, run, steps, d);
    hide Run, AllWhole;
    assert Counted(0, 0, [0, 0]).value == [1, 1];
    run, steps := Extend(run, steps, d, false, Call(0));
    run, steps := Extend(run, steps, d, false, Get(0));
  }

  /** A caller's write of two parts claims version 2. */
  lemma {:induction false} TornClaims(d: int) returns (run: seq<State<int>>, steps: seq<Step<int>>)
    requires 0 <= d
    ensures Run(Counted, run, steps, d) && run[0].start.version > 0
    ensures run[|steps|] ==
            State(Protocol.State(0, 1, 2, Register(1, [0, 0]), [0, 0], map[2 := Claimed(0)], map[2 := 0], map[],
                                 map[0 := Protocol.Call([1, 1], Some(1), true, 1, 0, 0, Protocol.Writing(2, 0))]),
                  map[0 := 0], Register(1, [0, 0]), [],
                  map[0 := Clients.Holding(0, 1, [1, 1])], map[0 := 1])
  {
    hide Run, AllWhole;
    run, steps := TornHolds(d);
    run, steps := Extend(run, steps, d, false, Begin(0, 0));
    run, steps := Extend(run, steps, d, false, Move(0, Protocol.Check(0)));
    run, steps := Extend(run, steps, d, false, Move(0, Protocol.TryClaim(0)));
  }

  /** It fails with one of them written. */
  lemma {:induction false} TornFails(d: int) returns (run: seq<State<int>>, steps: seq<Step<int>>)
    requires 0 <= d
    ensures Run(Counted, run, steps, d) && run[0].start.version > 0
    ensures run[|steps|] ==
            State(Protocol.State(0, 1, 2, Register(1, [0, 0]), [1, 0], map[2 := Released], map[2 := 0], map[],
                                 map[0 := Protocol.Call([1, 1], Some(1), true, 1, 0, 0, Protocol.Failed)]),
                  map[0 := 0], Register(1, [0, 0]), [],
                  map[0 := Clients.Holding(0, 1, [1, 1])], map[0 := 1])
  {
    hide Run, AllWhole;
    run, steps := TornClaims(d);
    run, steps := Extend(run, steps, d, false, Move(0, Protocol.WritePart(0)));
    run, steps := Extend(run, steps, d, false, Move(0, Protocol.FailWrite(0)));
  }

  /** Another caller reads the mix, at version 1. */
  lemma {:induction false} TornRead(d: int) returns (run: seq<State<int>>, steps: seq<Step<int>>)
    requires 0 <= d
    ensures Run(Counted, run, steps, d) && run[0].start.version > 0
    ensures run[|steps|] ==
            State(Protocol.State(0, 1, 2, Register(1, [0, 0]), [1, 0], map[2 := Released], map[2 := 0], map[],
                                 map[0 := Protocol.Call([1, 1], Some(1), true, 1, 0, 0, Protocol.Failed)]),
                  map[0 := 0], Register(1, [0, 0]), [],
                  map[0 := Clients.Holding(0, 1, [1, 1]), 1 := Clients.Holding(0, 1, [2, 1])], map[0 := 1, 1 := 1])
  {
    hide Run, AllWhole;
    run, steps := TornFails(d);
    assert Counted(1, 0, [1, 0]).value == [2, 1];
    run, steps := Extend(run, steps, d, false, Call(1));
    run, steps := Extend(run, steps, d, false, Get(1));
  }

  lemma {:induction false} TornBegins(d: int) returns (run: seq<State<int>>, steps: seq<Step<int>>)
    requires 0 <= d
    ensures Run(Counted, run, steps, d) && run[0].start.version > 0
    ensures run[|steps|] ==
            State(Protocol.State(0, 1, 2, Register(1, [0, 0]), [1, 0], map[2 := Released], map[2 := 0], map[],
                                 map[0 := Protocol.Call([1, 1], Some(1), true, 1, 0, 0, Protocol.Failed),
                                     1 := Protocol.Call([2, 1], Some(1), true, 1, 0, 0, Protocol.Probing(2))]),
                  map[0 := 0, 1 := 1], Register(1, [0, 0]), [],
                  map[0 := Clients.Holding(0, 1, [1, 1]), 1 := Clients.Holding(0, 1, [2, 1])], map[0 := 1, 1 := 1])
  {
    hide Run, AllWhole;
    run, steps := TornRead(d);
    run, steps := Extend(run, steps, d, false, Begin(1, 1));
    run, steps := Extend(run, steps, d, false, Move(1, Protocol.Check(1)));
  }

  /** Its write finds the claim released. */
  lemma {:induction false} TornSkips(d: int) returns (run: seq<State<int>>, steps: seq<Step<int>>)
    requires 0 <= d
    ensures Run(Counted, run, steps, d) && run[0].start.version > 0
    ensures run[|steps|] ==
            State(Protocol.State(0, 1, 2, Register(1, [0, 0]), [1, 0], map[2 := Released], map[2 := 0], map[],
                                 map[0 := Protocol.Call([1, 1], Some(1), true, 1, 0, 0, Protocol.Failed),
                                     1 := Protocol.Call([2, 1], Some(1), true, 1, 0, 0, Protocol.Probing(3))]),
                  map[0 := 0, 1 := 1], Register(1, [0, 0]), [],
                  map[0 := Clients.Holding(0, 1, [1, 1]), 1 := Clients.Holding(0, 1, [2, 1])], map[0 := 1, 1 := 1])
  {
    hide Run, AllWhole;
    run, steps := TornBegins(d);
    run, steps := Extend(run, steps, d, false, Move(1, Protocol.TryClaim(1)));
    run, steps := Extend(run, steps, d, false, Move(1, Protocol.Inspect(1)));
  }

  lemma {:induction false} TornWrites(d: int) returns (run: seq<State<int>>, steps: seq<Step<int>>)
    requires 0 <= d
    ensures Run(Counted, run, steps, d) && run[0].start.version > 0
    ensures run[|steps|] ==
            State(Protocol.State(0, 1, 3, Register(1, [0, 0]), [2, 1], map[2 := Released, 3 := Claimed(0)], map[2 := 0, 3 := 1], map[],
                                 map[0 := Protocol.Call([1, 1], Some(1), true, 1, 0, 0, Protocol.Failed),
                                     1 := Protocol.Call([2, 1], Some(1), true, 1, 0, 0, Protocol.Writing(3, 2))]),
                  map[0 := 0, 1 := 1], Register(1, [0, 0]), [],
                  map[0 := Clients.Holding(0, 1, [1, 1]), 1 := Clients.Holding(0, 1, [2, 1])], map[0 := 1, 1 := 1])
  {
    hide Run, AllWhole;
    run, steps := TornSkips(d);
    run, steps := Extend(run, steps, d, false, Move(1, Protocol.TryClaim(1)));
    run, steps := Extend(run, steps, d, false, Move(1, Protocol.WritePart(1)));
    run, steps := Extend(run, steps, d, false, Move(1, Protocol.WritePart(1)));
  }

  lemma {:induction false} TornPuts(d: int) returns (run: seq<State<int>>, steps: seq<Step<int>>)
    requires 0 <= d
    ensures Run(Counted, run, steps, d) && run[0].start.version > 0
    ensures var a := AsClients(run[|steps|]);
            a.start == Register(1, [0, 0]) && a.register == Register(3, [2, 1]) && a.history == [Clients.Entry(1, 0, 1, 3)]
  {
    hide Run;
    run, steps := TornWrites(d);
    run, steps := Extend(run, steps, d, false, Move(1, Protocol.PutHeader(1)));
  }

  /** So the document has a change that no caller was answered. */
  lemma {:induction false} NobodyAnswered(a: Clients.State<Value<int>>)
    requires a.start == Register(1, [0, 0]) && a.register == Register(3, [2, 1]) && a.history == [Clients.Entry(1, 0, 1, 3)]
    ensures !Clients.Serial(Counted, a)
  {
    assert a.history[..0] == [];
    var made := Counted(1, 0, [0, 0]).value;
    assert made[0] == 1;
    assert Clients.Replay(Counted, a.start, a.history) == Some(Register(3, made));
  }

  /**
   Callers serialise in every run exactly when no two writes together outlive
   a claim and reads find the document whole.
   */
  lemma {:induction false} UpdatesSerialiseBound(d: nat, whole: bool)
    ensures AlwaysSerial(d, whole) <==> whole && 2 * d <= CLAIM_TTL
  {
    hide Run, AllWhole, Clients.Serial;
    if !whole {
      var run, steps := TornPuts(d);
      RunStep(Counted, run, steps, d, 0);
      NobodyAnswered(AsClients(run[|steps|]));
    } else if CLAIM_TTL < 2 * d {
      var run, steps := SecondPuts(d);
      RunStep(Counted, run, steps, d, 0);
      FirstMissing(AsClients(run[|steps|]));
    } else {
      forall change: Clients.Change<Value<int>>, run: seq<State<int>>, steps: seq<Step<int>>, n: nat
        | Run(change, run, steps, d) && AllWhole(run, steps) && n < |run| && run[0].start.version > 0
        ensures Clients.Serial(change, AsClients(run[n]))
      {
        UpdatesSerialise(change, run, steps, d, n);
      }
    }
  }
}
