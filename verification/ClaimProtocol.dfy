/**
 Concurrent upserts of one document that is already in the model, as a state
 machine: any number of calls, on any replicas, interleaved step by step,
 with failed writes and crashes anywhere, on one clock.

 A document is written part by part and then its header is put; `stored` is
 what the part objects hold, `committed` what the header last announced.
 */
module ClaimProtocol {
  import opened Prelude
  import opened VersionClaims
  import opened VersionedRegister

  /** Where one upsert call is. */
  datatype Phase =
    | HeaderRead                           // the header was read, the version not yet checked
    | Probing(next: int)                   // about to create the claim of `next`
    | Inspecting(next: int)                // that claim exists; about to look at it
    | Writing(version: int, done: nat)     // holds the claim, `done` parts written
    | Returned                             // the header is put
    | Refused                              // METADATA_VERSION_MISMATCH
    | Failed                               // any other error, the claim released
    | Crashed                              // died, whatever it held is left as it is

  predicate Live(p: Phase) {
    p.HeaderRead? || p.Probing? || p.Inspecting? || p.Writing?
  }

  /**
   One call: what it writes, the version its caller expects, whether the
   earlier read found a live document, and the header version it read, when.
   */
  datatype Call<P> = Call(
    value: seq<P>, expected: Option<int>, present: bool,
    read: int, readAt: int, at: int, phase: Phase)

  /**
   `base` is the version the document started at and `top` the last version
   claimed. `owner` and `commits` are history: who created a claim, and when
   its version was put on the header.
   */
  datatype State<P> = State(
    now: int, base: int, top: int,
    committed: Register<seq<P>>, stored: seq<P>,
    claims: map<int, Claim>, owner: map<int, nat>, commits: map<int, int>,
    calls: map<nat, Call<P>>)

  datatype Step<P> =
    | Tick(d: nat)
    | ReadHeader(id: nat, value: seq<P>, expected: Option<int>, present: bool)
    | Check(id: nat)
    | TryClaim(id: nat)
    | Inspect(id: nat)
    | WritePart(id: nat)
    | PutHeader(id: nat)
    | FailWrite(id: nat)
    | Abort(id: nat)
    | Crash(id: nat)

  predicate Enabled<P>(s: State<P>, step: Step<P>) {
    match step
    case Tick(_) => true
    case ReadHeader(id, value, _, _) => id !in s.calls && |value| == |s.stored|
    case Check(id) => id in s.calls && s.calls[id].phase.HeaderRead?
    case TryClaim(id) => id in s.calls && s.calls[id].phase.Probing?
    case Inspect(id) =>
      && id in s.calls && s.calls[id].phase.Inspecting?
      && s.calls[id].phase.next in s.claims
    case WritePart(id) =>
      && id in s.calls && s.calls[id].phase.Writing?
      && s.calls[id].phase.done < |s.calls[id].value| == |s.stored|
    case PutHeader(id) =>
      && id in s.calls && s.calls[id].phase.Writing?
      && s.calls[id].phase.done == |s.calls[id].value|
    case FailWrite(id) => id in s.calls && s.calls[id].phase.Writing?
    case Abort(id) =>
      id in s.calls && Live(s.calls[id].phase) && !s.calls[id].phase.Writing?
    case Crash(id) => id in s.calls && Live(s.calls[id].phase)
  }

  function At<P>(s: State<P>, id: nat, phase: Phase): State<P>
    requires id in s.calls
  {
    s.(calls := s.calls[id := s.calls[id].(phase := phase)])
  }

  /** What `expected_version` is compared with. */
  function VersionSeen<P>(c: Call<P>): int {
    if c.present then c.read else 0
  }

  function Apply<P>(s: State<P>, step: Step<P>): State<P>
    requires Enabled(s, step)
  {
    match step
    case Tick(d) => s.(now := s.now + d)
    case ReadHeader(id, value, expected, present) =>
      s.(calls := s.calls[id :=
           Call(value, expected, present, s.committed.version, s.now, s.now, HeaderRead)])
    case Check(id) =>
      var c := s.calls[id];
      if c.expected.Some? && c.expected.value != VersionSeen(c) then At(s, id, Refused)
      else s.(calls := s.calls[id := c.(at := s.now, phase := Probing(c.read + 1))])
    case TryClaim(id) =>
      var c := s.calls[id];
      var v := c.phase.next;
      if v in s.claims then At(s, id, Inspecting(v))
      else At(s, id, Writing(v, 0)).(
           claims := s.claims[v := Claimed(c.at)], owner := s.owner[v := id],
           top := if v > s.top then v else s.top)
    case Inspect(id) =>
      var c := s.calls[id];
      var v := c.phase.next;
      if Passable(s.claims[v], c.at) && v < c.read + CLAIM_SKIPS then At(s, id, Probing(v + 1))
      else At(s, id, Refused)
    case WritePart(id) =>
      var c := s.calls[id];
      At(s, id, Writing(c.phase.version, c.phase.done + 1)).(
         stored := s.stored[c.phase.done := c.value[c.phase.done]])
    case PutHeader(id) =>
      var c := s.calls[id];
      At(s, id, Returned).(
         committed := Register(c.phase.version, c.value),
         commits := s.commits[c.phase.version := s.now])
    case FailWrite(id) =>
      At(s, id, Failed).(claims := s.claims[s.calls[id].phase.version := Released])
    case Abort(id) => At(s, id, Failed)
    case Crash(id) => At(s, id, Crashed)
  }

  /** The document at rest: no claim above its version, no call under way. */
  predicate Start<P(==)>(s: State<P>) {
    && s.top == s.base == s.committed.version
    && s.stored == s.committed.value
    && s.claims == map[] && s.owner == map[] && s.commits == map[] && s.calls == map[]
  }

  /** Every call under way read the header at most `d` ago. */
  ghost predicate Timely<P(!new)>(s: State<P>, d: int) {
    forall id :: id in s.calls && Live(s.calls[id].phase) ==> s.now - s.calls[id].readAt <= d
  }

  /** `run` is a run of the protocol, by `steps`, on which every call under way is timely. */
  ghost predicate Run<P(!new)>(run: seq<State<P>>, steps: seq<Step<P>>, d: int) {
    && |run| == |steps| + 1
    && Start(run[0])
    && (forall i :: 0 <= i < |steps| ==> Enabled(run[i], steps[i]) && run[i + 1] == Apply(run[i], steps[i]))
    && (forall i :: 0 <= i < |run| ==> Timely(run[i], d))
  }

  // ----- the invariant

  /** The claims are an unbroken run above the starting version, each with the call that created it. */
  ghost predicate ClaimsRun<P(!new)>(s: State<P>) {
    && s.base <= s.committed.version <= s.top
    && (forall v :: v in s.claims <==> s.base < v <= s.top)
    && s.owner.Keys == s.claims.Keys
  }

  /** And the header's versions, put in order, are among them. */
  ghost predicate ClaimsUnbroken<P(!new)>(s: State<P>) {
    && ClaimsRun(s)
    && (forall v :: v in s.commits ==> s.base < v <= s.committed.version)
    && (s.committed.version == s.base || s.committed.version in s.commits)
  }

  /** Where a call stands among the claims, however long it takes. */
  ghost predicate CallTracked<P(!new)>(s: State<P>, id: nat)
    requires id in s.calls
  {
    var c := s.calls[id];
    && s.base <= c.read <= s.top
    && (c.phase.Probing? ==> s.base < c.phase.next <= s.top + 1)
    && (c.phase.Inspecting? ==> s.base < c.phase.next <= s.top)
    && (c.phase.Writing? ==> s.base < c.phase.version <= s.top)
  }

  /** What holds of the claims in every reachable state, with no bound on how long a call takes. */
  ghost predicate Tracked<P(!new)>(s: State<P>) {
    && ClaimsRun(s)
    && (forall id :: id in s.calls ==> CallTracked(s, id))
  }

  /** A call's own bookkeeping. */
  ghost predicate CallSound<P(!new)>(s: State<P>, id: nat)
    requires id in s.calls
  {
    var c := s.calls[id];
    && s.base <= c.read <= s.committed.version
    && c.readAt <= c.at <= s.now
    && |c.value| == |s.stored|
    && (c.phase.Probing? ==> c.read < c.phase.next <= s.top + 1 && c.phase.next <= c.read + CLAIM_SKIPS)
    && (c.phase.Inspecting? ==> c.read < c.phase.next <= s.top && c.phase.next <= c.read + CLAIM_SKIPS)
    && (c.phase.Writing? ==>
          && c.read < c.phase.version == s.top && c.phase.version <= c.read + CLAIM_SKIPS
          && s.committed.version < c.phase.version
          && c.phase.version in s.claims && c.phase.version in s.owner
          && s.owner[c.phase.version] == id
          && s.claims[c.phase.version] == Claimed(c.at)
          && c.phase.done <= |c.value|
          && forall i :: 0 <= i < c.phase.done ==> s.stored[i] == c.value[i])
  }

  ghost predicate SomeoneWrites<P(!new)>(s: State<P>) {
    exists id :: id in s.calls && s.calls[id].phase.Writing?
  }

  /** What holds in every reachable state when no call outlives a claim. */
  ghost predicate Exclusive<P(!new)>(s: State<P>) {
    && ClaimsUnbroken(s)
    && (forall id :: id in s.calls ==> CallSound(s, id))
    // nobody gets past the claim of a call that is still writing
    && (SomeoneWrites(s) ==>
          forall id :: id in s.calls && s.calls[id].phase.Probing? ==> s.calls[id].phase.next <= s.top)
  }

  /** The version up to which a call has found every claim after its read passable. */
  function Passed<P>(c: Call<P>): int {
    match c.phase
    case Probing(k) => k
    case Inspecting(k) => k
    case Writing(v, _) => v
    case _ => c.read
  }

  /** A version on the header was stamped at most `d` before it got there. */
  ghost predicate CommitsStamped<P(!new)>(s: State<P>, d: int) {
    forall v :: v in s.commits ==>
      v in s.claims && s.claims[v].Claimed? && s.commits[v] <= s.claims[v].at + d
  }

  /** A version above the one a call read got on the header after it read. */
  ghost predicate CommitsAfterReads<P(!new)>(s: State<P>) {
    forall id, v :: id in s.calls && v in s.commits && s.calls[id].read < v ==>
      s.calls[id].readAt <= s.commits[v]
  }

  /** No call has skipped a version that was put on the header. */
  ghost predicate CommitsNotPassed<P(!new)>(s: State<P>) {
    forall id, v :: id in s.calls && s.calls[id].read < v < Passed(s.calls[id]) ==> v !in s.commits
  }

  /** What holds besides when two calls together do not outlive a claim. */
  ghost predicate Ordered<P(!new)>(s: State<P>, d: int) {
    CommitsStamped(s, d) && CommitsAfterReads(s) && CommitsNotPassed(s)
  }

  /** A call whose clock stays within `d` of its read finds no live writer's claim passable. */
  lemma {:induction false} NoLiveClaimPassable<P(!new)>(s: State<P>, id: nat, w: nat, d: int)
    requires Exclusive(s) && Timely(s, d) && d <= CLAIM_TTL
    requires id in s.calls && w in s.calls && s.calls[w].phase.Writing?
    ensures !Passable(s.claims[s.calls[w].phase.version], s.calls[id].at)
  {
  }

  lemma {:induction false} KeepsUnbroken<P(!new)>(s: State<P>, step: Step<P>)
    requires ClaimsUnbroken(s) && Enabled(s, step)
    requires !step.Tick? && step.id in s.calls ==> CallSound(s, step.id)
    ensures ClaimsUnbroken(Apply(s, step))
  {
    hide Passable;
  }

  predicate OfWriter<P>(step: Step<P>) {
    step.WritePart? || step.PutHeader? || step.FailWrite?
  }

  predicate OfProber<P>(step: Step<P>) {
    step.TryClaim? || step.Inspect?
  }

  /** The call that takes the step stays sound: before it probes, while it does, and while it writes. */
  lemma {:induction false} KeepsReader<P(!new)>(s: State<P>, step: Step<P>)
    requires ClaimsUnbroken(s) && Enabled(s, step) && !step.Tick? && !OfWriter(step) && !OfProber(step)
    requires step.id in s.calls ==> CallSound(s, step.id)
    ensures CallSound(Apply(s, step), step.id)
  {
  }

  lemma {:induction false} KeepsProber<P(!new)>(s: State<P>, step: Step<P>)
    requires ClaimsUnbroken(s) && Enabled(s, step) && OfProber(step)
    requires CallSound(s, step.id)
    ensures CallSound(Apply(s, step), step.id)
  {
  }

  lemma {:induction false} KeepsWriter<P(!new)>(s: State<P>, step: Step<P>)
    requires ClaimsUnbroken(s) && Enabled(s, step) && OfWriter(step)
    requires CallSound(s, step.id)
    ensures CallSound(Apply(s, step), step.id)
  {
  }

  /** Two calls never hold a claim together. */
  lemma {:induction false} OneWriter<P(!new)>(s: State<P>, v: nat, w: nat)
    requires Exclusive(s)
    requires v in s.calls && s.calls[v].phase.Writing?
    requires w in s.calls && s.calls[w].phase.Writing?
    ensures v == w
  {
  }

  lemma {:induction false} OnlyWriter<P(!new)>(s: State<P>, w: nat)
    requires Exclusive(s) && w in s.calls && s.calls[w].phase.Writing?
    ensures forall v :: v in s.calls && s.calls[v].phase.Writing? ==> v == w
  {
  }

  /** What a call's bookkeeping is about, unchanged: all of it while it writes. */
  ghost predicate LeftAlone<P(!new)>(s: State<P>, s': State<P>, id: nat)
    requires id in s.calls
  {
    var c := s.calls[id];
    && id in s'.calls && s'.calls[id] == c
    && s'.base == s.base && s.committed.version <= s'.committed.version && s.now <= s'.now && s.top <= s'.top
    && |s'.stored| == |s.stored|
    && (c.phase.Writing? ==>
          && s'.top == s.top && s'.committed == s.committed && s'.stored == s.stored
          && (c.phase.version in s.claims ==> c.phase.version in s'.claims && s'.claims[c.phase.version] == s.claims[c.phase.version])
          && (c.phase.version in s.owner ==> c.phase.version in s'.owner && s'.owner[c.phase.version] == s.owner[c.phase.version]))
  }

  lemma {:induction false} SoundLeftAlone<P(!new)>(s: State<P>, s': State<P>, id: nat)
    requires id in s.calls && CallSound(s, id) && LeftAlone(s, s', id)
    ensures CallSound(s', id)
  {
  }

  lemma {:induction false} LeavesOther<P(!new)>(s: State<P>, step: Step<P>, id: nat)
    requires ClaimsUnbroken(s) && Enabled(s, step)
    requires id in s.calls && CallSound(s, id) && (step.Tick? || step.id != id)
    requires !step.Tick? && step.id in s.calls ==>
               && CallSound(s, step.id)
               && (s.calls[id].phase.Writing? ==> !s.calls[step.id].phase.Writing?)
               && (s.calls[id].phase.Writing? && s.calls[step.id].phase.Probing? ==> s.calls[step.id].phase.next <= s.top)
    ensures LeftAlone(s, Apply(s, step), id)
  {
    hide Passable;
  }

  /** Every other call stays sound. */
  lemma {:induction false} KeepsOther<P(!new)>(s: State<P>, step: Step<P>, id: nat)
    requires ClaimsUnbroken(s) && Enabled(s, step)
    requires id in s.calls && CallSound(s, id) && (step.Tick? || step.id != id)
    requires !step.Tick? && step.id in s.calls ==>
               && CallSound(s, step.id)
               && (s.calls[id].phase.Writing? ==> !s.calls[step.id].phase.Writing?)
               && (s.calls[id].phase.Writing? && s.calls[step.id].phase.Probing? ==> s.calls[step.id].phase.next <= s.top)
    ensures CallSound(Apply(s, step), id)
  {
    hide Apply, CallSound, ClaimsUnbroken;
    LeavesOther(s, step, id);
    SoundLeftAlone(s, Apply(s, step), id);
  }

  /** A new claim is at the top, and everybody still probes at or before it. */
  lemma {:induction false} QueuesBehindClaim<P(!new)>(s: State<P>, w: nat, id: nat)
    requires ClaimsRun(s) && Enabled(s, TryClaim(w)) && CallSound(s, w) && id != w
    requires Apply(s, TryClaim(w)).calls[w].phase.Writing?
    requires id in s.calls && CallSound(s, id) && s.calls[id].phase.Probing?
    ensures s.calls[id].phase.next <= Apply(s, TryClaim(w)).top
  {
  }

  /** A call that begins or goes on probing does so at or before a live writer's claim. */
  lemma {:induction false} QueuesBehindWriter<P(!new)>(s: State<P>, step: Step<P>, d: int, w: nat)
    requires Exclusive(s) && Timely(s, d) && d <= CLAIM_TTL && (step.Check? || step.Inspect?) && Enabled(s, step)
    requires w in s.calls && s.calls[w].phase.Writing? && CallSound(s, w) && CallSound(s, step.id)
    requires Apply(s, step).calls[step.id].phase.Probing?
    ensures Apply(s, step).calls[step.id].phase.next <= s.top
  {
    NoLiveClaimPassable(s, step.id, w, d);
  }

  /** A step moves one call, and only a claim moves the top. */
  lemma {:induction false} OneCallMoves<P(!new)>(s: State<P>, step: Step<P>)
    requires Enabled(s, step)
    ensures var s' := Apply(s, step);
            && (forall id :: id in s'.calls && (step.Tick? || id != step.id) ==> id in s.calls && s'.calls[id] == s.calls[id])
            && (!step.TryClaim? ==> s'.top == s.top)
            && (!step.Tick? ==> step.id in s'.calls)
            && (!step.Tick? && s'.calls[step.id].phase.Writing? ==>
                  step.TryClaim? || (step.id in s.calls && s.calls[step.id].phase.Writing?))
            && (!step.Tick? && s'.calls[step.id].phase.Probing? ==> step.Check? || step.Inspect?)
  {
  }

  lemma {:induction false} KeepsQueue<P(!new)>(s: State<P>, step: Step<P>, d: int, w: nat, id: nat)
    requires Exclusive(s) && Enabled(s, step) && Timely(s, d) && d <= CLAIM_TTL
    requires w in Apply(s, step).calls && Apply(s, step).calls[w].phase.Writing?
    requires id in Apply(s, step).calls && Apply(s, step).calls[id].phase.Probing?
    ensures Apply(s, step).calls[id].phase.next <= Apply(s, step).top
  {
    hide Apply, CallSound, ClaimsRun, Timely;
    OneCallMoves(s, step);
    if step.TryClaim? {
      TryingIsThere(s, step);
      assert CallSound(s, step.id) && CallSound(s, id);
      if s.calls[id].phase.Probing? && Apply(s, step).calls[step.id].phase.Writing? {
        QueuesBehindClaim(s, step.id, id);
      } else {
        NoClaimNoTop(s, step);
      }
    } else if !step.Tick? && id == step.id {
      QueuesBehindWriter(s, step, d, w);
    }
  }

  lemma {:induction false} TryingIsThere<P(!new)>(s: State<P>, step: Step<P>)
    requires Enabled(s, step) && step.TryClaim?
    ensures step.id in s.calls
  {
  }

  lemma {:induction false} NoClaimNoTop<P(!new)>(s: State<P>, step: Step<P>)
    requires Enabled(s, step) && step.TryClaim? && !Apply(s, step).calls[step.id].phase.Writing?
    ensures Apply(s, step).top == s.top
  {
  }

  lemma {:induction false} KeepsExclusive<P(!new)>(s: State<P>, step: Step<P>, d: int)
    requires Exclusive(s) && Enabled(s, step) && Timely(s, d) && d <= CLAIM_TTL
    ensures Exclusive(Apply(s, step))
  {
    hide Apply, CallSound, ClaimsUnbroken, Timely;
    var s' := Apply(s, step);
    KeepsUnbroken(s, step);
    OneCallMoves(s, step);
    forall id | id in s'.calls
      ensures CallSound(s', id)
    {
      if step.Tick? || step.id != id {
        if !step.Tick? && step.id in s.calls && s.calls[step.id].phase.Writing? {
          OnlyWriter(s, step.id);
        }
        KeepsOther(s, step, id);
      } else if OfWriter(step) {
        KeepsWriter(s, step);
      } else if OfProber(step) {
        KeepsProber(s, step);
      } else {
        KeepsReader(s, step);
      }
    }
    if SomeoneWrites(s') {
      var w :| w in s'.calls && s'.calls[w].phase.Writing?;
      forall id | id in s'.calls && s'.calls[id].phase.Probing?
        ensures s'.calls[id].phase.next <= s'.top
      {
        KeepsQueue(s, step, d, w, id);
      }
    }
  }

  /** A call skips no version that was put on the header since it read it. */
  lemma {:induction false} PassesNoCommit<P(!new)>(s: State<P>, id: nat, d: int)
    requires Exclusive(s) && Ordered(s, d) && Timely(s, d) && 0 <= d && 2 * d <= CLAIM_TTL
    requires id in s.calls && s.calls[id].phase.Inspecting?
    requires Passable(s.claims[s.calls[id].phase.next], s.calls[id].at)
    ensures s.calls[id].phase.next !in s.commits
  {
  }

  /** A call that commits directly follows the version it read. */
  lemma {:induction false} FollowsItsRead<P(!new)>(s: State<P>, id: nat, d: int)
    requires Exclusive(s) && Ordered(s, d)
    requires id in s.calls && s.calls[id].phase.Writing?
    ensures s.committed.version == s.calls[id].read
  {
  }

  /** The version a call puts has been skipped by nobody. */
  lemma {:induction false} PutNotPassed<P(!new)>(s: State<P>, w: nat, id: nat)
    requires Exclusive(s) && w in s.calls && s.calls[w].phase.Writing? && id in s.calls
    ensures Passed(s.calls[id]) <= s.calls[w].phase.version
  {
  }

  /** A call gets past one version more when it finds that claim passable, and no further. */
  lemma {:induction false} PassesOneMore<P(!new)>(s: State<P>, step: Step<P>, id: nat, v: int)
    requires Enabled(s, step) && id in s.calls
    requires s.calls[id].read < v < Passed(Apply(s, step).calls[id])
    ensures v < Passed(s.calls[id]) ||
            (step == Inspect(id) && v == s.calls[id].phase.next
             && v in s.claims && Passable(s.claims[v], s.calls[id].at))
  {
    hide Passable;
  }

  /** Only a header put commits, and only the version its call holds. */
  lemma {:induction false} CommitsByPut<P(!new)>(s: State<P>, step: Step<P>, v: int)
    requires Enabled(s, step) && v in Apply(s, step).commits
    ensures v in s.commits || (step.PutHeader? && v == s.calls[step.id].phase.version)
  {
  }

  lemma {:induction false} KeepsStamps<P(!new)>(s: State<P>, step: Step<P>, d: int)
    requires Exclusive(s) && Ordered(s, d) && Enabled(s, step) && Timely(s, d)
    ensures CommitsStamped(Apply(s, step), d)
  {
    if !step.Tick? && step.id in s.calls {
      assert CallSound(s, step.id);
    }
  }

  lemma {:induction false} KeepsAfterReads<P(!new)>(s: State<P>, step: Step<P>, id: nat, v: int)
    requires ClaimsUnbroken(s) && Enabled(s, step) && CommitsAfterReads(s)
    requires id in s.calls ==> CallSound(s, id)
    requires id in Apply(s, step).calls && v in Apply(s, step).commits && Apply(s, step).calls[id].read < v
    ensures Apply(s, step).calls[id].readAt <= Apply(s, step).commits[v]
  {
  }

  lemma {:induction false} KeepsAllAfterReads<P(!new)>(s: State<P>, step: Step<P>)
    requires Exclusive(s) && CommitsAfterReads(s) && Enabled(s, step)
    ensures CommitsAfterReads(Apply(s, step))
  {
    var s' := Apply(s, step);
    forall id, v | id in s'.calls && v in s'.commits && s'.calls[id].read < v
      ensures s'.calls[id].readAt <= s'.commits[v]
    {
      assert id in s.calls ==> CallSound(s, id);
      KeepsAfterReads(s, step, id, v);
    }
  }

  lemma {:induction false} KeepsNotPassed<P(!new)>(s: State<P>, step: Step<P>, d: int, id: nat, v: int)
    requires Exclusive(s) && Ordered(s, d) && Enabled(s, step)
    requires Timely(s, d) && 0 <= d && 2 * d <= CLAIM_TTL
    requires id in s.calls && s.calls[id].read < v < Passed(Apply(s, step).calls[id])
    ensures v !in Apply(s, step).commits
  {
    hide Apply, Timely, Passable, CallSound, Passed;
    PassesOneMore(s, step, id, v);
    if v in Apply(s, step).commits {
      CommitsByPut(s, step, v);
      if step.PutHeader? {
        PutNotPassed(s, step.id, id);
      } else if step == Inspect(id) && v == s.calls[id].phase.next && Passable(s.claims[v], s.calls[id].at) {
        PassesNoCommit(s, id, d);
      }
    }
  }

  lemma {:induction false} KeepsAllNotPassed<P(!new)>(s: State<P>, step: Step<P>, d: int)
    requires Exclusive(s) && Ordered(s, d) && Enabled(s, step)
    requires Timely(s, d) && 0 <= d && 2 * d <= CLAIM_TTL
    ensures CommitsNotPassed(Apply(s, step))
  {
    hide Exclusive, Ordered, Timely, Passable;
    var s' := Apply(s, step);
    forall id, v | id in s'.calls && s'.calls[id].read < v < Passed(s'.calls[id])
      ensures v !in s'.commits
    {
      SameRead(s, step, id);
      KeepsNotPassed(s, step, d, id, v);
    }
  }

  /** A call reads the header once; one that has just read it has passed nothing. */
  lemma {:induction false} SameRead<P(!new)>(s: State<P>, step: Step<P>, id: nat)
    requires Enabled(s, step) && id in Apply(s, step).calls && Passed(Apply(s, step).calls[id]) > Apply(s, step).calls[id].read
    ensures id in s.calls && Apply(s, step).calls[id].read == s.calls[id].read
  {
  }

  lemma {:induction false} KeepsOrdered<P(!new)>(s: State<P>, step: Step<P>, d: int)
    requires Exclusive(s) && Ordered(s, d) && Enabled(s, step)
    requires Timely(s, d) && 0 <= d && 2 * d <= CLAIM_TTL
    ensures Ordered(Apply(s, step), d)
  {
    KeepsStamps(s, step, d);
    KeepsAllAfterReads(s, step);
    KeepsAllNotPassed(s, step, d);
  }

  // ----- runs

  lemma {:induction false} RunLength<P(!new)>(run: seq<State<P>>, steps: seq<Step<P>>, d: int)
    requires Run(run, steps, d)
    ensures |run| == |steps| + 1
  {
  }

  /** One step of a run. */
  lemma {:induction false} RunStep<P(!new)>(run: seq<State<P>>, steps: seq<Step<P>>, d: int, i: nat)
    requires Run(run, steps, d) && i < |steps|
    ensures Enabled(run[i], steps[i]) && run[i + 1] == Apply(run[i], steps[i])
  {
  }

  lemma {:induction false} RunExclusive<P(!new)>(run: seq<State<P>>, steps: seq<Step<P>>, d: int, n: nat)
    requires Run(run, steps, d) && d <= CLAIM_TTL && n < |run|
    ensures Exclusive(run[n])
  {
    if n > 0 {
      RunExclusive(run, steps, d, n - 1);
      KeepsExclusive(run[n - 1], steps[n - 1], d);
    }
  }

  lemma {:induction false} RunOrdered<P(!new)>(run: seq<State<P>>, steps: seq<Step<P>>, d: int, n: nat)
    requires Run(run, steps, d) && 0 <= d && 2 * d <= CLAIM_TTL && n < |run|
    ensures Ordered(run[n], d)
  {
    if n > 0 {
      RunExclusive(run, steps, d, n - 1);
      RunOrdered(run, steps, d, n - 1);
      KeepsOrdered(run[n - 1], steps[n - 1], d);
    }
  }

  // ----- mutual exclusion

  /** At most one live call holds a claim whose header is not yet put. */
  ghost predicate Alone<P(!new)>(s: State<P>) {
    forall v, w :: v in s.calls && w in s.calls && s.calls[v].phase.Writing? && s.calls[w].phase.Writing? ==> v == w
  }

  ghost predicate AlwaysAlone(d: int) {
    forall run: seq<State<int>>, steps: seq<Step<int>>, n: nat :: Run(run, steps, d) && n < |run| ==> Alone(run[n])
  }

  lemma {:induction false} MutualExclusion<P(!new)>(run: seq<State<P>>, steps: seq<Step<P>>, d: int, n: nat)
    requires Run(run, steps, d) && d <= CLAIM_TTL && n < |run|
    ensures Alone(run[n])
  {
    RunExclusive(run, steps, d, n);
    forall v, w | v in run[n].calls && w in run[n].calls && run[n].calls[v].phase.Writing? && run[n].calls[w].phase.Writing?
      ensures v == w
    {
      OneWriter(run[n], v, w);
    }
  }

  // ----- no lost update

  /** What step `i` does to the document its readers see. */
  ghost predicate StepReplaces<P(!new)>(s: State<P>, step: Step<P>)
    requires Enabled(s, step)
  {
    var s' := Apply(s, step);
    if step.PutHeader? then
      var c := s.calls[step.id];
      && Replaces(s.committed, s'.committed, c.read, c.value)
      && s'.stored == c.value
      && (c.expected.Some? && c.expected.value > 0 ==> s.committed.version == c.expected.value)
    else
      s'.committed == s.committed
  }

  ghost predicate NeverLost(d: int) {
    forall run: seq<State<int>>, steps: seq<Step<int>>, i: nat ::
      Run(run, steps, d) && i < |steps| ==> StepReplaces(run[i], steps[i])
  }

  /** A call past its version check expects what it read, when it expects a version above 0. */
  predicate ExpectsItsRead<P>(c: Call<P>) {
    Passed(c) > c.read && c.expected.Some? && c.expected.value > 0 ==> c.expected.value == c.read
  }

  lemma {:induction false} KeepsExpectation<P(!new)>(s: State<P>, step: Step<P>, id: nat)
    requires Enabled(s, step)
    requires id in s.calls ==> ExpectsItsRead(s.calls[id])
    requires id in s.calls && (s.calls[id].phase.Probing? || s.calls[id].phase.Inspecting?) ==> s.calls[id].read < Passed(s.calls[id])
    ensures id in Apply(s, step).calls ==> ExpectsItsRead(Apply(s, step).calls[id])
  {
    hide Passable;
  }

  lemma {:induction false} RunExpects<P(!new)>(run: seq<State<P>>, steps: seq<Step<P>>, d: int, n: nat, id: nat)
    requires Run(run, steps, d) && n < |run|
    ensures id in run[n].calls ==> ExpectsItsRead(run[n].calls[id])
  {
    if n > 0 {
      RunProbed(run, steps, d, n - 1, id);
      RunExpects(run, steps, d, n - 1, id);
      RunStep(run, steps, d, n - 1);
      hide Run, Apply, Enabled;
      KeepsExpectation(run[n - 1], steps[n - 1], id);
    }
  }

  /**
   When no two calls together outlive a claim, every header put replaces
   exactly the version its call read, by a higher one, whole; a call that
   expects a version lands only on it; and nothing else changes what readers
   of the header are promised.
   */
  lemma {:induction false} NoLostUpdate<P(!new)>(run: seq<State<P>>, steps: seq<Step<P>>, d: int, i: nat)
    requires Run(run, steps, d) && 0 <= d && 2 * d <= CLAIM_TTL && i < |steps|
    ensures StepReplaces(run[i], steps[i])
  {
    RunExclusive(run, steps, d, i);
    RunOrdered(run, steps, d, i);
    if steps[i].PutHeader? {
      var s, id := run[i], steps[i].id;
      RunExpects(run, steps, d, i, id);
      assert CallSound(s, id);
      FollowsItsRead(s, id, d);
    }
  }

  /** Header versions rise, and documents land whole, already under the weaker bound. */
  lemma {:induction false} CommitsRiseWhole<P(!new)>(run: seq<State<P>>, steps: seq<Step<P>>, d: int, i: nat)
    requires Run(run, steps, d) && d <= CLAIM_TTL && i < |steps| && steps[i].PutHeader?
    ensures run[i + 1].committed.version > run[i].committed.version
    ensures run[i + 1].stored == run[i + 1].committed.value == run[i].calls[steps[i].id].value
  {
    RunExclusive(run, steps, d, i);
    assert CallSound(run[i], steps[i].id);
  }

  // ----- claims, on runs of any timing

  lemma {:induction false} KeepsTracked<P(!new)>(s: State<P>, step: Step<P>)
    requires Tracked(s) && Enabled(s, step)
    ensures Tracked(Apply(s, step))
  {
    hide CallTracked;
    var s' := Apply(s, step);
    KeepsClaims(s, step);
    forall id | id in s'.calls
      ensures CallTracked(s', id)
    {
      if !step.Tick? && step.id == id {
        KeepsMoverTracked(s, step);
      } else {
        KeepsOtherTracked(s, step, id);
      }
    }
  }

  /** The claims grow by one version at the top, or not at all. */
  lemma {:induction false} KeepsClaims<P(!new)>(s: State<P>, step: Step<P>)
    requires Tracked(s) && Enabled(s, step)
    ensures var s' := Apply(s, step);
            ClaimsRun(s') && OwnersStay(s, s')
  {
    assert !step.Tick? && step.id in s.calls ==> CallTracked(s, step.id);
  }

  lemma {:induction false} KeepsMoverTracked<P(!new)>(s: State<P>, step: Step<P>)
    requires Tracked(s) && Enabled(s, step) && !step.Tick?
    ensures CallTracked(Apply(s, step), step.id)
  {
    assert step.id in s.calls ==> CallTracked(s, step.id);
  }

  lemma {:induction false} KeepsOtherTracked<P(!new)>(s: State<P>, step: Step<P>, id: nat)
    requires Tracked(s) && Enabled(s, step) && id in Apply(s, step).calls && (step.Tick? || step.id != id)
    ensures CallTracked(Apply(s, step), id)
  {
    assert CallTracked(s, id);
    KeepsClaims(s, step);
  }

  lemma {:induction false} RunTracked<P(!new)>(run: seq<State<P>>, steps: seq<Step<P>>, d: int, n: nat)
    requires Run(run, steps, d) && n < |run|
    ensures Tracked(run[n])
  {
    if n > 0 {
      RunTracked(run, steps, d, n - 1);
      RunStep(run, steps, d, n - 1);
      KeepsTracked(run[n - 1], steps[n - 1]);
    }
  }

  /** Every claim there was is there, and its creator's. */
  ghost predicate OwnersStay<P(!new)>(s: State<P>, s': State<P>) {
    && s'.base == s.base && s.top <= s'.top
    && forall v :: v in s.owner ==> v in s'.owner && s'.owner[v] == s.owner[v]
  }

  lemma {:induction false} RunOwners<P(!new)>(run: seq<State<P>>, steps: seq<Step<P>>, d: int, m: nat, n: nat)
    requires Run(run, steps, d) && m <= n < |run|
    ensures OwnersStay(run[m], run[n])
  {
    hide Run, Tracked, Apply, Enabled, OwnersStay;
    RunLength(run, steps, d);
    if m < n {
      RunOwners(run, steps, d, m, n - 1);
      RunTracked(run, steps, d, n - 1);
      RunStep(run, steps, d, n - 1);
      KeepsClaims(run[n - 1], steps[n - 1]);
      OwnersStayOn(run[m], run[n - 1], run[n]);
    } else {
      OwnersStayPut(run[n]);
    }
  }

  lemma {:induction false} OwnersStayPut<P(!new)>(s: State<P>)
    ensures OwnersStay(s, s)
  {
  }

  lemma {:induction false} OwnersStayOn<P(!new)>(a: State<P>, b: State<P>, c: State<P>)
    requires OwnersStay(a, b) && OwnersStay(b, c)
    ensures OwnersStay(a, c)
  {
  }

  /**
   Claims, however long a call takes: an unbroken run above the start, each
   version created once and never lost or handed on.
   */
  lemma {:induction false} ClaimsNeverReused<P(!new)>(run: seq<State<P>>, steps: seq<Step<P>>, d: int, m: nat, n: nat, v: int)
    requires Run(run, steps, d) && m <= n < |run|
    ensures v in run[n].claims <==> run[n].base < v <= run[n].top
    ensures run[n].base <= run[n].committed.version <= run[n].top
    ensures v in run[m].claims ==>
              v in run[m].owner && v in run[n].owner && run[n].owner[v] == run[m].owner[v]
  {
    RunOwners(run, steps, d, m, n);
    RunTracked(run, steps, d, m);
    RunTracked(run, steps, d, n);
  }

  // ----- what the interleaved probes find

  /** Every claim a call has moved past is one it may skip, still. */
  ghost predicate ProbedPassable<P(!new)>(s: State<P>, c: Call<P>) {
    c.phase.Probing? || c.phase.Inspecting? ==>
      && c.read < Passed(c) <= c.read + CLAIM_SKIPS
      && forall u :: c.read < u < Passed(c) ==> u in s.claims && Passable(s.claims[u], c.at)
  }

  /** Claims stay, and what may be skipped may be skipped for good. */
  lemma {:induction false} ClaimsStay<P(!new)>(s: State<P>, step: Step<P>)
    requires Enabled(s, step)
    ensures forall u, at :: u in s.claims && Passable(s.claims[u], at) ==>
              u in Apply(s, step).claims && Passable(Apply(s, step).claims[u], at)
  {
  }

  lemma {:induction false} ProbesOn<P(!new)>(s: State<P>, s': State<P>, c: Call<P>)
    requires ProbedPassable(s, c)
    requires forall u :: u in s.claims && Passable(s.claims[u], c.at) ==>
               u in s'.claims && Passable(s'.claims[u], c.at)
    ensures ProbedPassable(s', c)
  {
  }

  lemma {:induction false} KeepsProbed<P(!new)>(s: State<P>, step: Step<P>, id: nat)
    requires Enabled(s, step)
    requires id in s.calls ==> ProbedPassable(s, s.calls[id])
    ensures id in Apply(s, step).calls ==> ProbedPassable(Apply(s, step), Apply(s, step).calls[id])
  {
    var s' := Apply(s, step);
    if id in s.calls && s'.calls[id] == s.calls[id] {
      ClaimsStay(s, step);
      ProbesOn(s, s', s.calls[id]);
    } else if id in s'.calls {
      assert step.id == id;
    }
  }

  lemma {:induction false} RunProbed<P(!new)>(run: seq<State<P>>, steps: seq<Step<P>>, d: int, n: nat, id: nat)
    requires Run(run, steps, d) && n < |run|
    ensures id in run[n].calls ==> ProbedPassable(run[n], run[n].calls[id])
  {
    if n > 0 {
      RunProbed(run, steps, d, n - 1, id);
      KeepsProbed(run[n - 1], steps[n - 1], id);
    }
  }

  /**
   However the probes of other calls interleave, a call creates exactly the
   claim that is claimable at that moment, and is refused exactly when none is.
   */
  lemma {:induction false} ProbesFindClaimable<P(!new)>(run: seq<State<P>>, steps: seq<Step<P>>, d: int, i: nat)
    requires Run(run, steps, d) && i < |steps| && (steps[i].TryClaim? || steps[i].Inspect?)
    ensures var c, c' := run[i].calls[steps[i].id], run[i + 1].calls[steps[i].id];
            && (c'.phase.Writing? ==> Claimable(run[i].claims, c.read, c.at, c'.phase.version))
            && (c'.phase.Refused? ==> forall v :: !Claimable(run[i].claims, c.read, c.at, v))
  {
    var s, id := run[i], steps[i].id;
    RunProbed(run, steps, d, i, id);
    var c := s.calls[id];
    if run[i + 1].calls[id].phase.Refused? {
      forall v
        ensures !Claimable(s.claims, c.read, c.at, v)
      {
        assert c.read < v < c.phase.next ==> v in s.claims;
        assert c.phase.next in s.claims;
      }
    }
  }

  // ----- both bounds are exact

  /** A document of one part at version 1. */
  function AtVersionOne(): (s: State<int>)
    ensures Start(s)
  {
    State(0, 1, 1, Register(1, [0]), [0], map[], map[], map[], map[])
  }

  /** A run with one more step. */
  lemma {:induction false} Extend(run: seq<State<int>>, steps: seq<Step<int>>, d: int, step: Step<int>)
    returns (run': seq<State<int>>, steps': seq<Step<int>>)
    requires Run(run, steps, d)
    requires Enabled(run[|steps|], step) && Timely(Apply(run[|steps|], step), d)
    ensures Run(run', steps', d) && steps' == steps + [step]
    ensures |run'| == |run| + 1 && run'[|steps|] == run[|steps|]
    ensures run'[|steps| + 1] == Apply(run[|steps|], step)
  {
    run', steps' := run + [Apply(run[|steps|], step)], steps + [step];
  }

  /** Call 0 claims version 2, read and stamped at time 0. */
  lemma {:induction false} FirstClaims(d: int) returns (run: seq<State<int>>, steps: seq<Step<int>>)
    requires 0 <= d
    ensures Run(run, steps, d)
    ensures run[|steps|] == State(0, 1, 2, Register(1, [0]), [0],
                                  map[2 := Claimed(0)], map[2 := 0], map[],
                                  map[0 := Call([7], Some(1), true, 1, 0, 0, Writing(2, 0))])
  {
    run, steps := [AtVersionOne()], [];
    run, steps := Extend(run, steps, d, ReadHeader(0, [7], Some(1), true));
    run, steps := Extend(run, steps, d, Check(0));
    run, steps := Extend(run, steps, d, TryClaim(0));
  }

  lemma {:induction false} SecondReadsLate(d: int) returns (run: seq<State<int>>, steps: seq<Step<int>>)
    requires d > CLAIM_TTL
    ensures Run(run, steps, d)
    ensures run[|steps|] == State(CLAIM_TTL + 1, 1, 2, Register(1, [0]), [0],
                                  map[2 := Claimed(0)], map[2 := 0], map[],
                                  map[0 := Call([7], Some(1), true, 1, 0, 0, Writing(2, 0)),
                                      1 := Call([8], None, true, 1, CLAIM_TTL + 1, CLAIM_TTL + 1, HeaderRead)])
  {
    hide Run;
    run, steps := FirstClaims(d);
    run, steps := Extend(run, steps, d, Tick(CLAIM_TTL + 1));
    run, steps := Extend(run, steps, d, ReadHeader(1, [8], None, true));
  }

  /** Past the claim's expiry a second call takes the next version while the first still writes. */
  lemma {:induction false} BothWrite(d: int) returns (run: seq<State<int>>, steps: seq<Step<int>>)
    requires d > CLAIM_TTL
    ensures Run(run, steps, d) && !Alone(run[|steps|])
  {
    hide Run;
    run, steps := SecondReadsLate(d);
    run, steps := Extend(run, steps, d, Check(1));
    run, steps := Extend(run, steps, d, TryClaim(1));
    run, steps := Extend(run, steps, d, Inspect(1));
    run, steps := Extend(run, steps, d, TryClaim(1));
    assert run[|steps|].calls[0].phase.Writing? && run[|steps|].calls[1].phase.Writing?;
  }

  /** Call 1 reads version 1 just before call 0 puts version 2, at its deadline. */
  lemma {:induction false} SecondReads(d: int) returns (run: seq<State<int>>, steps: seq<Step<int>>)
    requires 0 <= d
    ensures Run(run, steps, d)
    ensures run[|steps|] == State(d, 1, 2, Register(1, [0]), [0],
                                  map[2 := Claimed(0)], map[2 := 0], map[],
                                  map[0 := Call([7], Some(1), true, 1, 0, 0, Writing(2, 0)),
                                      1 := Call([8], Some(1), true, 1, d, d, HeaderRead)])
  {
    hide Run;
    run, steps := FirstClaims(d);
    run, steps := Extend(run, steps, d, Tick(d));
    run, steps := Extend(run, steps, d, ReadHeader(1, [8], Some(1), true));
  }

  lemma {:induction false} SecondReadsFirstPuts(d: int) returns (run: seq<State<int>>, steps: seq<Step<int>>)
    requires 0 <= d
    ensures Run(run, steps, d)
    ensures run[|steps|] == State(d, 1, 2, Register(2, [7]), [7],
                                  map[2 := Claimed(0)], map[2 := 0], map[2 := d],
                                  map[0 := Call([7], Some(1), true, 1, 0, 0, Returned),
                                      1 := Call([8], Some(1), true, 1, d, d, HeaderRead)])
  {
    hide Run;
    run, steps := SecondReads(d);
    run, steps := Extend(run, steps, d, WritePart(0));
    run, steps := Extend(run, steps, d, PutHeader(0));
  }

  /** It stamps its own claim when call 0's has expired. */
  lemma {:induction false} SecondStamps(d: int) returns (run: seq<State<int>>, steps: seq<Step<int>>)
    requires 0 <= d && CLAIM_TTL < 2 * d
    ensures Run(run, steps, d)
    ensures run[|steps|] == State(2 * d, 1, 2, Register(2, [7]), [7],
                                  map[2 := Claimed(0)], map[2 := 0], map[2 := d],
                                  map[0 := Call([7], Some(1), true, 1, 0, 0, Returned),
                                      1 := Call([8], Some(1), true, 1, d, 2 * d, Probing(2))])
  {
    hide Run;
    run, steps := SecondReadsFirstPuts(d);
    run, steps := Extend(run, steps, d, Tick(d));
    run, steps := Extend(run, steps, d, Check(1));
  }

  /** So it skips a version that is on the header. */
  lemma {:induction false} SecondSkipsCommitted(d: int) returns (run: seq<State<int>>, steps: seq<Step<int>>)
    requires 0 <= d && CLAIM_TTL < 2 * d
    ensures Run(run, steps, d)
    ensures run[|steps|] == State(2 * d, 1, 2, Register(2, [7]), [7],
                                  map[2 := Claimed(0)], map[2 := 0], map[2 := d],
                                  map[0 := Call([7], Some(1), true, 1, 0, 0, Returned),
                                      1 := Call([8], Some(1), true, 1, d, 2 * d, Probing(3))])
  {
    hide Run;
    run, steps := SecondStamps(d);
    run, steps := Extend(run, steps, d, TryClaim(1));
    run, steps := Extend(run, steps, d, Inspect(1));
  }

  /** It overwrites version 2 although its caller expected version 1. */
  lemma {:induction false} SecondOverwrites(d: int) returns (run: seq<State<int>>, steps: seq<Step<int>>)
    requires 0 <= d && CLAIM_TTL < 2 * d
    ensures Run(run, steps, d) && |steps| > 0
    ensures !StepReplaces(run[|steps| - 1], steps[|steps| - 1])
  {
    run, steps := SecondSkipsCommitted(d);
    run, steps := Extend(run, steps, d, TryClaim(1));
    run, steps := Extend(run, steps, d, WritePart(1));
    run, steps := Extend(run, steps, d, PutHeader(1));
  }

  /** Writers are alone in every timely run exactly when no call outlives a claim. */
  lemma {:induction false} MutualExclusionBound(d: int)
    ensures AlwaysAlone(d) <==> d <= CLAIM_TTL
  {
    if d <= CLAIM_TTL {
      forall run: seq<State<int>>, steps: seq<Step<int>>, n: nat | Run(run, steps, d) && n < |run|
        ensures Alone(run[n])
      {
        MutualExclusion(run, steps, d, n);
      }
    } else {
      var run, steps := BothWrite(d);
      assert !Alone(run[|steps|]);
    }
  }

  /** No update is lost in any timely run exactly when no two calls together outlive a claim. */
  lemma {:induction false} NoLostUpdateBound(d: nat)
    ensures NeverLost(d) <==> 2 * d <= CLAIM_TTL
  {
    if 2 * d <= CLAIM_TTL {
      forall run: seq<State<int>>, steps: seq<Step<int>>, i: nat | Run(run, steps, d) && i < |steps|
        ensures StepReplaces(run[i], steps[i])
      {
        NoLostUpdate(run, steps, d, i);
      }
    } else {
      var run, steps := SecondOverwrites(d);
      assert !StepReplaces(run[|steps| - 1], steps[|steps| - 1]);
    }
  }
}
