/**
 Failure-free life of one document under both strategies: the process is
 restarted with documents in the model or in account-management any number of
 times, and between restarts the document is read, written and deleted.
 */
module StoreSwitching {
  import opened Prelude
  import opened Json
  import opened ObjectPort
  import opened TenantDocument
  import opened Migration

  /** One document, the strategy in use, and whether this process has moved it back already. */
  datatype Doc = Doc(view: View, returning: bool, back: bool)

  /** Versions and row numbers are the stores' own, so they come with the call. */
  datatype Op =
    | Read(number: int)
    | Upsert(value: Json, version: int, number: int)
    | Delete(number: int)
    | Restart(returning: bool)

  /** A document that can be kept in either store: storable as it is given, and as it then reads back. */
  ghost predicate Movable(sp: Spelling, kind: Kind, value: Json) {
    Storable(sp, kind, value) && Storable(sp, kind, Normalized(sp, kind, value))
  }

  /**
   A document written to the model, moved back from there, and moved in again
   over whatever the model then holds, is what was written each time exactly
   when it can move: both halves of being movable are needed.
   */
  lemma {:induction false} SurvivesBothWays(sp: Spelling, store: Store, later: Store, kind: Kind, tenant: string,
                                            value: Json, version: int, again: int, legacy: bool)
    requires WellFormed(kind) && Plain(tenant) && Enumerates(sp)
    ensures var first := SideOf(WriteDocument(sp, store, kind, tenant, value, version, false), kind, tenant);
            && first.Live?
            && var second := SideOf(WriteDocument(sp, later, kind, tenant, first.entry.value, again, legacy), kind, tenant);
               && second.Live?
               && (first.entry.value == Normalized(sp, kind, value) && second.entry.value == Normalized(sp, kind, value)
                   <==> Movable(sp, kind, value))
  {
    hide SideOf, WriteDocument, WellFormed, Enumerates, Storable, Normalized;
    CopyMade(sp, store, kind, tenant, value, version, false);
    var first := SideOf(WriteDocument(sp, store, kind, tenant, value, version, false), kind, tenant);
    CopyMade(sp, later, kind, tenant, first.entry.value, again, legacy);
    NormalizedAgain(sp, kind, value);
  }

  /** Two records of one id, under keys of their own. */
  const TWINS := map["first" := Numbered(1), "second" := Numbered(2)]

  lemma {:induction false} TwinEntries(sp: Spelling, part: Part) returns (i: nat, j: nat)
    requires Enumerates(sp) && part.key == ["id"]
    ensures var records := Records(sp, part, Some(Obj(TWINS)));
            && PartStorable(records) && i < |records| && j < |records| && i != j
            && records[i].1 == Numbered(1) && records[j].1 == Numbered(2)
  {
    var keys := sp.keys(TWINS.Keys);
    assert "first" in TWINS.Keys && "second" in TWINS.Keys;
    i :| 0 <= i < |keys| && keys[i] == "first";
    j :| 0 <= j < |keys| && keys[j] == "second";
    assert forall k :: 0 <= k < |keys| ==> keys[k] in keys;
  }

  /** A list part given as a map whose two records have one id: stored once under the map's keys, not again under its own. */
  lemma {:induction false} StorableOnce(sp: Spelling, kind: Kind)
    requires WellFormed(kind) && Enumerates(sp)
    requires kind.parts != [] && kind.parts[0].key == ["id"]
    ensures var value := Obj(map[kind.parts[0].field := Obj(TWINS)]);
            Storable(sp, kind, value) && !Movable(sp, kind, value)
  {
    hide KeyOf, WellFormed, Enumerates, Normalized;
    var part, value := kind.parts[0], Obj(map[kind.parts[0].field := Obj(TWINS)]);
    OtherPartsEmpty(sp, kind, value);
    var i, j := TwinEntries(sp, part);
    NormalFields(sp, kind, value);
    var again := RecordsOf(sp, kind, Normalized(sp, kind, value), 0);
    KeyById(sp, Numbered(1), part, i);
    KeyById(sp, Numbered(2), part, j);
    assert again[i].0 == again[j].0;
  }

  /** A document whose only field is its first part has nothing in the others. */
  lemma {:induction false} OtherPartsEmpty(sp: Spelling, kind: Kind, value: Json)
    requires WellFormed(kind) && kind.parts != []
    requires value.Obj? && value.fields.Keys == {kind.parts[0].field}
    ensures forall p :: 1 <= p < |kind.parts| ==> RecordsOf(sp, kind, value, p) == []
  {
    forall p | 1 <= p < |kind.parts|
      ensures RecordsOf(sp, kind, value, p) == []
    {
      assert kind.parts[0].field != kind.parts[p].field;
    }
  }

  /** First the model's copy goes back, once per process; or account-management's comes in. */
  function Touched(sp: Spelling, kind: Kind, d: Doc, number: int): Doc {
    if !d.returning then d.(view := Settled(sp, kind, d.view))
    else if d.back then d
    else d.(view := MovedBack(d.view, number), back := true)
  }

  function RowLeft(s: View): Option<Entry> {
    match s.model
    case Live(_, true) => None
    case _ => s.row
  }

  function After(sp: Spelling, kind: Kind, d: Doc, op: Op): Doc {
    match op
    case Read(number) => Touched(sp, kind, d, number)
    case Upsert(value, version, number) =>
      var t := Touched(sp, kind, d, number);
      if d.returning then t.(view := t.view.(row := Some(Entry(value, version))))
      else t.(view := Written(sp, kind, t.view, value, version, RowLeft(t.view)))
    case Delete(number) =>
      var t := Touched(sp, kind, d, number);
      if d.returning then t.(view := RowDropped(t.view))
      else if Current(sp, kind, t.view).None? then t
      else t.(view := t.view.(model := Deleted(HeaderVersion(t.view.model) + 1)))
    case Restart(returning) => Doc(d.view, returning, false)
  }

  /** What a read answers, and so what the document is. */
  function Answer(sp: Spelling, kind: Kind, d: Doc): Option<Json> {
    var current := if d.returning && !d.back then CurrentReturning(sp, kind, d.view)
                   else if d.returning then NormalRow(sp, kind, d.view.row)
                   else Current(sp, kind, d.view);
    match current
    case Some(entry) => Some(entry.value)
    case None => None
  }

  /** The same calls on a document kept in one place. */
  function Plainly(sp: Spelling, kind: Kind, answer: Option<Json>, op: Op): Option<Json> {
    match op
    case Upsert(value, _, _) => Some(Normalized(sp, kind, value))
    case Delete(_) => None
    case _ => answer
  }

  /** Once touched, a document is where it should be: touching it again changes nothing. */
  lemma {:induction false} TouchedAgain(sp: Spelling, kind: Kind, d: Doc, number: int, again: int)
    ensures Touched(sp, kind, Touched(sp, kind, d, number), again) == Touched(sp, kind, d, number)
  {
  }

  /** A row behind a document the model holds deleted: one strategy answers it, the other does not. */
  predicate Hidden(v: View) {
    v.model.Deleted? && v.row.Some?
  }

  /** A restart under the other strategy keeps what is answered exactly when no row is hidden. */
  lemma {:induction false} RestartKeeps(sp: Spelling, kind: Kind, d: Doc, returning: bool)
    requires d.returning && d.back ==> !d.view.model.Live?
    ensures Answer(sp, kind, After(sp, kind, d, Restart(returning))) == Answer(sp, kind, d)
            <==> d.returning == returning || !Hidden(d.view)
  {
  }

  /** What either store holds can move, and what this process moved back is back. */
  ghost predicate Steady(sp: Spelling, kind: Kind, d: Doc) {
    && (d.view.row.Some? ==> Movable(sp, kind, d.view.row.value.value))
    && (d.view.model.Live? ==>
          && Movable(sp, kind, d.view.model.entry.value)
          && Normalized(sp, kind, d.view.model.entry.value) == d.view.model.entry.value)
    && (d.back ==> d.returning && !d.view.model.Live?)
  }

  /** Documents given with their list parts as lists can move. */
  lemma {:induction false} ListsMove(sp: Spelling, kind: Kind, value: Json)
    requires WellFormed(kind) && Enumerates(sp) && Storable(sp, kind, value) && ListsAreLists(kind, value)
    ensures Movable(sp, kind, value)
  {
    StorableAgain(sp, kind, value);
  }

  /** The other strategy is put in use. */
  predicate Switches(d: Doc, op: Op) {
    op.Restart? && op.returning != d.returning
  }

  lemma {:induction false} MovableAgain(sp: Spelling, kind: Kind, value: Json)
    requires WellFormed(kind) && Enumerates(sp) && Movable(sp, kind, value)
    ensures Movable(sp, kind, Normalized(sp, kind, value))
    ensures Normalized(sp, kind, Normalized(sp, kind, value)) == Normalized(sp, kind, value)
  {
    NormalizedAgain(sp, kind, value);
  }

  lemma {:induction false} TouchedSteady(sp: Spelling, kind: Kind, d: Doc, number: int)
    requires WellFormed(kind) && Enumerates(sp) && Steady(sp, kind, d)
    ensures Steady(sp, kind, Touched(sp, kind, d, number))
    ensures Answer(sp, kind, Touched(sp, kind, d, number)) == Answer(sp, kind, d)
  {
    hide Movable, Normalized;
    if d.view.row.Some? {
      MovableAgain(sp, kind, d.view.row.value.value);
    }
  }

  /**
   Every call answers for the document as if it were kept in one place,
   exactly unless it puts the other strategy in use while a row is hidden.
   */
  lemma {:induction false} StepPlain(sp: Spelling, kind: Kind, d: Doc, op: Op)
    requires WellFormed(kind) && Enumerates(sp) && Steady(sp, kind, d)
    requires op.Upsert? ==> Movable(sp, kind, op.value)
    ensures Steady(sp, kind, After(sp, kind, d, op))
    ensures Answer(sp, kind, After(sp, kind, d, op)) == Plainly(sp, kind, Answer(sp, kind, d), op)
            <==> !(Switches(d, op) && Hidden(d.view))
  {
    hide Movable, Normalized;
    match op
    case Read(number) => TouchedSteady(sp, kind, d, number);
    case Upsert(value, _, number) =>
      TouchedSteady(sp, kind, d, number);
      MovableAgain(sp, kind, value);
    case Delete(number) => TouchedSteady(sp, kind, d, number);
    case Restart(returning) => RestartKeeps(sp, kind, d, returning);
  }

  /** At most one store holds the document. */
  ghost predicate Clean(sp: Spelling, kind: Kind, d: Doc) {
    && Steady(sp, kind, d)
    && (d.view.model.Live? ==> !d.view.model.legacy && d.view.row == None)
    && !Hidden(d.view)
  }

  /** Writing, through account-management, a document the model holds deleted. */
  predicate Hides(d: Doc, op: Op) {
    op.Upsert? && d.returning && d.view.model.Deleted?
  }

  /** A call leaves at most one store holding the document exactly unless it hides a row. */
  lemma {:induction false} StepClean(sp: Spelling, kind: Kind, d: Doc, op: Op)
    requires WellFormed(kind) && Enumerates(sp) && Clean(sp, kind, d)
    requires op.Upsert? ==> Movable(sp, kind, op.value)
    ensures Clean(sp, kind, After(sp, kind, d, op)) <==> !Hides(d, op)
  {
    hide Movable, Normalized, Answer, Plainly, Steady;
    StepPlain(sp, kind, d, op);
    Backed(sp, kind, d);
  }

  lemma {:induction false} Backed(sp: Spelling, kind: Kind, d: Doc)
    requires Steady(sp, kind, d)
    ensures d.back ==> d.returning && !d.view.model.Live?
  {
  }

  /** After a read, the document is in one store exactly: the one in use. */
  lemma {:induction false} InOneStore(sp: Spelling, kind: Kind, d: Doc, number: int)
    requires Clean(sp, kind, d)
    ensures var t := After(sp, kind, d, Read(number));
            && (Answer(sp, kind, d).Some? <==> if d.returning then t.view.row.Some? else t.view.model.Live?)
            && (if d.returning then !t.view.model.Live? else t.view.row == None)
  {
  }

  function Run(sp: Spelling, kind: Kind, d: Doc, ops: seq<Op>): Doc {
    if ops == [] then d else After(sp, kind, Run(sp, kind, d, ops[..|ops| - 1]), ops[|ops| - 1])
  }

  function RunPlainly(sp: Spelling, kind: Kind, answer: Option<Json>, ops: seq<Op>): Option<Json> {
    if ops == [] then answer
    else Plainly(sp, kind, RunPlainly(sp, kind, answer, ops[..|ops| - 1]), ops[|ops| - 1])
  }

  ghost predicate AllMovable(sp: Spelling, kind: Kind, ops: seq<Op>) {
    forall i :: 0 <= i < |ops| && ops[i].Upsert? ==> Movable(sp, kind, ops[i].value)
  }

  /** After each of the first `n` calls the document answered as one store would. */
  ghost predicate PlainTo(sp: Spelling, kind: Kind, d: Doc, ops: seq<Op>, n: nat)
    requires n <= |ops|
  {
    forall i :: 0 <= i <= n ==>
      Answer(sp, kind, Run(sp, kind, d, ops[..i])) == RunPlainly(sp, kind, Answer(sp, kind, d), ops[..i])
  }

  /** None of the first `n` calls puts the other strategy in use while a row is hidden. */
  ghost predicate NoHiddenSwitch(sp: Spelling, kind: Kind, d: Doc, ops: seq<Op>, n: nat)
    requires n <= |ops|
  {
    forall i :: 0 <= i < n ==> var at := Run(sp, kind, d, ops[..i]); !(Switches(at, ops[i]) && Hidden(at.view))
  }

  lemma {:induction false} RunOn(sp: Spelling, kind: Kind, d: Doc, answer: Option<Json>, ops: seq<Op>, n: nat)
    requires n < |ops|
    ensures Run(sp, kind, d, ops[..n + 1]) == After(sp, kind, Run(sp, kind, d, ops[..n]), ops[n])
    ensures RunPlainly(sp, kind, answer, ops[..n + 1]) == Plainly(sp, kind, RunPlainly(sp, kind, answer, ops[..n]), ops[n])
  {
    assert ops[..n + 1][..n] == ops[..n];
  }

  lemma {:induction false} RunSteady(sp: Spelling, kind: Kind, d: Doc, ops: seq<Op>, n: nat)
    requires WellFormed(kind) && Enumerates(sp) && Steady(sp, kind, d) && AllMovable(sp, kind, ops) && n <= |ops|
    ensures Steady(sp, kind, Run(sp, kind, d, ops[..n]))
  {
    if n == 0 {
      assert ops[..0] == [];
    } else {
      hide Steady, Movable, After, Answer, Plainly;
      RunSteady(sp, kind, d, ops, n - 1);
      RunOn(sp, kind, d, None, ops, n - 1);
      StepPlain(sp, kind, Run(sp, kind, d, ops[..n - 1]), ops[n - 1]);
    }
  }

  lemma {:induction false} PlainToNext(sp: Spelling, kind: Kind, d: Doc, ops: seq<Op>, n: nat)
    requires n < |ops|
    ensures PlainTo(sp, kind, d, ops, n + 1) <==>
            && PlainTo(sp, kind, d, ops, n)
            && Answer(sp, kind, Run(sp, kind, d, ops[..n + 1])) == RunPlainly(sp, kind, Answer(sp, kind, d), ops[..n + 1])
  {
    hide Run, RunPlainly, Answer;
  }

  lemma {:induction false} NoHiddenNext(sp: Spelling, kind: Kind, d: Doc, ops: seq<Op>, n: nat)
    requires n < |ops|
    ensures NoHiddenSwitch(sp, kind, d, ops, n + 1) <==>
            && NoHiddenSwitch(sp, kind, d, ops, n)
            && var at := Run(sp, kind, d, ops[..n]); !(Switches(at, ops[n]) && Hidden(at.view))
  {
    hide Run;
  }

  /** A run that answered plainly so far goes on so exactly unless its next call puts the other strategy in use over a hidden row. */
  lemma {:induction false} PlainNext(sp: Spelling, kind: Kind, d: Doc, answer: Option<Json>, ops: seq<Op>, n: nat)
    requires WellFormed(kind) && Enumerates(sp) && Steady(sp, kind, d) && AllMovable(sp, kind, ops) && n < |ops|
    requires Answer(sp, kind, Run(sp, kind, d, ops[..n])) == RunPlainly(sp, kind, answer, ops[..n])
    ensures Answer(sp, kind, Run(sp, kind, d, ops[..n + 1])) == RunPlainly(sp, kind, answer, ops[..n + 1])
            <==> var at := Run(sp, kind, d, ops[..n]); !(Switches(at, ops[n]) && Hidden(at.view))
  {
    hide Steady, Movable, After, Answer, Plainly, Switches, Hidden, Run, RunPlainly, WellFormed, Enumerates;
    RunSteady(sp, kind, d, ops, n);
    RunOn(sp, kind, d, answer, ops, n);
    StepPlain(sp, kind, Run(sp, kind, d, ops[..n]), ops[n]);
  }

  lemma {:induction false} PlainUpTo(sp: Spelling, kind: Kind, d: Doc, ops: seq<Op>, n: nat)
    requires WellFormed(kind) && Enumerates(sp) && Steady(sp, kind, d) && AllMovable(sp, kind, ops) && n <= |ops|
    ensures PlainTo(sp, kind, d, ops, n) <==> NoHiddenSwitch(sp, kind, d, ops, n)
  {
    hide Steady, AllMovable, Answer, Switches, Hidden, Run, RunPlainly, WellFormed, Enumerates, PlainTo, NoHiddenSwitch;
    if n == 0 {
      PlainAtStart(sp, kind, d, ops);
    } else {
      PlainUpTo(sp, kind, d, ops, n - 1);
      PlainToNext(sp, kind, d, ops, n - 1);
      NoHiddenNext(sp, kind, d, ops, n - 1);
      if PlainTo(sp, kind, d, ops, n - 1) {
        PlainHere(sp, kind, d, ops, n - 1);
        PlainNext(sp, kind, d, Answer(sp, kind, d), ops, n - 1);
      }
    }
  }

  lemma {:induction false} PlainAtStart(sp: Spelling, kind: Kind, d: Doc, ops: seq<Op>)
    ensures PlainTo(sp, kind, d, ops, 0) && NoHiddenSwitch(sp, kind, d, ops, 0)
  {
    hide Answer, After, Plainly;
    assert ops[..0] == [];
  }

  lemma {:induction false} PlainHere(sp: Spelling, kind: Kind, d: Doc, ops: seq<Op>, n: nat)
    requires n <= |ops| && PlainTo(sp, kind, d, ops, n)
    ensures Answer(sp, kind, Run(sp, kind, d, ops[..n])) == RunPlainly(sp, kind, Answer(sp, kind, d), ops[..n])
  {
    hide Run, RunPlainly, Answer;
  }

  /**
   Over any number of restarts, reads, writes and deletes the document is,
   after each of them, what one store would hold, exactly when the strategy
   is never changed while a row is hidden: a row hidden and dropped again before that harms nothing.
   */
  lemma {:induction false} RunPlain(sp: Spelling, kind: Kind, d: Doc, ops: seq<Op>)
    requires WellFormed(kind) && Enumerates(sp) && Steady(sp, kind, d) && AllMovable(sp, kind, ops)
    ensures PlainTo(sp, kind, d, ops, |ops|) <==> NoHiddenSwitch(sp, kind, d, ops, |ops|)
  {
    PlainUpTo(sp, kind, d, ops, |ops|);
  }

  /** After each of the first `n` calls at most one store holds the document. */
  ghost predicate CleanTo(sp: Spelling, kind: Kind, d: Doc, ops: seq<Op>, n: nat)
    requires n <= |ops|
  {
    forall i :: 0 <= i <= n ==> Clean(sp, kind, Run(sp, kind, d, ops[..i]))
  }

  /** None of the first `n` calls hides a row. */
  ghost predicate NoneHides(sp: Spelling, kind: Kind, d: Doc, ops: seq<Op>, n: nat)
    requires n <= |ops|
  {
    forall i :: 0 <= i < n ==> !Hides(Run(sp, kind, d, ops[..i]), ops[i])
  }

  /** And each call leaves at most one store holding it exactly when none of them hides a row. */
  lemma {:induction false} RunClean(sp: Spelling, kind: Kind, d: Doc, ops: seq<Op>, n: nat)
    requires WellFormed(kind) && Enumerates(sp) && Clean(sp, kind, d) && AllMovable(sp, kind, ops) && n <= |ops|
    ensures CleanTo(sp, kind, d, ops, n) <==> NoneHides(sp, kind, d, ops, n)
  {
    if n == 0 {
      assert ops[..0] == [];
    } else {
      hide Clean, Movable, After, Hides, Run, WellFormed, Enumerates;
      RunClean(sp, kind, d, ops, n - 1);
      RunOn(sp, kind, d, None, ops, n - 1);
      if CleanTo(sp, kind, d, ops, n - 1) {
        StepClean(sp, kind, Run(sp, kind, d, ops[..n - 1]), ops[n - 1]);
      }
    }
  }

  /** A document deleted in the model, written again through account-management, is gone once the model is back in use. */
  lemma {:induction false} WrittenWhileHiddenIsLost(sp: Spelling, kind: Kind, d: Doc, value: Json, version: int, number: int)
    requires !d.returning && d.view.model.Deleted?
    ensures var written := Run(sp, kind, d, [Restart(true), Upsert(value, version, number)]);
            && Answer(sp, kind, written) == Some(Normalized(sp, kind, value))
            && Answer(sp, kind, After(sp, kind, written, Restart(false))) == None
  {
    var ops := [Restart(true), Upsert(value, version, number)];
    assert ops[..1] == [Restart(true)] && ops[..1][..0] == [];
    assert Run(sp, kind, d, ops[..1]) == After(sp, kind, d, Restart(true));
  }

  // ----- a move back that failed before anything was moved

  /** What is then written to account-management is overwritten at the next touch by the copy the model still holds. */
  lemma {:induction false} StaleCopyOverwrites(sp: Spelling, kind: Kind, d: Doc, value: Json, version: int, number: int)
    requires d.returning && !d.back && d.view.model.Live?
    ensures var copy := d.view.model.entry.value;
            var written := d.(view := d.view.(row := Some(Entry(value, version))));
            var later := After(sp, kind, written, Read(number));
            && later.view.row == Some(Entry(copy, number))
            && (Answer(sp, kind, written) == Some(Normalized(sp, kind, value)) <==> copy == Normalized(sp, kind, value))
            && (Answer(sp, kind, later) == Some(Normalized(sp, kind, value)) <==> Normalized(sp, kind, copy) == Normalized(sp, kind, value))
  {
  }

  /** And what is deleted there comes back. */
  lemma {:induction false} StaleCopyComesBack(sp: Spelling, kind: Kind, d: Doc, number: int)
    requires d.returning && !d.back && d.view.model.Live?
    ensures var copy := d.view.model.entry.value;
            var deleted := d.(view := RowDropped(d.view));
            var later := After(sp, kind, deleted, Read(number));
            && later.view.row == Some(Entry(copy, number))
            && Answer(sp, kind, deleted) == Some(copy)
            && Answer(sp, kind, later) == Some(Normalized(sp, kind, copy))
  {
  }
}
