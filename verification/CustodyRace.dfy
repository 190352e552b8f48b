/** Custody retirement from any number of workspaces at once: their steps interleave, without a
    compare-and-swap in the registry (scripts/m3_11_custody_retirement.py,
    scripts/m3_11_custody_registry.py). */
module CustodyRace {
  import opened Outcomes
  import C = Custody

  /** How far an attempt has come. `own` says whether its own note was in the listing that
      confirmed it, or only an equal one. */
  datatype Stage =
    | Idle
    | Looked                  // `exclusion` found nothing
    | Selected                // `publish_once` found nothing either
    | Posted                  // its note was posted and read back by its identity
    | Confirmed(own: bool)    // the first `require_exclusion` passed
    | Rechecked(own: bool)    // and the second one
    | Deleted(own: bool)      // the DELETE was sent
    | Stopped
  {
    predicate Won() { Confirmed? || Rechecked? || Deleted? }
  }

  /** `place` is where its own note lies in the listing, once it is listed. */
  datatype Attempt = Attempt(note: C.Exclusion, stage: Stage, place: Option<nat>)

  type Id = nat

  /** The listing of the vault, and the attempts. */
  datatype State = State(items: seq<C.Item>, attempts: map<Id, Attempt>)

  datatype Move =
    | Join(id: Id, note: C.Exclusion)
    | Look(id: Id)
    | Select(id: Id)
    | Post(id: Id)
    | List(id: Id, item: nat)
    | Confirm(id: Id)
    | Recheck(id: Id)
    | Delete(id: Id)
    | Stop(id: Id)
    | Arrive(more: seq<C.Item>)

  function Moved(s: State, id: Id, stage: Stage): State
    requires id in s.attempts
  {
    s.(attempts := s.attempts[id := s.attempts[id].(stage := stage)])
  }

  /** The note of an attempt enters the listing. */
  function Listed(s: State, id: Id, item: nat): State
    requires id in s.attempts
  {
    var a := s.attempts[id];
    State(s.items + [C.Item(item, true, Some(a.note))], s.attempts[id := a.(place := Some(|s.items|))])
  }

  /** The registry shows exactly this exclusion of the fixture. */
  ghost predicate Holds(s: State, note: C.Exclusion) {
    C.Readable(s.items) && C.First(C.Notes(s.items), note.fixture) == Some(note)
  }

  ghost predicate At(s: State, id: Id, stage: Stage) {
    id in s.attempts && s.attempts[id].stage == stage
  }

  /** One step of one attempt, or items that arrive in the vault, such as a lost publication. A
      posted note enters the listing at any later time. */
  ghost predicate Step(s: State, move: Move, t: State) {
    match move
    case Join(id, note) => id !in s.attempts && t == s.(attempts := s.attempts[id := Attempt(note, Idle, None)])
    case Look(id) => At(s, id, Idle) && C.Free(s.items, s.attempts[id].note.fixture) && t == Moved(s, id, Looked)
    case Select(id) =>
      At(s, id, Looked) && C.Free(s.items, s.attempts[id].note.fixture) && t == Moved(s, id, Selected)
    case Post(id) => At(s, id, Selected) && t == Moved(s, id, Posted)
    case List(id, item) =>
      && id in s.attempts && s.attempts[id].place.None?
      && (s.attempts[id].stage.Posted? || s.attempts[id].stage.Won()) && t == Listed(s, id, item)
    case Confirm(id) =>
      && At(s, id, Posted) && Holds(s, s.attempts[id].note)
      && t == Moved(s, id, Confirmed(s.attempts[id].place.Some?))
    case Recheck(id) =>
      && id in s.attempts && s.attempts[id].stage.Confirmed? && Holds(s, s.attempts[id].note)
      && t == Moved(s, id, Rechecked(s.attempts[id].stage.own))
    case Delete(id) =>
      id in s.attempts && s.attempts[id].stage.Rechecked? && t == Moved(s, id, Deleted(s.attempts[id].stage.own))
    case Stop(id) => id in s.attempts && !s.attempts[id].stage.Deleted? && t == Moved(s, id, Stopped)
    case Arrive(more) => t == s.(items := s.items + more)
  }

  /** The note of an attempt lies where it was listed, and one that confirmed it lies somewhere. */
  ghost predicate Noted(items: seq<C.Item>, a: Attempt) {
    && (a.place.Some? ==> Carries(items, a.place.value, a.note))
    && (a.stage.Won() ==> exists k :: Carries(items, k, a.note))
    && (a.stage.Won() && a.stage.own ==> a.place.Some?)
  }

  ghost predicate Carries(items: seq<C.Item>, k: nat, note: C.Exclusion) {
    k < |items| && items[k].marked && items[k].note == Some(note)
  }

  /** Two confirmed attempts on one fixture wrote equal notes, and one of them was confirmed by
      the note of another. */
  ghost predicate Apart(a: Attempt, b: Attempt) {
    && (a.place.Some? ==> a.place != b.place)
    && (Rivals(a, b) ==> a.note == b.note && !(a.stage.own && b.stage.own))
  }

  ghost predicate Rivals(a: Attempt, b: Attempt) {
    a.stage.Won() && b.stage.Won() && a.note.fixture == b.note.fixture
  }

  ghost predicate Invariant(s: State) {
    && (forall id <- s.attempts :: Noted(s.items, s.attempts[id]))
    && (forall a <- s.attempts, b <- s.attempts :: a != b ==> Apart(s.attempts[a], s.attempts[b]))
  }

  /** Two notes for one fixture make the registry unreadable. */
  lemma {:induction false} TwoNotesAreUnreadable(items: seq<C.Item>, i: nat, j: nat, fixture: C.Fixture)
    requires i < |items| && j < |items| && i != j && items[i].Excludes(fixture) && items[j].Excludes(fixture)
    ensures !C.Readable(items)
  {
    var a, b := if i < j then i else j, if i < j then j else i;
    assert items[a].Excludes(fixture) && items[b].Excludes(fixture);
  }

  /** What a confirmed note was read from. */
  lemma {:induction false} NotesAreCarried(items: seq<C.Item>, note: C.Exclusion)
    requires note in C.Notes(items)
    ensures exists k :: Carries(items, k, note)
  {
    var n := |items| - 1;
    if note in C.Notes(items[..n]) {
      NotesAreCarried(items[..n], note);
      var k :| Carries(items[..n], k, note);
      assert Carries(items, k, note);
    } else {
      assert Carries(items, n, note);
    }
  }

  /** Whoever is confirmed second would see two notes, unless they are one. */
  lemma {:induction false} ConfirmationIsAlone(s: State, id: Id, other: Id)
    requires Invariant(s) && id in s.attempts && other in s.attempts && id != other
    requires Holds(s, s.attempts[id].note) && s.attempts[other].stage.Won()
    requires s.attempts[id].note.fixture == s.attempts[other].note.fixture
    ensures s.attempts[id].note == s.attempts[other].note
    ensures s.attempts[id].place.None? || s.attempts[other].place.None?
  {
    var a, b := s.attempts[id], s.attempts[other];
    assert Noted(s.items, a) && Noted(s.items, b) && Apart(a, b);
    NotesAreCarried(s.items, a.note);
    var i :| Carries(s.items, i, a.note);
    var j :| Carries(s.items, j, b.note);
    if i != j {
      TwoNotesAreUnreadable(s.items, i, j, a.note.fixture);
    }
    if a.place.Some? && b.place.Some? {
      TwoNotesAreUnreadable(s.items, a.place.value, b.place.value, a.note.fixture);
    }
  }

  lemma {:induction false} NotesStay(items: seq<C.Item>, more: seq<C.Item>, a: Attempt)
    requires Noted(items, a)
    ensures Noted(items + more, a)
  {
    assert forall k: nat :: Carries(items, k, a.note) ==> Carries(items + more, k, a.note);
  }

  lemma {:induction false} StepKeepsNotes(s: State, move: Move, t: State, id: Id)
    requires Invariant(s) && Step(s, move, t) && id in t.attempts
    ensures Noted(t.items, t.attempts[id])
  {
    if id in s.attempts {
      assert Noted(s.items, s.attempts[id]);
      if move.Confirm? && move.id == id {
        NotesAreCarried(s.items, s.attempts[id].note);
      } else {
        if move.Arrive? {
          NotesStay(s.items, move.more, s.attempts[id]);
        }
        if move.List? {
          NotesStay(s.items, t.items[|s.items|..], s.attempts[id]);
        }
      }
    }
  }

  lemma {:induction false} StepKeepsApart(s: State, move: Move, t: State, a: Id, b: Id)
    requires Invariant(s) && Step(s, move, t) && a in t.attempts && b in t.attempts && a != b
    ensures Apart(t.attempts[a], t.attempts[b])
  {
    if a in s.attempts && b in s.attempts {
      assert Apart(s.attempts[a], s.attempts[b]) && Apart(s.attempts[b], s.attempts[a]);
      assert Noted(s.items, s.attempts[a]) && Noted(s.items, s.attempts[b]);
      if move.Confirm? && Rivals(t.attempts[a], t.attempts[b]) {
        if move.id == a {
          ConfirmationIsAlone(s, a, b);
        }
        if move.id == b {
          ConfirmationIsAlone(s, b, a);
        }
      }
    }
  }

  lemma {:induction false} StepKeeps(s: State, move: Move, t: State)
    requires Invariant(s) && Step(s, move, t)
    ensures Invariant(t)
  {
    forall id | id in t.attempts
      ensures Noted(t.items, t.attempts[id])
    {
      StepKeepsNotes(s, move, t, id);
    }
    forall a, b | a in t.attempts && b in t.attempts && a != b
      ensures Apart(t.attempts[a], t.attempts[b])
    {
      StepKeepsApart(s, move, t, a, b);
    }
  }

  /** Any interleaving of any number of attempts, from any vault. */
  ghost predicate Trace(states: seq<State>, moves: seq<Move>) {
    && |states| == |moves| + 1 && states[0].attempts == map[]
    && forall i :: 0 <= i < |moves| ==> Step(states[i], moves[i], states[i + 1])
  }

  lemma {:induction false} TraceKeeps(states: seq<State>, moves: seq<Move>, n: nat)
    requires Trace(states, moves) && n <= |moves|
    ensures Invariant(states[n])
  {
    if n > 0 {
      TraceKeeps(states, moves, n - 1);
      StepKeeps(states[n - 1], moves[n - 1], states[n]);
    }
  }

  /** An attempt that sent its DELETE sends no other. */
  lemma {:induction false} DeletedStays(states: seq<State>, moves: seq<Move>, i: nat, n: nat, id: Id)
    requires Trace(states, moves) && i <= n <= |moves|
    requires id in states[i].attempts && states[i].attempts[id].stage.Deleted?
    ensures id in states[n].attempts && states[n].attempts[id].stage == states[i].attempts[id].stage
    ensures states[n].attempts[id].note == states[i].attempts[id].note
  {
    if i < n {
      DeletedStays(states, moves, i, n - 1, id);
      assert Step(states[n - 1], moves[n - 1], states[n]);
    }
  }

  /** The attempt `a` sends its DELETE. */
  ghost predicate Sends(s: State, move: Move, a: Attempt) {
    move.Delete? && move.id in s.attempts && s.attempts[move.id] == a && a.stage.Rechecked?
  }

  /** Over every interleaving, two DELETEs for one fixture need equal notes (of one plan, one
      authorization and one time), one of which was not yet listed when its attempt was
      confirmed. */
  lemma {:induction false} TwoDeletesNeedALag(states: seq<State>, moves: seq<Move>, i: nat, j: nat, a: Attempt,
                                              b: Attempt)
    requires Trace(states, moves) && i < j < |moves|
    requires Sends(states[i], moves[i], a) && Sends(states[j], moves[j], b)
    ensures a.note.fixture == b.note.fixture ==> a.note == b.note && !(a.stage.own && b.stage.own)
  {
    var first, second := moves[i].id, moves[j].id;
    assert Step(states[i], moves[i], states[i + 1]) && Step(states[j], moves[j], states[j + 1]);
    DeletedStays(states, moves, i + 1, j, first);
    TraceKeeps(states, moves, j);
    assert first != second;
    assert Apart(states[j].attempts[first], states[j].attempts[second]);
  }

  /** No attempt is confirmed before its own note is listed. */
  ghost predicate Prompt(states: seq<State>, moves: seq<Move>) {
    && |states| == |moves| + 1
    && forall i :: 0 <= i < |moves| && moves[i].Confirm? && moves[i].id in states[i].attempts ==>
         states[i].attempts[moves[i].id].place.Some?
  }

  lemma {:induction false} PromptOwns(states: seq<State>, moves: seq<Move>, n: nat)
    requires Trace(states, moves) && Prompt(states, moves) && n <= |moves|
    ensures forall id <- states[n].attempts :: states[n].attempts[id].stage.Won() ==> states[n].attempts[id].stage.own
  {
    if n > 0 {
      PromptOwns(states, moves, n - 1);
      assert Step(states[n - 1], moves[n - 1], states[n]);
    }
  }

  /** At most one DELETE is sent for a fixture over every interleaving in which the notes differ
      or a listing shows what its reader has posted. */
  lemma {:induction false} AtMostOneDelete(states: seq<State>, moves: seq<Move>, i: nat, j: nat, a: Attempt, b: Attempt)
    requires Trace(states, moves) && i < j < |moves|
    requires Sends(states[i], moves[i], a) && Sends(states[j], moves[j], b)
    requires Prompt(states, moves) || a.note != b.note
    ensures a.note.fixture != b.note.fixture
  {
    TwoDeletesNeedALag(states, moves, i, j, a, b);
    if Prompt(states, moves) {
      PromptOwns(states, moves, i);
      PromptOwns(states, moves, j);
    }
  }

  // ------------------------------------------------------ equal notes and a late listing

  /** Two attempts with one note in their stages; the first one's is listed unless `items` is
      empty. */
  function Pair(note: C.Exclusion, items: seq<C.Item>, first: Stage, second: Stage): State {
    State(items,
          map[0 := Attempt(note, first, if items == [] then None else Some(0)), 1 := Attempt(note, second, None)])
  }

  lemma {:induction false} Extend(states: seq<State>, moves: seq<Move>, move: Move, t: State)
    returns (longer: seq<State>, more: seq<Move>)
    requires Trace(states, moves) && Step(states[|moves|], move, t)
    ensures Trace(longer, more) && longer == states + [t] && more == moves + [move]
  {
    longer, more := states + [t], moves + [move];
    forall i | 0 <= i < |more|
      ensures Step(longer[i], more[i], longer[i + 1])
    {
      if i < |moves| {
        assert Step(states[i], moves[i], states[i + 1]);
      }
    }
  }

  lemma {:induction false} OneNoteHolds(note: C.Exclusion)
    ensures C.Readable([]) && forall fixture :: !C.Excluded([], fixture)
    ensures var listed := [C.Item(0, true, Some(note))];
            C.Readable(listed) && C.First(C.Notes(listed), note.fixture) == Some(note)
  {
    var listed := [C.Item(0, true, Some(note))];
    assert listed[..0] == [];
    assert C.Marked(listed) == C.Marked([]) + listed && C.Notes(listed) == C.Notes([]) + [note];
  }

  /** Both attempts look and find nothing. */
  lemma {:induction false} BothLook(note: C.Exclusion) returns (states: seq<State>, moves: seq<Move>)
    ensures Trace(states, moves) && states[|moves|] == Pair(note, [], Looked, Looked)
  {
    OneNoteHolds(note);
    states, moves := [State([], map[])], [];
    states, moves := Extend(states, moves, Join(0, note), State([], map[0 := Attempt(note, Idle, None)]));
    states, moves := Extend(states, moves, Join(1, note), Pair(note, [], Idle, Idle));
    states, moves := Extend(states, moves, Look(0), Pair(note, [], Looked, Idle));
    states, moves := Extend(states, moves, Look(1), Pair(note, [], Looked, Looked));
  }

  /** Both attempts find nothing again and post. */
  lemma {:induction false} BothPost(note: C.Exclusion) returns (states: seq<State>, moves: seq<Move>)
    ensures Trace(states, moves) && states[|moves|] == Pair(note, [], Posted, Posted)
  {
    OneNoteHolds(note);
    states, moves := BothLook(note);
    states, moves := Extend(states, moves, Select(0), Pair(note, [], Selected, Looked));
    states, moves := Extend(states, moves, Select(1), Pair(note, [], Selected, Selected));
    states, moves := Extend(states, moves, Post(0), Pair(note, [], Posted, Selected));
    states, moves := Extend(states, moves, Post(1), Pair(note, [], Posted, Posted));
  }

  /** The first note is listed and confirms both. */
  lemma {:induction false} BothConfirm(note: C.Exclusion, items: seq<C.Item>)
    returns (states: seq<State>, moves: seq<Move>)
    requires items == [C.Item(0, true, Some(note))]
    ensures Trace(states, moves) && states[|moves|] == Pair(note, items, Confirmed(true), Confirmed(false))
  {
    OneNoteHolds(note);
    states, moves := BothPost(note);
    states, moves := Extend(states, moves, List(0, 0), Pair(note, items, Posted, Posted));
    states, moves := Extend(states, moves, Confirm(0), Pair(note, items, Confirmed(true), Posted));
    states, moves := Extend(states, moves, Confirm(1), Pair(note, items, Confirmed(true), Confirmed(false)));
  }

  lemma {:induction false} BothRecheck(note: C.Exclusion, items: seq<C.Item>)
    returns (states: seq<State>, moves: seq<Move>)
    requires items == [C.Item(0, true, Some(note))]
    ensures Trace(states, moves) && states[|moves|] == Pair(note, items, Rechecked(true), Rechecked(false))
  {
    OneNoteHolds(note);
    states, moves := BothConfirm(note, items);
    states, moves := Extend(states, moves, Recheck(0), Pair(note, items, Rechecked(true), Confirmed(false)));
    states, moves := Extend(states, moves, Recheck(1), Pair(note, items, Rechecked(true), Rechecked(false)));
  }

  /** Equal notes with a late listing do send two DELETEs for one fixture. */
  lemma {:induction false} EqualNotesDeleteTwice(note: C.Exclusion)
    returns (states: seq<State>, moves: seq<Move>, i: nat, a: Attempt, b: Attempt)
    ensures Trace(states, moves) && i + 1 < |moves| && a.note == b.note == note
    ensures Sends(states[i], moves[i], a) && Sends(states[i + 1], moves[i + 1], b)
  {
    var items := [C.Item(0, true, Some(note))];
    states, moves := BothRecheck(note, items);
    i, a, b := |moves|, Attempt(note, Rechecked(true), Some(0)), Attempt(note, Rechecked(false), None);
    states, moves := Extend(states, moves, Delete(0), Pair(note, items, Deleted(true), Rechecked(false)));
    states, moves := Extend(states, moves, Delete(1), Pair(note, items, Deleted(true), Deleted(false)));
  }
}
