/**
 Hot swap of runtime generations.

 A generation counts its users in `active`, is marked `retired` once it is no
 longer current, and runs its close function through a `sync.Once`.  The slot
 holds the current generation.  Every transition below is one atomic operation
 of one thread; in particular the decrement of `release` and its load of
 `retired` are two transitions.
 */
module RuntimeGenerations {
  import opened Options

  type Thread = nat
  type Gen = nat

  datatype Generation = Generation(active: int, retired: bool, closes: nat)

  /** One run of the slot's acquire loop: loads of `current` so far, and the
      number of swaps that had happened when the loop began. */
  datatype Loop = Loop(iterations: nat, startedAt: nat)

  /** Where a `release` returns to: its caller, or the loop of a failed acquire. */
  datatype Resume = ToCaller | ToLoop(loop: Loop)

  /** The next atomic operation of a thread. */
  datatype Pc =
    | Idle
    | LoadCurrent(loop: Loop)
    | Increment(g: Gen, loop: Loop)
    | CheckRetired(g: Gen, loop: Loop)
    | Undo(g: Gen, loop: Loop)
    | Holding(g: Gen)
      // `early` records that `retired` was unset when the decrement reached zero
    | LoadRetired(g: Gen, early: bool, resume: Resume)
    | CloseByRelease(g: Gen, early: bool, resume: Resume)
    | StoreRetired(g: Gen)
    | LoadActive(g: Gen)
    | CloseByRetire(g: Gen)

  datatype State = State(
    current: Option<Gen>, gens: map<Gen, Generation>, threads: map<Thread, Pc>, swaps: nat)
  {
    function At(t: Thread): Pc {
      if t in threads then threads[t] else Idle
    }
  }

  /** What an idle thread calls; every other thread continues where it is. */
  datatype Call = Acquire | Replace(next: Gen) | CloseSlot | Continue

  datatype Move = Move(thread: Thread, call: Call)

  predicate Enabled(s: State, m: Move) {
    match m.call
    case Replace(next) => s.At(m.thread).Idle? && next !in s.gens
    case Acquire => s.At(m.thread).Idle?
    case CloseSlot => s.At(m.thread).Idle?
    case Continue =>
      var pc := s.At(m.thread);
      !pc.Idle? && (Touches(pc) ==> pc.g in s.gens)
  }

  predicate Touches(pc: Pc) {
    !pc.Idle? && !pc.LoadCurrent?
  }

  function Resumed(r: Resume): Pc {
    match r
    case ToCaller => Idle
    case ToLoop(l) => LoadCurrent(l)
  }

  /** After `active.Add(-1)`: only the thread that reached zero loads `retired`. */
  function Decremented(gen: Generation, g: Gen, r: Resume): Pc {
    if gen.active - 1 == 0 then LoadRetired(g, !gen.retired, r) else Resumed(r)
  }

  /** What the atomic operation at `pc` does to the generation it addresses.
      `closeOnce.Do` runs the close function on the first call only. */
  function Effect(pc: Pc, gen: Generation): Generation {
    match pc
    case Increment(_, _) => gen.(active := gen.active + 1)
    case Undo(_, _) => gen.(active := gen.active - 1)
    case Holding(_) => gen.(active := gen.active - 1)
    case StoreRetired(_) => gen.(retired := true)
    case CloseByRelease(_, _, _) => if gen.closes == 0 then gen.(closes := 1) else gen
    case CloseByRetire(_) => if gen.closes == 0 then gen.(closes := 1) else gen
    case _ => gen
  }

  /** Where the thread goes, having seen the generation's fields (and `current`). */
  function Continued(pc: Pc, gen: Generation, current: Option<Gen>): Pc {
    match pc
    case Idle => Idle
    case LoadCurrent(l) =>
      if current.None? then Idle
      else Increment(current.value, l.(iterations := l.iterations + 1))
    case Increment(g, l) => CheckRetired(g, l)
    case CheckRetired(g, l) => if gen.retired then Undo(g, l) else Holding(g)
    case Undo(g, l) => Decremented(gen, g, ToLoop(l))
    case Holding(g) => Decremented(gen, g, ToCaller)
    case LoadRetired(g, early, r) => if gen.retired then CloseByRelease(g, early, r) else Resumed(r)
    case CloseByRelease(_, _, r) => Resumed(r)
    case StoreRetired(g) => LoadActive(g)
    case LoadActive(g) => if gen.active == 0 then CloseByRetire(g) else Idle
    case CloseByRetire(_) => Idle
  }

  const FRESH := Generation(0, false, 0)

  function NextPc(s: State, m: Move): Pc
    requires Enabled(s, m)
  {
    match m.call
    case Acquire => LoadCurrent(Loop(0, s.swaps))
    case Continue =>
      var pc := s.At(m.thread);
      Continued(pc, if Touches(pc) then s.gens[pc.g] else FRESH, s.current)
    case _ => if s.current.Some? then StoreRetired(s.current.value) else Idle
  }

  function NextGens(s: State, m: Move): map<Gen, Generation>
    requires Enabled(s, m)
  {
    match m.call
    case Replace(next) => s.gens[next := FRESH]
    case Continue =>
      var pc := s.At(m.thread);
      if Touches(pc) then s.gens[pc.g := Effect(pc, s.gens[pc.g])] else s.gens
    case _ => s.gens
  }

  function Next(s: State, m: Move): State
    requires Enabled(s, m)
  {
    State(
      match m.call { case Replace(next) => Some(next) case CloseSlot => None case _ => s.current },
      NextGens(s, m),
      s.threads[m.thread := NextPc(s, m)],
      s.swaps + if m.call.Replace? || m.call.CloseSlot? then 1 else 0)
  }

  // -------------------------------------------------------------------------
  // Invariant

  /** The thread is counted in `active` of g. */
  predicate Counted(pc: Pc, g: Gen) {
    (pc.CheckRetired? || pc.Undo? || pc.Holding?) && pc.g == g
  }

  ghost function Users(s: State, g: Gen): set<Thread> {
    set t | t in s.threads && Counted(s.threads[t], g)
  }

  ghost predicate Held(s: State, g: Gen) {
    exists t :: t in s.threads && s.threads[t] == Holding(g)
  }

  /** The thread has yet to decide whether g closes. */
  predicate Deciding(pc: Pc, g: Gen) {
    (pc.LoadRetired? || pc.CloseByRelease? || pc.LoadActive? || pc.CloseByRetire?) && pc.g == g
  }

  ghost predicate Undecided(s: State, g: Gen) {
    exists t :: t in s.threads && Deciding(s.threads[t], g)
  }

  ghost predicate Leaving(s: State, g: Gen) {
    exists t :: t in s.threads && s.threads[t] == StoreRetired(g)
  }

  /** Facts that the position of one thread carries about its generation. */
  ghost predicate PcSound(s: State, pc: Pc) {
    && (Touches(pc) ==> pc.g in s.gens)
    && (pc.StoreRetired? ==> s.current != Some(pc.g))
    && (pc.LoadRetired? && !pc.early ==> s.gens[pc.g].retired && !Held(s, pc.g))
    && (pc.CloseByRelease? ==> s.gens[pc.g].retired)
    && (pc.CloseByRelease? && !pc.early ==> !Held(s, pc.g))
    && (pc.LoadActive? ==> s.gens[pc.g].retired)
    && (pc.CloseByRetire? ==> s.gens[pc.g].retired && !Held(s, pc.g))
  }

  /** The loop has loaded `current` at most once more than it was swapped, and
      not even that often once it has to start over. */
  predicate LoopBounded(s: State, pc: Pc) {
    match pc
    case LoadCurrent(l) => l.iterations + l.startedAt <= s.swaps
    case Increment(g, l) => l.iterations + l.startedAt <= s.swaps + if s.current == Some(g) then 1 else 0
    case CheckRetired(g, l) => l.iterations + l.startedAt <= s.swaps + if s.current == Some(g) then 1 else 0
    case Undo(_, l) => l.iterations + l.startedAt <= s.swaps
    case LoadRetired(_, _, ToLoop(l)) => l.iterations + l.startedAt <= s.swaps
    case CloseByRelease(_, _, ToLoop(l)) => l.iterations + l.startedAt <= s.swaps
    case _ => true
  }

  ghost predicate GenSound(s: State, g: Gen)
    requires g in s.gens
  {
    var gen := s.gens[g];
    && gen.active == |Users(s, g)|
    && gen.closes <= 1
    && (gen.closes == 1 ==> gen.retired)
    && (s.current != Some(g) ==> gen.retired || Leaving(s, g))
    && (gen.retired && gen.active == 0 && gen.closes == 0 ==> Undecided(s, g))
  }

  ghost predicate Inv(s: State) {
    && (s.current.Some? ==> s.current.value in s.gens && !s.gens[s.current.value].retired)
    && (forall t :: t in s.threads ==> PcSound(s, s.threads[t]) && LoopBounded(s, s.threads[t]))
    && (forall g :: g in s.gens ==> GenSound(s, g))
  }

  function Init(first: Gen): State {
    State(Some(first), map[first := Generation(0, false, 0)], map[], 0)
  }

  lemma InitInv(first: Gen)
    ensures Inv(Init(first))
  {
    assert Users(Init(first), first) == {};
  }

  /** Only the stepping thread enters or leaves the users of g. */
  lemma UsersChange(s: State, s': State, t: Thread, g: Gen)
    requires s'.threads.Keys == s.threads.Keys + {t}
    requires forall u :: u in s.threads && u != t ==> s'.threads[u] == s.threads[u]
    ensures Users(s', g) - {t} == Users(s, g) - {t}
  {}

  lemma UserCount(s: State, s': State, t: Thread, g: Gen)
    requires s'.threads.Keys == s.threads.Keys + {t}
    requires forall u :: u in s.threads && u != t ==> s'.threads[u] == s.threads[u]
    ensures |Users(s', g)| == |Users(s, g)|
               - (if t in Users(s, g) then 1 else 0) + (if t in Users(s', g) then 1 else 0)
  {
    UsersChange(s, s', t, g);
    var others := Users(s, g) - {t};
    assert t in Users(s, g) ==> Users(s, g) == others + {t};
    assert t in Users(s', g) ==> Users(s', g) == others + {t};
    assert t !in Users(s, g) ==> Users(s, g) == others;
    assert t !in Users(s', g) ==> Users(s', g) == others;
  }

  // -------------------------------------------------------------------------
  // Preservation, one aspect at a time

  /** A move changes one thread, keeps every generation, and never unsets `retired`. */
  lemma Frame(s: State, m: Move)
    requires Enabled(s, m)
    ensures var s' := Next(s, m);
      && s'.threads.Keys == s.threads.Keys + {m.thread}
      && (forall u :: u in s.threads && u != m.thread ==> s'.threads[u] == s.threads[u])
      && s.gens.Keys <= s'.gens.Keys
      && (forall g :: g in s.gens && s.gens[g].retired ==> s'.gens[g].retired)
      && (forall g :: g in s.gens ==> s.gens[g].closes <= s'.gens[g].closes)
      && s.swaps <= s'.swaps
  {}

  /** Only a check that finds the generation not retired makes a thread hold it. */
  lemma BeginsToHold(s: State, m: Move, g: Gen)
    requires Enabled(s, m) && NextPc(s, m) == Holding(g)
    ensures m.call.Continue? && s.At(m.thread).CheckRetired? && s.At(m.thread).g == g
    ensures Touches(s.At(m.thread)) && !s.gens[g].retired
  {}

  /** A retired generation that nobody holds is never held again. */
  lemma UnheldStays(s: State, m: Move, g: Gen)
    requires Inv(s) && Enabled(s, m)
    requires g in s.gens && s.gens[g].retired && !Held(s, g)
    ensures !Held(Next(s, m), g)
  {
    Frame(s, m);
    if NextPc(s, m) == Holding(g) { BeginsToHold(s, m, g); }
  }

  /** With no user left there is no holder. */
  lemma UnusedUnheld(s: State, g: Gen)
    requires |Users(s, g)| == 0
    ensures !Held(s, g)
  {
    assert Users(s, g) == {};
    forall t | t in s.threads ensures s.threads[t] != Holding(g) {
      assert t !in Users(s, g);
    }
  }

  lemma OtherThreadSound(s: State, m: Move, u: Thread)
    requires Inv(s) && Enabled(s, m)
    requires u in s.threads && u != m.thread
    ensures PcSound(Next(s, m), s.threads[u]) && LoopBounded(Next(s, m), s.threads[u])
  {
    Frame(s, m);
    var pc := s.threads[u];
    if Touches(pc) && s.gens[pc.g].retired && !Held(s, pc.g) {
      UnheldStays(s, m, pc.g);
    }
  }

  lemma ActiveCount(s: State, m: Move, g: Gen)
    requires Enabled(s, m) && g in Next(s, m).gens
    requires if g in s.gens then s.gens[g].active == |Users(s, g)| else Users(s, g) == {}
    ensures Next(s, m).gens[g].active == |Users(Next(s, m), g)|
  {
    Frame(s, m);
    var s' := Next(s, m);
    UserCount(s, s', m.thread, g);
    assert m.thread in Users(s, g) <==> Counted(s.At(m.thread), g);
    assert m.thread in Users(s', g) <==> Counted(NextPc(s, m), g);
  }

  lemma StaysCounted(s: State, m: Move, g: Gen)
    requires Inv(s) && Enabled(s, m) && g in Next(s, m).gens
    ensures Next(s, m).gens[g].active == |Users(Next(s, m), g)|
  {
    if g in s.gens {
      assert GenSound(s, g);
    } else {
      assert forall t :: t in s.threads ==> PcSound(s, s.threads[t]);
      assert Users(s, g) == {};
    }
    ActiveCount(s, m, g);
  }

  /** The stepping thread learns that nobody holds the generation it may close. */
  lemma SteppingThreadUnheld(s: State, m: Move)
    requires Inv(s) && Enabled(s, m)
    ensures var pc' := NextPc(s, m);
      && (pc'.LoadRetired? ==> !Held(Next(s, m), pc'.g))
      && (pc'.CloseByRelease? && !pc'.early ==> !Held(Next(s, m), pc'.g))
      && (pc'.CloseByRetire? ==> !Held(Next(s, m), pc'.g))
  {
    var s', pc, pc' := Next(s, m), s.At(m.thread), NextPc(s, m);
    if pc'.LoadRetired? || pc'.CloseByRetire? {
      StaysCounted(s, m, pc'.g);
      UnusedUnheld(s', pc'.g);
    } else if pc'.CloseByRelease? && !pc'.early {
      assert PcSound(s, pc);
      UnheldStays(s, m, pc'.g);
    }
  }

  lemma SteppingThreadSound(s: State, m: Move)
    requires Inv(s) && Enabled(s, m)
    ensures PcSound(Next(s, m), NextPc(s, m))
  {
    SteppingThreadUnheld(s, m);
    if m.thread in s.threads { assert PcSound(s, s.At(m.thread)); }
  }

  lemma SteppingThreadBounded(s: State, m: Move)
    requires Inv(s) && Enabled(s, m)
    ensures LoopBounded(Next(s, m), NextPc(s, m))
  {
    if m.thread in s.threads { assert LoopBounded(s, s.At(m.thread)); }
  }

  lemma GenStaysSound(s: State, m: Move, g: Gen)
    requires Inv(s) && Enabled(s, m)
    requires g in Next(s, m).gens
    ensures GenSound(Next(s, m), g)
  {
    Frame(s, m);
    StaysCounted(s, m, g);
    if g in s.gens {
      LeavingKept(s, m, g);
      UndecidedKept(s, m, g);
    }
  }

  lemma LeavingKept(s: State, m: Move, g: Gen)
    requires Inv(s) && Enabled(s, m) && g in s.gens
    ensures Next(s, m).current != Some(g) ==> Next(s, m).gens[g].retired || Leaving(Next(s, m), g)
  {
    Frame(s, m);
    var s' := Next(s, m);
    if s'.current != Some(g) && !s'.gens[g].retired {
      if s.current == Some(g) {
        assert s'.threads[m.thread] == StoreRetired(g);
      } else {
        var t :| t in s.threads && s.threads[t] == StoreRetired(g);
        assert s'.threads[t] == StoreRetired(g);
      }
    }
  }

  lemma UndecidedKept(s: State, m: Move, g: Gen)
    requires Inv(s) && Enabled(s, m) && g in s.gens
    ensures var gen := Next(s, m).gens[g];
      gen.retired && gen.active == 0 && gen.closes == 0 ==> Undecided(Next(s, m), g)
  {
    Frame(s, m);
    var s' := Next(s, m);
    var gen := s'.gens[g];
    if gen.retired && gen.active == 0 && gen.closes == 0 {
      if s.gens[g].retired && s.gens[g].active == 0 {
        var t :| t in s.threads && Deciding(s.threads[t], g);
        assert Deciding(s'.threads[t], g);
      } else {
        assert Deciding(s'.threads[m.thread], g);
      }
    }
  }

  lemma StepInv(s: State, m: Move)
    requires Inv(s) && Enabled(s, m)
    ensures Inv(Next(s, m))
  {
    Frame(s, m);
    var s' := Next(s, m);
    SteppingThreadSound(s, m);
    SteppingThreadBounded(s, m);
    forall u | u in s'.threads ensures PcSound(s', s'.threads[u]) && LoopBounded(s', s'.threads[u]) {
      if u != m.thread { OtherThreadSound(s, m, u); }
    }
    forall g | g in s'.gens ensures GenSound(s', g) { GenStaysSound(s, m, g); }
  }

  // -------------------------------------------------------------------------
  // Whole runs

  /** A run: states and the moves between them. */
  datatype Run = Run(states: seq<State>, moves: seq<Move>)

  ghost predicate ValidRun(r: Run, first: Gen) {
    && |r.states| == |r.moves| + 1
    && r.states[0] == Init(first)
    && (forall i :: 0 <= i < |r.moves| ==> Enabled(r.states[i], r.moves[i]))
    && (forall i :: 0 <= i < |r.moves| ==> r.states[i + 1] == Next(r.states[i], r.moves[i]))
  }

  lemma {:induction false} RunInv(r: Run, first: Gen, i: nat)
    requires ValidRun(r, first) && i < |r.states|
    ensures Inv(r.states[i])
  {
    if i == 0 {
      InitInv(first);
    } else {
      RunInv(r, first, i - 1);
      StepInv(r.states[i - 1], r.moves[i - 1]);
      assert r.states[(i - 1) + 1] == Next(r.states[i - 1], r.moves[i - 1]);
    }
  }

  /** Generations stay, stay retired, and their closes never decrease. */
  lemma {:induction false} RunMonotone(r: Run, first: Gen, i: nat, j: nat, g: Gen)
    requires ValidRun(r, first) && i <= j < |r.states| && g in r.states[i].gens
    ensures g in r.states[j].gens
    ensures r.states[i].gens[g].retired ==> r.states[j].gens[g].retired
    ensures r.states[i].gens[g].closes <= r.states[j].gens[g].closes
    decreases j - i
  {
    if i < j {
      RunMonotone(r, first, i, j - 1, g);
      Frame(r.states[j - 1], r.moves[j - 1]);
      assert r.states[(j - 1) + 1] == Next(r.states[j - 1], r.moves[j - 1]);
    }
  }

  /** Move i of the run is an acquire of g that succeeds. */
  ghost predicate Acquires(r: Run, i: nat, g: Gen)
    requires i < |r.moves| && |r.states| == |r.moves| + 1
  {
    r.states[i].At(r.moves[i].thread).CheckRetired? && r.states[i + 1].At(r.moves[i].thread) == Holding(g)
  }

  /** Move i of the run executes the close function of g. */
  ghost predicate RunsClose(r: Run, i: nat, g: Gen)
    requires i < |r.moves| && |r.states| == |r.moves| + 1
  {
    g in r.states[i].gens && g in r.states[i + 1].gens
    && r.states[i].gens[g].closes < r.states[i + 1].gens[g].closes
  }

  lemma ClosesRetired(r: Run, first: Gen, i: nat, g: Gen)
    requires ValidRun(r, first) && i < |r.moves| && RunsClose(r, i, g)
    ensures r.states[i].gens[g].retired
  {
    RunInv(r, first, i);
    assert r.states[i + 1] == Next(r.states[i], r.moves[i]);
    assert PcSound(r.states[i], r.states[i].At(r.moves[i].thread));
  }

  lemma CountsOneClose(r: Run, first: Gen, i: nat, g: Gen)
    requires ValidRun(r, first) && i < |r.moves| && RunsClose(r, i, g)
    ensures r.states[i].gens[g].closes == 0 && r.states[i + 1].gens[g].closes == 1
  {
    RunInv(r, first, i + 1);
    assert GenSound(r.states[i + 1], g);
  }

  /** The close function runs at most once, and only on a retired generation. */
  lemma CloseAtMostOnce(r: Run, first: Gen, i: nat, j: nat, g: Gen)
    requires ValidRun(r, first) && i < |r.moves| && j < |r.moves|
    requires RunsClose(r, i, g) && RunsClose(r, j, g)
    ensures i == j && r.states[i].gens[g].retired
  {
    ClosesRetired(r, first, i, g);
    CountsOneClose(r, first, i, g);
    CountsOneClose(r, first, j, g);
    if i < j { RunMonotone(r, first, i + 1, j, g); }
    if j < i { RunMonotone(r, first, j + 1, i, g); }
  }

  /** No acquire of g succeeds once g is retired, so none after it closed. */
  lemma NoAcquireAfterClose(r: Run, first: Gen, i: nat, j: nat, g: Gen)
    requires ValidRun(r, first) && i < |r.moves| && j < |r.moves|
    requires RunsClose(r, i, g) && Acquires(r, j, g)
    ensures j < i
  {
    CloseAtMostOnce(r, first, i, i, g);
    assert r.states[j + 1] == Next(r.states[j], r.moves[j]);
    if i <= j { RunMonotone(r, first, i, j, g); }
  }

  /** A close taken by `retire` never runs while the generation is held, and one
      taken by `release` does so only if its decrement found `retired` unset. */
  lemma CloseWhileHeldIsEarly(r: Run, first: Gen, i: nat, g: Gen)
    requires ValidRun(r, first) && i < |r.moves|
    requires RunsClose(r, i, g) && Held(r.states[i], g)
    ensures var pc := r.states[i].At(r.moves[i].thread); pc.CloseByRelease? && pc.early && pc.g == g
  {
    RunInv(r, first, i);
    var t := r.moves[i].thread;
    assert r.states[i + 1] == Next(r.states[i], r.moves[i]);
    assert PcSound(r.states[i], r.states[i].At(t));
  }

  /** The latest move that brought t to where it is in state i. */
  lemma {:induction false} Arrival(r: Run, first: Gen, i: nat, t: Thread) returns (k: nat)
    requires ValidRun(r, first) && i < |r.states| && !r.states[i].At(t).Idle?
    ensures k < i && r.moves[k].thread == t
    ensures forall j :: k < j <= i ==> r.states[j].At(t) == r.states[i].At(t)
  {
    assert r.states[(i - 1) + 1] == Next(r.states[i - 1], r.moves[i - 1]);
    if r.moves[i - 1].thread == t {
      k := i - 1;
    } else {
      Frame(r.states[i - 1], r.moves[i - 1]);
      k := Arrival(r, first, i - 1, t);
    }
  }

  /** Some move between i and j stored `retired` of g. */
  lemma {:induction false} RetiredBetween(r: Run, first: Gen, i: nat, j: nat, g: Gen) returns (k: nat)
    requires ValidRun(r, first) && i <= j < |r.states| && g in r.states[i].gens
    requires !r.states[i].gens[g].retired && g in r.states[j].gens && r.states[j].gens[g].retired
    ensures i <= k < j && r.states[k].At(r.moves[k].thread) == StoreRetired(g)
    decreases j - i
  {
    RunMonotone(r, first, i, j - 1, g);
    assert r.states[(j - 1) + 1] == Next(r.states[j - 1], r.moves[j - 1]);
    if r.states[j - 1].gens[g].retired {
      k := RetiredBetween(r, first, i, j - 1, g);
    } else {
      k := j - 1;
    }
  }

  /** An acquire of g whose thread has done nothing since, up to state i. */
  ghost predicate StillHolds(r: Run, acquire: nat, i: nat, g: Gen)
    requires |r.states| == |r.moves| + 1
  {
    && acquire < i <= |r.moves| && Acquires(r, acquire, g)
    && forall k :: acquire < k < i ==> r.moves[k].thread != r.moves[acquire].thread
  }

  /** The order of a close that runs while the generation is held: the closing `release` decrements to
      zero, another thread acquires and keeps the generation, `retired` is stored, and only then loaded. */
  ghost predicate LateLoad(r: Run, i: nat, g: Gen, dec: nat, acquire: nat, store: nat, load: nat)
    requires |r.states| == |r.moves| + 1 && i < |r.moves|
  {
    && dec < acquire < store < load < i && StillHolds(r, acquire, i, g)
    && r.moves[dec].thread == r.moves[load].thread == r.moves[i].thread
    && g in r.states[dec].gens && g in r.states[dec + 1].gens
    && r.states[dec].gens[g].active == 1 && r.states[dec + 1].gens[g].active == 0
    && r.states[store].At(r.moves[store].thread) == StoreRetired(g)
    && r.states[load].At(r.moves[load].thread).LoadRetired?
    && g in r.states[load].gens && r.states[load].gens[g].retired
  }

  lemma CloseWhileHeldTrace(r: Run, first: Gen, i: nat, g: Gen)
    returns (dec: nat, acquire: nat, store: nat, load: nat)
    requires ValidRun(r, first) && i < |r.moves|
    requires RunsClose(r, i, g) && Held(r.states[i], g)
    ensures LateLoad(r, i, g, dec, acquire, store, load)
  {
    CloseWhileHeldIsEarly(r, first, i, g);
    var t := r.moves[i].thread;
    load := Arrival(r, first, i, t);
    assert r.states[load + 1] == Next(r.states[load], r.moves[load]);
    dec := Arrival(r, first, load, t);
    assert r.states[dec + 1] == Next(r.states[dec], r.moves[dec]);
    store := RetiredBetween(r, first, dec, load, g);
    acquire := HolderAcquired(r, first, dec, i, g);
    assert r.states[store + 1] == Next(r.states[store], r.moves[store]);
    if store <= acquire {
      RunMonotone(r, first, dec, store, g);
      RunMonotone(r, first, store + 1, acquire, g);
    }
  }

  /** A thread that holds a generation moves on by giving it up. */
  lemma HolderMoves(s: State, m: Move, g: Gen)
    requires Enabled(s, m) && s.At(m.thread) == Holding(g)
    ensures Next(s, m).At(m.thread) != Holding(g)
  {}

  /** Whoever holds g in state i, although g had no user after move dec, acquired it since and kept it. */
  lemma HolderAcquired(r: Run, first: Gen, dec: nat, i: nat, g: Gen) returns (acquire: nat)
    requires ValidRun(r, first) && dec < i < |r.states| && Held(r.states[i], g)
    requires g in r.states[dec + 1].gens && r.states[dec + 1].gens[g].active == 0
    ensures dec < acquire && StillHolds(r, acquire, i, g)
    ensures g in r.states[acquire].gens && !r.states[acquire].gens[g].retired
  {
    var u :| u in r.states[i].threads && r.states[i].threads[u] == Holding(g);
    acquire := Arrival(r, first, i, u);
    assert r.states[acquire + 1] == Next(r.states[acquire], r.moves[acquire]);
    assert r.states[acquire + 1].At(u) == Holding(g);
    forall k | acquire < k < i ensures r.moves[k].thread != u {
      assert r.states[k].At(u) == Holding(g) && r.states[k + 1].At(u) == Holding(g);
      assert r.states[k + 1] == Next(r.states[k], r.moves[k]) && Enabled(r.states[k], r.moves[k]);
      if r.moves[k].thread == u { HolderMoves(r.states[k], r.moves[k], g); }
    }
    RunInv(r, first, dec + 1);
    assert GenSound(r.states[dec + 1], g);
    UnusedUnheld(r.states[dec + 1], g);
    assert r.states[dec + 1].At(u) != Holding(g);
  }

  lemma {:induction false} KeepsHolding(r: Run, first: Gen, acquire: nat, i: nat, g: Gen)
    requires ValidRun(r, first) && StillHolds(r, acquire, i, g)
    ensures r.states[i].At(r.moves[acquire].thread) == Holding(g)
  {
    if i > acquire + 1 {
      KeepsHolding(r, first, acquire, i - 1, g);
      assert r.states[(i - 1) + 1] == Next(r.states[i - 1], r.moves[i - 1]);
      Frame(r.states[i - 1], r.moves[i - 1]);
    }
  }

  /** A generation is held when it closes, if and only if the run has that order. */
  lemma CloseWhileHeldExactly(r: Run, first: Gen, i: nat, g: Gen)
    requires ValidRun(r, first) && i < |r.moves| && RunsClose(r, i, g)
    ensures Held(r.states[i], g) <==>
      exists dec: nat, acquire: nat, store: nat, load: nat :: LateLoad(r, i, g, dec, acquire, store, load)
  {
    if Held(r.states[i], g) {
      var dec, acquire, store, load := CloseWhileHeldTrace(r, first, i, g);
    }
    if dec: nat, acquire: nat, store: nat, load: nat :| LateLoad(r, i, g, dec, acquire, store, load) {
      KeepsHolding(r, first, acquire, i, g);
      assert r.moves[acquire].thread in r.states[i].threads;
    }
  }

  /** No generation leaks: with no thread in the middle of an operation, every
      generation that is neither current nor held has been closed. */
  lemma NoLeak(r: Run, first: Gen, i: nat, g: Gen)
    requires ValidRun(r, first) && i < |r.states| && g in r.states[i].gens
    requires forall t :: t in r.states[i].threads ==> r.states[i].threads[t].Idle? || r.states[i].threads[t].Holding?
    requires r.states[i].current != Some(g)
    ensures r.states[i].gens[g].retired
    ensures !Held(r.states[i], g) ==> r.states[i].gens[g].closes == 1
  {
    RunInv(r, first, i);
    var s := r.states[i];
    assert GenSound(s, g);
    if !Held(s, g) {
      assert Users(s, g) == {};
    }
  }

  /** A retired generation is never current, and every acquire loop has loaded
      `current` at most once more than it was swapped since the loop began. */
  lemma AcquireLoopBound(r: Run, first: Gen, i: nat, t: Thread)
    requires ValidRun(r, first) && i < |r.states|
    ensures r.states[i].current.Some? ==>
      r.states[i].current.value in r.states[i].gens && !r.states[i].gens[r.states[i].current.value].retired
    ensures var pc := r.states[i].At(t);
      pc.LoadCurrent? || pc.Increment? || pc.CheckRetired? || pc.Undo? ==>
        pc.loop.iterations <= r.states[i].swaps - pc.loop.startedAt + 1
  {
    RunInv(r, first, i);
    if t in r.states[i].threads { assert LoopBounded(r.states[i], r.states[i].threads[t]); }
  }

  function Last(r: Run): State
    requires |r.states| > 0
  {
    r.states[|r.states| - 1]
  }

  lemma Extend(r: Run, first: Gen, m: Move) returns (r': Run)
    requires ValidRun(r, first) && Enabled(Last(r), m)
    ensures ValidRun(r', first)
    ensures |r'.moves| == |r.moves| + 1
    ensures r'.states[|r.moves|] == Last(r) && Last(r') == Next(Last(r), m)
  {
    r' := Run(r.states + [Next(Last(r), m)], r.moves + [m]);
  }

  /** Thread t runs its acquire of the current generation g to success. */
  lemma AcquireRun(r: Run, first: Gen, t: Thread, g: Gen) returns (r': Run)
    requires ValidRun(r, first) && Last(r).At(t).Idle? && Last(r).current == Some(g)
    requires g in Last(r).gens && !Last(r).gens[g].retired
    ensures ValidRun(r', first) && |r'.moves| == |r.moves| + 4
    ensures var s, s' := Last(r), Last(r');
      && s'.threads == s.threads[t := Holding(g)]
      && s'.gens == s.gens[g := s.gens[g].(active := s.gens[g].active + 1)]
      && s'.current == s.current
  {
    r' := Extend(r, first, Move(t, Acquire));
    r' := Extend(r', first, Move(t, Continue));
    r' := Extend(r', first, Move(t, Continue));
    r' := Extend(r', first, Move(t, Continue));
  }

  /** Thread t swaps out g, stores `retired` and sees that g is in use. */
  lemma RetireRun(r: Run, first: Gen, t: Thread, g: Gen) returns (r': Run)
    requires ValidRun(r, first) && Last(r).At(t).Idle? && Last(r).current == Some(g)
    requires g in Last(r).gens && Last(r).gens[g].active != 0
    ensures ValidRun(r', first) && |r'.moves| == |r.moves| + 3
    ensures Last(r').threads == Last(r).threads[t := Idle]
    ensures Last(r').gens == Last(r).gens[g := Last(r).gens[g].(retired := true)]
  {
    r' := Extend(r, first, Move(t, CloseSlot));
    r' := Extend(r', first, Move(t, Continue));
    r' := Extend(r', first, Move(t, Continue));
  }

  /** Thread 0 decrements to zero, thread 1 acquires, thread 2 retires the
      generation and sees one user, then thread 0 loads `retired` and closes. */
  lemma CloseWhileHeldIsReachable() returns (r: Run)
    ensures ValidRun(r, 0) && |r.moves| == 14
    ensures RunsClose(r, 13, 0) && Held(r.states[13], 0)
  {
    r := Run([Init(0)], []);
    r := AcquireRun(r, 0, 0, 0);
    r := Extend(r, 0, Move(0, Continue));
    assert Last(r).At(0) == LoadRetired(0, true, ToCaller);
    r := AcquireRun(r, 0, 1, 0);
    r := RetireRun(r, 0, 2, 0);
    r := Extend(r, 0, Move(0, Continue));
    assert Last(r).threads[1] == Holding(0) && Last(r).At(0) == CloseByRelease(0, true, ToCaller);
    r := Extend(r, 0, Move(0, Continue));
  }
}
