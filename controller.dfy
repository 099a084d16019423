/** The main loop of the player: falling-edge detection on the button, and
    one press handled as refill-if-empty, draw, attempt playback, remove. */
module Controller {
  import opened Seqs
  import opened Catalog
  import opened DrawPool

  /** How a playback attempt ended. `aborted` says whether the output was
      still playing when the exception was raised. */
  datatype Outcome =
    | Completed
    | OSFailure(aborted: bool)
    | OtherFailure(aborted: bool)

  /** What one poll of the button did. */
  datatype PollResult =
    | NoPress
    | NothingToPlay
    | Played(path: Path, refilled: bool)

  /** The player's state between polls, as a value. */
  datatype State = State(master: seq<Path>, pool: seq<Path>, lastButton: bool)

  /** One poll's inputs: the button level read and the index the random
      source would draw if this poll draws. */
  datatype Input = Input(current: bool, idx: nat)

  /** A press is the button going from high (released, pulled up) to low. */
  predicate IsPress(last: bool, current: bool)
  {
    current == false && last == true
  }

  /** Only the high-to-low pair is a press; a button held low fires once. */
  lemma PressTable(last: bool, current: bool, next: bool)
    ensures IsPress(last, current) <==> (last, current) == (true, false)
    ensures IsPress(last, current) ==> !IsPress(current, next)
  {
  }

  /** The pool a press draws from: the current pool, or the master list if
      the pool is empty (the refill). */
  function Candidates(s: State): (c: seq<Path>)
    ensures c == [] <==> s.pool == [] && s.master == []
  {
    if s.pool == [] then s.master else s.pool
  }

  /** The random index is in range whenever this poll draws. */
  predicate IdxOk(s: State, current: bool, idx: nat)
  {
    IsPress(s.lastButton, current) && Candidates(s) != [] ==> idx < |Candidates(s)|
  }

  /** The pool is a duplicate-free subset of a duplicate-free master list. */
  ghost predicate Inv(s: State)
  {
    NoDup(s.master) && NoDup(s.pool) && SubsetOf(s.pool, s.master)
  }

  /** One iteration of the main loop, as a function of the state before it. */
  function Poll(s: State, current: bool, idx: nat): (r: (State, PollResult))
    requires IdxOk(s, current, idx)
    ensures r.0.master == s.master && r.0.lastButton == current
    ensures r.1.NoPress? <==> !IsPress(s.lastButton, current)
    ensures r.1.NothingToPlay? <==> IsPress(s.lastButton, current) && Candidates(s) == []
    ensures r.1.Played? ==> r.1.path in Candidates(s) && |r.0.pool| == |Candidates(s)| - 1
    ensures !r.1.Played? ==> r.0.pool == s.pool
  {
    if !IsPress(s.lastButton, current) then
      (s.(lastButton := current), NoPress)
    else
      var pool := Candidates(s);
      if pool == [] then
        (State(s.master, pool, current), NothingToPlay)
      else
        (State(s.master, Remove(pool, idx), current), Played(pool[idx], s.pool == []))
  }

  /** A poll that is not a press changes nothing but the remembered level. */
  lemma PollWithoutPress(s: State, current: bool, idx: nat)
    requires !IsPress(s.lastButton, current)
    ensures Poll(s, current, idx) == (s.(lastButton := current), NoPress)
  {
  }

  /** A press with nothing in the pool or the master list plays nothing and
      leaves the pool empty. */
  lemma PollNothingToPlay(s: State, current: bool, idx: nat)
    requires IsPress(s.lastButton, current) && s.pool == [] && s.master == []
    ensures Poll(s, current, idx).1 == NothingToPlay
    ensures Poll(s, current, idx).0 == s.(lastButton := current)
  {
  }

  /** A press that draws plays an entry of the pool (after the refill if it
      was empty), removes exactly that entry, and the pool shrinks by one. */
  lemma PollDraws(s: State, current: bool, idx: nat)
    requires Inv(s) && IsPress(s.lastButton, current) && Candidates(s) != []
    requires IdxOk(s, current, idx)
    ensures var (t, r) := Poll(s, current, idx);
      && r.Played? && r.refilled == (s.pool == [])
      && r.path == Candidates(s)[idx] && r.path in s.master
      && t.pool == Candidates(s)[..idx] + Candidates(s)[idx + 1..]
      && |t.pool| == |Candidates(s)| - 1
      && r.path !in t.pool
      && t.master == s.master && t.lastButton == current
  {
    var c := Candidates(s);
    assert SubsetOf(c, s.master) && NoDup(c);
    RemoveKeepsInvariant(s.master, c, idx);
  }

  /** Every poll keeps the pool a duplicate-free subset of the master list,
      and never changes the master list. */
  lemma PollKeepsInv(s: State, current: bool, idx: nat)
    requires Inv(s) && IdxOk(s, current, idx)
    ensures Inv(Poll(s, current, idx).0)
    ensures Poll(s, current, idx).0.master == s.master
    ensures Poll(s, current, idx).0.lastButton == current
  {
    if IsPress(s.lastButton, current) && Candidates(s) != [] {
      PollDraws(s, current, idx);
      RemoveKeepsInvariant(s.master, Candidates(s), idx);
    }
  }

  /** Every poll of `inputs` has its index in range when it is reached. */
  predicate Admissible(s: State, inputs: seq<Input>)
    decreases |inputs|
  {
    inputs == [] ||
    (IdxOk(s, inputs[0].current, inputs[0].idx) &&
     Admissible(Poll(s, inputs[0].current, inputs[0].idx).0, inputs[1..]))
  }

  /** The main loop run over a finite sequence of polls: the final state
      and what each poll did. */
  function Run(s: State, inputs: seq<Input>): (r: (State, seq<PollResult>))
    requires Admissible(s, inputs)
    ensures |r.1| == |inputs|
    decreases |inputs|
  {
    if inputs == [] then (s, [])
    else
      var step := Poll(s, inputs[0].current, inputs[0].idx);
      var rest := Run(step.0, inputs[1..]);
      (rest.0, [step.1] + rest.1)
  }

  lemma {:induction false} RunKeepsInv(s: State, inputs: seq<Input>)
    requires Inv(s) && Admissible(s, inputs)
    ensures Inv(Run(s, inputs).0) && Run(s, inputs).0.master == s.master
    decreases |inputs|
  {
    if inputs != [] {
      PollKeepsInv(s, inputs[0].current, inputs[0].idx);
      RunKeepsInv(Poll(s, inputs[0].current, inputs[0].idx).0, inputs[1..]);
    }
  }

  /** Press then release, once per draw index. */
  function Clicks(idxs: seq<nat>): (r: seq<Input>)
    ensures |r| == 2 * |idxs|
  {
    if idxs == [] then [] else [Input(false, idxs[0]), Input(true, 0)] + Clicks(idxs[1..])
  }

  /** The paths played, in order. */
  function PlayedPaths(results: seq<PollResult>): seq<Path>
  {
    if results == [] then []
    else (if results[0].Played? then [results[0].path] else []) + PlayedPaths(results[1..])
  }

  /** One press and release on a non-empty pool: the press plays
      `pool[idx]` without a refill, the release does nothing. */
  lemma ClickOnce(s: State, idx: nat)
    requires s.lastButton && idx < |s.pool|
    ensures IdxOk(s, false, idx)
    ensures Poll(s, false, idx) == (s.(pool := Remove(s.pool, idx), lastButton := false), Played(s.pool[idx], false))
    ensures IdxOk(Poll(s, false, idx).0, true, 0)
    ensures Poll(Poll(s, false, idx).0, true, 0) == (s.(pool := Remove(s.pool, idx)), NoPress)
  {
  }

  /** Running two polls and then `more` is running `more` from the state
      the two polls reach. */
  lemma RunTwo(s: State, a: Input, b: Input, more: seq<Input>)
    requires IdxOk(s, a.current, a.idx)
    requires IdxOk(Poll(s, a.current, a.idx).0, b.current, b.idx)
    requires Admissible(Poll(Poll(s, a.current, a.idx).0, b.current, b.idx).0, more)
    ensures Admissible(s, [a, b] + more)
    ensures var s1 := Poll(s, a.current, a.idx);
      var s2 := Poll(s1.0, b.current, b.idx);
      Run(s, [a, b] + more) == (Run(s2.0, more).0, [s1.1, s2.1] + Run(s2.0, more).1)
  {
    var inputs := [a, b] + more;
    assert inputs[1..] == [b] + more;
    assert ([b] + more)[1..] == more;
    var s1 := Poll(s, a.current, a.idx);
    var s2 := Poll(s1.0, b.current, b.idx);
    var tail := Run(s2.0, more);
    assert Run(s1.0, [b] + more) == (tail.0, [s2.1] + tail.1);
    assert [s1.1] + ([s2.1] + tail.1) == [s1.1, s2.1] + tail.1;
  }

  /** What a run of clicks reports when every press plays one of `paths`
      without a refill: each press is followed by a release that does
      nothing. */
  function ClickResults(paths: seq<Path>): (r: seq<PollResult>)
    ensures |r| == 2 * |paths|
  {
    if paths == [] then [] else [Played(paths[0], false), NoPress] + ClickResults(paths[1..])
  }

  lemma {:induction false} PlayedPathsOfClicks(paths: seq<Path>)
    ensures PlayedPaths(ClickResults(paths)) == paths
  {
    if paths != [] {
      var tail := ClickResults(paths[1..]);
      var results := [Played(paths[0], false), NoPress] + tail;
      assert results[1..] == [NoPress] + tail;
      assert results[1..][1..] == tail;
      PlayedPathsOfClicks(paths[1..]);
    }
  }

  /** Clicks that never find the pool empty draw from it exactly as
      `DrawAll` does, and never refill. */
  lemma {:induction false} ClicksDraw(s: State, idxs: seq<nat>)
    requires s.lastButton && InRange(s.pool, idxs)
    ensures Admissible(s, Clicks(idxs))
    ensures Run(s, Clicks(idxs)) ==
            (s.(pool := DrawAll(s.pool, idxs).1), ClickResults(DrawAll(s.pool, idxs).0))
    decreases |idxs|
  {
    if idxs != [] {
      var idx := idxs[0];
      var more := Clicks(idxs[1..]);
      assert Clicks(idxs) == [Input(false, idx), Input(true, 0)] + more;
      ClickOnce(s, idx);
      var t := s.(pool := Remove(s.pool, idx));
      ClicksDraw(t, idxs[1..]);
      RunTwo(s, Input(false, idx), Input(true, 0), more);
      var drawn := DrawAll(s.pool, idxs).0;
      assert drawn == [s.pool[idx]] + DrawAll(t.pool, idxs[1..]).0;
      assert drawn[1..] == DrawAll(t.pool, idxs[1..]).0;
    }
  }

  /** The number of plays that refilled the pool first. */
  function Refills(results: seq<PollResult>): nat
  {
    if results == [] then 0
    else (if results[0].Played? && results[0].refilled then 1 else 0) + Refills(results[1..])
  }

  lemma ResultsCons(r: PollResult, rest: seq<PollResult>)
    ensures PlayedPaths([r] + rest) == (if r.Played? then [r.path] else []) + PlayedPaths(rest)
    ensures Refills([r] + rest) == (if r.Played? && r.refilled then 1 else 0) + Refills(rest)
  {
    assert ([r] + rest)[1..] == rest;
  }

  /** A run that plays nothing leaves the pool and the master list as they
      were, whatever the polls are. */
  lemma {:induction false} RunWithoutPlays(s: State, inputs: seq<Input>)
    requires Admissible(s, inputs) && PlayedPaths(Run(s, inputs).1) == []
    ensures Run(s, inputs).0.pool == s.pool && Run(s, inputs).0.master == s.master
    ensures Refills(Run(s, inputs).1) == 0
    decreases |inputs|
  {
    if inputs != [] {
      var step := Poll(s, inputs[0].current, inputs[0].idx);
      var rest := Run(step.0, inputs[1..]);
      ResultsCons(step.1, rest.1);
      RunWithoutPlays(step.0, inputs[1..]);
    }
  }

  /** Draw without replacement over any sequence of polls, idle, held or
      pressed: while at most as many plays happen as the pool (after a
      refill, if it is empty) holds, the played paths are distinct, lie in
      that pool, and together with the final pool are a permutation of it;
      only the first play can refill, and does exactly when the pool starts
      empty. */
  lemma {:induction false} RunDrawsWithoutReplacement(s: State, inputs: seq<Input>)
    requires Inv(s) && Candidates(s) != [] && Admissible(s, inputs)
    requires |PlayedPaths(Run(s, inputs).1)| <= |Candidates(s)|
    ensures var (t, results) := Run(s, inputs);
      && t.master == s.master
      && (s.pool != [] || PlayedPaths(results) != [] ==>
            && multiset(PlayedPaths(results) + t.pool) == multiset(Candidates(s))
            && NoDup(PlayedPaths(results) + t.pool))
      && Refills(results) == (if s.pool == [] && PlayedPaths(results) != [] then 1 else 0)
    decreases |inputs|, 2
  {
    if inputs == [] {
      assert PlayedPaths([]) + s.pool == s.pool;
    } else {
      var i := inputs[0];
      var step := Poll(s, i.current, i.idx);
      var t1 := step.0;
      var rest := Run(t1, inputs[1..]);
      ResultsCons(step.1, rest.1);
      if step.1.Played? {
        RunAfterDraw(s, inputs);
      } else {
        PollKeepsInv(s, i.current, i.idx);
        assert t1.pool == s.pool && Candidates(t1) == Candidates(s);
        RunDrawsWithoutReplacement(t1, inputs[1..]);
        assert PlayedPaths(Run(s, inputs).1) == PlayedPaths(rest.1);
      }
    }
  }

  /** A run is its first poll followed by the run of the remaining polls. */
  lemma RunStep(s: State, inputs: seq<Input>)
    requires inputs != [] && Admissible(s, inputs)
    ensures var step := Poll(s, inputs[0].current, inputs[0].idx);
      var rest := Run(step.0, inputs[1..]);
      && Run(s, inputs).0 == rest.0
      && PlayedPaths(Run(s, inputs).1) ==
           (if step.1.Played? then [step.1.path] else []) + PlayedPaths(rest.1)
      && Refills(Run(s, inputs).1) ==
           (if step.1.Played? && step.1.refilled then 1 else 0) + Refills(rest.1)
  {
    var step := Poll(s, inputs[0].current, inputs[0].idx);
    ResultsCons(step.1, Run(step.0, inputs[1..]).1);
  }

  /** The step of `RunDrawsWithoutReplacement` where the first poll plays. */
  lemma {:induction false} RunAfterDraw(s: State, inputs: seq<Input>)
    requires Inv(s) && Candidates(s) != [] && Admissible(s, inputs)
    requires inputs != [] && Poll(s, inputs[0].current, inputs[0].idx).1.Played?
    requires |PlayedPaths(Run(s, inputs).1)| <= |Candidates(s)|
    ensures var (t, results) := Run(s, inputs);
      && t.master == s.master
      && multiset(PlayedPaths(results) + t.pool) == multiset(Candidates(s))
      && NoDup(PlayedPaths(results) + t.pool)
      && Refills(results) == (if s.pool == [] then 1 else 0)
    decreases |inputs|, 1
  {
    var i := inputs[0];
    var t1 := Poll(s, i.current, i.idx).0;
    var rest := Run(t1, inputs[1..]);
    var played := PlayedPaths(rest.1);
    var c := Candidates(s);
    RunStep(s, inputs);
    PollKeepsInv(s, i.current, i.idx);
    PollDraws(s, i.current, i.idx);
    RunAfterRemoval(t1, inputs[1..]);
    ConsAppend(c[i.idx], played, rest.0.pool);
    DrawnThenRest(c, i.idx, played + rest.0.pool);
  }

  /** After a draw the rest of the run draws from what is left, possibly
      nothing, and never refills. */
  lemma {:induction false} RunAfterRemoval(t: State, inputs: seq<Input>)
    requires Inv(t) && Admissible(t, inputs)
    requires |PlayedPaths(Run(t, inputs).1)| <= |t.pool|
    ensures var (u, results) := Run(t, inputs);
      && u.master == t.master
      && multiset(PlayedPaths(results) + u.pool) == multiset(t.pool)
      && NoDup(PlayedPaths(results) + u.pool)
      && Refills(results) == 0
    decreases |inputs|, 3
  {
    var (u, results) := Run(t, inputs);
    if t.pool == [] {
      RunWithoutPlays(t, inputs);
      assert PlayedPaths(results) + u.pool == [];
    } else {
      RunDrawsWithoutReplacement(t, inputs);
    }
  }

  /** A full cycle over any sequence of polls: from a pool that is full or
      empty (so the first press draws from the whole master list), the N
      plays of a run that plays N = |master| >= 1 times are distinct, cover
      every master path exactly once and leave the pool empty, so that the
      next cycle starts the same way; the first play refills exactly when
      the pool started empty, and the first press after the button is next
      seen released refills again. */
  lemma FullCycleOfPresses(s: State, inputs: seq<Input>)
    requires Inv(s) && Candidates(s) == s.master && |s.master| >= 1
    requires Admissible(s, inputs) && |PlayedPaths(Run(s, inputs).1)| == |s.master|
    ensures var (t, results) := Run(s, inputs);
      && t.pool == [] && t.master == s.master && Candidates(t) == s.master
      && NoDup(PlayedPaths(results))
      && multiset(PlayedPaths(results)) == multiset(s.master)
      && (forall p :: p in s.master ==> multiset(PlayedPaths(results))[p] == 1)
      && Refills(results) == (if s.pool == [] then 1 else 0)
      && (forall idx :: 0 <= idx < |s.master| ==>
            Poll(t.(lastButton := true), false, idx).1 == Played(s.master[idx], true))
  {
    var (t, results) := Run(s, inputs);
    var played := PlayedPaths(results);
    RunDrawsWithoutReplacement(s, inputs);
    assert |played + t.pool| == |multiset(played + t.pool)| == |s.master|;
    assert t.pool == [];
    assert played + t.pool == played;
    NoDupIffCountsOne(s.master);
  }

  /** The special case of strictly alternating presses and releases from a
      full pool of N >= 1 files: the results alternate between a play without
      refill and a release, the N plays cover every master path exactly once
      and empty the pool, and the next press refills. */
  lemma CycleOfClicks(s: State, idxs: seq<nat>)
    requires Inv(s) && s.pool == s.master && s.lastButton && |s.master| >= 1
    requires |idxs| == |s.master| && InRange(s.master, idxs)
    ensures Admissible(s, Clicks(idxs))
    ensures var (t, results) := Run(s, Clicks(idxs));
      && t.pool == [] && t.master == s.master && t.lastButton
      && results == ClickResults(PlayedPaths(results))
      && NoDup(PlayedPaths(results))
      && multiset(PlayedPaths(results)) == multiset(s.master)
      && (forall p :: p in s.master ==> multiset(PlayedPaths(results))[p] == 1)
      && (forall idx :: 0 <= idx < |s.master| ==>
            Poll(t, false, idx).1 == Played(s.master[idx], true))
  {
    ClicksDraw(s, idxs);
    PlayedPathsOfClicks(DrawAll(s.master, idxs).0);
    FullCycle(s.master, idxs);
  }

  /** The player: the master list, the pool of paths still to play in this
      cycle, the last button level read, and whether the audio output is
      playing. */
  class Player {
    var master: seq<Path>
    var pool: seq<Path>
    var lastButton: bool
    var playing: bool

    function Snapshot(): State
      reads this
    {
      State(master, pool, lastButton)
    }

    ghost predicate Valid()
      reads this
    {
      Inv(Snapshot()) && !playing
    }

    /** Start-up: build the master list, fill the pool, and remember the
        button as released (it idles high). */
    constructor (folder: string, n: int)
      ensures Valid()
      ensures |master| == (if n < 0 then 0 else n)
      ensures forall k :: 0 <= k < |master| ==> master[k] == PathFor(folder, k + 1)
      ensures pool == master && lastButton
    {
      var paths := BuildMaster(folder, n);
      master := paths;
      pool := [];
      lastButton := true;
      playing := false;
      new;
      Refill();
    }

    /** Replaces the pool with a copy of the master list. */
    method Refill()
      modifies this`pool
      ensures pool == master
    {
      pool := master;
    }

    /** Plays `path` to the end or until a failure, then stops the output if
        it is still playing. Says whether it had to stop the output. */
    method Play(path: Path, outcome: Outcome) returns (stopped: bool)
      requires !playing
      modifies this`playing
      ensures !playing
      ensures stopped == (!outcome.Completed? && outcome.aborted)
    {
      // The state of the output when the `try` block is left: a completed
      // play has waited until the output stopped; a failure may leave it on.
      playing := !outcome.Completed? && outcome.aborted;
      // `finally`: stop the output if it is still playing.
      stopped := false;
      if playing {
        playing := false;
        stopped := true;
      }
    }

    /** `pool.pop(idx)`. */
    method RemoveAt(idx: nat)
      requires idx < |pool|
      modifies this`pool
      ensures pool == Remove(old(pool), idx)
    {
      pool := pool[..idx] + pool[idx + 1..];
    }

    /** One iteration of the main loop with button level `current`, random
        index `idx` and playback outcome `outcome`. The new state does not
        depend on the outcome. */
    method OnPoll(current: bool, idx: nat, outcome: Outcome) returns (r: PollResult)
      requires Valid() && IdxOk(Snapshot(), current, idx)
      modifies this
      ensures Valid()
      ensures (Snapshot(), r) == Poll(old(Snapshot()), current, idx)
    {
      ghost var before := Snapshot();
      if IsPress(lastButton, current) {
        var refilled := false;
        if pool == [] {
          Refill();
          refilled := true;
        }
        if pool != [] {
          var path := pool[idx];
          var _ := Play(path, outcome);
          RemoveAt(idx);
          r := Played(path, refilled);
        } else {
          r := NothingToPlay;
        }
      } else {
        r := NoPress;
      }
      lastButton := current;
      PollKeepsInv(before, current, idx);
    }

    /** The main loop over a finite sequence of polls, with the playback
        outcome of each. */
    method RunLoop(inputs: seq<Input>, outcomes: seq<Outcome>) returns (results: seq<PollResult>)
      requires Valid() && |outcomes| == |inputs| && Admissible(Snapshot(), inputs)
      modifies this
      ensures Valid()
      ensures (Snapshot(), results) == Run(old(Snapshot()), inputs)
    {
      results := [];
      var i := 0;
      assert inputs[i..] == inputs;
      assert [] + Run(Snapshot(), inputs).1 == Run(Snapshot(), inputs).1;
      while i < |inputs|
        invariant 0 <= i <= |inputs| && Valid()
        invariant Admissible(Snapshot(), inputs[i..])
        invariant Run(old(Snapshot()), inputs) ==
                  (Run(Snapshot(), inputs[i..]).0, results + Run(Snapshot(), inputs[i..]).1)
      {
        ghost var before := Snapshot();
        assert inputs[i..][1..] == inputs[i + 1..];
        var r := OnPoll(inputs[i].current, inputs[i].idx, outcomes[i]);
        ghost var rest := Run(Snapshot(), inputs[i + 1..]);
        assert Run(before, inputs[i..]) == (rest.0, [r] + rest.1);
        assert results + ([r] + rest.1) == (results + [r]) + rest.1;
        results := results + [r];
        i := i + 1;
      }
      assert inputs[i..] == [];
      assert results + [] == results;
    }
  }
}
