/**
 The rollback checkpoint: a sequence number inside the database file, a second
 one outside it, and a two-phase advance whose phases threads and crashes may
 separate.
 */
module Checkpoint {
  import opened Prelude

  type Thread = nat

  /** `pending` holds, per thread, a value committed locally and not yet pushed. `copies` are backups of the file. */
  datatype State = State(local: nat, external: nat, pending: map<Thread, nat>, copies: set<nat>, open: bool)

  datatype Action =
    | Bump(t: Thread)
    | Push(t: Thread)
    | Crash
    | Copy
    | OpenLive
    | OpenCopy(seqNo: nat)

  datatype Outcome = Done(state: State) | Raised(state: State)

  predicate Enabled(s: State, a: Action) {
    match a
    case Bump(t) => s.open && t !in s.pending
    case Push(t) => t in s.pending
    case Crash => true
    case Copy => true
    case OpenLive => true
    case OpenCopy(c) => !s.open && c in s.copies
  }

  /** Opening a file whose own number is `seqNo`: behind raises, ahead heals the external number. */
  function Opened(s: State, seqNo: nat): Outcome {
    if seqNo < s.external then Raised(s)
    else Done(s.(local := seqNo, external := seqNo, open := true))
  }

  function Step(s: State, a: Action): Outcome
    requires Enabled(s, a)
  {
    match a
    case Bump(t) => Done(s.(local := s.local + 1, pending := s.pending[t := s.local + 1]))
    case Push(t) =>
      var rest := s.(pending := s.pending - {t});
      if s.pending[t] < s.external then Raised(rest) else Done(rest.(external := s.pending[t]))
    case Crash => Done(s.(pending := map[], open := false))
    case Copy => Done(s.(copies := s.copies + {s.local}))
    case OpenLive => Opened(s, s.local)
    case OpenCopy(c) => Opened(s, c)
  }

  ghost predicate Safe(s: State) {
    && s.external <= s.local
    && (forall t :: t in s.pending ==> s.pending[t] <= s.local)
    && (!s.open ==> s.pending == map[])
  }

  ghost predicate IsRun(states: seq<State>, actions: seq<Action>) {
    && |states| == |actions| + 1
    && forall i :: 0 <= i < |actions| ==> Enabled(states[i], actions[i]) && Step(states[i], actions[i]).state == states[i + 1]
  }

  const FRESH := State(0, 0, map[], {}, true)

  lemma StepSafe(s: State, a: Action)
    requires Safe(s) && Enabled(s, a)
    ensures Safe(Step(s, a).state)
    ensures s.external <= Step(s, a).state.external
    ensures a.OpenLive? ==> Step(s, a).Done?
    ensures (a.OpenLive? || a.OpenCopy?) && Step(s, a).Done? ==> Step(s, a).state.local == Step(s, a).state.external
    ensures a.OpenCopy? ==> (Step(s, a).Raised? <==> a.seqNo < s.external)
  {}

  /** Whatever the scheduling of the phases and the crashes, the external number never passes the local one. */
  lemma {:induction false} RunSafe(states: seq<State>, actions: seq<Action>)
    requires IsRun(states, actions) && Safe(states[0])
    ensures Safe(states[|actions|]) && states[0].external <= states[|actions|].external
    decreases |actions|
  {
    if actions != [] {
      var n := |actions| - 1;
      RunSafe(states[..n + 1], actions[..n]);
      StepSafe(states[n], actions[n]);
    }
  }

  /** Reopening the live file never raises, and leaves both numbers equal. */
  lemma LiveFileAlwaysReopens(states: seq<State>, actions: seq<Action>)
    requires IsRun(states, actions) && states[0] == FRESH
    ensures
      var s := states[|actions|];
      Step(s, OpenLive) == Done(s.(external := s.local, open := true))
  {
    RunSafe(states, actions);
  }

  /** Once the external number has passed a backup, no later point of the run accepts that backup. */
  lemma PassedBackupNeverOpens(states: seq<State>, actions: seq<Action>, i: nat, seqNo: nat)
    requires IsRun(states, actions) && Safe(states[0]) && i <= |actions|
    requires states[i].external > seqNo
    requires Enabled(states[|actions|], OpenCopy(seqNo))
    ensures Step(states[|actions|], OpenCopy(seqNo)).Raised?
  {
    RunSafe(states[..i + 1], actions[..i]);
    RunSafe(states[i..], actions[i..]);
  }

  /** Any file that opens is at least as recent as every number ever pushed before. */
  lemma OpenedIsNoOlderThanPushed(states: seq<State>, actions: seq<Action>, i: nat, a: Action)
    requires IsRun(states, actions) && Safe(states[0]) && i <= |actions|
    requires a.OpenLive? || a.OpenCopy?
    requires Enabled(states[|actions|], a) && Step(states[|actions|], a).Done?
    ensures Step(states[|actions|], a).state.local >= states[i].external
  {
    RunSafe(states[..i + 1], actions[..i]);
    RunSafe(states[i..], actions[i..]);
  }

  /** An uninterrupted advance succeeds and leaves both numbers equal and one higher. */
  lemma UninterruptedAdvance(s: State, t: Thread)
    requires Safe(s) && Enabled(s, Bump(t))
    ensures
      var bumped := Step(s, Bump(t)).state;
      && Enabled(bumped, Push(t))
      && Step(bumped, Push(t)) == Done(s.(local := s.local + 1, external := s.local + 1))
  {}

  /**
   A backup taken at one point opens at any later point of a run at which the
   store is closed, exactly when the external number has not passed what the
   local one was then; it then takes both numbers back to that.
   */
  lemma BackupOpensExactly(states: seq<State>, actions: seq<Action>, i: nat)
    requires IsRun(states, actions) && Safe(states[0]) && i < |actions| && actions[i] == Copy
    requires !states[|actions|].open
    ensures
      var last, backup := states[|actions|], states[i].local;
      && Enabled(last, OpenCopy(backup))
      && (backup >= last.external <==> Step(last, OpenCopy(backup)).Done?)
      && (backup >= last.external ==>
            Step(last, OpenCopy(backup)) == Done(last.(local := backup, external := backup, open := true)))
  {
    for k := i + 1 to |actions|
      invariant states[i].local in states[k].copies
    {
      assert Enabled(states[k], actions[k]) && Step(states[k], actions[k]).state == states[k + 1];
    }
  }

  // ---- the objects ----

  class InMemoryRollbackCheckpoint {
    var value: nat

    constructor (initial: nat)
      ensures value == initial
    {
      value := initial;
    }

    method Read() returns (v: nat)
      ensures v == value
    {
      v := value;
    }

    /** Refuses to move backward. */
    method Advance(newValue: nat) returns (ok: bool)
      modifies this
      ensures ok == (newValue >= old(value))
      ensures value == Max(old(value), newValue)
    {
      if newValue < value {
        return false;
      }
      value := newValue;
      return true;
    }
  }

  class CheckpointedStore {
    const checkpoint: InMemoryRollbackCheckpoint
    var localSeq: nat

    constructor (fileSeq: nat, checkpoint: InMemoryRollbackCheckpoint)
      ensures this.checkpoint == checkpoint && localSeq == fileSeq
    {
      this.checkpoint, localSeq := checkpoint, fileSeq;
    }

    /** This file's number and the external one, with other threads' pending values and the backups as given. */
    ghost function View(pending: map<Thread, nat>, copies: set<nat>, open: bool): State
      reads this, checkpoint
    {
      State(localSeq, checkpoint.value, pending, copies, open)
    }

    /** False stands for the error raised at construction. */
    method CheckRollback(ghost pending: map<Thread, nat>, ghost copies: set<nat>) returns (ok: bool)
      modifies checkpoint
      ensures ok == (localSeq >= old(checkpoint.value))
      ensures checkpoint.value == if ok then localSeq else old(checkpoint.value)
      ensures ok == Opened(old(View(pending, copies, true)), localSeq).Done?
      ensures View(pending, copies, true) == Opened(old(View(pending, copies, true)), localSeq).state
    {
      var external := checkpoint.Read();
      if localSeq < external {
        return false;
      }
      if localSeq > external {
        var _ := checkpoint.Advance(localSeq);
      }
      return true;
    }

    /** First phase, under the store's lock. */
    method CommitLocally(ghost t: Thread, ghost pending: map<Thread, nat>, ghost copies: set<nat>) returns (newSeq: nat)
      requires t !in pending
      modifies this
      ensures newSeq == localSeq == old(localSeq) + 1
      ensures View(pending[t := newSeq], copies, true) == Step(old(View(pending, copies, true)), Bump(t)).state
    {
      localSeq := localSeq + 1;
      newSeq := localSeq;
    }

    /** Second phase, outside the lock: other threads may have pushed in between. */
    method PushExternally(newSeq: nat, ghost t: Thread, ghost pending: map<Thread, nat>, ghost copies: set<nat>)
      returns (ok: bool)
      requires t in pending && pending[t] == newSeq
      modifies checkpoint
      ensures ok == (newSeq >= old(checkpoint.value)) && checkpoint.value == Max(old(checkpoint.value), newSeq)
      ensures ok == Step(old(View(pending, copies, true)), Push(t)).Done?
      ensures View(pending - {t}, copies, true) == Step(old(View(pending, copies, true)), Push(t)).state
    {
      ok := checkpoint.Advance(newSeq);
    }

    /** Both phases with nothing in between. */
    method AdvanceCheckpoint(ghost t: Thread, ghost copies: set<nat>) returns (r: Option<nat>)
      modifies this, checkpoint
      ensures localSeq == old(localSeq) + 1
      ensures r == if localSeq >= old(checkpoint.value) then Some(localSeq) else None
      ensures checkpoint.value == Max(old(checkpoint.value), localSeq)
    {
      var newSeq := CommitLocally(t, map[], copies);
      var ok := PushExternally(newSeq, t, map[t := newSeq], copies);
      r := if ok then Some(newSeq) else None;
    }
  }
}
