/**
 * The QEMU runtime's critical section: a global nesting counter and the
 * machine-interrupt-enable bit MIE of `mstatus`. `csrci mstatus, 0x8` (clear
 * MIE) and `csrsi mstatus, 0x8` (set MIE) are modelled as assignments to the
 * boolean `mie`.
 */
module CriticalSection {
  import opened Wrappers

  /** The nesting counter and the MIE bit. */
  datatype State = State(count: nat, mie: bool)

  datatype Op = Acquire | Release

  /** Nothing held and interrupts enabled. */
  const Idle: State := State(0, true)

  /** `acquire`: count + 1, and MIE is cleared when the count was 0. */
  function AcquireStep(s: State): State {
    State(s.count + 1, if s.count == 0 then false else s.mie)
  }

  /** `release`: count - 1, and MIE is set when the count was 1. */
  function ReleaseStep(s: State): State
    requires s.count > 0
  {
    State(s.count - 1, if s.count == 1 then true else s.mie)
  }

  /** One operation; a release at count 0 underflows the usize counter and has no successor state. */
  function Step(s: State, op: Op): Option<State> {
    match op
    case Acquire => Some(AcquireStep(s))
    case Release => if s.count == 0 then None else Some(ReleaseStep(s))
  }

  /** A sequence of operations from s, None if some release underflows. */
  function Run(s: State, ops: seq<Op>): Option<State>
    decreases |ops|
  {
    if ops == [] then Some(s)
    else
      match Step(s, ops[0])
      case None => None
      case Some(t) => Run(t, ops[1..])
  }

  /** Acquires minus releases. */
  function Depth(ops: seq<Op>): int {
    if ops == [] then 0 else (if ops[0] == Acquire then 1 else -1) + Depth(ops[1..])
  }

  /** No prefix of ops releases more than `start` plus what it acquired. */
  predicate NeverBelowZero(start: nat, ops: seq<Op>) {
    forall n :: 0 <= n <= |ops| ==> start + Depth(ops[..n]) >= 0
  }

  /** MIE is clear exactly while some critical section is held. */
  predicate Consistent(s: State) {
    s.mie <==> s.count == 0
  }

  // ----- the two operations -----

  /**
   * `acquire` adds exactly one and clears MIE only from count 0; `release`
   * removes exactly one and sets MIE only from count 1. Nested (inner)
   * acquires and releases leave MIE untouched.
   */
  lemma StepEffects(s: State)
    ensures AcquireStep(s).count == s.count + 1
    ensures AcquireStep(s).mie == (s.mie && s.count != 0)
    ensures s.count > 0 ==> AcquireStep(s).mie == s.mie
    ensures s.count > 0 ==> ReleaseStep(s).count == s.count - 1
    ensures s.count > 0 ==> (ReleaseStep(s).mie == (s.mie || s.count == 1))
    ensures s.count > 1 ==> ReleaseStep(s).mie == s.mie
  {
  }

  /** Both operations keep "MIE clear exactly while held". */
  lemma StepPreservesConsistent(s: State, op: Op)
    requires Consistent(s)
    ensures Step(s, op).Some? ==> Consistent(Step(s, op).value)
  {
  }

  // ----- sequences of operations -----

  lemma {:induction false} DepthOfPrefixStep(ops: seq<Op>, n: nat)
    requires 0 < n <= |ops|
    ensures Depth(ops[..n]) == (if ops[0] == Acquire then 1 else -1) + Depth(ops[1..][..n - 1])
  {
    assert ops[..n][1..] == ops[1..][..n - 1];
  }

  /** A run succeeds exactly when no prefix drives the counter below zero, and then it ends at start + depth. */
  lemma {:induction false} RunDefined(s: State, ops: seq<Op>)
    ensures Run(s, ops).Some? <==> NeverBelowZero(s.count, ops)
    ensures Run(s, ops).Some? ==> Run(s, ops).value.count == s.count + Depth(ops)
    decreases |ops|
  {
    if ops != [] {
      var d := if ops[0] == Acquire then 1 else -1;
      if ops[0] == Release && s.count == 0 {
        assert ops[..1] == [Release];
        assert Depth(ops[..1]) == -1 + Depth(ops[..1][1..]);
        assert ops[..1][1..] == [];
      } else {
        var t := Step(s, ops[0]).value;
        assert t.count == s.count + d;
        RunDefined(t, ops[1..]);
        assert Run(s, ops) == Run(t, ops[1..]);
        if NeverBelowZero(s.count, ops) {
          forall n | 0 <= n <= |ops[1..]| ensures t.count + Depth(ops[1..][..n]) >= 0 {
            DepthOfPrefixStep(ops, n + 1);
            assert s.count + Depth(ops[..n + 1]) >= 0;
          }
        }
        if NeverBelowZero(t.count, ops[1..]) {
          forall n | 0 <= n <= |ops| ensures s.count + Depth(ops[..n]) >= 0 {
            if n > 0 {
              DepthOfPrefixStep(ops, n);
              assert t.count + Depth(ops[1..][..n - 1]) >= 0;
            } else {
              assert ops[..0] == [];
            }
          }
        }
      }
    } else {
      forall n | 0 <= n <= |ops| ensures s.count + Depth(ops[..n]) >= 0 {
        assert ops[..n] == [];
      }
    }
  }

  /** Every run from a consistent state stays consistent: MIE is clear exactly when count > 0. */
  lemma {:induction false} RunPreservesConsistent(s: State, ops: seq<Op>)
    requires Consistent(s)
    ensures Run(s, ops).Some? ==> Consistent(Run(s, ops).value)
    decreases |ops|
  {
    if ops != [] && Step(s, ops[0]).Some? {
      StepPreservesConsistent(s, ops[0]);
      RunPreservesConsistent(Step(s, ops[0]).value, ops[1..]);
    }
  }

  /** A balanced, well-nested sequence from idle returns to idle: count 0 and MIE set. */
  lemma BalancedRunReturnsToIdle(ops: seq<Op>)
    requires NeverBelowZero(0, ops) && Depth(ops) == 0
    ensures Run(Idle, ops) == Some(Idle)
  {
    RunDefined(Idle, ops);
    RunPreservesConsistent(Idle, ops);
  }

  /** A release with nothing held underflows, whatever came before at the same depth. */
  lemma ReleaseFromIdleUnderflows(ops: seq<Op>)
    ensures Run(Idle, [Release] + ops) == None
  {
    assert ([Release] + ops)[0] == Release;
  }

  // ----- the global cell as mutable state -----

  /** `CRITICAL_SECTION_COUNT` together with the MIE bit. */
  class CriticalSectionCell {
    var count: nat
    var mie: bool

    /** `CriticalSectionCount::new`: the counter starts at 0; the MIE bit is whatever the hardware holds. */
    constructor (mieAtStart: bool)
      ensures count == 0 && mie == mieAtStart
    {
      count := 0;
      mie := mieAtStart;
    }

    function Snapshot(): State
      reads this
    {
      State(count, mie)
    }

    /** `CriticalSection::acquire`. */
    method Acquire()
      modifies this
      ensures Snapshot() == AcquireStep(old(Snapshot()))
    {
      var c := count;
      count := c + 1;
      if c == 0 {
        mie := false;
      }
    }

    /** `CriticalSection::release`; the counter must be positive, since `count - 1` on usize underflows. */
    method Release()
      requires count > 0
      modifies this
      ensures Snapshot() == ReleaseStep(old(Snapshot()))
    {
      var c := count;
      count := c - 1;
      if c == 1 {
        mie := true;
      }
    }
  }
}
