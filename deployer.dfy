/** The controller deployer: a controller that registers other controllers
    with the simulator at the ticks they were booked for. Bookings wait in a
    min-heap of timers ordered by tick; each tick releases every timer due
    by the deployer's tick counter. */
module Deployer {
  import opened Heap

  /** A controller, known by its identity. */
  type ControllerId = nat

  /** DeployTime: the update phase a controller joins. */
  const BeforeUpdate: string := "b"
  const AfterUpdate: string := "a"

  /** controllerTimer: the controller, its phase and its tick. */
  datatype Timer = Timer(controller: ControllerId, when: string, tick: int)

  /** The heap order of priorityQueue: `Less` compares ticks. */
  function TickKey(t: Timer): real
  {
    t.tick as real
  }

  /** A call the deployer makes on the simulator. */
  datatype Registration = RegisterBefore(controller: ControllerId) | RegisterAfter(controller: ControllerId)

  /** The call a released timer makes: a before- or after-update
      registration by its phase; a timer of any other phase is dropped. */
  function Effect(t: Timer): seq<Registration>
  {
    if t.when == BeforeUpdate then [RegisterBefore(t.controller)]
    else if t.when == AfterUpdate then [RegisterAfter(t.controller)]
    else []
  }

  /** The calls of a run of released timers, in release order. */
  function Effects(ts: seq<Timer>): seq<Registration>
  {
    if |ts| == 0 then [] else Effects(ts[..|ts| - 1]) + Effect(ts[|ts| - 1])
  }

  lemma EffectsSnoc(ts: seq<Timer>, t: Timer)
    ensures Effects(ts + [t]) == Effects(ts) + Effect(t)
  {
    assert (ts + [t])[..|ts|] == ts;
  }

  /** The release loop of Tick: pop the heap while its least timer is due
      at `now`; the released timers in pop order and the heap left. */
  function ReleaseDue(q: seq<Timer>, now: int): (r: (seq<Timer>, seq<Timer>))
    decreases |q|
  {
    if |q| == 0 || q[0].tick > now then ([], q)
    else
      var p := Pop(q, TickKey);
      var rest := ReleaseDue(p.1, now);
      ([p.0] + rest.0, rest.1)
  }

  /** One step of the release loop: a due root is popped first. */
  lemma ReleaseDueStep(q: seq<Timer>, now: int)
    requires |q| > 0 && q[0].tick <= now
    ensures var p := Pop(q, TickKey);
      ReleaseDue(q, now) == ([p.0] + ReleaseDue(p.1, now).0, ReleaseDue(p.1, now).1)
  {
  }

  /** The loop stops at once on an empty heap or a root not due. */
  lemma ReleaseDueStop(q: seq<Timer>, now: int)
    requires |q| == 0 || q[0].tick > now
    ensures ReleaseDue(q, now) == ([], q)
  {
  }

  /** The heap `q` splits into the timers `released`, all due at `now`
      and in tick order, and the heap `left` of timers not due. */
  ghost predicate Splits(q: seq<Timer>, now: int, released: seq<Timer>, left: seq<Timer>)
  {
    && (forall i :: 0 <= i < |released| ==> released[i].tick <= now)
    && (forall i, j :: 0 <= i < j < |released| ==> released[i].tick <= released[j].tick)
    && (forall i :: 0 <= i < |left| ==> left[i].tick > now)
    && IsHeap(left, TickKey)
    && multiset(released) + multiset(left) == multiset(q)
  }

  /** A heap whose root is not due splits into nothing released and
      itself. */
  lemma NoneDue(q: seq<Timer>, now: int)
    requires IsHeap(q, TickKey) && (|q| == 0 || q[0].tick > now)
    ensures Splits(q, now, [], q)
  {
    forall i | 0 <= i < |q| ensures q[i].tick > now {
      RootIsLeast(q, |q|, TickKey, i);
    }
  }

  /** Releasing a due least timer `x` before a split of the rest `q'`
      splits the whole heap. */
  lemma ConsSplits(q: seq<Timer>, now: int, x: Timer, q': seq<Timer>, released: seq<Timer>, left: seq<Timer>)
    requires x.tick <= now && multiset(q') + multiset{x} == multiset(q)
    requires forall k :: 0 <= k < |q| ==> x.tick <= q[k].tick
    requires Splits(q', now, released, left)
    ensures Splits(q, now, [x] + released, left)
  {
    var r := [x] + released;
    forall i | 0 <= i < |r| ensures r[i].tick <= now {
      if i > 0 {
        assert r[i] == released[i - 1];
      }
    }
    forall i, j | 0 <= i < j < |r| ensures r[i].tick <= r[j].tick {
      assert r[j] == released[j - 1];
      if i == 0 {
        assert r[j] in multiset(q);
        var k :| 0 <= k < |q| && q[k] == r[j];
      } else {
        assert r[i] == released[i - 1];
      }
    }
    assert multiset(r) == multiset{x} + multiset(released);
  }

  /** On a heap, ReleaseDue releases exactly the timers due at `now`, in
      tick order, and leaves a heap of the others. */
  lemma {:induction false} ReleaseDueSplits(q: seq<Timer>, now: int)
    requires IsHeap(q, TickKey)
    ensures Splits(q, now, ReleaseDue(q, now).0, ReleaseDue(q, now).1)
    decreases |q|
  {
    if |q| == 0 || q[0].tick > now {
      NoneDue(q, now);
      ReleaseDueStop(q, now);
    } else {
      var p := Pop(q, TickKey);
      PopKeepsHeap(q, TickKey);
      ReleaseDueSplits(p.1, now);
      ReleaseDueStep(q, now);
      ConsSplits(q, now, p.0, p.1, ReleaseDue(p.1, now).0, ReleaseDue(p.1, now).1);
    }
  }

  /** The deployer's state: its tick counter, the timer heap and the calls
      made on the simulator so far. */
  datatype State = State(tick: int, queue: seq<Timer>, registered: seq<Registration>)

  /** Every booked timer lies at or after the counter. */
  ghost predicate NoneOverdue(s: State)
  {
    forall i :: 0 <= i < |s.queue| ==> s.queue[i].tick >= s.tick
  }

  /** DeployAt: book the controller for `tick`, unless that tick has
      passed. */
  function DeployAtOf(s: State, c: ControllerId, tick: int, when: string): (r: State)
    requires IsHeap(s.queue, TickKey)
    ensures IsHeap(r.queue, TickKey) && r.tick == s.tick && r.registered == s.registered
    ensures tick < s.tick ==> r == s
    ensures tick >= s.tick ==> multiset(r.queue) == multiset(s.queue) + multiset{Timer(c, when, tick)}
    ensures NoneOverdue(s) ==> NoneOverdue(r)
  {
    if tick < s.tick then s
    else
      var timer := Timer(c, when, tick);
      PushKeepsHeap(s.queue, timer, TickKey);
      var q := Push(s.queue, timer, TickKey);
      forall i | 0 <= i < |q| ensures NoneOverdue(s) ==> q[i].tick >= s.tick {
        assert q[i] in multiset(q);
      }
      State(s.tick, q, s.registered)
  }

  /** Tick as written: release the due timers and make their calls. The
      counter is incremented on a copy of the deployer, so it stays put. */
  function TickAsWritten(s: State): State
  {
    var rel := ReleaseDue(s.queue, s.tick);
    State(s.tick, rel.1, s.registered + Effects(rel.0))
  }

  /** Tick as intended: the same release, and the counter moves on. */
  function TickOf(s: State): State
  {
    var rel := ReleaseDue(s.queue, s.tick);
    State(s.tick + 1, rel.1, s.registered + Effects(rel.0))
  }

  /** A tick as intended keeps the heap and releases each timer exactly at
      its own tick: the timers it releases are the ones booked for the
      current counter, and none left in the heap is overdue afterwards. */
  lemma TickReleasesOnTime(s: State)
    requires IsHeap(s.queue, TickKey) && NoneOverdue(s)
    ensures var rel := ReleaseDue(s.queue, s.tick);
      && (forall i :: 0 <= i < |rel.0| ==> rel.0[i].tick == s.tick)
      && (forall i :: 0 <= i < |s.queue| && s.queue[i].tick == s.tick ==> s.queue[i] in rel.0)
      && multiset(rel.0) + multiset(rel.1) == multiset(s.queue)
    ensures IsHeap(TickOf(s).queue, TickKey) && NoneOverdue(TickOf(s))
  {
    ReleaseDueSplits(s.queue, s.tick);
    var rel := ReleaseDue(s.queue, s.tick);
    forall i | 0 <= i < |rel.0| ensures rel.0[i].tick == s.tick {
      ReleasedFrom(s.queue, s.tick, rel.0, rel.1, i);
    }
    forall i | 0 <= i < |s.queue| && s.queue[i].tick == s.tick ensures s.queue[i] in rel.0 {
      DueReleased(s.queue, s.tick, rel.0, rel.1, i);
    }
  }

  /** Every released timer comes from the heap. */
  lemma ReleasedFrom(q: seq<Timer>, now: int, released: seq<Timer>, left: seq<Timer>, i: nat)
    requires Splits(q, now, released, left) && i < |released|
    ensures released[i] in q
  {
    assert released[i] in multiset(released);
    assert released[i] in multiset(q);
  }

  /** A split releases every timer due. */
  lemma DueReleased(q: seq<Timer>, now: int, released: seq<Timer>, left: seq<Timer>, i: nat)
    requires Splits(q, now, released, left) && i < |q| && q[i].tick <= now
    ensures q[i] in released
  {
    assert q[i] in multiset(q);
    assert q[i] !in multiset(left);
  }

  /** A split leaves in the heap every timer not due. */
  lemma NotDueLeft(q: seq<Timer>, now: int, released: seq<Timer>, left: seq<Timer>, i: nat)
    requires Splits(q, now, released, left) && i < |q| && q[i].tick > now
    ensures q[i] in left
  {
    assert q[i] in multiset(q);
    assert q[i] !in multiset(released);
  }

  /** A run of the code as written: each state one tick after the one
      before it. */
  ghost predicate TraceAsWritten(tr: seq<State>)
  {
    |tr| > 0 && forall k :: 0 < k < |tr| ==> tr[k] == TickAsWritten(tr[k - 1])
  }

  /** As written, the counter never leaves the value it started with, so a
      timer booked for a later tick is never released, however many ticks
      pass. */
  lemma {:induction false} TickAsWrittenStalls(tr: seq<State>, x: Timer, k: nat)
    requires TraceAsWritten(tr) && IsHeap(tr[0].queue, TickKey)
    requires x in tr[0].queue && x.tick > tr[0].tick && k < |tr|
    ensures tr[k].tick == tr[0].tick && x in tr[k].queue && IsHeap(tr[k].queue, TickKey)
    decreases k
  {
    if k > 0 {
      TickAsWrittenStalls(tr, x, k - 1);
      var s := tr[k - 1];
      TickAsWrittenParts(s);
      var i :| 0 <= i < |s.queue| && s.queue[i] == x;
      NotDueLeft(s.queue, s.tick, ReleaseDue(s.queue, s.tick).0, tr[k].queue, i);
    }
  }

  /** A tick as written keeps the counter and leaves a heap split from the
      old one. */
  lemma TickAsWrittenParts(s: State)
    requires IsHeap(s.queue, TickKey)
    ensures TickAsWritten(s).tick == s.tick && IsHeap(TickAsWritten(s).queue, TickKey)
    ensures Splits(s.queue, s.tick, ReleaseDue(s.queue, s.tick).0, TickAsWritten(s).queue)
  {
    ReleaseDueSplits(s.queue, s.tick);
  }

  /** The release loop has released `done` from `q0` and left `q`, from
      which the rest of the release goes on. */
  ghost predicate Progress(q0: seq<Timer>, now: int, done: seq<Timer>, q: seq<Timer>)
  {
    ReleaseDue(q0, now).0 == done + ReleaseDue(q, now).0 && ReleaseDue(q0, now).1 == ReleaseDue(q, now).1
  }

  lemma ProgressStart(q0: seq<Timer>, now: int)
    ensures Progress(q0, now, [], q0)
  {
    assert [] + ReleaseDue(q0, now).0 == ReleaseDue(q0, now).0;
  }

  lemma ProgressGlue(r0: (seq<Timer>, seq<Timer>), rq: (seq<Timer>, seq<Timer>), rp: (seq<Timer>, seq<Timer>),
    done: seq<Timer>, x: Timer)
    requires r0.0 == done + rq.0 && r0.1 == rq.1 && rq == ([x] + rp.0, rp.1)
    ensures r0.0 == done + [x] + rp.0 && r0.1 == rp.1
  {
    assert done + [x] + rp.0 == done + ([x] + rp.0);
  }

  lemma ProgressStep(q0: seq<Timer>, now: int, done: seq<Timer>, q: seq<Timer>, x: Timer, q': seq<Timer>)
    requires Progress(q0, now, done, q) && |q| > 0 && q[0].tick <= now && (x, q') == Pop(q, TickKey)
    ensures Progress(q0, now, done + [x], q')
  {
    ReleaseDueStep(q, now);
    ProgressGlue(ReleaseDue(q0, now), ReleaseDue(q, now), ReleaseDue(q', now), done, x);
  }

  lemma ProgressEnd(q0: seq<Timer>, now: int, done: seq<Timer>, q: seq<Timer>)
    requires Progress(q0, now, done, q) && (|q| == 0 || q[0].tick > now)
    ensures ReleaseDue(q0, now) == (done, q)
  {
    ReleaseDueStop(q, now);
    assert done + [] == done;
  }

  /** A one-timer heap: pushing a timer on the empty heap, and releasing
      it. */
  lemma OneTimer(t: Timer, now: int)
    ensures Push([], t, TickKey) == [t]
    ensures ReleaseDue([t], now) == if t.tick <= now then ([t], []) else ([], [t])
    ensures Effects([t]) == Effect(t)
  {
    assert Swap([t], 0, 0) == [t];
    var p := Pop([t], TickKey);
    assert p == (t, []);
    if t.tick <= now {
      ReleaseDueStep([t], now);
      ReleaseDueStop(p.1, now);
      assert [t] + [] == [t];
    } else {
      ReleaseDueStop([t], now);
    }
    assert [t][..0] == [];
  }

  /** One round of the release loop: pop the due root. */
  method PopDue(ghost q0: seq<Timer>, now: int, q: seq<Timer>, ghost done: seq<Timer>)
    returns (x: Timer, q': seq<Timer>)
    requires IsHeap(q, TickKey) && Progress(q0, now, done, q)
    requires |q| > 0 && q[0].tick <= now
    ensures IsHeap(q', TickKey) && Progress(q0, now, done + [x], q') && |q'| < |q|
  {
    var p := Pop(q, TickKey);
    PopKeepsHeap(q, TickKey);
    ProgressStep(q0, now, done, q, p.0, p.1);
    x, q' := p.0, p.1;
  }

  /** The call of a released timer, added to the log. */
  method Register(ghost log0: seq<Registration>, log: seq<Registration>, ghost done: seq<Timer>, x: Timer)
    returns (log': seq<Registration>)
    requires log == log0 + Effects(done)
    ensures log' == log0 + Effects(done + [x])
  {
    EffectsSnoc(done, x);
    log' := log + Effect(x);
  }

  /** The release loop of Tick: pop the heap while its root is due at
      `now`, making each released timer's call on the simulator. */
  method ReleaseLoop(q0: seq<Timer>, now: int, log0: seq<Registration>) returns (q: seq<Timer>, log: seq<Registration>)
    requires IsHeap(q0, TickKey)
    ensures var rel := ReleaseDue(q0, now); q == rel.1 && log == log0 + Effects(rel.0)
  {
    q, log := q0, log0;
    ghost var done := [];
    ProgressStart(q, now);
    while |q| > 0 && q[0].tick <= now
      invariant IsHeap(q, TickKey) && Progress(q0, now, done, q)
      invariant log == log0 + Effects(done)
      decreases |q|
    {
      var x;
      x, q := PopDue(q0, now, q, done);
      log := Register(log0, log, done, x);
      done := done + [x];
    }
    ProgressEnd(q0, now, done, q);
  }

  /** controllerDeployer. The simulator it calls is the `registered` log. */
  class ControllerDeployer {
    var tick: int
    var queue: seq<Timer>
    var registered: seq<Registration>

    function StateOf(): State
      reads this
    {
      State(tick, queue, registered)
    }

    ghost predicate Valid()
      reads this
    {
      IsHeap(queue, TickKey) && NoneOverdue(StateOf())
    }

    /** NewControllerDeployer: counter 0, no timers. */
    constructor()
      ensures Valid() && tick == 0 && queue == [] && registered == []
    {
      tick, queue, registered := 0, [], [];
    }

    /** DeployAt: ignore a booking for a past tick, otherwise push its timer
        on the heap. */
    method DeployAt(c: ControllerId, at: int, when: string)
      requires Valid()
      modifies this
      ensures Valid() && StateOf() == DeployAtOf(old(StateOf()), c, at, when)
    {
      if at < tick {
        return;
      }
      var timer := Timer(c, when, at);
      ghost var booked := DeployAtOf(StateOf(), c, at, when);
      queue := Push(queue, timer, TickKey);
    }

    /** Tick as written: the release loop; the counter's increment is lost
        on the copy of the deployer. */
    method Tick()
      requires Valid()
      modifies this
      ensures Valid() && StateOf() == TickAsWritten(old(StateOf()))
    {
      TickAsWrittenParts(StateOf());
      queue, registered := ReleaseLoop(queue, tick, registered);
    }

    /** Tick as intended: the release loop and the counter moved on. */
    method TickCounted()
      requires Valid()
      modifies this
      ensures Valid() && StateOf() == TickOf(old(StateOf()))
    {
      TickReleasesOnTime(StateOf());
      queue, registered := ReleaseLoop(queue, tick, registered);
      tick := tick + 1;
    }
  }

  /** A timer booked for tick 1 is released by the second tick as intended;
      as written, neither tick releases it. */
  method BookedForTickOne(c: ControllerId) returns (asWritten: seq<Registration>, intended: seq<Registration>)
    ensures asWritten == [] && intended == [RegisterBefore(c)]
  {
    var t := Timer(c, BeforeUpdate, 1);
    OneTimer(t, 0);
    OneTimer(t, 1);
    var d := new ControllerDeployer();
    d.DeployAt(c, 1, BeforeUpdate);
    d.Tick();
    d.Tick();
    asWritten := d.registered;
    var e := new ControllerDeployer();
    e.DeployAt(c, 1, BeforeUpdate);
    e.TickCounted();
    e.TickCounted();
    intended := e.registered;
  }
}
