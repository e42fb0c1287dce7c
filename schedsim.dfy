/** The simulator's controller lists and pod lookup: controllers join the
    list of their timing at the end and leave it by swap-with-last; pods are
    found by name, and the stores key pods and nodes by their names. */
module SchedSim {
  import opened Common
  import opened NodeRun
  import Deployer

  type ControllerId = Deployer.ControllerId

  /** controllerTiming: run before or after the cluster update. */
  const BeforeUpdate: int := 1
  const AfterUpdate: int := 2

  /** The position of the first occurrence of `c` in `a`. */
  function FirstIndex(a: seq<ControllerId>, c: ControllerId): (i: nat)
    requires c in a
    ensures i < |a| && a[i] == c && forall k :: 0 <= k < i ==> a[k] != c
  {
    if a[0] == c then 0 else 1 + FirstIndex(a[1..], c)
  }

  /** Dropping the last element takes one of its occurrences out. */
  lemma DropLast(s: seq<ControllerId>)
    requires |s| > 0
    ensures multiset(s[..|s| - 1]) == multiset(s) - multiset{s[|s| - 1]}
  {
    assert s == s[..|s| - 1] + [s[|s| - 1]];
  }

  /** A position holding `c` with no earlier occurrence is the first one. */
  lemma {:induction false} FirstIndexIs(a: seq<ControllerId>, c: ControllerId, i: nat)
    requires i < |a| && a[i] == c && forall k :: 0 <= k < i ==> a[k] != c
    ensures FirstIndex(a, c) == i
    decreases i
  {
    if i > 0 {
      FirstIndexIs(a[1..], c, i - 1);
    }
  }

  /** Overwriting position `i` with the last element and cutting the last
      slot off takes one occurrence of `a[i]` out and moves the last element
      into slot `i`. */
  lemma SwapLastOut(a: seq<ControllerId>, i: nat)
    requires i < |a|
    ensures var r := a[i := a[|a| - 1]][..|a| - 1];
      && |r| == |a| - 1 && multiset(r) == multiset(a) - multiset{a[i]}
      && (forall k :: 0 <= k < |r| && k != i ==> r[k] == a[k])
      && (i < |r| ==> r[i] == a[|a| - 1])
  {
    var last := a[|a| - 1];
    var s := a[i := last];
    assert multiset(s) == multiset(a) - multiset{a[i]} + multiset{last};
    DropLast(s);
    assert s[|s| - 1] == last;
    var r := s[..|s| - 1];
    assert multiset(r) == multiset(a) - multiset{a[i]};
    assert forall k :: 0 <= k < |r| && k != i ==> r[k] == a[k];
  }

  /** `r` is `a` with the first occurrence of `c` swapped out: one
      occurrence of `c` goes, the last controller moves into its slot, and
      every other slot keeps its controller; an absent controller changes
      nothing. */
  ghost predicate RemovedFirst(a: seq<ControllerId>, c: ControllerId, r: seq<ControllerId>)
  {
    && (c !in a ==> r == a)
    && (c in a ==>
      && |r| == |a| - 1 && multiset(r) == multiset(a) - multiset{c}
      && var i := FirstIndex(a, c);
      && (forall k :: 0 <= k < |r| && k != i ==> r[k] == a[k])
      && (i < |r| ==> r[i] == a[|a| - 1]))
  }

  /** deleteController's search and removal: find the first occurrence,
      overwrite it with the last element and cut the last slot off. */
  method RemoveFirst(a: seq<ControllerId>, c: ControllerId) returns (r: seq<ControllerId>)
    ensures RemovedFirst(a, c, r)
  {
    var idx := 0;
    while idx < |a| && a[idx] != c
      invariant 0 <= idx <= |a| && forall k :: 0 <= k < idx ==> a[k] != c
    {
      idx := idx + 1;
    }
    r := a;
    if idx < |a| {
      FirstIndexIs(a, c, idx);
      SwapLastOut(a, idx);
      r := a[idx := a[|a| - 1]][..|a| - 1];
    }
  }

  /** The objects the stores are handed. */
  datatype Object = SimPod(pod: Pod) | ApiPod(podName: string) | SimNode(nodeName: string) | ApiNode(apiNodeName: string) | OtherObject(id: nat)

  /** PodKeyFunc: the name of a pod of either kind; any other object is an
      error whose text shows the object as `show` formats it. */
  function PodKey(obj: Object, show: Object -> string): (r: Result<string>)
    ensures r.Ok? <==> obj.SimPod? || obj.ApiPod?
    ensures obj.SimPod? ==> r == Ok(obj.pod.name)
    ensures obj.ApiPod? ==> r == Ok(obj.podName)
    ensures r.Err? ==> r.msg == "error getting key from " + show(obj)
  {
    match obj
    case SimPod(p) => Ok(p.name)
    case ApiPod(name) => Ok(name)
    case _ => Err("error getting key from " + show(obj))
  }

  /** NodeKeyFunc: the name of a node of either kind; any other object is
      an error. */
  function NodeKey(obj: Object, show: Object -> string): (r: Result<string>)
    ensures r.Ok? <==> obj.SimNode? || obj.ApiNode?
    ensures obj.SimNode? ==> r == Ok(obj.nodeName)
    ensures obj.ApiNode? ==> r == Ok(obj.apiNodeName)
    ensures r.Err? ==> r.msg == "error getting key from " + show(obj)
  {
    match obj
    case SimNode(name) => Ok(name)
    case ApiNode(name) => Ok(name)
    case _ => Err("error getting key from " + show(obj))
  }

  /** No object has both a pod key and a node key, and a store keyed by
      PodKey holds each simulator pod under its own name. */
  lemma KeysApart(obj: Object, show: Object -> string, pods: map<string, Pod>, p: Pod)
    ensures !(PodKey(obj, show).Ok? && NodeKey(obj, show).Ok?)
    ensures KeyedByName(pods) && p.name in pods && pods[p.name] == p ==>
      PodKey(SimPod(p), show).Ok? && pods[PodKey(SimPod(p), show).value] == p
  {
  }

  /** schedSim's controller lists and pod store. */
  class Simulator {
    var beforeUpdate: seq<ControllerId>
    var afterUpdate: seq<ControllerId>
    var pods: map<string, Pod>

    constructor(pods: map<string, Pod>)
      ensures beforeUpdate == [] && afterUpdate == [] && this.pods == pods
    {
      beforeUpdate, afterUpdate, this.pods := [], [], pods;
    }

    /** GetPod: the pod stored under `name`, or an error naming it. */
    method GetPod(name: string) returns (r: Result<Pod>)
      ensures name in pods ==> r == Ok(pods[name])
      ensures name !in pods ==> r == Err("No pod " + name)
    {
      if name !in pods {
        return Err("No pod " + name);
      }
      r := Ok(pods[name]);
    }

    /** registerController: append the controller to the list of its
        timing; any other timing is ignored. */
    method RegisterController(c: ControllerId, timing: int)
      modifies this
      ensures timing == BeforeUpdate ==> beforeUpdate == old(beforeUpdate) + [c] && afterUpdate == old(afterUpdate)
      ensures timing == AfterUpdate ==> afterUpdate == old(afterUpdate) + [c] && beforeUpdate == old(beforeUpdate)
      ensures timing != BeforeUpdate && timing != AfterUpdate ==>
        beforeUpdate == old(beforeUpdate) && afterUpdate == old(afterUpdate)
      ensures pods == old(pods)
    {
      if timing == BeforeUpdate {
        beforeUpdate := beforeUpdate + [c];
      } else if timing == AfterUpdate {
        afterUpdate := afterUpdate + [c];
      }
    }

    method RegisterBeforeUpdateController(c: ControllerId)
      modifies this
      ensures beforeUpdate == old(beforeUpdate) + [c] && afterUpdate == old(afterUpdate) && pods == old(pods)
    {
      RegisterController(c, BeforeUpdate);
    }

    method RegisterAfterUpdateController(c: ControllerId)
      modifies this
      ensures afterUpdate == old(afterUpdate) + [c] && beforeUpdate == old(beforeUpdate) && pods == old(pods)
    {
      RegisterController(c, AfterUpdate);
    }

    /** deleteController: remove the first occurrence of the controller
        from the list of its timing by swap-with-last; the timing must be
        one of the two (any other panics). */
    method DeleteController(c: ControllerId, timing: int)
      requires timing == BeforeUpdate || timing == AfterUpdate
      modifies this
      ensures timing == BeforeUpdate ==> RemovedFirst(old(beforeUpdate), c, beforeUpdate)
      ensures timing == AfterUpdate ==> RemovedFirst(old(afterUpdate), c, afterUpdate)
      ensures timing == BeforeUpdate ==> afterUpdate == old(afterUpdate)
      ensures timing == AfterUpdate ==> beforeUpdate == old(beforeUpdate)
      ensures pods == old(pods)
    {
      if timing == BeforeUpdate {
        beforeUpdate := RemoveFirst(beforeUpdate, c);
      } else {
        afterUpdate := RemoveFirst(afterUpdate, c);
      }
    }
  }

  /** The calls the controller deployer makes, carried out on the
      simulator's lists in order. */
  method ApplyRegistrations(sim: Simulator, regs: seq<Deployer.Registration>)
    modifies sim
    ensures sim.beforeUpdate == old(sim.beforeUpdate) + Befores(regs)
    ensures sim.afterUpdate == old(sim.afterUpdate) + Afters(regs)
    ensures sim.pods == old(sim.pods)
  {
    var i := 0;
    while i < |regs|
      invariant 0 <= i <= |regs|
      invariant sim.beforeUpdate == old(sim.beforeUpdate) + Befores(regs[..i])
      invariant sim.afterUpdate == old(sim.afterUpdate) + Afters(regs[..i])
      invariant sim.pods == old(sim.pods)
    {
      assert regs[..i + 1][..i] == regs[..i];
      match regs[i] {
        case RegisterBefore(c) => sim.RegisterBeforeUpdateController(c);
        case RegisterAfter(c) => sim.RegisterAfterUpdateController(c);
      }
      i := i + 1;
    }
    assert regs[..i] == regs;
  }

  /** The controllers registered before the update, in call order. */
  function Befores(regs: seq<Deployer.Registration>): seq<ControllerId>
  {
    if |regs| == 0 then []
    else Befores(regs[..|regs| - 1]) + (if regs[|regs| - 1].RegisterBefore? then [regs[|regs| - 1].controller] else [])
  }

  /** The controllers registered after the update, in call order. */
  function Afters(regs: seq<Deployer.Registration>): seq<ControllerId>
  {
    if |regs| == 0 then []
    else Afters(regs[..|regs| - 1]) + (if regs[|regs| - 1].RegisterAfter? then [regs[|regs| - 1].controller] else [])
  }
}
