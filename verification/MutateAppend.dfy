/** What exactly an admitted pod has more than before: memory volumes, injectors and mounts, each of them
    called for by a plan; and whether container names stay unique. */
module MutateAppend {
  import opened Common
  import opened Pods
  import opened Mutate
  import opened MutateFrame
  import opened MutateClosed
  import opened MutatePlans

  ghost predicate VolumeOf(v: Volume, ps: seq<Plan>) {
    exists plan :: plan in ps && v == Volume(plan.volume, MemoryDir)
  }

  ghost predicate InjectorOf(c: Container, ps: seq<Plan>, annotations: map<string, string>,
                             image: string, namespace: string)
  {
    exists plan :: plan in ps && c == Injector(Flagged(annotations, plan), image, namespace)
  }

  /** A read-only mount of a plan's volume at the plan's path, for a user that did not mount the volume. */
  ghost predicate MountOf(m: Mount, c0: Container, ps: seq<Plan>) {
    exists plan :: plan in ps && c0.name in plan.users && !HasMount(c0.mounts, plan.volume)
                   && m == Mount(plan.volume, plan.mountPath, true)
  }

  /** The mounts of c beyond those of c0. */
  ghost predicate NewMountsOf(c0: Container, c: Container, ps: seq<Plan>) {
    forall j :: |c0.mounts| <= j < |c.mounts| ==> MountOf(c.mounts[j], c0, ps)
  }

  ghost predicate Appends(q0: Pod, q: Pod, ps: seq<Plan>, image: string, namespace: string) {
    && (forall i :: |q0.volumes| <= i < |q.volumes| ==> VolumeOf(q.volumes[i], ps))
    && |q.containers| == |q0.containers|
    && (forall i :: 0 <= i < |q0.containers| ==> NewMountsOf(q0.containers[i], q.containers[i], ps))
    && |q0.inits| <= |q.inits|
    && (forall i :: 0 <= i < |q0.inits| ==> NewMountsOf(q0.inits[i], q.inits[i], ps))
    && (forall i :: |q0.inits| <= i < |q.inits| ==> InjectorOf(q.inits[i], ps, q0.annotations, image, namespace))
  }

  // ----- One more plan -----

  lemma MoreOf(ps: seq<Plan>, plan: Plan)
    ensures forall v :: VolumeOf(v, ps) ==> VolumeOf(v, ps + [plan])
    ensures forall m, c :: MountOf(m, c, ps) ==> MountOf(m, c, ps + [plan])
    ensures forall c, a, image, namespace ::
              InjectorOf(c, ps, a, image, namespace) ==> InjectorOf(c, ps + [plan], a, image, namespace)
    ensures plan in ps + [plan]
  {
    assert forall p :: p in ps ==> p in ps + [plan];
  }

  lemma MountStays(c0: Container, c: Container, volume: string)
    requires Extends(c0, c)
    ensures HasMount(c0.mounts, volume) ==> HasMount(c.mounts, volume)
  {
    if HasMount(c0.mounts, volume) {
      var i :| 0 <= i < |c0.mounts| && c0.mounts[i].name == volume;
      assert c.mounts[i].name == volume;
    }
  }

  lemma OneMount(c0: Container, c: Container, ps: seq<Plan>, plan: Plan)
    requires Extends(c0, c) && NewMountsOf(c0, c, ps) && c0.name in plan.users
    ensures NewMountsOf(c0, AddMount(c, plan.volume, plan.mountPath), ps + [plan])
  {
    MoreOf(ps, plan);
    MountStays(c0, c, plan.volume);
    if !HasMount(c.mounts, plan.volume) {
      assert MountOf(Mount(plan.volume, plan.mountPath, true), c0, ps + [plan]);
    }
  }

  lemma SameMounts(c0: Container, c: Container, ps: seq<Plan>, plan: Plan)
    requires NewMountsOf(c0, c, ps)
    ensures NewMountsOf(c0, c, ps + [plan])
  {
    MoreOf(ps, plan);
  }

  lemma MountsAppend(cs0: seq<Container>, cs: seq<Container>, shadow: seq<Container>, ps: seq<Plan>, plan: Plan)
    requires |cs0| <= |cs| && AllExtend(cs0, cs)
    requires forall i :: 0 <= i < |cs0| ==> NewMountsOf(cs0[i], cs[i], ps)
    ensures var r := MountContainers(cs, shadow, plan.users, plan.volume, plan.mountPath);
            forall i :: 0 <= i < |cs0| ==> NewMountsOf(cs0[i], r[i], ps + [plan])
  {
    forall i | 0 <= i < |cs0|
      ensures NewMountsOf(cs0[i], cs[i], ps + [plan])
      ensures cs0[i].name in plan.users ==>
                NewMountsOf(cs0[i], AddMount(cs[i], plan.volume, plan.mountPath), ps + [plan])
    {
      SameMounts(cs0[i], cs[i], ps, plan);
      assert Extends(cs0[i], cs[i]);
      if cs0[i].name in plan.users {
        OneMount(cs0[i], cs[i], ps, plan);
      }
    }
  }

  /** The loop mounts nothing into an injector it has added. */
  lemma InjectorsKept(q0: Pod, q: Pod, ps: seq<Plan>, plan: Plan, image: string, namespace: string)
    requires Grown(q0, q) && UsersKnown(q0, [plan])
    requires forall i :: |q0.inits| <= i < |q.inits| ==> InjectorOf(q.inits[i], ps, q0.annotations, image, namespace)
    ensures var r := MountContainers(q.inits, q.containers, plan.users, plan.volume, plan.mountPath);
            forall i :: |q0.inits| <= i < |q.inits| ==> r[i] == q.inits[i]
  {
    NamesGrown(q0.containers, q.containers);
    forall i | |q0.inits| <= i < |q.inits|
      ensures q.inits[i].name in plan.users ==> HasContainer(q.containers, q.inits[i].name)
    {
      assert InjectorOf(q.inits[i], ps, q0.annotations, image, namespace);
      var p :| p in ps && q.inits[i] == Injector(Flagged(q0.annotations, p), image, namespace);
      InjectorName(q0.annotations, p, image, namespace);
      assert plan in [plan];
    }
  }

  lemma NamesGrown(cs0: seq<Container>, cs: seq<Container>)
    requires |cs0| == |cs| && AllExtend(cs0, cs)
    ensures forall name :: HasContainer(cs0, name) <==> HasContainer(cs, name)
    ensures forall i :: 0 <= i < |cs| ==> (IsFirst(cs0, i) <==> IsFirst(cs, i))
  {
    forall i | 0 <= i < |cs0|
      ensures cs0[i].name == cs[i].name
    {
      assert Extends(cs0[i], cs[i]);
    }
    SameNames(cs0, cs);
  }

  lemma BeforeMounts(q0: Pod, s: Progress, plan: Plan, image: string, namespace: string)
    requires Grown(q0, s.pod)
    ensures Grown(q0, EnsureInit(EnsureVolume(EnsureFsGroup(s.pod), plan.volume),
                                 Flagged(q0.annotations, plan), image, namespace))
  {
    hide Grown;
    var plan' := Flagged(q0.annotations, plan);
    var p1 := EnsureFsGroup(s.pod);
    var p2 := EnsureVolume(p1, plan.volume);
    EnsuresGrow(s.pod, plan', image, namespace);
    EnsuresGrow(p1, plan', image, namespace);
    EnsuresGrow(p2, plan', image, namespace);
    GrownTransitive(q0, s.pod, p1);
    GrownTransitive(q0, p1, p2);
    GrownTransitive(q0, p2, EnsureInit(p2, plan', image, namespace));
  }

  lemma InitsAppend(q0: Pod, q: Pod, ps: seq<Plan>, plan: Plan, image: string, namespace: string)
    requires |q0.inits| <= |q.inits|
    requires forall i :: |q0.inits| <= i < |q.inits| ==> InjectorOf(q.inits[i], ps, q0.annotations, image, namespace)
    ensures var r := EnsureInit(q, Flagged(q0.annotations, plan), image, namespace).inits;
            && q.inits <= r
            && forall i :: |q0.inits| <= i < |r| ==> InjectorOf(r[i], ps + [plan], q0.annotations, image, namespace)
  {
    hide Injector;
    MoreOf(ps, plan);
    assert InjectorOf(Injector(Flagged(q0.annotations, plan), image, namespace), ps + [plan],
                      q0.annotations, image, namespace);
  }

  lemma VolumesAppend(q0: Pod, q: Pod, ps: seq<Plan>, plan: Plan)
    requires |q0.volumes| <= |q.volumes|
    requires forall i :: |q0.volumes| <= i < |q.volumes| ==> VolumeOf(q.volumes[i], ps)
    ensures var r := EnsureVolume(q, plan.volume).volumes;
            forall i :: |q0.volumes| <= i < |r| ==> VolumeOf(r[i], ps + [plan])
  {
    MoreOf(ps, plan);
    assert VolumeOf(Volume(plan.volume, MemoryDir), ps + [plan]);
  }

  lemma StepAppends(q0: Pod, s: Progress, ps: seq<Plan>, plan: Plan, image: string, namespace: string)
    requires Grown(q0, s.pod) && UsersKnown(q0, [plan]) && Appends(q0, s.pod, ps, image, namespace)
    ensures Appends(q0, Step(s, plan, image, namespace).pod, ps + [plan], image, namespace)
  {
    hide Injector, HasMount, VolumeOf, NewMountsOf, InjectorOf, UsersKnown, HasContainer;
    var p0 := EnsureVolume(EnsureFsGroup(s.pod), plan.volume);
    var p1 := EnsureInit(p0, Flagged(q0.annotations, plan), image, namespace);
    BeforeMounts(q0, s, plan, image, namespace);
    VolumesAppend(q0, EnsureFsGroup(s.pod), ps, plan);
    InitsAppend(q0, p0, ps, plan, image, namespace);
    assert forall i :: 0 <= i < |q0.inits| ==> p1.inits[i] == s.pod.inits[i];
    MountsAppend(q0.containers, p1.containers, [], ps, plan);
    MountsAppend(q0.inits, p1.inits, p1.containers, ps, plan);
    InjectorsKept(q0, p1, ps + [plan], plan, image, namespace);
  }

  lemma {:induction false} RunAppends(q0: Pod, ps: seq<Plan>, image: string, namespace: string)
    requires UsersKnown(q0, ps)
    ensures Appends(q0, Run(Progress(q0, map[]), ps, image, namespace).pod, ps, image, namespace)
    decreases |ps|
  {
    hide Step;
    if ps != [] {
      var front, plan := ps[..|ps| - 1], ps[|ps| - 1];
      RunAppends(q0, front, image, namespace);
      RunGrows(Progress(q0, map[]), front, image, namespace);
      StepAppends(q0, Run(Progress(q0, map[]), front, image, namespace), front, plan, image, namespace);
      assert front + [plan] == ps;
    }
  }

  // ----- The admitted pod -----

  lemma WrapAppends(q0: Pod, s: Progress, ps: seq<Plan>, image: string, namespace: string)
    requires Appends(q0, s.pod, ps, image, namespace) && Grown(q0, s.pod)
    requires forall n :: n in s.loaders ==> HasContainer(q0.containers, n) || !IsInjectorName(n)
    ensures Appends(q0, WrapAll(s.pod, s.loaders), ps, image, namespace)
  {
    hide MountOf, VolumeOf, WrapFound;
    var q := WrapAll(s.pod, s.loaders);
    NamesGrown(q0.containers, s.pod.containers);
    forall i | 0 <= i < |q.containers|
      ensures q.containers[i].mounts == s.pod.containers[i].mounts
    {
      WrapMounts(s.pod.containers[i], s);
    }
    forall i | 0 <= i < |q.inits|
      ensures q.inits[i].mounts == s.pod.inits[i].mounts
    {
      WrapMounts(s.pod.inits[i], s);
    }
    forall i | |q0.inits| <= i < |q.inits|
      ensures q.inits[i] == s.pod.inits[i]
    {
      assert InjectorOf(s.pod.inits[i], ps, q0.annotations, image, namespace);
      var p :| p in ps && s.pod.inits[i] == Injector(Flagged(q0.annotations, p), image, namespace);
      InjectorName(q0.annotations, p, image, namespace);
    }
  }

  lemma WrapMounts(c: Container, s: Progress)
    ensures c.name in s.loaders ==> WrapFound(c, s.loaders, s.pod.annotations).mounts == c.mounts
  {
    WrapKeeps(c, s);
  }

  lemma {:induction false} LoadersKnown(q0: Pod, ps: seq<Plan>, image: string, namespace: string)
    requires UsersKnown(q0, ps)
    ensures forall n :: n in Run(Progress(q0, map[]), ps, image, namespace).loaders ==>
              HasContainer(q0.containers, n) || !IsInjectorName(n)
    decreases |ps|
  {
    if ps != [] {
      var n := |ps| - 1;
      LoadersKnown(q0, ps[..n], image, namespace);
      assert ps[n] in ps;
    }
  }

  /** For every pod and order: appended volumes are in memory and belong to a plan, appended init containers
      are the injectors of plans, and appended mounts are those of a plan for a user that did not mount its
      volume. */
  lemma Appended(p: Pod, tsecrets: set<string>, image: string, namespace: string, order: seq<Key>)
    requires IsOrder(order, PodPlans(p, tsecrets))
    requires Handle(p, tsecrets, image, namespace, order).Allowed?
    ensures Appends(Strip(p, tsecrets), Handle(p, tsecrets, image, namespace, order).pod,
                    OrderedPlans(p, tsecrets, order), image, namespace)
  {
    hide Handle, Appends, Grown, UsersKnown, IsInjectorName;
    var q0 := Strip(p, tsecrets);
    var ps := OrderedPlans(p, tsecrets, order);
    AllowedForm(p, tsecrets, image, namespace, order);
    OrderedUsersKnown(p, tsecrets, order);
    RunAppends(q0, ps, image, namespace);
    RunGrows(Progress(q0, map[]), ps, image, namespace);
    LoadersKnown(q0, ps, image, namespace);
    WrapAppends(q0, Run(Progress(q0, map[]), ps, image, namespace), ps, image, namespace);
  }

  // ----- Container names -----

  ghost predicate AllFirst(cs: seq<Container>) {
    forall i :: 0 <= i < |cs| ==> IsFirst(cs, i)
  }

  /** Every plan finds or gets an init container of its injector's name, and the loop never uses a name of
      an init container twice. */
  lemma {:induction false} RunNames(q0: Pod, ps: seq<Plan>, image: string, namespace: string)
    ensures var q := Run(Progress(q0, map[]), ps, image, namespace).pod;
            && (forall plan :: plan in ps ==> HasContainer(q.inits, InitName(plan.volume)))
            && (AllFirst(q0.inits) ==> AllFirst(q.inits))
    decreases |ps|
  {
    hide Step;
    if ps != [] {
      var n := |ps| - 1;
      RunNames(q0, ps[..n], image, namespace);
      StepNames(Run(Progress(q0, map[]), ps[..n], image, namespace), ps[n], image, namespace);
      assert forall plan :: plan in ps ==> plan in ps[..n] || plan == ps[n];
    }
  }

  lemma StepNames(s: Progress, plan: Plan, image: string, namespace: string)
    ensures var r := Step(s, plan, image, namespace).pod.inits;
            && (forall name :: HasContainer(s.pod.inits, name) ==> HasContainer(r, name))
            && HasContainer(r, InitName(plan.volume))
            && (AllFirst(s.pod.inits) ==> AllFirst(r))
  {
    hide InjectorArgs, PlanExports, AddLoaders, InitName;
    var p1 := EnsureVolume(EnsureFsGroup(s.pod), plan.volume);
    var p2 := EnsureInit(p1, Flagged(s.pod.annotations, plan), image, namespace);
    OneMoreName(s.pod.inits, Injector(Flagged(s.pod.annotations, plan), image, namespace));
    SameNames(p2.inits, Step(s, plan, image, namespace).pod.inits);
  }

  lemma OneMoreName(cs: seq<Container>, c: Container)
    ensures HasContainer(cs + [c], c.name)
    ensures forall name :: HasContainer(cs, name) ==> HasContainer(cs + [c], name)
    ensures AllFirst(cs) && !HasContainer(cs, c.name) ==> AllFirst(cs + [c])
  {
    assert (cs + [c])[|cs|] == c;
    forall name | HasContainer(cs, name)
      ensures HasContainer(cs + [c], name)
    {
      var i :| 0 <= i < |cs| && cs[i].name == name;
      assert (cs + [c])[i].name == name;
    }
    if AllFirst(cs) && !HasContainer(cs, c.name) {
      forall i | 0 <= i < |cs + [c]|
        ensures IsFirst(cs + [c], i)
      {
        if i < |cs| {
          assert IsFirst(cs, i);
        }
      }
    }
  }

  lemma WrapNames(s: Progress)
    ensures forall name :: HasContainer(WrapAll(s.pod, s.loaders).containers, name)
                      <==> HasContainer(s.pod.containers, name)
    ensures forall name :: HasContainer(WrapAll(s.pod, s.loaders).inits, name) <==> HasContainer(s.pod.inits, name)
    ensures AllFirst(s.pod.inits) ==> AllFirst(WrapAll(s.pod, s.loaders).inits)
  {
    hide WrapFound;
    var q := WrapAll(s.pod, s.loaders);
    forall c: Container | c.name in s.loaders
      ensures WrapFound(c, s.loaders, s.pod.annotations).name == c.name
    {
      WrapKeeps(c, s);
    }
    SameNames(s.pod.containers, q.containers);
    SameNames(s.pod.inits, q.inits);
  }

  /** No container that is not an init container has the name of an injector. */
  ghost predicate NoContainerIsInjector(p: Pod, tsecrets: set<string>) {
    forall r :: r in AllRefs(p, tsecrets) ==> !HasContainer(p.containers, InitName(r.volume))
  }

  lemma PlanVolumes(p: Pod, tsecrets: set<string>, order: seq<Key>)
    requires IsOrder(order, PodPlans(p, tsecrets))
    ensures NoContainerIsInjector(p, tsecrets)
       <==> forall plan :: plan in OrderedPlans(p, tsecrets, order) ==>
              !HasContainer(p.containers, InitName(plan.volume))
  {
    hide InitName, HasContainer;
    var ps := OrderedPlans(p, tsecrets, order);
    forall r | r in AllRefs(p, tsecrets)
      ensures exists plan :: plan in ps && plan.volume == r.volume
    {
      RefHasPlan(p, tsecrets, r);
      PlanOf(p, tsecrets, KeyOf(r));
      OrderedMembers(p, tsecrets, order, PodPlans(p, tsecrets)[KeyOf(r)]);
    }
    forall plan | plan in ps
      ensures exists r :: r in AllRefs(p, tsecrets) && r.volume == plan.volume
    {
      var i :| 0 <= i < |ps| && ps[i] == plan;
      assert order[i] in order;
      PlanOf(p, tsecrets, order[i]);
    }
  }

  /** Names in the admitted pod: those of containers stay, and init containers have the old names and those
      of the plans' injectors. */
  lemma AdmittedNames(p: Pod, tsecrets: set<string>, image: string, namespace: string, order: seq<Key>)
    requires IsOrder(order, PodPlans(p, tsecrets))
    requires Handle(p, tsecrets, image, namespace, order).Allowed?
    ensures var q := Handle(p, tsecrets, image, namespace, order).pod;
            && (forall name :: HasContainer(q.containers, name) <==> HasContainer(p.containers, name))
            && (forall plan :: plan in OrderedPlans(p, tsecrets, order) ==>
                  HasContainer(q.inits, InitName(plan.volume)))
            && (AllFirst(p.inits) ==> AllFirst(q.inits))
  {
    hide Handle, InitName, HasContainer;
    var q0 := Strip(p, tsecrets);
    var ps := OrderedPlans(p, tsecrets, order);
    AllowedForm(p, tsecrets, image, namespace, order);
    StripNames(p, tsecrets);
    RunNames(q0, ps, image, namespace);
    RunGrows(Progress(q0, map[]), ps, image, namespace);
    var s := Run(Progress(q0, map[]), ps, image, namespace);
    NamesGrown(q0.containers, s.pod.containers);
    WrapNames(s);
  }

  lemma SamePlaces(p: Pod, tsecrets: set<string>, image: string, namespace: string, order: seq<Key>)
    requires IsOrder(order, PodPlans(p, tsecrets))
    requires Handle(p, tsecrets, image, namespace, order).Allowed?
    ensures var q := Handle(p, tsecrets, image, namespace, order).pod;
            && |q.containers| == |p.containers| && |p.inits| <= |q.inits|
            && (forall i :: 0 <= i < |p.containers| ==> q.containers[i].name == p.containers[i].name)
            && (forall i :: 0 <= i < |p.inits| ==> q.inits[i].name == p.inits[i].name)
  {
    hide Handle;
    Frame(p, tsecrets, image, namespace, order);
    var q := Handle(p, tsecrets, image, namespace, order).pod;
    assert forall i :: 0 <= i < |p.containers| ==>
             Framed(p.containers[i], q.containers[i], false, p.annotations, tsecrets);
    assert forall i :: 0 <= i < |p.inits| ==> Framed(p.inits[i], q.inits[i], true, p.annotations, tsecrets);
  }

  /** Where the name of an init container of the admitted pod comes from. */
  lemma InitNames(p: Pod, tsecrets: set<string>, image: string, namespace: string, order: seq<Key>, i: nat)
    requires IsOrder(order, PodPlans(p, tsecrets))
    requires Handle(p, tsecrets, image, namespace, order).Allowed?
    requires |p.inits| <= i < |Handle(p, tsecrets, image, namespace, order).pod.inits|
    ensures exists plan :: plan in OrderedPlans(p, tsecrets, order)
              && Handle(p, tsecrets, image, namespace, order).pod.inits[i].name == InitName(plan.volume)
  {
    hide Handle, InitName;
    var q := Handle(p, tsecrets, image, namespace, order).pod;
    Appended(p, tsecrets, image, namespace, order);
    assert InjectorOf(q.inits[i], OrderedPlans(p, tsecrets, order), p.annotations, image, namespace);
  }

  /** Container names are unique in the admitted pod exactly if they were before and no container has the
      name of an injector. */
  lemma UniqueNamesIff(p: Pod, tsecrets: set<string>, image: string, namespace: string, order: seq<Key>)
    requires IsOrder(order, PodPlans(p, tsecrets))
    requires Handle(p, tsecrets, image, namespace, order).Allowed?
    ensures UniqueContainers(Handle(p, tsecrets, image, namespace, order).pod)
       <==> UniqueContainers(p) && NoContainerIsInjector(p, tsecrets)
  {
    hide Handle, InitName, NoContainerIsInjector, IsFirst, OrderedPlans;
    var q := Handle(p, tsecrets, image, namespace, order).pod;
    SamePlaces(p, tsecrets, image, namespace, order);
    AdmittedNames(p, tsecrets, image, namespace, order);
    PlanVolumes(p, tsecrets, order);
    SameNames(p.containers, q.containers);
    if UniqueContainers(p) && NoContainerIsInjector(p, tsecrets) {
      forall i | 0 <= i < |q.inits|
        ensures !HasContainer(q.containers, q.inits[i].name)
      {
        if i >= |p.inits| {
          InitNames(p, tsecrets, image, namespace, order, i);
        }
      }
    }
    if UniqueContainers(q) {
      UniqueBefore(p, q);
      forall plan | plan in OrderedPlans(p, tsecrets, order)
        ensures !HasContainer(p.containers, InitName(plan.volume))
      {
        var i :| 0 <= i < |q.inits| && q.inits[i].name == InitName(plan.volume);
      }
    }
  }

  lemma UniqueBefore(p: Pod, q: Pod)
    requires UniqueContainers(q) && |q.containers| == |p.containers| && |p.inits| <= |q.inits|
    requires forall i :: 0 <= i < |p.containers| ==> q.containers[i].name == p.containers[i].name
    requires forall i :: 0 <= i < |p.inits| ==> q.inits[i].name == p.inits[i].name
    ensures UniqueContainers(p)
  {
    SameNames(p.containers, q.containers);
    forall i | 0 <= i < |p.inits|
      ensures IsFirst(p.inits, i)
    {
      assert IsFirst(q.inits, i);
    }
  }
}
