/** After an allowed run, every reference the pod had is served: a volume in memory, one injector
    that fills it, and a mount in every container that used the secret. */
module MutateCoverage {
  import opened Common
  import opened Pods
  import opened Mutate
  import opened MutateFrame
  import opened MutateClosed
  import opened MutatePlans

  /** No generated name is taken by something else. */
  ghost predicate NamesFree(p: Pod, tsecrets: set<string>) {
    && NoVolumeClash(p, tsecrets)
    && (forall r, v :: r in AllRefs(p, tsecrets) && v in p.volumes && v.name == r.volume ==> VolumeTracked(v, tsecrets))
    && (forall r :: r in AllRefs(p, tsecrets) ==>
          !HasContainer(p.inits, InitName(r.volume)) && !HasContainer(p.containers, InitName(r.volume)))
  }

  /** Every container found under the name has a mount of the volume. */
  ghost predicate MountsVolume(cs: seq<Container>, name: string, volume: string) {
    forall i :: 0 <= i < |cs| && cs[i].name == name ==> HasMount(cs[i].mounts, volume)
  }

  /** Exactly one init container has the injector's name for the volume. It gets the secret and the
      path as arguments and mounts the volume, writable, at that same path. */
  ghost predicate OneInjector(inits: seq<Container>, volume: string, secret: string, namespace: string) {
    exists i, path :: 0 <= i < |inits| && InjectorFor(inits[i], volume, secret, path, namespace)
      && forall j :: 0 <= j < |inits| && inits[j].name == InitName(volume) ==> j == i
  }

  ghost predicate InjectorFor(c: Container, volume: string, secret: string, path: string, namespace: string) {
    && c.name == InitName(volume)
    && c.command == INJECT_COMMAND
    && |c.args| >= 3
    && c.args[0] == "--secret=" + secret
    && c.args[1] == "--mount=" + path
    && c.args[2] == "--namespace=" + namespace
    && c.mounts == [Mount(volume, path, false)]
  }

  ghost predicate MemoryVolume(vs: seq<Volume>, volume: string) {
    HasVolume(vs, volume) && forall v :: v in vs && v.name == volume ==> v.source == MemoryDir
  }

  ghost predicate Served(q: Pod, r: Ref, namespace: string) {
    && MemoryVolume(q.volumes, r.volume)
    && OneInjector(q.inits, r.volume, r.secret, namespace)
    && forall n :: n in r.users ==>
         MountsVolume(q.containers, n, r.volume) && MountsVolume(q.inits, n, r.volume)
  }

  lemma Coverage(p: Pod, tsecrets: set<string>, image: string, namespace: string, order: seq<Key>, r: Ref)
    requires IsOrder(order, PodPlans(p, tsecrets))
    requires Handle(p, tsecrets, image, namespace, order).Allowed?
    requires UniqueContainers(p) && NamesFree(p, tsecrets)
    requires Reference(p, tsecrets, r)
    ensures Served(Handle(p, tsecrets, image, namespace, order).pod, r, namespace)
  {
    InAllRefs(p, tsecrets, r);
    RefHasPlan(p, tsecrets, r);
    var plan := PodPlans(p, tsecrets)[KeyOf(r)];
    PlanOf(p, tsecrets, KeyOf(r));
    OrderedMembers(p, tsecrets, order, plan);
    AllowedClosed(p, tsecrets, image, namespace, order);
    var ps := OrderedPlans(p, tsecrets, order);
    var q := Strip(p, tsecrets);
    VolumeServed(p, tsecrets, ps, r);
    InjectorServed(p, tsecrets, image, namespace, order, plan);
    PlanNamesFree(p, tsecrets, order);
    forall n | n in r.users
      ensures MountsServed(q, ps, plan, image, namespace, n)
    {
      UserServed(p, tsecrets, ps, plan, image, namespace, n);
    }
  }

  lemma VolumeServed(p: Pod, tsecrets: set<string>, ps: seq<Plan>, r: Ref)
    requires NamesFree(p, tsecrets) && r in AllRefs(p, tsecrets)
    requires exists plan :: plan in ps && plan.volume == r.volume
    ensures MemoryVolume(Strip(p, tsecrets).volumes + NewVolumes(ps, Strip(p, tsecrets).volumes), r.volume)
  {
    var old0 := Strip(p, tsecrets).volumes;
    var added := NewVolumes(ps, old0);
    var plan :| plan in ps && plan.volume == r.volume;
    InNewVolumes(ps, old0);
    var vs := old0 + added;
    forall v: Volume | v in vs && v.name == r.volume
      ensures v.source == MemoryDir
    {
      if v in old0 {
        var i :| 0 <= i < |old0| && old0[i] == v;
        assert p.volumes[i] in p.volumes && p.volumes[i].name == r.volume;
      }
    }
    if HasVolume(old0, r.volume) {
      var i :| 0 <= i < |old0| && old0[i].name == r.volume;
      assert vs[i].name == r.volume;
    } else {
      var v := Volume(plan.volume, MemoryDir);
      assert v in added;
      var i :| 0 <= i < |added| && added[i] == v;
      assert vs[|old0| + i].name == r.volume;
    }
  }

  // ----- Injectors -----

  /** Exactly one element has c's name, and it is c. */
  ghost predicate OneNamed(cs: seq<Container>, c: Container) {
    exists i :: 0 <= i < |cs| && cs[i] == c && forall j :: 0 <= j < |cs| && cs[j].name == c.name ==> j == i
  }

  lemma OneInTail(head: seq<Container>, tail: seq<Container>, c: Container)
    requires c in tail && !HasContainer(head, c.name)
    requires forall k :: 0 <= k < |tail| ==> IsFirst(tail, k)
    ensures OneNamed(head + tail, c)
  {
    var k :| 0 <= k < |tail| && tail[k] == c;
    var all := head + tail;
    assert all[|head| + k] == c;
    forall j | 0 <= j < |all| && all[j].name == c.name
      ensures j == |head| + k
    {
      if j >= |head| {
        assert IsFirst(tail, k) && IsFirst(tail, j - |head|);
      }
    }
  }

  /** Wrapping passes injectors over: only users with the annotation are wrapped. */
  lemma InjectorKept(s: Progress, c: Container)
    requires OneNamed(s.pod.inits, c) && IsInjectorName(c.name)
    requires forall n :: n in s.loaders ==> HasContainer(s.pod.containers, n) || !IsInjectorName(n)
    ensures OneNamed(WrapAll(s.pod, s.loaders).inits, c)
  {
    var i :| 0 <= i < |s.pod.inits| && s.pod.inits[i] == c
             && forall j :: 0 <= j < |s.pod.inits| && s.pod.inits[j].name == c.name ==> j == i;
    var out := WrapAll(s.pod, s.loaders).inits;
    assert out[i] == c;
    forall j | 0 <= j < |out| && out[j].name == c.name
      ensures j == i
    {
      assert s.pod.inits[j].name == c.name;
    }
  }

  lemma InjectorServed(p: Pod, tsecrets: set<string>, image: string, namespace: string, order: seq<Key>, plan: Plan)
    requires IsOrder(order, PodPlans(p, tsecrets)) && NoVolumeClash(p, tsecrets)
    requires plan in OrderedPlans(p, tsecrets, order) && !HasContainer(p.inits, InitName(plan.volume))
    ensures var s := Closed(Strip(p, tsecrets), OrderedPlans(p, tsecrets, order), image, namespace);
            OneNamed(WrapAll(s.pod, s.loaders).inits, Injector(Flagged(p.annotations, plan), image, namespace))
    ensures var s := Closed(Strip(p, tsecrets), OrderedPlans(p, tsecrets, order), image, namespace);
            OneInjector(WrapAll(s.pod, s.loaders).inits, plan.volume, plan.secret, namespace)
  {
    var q := Strip(p, tsecrets);
    var ps := OrderedPlans(p, tsecrets, order);
    var c := Injector(Flagged(p.annotations, plan), image, namespace);
    var s := Closed(q, ps, image, namespace);
    StripNames(p, tsecrets);
    OrderedDistinct(p, tsecrets, order);
    OrderedUsersKnown(p, tsecrets, order);
    InNewInits(ps, q.inits, q.annotations, image, namespace);
    NewInitsDistinct(ps, q.inits, q.annotations, image, namespace);
    var head := MountedContainers(q.inits, q.containers, ps);
    SameNames(q.inits, head);
    OneInTail(head, NewInits(ps, q.inits, q.annotations, image, namespace), c);
    LoadersAreUsers(q, ps, image, namespace);
    assert IsInjectorName(InitName(plan.volume));
    InjectorKept(s, c);
    InjectorShape(plan, p.annotations, image, namespace);
  }

  lemma LoadersAreUsers(q: Pod, ps: seq<Plan>, image: string, namespace: string)
    requires UsersKnown(q, ps)
    ensures forall n :: n in ClosedLoaders(ps, q.annotations) ==>
              HasContainer(ClosedPod(q, ps, image, namespace).containers, n) || !IsInjectorName(n)
  {
    SameNames(q.containers, ClosedPod(q, ps, image, namespace).containers);
  }

  lemma InjectorShape(plan: Plan, annotations: map<string, string>, image: string, namespace: string)
    ensures InjectorFor(Injector(Flagged(annotations, plan), image, namespace),
                        plan.volume, plan.secret, plan.mountPath, namespace)
  {
  }

  // ----- Mounts -----

  ghost predicate MountsServed(q: Pod, ps: seq<Plan>, plan: Plan, image: string, namespace: string, n: string) {
    var s := Closed(q, ps, image, namespace);
    var out := WrapAll(s.pod, s.loaders);
    MountsVolume(out.containers, n, plan.volume) && MountsVolume(out.inits, n, plan.volume)
  }

  lemma MountedHasMount(c: Container, ps: seq<Plan>, plan: Plan)
    requires plan in ps && c.name in plan.users
    ensures HasMount(Mounted(c, ps).mounts, plan.volume)
  {
    var added := NewMounts(ps, c.name, c.mounts);
    InNewMounts(ps, c.name, c.mounts);
    if HasMount(c.mounts, plan.volume) {
      var i :| 0 <= i < |c.mounts| && c.mounts[i].name == plan.volume;
      assert (c.mounts + added)[i].name == plan.volume;
    } else {
      var m := Mount(plan.volume, plan.mountPath, true);
      assert m in added;
      var i :| 0 <= i < |added| && added[i] == m;
      assert (c.mounts + added)[|c.mounts| + i].name == plan.volume;
    }
  }

  ghost predicate InjectorNamesFree(p: Pod, ps: seq<Plan>) {
    forall plan :: plan in ps ==> !HasContainer(p.containers, InitName(plan.volume))
  }

  lemma PlanNamesFree(p: Pod, tsecrets: set<string>, order: seq<Key>)
    requires IsOrder(order, PodPlans(p, tsecrets)) && NamesFree(p, tsecrets)
    ensures InjectorNamesFree(p, OrderedPlans(p, tsecrets, order))
    ensures UsersKnown(Strip(p, tsecrets), OrderedPlans(p, tsecrets, order))
  {
    var ps := OrderedPlans(p, tsecrets, order);
    OrderedUsersKnown(p, tsecrets, order);
    forall plan | plan in ps
      ensures !HasContainer(p.containers, InitName(plan.volume))
    {
      var i :| 0 <= i < |ps| && ps[i] == plan;
      assert order[i] in order;
      PlanOf(p, tsecrets, order[i]);
      var r :| r in AllRefs(p, tsecrets) && KeyOf(r) == order[i];
    }
  }

  lemma UserServed(p: Pod, tsecrets: set<string>, ps: seq<Plan>, plan: Plan, image: string, namespace: string,
                   n: string)
    requires UniqueContainers(p) && plan in ps && n in plan.users
    requires UsersKnown(Strip(p, tsecrets), ps) && InjectorNamesFree(p, ps)
    ensures MountsServed(Strip(p, tsecrets), ps, plan, image, namespace, n)
  {
    var q := Strip(p, tsecrets);
    var s := Closed(q, ps, image, namespace);
    var out := WrapAll(s.pod, s.loaders);
    StripNames(p, tsecrets);
    forall i | 0 <= i < |out.containers| && out.containers[i].name == n
      ensures HasMount(out.containers[i].mounts, plan.volume)
    {
      assert IsFirst(q.containers, i);
      MountedHasMount(q.containers[i], ps, plan);
      assert out.containers[i].mounts == s.pod.containers[i].mounts;
    }
    forall i | 0 <= i < |out.inits| && out.inits[i].name == n
      ensures HasMount(out.inits[i].mounts, plan.volume)
    {
      assert s.pod.inits[i].name == n;
      InitUser(p, tsecrets, ps, plan, image, namespace, i);
      assert out.inits[i].mounts == s.pod.inits[i].mounts;
    }
  }

  lemma InitUser(p: Pod, tsecrets: set<string>, ps: seq<Plan>, plan: Plan, image: string, namespace: string, i: nat)
    requires UniqueContainers(p) && plan in ps
    requires UsersKnown(Strip(p, tsecrets), ps) && InjectorNamesFree(p, ps)
    requires i < |ClosedPod(Strip(p, tsecrets), ps, image, namespace).inits|
    ensures var c := ClosedPod(Strip(p, tsecrets), ps, image, namespace).inits[i];
            c.name in plan.users ==> HasMount(c.mounts, plan.volume)
  {
    var q := Strip(p, tsecrets);
    StripNames(p, tsecrets);
    var head := MountedContainers(q.inits, q.containers, ps);
    var added := NewInits(ps, q.inits, q.annotations, image, namespace);
    InjectorsNotUsers(q, ps, plan, image, namespace);
    if i < |head| {
      assert ClosedPod(q, ps, image, namespace).inits[i] == head[i];
      if q.inits[i].name in plan.users {
        assert IsFirst(p.inits, i) && !HasContainer(p.containers, p.inits[i].name);
        assert head[i] == Mounted(q.inits[i], ps);
        MountedHasMount(q.inits[i], ps, plan);
      }
    } else {
      assert ClosedPod(q, ps, image, namespace).inits[i] == added[i - |head|];
      assert added[i - |head|] in added;
    }
  }

  lemma InjectorsNotUsers(q: Pod, ps: seq<Plan>, plan: Plan, image: string, namespace: string)
    requires plan in ps && UsersKnown(q, ps) && InjectorNamesFree(q, ps)
    ensures forall c :: c in NewInits(ps, q.inits, q.annotations, image, namespace) ==> c.name !in plan.users
  {
    InNewInits(ps, q.inits, q.annotations, image, namespace);
    forall c | c in NewInits(ps, q.inits, q.annotations, image, namespace)
      ensures c.name !in plan.users
    {
      var pl :| pl in ps && c == Injector(Flagged(q.annotations, pl), image, namespace);
      InjectorName(q.annotations, pl, image, namespace);
    }
  }
}
