/** Wrapped entrypoints against injectors: every loader that is sourced is one that an injector writes,
    and it can be seen exactly if the container mounts the volume where the plan says. */
module MutateLoaders {
  import opened Common
  import opened Pods
  import opened Mutate
  import opened MutateFrame
  import opened MutateClosed
  import opened MutatePlans
  import opened MutateCoverage
  import ShellText

  // ----- Wrapping twice -----

  lemma ContainsMiddle(a: string, sub: string, b: string)
    ensures Contains(a + (sub + b), sub)
  {
    var s := a + (sub + b);
    assert s[|a|..] == sub + b;
    assert 0 <= |a| <= |s| && sub <= s[|a|..];
  }

  /** A script that sources a loader is recognised as wrapped. */
  lemma WrappedIsSeen(loaders: seq<string>, mountPath: string, entrypoint: string)
    requires loaders != [] && loaders[0] == LoaderPath(mountPath)
    ensures Contains(ShellText.WrapText(loaders, entrypoint), LOADER)
  {
    var more := "; " + ShellText.Sources(loaders[1..]);
    var tail := "set +a; exec " + entrypoint;
    Regroup("set -a; ", ". ", mountPath + "/", LOADER, more, tail);
    ContainsMiddle("set -a; " + (". " + (mountPath + "/")), LOADER, more + tail);
  }

  lemma Regroup(a: string, b: string, m: string, l: string, more: string, tail: string)
    ensures a + ((b + ((m + l) + more)) + tail) == (a + (b + m)) + (l + (more + tail))
  {
  }

  /** Wrapping an already wrapped container changes nothing, whatever the second loaders and entrypoint. */
  lemma WrapTwice(c: Container, loaders: seq<string>, mountPath: string, entrypoint: string,
                  loaders': seq<string>, entrypoint': string)
    requires loaders != [] && loaders[0] == LoaderPath(mountPath)
    ensures Wrap(Wrap(c, loaders, entrypoint), loaders', entrypoint') == Wrap(c, loaders, entrypoint)
  {
    WrappedIsSeen(loaders, mountPath, entrypoint);
  }

  // ----- Sourced loaders are written -----

  lemma LoaderWritten(p: Pod, tsecrets: set<string>, image: string, namespace: string, order: seq<Key>,
                      n: string, l: string)
    requires IsOrder(order, PodPlans(p, tsecrets)) && NamesFree(p, tsecrets)
    requires Handle(p, tsecrets, image, namespace, order).Allowed?
    requires ExportEnabled(p.annotations, n) && l in NewLoaders(OrderedPlans(p, tsecrets, order), n)
    ensures exists plan :: plan in OrderedPlans(p, tsecrets, order) && n in plan.users
              && l == LoaderPath(plan.mountPath)
              && OneNamed(Handle(p, tsecrets, image, namespace, order).pod.inits,
                          Injector(plan.(exportEnv := true), image, namespace))
  {
    var ps := OrderedPlans(p, tsecrets, order);
    InNewLoaders(ps, n);
    var plan :| plan in ps && n in plan.users && l == LoaderPath(plan.mountPath);
    assert PlanExports(p.annotations, plan);
    assert Flagged(p.annotations, plan) == plan.(exportEnv := true);
    var i :| 0 <= i < |ps| && ps[i] == plan;
    assert order[i] in order;
    PlanOf(p, tsecrets, order[i]);
    var r :| r in AllRefs(p, tsecrets) && KeyOf(r) == order[i];
    AllowedClosed(p, tsecrets, image, namespace, order);
    InjectorServed(p, tsecrets, image, namespace, order, plan);
  }

  // ----- Where containers see the volume -----

  /** Some mount shows the volume at the path. */
  ghost predicate Sees(ms: seq<Mount>, volume: string, path: string) {
    exists m :: m in ms && m.name == volume && m.mountPath == path
  }

  lemma HasMountIff(ms: seq<Mount>, volume: string)
    ensures HasMount(ms, volume) <==> exists m :: m in ms && m.name == volume
  {
    if m :| m in ms && m.name == volume {
      var i :| 0 <= i < |ms| && ms[i] == m;
    }
  }

  lemma MountedSeesIff(c: Container, ps: seq<Plan>, plan: Plan)
    requires DistinctVolumes(ps) && plan in ps && c.name in plan.users
    ensures Sees(c.mounts + NewMounts(ps, c.name, c.mounts), plan.volume, plan.mountPath)
       <==> (HasMount(c.mounts, plan.volume) ==> Sees(c.mounts, plan.volume, plan.mountPath))
  {
    var added := NewMounts(ps, c.name, c.mounts);
    InNewMounts(ps, c.name, c.mounts);
    assert forall m :: m in c.mounts + added <==> m in c.mounts || m in added;
    HasMountIff(c.mounts, plan.volume);
    if HasMount(c.mounts, plan.volume) {
      forall m | m in added
        ensures m.name != plan.volume
      {
        var pl :| pl in ps && !HasMount(c.mounts, pl.volume) && m == Mount(pl.volume, pl.mountPath, true);
        assert pl.volume != plan.volume;
      }
    } else {
      assert Mount(plan.volume, plan.mountPath, true) in added;
    }
  }

  /** The mounts of a container in the admitted pod. */
  lemma AdmittedMounts(p: Pod, tsecrets: set<string>, image: string, namespace: string, order: seq<Key>)
    requires IsOrder(order, PodPlans(p, tsecrets)) && NoVolumeClash(p, tsecrets) && UniqueContainers(p)
    requires Handle(p, tsecrets, image, namespace, order).Allowed?
    ensures var (q, ps) := (Handle(p, tsecrets, image, namespace, order).pod, OrderedPlans(p, tsecrets, order));
            && |q.containers| == |p.containers| && |p.inits| <= |q.inits|
            && (forall i :: 0 <= i < |p.containers| ==>
                  q.containers[i].mounts
                  == p.containers[i].mounts + NewMounts(ps, p.containers[i].name, p.containers[i].mounts))
            && (forall i :: 0 <= i < |p.inits| ==>
                  q.inits[i].mounts == p.inits[i].mounts + NewMounts(ps, p.inits[i].name, p.inits[i].mounts))
  {
    hide Handle, NewMounts, NoVolumeClash, NewInits, NewVolumes, ClosedLoaders, WrapFound;
    var q0 := Strip(p, tsecrets);
    var ps := OrderedPlans(p, tsecrets, order);
    var s := Closed(q0, ps, image, namespace);
    AllowedClosed(p, tsecrets, image, namespace, order);
    StripNames(p, tsecrets);
    forall c: Container | c.name in s.loaders
      ensures WrapFound(c, s.loaders, s.pod.annotations).mounts == c.mounts
    {
      WrapKeeps(c, s);
    }
    forall i | 0 <= i < |p.containers|
      ensures s.pod.containers[i].mounts
           == p.containers[i].mounts + NewMounts(ps, p.containers[i].name, p.containers[i].mounts)
    {
      assert IsFirst(q0.containers, i);
    }
    forall i | 0 <= i < |p.inits|
      ensures s.pod.inits[i].mounts == p.inits[i].mounts + NewMounts(ps, p.inits[i].name, p.inits[i].mounts)
    {
      assert IsFirst(q0.inits, i) && !HasContainer(q0.containers, q0.inits[i].name);
    }
  }

  /** In the admitted pod a user of a plan sees the volume at the path where the injector fills it exactly if
      it did not mount that volume before, or had a mount of it at that path. */
  lemma LoaderVisibleIff(p: Pod, tsecrets: set<string>, image: string, namespace: string, order: seq<Key>, plan: Plan)
    requires IsOrder(order, PodPlans(p, tsecrets)) && NoVolumeClash(p, tsecrets) && UniqueContainers(p)
    requires Handle(p, tsecrets, image, namespace, order).Allowed?
    requires plan in OrderedPlans(p, tsecrets, order)
    ensures var q := Handle(p, tsecrets, image, namespace, order).pod;
            && |q.containers| == |p.containers| && |p.inits| <= |q.inits|
            && (forall i :: 0 <= i < |p.containers| && p.containers[i].name in plan.users ==>
                  (Sees(q.containers[i].mounts, plan.volume, plan.mountPath)
                   <==> (HasMount(p.containers[i].mounts, plan.volume)
                         ==> Sees(p.containers[i].mounts, plan.volume, plan.mountPath))))
            && (forall i :: 0 <= i < |p.inits| && p.inits[i].name in plan.users ==>
                  (Sees(q.inits[i].mounts, plan.volume, plan.mountPath)
                   <==> (HasMount(p.inits[i].mounts, plan.volume)
                         ==> Sees(p.inits[i].mounts, plan.volume, plan.mountPath))))
  {
    hide Handle, Sees, HasMount, NewMounts;
    var ps := OrderedPlans(p, tsecrets, order);
    AdmittedMounts(p, tsecrets, image, namespace, order);
    OrderedDistinct(p, tsecrets, order);
    forall i | 0 <= i < |p.containers| && p.containers[i].name in plan.users
      ensures Sees(p.containers[i].mounts + NewMounts(ps, p.containers[i].name, p.containers[i].mounts),
                   plan.volume, plan.mountPath)
         <==> (HasMount(p.containers[i].mounts, plan.volume)
               ==> Sees(p.containers[i].mounts, plan.volume, plan.mountPath))
    {
      MountedSeesIff(p.containers[i], ps, plan);
    }
    forall i | 0 <= i < |p.inits| && p.inits[i].name in plan.users
      ensures Sees(p.inits[i].mounts + NewMounts(ps, p.inits[i].name, p.inits[i].mounts), plan.volume, plan.mountPath)
         <==> (HasMount(p.inits[i].mounts, plan.volume)
               ==> Sees(p.inits[i].mounts, plan.volume, plan.mountPath))
    {
      MountedSeesIff(p.inits[i], ps, plan);
    }
  }

  // ----- Which path a volume's plan has -----

  /** The path of a volume's plan is that of the last container that mounts it, or the default. */
  lemma {:induction false} LastPathWins(cs: seq<Container>, volume: string, default: string)
    ensures (exists i :: LastMounting(cs, volume, i)
                         && VolumePath(cs, volume, default) == FirstMountPath(cs[i].mounts, volume).value)
            || (VolumePath(cs, volume, default) == default
                && forall i :: 0 <= i < |cs| ==> FirstMountPath(cs[i].mounts, volume).None?)
  {
    hide FirstMountPath;
    if cs != [] {
      var n := |cs| - 1;
      LastPathWins(cs[..n], volume, default);
      if FirstMountPath(cs[n].mounts, volume).Some? {
        assert LastMounting(cs, volume, n);
      } else if i :| LastMounting(cs[..n], volume, i)
                     && VolumePath(cs[..n], volume, default) == FirstMountPath(cs[..n][i].mounts, volume).value {
        assert LastMounting(cs, volume, i);
      }
    }
  }

  ghost predicate LastMounting(cs: seq<Container>, volume: string, i: int) {
    && 0 <= i < |cs| && FirstMountPath(cs[i].mounts, volume).Some?
    && forall j :: i < j < |cs| ==> FirstMountPath(cs[j].mounts, volume).None?
  }

  lemma {:induction false} FirstPathConcat(a: seq<Ref>, b: seq<Ref>, k: Key)
    ensures FirstPath(a + b, k) == if FirstPath(a, k) != "" then FirstPath(a, k) else FirstPath(b, k)
  {
    if a == [] {
      assert a + b == b;
    } else {
      FirstPathConcat(a[1..], b, k);
      assert (a + b)[1..] == a[1..] + b;
    }
  }

  lemma {:induction false} FirstPathOf(refs: seq<Ref>, k: Key, path: string)
    requires path != "" && forall r :: r in refs && KeyOf(r) == k ==> r.mountPath == path
    ensures FirstPath(refs, k) == if exists r :: r in refs && KeyOf(r) == k then path else ""
  {
    if refs != [] {
      FirstPathOf(refs[1..], k, path);
      assert forall r :: r in refs <==> r == refs[0] || r in refs[1..];
    }
  }

  lemma {:induction false} VolumePathSome(cs: seq<Container>, volume: string, default: string)
    requires default != ""
    ensures VolumePath(cs, volume, default) != ""
  {
    if cs != [] {
      VolumePathSome(cs[..|cs| - 1], volume, default);
      FirstMountSome(cs[|cs| - 1].mounts, volume);
    }
  }

  lemma {:induction false} FirstMountSome(ms: seq<Mount>, volume: string)
    ensures FirstMountPath(ms, volume).Some? ==> FirstMountPath(ms, volume).value != ""
  {
    if ms != [] {
      FirstMountSome(ms[1..], volume);
    }
  }

  /** The plan of a TSecret volume has the volume's path, even if an envFrom reference has the same key. */
  lemma VolumePlanPath(p: Pod, tsecrets: set<string>, v: Volume)
    requires v in p.volumes && VolumeTracked(v, tsecrets)
    ensures Key(v.name, v.source.secretName) in PodPlans(p, tsecrets)
    ensures PodPlans(p, tsecrets)[Key(v.name, v.source.secretName)].mountPath
         == VolumePath(p.containers, v.name, MountPath(v.source.secretName))
  {
    hide MountPath, VolumePath, FirstPath;
    var secret := v.source.secretName;
    var k := Key(v.name, secret);
    var path := VolumePath(p.containers, v.name, MountPath(secret));
    var own := VolumeRefs(p.volumes, p.containers, tsecrets);
    var rest := ContainersRefs(p.containers, false, tsecrets) + ContainersRefs(p.inits, true, tsecrets);
    SomePath(secret);
    VolumePathSome(p.containers, v.name, MountPath(secret));
    InVolumeRefs(p.volumes, p.containers, tsecrets, VolumeRef(v, p.containers));
    forall r | r in own && KeyOf(r) == k
      ensures r.mountPath == path
    {
      InVolumeRefs(p.volumes, p.containers, tsecrets, r);
    }
    FirstPathOf(own, k, path);
    FirstPathConcat(own, rest, k);
    assert own + rest == AllRefs(p, tsecrets);
    RefHasPlan(p, tsecrets, VolumeRef(v, p.containers));
    FirstWins(AllRefs(p, tsecrets), k);
  }

  lemma SomePath(secret: string)
    ensures MountPath(secret) != ""
  {
    assert MountPath(secret)[|MOUNT_ROOT|] == '/';
  }

  /** Containers that mount one TSecret volume at different paths: the last of them decides where the
      injector writes, and one that mounts the volume, but not there, does not see what it writes; with the
      export annotation it sources a loader that it does not see. */
  lemma PathsDisagree(p: Pod, tsecrets: set<string>, image: string, namespace: string, order: seq<Key>,
                      v: Volume, i: nat, j: int)
    requires IsOrder(order, PodPlans(p, tsecrets)) && NamesFree(p, tsecrets) && UniqueContainers(p)
    requires Handle(p, tsecrets, image, namespace, order).Allowed?
    requires v in p.volumes && VolumeTracked(v, tsecrets)
    requires LastMounting(p.containers, v.name, j)
    requires i < |p.containers| && HasMount(p.containers[i].mounts, v.name)
    requires !Sees(p.containers[i].mounts, v.name, FirstMountPath(p.containers[j].mounts, v.name).value)
    ensures var q := Handle(p, tsecrets, image, namespace, order).pod;
            var path := FirstMountPath(p.containers[j].mounts, v.name).value;
            && |q.containers| == |p.containers|
            && OneInjectorAt(q.inits, v.name, v.source.secretName, path, namespace)
            && !Sees(q.containers[i].mounts, v.name, path)
            && LoaderPath(path) in NewLoaders(OrderedPlans(p, tsecrets, order), p.containers[i].name)
  {
    hide Handle, Sees, OneInjectorAt, NoVolumeClash, NewLoaders, VolumePath, FirstMountPath, LastMounting, HasMount;
    VolumePlan(p, tsecrets, order, v);
    var plan := PodPlans(p, tsecrets)[Key(v.name, v.source.secretName)];
    LastDecides(p.containers, v.name, MountPath(v.source.secretName), j);
    InjectorAt(p, tsecrets, image, namespace, order, VolumeRef(v, p.containers), plan);
    assert p.containers[i].name in VolumeRef(v, p.containers).users;
    LoaderVisibleIff(p, tsecrets, image, namespace, order, plan);
    InNewLoaders(OrderedPlans(p, tsecrets, order), p.containers[i].name);
  }

  lemma VolumePlan(p: Pod, tsecrets: set<string>, order: seq<Key>, v: Volume)
    requires IsOrder(order, PodPlans(p, tsecrets)) && v in p.volumes && VolumeTracked(v, tsecrets)
    ensures VolumeRef(v, p.containers) in AllRefs(p, tsecrets)
    ensures Key(v.name, v.source.secretName) in PodPlans(p, tsecrets)
    ensures var plan := PodPlans(p, tsecrets)[Key(v.name, v.source.secretName)];
            && plan in OrderedPlans(p, tsecrets, order)
            && plan.volume == v.name && plan.secret == v.source.secretName
            && plan.mountPath == VolumePath(p.containers, v.name, MountPath(v.source.secretName))
            && VolumeRef(v, p.containers).users <= plan.users
  {
    hide MountPath, VolumePath, MountUsers;
    var r := VolumeRef(v, p.containers);
    VolumePlanPath(p, tsecrets, v);
    InAllRefs(p, tsecrets, r);
    assert Reference(p, tsecrets, r);
    RefHasPlan(p, tsecrets, r);
    PlanOf(p, tsecrets, KeyOf(r));
    OrderedMembers(p, tsecrets, order, PodPlans(p, tsecrets)[KeyOf(r)]);
  }

  /** Exactly one init container has the injector's name for the volume, and it fills the path. */
  ghost predicate OneInjectorAt(inits: seq<Container>, volume: string, secret: string, path: string,
                                namespace: string)
  {
    exists c :: OneNamed(inits, c) && InjectorFor(c, volume, secret, path, namespace)
  }

  lemma InjectorAt(p: Pod, tsecrets: set<string>, image: string, namespace: string, order: seq<Key>, r: Ref, plan: Plan)
    requires IsOrder(order, PodPlans(p, tsecrets)) && NamesFree(p, tsecrets)
    requires Handle(p, tsecrets, image, namespace, order).Allowed?
    requires r in AllRefs(p, tsecrets) && plan in OrderedPlans(p, tsecrets, order) && plan.volume == r.volume
    ensures OneInjectorAt(Handle(p, tsecrets, image, namespace, order).pod.inits, plan.volume, plan.secret,
                          plan.mountPath, namespace)
  {
    hide Handle, OneNamed, InjectorFor;
    AllowedClosed(p, tsecrets, image, namespace, order);
    InjectorServed(p, tsecrets, image, namespace, order, plan);
    InjectorShape(plan, p.annotations, image, namespace);
  }

  lemma {:induction false} LastDecides(cs: seq<Container>, volume: string, default: string, j: int)
    requires LastMounting(cs, volume, j)
    ensures VolumePath(cs, volume, default) == FirstMountPath(cs[j].mounts, volume).value
  {
    var n := |cs| - 1;
    if j < n {
      assert LastMounting(cs[..n], volume, j);
      LastDecides(cs[..n], volume, default, j);
    }
  }
}
