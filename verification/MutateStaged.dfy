/** Admission in two stages: a pod handled when some TSecrets exist, and handled again when more
    exist, ends up like a pod handled once with all of them. */
module MutateStaged {
  import opened Common
  import opened Pods
  import opened Mutate
  import opened MutateFrame
  import opened MutateClosed
  import opened MutatePlans
  import opened MutateConfluence

  // ----- Stripping and replaying commute -----

  lemma StripNamesOf(cs: seq<Container>, skip: bool, s: set<string>)
    ensures forall i :: 0 <= i < |cs| ==> (IsFirst(cs, i) <==> IsFirst(StripContainers(cs, skip, s), i))
    ensures forall n :: HasContainer(cs, n) <==> HasContainer(StripContainers(cs, skip, s), n)
  {
    SameNames(cs, StripContainers(cs, skip, s));
  }

  lemma StripHasVolume(vs: seq<Volume>, s: set<string>, name: string)
    ensures HasVolume(StripVolumes(vs, s), name) <==> HasVolume(vs, name)
  {
    var r := StripVolumes(vs, s);
    if HasVolume(vs, name) {
      var i :| 0 <= i < |vs| && vs[i].name == name;
      assert r[i].name == name;
    }
    if HasVolume(r, name) {
      var i :| 0 <= i < |r| && r[i].name == name;
      assert vs[i].name == name;
    }
  }

  lemma StripEnsureVolume(p: Pod, s: set<string>, volume: string)
    ensures Strip(EnsureVolume(p, volume), s) == EnsureVolume(Strip(p, s), volume)
  {
    StripHasVolume(p.volumes, s, volume);
    if !HasVolume(p.volumes, volume) {
      var v := Volume(volume, MemoryDir);
      assert StripVolumes(p.volumes + [v], s) == StripVolumes(p.volumes, s) + [v];
    }
  }

  lemma StripEnsureInit(p: Pod, s: set<string>, plan: Plan, image: string, namespace: string)
    ensures Strip(EnsureInit(p, plan, image, namespace), s) == EnsureInit(Strip(p, s), plan, image, namespace)
  {
    StripNamesOf(p.inits, true, s);
    if !HasContainer(p.inits, InitName(plan.volume)) {
      var c := Injector(plan, image, namespace);
      assert IsInjectorName(InitName(plan.volume));
      assert StripContainers(p.inits + [c], true, s) == StripContainers(p.inits, true, s) + [c];
    }
  }

  lemma StripMountContainers(cs: seq<Container>, skip: bool, shadow: seq<Container>, shadow': seq<Container>,
                             s: set<string>, users: set<string>, volume: string, path: string)
    requires forall n :: HasContainer(shadow, n) <==> HasContainer(shadow', n)
    ensures StripContainers(MountContainers(cs, shadow, users, volume, path), skip, s)
         == MountContainers(StripContainers(cs, skip, s), shadow', users, volume, path)
  {
    StripNamesOf(cs, skip, s);
    var a := StripContainers(MountContainers(cs, shadow, users, volume, path), skip, s);
    var b := MountContainers(StripContainers(cs, skip, s), shadow', users, volume, path);
    forall i | 0 <= i < |cs|
      ensures a[i] == b[i]
    {
      assert StripOne(AddMount(cs[i], volume, path), skip, s) == AddMount(StripOne(cs[i], skip, s), volume, path);
    }
  }

  lemma StripStep(s: Progress, tsecrets: set<string>, plan: Plan, image: string, namespace: string)
    ensures Strip(Step(s, plan, image, namespace).pod, tsecrets)
         == Step(s.(pod := Strip(s.pod, tsecrets)), plan, image, namespace).pod
  {
    var plan' := Flagged(s.pod.annotations, plan);
    var p1 := EnsureFsGroup(s.pod);
    var p2 := EnsureVolume(p1, plan.volume);
    var p3 := EnsureInit(p2, plan', image, namespace);
    assert Strip(p1, tsecrets) == EnsureFsGroup(Strip(s.pod, tsecrets));
    StripEnsureVolume(p1, tsecrets, plan.volume);
    StripEnsureInit(p2, tsecrets, plan', image, namespace);
    StripNamesOf(p3.containers, false, tsecrets);
    StripMountContainers(p3.containers, false, [], [], tsecrets, plan.users, plan.volume, plan.mountPath);
    StripMountContainers(p3.inits, true, p3.containers, Strip(p3, tsecrets).containers, tsecrets,
                         plan.users, plan.volume, plan.mountPath);
  }

  lemma {:induction false} StripRun(s: Progress, tsecrets: set<string>, ps: seq<Plan>, image: string, namespace: string)
    ensures Strip(Run(s, ps, image, namespace).pod, tsecrets)
         == Run(s.(pod := Strip(s.pod, tsecrets)), ps, image, namespace).pod
    ensures Run(s, ps, image, namespace).loaders
         == Run(s.(pod := Strip(s.pod, tsecrets)), ps, image, namespace).loaders
    decreases |ps|
  {
    if ps != [] {
      var n := |ps| - 1;
      StripRun(s, tsecrets, ps[..n], image, namespace);
      StripStep(Run(s, ps[..n], image, namespace), tsecrets, ps[n], image, namespace);
    }
  }

  lemma {:induction false} RunConcat(s: Progress, a: seq<Plan>, b: seq<Plan>, image: string, namespace: string)
    ensures Run(s, a + b, image, namespace) == Run(Run(s, a, image, namespace), b, image, namespace)
    decreases |b|
  {
    if b == [] {
      assert a + b == a;
    } else {
      var n := |b| - 1;
      assert (a + b)[..|a + b| - 1] == a + b[..n];
      RunConcat(s, a, b[..n], image, namespace);
    }
  }

  lemma {:induction false} KeepEnvTwice(es: seq<EnvVar>, s1: set<string>, s2: set<string>)
    requires s1 <= s2
    ensures KeepEnv(KeepEnv(es, s1), s2) == KeepEnv(es, s2)
  {
    if es != [] {
      var n := |es| - 1;
      KeepEnvTwice(es[..n], s1, s2);
      var kept := KeepEnv(es[..n], s1);
      assert kept + [] == kept;
      assert (kept + [es[n]])[..|kept|] == kept;
    }
  }

  lemma {:induction false} KeepEnvFromTwice(es: seq<EnvFrom>, s1: set<string>, s2: set<string>)
    requires s1 <= s2
    ensures KeepEnvFrom(KeepEnvFrom(es, s1), s2) == KeepEnvFrom(es, s2)
  {
    if es != [] {
      var n := |es| - 1;
      KeepEnvFromTwice(es[..n], s1, s2);
      var kept := KeepEnvFrom(es[..n], s1);
      assert kept + [] == kept;
      assert (kept + [es[n]])[..|kept|] == kept;
    }
  }

  lemma StripContainersTwice(cs: seq<Container>, skip: bool, s1: set<string>, s2: set<string>)
    requires s1 <= s2
    ensures StripContainers(StripContainers(cs, skip, s1), skip, s2) == StripContainers(cs, skip, s2)
  {
    forall i | 0 <= i < |cs|
      ensures StripOne(StripOne(cs[i], skip, s1), skip, s2) == StripOne(cs[i], skip, s2)
    {
      KeepEnvTwice(cs[i].env, s1, s2);
      KeepEnvFromTwice(cs[i].envFrom, s1, s2);
    }
  }

  lemma StripTwice(p: Pod, s1: set<string>, s2: set<string>)
    requires s1 <= s2
    ensures Strip(Strip(p, s1), s2) == Strip(p, s2)
  {
    StripContainersTwice(p.containers, false, s1, s2);
    StripContainersTwice(p.inits, true, s1, s2);
    assert StripVolumes(StripVolumes(p.volumes, s1), s2) == StripVolumes(p.volumes, s2);
  }

  // ----- The references left for the second stage -----

  lemma {:induction false} KeptEnvRefs(es: seq<EnvVar>, user: string, s1: set<string>, s2: set<string>)
    ensures EnvRefs(KeepEnv(es, s1), user, s2) == EnvRefs(es, user, s2 - s1)
  {
    if es != [] {
      var n := |es| - 1;
      var kept := KeepEnv(es[..n], s1);
      KeptEnvRefs(es[..n], user, s1, s2);
      assert kept + [] == kept;
      assert (kept + [es[n]])[..|kept|] == kept;
      assert EnvRefs(kept, user, s2) + [] == EnvRefs(kept, user, s2);
    }
  }

  lemma {:induction false} KeptEnvFromRefs(es: seq<EnvFrom>, user: string, s1: set<string>, s2: set<string>)
    ensures EnvFromRefs(KeepEnvFrom(es, s1), user, s2) == EnvFromRefs(es, user, s2 - s1)
  {
    if es != [] {
      var n := |es| - 1;
      var kept := KeepEnvFrom(es[..n], s1);
      KeptEnvFromRefs(es[..n], user, s1, s2);
      assert kept + [] == kept;
      assert (kept + [es[n]])[..|kept|] == kept;
      assert EnvFromRefs(kept, user, s2) + [] == EnvFromRefs(kept, user, s2);
    }
  }

  /** A container after the first stage: stripped, with more mounts. */
  ghost predicate Staged(c: Container, c': Container, skip: bool, s1: set<string>) {
    Extends(StripOne(c, skip, s1), c')
  }

  lemma {:induction false} StagedContainerRefs(cs: seq<Container>, cs': seq<Container>, skip: bool,
                                               s1: set<string>, s2: set<string>)
    requires |cs'| == |cs| && forall i :: 0 <= i < |cs| ==> Staged(cs[i], cs'[i], skip, s1)
    ensures ContainersRefs(cs', skip, s2) == ContainersRefs(cs, skip, s2 - s1)
  {
    if cs != [] {
      var n := |cs| - 1;
      StagedContainerRefs(cs[..n], cs'[..n], skip, s1, s2);
      assert Staged(cs[n], cs'[n], skip, s1);
      KeptEnvRefs(cs[n].env, cs[n].name, s1, s2);
      KeptEnvFromRefs(cs[n].envFrom, cs[n].name, s1, s2);
    }
  }

  lemma {:induction false} AddedRefs(head: seq<Container>, tail: seq<Container>, s: set<string>)
    requires forall c :: c in tail ==> IsInjectorName(c.name)
    ensures ContainersRefs(head + tail, true, s) == ContainersRefs(head, true, s)
    decreases |tail|
  {
    if tail == [] {
      assert head + tail == head;
    } else {
      var n := |tail| - 1;
      AddedRefs(head, tail[..n], s);
      assert (head + tail)[..|head + tail| - 1] == head + tail[..n];
    }
  }

  /** Mounts of other volumes do not matter to a volume's path and users. */
  ghost predicate OtherMounts(c: Container, c': Container, volume: string) {
    && c'.name == c.name && c.mounts <= c'.mounts
    && forall j :: |c.mounts| <= j < |c'.mounts| ==> c'.mounts[j].name != volume
  }

  lemma {:induction false} SameFirstMount(a: seq<Mount>, b: seq<Mount>, volume: string)
    requires a <= b && forall j :: |a| <= j < |b| ==> b[j].name != volume
    ensures FirstMountPath(a, volume) == FirstMountPath(b, volume)
    decreases |b|
  {
    if b != [] {
      if a == [] {
        SameFirstMount(a, b[1..], volume);
      } else {
        SameFirstMount(a[1..], b[1..], volume);
      }
    }
  }

  lemma {:induction false} SamePath(cs: seq<Container>, cs': seq<Container>, volume: string, default: string)
    requires |cs'| == |cs| && forall i :: 0 <= i < |cs| ==> OtherMounts(cs[i], cs'[i], volume)
    ensures VolumePath(cs, volume, default) == VolumePath(cs', volume, default)
  {
    if cs != [] {
      var n := |cs| - 1;
      assert OtherMounts(cs[n], cs'[n], volume);
      SameFirstMount(cs[n].mounts, cs'[n].mounts, volume);
      SamePath(cs[..n], cs'[..n], volume, default);
    }
  }

  lemma SameHasMount(c: Container, c': Container, volume: string)
    requires OtherMounts(c, c', volume)
    ensures HasMount(c.mounts, volume) <==> HasMount(c'.mounts, volume)
  {
    if HasMount(c.mounts, volume) {
      var i :| 0 <= i < |c.mounts| && c.mounts[i].name == volume;
      assert c'.mounts[i].name == volume;
    }
    if HasMount(c'.mounts, volume) {
      var i :| 0 <= i < |c'.mounts| && c'.mounts[i].name == volume;
      assert c.mounts[i].name == volume;
    }
  }

  lemma SameVolumeRef(cs: seq<Container>, cs': seq<Container>, v: Volume)
    requires v.source.SecretSource?
    requires |cs'| == |cs| && forall i :: 0 <= i < |cs| ==> OtherMounts(cs[i], cs'[i], v.name)
    ensures VolumeRef(v, cs) == VolumeRef(v, cs')
  {
    SamePath(cs, cs', v.name, MountPath(v.source.secretName));
    forall i | 0 <= i < |cs|
      ensures HasMount(cs[i].mounts, v.name) <==> HasMount(cs'[i].mounts, v.name)
      ensures cs[i].name == cs'[i].name
    {
      assert OtherMounts(cs[i], cs'[i], v.name);
      SameHasMount(cs[i], cs'[i], v.name);
    }
    assert MountUsers(cs, v.name) == MountUsers(cs', v.name);
  }

  lemma {:induction false} StagedVolumeRefs(vs: seq<Volume>, cs: seq<Container>, cs': seq<Container>,
                                            s1: set<string>, s2: set<string>)
    requires |cs'| == |cs|
    requires forall v, i :: v in vs && VolumeTracked(v, s2 - s1) && 0 <= i < |cs| ==> OtherMounts(cs[i], cs'[i], v.name)
    ensures VolumeRefs(StripVolumes(vs, s1), cs', s2) == VolumeRefs(vs, cs, s2 - s1)
  {
    if vs != [] {
      var n := |vs| - 1;
      assert StripVolumes(vs, s1)[..n] == StripVolumes(vs[..n], s1);
      StagedVolumeRefs(vs[..n], cs, cs', s1, s2);
      if VolumeTracked(vs[n], s2 - s1) {
        assert forall i :: 0 <= i < |cs| ==> OtherMounts(cs[i], cs'[i], vs[n].name);
        SameVolumeRef(cs, cs', vs[n]);
      }
    }
  }

  lemma {:induction false} MemoryRefs(vs: seq<Volume>, added: seq<Volume>, cs: seq<Container>, s: set<string>)
    requires forall v :: v in added ==> v.source == MemoryDir
    ensures VolumeRefs(vs + added, cs, s) == VolumeRefs(vs, cs, s)
    decreases |added|
  {
    if added == [] {
      assert vs + added == vs;
    } else {
      var n := |added| - 1;
      MemoryRefs(vs, added[..n], cs, s);
      assert (vs + added)[..|vs + added| - 1] == vs + added[..n];
      assert added[n] in added;
    }
  }

  // ----- Mounts added while replaying name the plans' volumes -----

  ghost predicate NewMountsAmong(c0: Container, c: Container, ps: seq<Plan>) {
    && Extends(c0, c)
    && forall j :: |c0.mounts| <= j < |c.mounts| ==> exists p :: p in ps && p.volume == c.mounts[j].name
  }

  lemma {:induction false} RunMounts(s: Progress, ps: seq<Plan>, image: string, namespace: string, i: nat)
    requires i < |s.pod.containers|
    ensures |Run(s, ps, image, namespace).pod.containers| == |s.pod.containers|
    ensures NewMountsAmong(s.pod.containers[i], Run(s, ps, image, namespace).pod.containers[i], ps)
    decreases |ps|
  {
    hide Step, AddMount;
    if ps != [] {
      var n := |ps| - 1;
      RunMounts(s, ps[..n], image, namespace, i);
      StepMount(Run(s, ps[..n], image, namespace), ps[n], image, namespace, i);
      var before := Run(s, ps[..n], image, namespace).pod.containers[i];
      var after := Run(s, ps, image, namespace).pod.containers[i];
      AddedAmong(s.pod.containers[i], before, after, ps);
    }
  }

  lemma StepMount(s: Progress, plan: Plan, image: string, namespace: string, i: nat)
    requires i < |s.pod.containers|
    ensures var cs := Step(s, plan, image, namespace).pod.containers;
            && |cs| == |s.pod.containers|
            && (cs[i] == s.pod.containers[i] || cs[i] == AddMount(s.pod.containers[i], plan.volume, plan.mountPath))
  {
    hide AddMount, AddLoaders, Injector;
  }

  lemma AddedAmong(c0: Container, before: Container, after: Container, ps: seq<Plan>)
    requires ps != [] && NewMountsAmong(c0, before, ps[..|ps| - 1])
    requires after == before || after == AddMount(before, ps[|ps| - 1].volume, ps[|ps| - 1].mountPath)
    ensures NewMountsAmong(c0, after, ps)
  {
    var n := |ps| - 1;
    assert before.mounts <= after.mounts && after == before.(mounts := after.mounts);
    assert c0.mounts <= after.mounts;
    forall j | |c0.mounts| <= j < |after.mounts|
      ensures exists p :: p in ps && p.volume == after.mounts[j].name
    {
      if j < |before.mounts| {
        assert before.mounts[j].name == after.mounts[j].name;
        var p :| p in ps[..n] && p.volume == before.mounts[j].name;
        assert p in ps;
      } else {
        assert ps[n] in ps;
      }
    }
  }

  // ----- Collecting in two stages -----

  function OfSecrets(refs: seq<Ref>, s: set<string>): seq<Ref> {
    if refs == [] then []
    else OfSecrets(refs[..|refs| - 1], s)
         + (if refs[|refs| - 1].secret in s then [refs[|refs| - 1]] else [])
  }

  lemma {:induction false} OfSecretsConcat(a: seq<Ref>, b: seq<Ref>, s: set<string>)
    ensures OfSecrets(a + b, s) == OfSecrets(a, s) + OfSecrets(b, s)
    decreases |b|
  {
    if b == [] {
      assert a + b == a;
    } else {
      OfSecretsConcat(a, b[..|b| - 1], s);
      assert (a + b)[..|a + b| - 1] == a + b[..|b| - 1];
    }
  }

  lemma OfSecretsSnoc(front: seq<Ref>, r: Ref, s: set<string>)
    ensures OfSecrets(front + [r], s) == OfSecrets(front, s) + (if r.secret in s then [r] else [])
  {
    assert (front + [r])[..|front|] == front;
  }

  lemma {:induction false} EnvRefsOf(es: seq<EnvVar>, user: string, s: set<string>, all: set<string>)
    requires s <= all
    ensures EnvRefs(es, user, s) == OfSecrets(EnvRefs(es, user, all), s)
  {
    if es != [] {
      var e := es[|es| - 1];
      var front := EnvRefs(es[..|es| - 1], user, all);
      EnvRefsOf(es[..|es| - 1], user, s, all);
      if EnvTracked(e, all) {
        OfSecretsSnoc(front, EnvRef(e.secret, "", user), s);
      } else {
        OfSecretsConcat(front, [], s);
      }
    }
  }

  lemma {:induction false} EnvFromRefsOf(es: seq<EnvFrom>, user: string, s: set<string>, all: set<string>)
    requires s <= all
    ensures EnvFromRefs(es, user, s) == OfSecrets(EnvFromRefs(es, user, all), s)
  {
    if es != [] {
      var e := es[|es| - 1];
      var front := EnvFromRefs(es[..|es| - 1], user, all);
      EnvFromRefsOf(es[..|es| - 1], user, s, all);
      if EnvFromTracked(e, all) {
        OfSecretsSnoc(front, EnvRef(e.secret, e.prefix, user), s);
      } else {
        OfSecretsConcat(front, [], s);
      }
    }
  }

  lemma {:induction false} ContainersRefsOf(cs: seq<Container>, skip: bool, s: set<string>, all: set<string>)
    requires s <= all
    ensures ContainersRefs(cs, skip, s) == OfSecrets(ContainersRefs(cs, skip, all), s)
  {
    if cs != [] {
      var c := cs[|cs| - 1];
      var front := ContainersRefs(cs[..|cs| - 1], skip, all);
      ContainersRefsOf(cs[..|cs| - 1], skip, s, all);
      if !(skip && IsInjectorName(c.name)) {
        EnvRefsOf(c.env, c.name, s, all);
        EnvFromRefsOf(c.envFrom, c.name, s, all);
        OfSecretsConcat(EnvFromRefs(c.envFrom, c.name, all), EnvRefs(c.env, c.name, all), s);
        OfSecretsConcat(front, ContainerRefs(c, all), s);
      } else {
        OfSecretsConcat(front, [], s);
      }
    }
  }

  lemma {:induction false} VolumeRefsOf(vs: seq<Volume>, cs: seq<Container>, s: set<string>, all: set<string>)
    requires s <= all
    ensures VolumeRefs(vs, cs, s) == OfSecrets(VolumeRefs(vs, cs, all), s)
  {
    if vs != [] {
      var v := vs[|vs| - 1];
      var front := VolumeRefs(vs[..|vs| - 1], cs, all);
      VolumeRefsOf(vs[..|vs| - 1], cs, s, all);
      if VolumeTracked(v, all) {
        OfSecretsSnoc(front, VolumeRef(v, cs), s);
      } else {
        OfSecretsConcat(front, [], s);
      }
    }
  }

  /** Fewer TSecrets mean the same references, minus those to the missing ones. */
  lemma AllRefsOf(p: Pod, s: set<string>, all: set<string>)
    requires s <= all
    ensures AllRefs(p, s) == OfSecrets(AllRefs(p, all), s)
  {
    VolumeRefsOf(p.volumes, p.containers, s, all);
    ContainersRefsOf(p.containers, false, s, all);
    ContainersRefsOf(p.inits, true, s, all);
    var a := VolumeRefs(p.volumes, p.containers, all);
    var b := ContainersRefs(p.containers, false, all);
    OfSecretsConcat(a, b, s);
    OfSecretsConcat(a + b, ContainersRefs(p.inits, true, all), s);
  }

  /** The plan for a key depends only on the references to its secret. */
  lemma {:induction false} CollectOf(refs: seq<Ref>, s: set<string>)
    ensures forall k :: k in Collect(OfSecrets(refs, s)) <==> k in Collect(refs) && k.secret in s
    ensures forall k :: k in Collect(OfSecrets(refs, s)) ==> Collect(OfSecrets(refs, s))[k] == Collect(refs)[k]
  {
    if refs != [] {
      var n := |refs| - 1;
      CollectOf(refs[..n], s);
      var front := OfSecrets(refs[..n], s);
      assert front + [] == front;
      assert (front + [refs[n]])[..|front|] == front;
    }
  }

  lemma PlansSplit(p: Pod, s1: set<string>, s2: set<string>)
    requires s1 <= s2
    ensures forall k :: k in PodPlans(p, s2) <==> k in PodPlans(p, s1) || k in PodPlans(p, s2 - s1)
    ensures forall k :: !(k in PodPlans(p, s1) && k in PodPlans(p, s2 - s1))
    ensures forall k :: k in PodPlans(p, s1) ==> PodPlans(p, s1)[k] == PodPlans(p, s2)[k]
    ensures forall k :: k in PodPlans(p, s2 - s1) ==> PodPlans(p, s2 - s1)[k] == PodPlans(p, s2)[k]
  {
    AllRefsOf(p, s1, s2);
    AllRefsOf(p, s2 - s1, s2);
    CollectOf(AllRefs(p, s2), s1);
    CollectOf(AllRefs(p, s2), s2 - s1);
    forall k | k in PodPlans(p, s2)
      ensures k.secret in s2
    {
      PlanOf(p, s2, k);
      var r :| r in AllRefs(p, s2) && KeyOf(r) == k;
      RefSecretTracked(p, s2, r);
    }
  }

  // ----- The theorem -----

  ghost predicate NoExports(p: Pod) {
    forall n :: !ExportEnabled(p.annotations, n)
  }

  lemma NeverDenied(p: Pod, tsecrets: set<string>, image: string, namespace: string, order: seq<Key>)
    requires NoExports(p) && IsOrder(order, PodPlans(p, tsecrets))
    ensures Handle(p, tsecrets, image, namespace, order)
         == Allowed(Replay(p, tsecrets, OrderedPlans(p, tsecrets, order), image, namespace).pod)
    ensures Replay(p, tsecrets, OrderedPlans(p, tsecrets, order), image, namespace).loaders == map[]
  {
    DeniedIff(p, tsecrets, image, namespace, order);
    AllowedForm(p, tsecrets, image, namespace, order);
    var s0 := Progress(Strip(p, tsecrets), map[]);
    var ps := OrderedPlans(p, tsecrets, order);
    RunLoaders(s0, ps, image, namespace);
    assert ClosedLoaders(ps, p.annotations) == map[];
    WrapNothing(Run(s0, ps, image, namespace).pod);
  }

  /** What the first stage leaves for the second: the references to the TSecrets that were missing. */
  lemma LeftOver(p: Pod, s1: set<string>, s2: set<string>, ps: seq<Plan>, image: string, namespace: string)
    requires s1 <= s2 && NoVolumeClash(p, s2)
    requires forall plan :: plan in ps ==> exists r :: r in AllRefs(p, s1) && r.volume == plan.volume
    ensures AllRefs(Replay(p, s1, ps, image, namespace).pod, s2) == AllRefs(p, s2 - s1)
  {
    RunGrows(Progress(Strip(p, s1), map[]), ps, image, namespace);
    LeftOverVolumes(p, s1, s2, ps, image, namespace);
    LeftOverContainers(p, Replay(p, s1, ps, image, namespace).pod, s1, s2);
  }

  lemma LeftOverContainers(p: Pod, t: Pod, s1: set<string>, s2: set<string>)
    requires Grown(Strip(p, s1), t)
    ensures ContainersRefs(t.containers, false, s2) == ContainersRefs(p.containers, false, s2 - s1)
    ensures ContainersRefs(t.inits, true, s2) == ContainersRefs(p.inits, true, s2 - s1)
  {
    var q := Strip(p, s1);
    forall i | 0 <= i < |p.containers|
      ensures Staged(p.containers[i], t.containers[i], false, s1)
    {
      assert Extends(q.containers[i], t.containers[i]);
    }
    StagedContainerRefs(p.containers, t.containers, false, s1, s2);
    forall i | 0 <= i < |p.inits|
      ensures Staged(p.inits[i], t.inits[i], true, s1)
    {
      assert Extends(q.inits[i], t.inits[i]);
    }
    forall i | |p.inits| <= i < |t.inits|
      ensures IsInjectorName(t.inits[i].name)
    {
      assert Added(t.inits[i]);
    }
    LeftOverInits(p.inits, t.inits, s1, s2);
  }

  lemma LeftOverInits(cs: seq<Container>, cs': seq<Container>, s1: set<string>, s2: set<string>)
    requires |cs| <= |cs'| && forall i :: 0 <= i < |cs| ==> Staged(cs[i], cs'[i], true, s1)
    requires forall i :: |cs| <= i < |cs'| ==> IsInjectorName(cs'[i].name)
    ensures ContainersRefs(cs', true, s2) == ContainersRefs(cs, true, s2 - s1)
  {
    hide Staged, ContainersRefs, IsInjectorName;
    var head, tail := cs'[..|cs|], cs'[|cs|..];
    StagedContainerRefs(cs, head, true, s1, s2);
    AddedRefs(head, tail, s2);
    assert cs' == head + tail;
  }

  lemma LeftOverVolumes(p: Pod, s1: set<string>, s2: set<string>, ps: seq<Plan>, image: string, namespace: string)
    requires s1 <= s2 && NoVolumeClash(p, s2)
    requires forall plan :: plan in ps ==> exists r :: r in AllRefs(p, s1) && r.volume == plan.volume
    ensures var t := Replay(p, s1, ps, image, namespace).pod;
            VolumeRefs(t.volumes, t.containers, s2) == VolumeRefs(p.volumes, p.containers, s2 - s1)
  {
    hide Step, VolumeRef, VolumeRefs, ContainersRefs;
    var q := Strip(p, s1);
    var s0 := Progress(q, map[]);
    var t := Run(s0, ps, image, namespace).pod;
    RunGrows(s0, ps, image, namespace);
    forall v, i | v in p.volumes && VolumeTracked(v, s2 - s1) && 0 <= i < |p.containers|
      ensures OtherMounts(p.containers[i], t.containers[i], v.name)
    {
      RunMounts(s0, ps, image, namespace, i);
      NoSharedVolume(p, s1, s2, v);
    }
    StagedVolumeRefs(p.volumes, p.containers, t.containers, s1, s2);
    var n := |p.volumes|;
    assert t.volumes == q.volumes + t.volumes[n..];
    MemoryRefs(q.volumes, t.volumes[n..], t.containers, s2);
  }

  /** No plan of the first stage uses the volume of a TSecret that appears later. */
  lemma NoSharedVolume(p: Pod, s1: set<string>, s2: set<string>, v: Volume)
    requires s1 <= s2 && NoVolumeClash(p, s2) && v in p.volumes && VolumeTracked(v, s2 - s1)
    ensures forall r :: r in AllRefs(p, s1) ==> r.volume != v.name
  {
    var r2 := VolumeRef(v, p.containers);
    InAllRefs(p, s2, r2);
    forall r | r in AllRefs(p, s1)
      ensures r.volume != v.name
    {
      RefSecretTracked(p, s1, r);
      InAllRefs(p, s1, r);
      MoreReferences(p, s1, s2, r);
      InAllRefs(p, s2, r);
    }
  }

  lemma MoreReferences(p: Pod, s1: set<string>, s2: set<string>, r: Ref)
    requires s1 <= s2 && Reference(p, s1, r)
    ensures Reference(p, s2, r)
  {
    if v :| v in p.volumes && VolumeTracked(v, s1) && r == VolumeRef(v, p.containers) {
      assert VolumeTracked(v, s2);
    } else {
      var c :| Scanned(p, c) && EnvReference(c, s1, r);
      assert EnvReference(c, s2, r);
    }
  }

  /** Handling in two stages equals handling once, with the orders put one after the other; by
      confluence every other order of the single run differs from it in the order of appended
      elements only. */
  lemma TwoStages(p: Pod, s1: set<string>, s2: set<string>, image: string, namespace: string,
                  o1: seq<Key>, o2: seq<Key>, o: seq<Key>)
    requires s1 <= s2 && NoExports(p) && NoVolumeClash(p, s2)
    requires IsOrder(o1, PodPlans(p, s1))
    requires Handle(p, s1, image, namespace, o1).Allowed? ==>
               IsOrder(o2, PodPlans(Handle(p, s1, image, namespace, o1).pod, s2))
    requires IsOrder(o, PodPlans(p, s2))
    ensures Handle(p, s1, image, namespace, o1).Allowed?
    ensures IsOrder(o1 + o2, PodPlans(p, s2))
    ensures var q := Handle(p, s1, image, namespace, o1).pod;
            && Handle(q, s2, image, namespace, o2) == Handle(p, s2, image, namespace, o1 + o2)
            && SameVerdict(p, OrderedPlans(p, s2, o), Handle(p, s2, image, namespace, o),
                           OrderedPlans(p, s2, o1 + o2), Handle(q, s2, image, namespace, o2))
  {
    NeverDenied(p, s1, image, namespace, o1);
    var ps1 := OrderedPlans(p, s1, o1);
    var q := Handle(p, s1, image, namespace, o1).pod;
    PlanVolumes(p, s1, o1);
    LeftOver(p, s1, s2, ps1, image, namespace);
    PlansSplit(p, s1, s2);
    assert PodPlans(q, s2) == PodPlans(p, s2 - s1);
    JoinedOrder(p, s1, s2, o1, o2);
    JoinedRuns(p, s1, s2, image, namespace, o1, o2);
    Confluent(p, s2, image, namespace, o, o1 + o2);
  }

  lemma PlanVolumes(p: Pod, s1: set<string>, o1: seq<Key>)
    requires IsOrder(o1, PodPlans(p, s1))
    ensures forall plan :: plan in OrderedPlans(p, s1, o1) ==>
              exists r :: r in AllRefs(p, s1) && r.volume == plan.volume
  {
    var ps := OrderedPlans(p, s1, o1);
    forall plan | plan in ps
      ensures exists r :: r in AllRefs(p, s1) && r.volume == plan.volume
    {
      var i :| 0 <= i < |ps| && ps[i] == plan;
      assert o1[i] in o1;
      PlanOf(p, s1, o1[i]);
      var r :| r in AllRefs(p, s1) && KeyOf(r) == o1[i];
    }
  }

  lemma JoinedOrder(p: Pod, s1: set<string>, s2: set<string>, o1: seq<Key>, o2: seq<Key>)
    requires s1 <= s2
    requires IsOrder(o1, PodPlans(p, s1)) && IsOrder(o2, PodPlans(p, s2 - s1))
    ensures IsOrder(o1 + o2, PodPlans(p, s2))
    ensures OrderedPlans(p, s2, o1 + o2) == OrderedPlans(p, s1, o1) + OrderedPlans(p, s2 - s1, o2)
  {
    PlansSplit(p, s1, s2);
    var o := o1 + o2;
    forall i, j | 0 <= i < j < |o|
      ensures o[i] != o[j]
    {
      assert i < |o1| ==> o[i] in o1;
      assert j >= |o1| ==> o[j] in o2;
      assert i >= |o1| ==> o2[i - |o1|] != o2[j - |o1|];
    }
    forall i | 0 <= i < |o|
      ensures PodPlans(p, s2)[o[i]] == (OrderedPlans(p, s1, o1) + OrderedPlans(p, s2 - s1, o2))[i]
    {
      assert i < |o1| ==> o1[i] in o1;
      assert i >= |o1| ==> o2[i - |o1|] in o2;
    }
  }

  lemma JoinedRuns(p: Pod, s1: set<string>, s2: set<string>, image: string, namespace: string,
                   o1: seq<Key>, o2: seq<Key>)
    requires s1 <= s2 && NoExports(p)
    requires IsOrder(o1, PodPlans(p, s1)) && IsOrder(o2, PodPlans(p, s2 - s1))
    requires Handle(p, s1, image, namespace, o1).Allowed?
    requires PodPlans(Handle(p, s1, image, namespace, o1).pod, s2) == PodPlans(p, s2 - s1)
    requires IsOrder(o1 + o2, PodPlans(p, s2))
    requires OrderedPlans(p, s2, o1 + o2) == OrderedPlans(p, s1, o1) + OrderedPlans(p, s2 - s1, o2)
    ensures Handle(Handle(p, s1, image, namespace, o1).pod, s2, image, namespace, o2)
         == Handle(p, s2, image, namespace, o1 + o2)
  {
    var ps1, ps2 := OrderedPlans(p, s1, o1), OrderedPlans(p, s2 - s1, o2);
    var s0 := Progress(Strip(p, s1), map[]);
    NeverDenied(p, s1, image, namespace, o1);
    var q := Run(s0, ps1, image, namespace).pod;
    RunGrows(s0, ps1, image, namespace);
    NeverDenied(q, s2, image, namespace, o2);
    NeverDenied(p, s2, image, namespace, o1 + o2);
    StripRun(s0, s2, ps1, image, namespace);
    StripTwice(p, s1, s2);
    RunConcat(Progress(Strip(p, s2), map[]), ps1, ps2, image, namespace);
  }
}
