/** What the handler leaves alone, what it keeps well-formed, and why it has nothing left to do on
    its own output. None of these results has a precondition on names or on the iteration order. */
module MutateFrame {
  import opened Common
  import opened Pods
  import opened Mutate

  // ----- Replaying plans only ever adds -----

  /** c is c0 with mounts added at the end. */
  ghost predicate Extends(c0: Container, c: Container) {
    c == c0.(mounts := c.mounts) && c0.mounts <= c.mounts
  }

  ghost predicate AllExtend(cs0: seq<Container>, cs: seq<Container>)
    requires |cs0| <= |cs|
  {
    forall i :: 0 <= i < |cs0| ==> Extends(cs0[i], cs[i])
  }

  /** A container of the kind the handler appends: it refers to no secret. */
  ghost predicate Added(c: Container) {
    IsInjectorName(c.name) && c.envFrom == [] && c.env == []
  }

  /** p is p0 with memory volumes, injectors and mounts added. */
  ghost predicate Grown(p0: Pod, p: Pod) {
    && p.annotations == p0.annotations
    && (p0.fsGroup.Some? ==> p.fsGroup == p0.fsGroup)
    && p0.volumes <= p.volumes
    && (forall i :: |p0.volumes| <= i < |p.volumes| ==> p.volumes[i].source == MemoryDir)
    && |p.containers| == |p0.containers| && AllExtend(p0.containers, p.containers)
    && |p.inits| >= |p0.inits| && AllExtend(p0.inits, p.inits)
    && (forall i :: |p0.inits| <= i < |p.inits| ==> Added(p.inits[i]))
  }

  lemma MountContainersExtend(cs: seq<Container>, shadow: seq<Container>, users: set<string>,
                              volume: string, path: string)
    ensures AllExtend(cs, MountContainers(cs, shadow, users, volume, path))
  {
  }

  lemma GrownTransitive(p0: Pod, p1: Pod, p2: Pod)
    requires Grown(p0, p1) && Grown(p1, p2)
    ensures Grown(p0, p2)
  {
    forall i | 0 <= i < |p0.containers|
      ensures Extends(p0.containers[i], p2.containers[i])
    {
      assert Extends(p0.containers[i], p1.containers[i]) && Extends(p1.containers[i], p2.containers[i]);
    }
    forall i | 0 <= i < |p0.inits|
      ensures Extends(p0.inits[i], p2.inits[i])
    {
      assert Extends(p0.inits[i], p1.inits[i]) && Extends(p1.inits[i], p2.inits[i]);
    }
    forall i | |p0.inits| <= i < |p2.inits|
      ensures Added(p2.inits[i])
    {
      if i < |p1.inits| {
        assert Added(p1.inits[i]) && Extends(p1.inits[i], p2.inits[i]);
      }
    }
    forall i | |p0.volumes| <= i < |p2.volumes|
      ensures p2.volumes[i].source == MemoryDir
    {
      if i < |p1.volumes| {
        assert p2.volumes[i] == p1.volumes[i];
      }
    }
  }

  lemma EnsuresGrow(p: Pod, plan: Plan, image: string, namespace: string)
    ensures Grown(p, EnsureFsGroup(p))
    ensures Grown(p, EnsureVolume(p, plan.volume))
    ensures Grown(p, EnsureInit(p, plan, image, namespace))
    ensures Grown(p, MountAll(p, plan.users, plan.volume, plan.mountPath))
  {
    MountContainersExtend(p.containers, [], plan.users, plan.volume, plan.mountPath);
    MountContainersExtend(p.inits, p.containers, plan.users, plan.volume, plan.mountPath);
  }

  lemma StepGrows(p0: Pod, s: Progress, plan: Plan, image: string, namespace: string)
    requires Grown(p0, s.pod)
    ensures Grown(p0, Step(s, plan, image, namespace).pod)
  {
    var plan' := Flagged(s.pod.annotations, plan);
    var p1 := EnsureFsGroup(s.pod);
    var p2 := EnsureVolume(p1, plan.volume);
    var p3 := EnsureInit(p2, plan', image, namespace);
    EnsuresGrow(s.pod, plan', image, namespace);
    EnsuresGrow(p1, plan', image, namespace);
    EnsuresGrow(p2, plan', image, namespace);
    EnsuresGrow(p3, plan', image, namespace);
    GrownTransitive(p0, s.pod, p1);
    GrownTransitive(p0, p1, p2);
    GrownTransitive(p0, p2, p3);
    GrownTransitive(p0, p3, Step(s, plan, image, namespace).pod);
  }

  lemma {:induction false} RunGrows(s: Progress, plans: seq<Plan>, image: string, namespace: string)
    ensures Grown(s.pod, Run(s, plans, image, namespace).pod)
    decreases |plans|
  {
    if plans != [] {
      RunGrows(s, plans[..|plans| - 1], image, namespace);
      StepGrows(s.pod, Run(s, plans[..|plans| - 1], image, namespace), plans[|plans| - 1], image, namespace);
    }
  }

  // ----- Frame -----

  /** The part of a container that only wrapping may change is its command line. */
  ghost predicate SameButCommand(c: Container, c': Container) {
    c' == c.(command := c'.command, args := c'.args)
  }

  /** What happens to one container of the pod: tracked references leave its environment, mounts are
      added at the end, and only a container with the export annotation gets another command line. */
  ghost predicate Framed(c: Container, c': Container, skip: bool, annotations: map<string, string>,
                         tsecrets: set<string>)
  {
    var kept := StripOne(c, skip, tsecrets);
    && c.mounts <= c'.mounts
    && SameButCommand(kept.(mounts := c'.mounts), c')
    && (!ExportEnabled(annotations, c.name) ==> c'.command == c.command && c'.args == c.args)
  }

  /** Loaders are planned only for containers with the export annotation. */
  ghost predicate LoadersEnabled(s: Progress) {
    forall n :: n in s.loaders ==> ExportEnabled(s.pod.annotations, n)
  }

  lemma {:induction false} RunLoadersEnabled(s: Progress, plans: seq<Plan>, image: string, namespace: string)
    requires LoadersEnabled(s)
    ensures LoadersEnabled(Run(s, plans, image, namespace))
    decreases |plans|
  {
    if plans != [] {
      RunLoadersEnabled(s, plans[..|plans| - 1], image, namespace);
    }
  }

  /** The frame: old volumes, containers and init containers keep their places; appended volumes
      live in memory and appended init containers are injectors. */
  ghost predicate FramedPod(p: Pod, q: Pod, tsecrets: set<string>) {
    && q.annotations == p.annotations
    && (p.fsGroup.Some? ==> q.fsGroup == p.fsGroup)
    && |p.volumes| <= |q.volumes|
    && (forall i :: 0 <= i < |p.volumes| ==> q.volumes[i] == StripVolume(p.volumes[i], tsecrets))
    && (forall i :: |p.volumes| <= i < |q.volumes| ==> q.volumes[i].source == MemoryDir)
    && |p.containers| == |q.containers|
    && (forall i :: 0 <= i < |p.containers| ==>
          Framed(p.containers[i], q.containers[i], false, p.annotations, tsecrets))
    && |p.inits| <= |q.inits|
    && (forall i :: 0 <= i < |p.inits| ==> Framed(p.inits[i], q.inits[i], true, p.annotations, tsecrets))
    && (forall i :: |p.inits| <= i < |q.inits| ==> Added(q.inits[i]))
  }

  lemma NothingTracked(p: Pod, tsecrets: set<string>)
    requires AllRefs(p, tsecrets) == []
    ensures Strip(p, tsecrets) == p
  {
    Untracked(p, tsecrets);
    var q := Strip(p, tsecrets);
    forall i | 0 <= i < |p.containers|
      ensures q.containers[i] == p.containers[i]
    {
      KeepAll(p.containers[i], tsecrets);
    }
    forall i | 0 <= i < |p.inits|
      ensures q.inits[i] == p.inits[i]
    {
      if !IsInjectorName(p.inits[i].name) {
        KeepAll(p.inits[i], tsecrets);
      }
    }
    assert q.volumes == p.volumes && q.containers == p.containers && q.inits == p.inits;
  }

  lemma {:induction false} CollectNonempty(refs: seq<Ref>)
    ensures Collect(refs) == map[] <==> refs == []
  {
    if refs != [] {
      assert KeyOf(refs[|refs| - 1]) in Collect(refs);
    }
  }

  /** The result of an allowed run, without the special case for a pod without plans. */
  lemma AllowedForm(p: Pod, tsecrets: set<string>, image: string, namespace: string, order: seq<Key>)
    requires IsOrder(order, PodPlans(p, tsecrets))
    requires Handle(p, tsecrets, image, namespace, order).Allowed?
    ensures var s := Replay(p, tsecrets, PlansInOrder(PodPlans(p, tsecrets), order), image, namespace);
            Handle(p, tsecrets, image, namespace, order).pod == WrapAll(s.pod, s.loaders)
  {
    var plans := PodPlans(p, tsecrets);
    if plans == map[] {
      CollectNonempty(AllRefs(p, tsecrets));
      NothingTracked(p, tsecrets);
      assert forall i :: 0 <= i < |order| ==> order[i] in order;
      WrapNothing(p);
    }
  }

  lemma WrapNothing(p: Pod)
    ensures WrapAll(p, map[]) == p
  {
    assert WrapContainers(p.containers, [], map[], p.annotations) == p.containers;
    assert WrapContainers(p.inits, p.containers, map[], p.annotations) == p.inits;
  }

  lemma Frame(p: Pod, tsecrets: set<string>, image: string, namespace: string, order: seq<Key>)
    requires IsOrder(order, PodPlans(p, tsecrets))
    requires Handle(p, tsecrets, image, namespace, order).Allowed?
    ensures FramedPod(p, Handle(p, tsecrets, image, namespace, order).pod, tsecrets)
  {
    var plans := PlansInOrder(PodPlans(p, tsecrets), order);
    var s0 := Progress(Strip(p, tsecrets), map[]);
    AllowedForm(p, tsecrets, image, namespace, order);
    RunGrows(s0, plans, image, namespace);
    RunLoadersEnabled(s0, plans, image, namespace);
    FrameOf(p, Run(s0, plans, image, namespace), tsecrets);
  }

  lemma FrameOf(p: Pod, s: Progress, tsecrets: set<string>)
    requires Grown(Strip(p, tsecrets), s.pod) && LoadersEnabled(s)
    ensures FramedPod(p, WrapAll(s.pod, s.loaders), tsecrets)
  {
    var q := WrapAll(s.pod, s.loaders);
    forall i | 0 <= i < |p.containers|
      ensures Framed(p.containers[i], q.containers[i], false, p.annotations, tsecrets)
    {
      FramedOne(p.containers[i], s.pod.containers[i], false, s, tsecrets);
    }
    forall i | 0 <= i < |p.inits|
      ensures Framed(p.inits[i], q.inits[i], true, p.annotations, tsecrets)
    {
      FramedOne(p.inits[i], s.pod.inits[i], true, s, tsecrets);
    }
    forall i | |p.inits| <= i < |q.inits|
      ensures Added(q.inits[i])
    {
      assert Added(s.pod.inits[i]);
      WrapKeeps(s.pod.inits[i], s);
    }
  }

  lemma WrapKeeps(c: Container, s: Progress)
    ensures c.name in s.loaders ==> SameButCommand(c, WrapFound(c, s.loaders, s.pod.annotations))
  {
  }

  /** One container, whether or not it is then wrapped. */
  lemma FramedOne(c: Container, c1: Container, skip: bool, s: Progress, tsecrets: set<string>)
    requires Extends(StripOne(c, skip, tsecrets), c1) && LoadersEnabled(s)
    ensures Framed(c, c1, skip, s.pod.annotations, tsecrets)
    ensures c.name in s.loaders ==>
              Framed(c, WrapFound(c1, s.loaders, s.pod.annotations), skip, s.pod.annotations, tsecrets)
  {
    if c.name in s.loaders {
      WrapKeeps(c1, s);
    }
  }

  lemma {:induction false} RunGroup(s: Progress, plans: seq<Plan>, image: string, namespace: string)
    ensures Run(s, plans, image, namespace).pod.fsGroup
         == if plans == [] || s.pod.fsGroup.Some? then s.pod.fsGroup else Some(FS_GROUP)
    decreases |plans|
  {
    if plans != [] {
      RunGroup(s, plans[..|plans| - 1], image, namespace);
    }
  }

  /** A pod with a reference gets the injector's group, unless it has a group of its own; a pod without
      any keeps what it has. */
  lemma GroupSet(p: Pod, tsecrets: set<string>, image: string, namespace: string, order: seq<Key>)
    requires IsOrder(order, PodPlans(p, tsecrets))
    requires Handle(p, tsecrets, image, namespace, order).Allowed?
    ensures Handle(p, tsecrets, image, namespace, order).pod.fsGroup
         == if p.fsGroup.None? && AllRefs(p, tsecrets) != [] then Some(65532) else p.fsGroup
  {
    CollectNonempty(AllRefs(p, tsecrets));
    AllowedForm(p, tsecrets, image, namespace, order);
    RunGroup(Progress(Strip(p, tsecrets), map[]), PlansInOrder(PodPlans(p, tsecrets), order), image, namespace);
    if AllRefs(p, tsecrets) != [] {
      var k :| k in PodPlans(p, tsecrets);
      assert k in order;
    }
  }

  // ----- Well-formedness -----

  lemma {:induction false} RunWellFormed(s: Progress, plans: seq<Plan>, image: string, namespace: string)
    requires WellFormed(s.pod)
    ensures WellFormed(Run(s, plans, image, namespace).pod)
    decreases |plans|
  {
    if plans != [] {
      RunWellFormed(s, plans[..|plans| - 1], image, namespace);
      StepWellFormed(Run(s, plans[..|plans| - 1], image, namespace), plans[|plans| - 1], image, namespace);
    }
  }

  lemma MoreVolumes(cs: seq<Container>, vs: seq<Volume>, more: seq<Volume>)
    requires MountsDeclared(cs, vs)
    ensures MountsDeclared(cs, vs + more)
  {
    forall i, j | 0 <= i < |cs| && 0 <= j < |cs[i].mounts|
      ensures HasVolume(vs + more, cs[i].mounts[j].name)
    {
      assert HasVolume(vs, cs[i].mounts[j].name);
      var k :| 0 <= k < |vs| && vs[k].name == cs[i].mounts[j].name;
      assert (vs + more)[k].name == cs[i].mounts[j].name;
    }
  }

  lemma MountsStayDeclared(cs: seq<Container>, shadow: seq<Container>, users: set<string>,
                           volume: string, path: string, vs: seq<Volume>)
    requires MountsDeclared(cs, vs) && HasVolume(vs, volume)
    ensures MountsDeclared(MountContainers(cs, shadow, users, volume, path), vs)
  {
  }

  lemma StepWellFormed(s: Progress, plan: Plan, image: string, namespace: string)
    requires WellFormed(s.pod)
    ensures WellFormed(Step(s, plan, image, namespace).pod)
  {
    var p1 := EnsureVolume(EnsureFsGroup(s.pod), plan.volume);
    MoreVolumes(s.pod.containers, s.pod.volumes, [Volume(plan.volume, MemoryDir)]);
    MoreVolumes(s.pod.inits, s.pod.volumes, [Volume(plan.volume, MemoryDir)]);
    assert HasVolume(p1.volumes, plan.volume) by {
      if !HasVolume(s.pod.volumes, plan.volume) {
        assert p1.volumes[|p1.volumes| - 1].name == plan.volume;
      }
    }
    var plan' := Flagged(s.pod.annotations, plan);
    var p2 := EnsureInit(p1, plan', image, namespace);
    MountsStayDeclared(p2.containers, [], plan.users, plan.volume, plan.mountPath, p2.volumes);
    MountsStayDeclared(p2.inits, p2.containers, plan.users, plan.volume, plan.mountPath, p2.volumes);
  }

  /** Volume names stay unique and every mount still names a declared volume. */
  lemma KeepsWellFormed(p: Pod, tsecrets: set<string>, image: string, namespace: string, order: seq<Key>)
    requires IsOrder(order, PodPlans(p, tsecrets))
    requires Handle(p, tsecrets, image, namespace, order).Allowed?
    requires WellFormed(p)
    ensures WellFormed(Handle(p, tsecrets, image, namespace, order).pod)
  {
    hide Handle, WellFormed;
    var s0 := Progress(Strip(p, tsecrets), map[]);
    StripWellFormed(p, tsecrets);
    var plans := PlansInOrder(PodPlans(p, tsecrets), order);
    RunWellFormed(s0, plans, image, namespace);
    AllowedForm(p, tsecrets, image, namespace, order);
    var s := Run(s0, plans, image, namespace);
    WrapWellFormed(s);
  }

  lemma WrapWellFormed(s: Progress)
    requires WellFormed(s.pod)
    ensures WellFormed(WrapAll(s.pod, s.loaders))
  {
    hide WrapFound;
    forall c: Container | c.name in s.loaders
      ensures WrapFound(c, s.loaders, s.pod.annotations).mounts == c.mounts
    {
      WrapKeeps(c, s);
    }
    var q := WrapAll(s.pod, s.loaders);
    assert forall i :: 0 <= i < |q.containers| ==> q.containers[i].mounts == s.pod.containers[i].mounts;
    assert forall i :: 0 <= i < |q.inits| ==> q.inits[i].mounts == s.pod.inits[i].mounts;
  }

  lemma StripWellFormed(p: Pod, tsecrets: set<string>)
    requires WellFormed(p)
    ensures WellFormed(Strip(p, tsecrets))
  {
    var q := Strip(p, tsecrets);
    forall name | HasVolume(p.volumes, name)
      ensures HasVolume(q.volumes, name)
    {
      var k :| 0 <= k < |p.volumes| && p.volumes[k].name == name;
      assert q.volumes[k].name == name;
    }
    assert forall i :: 0 <= i < |q.containers| ==> q.containers[i].mounts == p.containers[i].mounts;
    assert forall i :: 0 <= i < |q.inits| ==> q.inits[i].mounts == p.inits[i].mounts;
  }

  // ----- Nothing is left to do -----

  ghost predicate ContainerClean(c: Container, tsecrets: set<string>) {
    && (forall e :: e in c.envFrom ==> !EnvFromTracked(e, tsecrets))
    && (forall e :: e in c.env ==> !EnvTracked(e, tsecrets))
  }

  /** No scanned place of the pod refers to a TSecret. */
  ghost predicate Clean(p: Pod, tsecrets: set<string>) {
    && (forall v :: v in p.volumes ==> !VolumeTracked(v, tsecrets))
    && (forall c :: c in p.containers ==> ContainerClean(c, tsecrets))
    && (forall c :: c in p.inits && !IsInjectorName(c.name) ==> ContainerClean(c, tsecrets))
  }

  lemma {:induction false} EnvFromRefsEmpty(es: seq<EnvFrom>, user: string, tsecrets: set<string>)
    ensures EnvFromRefs(es, user, tsecrets) == [] <==> forall e :: e in es ==> !EnvFromTracked(e, tsecrets)
  {
    if es != [] {
      EnvFromRefsEmpty(es[..|es| - 1], user, tsecrets);
      assert forall e :: e in es <==> e in es[..|es| - 1] || e == es[|es| - 1];
    }
  }

  lemma {:induction false} EnvRefsEmpty(es: seq<EnvVar>, user: string, tsecrets: set<string>)
    ensures EnvRefs(es, user, tsecrets) == [] <==> forall e :: e in es ==> !EnvTracked(e, tsecrets)
  {
    if es != [] {
      EnvRefsEmpty(es[..|es| - 1], user, tsecrets);
      assert forall e :: e in es <==> e in es[..|es| - 1] || e == es[|es| - 1];
    }
  }

  lemma {:induction false} ContainersRefsEmpty(cs: seq<Container>, skip: bool, tsecrets: set<string>)
    ensures ContainersRefs(cs, skip, tsecrets) == []
       <==> forall c :: c in cs && !(skip && IsInjectorName(c.name)) ==> ContainerClean(c, tsecrets)
  {
    if cs != [] {
      var c := cs[|cs| - 1];
      ContainersRefsEmpty(cs[..|cs| - 1], skip, tsecrets);
      EnvFromRefsEmpty(c.envFrom, c.name, tsecrets);
      EnvRefsEmpty(c.env, c.name, tsecrets);
      assert forall x :: x in cs <==> x in cs[..|cs| - 1] || x == c;
    }
  }

  lemma {:induction false} VolumeRefsEmpty(vs: seq<Volume>, cs: seq<Container>, tsecrets: set<string>)
    ensures VolumeRefs(vs, cs, tsecrets) == [] <==> forall v :: v in vs ==> !VolumeTracked(v, tsecrets)
  {
    if vs != [] {
      VolumeRefsEmpty(vs[..|vs| - 1], cs, tsecrets);
      assert forall v :: v in vs <==> v in vs[..|vs| - 1] || v == vs[|vs| - 1];
    }
  }

  /** The collector finds nothing exactly if no scanned place refers to a TSecret. */
  lemma Untracked(p: Pod, tsecrets: set<string>)
    ensures AllRefs(p, tsecrets) == [] <==> Clean(p, tsecrets)
  {
    VolumeRefsEmpty(p.volumes, p.containers, tsecrets);
    ContainersRefsEmpty(p.containers, false, tsecrets);
    ContainersRefsEmpty(p.inits, true, tsecrets);
  }

  lemma {:induction false} KeepEnvClean(es: seq<EnvVar>, tsecrets: set<string>)
    ensures forall e :: e in KeepEnv(es, tsecrets) <==> e in es && !EnvTracked(e, tsecrets)
    ensures (forall e :: e in es ==> !EnvTracked(e, tsecrets)) ==> KeepEnv(es, tsecrets) == es
  {
    if es != [] {
      KeepEnvClean(es[..|es| - 1], tsecrets);
      assert es == es[..|es| - 1] + [es[|es| - 1]];
    }
  }

  lemma {:induction false} KeepEnvFromClean(es: seq<EnvFrom>, tsecrets: set<string>)
    ensures forall e :: e in KeepEnvFrom(es, tsecrets) <==> e in es && !EnvFromTracked(e, tsecrets)
    ensures (forall e :: e in es ==> !EnvFromTracked(e, tsecrets)) ==> KeepEnvFrom(es, tsecrets) == es
  {
    if es != [] {
      KeepEnvFromClean(es[..|es| - 1], tsecrets);
      assert es == es[..|es| - 1] + [es[|es| - 1]];
    }
  }

  lemma KeepAll(c: Container, tsecrets: set<string>)
    requires ContainerClean(c, tsecrets)
    ensures StripContainer(c, tsecrets) == c
  {
    KeepEnvClean(c.env, tsecrets);
    KeepEnvFromClean(c.envFrom, tsecrets);
  }

  lemma StripClean(c: Container, tsecrets: set<string>)
    ensures ContainerClean(StripContainer(c, tsecrets), tsecrets)
  {
    KeepEnvClean(c.env, tsecrets);
    KeepEnvFromClean(c.envFrom, tsecrets);
  }

  lemma FramedIsClean(p: Pod, q: Pod, tsecrets: set<string>)
    requires FramedPod(p, q, tsecrets)
    ensures Clean(q, tsecrets)
  {
    forall c | c in q.containers
      ensures ContainerClean(c, tsecrets)
    {
      var i :| 0 <= i < |q.containers| && q.containers[i] == c;
      StripClean(p.containers[i], tsecrets);
      assert Framed(p.containers[i], q.containers[i], false, p.annotations, tsecrets);
    }
    forall c | c in q.inits && !IsInjectorName(c.name)
      ensures ContainerClean(c, tsecrets)
    {
      var i :| 0 <= i < |q.inits| && q.inits[i] == c;
      if i < |p.inits| {
        StripClean(p.inits[i], tsecrets);
        assert Framed(p.inits[i], q.inits[i], true, p.annotations, tsecrets);
      }
    }
    forall v | v in q.volumes
      ensures !VolumeTracked(v, tsecrets)
    {
      var i :| 0 <= i < |q.volumes| && q.volumes[i] == v;
    }
  }

  /** Handling the handler's own output finds no references and changes nothing, for every pod and
      every order of the first run. */
  lemma Idempotent(p: Pod, tsecrets: set<string>, image: string, namespace: string, order: seq<Key>)
    requires IsOrder(order, PodPlans(p, tsecrets))
    requires Handle(p, tsecrets, image, namespace, order).Allowed?
    ensures var q := Handle(p, tsecrets, image, namespace, order).pod;
            && PodPlans(q, tsecrets) == map[]
            && IsOrder([], PodPlans(q, tsecrets))
            && Handle(q, tsecrets, image, namespace, []) == Allowed(q)
  {
    var q := Handle(p, tsecrets, image, namespace, order).pod;
    Frame(p, tsecrets, image, namespace, order);
    FramedIsClean(p, q, tsecrets);
    Untracked(q, tsecrets);
  }
}
