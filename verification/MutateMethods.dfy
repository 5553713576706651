/** pkg/webhook/mutate.go as it runs: loops that update the pod in place. Each method is proved
    against the function of the same purpose in module Mutate. */
module MutateMethods {
  import opened Common
  import opened Pods
  import opened Mutate
  import opened MutateClosed
  import opened MutateConfluence
  import ShellText

  /** The decoded pod that a request works on. */
  class PodObject {
    var annotations: map<string, string>
    var fsGroup: Option<int>
    var volumes: seq<Volume>
    var containers: seq<Container>
    var inits: seq<Container>

    ghost function Value(): Pod
      reads this
    {
      Pod(annotations, fsGroup, volumes, containers, inits)
    }

    constructor (p: Pod)
      ensures Value() == p
    {
      annotations, fsGroup := p.annotations, p.fsGroup;
      volumes, containers, inits := p.volumes, p.containers, p.inits;
    }
  }

  /** Where a search by name ends. */
  datatype Place = InContainers(i: nat) | InInits(i: nat) | Nowhere

  ghost predicate FoundAt(p: Pod, name: string, place: Place) {
    match place
    case InContainers(i) => i < |p.containers| && p.containers[i].name == name && IsFirst(p.containers, i)
    case InInits(i) =>
      i < |p.inits| && p.inits[i].name == name && IsFirst(p.inits, i) && !HasContainer(p.containers, name)
    case Nowhere => !HasContainer(p.containers, name) && !HasContainer(p.inits, name)
  }

  method FindIn(cs: seq<Container>, name: string) returns (found: Option<nat>)
    ensures match found
            case Some(i) => i < |cs| && cs[i].name == name && IsFirst(cs, i)
            case None => !HasContainer(cs, name)
  {
    for i := 0 to |cs|
      invariant forall j :: 0 <= j < i ==> cs[j].name != name
    {
      if cs[i].name == name {
        return Some(i);
      }
    }
    return None;
  }

  /** The response: a denial names a container without an entrypoint. */
  datatype Response = Denied(container: string) | Unchanged | Patched

  class TSecretInjector {
    const image: string
    const tsecrets: set<string>

    constructor (image: string, tsecrets: set<string>)
      ensures this.image == (if image == "" then "tsecret:latest" else image) && this.tsecrets == tsecrets
    {
      this.image := if image == "" then "tsecret:latest" else image;
      this.tsecrets := tsecrets;
    }

    // ----- Collecting -----

    method MountPathOf(cs: seq<Container>, volume: string, default: string) returns (path: string)
      ensures path == VolumePath(cs, volume, default)
    {
      path := default;
      for i := 0 to |cs|
        invariant path == VolumePath(cs[..i], volume, default)
      {
        assert cs[..i + 1][..i] == cs[..i];
        ghost var rest := FirstMountPath(cs[i].mounts, volume);
        var ms := cs[i].mounts;
        var j := 0;
        while j < |ms| && !(ms[j].name == volume && ms[j].mountPath != "")
          invariant j <= |ms|
          invariant rest == FirstMountPath(ms[j..], volume)
        {
          assert ms[j..][1..] == ms[j + 1..];
          j := j + 1;
        }
        if j < |ms| {
          path := ms[j].mountPath;
        }
      }
      assert cs[..|cs|] == cs;
    }

    method UsersOf(cs: seq<Container>, volume: string) returns (users: set<string>)
      ensures users == MountUsers(cs, volume)
    {
      users := {};
      for i := 0 to |cs|
        invariant users == set k | 0 <= k < i && HasMount(cs[k].mounts, volume) :: cs[k].name
      {
        if HasMount(cs[i].mounts, volume) {
          users := users + {cs[i].name};
        }
      }
    }

    method CollectVolumes(pod: PodObject) returns (plans: Plans)
      modifies pod
      ensures plans == Collect(VolumeRefs(old(pod.volumes), old(pod.containers), tsecrets))
      ensures pod.Value() == old(pod.Value()).(volumes := StripVolumes(old(pod.volumes), tsecrets))
    {
      ghost var before := pod.Value();
      plans := map[];
      var n := |pod.volumes|;
      for i := 0 to n
        invariant |pod.volumes| == n == |before.volumes|
        invariant forall k :: 0 <= k < i ==> pod.volumes[k] == StripVolume(before.volumes[k], tsecrets)
        invariant forall k :: i <= k < n ==> pod.volumes[k] == before.volumes[k]
        invariant pod.Value() == before.(volumes := pod.volumes)
        invariant plans == Collect(VolumeRefs(before.volumes[..i], before.containers, tsecrets))
      {
        hide AddRef, Collect, VolumeRefs, VolumePath, MountUsers, HasMount;
        var v := pod.volumes[i];
        OneMoreVolume(before.volumes, before.containers, i, tsecrets);
        if VolumeTracked(v, tsecrets) {
          var secret := v.source.secretName;
          var path := MountPathOf(pod.containers, v.name, MountPath(secret));
          var users := UsersOf(pod.containers, v.name);
          var r := Ref(v.name, secret, path, "", users);
          plans := AddRef(plans, r);
          pod.volumes := pod.volumes[i := v.(source := MemoryDir)];
          CollectSnoc(VolumeRefs(before.volumes[..i], before.containers, tsecrets), r);
        } else {
          CollectNothing(VolumeRefs(before.volumes[..i], before.containers, tsecrets));
        }
      }
      assert before.volumes[..n] == before.volumes;
    }

    method CollectEnvFrom(es: seq<EnvFrom>, user: string, plans: Plans, ghost refs: seq<Ref>)
        returns (remaining: seq<EnvFrom>, plans': Plans)
      requires plans == Collect(refs)
      ensures remaining == KeepEnvFrom(es, tsecrets)
      ensures plans' == Collect(refs + EnvFromRefs(es, user, tsecrets))
    {
      remaining, plans' := [], plans;
      assert refs + [] == refs;
      for i := 0 to |es|
        invariant remaining == KeepEnvFrom(es[..i], tsecrets)
        invariant plans' == Collect(refs + EnvFromRefs(es[..i], user, tsecrets))
      {
        assert es[..i + 1][..i] == es[..i];
        ghost var seen := EnvFromRefs(es[..i], user, tsecrets);
        if EnvFromTracked(es[i], tsecrets) {
          var r := EnvRef(es[i].secret, es[i].prefix, user);
          plans' := AddRef(plans', r);
          CollectAfter(refs, seen, r);
          assert remaining + [] == remaining;
        } else {
          remaining := remaining + [es[i]];
          assert seen + [] == seen;
        }
      }
      assert es[..|es|] == es;
    }

    method CollectEnv(es: seq<EnvVar>, user: string, plans: Plans, ghost refs: seq<Ref>)
        returns (remaining: seq<EnvVar>, plans': Plans)
      requires plans == Collect(refs)
      ensures remaining == KeepEnv(es, tsecrets)
      ensures plans' == Collect(refs + EnvRefs(es, user, tsecrets))
    {
      remaining, plans' := [], plans;
      assert refs + [] == refs;
      for i := 0 to |es|
        invariant remaining == KeepEnv(es[..i], tsecrets)
        invariant plans' == Collect(refs + EnvRefs(es[..i], user, tsecrets))
      {
        assert es[..i + 1][..i] == es[..i];
        ghost var seen := EnvRefs(es[..i], user, tsecrets);
        if EnvTracked(es[i], tsecrets) {
          var r := EnvRef(es[i].secret, "", user);
          plans' := AddRef(plans', r);
          CollectAfter(refs, seen, r);
          assert remaining + [] == remaining;
        } else {
          remaining := remaining + [es[i]];
          assert seen + [] == seen;
        }
      }
      assert es[..|es|] == es;
    }

    method CollectFromContainer(c: Container, plans: Plans, ghost refs: seq<Ref>) returns (c': Container, plans': Plans)
      requires plans == Collect(refs)
      ensures c' == StripContainer(c, tsecrets)
      ensures plans' == Collect(refs + ContainerRefs(c, tsecrets))
    {
      hide Collect, EnvFromRefs, EnvRefs;
      var envFrom, plans1 := CollectEnvFrom(c.envFrom, c.name, plans, refs);
      ghost var refs1 := refs + EnvFromRefs(c.envFrom, c.name, tsecrets);
      var env, plans2 := CollectEnv(c.env, c.name, plans1, refs1);
      assert refs1 + EnvRefs(c.env, c.name, tsecrets) == refs + ContainerRefs(c, tsecrets);
      c', plans' := c.(envFrom := envFrom, env := env), plans2;
    }

    method CollectOne(c: Container, skip: bool, plans: Plans, ghost refs: seq<Ref>)
        returns (c': Container, plans': Plans)
      requires plans == Collect(refs)
      ensures c' == StripOne(c, skip, tsecrets)
      ensures plans' == Collect(refs + OneRefs(c, skip, tsecrets))
    {
      if skip && IsInjectorName(c.name) {
        assert refs + [] == refs;
        return c, plans;
      }
      c', plans' := CollectFromContainer(c, plans, refs);
    }

    method CollectContainers(cs: seq<Container>, skip: bool, plans: Plans, ghost refs: seq<Ref>)
        returns (cs': seq<Container>, plans': Plans)
      requires plans == Collect(refs)
      ensures cs' == StripContainers(cs, skip, tsecrets)
      ensures plans' == Collect(refs + ContainersRefs(cs, skip, tsecrets))
    {
      cs', plans' := cs, plans;
      assert refs + [] == refs;
      for i := 0 to |cs|
        invariant cs' == StripContainers(cs[..i], skip, tsecrets) + cs[i..]
        invariant plans' == Collect(refs + ContainersRefs(cs[..i], skip, tsecrets))
      {
        ghost var seen := ContainersRefs(cs[..i], skip, tsecrets);
        assert cs'[i] == cs[i];
        var c, more := CollectOne(cs'[i], skip, plans', refs + seen);
        OneMoreContainer(cs, i, skip, tsecrets, refs);
        cs', plans' := cs'[i := c], more;
      }
      assert cs[..|cs|] == cs;
    }

    /** The collector returns the plans of the pod and takes the references out of it. */
    method CollectInjections(pod: PodObject) returns (plans: Plans)
      modifies pod
      ensures plans == PodPlans(old(pod.Value()), tsecrets)
      ensures pod.Value() == Strip(old(pod.Value()), tsecrets)
    {
      ghost var before := pod.Value();
      plans := CollectVolumes(pod);
      ghost var refs := VolumeRefs(before.volumes, before.containers, tsecrets);
      var cs, plans1 := CollectContainers(pod.containers, false, plans, refs);
      refs := refs + ContainersRefs(before.containers, false, tsecrets);
      var inits, plans2 := CollectContainers(pod.inits, true, plans1, refs);
      pod.containers, pod.inits := cs, inits;
      plans := plans2;
    }

    // ----- Replaying one plan -----

    method EnsurePodFsGroup(pod: PodObject)
      modifies pod
      ensures pod.Value() == EnsureFsGroup(old(pod.Value()))
    {
      if pod.fsGroup.None? {
        pod.fsGroup := Some(FS_GROUP);
      }
    }

    method EnsureMemoryVolume(pod: PodObject, volume: string)
      modifies pod
      ensures pod.Value() == EnsureVolume(old(pod.Value()), volume)
    {
      for i := 0 to |pod.volumes|
        invariant pod.Value() == old(pod.Value())
        invariant forall j :: 0 <= j < i ==> pod.volumes[j].name != volume
      {
        if pod.volumes[i].name == volume {
          return;
        }
      }
      pod.volumes := pod.volumes + [Volume(volume, MemoryDir)];
    }

    method EnsureRuntimeInitContainer(pod: PodObject, plan: Plan, namespace: string)
      modifies pod
      ensures pod.Value() == EnsureInit(old(pod.Value()), plan, image, namespace)
    {
      var name := InitName(plan.volume);
      for i := 0 to |pod.inits|
        invariant pod.Value() == old(pod.Value())
        invariant forall j :: 0 <= j < i ==> pod.inits[j].name != name
      {
        if pod.inits[i].name == name {
          return;
        }
      }
      var args := ["--secret=" + plan.secret, "--mount=" + plan.mountPath, "--namespace=" + namespace];
      if plan.prefix != "" {
        args := args + ["--prefix=" + plan.prefix];
      }
      if plan.exportEnv {
        args := args + ["--export-env"];
      }
      assert args == InjectorArgs(plan, namespace);
      pod.inits := pod.inits + [Container(name, image, INJECT_COMMAND, args, [], [],
                                          [Mount(plan.volume, plan.mountPath, false)], INJECTOR_REST)];
    }

    method FindContainer(pod: PodObject, name: string) returns (place: Place)
      ensures FoundAt(pod.Value(), name, place)
    {
      var i := FindIn(pod.containers, name);
      if i.Some? {
        return InContainers(i.value);
      }
      var j := FindIn(pod.inits, name);
      if j.Some? {
        return InInits(j.value);
      }
      return Nowhere;
    }

    method EnsureVolumeMount(c: Container, volume: string, path: string) returns (c': Container)
      ensures c' == AddMount(c, volume, path)
    {
      for i := 0 to |c.mounts|
        invariant forall j :: 0 <= j < i ==> c.mounts[j].name != volume
      {
        if c.mounts[i].name == volume {
          return c;
        }
      }
      c' := c.(mounts := c.mounts + [Mount(volume, path, true)]);
    }

    /** The users of a plan are visited in any order. */
    method MountInUsers(pod: PodObject, plan: Plan)
      modifies pod
      ensures pod.Value() == MountAll(old(pod.Value()), plan.users, plan.volume, plan.mountPath)
    {
      ghost var before := pod.Value();
      var users := plan.users;
      ghost var done: set<string> := {};
      MountNone(before, plan.volume, plan.mountPath);
      while users != {}
        invariant done == plan.users - users && users <= plan.users
        invariant pod.Value() == MountAll(before, done, plan.volume, plan.mountPath)
        decreases |users|
      {
        var n :| n in users;
        var place := FindContainer(pod, n);
        match place {
          case Nowhere =>
          case InContainers(i) =>
            var c := EnsureVolumeMount(pod.containers[i], plan.volume, plan.mountPath);
            pod.containers := pod.containers[i := c];
          case InInits(i) =>
            var c := EnsureVolumeMount(pod.inits[i], plan.volume, plan.mountPath);
            pod.inits := pod.inits[i := c];
        }
        MountOne(before, done, n, plan.volume, plan.mountPath, place);
        done := done + {n};
        users := users - {n};
      }
      assert done == plan.users;
    }

    method PlanLoader(annotations: map<string, string>, n: string, loaders: Loaders, path: string)
        returns (loaders': Loaders, enabled: bool)
      ensures enabled == ExportEnabled(annotations, n)
      ensures loaders' == WithLoader(loaders, annotations, n, path)
    {
      enabled := ExportEnabled(annotations, n);
      loaders' := if enabled then loaders[n := AppendUnique(LoadersOf(loaders, n), path)] else loaders;
    }

    method PlanLoaders(annotations: map<string, string>, all: set<string>, exported: bool, loaders: Loaders,
                       path: string)
        returns (loaders': Loaders, exportEnv: bool)
      ensures loaders' == AddLoaders(loaders, annotations, all, path)
      ensures exportEnv == (exported || AnyEnabled(annotations, all))
    {
      loaders', exportEnv := loaders, exported;
      var users := all;
      NoLoadersYet(loaders, annotations, all, path);
      while users != {}
        invariant users <= all
        invariant loaders' == AddLoaders(loaders, annotations, all - users, path)
        invariant exportEnv == (exported || AnyEnabled(annotations, all - users))
        decreases |users|
      {
        var n :| n in users;
        var enabled;
        loaders', enabled := PlanLoader(annotations, n, loaders', path);
        exportEnv := exportEnv || enabled;
        OneLoaderMore(loaders, annotations, all, users, n, path);
        users := users - {n};
      }
      assert all - {} == all;
    }

    method ReplayPlan(pod: PodObject, plan: Plan, loaders: Loaders, namespace: string) returns (loaders': Loaders)
      modifies pod
      ensures Progress(pod.Value(), loaders') == Step(Progress(old(pod.Value()), loaders), plan, image, namespace)
    {
      EnsurePodFsGroup(pod);
      EnsureMemoryVolume(pod, plan.volume);
      var exportEnv;
      loaders', exportEnv := PlanLoaders(pod.annotations, plan.users, plan.exportEnv, loaders,
                                         LoaderPath(plan.mountPath));
      EnsureRuntimeInitContainer(pod, plan.(exportEnv := exportEnv), namespace);
      MountInUsers(pod, plan);
    }

    // ----- Wrapping -----

    /** The containers to wrap are visited in any order; the first without an entrypoint stops it. */
    method WrapEntrypoints(pod: PodObject, loaders: Loaders) returns (denied: Option<string>)
      modifies pod
      ensures match denied
              case Some(n) => n in loaders && LacksEntrypoint(old(pod.Value()), n)
              case None => Finish(Progress(old(pod.Value()), loaders)) == Allowed(pod.Value())
    {
      hide AlreadyWrapped, Annotated, ShellText.ShellJoin, ShellText.WrapText, LacksEntrypoint, HasContainer;
      hide WrapAll, Wrap, ResolveEntrypoint, IsFirst;
      ghost var before := pod.Value();
      var names := loaders.Keys;
      ghost var done: set<string> := {};
      WrapNone(before, loaders);
      while names != {}
        invariant done == loaders.Keys - names && names <= loaders.Keys
        invariant pod.Value() == WrapAll(before, Among(loaders, done))
        invariant forall n :: n in done ==> !LacksEntrypoint(before, n)
        decreases |names|
      {
        hide Among;
        var n :| n in names;
        var place := FindContainer(pod, n);
        WrapOne(before, loaders, done, n, place);
        match place {
          case Nowhere =>
          case InContainers(i) =>
            var e := ResolveEntrypoint(pod.annotations, pod.containers[i]);
            if e.None? {
              return Some(n);
            }
            pod.containers := pod.containers[i := Wrap(pod.containers[i], loaders[n], e.value)];
          case InInits(i) =>
            var e := ResolveEntrypoint(pod.annotations, pod.inits[i]);
            if e.None? {
              return Some(n);
            }
            pod.inits := pod.inits[i := Wrap(pod.inits[i], loaders[n], e.value)];
        }
        done := done + {n};
        names := names - {n};
      }
      assert Among(loaders, done) == loaders;
      return None;
    }

    // ----- The handler -----

    /** One admission request. The plans are replayed in some order, reported in `order`; the outcome
        is the one Handle gives for that order. A refusal names a container that cannot be started. */
    method HandleRequest(pod: PodObject, namespace: string) returns (response: Response, ghost order: seq<Key>)
      modifies pod
      ensures IsOrder(order, PodPlans(old(pod.Value()), tsecrets))
      ensures match response
              case Denied(n) =>
                && Handle(old(pod.Value()), tsecrets, image, namespace, order) == Verdict.Denied
                && Unstartable(old(pod.Value()), tsecrets, n)
              case Unchanged =>
                && PodPlans(old(pod.Value()), tsecrets) == map[]
                && Handle(old(pod.Value()), tsecrets, image, namespace, order) == Allowed(old(pod.Value()))
              case Patched =>
                Handle(old(pod.Value()), tsecrets, image, namespace, order) == Allowed(pod.Value())
    {
      order := [];
      var plans := CollectInjections(pod);
      if |plans| == 0 {
        return Unchanged, [];
      }
      var loaders;
      loaders, order := ReplayPlans(pod, plans, namespace);
      var denied := WrapEntrypoints(pod, loaders);
      match denied {
        case Some(n) =>
          StoppedAt(old(pod.Value()), tsecrets, image, namespace, order, n);
          response := Response.Denied(n);
        case None => response := Patched;
      }
    }

    /** The map of plans is iterated in some order. */
    method ReplayPlans(pod: PodObject, plans: Plans, namespace: string)
        returns (loaders: Loaders, ghost order: seq<Key>)
      modifies pod
      ensures IsOrder(order, plans)
      ensures Progress(pod.Value(), loaders)
           == Run(Progress(old(pod.Value()), map[]), PlansInOrder(plans, order), image, namespace)
    {
      hide Step;
      ghost var start := Progress(pod.Value(), map[]);
      loaders, order := map[], [];
      var keys := plans.Keys;
      while keys != {}
        invariant keys <= plans.Keys && NoDup(order)
        invariant forall k :: k in order <==> k in plans.Keys - keys
        invariant Progress(pod.Value(), loaders) == Run(start, PlansInOrder(plans, order), image, namespace)
        decreases |keys|
      {
        var k :| k in keys;
        ghost var before := Progress(pod.Value(), loaders);
        loaders := ReplayPlan(pod, plans[k], loaders, namespace);
        assert Progress(pod.Value(), loaders) == Step(before, plans[k], image, namespace);
        RunOneMore(start, plans, order, k, image, namespace);
        assert plans.Keys - (keys - {k}) == (plans.Keys - keys) + {k};
        order := order + [k];
        keys := keys - {k};
      }
    }
  }

  // ----- Facts the loops need -----

  lemma CollectSnoc(refs: seq<Ref>, r: Ref)
    ensures Collect(refs + [r]) == AddRef(Collect(refs), r)
  {
    assert (refs + [r])[..|refs|] == refs;
  }

  lemma CollectAfter(refs: seq<Ref>, seen: seq<Ref>, r: Ref)
    ensures Collect(refs + (seen + [r])) == AddRef(Collect(refs + seen), r)
  {
    CollectSnoc(refs + seen, r);
    assert refs + seen + [r] == refs + (seen + [r]);
  }

  lemma CollectNothing(refs: seq<Ref>)
    ensures Collect(refs + []) == Collect(refs)
  {
    assert refs + [] == refs;
  }

  lemma OneMoreVolume(vs: seq<Volume>, cs: seq<Container>, i: nat, tsecrets: set<string>)
    requires i < |vs|
    ensures VolumeRefs(vs[..i + 1], cs, tsecrets)
         == VolumeRefs(vs[..i], cs, tsecrets) + (if VolumeTracked(vs[i], tsecrets) then [VolumeRef(vs[i], cs)] else [])
  {
    hide VolumeRef;
    assert vs[..i + 1][..i] == vs[..i];
  }

  function OneRefs(c: Container, skip: bool, tsecrets: set<string>): seq<Ref> {
    if skip && IsInjectorName(c.name) then [] else ContainerRefs(c, tsecrets)
  }

  lemma OneMoreContainer(cs: seq<Container>, i: nat, skip: bool, tsecrets: set<string>, refs: seq<Ref>)
    requires i < |cs|
    ensures refs + ContainersRefs(cs[..i], skip, tsecrets) + OneRefs(cs[i], skip, tsecrets)
         == refs + ContainersRefs(cs[..i + 1], skip, tsecrets)
    ensures (StripContainers(cs[..i], skip, tsecrets) + cs[i..])[i := StripOne(cs[i], skip, tsecrets)]
         == StripContainers(cs[..i + 1], skip, tsecrets) + cs[i + 1..]
  {
    hide StripOne, ContainerRefs, IsInjectorName;
    var seen := ContainersRefs(cs[..i], skip, tsecrets);
    assert cs[..i + 1][..i] == cs[..i];
    assert ContainersRefs(cs[..i + 1], skip, tsecrets) == seen + OneRefs(cs[i], skip, tsecrets);
    assert refs + seen + OneRefs(cs[i], skip, tsecrets) == refs + (seen + OneRefs(cs[i], skip, tsecrets));
    StripOneMore(cs, i, skip, tsecrets);
  }

  lemma StripOneMore(cs: seq<Container>, i: nat, skip: bool, tsecrets: set<string>)
    requires i < |cs|
    ensures (StripContainers(cs[..i], skip, tsecrets) + cs[i..])[i := StripOne(cs[i], skip, tsecrets)]
         == StripContainers(cs[..i + 1], skip, tsecrets) + cs[i + 1..]
  {
    hide StripOne;
    var stripped := StripContainers(cs[..i], skip, tsecrets);
    assert StripContainers(cs[..i + 1], skip, tsecrets) == stripped + [StripOne(cs[i], skip, tsecrets)];
    assert cs[i..] == [cs[i]] + cs[i + 1..];
  }

  lemma RunOneMore(start: Progress, plans: Plans, order: seq<Key>, k: Key, image: string, namespace: string)
    requires k in plans && forall k' :: k' in order ==> k' in plans
    ensures Run(start, PlansInOrder(plans, order + [k]), image, namespace)
         == Step(Run(start, PlansInOrder(plans, order), image, namespace), plans[k], image, namespace)
  {
    hide Step;
    assert PlansInOrder(plans, order + [k])[..|order|] == PlansInOrder(plans, order);
  }

  ghost predicate AnyEnabled(annotations: map<string, string>, names: set<string>) {
    exists n :: n in names && ExportEnabled(annotations, n)
  }

  lemma AnyOneMore(annotations: map<string, string>, names: set<string>, n: string)
    ensures AnyEnabled(annotations, names + {n}) <==> AnyEnabled(annotations, names) || ExportEnabled(annotations, n)
  {
    if ExportEnabled(annotations, n) {
      assert n in names + {n};
    }
  }

  function WithLoader(loaders: Loaders, annotations: map<string, string>, n: string, path: string): Loaders {
    if ExportEnabled(annotations, n) then loaders[n := AppendUnique(LoadersOf(loaders, n), path)] else loaders
  }

  lemma AddOneLoader(loaders: Loaders, annotations: map<string, string>, done: set<string>, n: string, path: string)
    requires n !in done
    ensures AddLoaders(loaders, annotations, done + {n}, path)
         == WithLoader(AddLoaders(loaders, annotations, done, path), annotations, n, path)
  {
  }

  lemma MountNone(p: Pod, volume: string, path: string)
    ensures MountAll(p, {}, volume, path) == p
  {
    assert MountContainers(p.containers, [], {}, volume, path) == p.containers;
    assert MountContainers(p.inits, p.containers, {}, volume, path) == p.inits;
  }

  lemma MountAt(cs: seq<Container>, shadow: seq<Container>, done: set<string>, n: string,
                volume: string, path: string, i: nat)
    requires i < |cs| && cs[i].name == n && IsFirst(cs, i) && !HasContainer(shadow, n) && n !in done
    ensures MountContainers(cs, shadow, done, volume, path)[i] == cs[i]
    ensures MountContainers(cs, shadow, done + {n}, volume, path)
         == MountContainers(cs, shadow, done, volume, path)[i := AddMount(cs[i], volume, path)]
  {
    FirstUnique(cs, n);
  }

  lemma MountNowhere(cs: seq<Container>, shadow: seq<Container>, done: set<string>, n: string,
                     volume: string, path: string)
    requires !HasContainer(cs, n) || HasContainer(shadow, n)
    ensures MountContainers(cs, shadow, done + {n}, volume, path) == MountContainers(cs, shadow, done, volume, path)
  {
    FirstUnique(cs, n);
  }

  lemma WrapAt(cs: seq<Container>, shadow: seq<Container>, loaders: Loaders, done: set<string>, n: string,
               annotations: map<string, string>, i: nat)
    requires i < |cs| && cs[i].name == n && IsFirst(cs, i) && !HasContainer(shadow, n)
    requires n !in done && n in loaders
    ensures WrapContainers(cs, shadow, Among(loaders, done), annotations)[i] == cs[i]
    ensures WrapContainers(cs, shadow, Among(loaders, done + {n}), annotations)
         == WrapContainers(cs, shadow, Among(loaders, done), annotations)[i := WrapFound(cs[i], loaders, annotations)]
  {
    FirstUnique(cs, n);
  }

  lemma WrapNowhere(cs: seq<Container>, shadow: seq<Container>, loaders: Loaders, done: set<string>, n: string,
                    annotations: map<string, string>)
    requires !HasContainer(cs, n) || HasContainer(shadow, n)
    ensures WrapContainers(cs, shadow, Among(loaders, done + {n}), annotations)
         == WrapContainers(cs, shadow, Among(loaders, done), annotations)
  {
    FirstUnique(cs, n);
  }

  ghost predicate OneMore(p: Pod, q: Pod, place: Place, c: Container) {
    match place
    case InContainers(i) => i < |p.containers| && q == p.(containers := p.containers[i := c])
    case InInits(i) => i < |p.inits| && q == p.(inits := p.inits[i := c])
    case Nowhere => q == p
  }

  function At(p: Pod, place: Place): Option<Container> {
    match place
    case InContainers(i) => if i < |p.containers| then Some(p.containers[i]) else None
    case InInits(i) => if i < |p.inits| then Some(p.inits[i]) else None
    case Nowhere => None
  }

  /** Visiting one more user adds the mount to the container found under its name. */
  lemma MountOne(p: Pod, done: set<string>, n: string, volume: string, path: string, place: Place)
    requires FoundAt(MountAll(p, done, volume, path), n, place) && n !in done
    ensures At(p, place) == At(MountAll(p, done, volume, path), place)
    ensures match At(p, place)
            case Some(c) => OneMore(MountAll(p, done, volume, path), MountAll(p, done + {n}, volume, path),
                                    place, AddMount(c, volume, path))
            case None => MountAll(p, done + {n}, volume, path) == MountAll(p, done, volume, path)
  {
    var a := MountAll(p, done, volume, path);
    SameNames(p.containers, a.containers);
    SameNames(p.inits, a.inits);
    match place
    case InContainers(i) =>
      MountAt(p.containers, [], done, n, volume, path, i);
      MountNowhere(p.inits, p.containers, done, n, volume, path);
    case InInits(i) =>
      MountNowhere(p.containers, [], done, n, volume, path);
      MountAt(p.inits, p.containers, done, n, volume, path, i);
    case Nowhere =>
      MountNowhere(p.containers, [], done, n, volume, path);
      MountNowhere(p.inits, p.containers, done, n, volume, path);
  }

  lemma FirstUnique(cs: seq<Container>, n: string)
    ensures forall i, j ::
              (0 <= i < |cs| && 0 <= j < |cs| && cs[i].name == n && cs[j].name == n
               && IsFirst(cs, i) && IsFirst(cs, j)) ==> i == j
    ensures !HasContainer(cs, n) ==> forall i :: 0 <= i < |cs| ==> cs[i].name != n
  {
  }

  lemma NoLoadersYet(loaders: Loaders, annotations: map<string, string>, all: set<string>, path: string)
    ensures AddLoaders(loaders, annotations, all - all, path) == loaders
    ensures !AnyEnabled(annotations, all - all)
  {
    assert all - all == {};
    assert AddLoaders(loaders, annotations, {}, path) == loaders;
  }

  lemma OneLoaderMore(loaders: Loaders, annotations: map<string, string>, all: set<string>, users: set<string>,
                      n: string, path: string)
    requires n in users && users <= all
    ensures AddLoaders(loaders, annotations, all - (users - {n}), path)
         == WithLoader(AddLoaders(loaders, annotations, all - users, path), annotations, n, path)
    ensures AnyEnabled(annotations, all - (users - {n}))
       <==> AnyEnabled(annotations, all - users) || ExportEnabled(annotations, n)
  {
    assert all - (users - {n}) == (all - users) + {n};
    AddOneLoader(loaders, annotations, all - users, n, path);
    AnyOneMore(annotations, all - users, n);
  }

  ghost function Among(loaders: Loaders, names: set<string>): Loaders {
    map n | n in names && n in loaders :: loaders[n]
  }

  lemma WrapNone(p: Pod, loaders: Loaders)
    ensures WrapAll(p, Among(loaders, {})) == p
  {
    assert Among(loaders, {}) == map[];
    assert WrapContainers(p.containers, [], map[], p.annotations) == p.containers;
    assert WrapContainers(p.inits, p.containers, map[], p.annotations) == p.inits;
  }

  /** Visiting one more name wraps the container found under it, if it has an entrypoint. */
  lemma WrapOne(p: Pod, loaders: Loaders, done: set<string>, n: string, place: Place)
    requires FoundAt(WrapAll(p, Among(loaders, done)), n, place) && n !in done && n in loaders
    ensures WrapAll(p, Among(loaders, done)).annotations == p.annotations
    ensures At(p, place) == At(WrapAll(p, Among(loaders, done)), place)
    ensures match At(p, place)
            case Some(c) =>
              && (LacksEntrypoint(p, n) <==> ResolveEntrypoint(p.annotations, c).None?)
              && OneMore(WrapAll(p, Among(loaders, done)), WrapAll(p, Among(loaders, done + {n})),
                         place, WrapFound(c, loaders, p.annotations))
            case None =>
              !LacksEntrypoint(p, n) && WrapAll(p, Among(loaders, done + {n})) == WrapAll(p, Among(loaders, done))
  {
    hide AlreadyWrapped, Annotated, ShellText.ShellJoin, ShellText.WrapText, ResolveEntrypoint;
    var a := WrapAll(p, Among(loaders, done));
    SameNames(p.containers, a.containers);
    SameNames(p.inits, a.inits);
    FirstUnique(p.containers, n);
    FirstUnique(p.inits, n);
    match place
    case InContainers(i) =>
      WrapAt(p.containers, [], loaders, done, n, p.annotations, i);
      WrapNowhere(p.inits, p.containers, loaders, done, n, p.annotations);
    case InInits(i) =>
      WrapNowhere(p.containers, [], loaders, done, n, p.annotations);
      WrapAt(p.inits, p.containers, loaders, done, n, p.annotations, i);
    case Nowhere =>
      WrapNowhere(p.containers, [], loaders, done, n, p.annotations);
      WrapNowhere(p.inits, p.containers, loaders, done, n, p.annotations);
  }
}
