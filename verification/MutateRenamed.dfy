/** The names of variables that take one key of a TSecret: the handler does not look at them. */
module MutateRenamed {
  import opened Common
  import opened Pods
  import opened Mutate
  import opened MutateFrame

  /** es' is es with other names given to variables that take one key of a TSecret. */
  ghost predicate Renamed(es: seq<EnvVar>, es': seq<EnvVar>, tsecrets: set<string>) {
    && |es| == |es'|
    && forall i :: 0 <= i < |es| ==>
         || es[i] == es'[i]
         || (EnvTracked(es[i], tsecrets) && EnvTracked(es'[i], tsecrets) && es[i].secret == es'[i].secret)
  }

  ghost predicate RenamedContainers(cs: seq<Container>, cs': seq<Container>, tsecrets: set<string>) {
    && |cs| == |cs'|
    && forall i :: 0 <= i < |cs| ==>
         cs'[i] == cs[i].(env := cs'[i].env) && Renamed(cs[i].env, cs'[i].env, tsecrets)
  }

  /** p' is p with such names changed in containers and scanned init containers. */
  ghost predicate RenamedPod(p: Pod, p': Pod, tsecrets: set<string>) {
    && p' == p.(containers := p'.containers, inits := p'.inits)
    && RenamedContainers(p.containers, p'.containers, tsecrets)
    && RenamedContainers(p.inits, p'.inits, tsecrets)
    && forall i :: 0 <= i < |p.inits| && IsInjectorName(p.inits[i].name) ==> p'.inits[i] == p.inits[i]
  }

  lemma {:induction false} SameEnv(es: seq<EnvVar>, es': seq<EnvVar>, user: string, tsecrets: set<string>)
    requires Renamed(es, es', tsecrets)
    ensures EnvRefs(es, user, tsecrets) == EnvRefs(es', user, tsecrets)
    ensures KeepEnv(es, tsecrets) == KeepEnv(es', tsecrets)
  {
    if es != [] {
      SameEnv(es[..|es| - 1], es'[..|es'| - 1], user, tsecrets);
    }
  }

  lemma {:induction false} SameRefs(cs: seq<Container>, cs': seq<Container>, skip: bool, tsecrets: set<string>)
    requires RenamedContainers(cs, cs', tsecrets)
    ensures ContainersRefs(cs, skip, tsecrets) == ContainersRefs(cs', skip, tsecrets)
  {
    hide IsInjectorName, Renamed, EnvRefs, EnvFromRefs;
    if cs != [] {
      var n := |cs| - 1;
      SameRefs(cs[..n], cs'[..n], skip, tsecrets);
      SameEnv(cs[n].env, cs'[n].env, cs[n].name, tsecrets);
    }
  }

  lemma {:induction false} SamePath(cs: seq<Container>, cs': seq<Container>, volume: string, default: string)
    requires |cs| == |cs'| && forall i :: 0 <= i < |cs| ==> cs[i].mounts == cs'[i].mounts
    ensures VolumePath(cs, volume, default) == VolumePath(cs', volume, default)
  {
    if cs != [] {
      SamePath(cs[..|cs| - 1], cs'[..|cs| - 1], volume, default);
    }
  }

  lemma SameVolumeRef(v: Volume, cs: seq<Container>, cs': seq<Container>)
    requires v.source.SecretSource? && |cs| == |cs'|
    requires forall i :: 0 <= i < |cs| ==> cs[i].mounts == cs'[i].mounts && cs[i].name == cs'[i].name
    ensures VolumeRef(v, cs) == VolumeRef(v, cs')
  {
    SamePath(cs, cs', v.name, MountPath(v.source.secretName));
  }

  lemma {:induction false} SameVolumeRefs(vs: seq<Volume>, cs: seq<Container>, cs': seq<Container>,
                                          tsecrets: set<string>)
    requires |cs| == |cs'|
    requires forall i :: 0 <= i < |cs| ==> cs[i].mounts == cs'[i].mounts && cs[i].name == cs'[i].name
    ensures VolumeRefs(vs, cs, tsecrets) == VolumeRefs(vs, cs', tsecrets)
  {
    hide VolumeRef;
    if vs != [] {
      var v := vs[|vs| - 1];
      SameVolumeRefs(vs[..|vs| - 1], cs, cs', tsecrets);
      if VolumeTracked(v, tsecrets) {
        SameVolumeRef(v, cs, cs');
      }
    }
  }

  lemma SameStrip(cs: seq<Container>, cs': seq<Container>, skip: bool, tsecrets: set<string>)
    requires RenamedContainers(cs, cs', tsecrets)
    requires forall i :: 0 <= i < |cs| && skip && IsInjectorName(cs[i].name) ==> cs'[i] == cs[i]
    ensures StripContainers(cs, skip, tsecrets) == StripContainers(cs', skip, tsecrets)
  {
    hide IsInjectorName, Renamed, KeepEnv, KeepEnvFrom;
    forall i | 0 <= i < |cs|
      ensures StripOne(cs[i], skip, tsecrets) == StripOne(cs'[i], skip, tsecrets)
    {
      SameEnv(cs[i].env, cs'[i].env, cs[i].name, tsecrets);
    }
  }

  /** A pod without references has nothing that could be renamed. */
  lemma NothingRenamed(p: Pod, p': Pod, tsecrets: set<string>)
    requires RenamedPod(p, p', tsecrets) && AllRefs(p, tsecrets) == []
    ensures p == p'
  {
    Untracked(p, tsecrets);
    forall i | 0 <= i < |p.containers|
      ensures p'.containers[i] == p.containers[i]
    {
      assert p.containers[i] in p.containers;
      NotRenamed(p.containers[i], p'.containers[i], tsecrets);
    }
    forall i | 0 <= i < |p.inits|
      ensures p'.inits[i] == p.inits[i]
    {
      assert p.inits[i] in p.inits;
      if !IsInjectorName(p.inits[i].name) {
        NotRenamed(p.inits[i], p'.inits[i], tsecrets);
      }
    }
    assert p.containers == p'.containers && p.inits == p'.inits;
  }

  lemma NotRenamed(c: Container, c': Container, tsecrets: set<string>)
    requires c' == c.(env := c'.env) && Renamed(c.env, c'.env, tsecrets) && ContainerClean(c, tsecrets)
    ensures c == c'
  {
    assert forall i :: 0 <= i < |c.env| ==> c.env[i] in c.env;
    assert c.env == c'.env;
  }

  /** The verdict and the admitted pod are the same whatever these names are, so nothing in the admitted pod
      could give a variable its name back. */
  lemma VariableNameForgotten(p: Pod, p': Pod, tsecrets: set<string>, image: string, namespace: string, order: seq<Key>)
    requires RenamedPod(p, p', tsecrets) && IsOrder(order, PodPlans(p, tsecrets))
    ensures IsOrder(order, PodPlans(p', tsecrets))
    ensures Handle(p, tsecrets, image, namespace, order) == Handle(p', tsecrets, image, namespace, order)
  {
    hide Finish, Replay, StripContainers, IsInjectorName;
    SameVolumeRefs(p.volumes, p.containers, p'.containers, tsecrets);
    SameRefs(p.containers, p'.containers, false, tsecrets);
    SameRefs(p.inits, p'.inits, true, tsecrets);
    assert AllRefs(p, tsecrets) == AllRefs(p', tsecrets);
    SameStrip(p.containers, p'.containers, false, tsecrets);
    SameStrip(p.inits, p'.inits, true, tsecrets);
    assert Strip(p, tsecrets) == Strip(p', tsecrets);
    ReplayAlike(p, p', tsecrets, order, image, namespace);
    CollectNonempty(AllRefs(p, tsecrets));
    if AllRefs(p, tsecrets) == [] {
      NothingRenamed(p, p', tsecrets);
    }
  }

  lemma ReplayAlike(p: Pod, p': Pod, tsecrets: set<string>, order: seq<Key>, image: string, namespace: string)
    requires Strip(p, tsecrets) == Strip(p', tsecrets) && PodPlans(p, tsecrets) == PodPlans(p', tsecrets)
    requires forall k :: k in order ==> k in PodPlans(p, tsecrets)
    ensures Replay(p, tsecrets, PlansInOrder(PodPlans(p, tsecrets), order), image, namespace)
         == Replay(p', tsecrets, PlansInOrder(PodPlans(p', tsecrets), order), image, namespace)
  {
    hide Run, Strip;
  }
}
