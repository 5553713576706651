/** What an admitted pod keeps of the sources and literals of its containers and of its volumes, without the
    handler's own terms: everything but the references to TSecrets, in order. */
module MutateKept {
  import opened Common
  import opened Pods
  import opened Mutate
  import opened MutateFrame
  import opened MutatePlans

  predicate FromTSecret(e: EnvFrom, tsecrets: set<string>) {
    e.SecretEnvFrom? && e.secret in tsecrets
  }

  predicate OfTSecret(e: EnvVar, tsecrets: set<string>) {
    e.SecretKeyEnv? && e.secret in tsecrets
  }

  /** a is b with some elements left out. */
  predicate Subsequence<T(==)>(a: seq<T>, b: seq<T>) {
    if a == [] then true
    else if b == [] then false
    else if a[|a| - 1] == b[|b| - 1] then Subsequence(a[..|a| - 1], b[..|b| - 1])
    else Subsequence(a, b[..|b| - 1])
  }

  lemma {:induction false} SubsequenceSkip<T>(a: seq<T>, b: seq<T>, x: T)
    requires Subsequence(a, b)
    ensures Subsequence(a, b + [x])
    decreases |b|, 1
  {
    var n := |b|;
    assert (b + [x])[..n] == b;
    if a != [] && a[|a| - 1] == x {
      SubsequenceFront(a, b);
    }
  }

  lemma {:induction false} SubsequenceFront<T>(a: seq<T>, b: seq<T>)
    requires a != [] && Subsequence(a, b)
    ensures Subsequence(a[..|a| - 1], b)
    decreases |b|, 0
  {
    var front, n := a[..|a| - 1], |b| - 1;
    if a[|a| - 1] == b[n] {
      SubsequenceSkip(front, b[..n], b[n]);
    } else {
      SubsequenceFront(a, b[..n]);
      SubsequenceSkip(front, b[..n], b[n]);
    }
    assert b[..n] + [b[n]] == b;
  }

  lemma SubsequenceTake<T>(a: seq<T>, b: seq<T>, x: T)
    requires Subsequence(a, b)
    ensures Subsequence(a + [x], b + [x])
  {
    assert (a + [x])[..|a|] == a && (b + [x])[..|b|] == b;
  }

  /** The sources that are left: in order, each as often as before, none of them a TSecret. */
  ghost predicate KeptSources(es: seq<EnvFrom>, kept: seq<EnvFrom>, tsecrets: set<string>) {
    && Subsequence(kept, es)
    && forall e :: multiset(kept)[e] == if FromTSecret(e, tsecrets) then 0 else multiset(es)[e]
  }

  ghost predicate KeptLiterals(es: seq<EnvVar>, kept: seq<EnvVar>, tsecrets: set<string>) {
    && Subsequence(kept, es)
    && forall e :: multiset(kept)[e] == if OfTSecret(e, tsecrets) then 0 else multiset(es)[e]
  }

  lemma {:induction false} SourcesKept(es: seq<EnvFrom>, tsecrets: set<string>)
    ensures KeptSources(es, KeepEnvFrom(es, tsecrets), tsecrets)
  {
    if es == [] {
    } else {
      var n := |es| - 1;
      var kept := KeepEnvFrom(es[..n], tsecrets);
      SourcesKept(es[..n], tsecrets);
      assert es == es[..n] + [es[n]];
      if FromTSecret(es[n], tsecrets) {
        assert KeepEnvFrom(es, tsecrets) == kept + [] == kept;
        SubsequenceSkip(kept, es[..n], es[n]);
      } else {
        assert KeepEnvFrom(es, tsecrets) == kept + [es[n]];
        SubsequenceTake(kept, es[..n], es[n]);
      }
    }
  }

  lemma {:induction false} LiteralsKept(es: seq<EnvVar>, tsecrets: set<string>)
    ensures KeptLiterals(es, KeepEnv(es, tsecrets), tsecrets)
  {
    if es == [] {
    } else {
      var n := |es| - 1;
      var kept := KeepEnv(es[..n], tsecrets);
      LiteralsKept(es[..n], tsecrets);
      assert es == es[..n] + [es[n]];
      if OfTSecret(es[n], tsecrets) {
        assert KeepEnv(es, tsecrets) == kept + [] == kept;
        SubsequenceSkip(kept, es[..n], es[n]);
      } else {
        assert KeepEnv(es, tsecrets) == kept + [es[n]];
        SubsequenceTake(kept, es[..n], es[n]);
      }
    }
  }

  /** The container keeps its name, image and remaining fields, its mounts, and all but the TSecrets of its
      environment. */
  ghost predicate KeptContainer(c: Container, c': Container, tsecrets: set<string>) {
    && c'.name == c.name && c'.image == c.image && c'.rest == c.rest && c.mounts <= c'.mounts
    && KeptSources(c.envFrom, c'.envFrom, tsecrets) && KeptLiterals(c.env, c'.env, tsecrets)
  }

  lemma FramedKeeps(c: Container, c': Container, skip: bool, annotations: map<string, string>, tsecrets: set<string>)
    requires Framed(c, c', skip, annotations, tsecrets) && !(skip && IsInjectorName(c.name))
    ensures KeptContainer(c, c', tsecrets)
  {
    hide KeptSources, KeptLiterals;
    SourcesKept(c.envFrom, tsecrets);
    LiteralsKept(c.env, tsecrets);
  }

  /** For every admitted pod and every order: a volume that stood for a TSecret is a memory volume, every
      other volume is as it was, and every container keeps what is its own. An init container with the name
      of an injector keeps even its references. */
  lemma Kept(p: Pod, tsecrets: set<string>, image: string, namespace: string, order: seq<Key>)
    requires IsOrder(order, PodPlans(p, tsecrets))
    requires Handle(p, tsecrets, image, namespace, order).Allowed?
    ensures var q := Handle(p, tsecrets, image, namespace, order).pod;
            && |p.volumes| <= |q.volumes| && |p.containers| == |q.containers| && |p.inits| <= |q.inits|
            && (forall i :: 0 <= i < |p.volumes| ==>
                  q.volumes[i] == if p.volumes[i].source.SecretSource? && p.volumes[i].source.secretName in tsecrets
                                  then Volume(p.volumes[i].name, MemoryDir) else p.volumes[i])
            && (forall i :: 0 <= i < |p.containers| ==> KeptContainer(p.containers[i], q.containers[i], tsecrets))
            && (forall i :: 0 <= i < |p.inits| ==>
                  if "tsecret-init-" <= p.inits[i].name
                  then q.inits[i].envFrom == p.inits[i].envFrom && q.inits[i].env == p.inits[i].env
                  else KeptContainer(p.inits[i], q.inits[i], tsecrets))
  {
    hide Handle, Framed, KeptContainer;
    Frame(p, tsecrets, image, namespace, order);
    var q := Handle(p, tsecrets, image, namespace, order).pod;
    forall i | 0 <= i < |p.containers|
      ensures KeptContainer(p.containers[i], q.containers[i], tsecrets)
    {
      FramedKeeps(p.containers[i], q.containers[i], false, p.annotations, tsecrets);
    }
    forall i | 0 <= i < |p.inits|
      ensures if "tsecret-init-" <= p.inits[i].name
              then q.inits[i].envFrom == p.inits[i].envFrom && q.inits[i].env == p.inits[i].env
              else KeptContainer(p.inits[i], q.inits[i], tsecrets)
    {
      if "tsecret-init-" <= p.inits[i].name {
        InjectorUntouched(p.inits[i], q.inits[i], p.annotations, tsecrets);
      } else {
        FramedKeeps(p.inits[i], q.inits[i], true, p.annotations, tsecrets);
      }
    }
  }

  lemma InjectorUntouched(c: Container, c': Container, annotations: map<string, string>, tsecrets: set<string>)
    requires Framed(c, c', true, annotations, tsecrets) && IsInjectorName(c.name)
    ensures c'.envFrom == c.envFrom && c'.env == c.env
  {
  }
}
