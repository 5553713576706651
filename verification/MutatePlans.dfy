/** What the collector's map of plans holds, in terms of the references in the pod. */
module MutatePlans {
  import opened Common
  import opened Pods
  import opened Mutate
  import opened MutateFrame
  import opened MutateClosed

  // ----- The map of plans, given the references -----

  ghost predicate PlanFits(plan: Plan, k: Key, refs: seq<Ref>) {
    && plan.volume == k.volume && plan.secret == k.secret && !plan.exportEnv
    && (forall n :: n in plan.users <==> exists r :: r in refs && KeyOf(r) == k && n in r.users)
    && (exists r :: r in refs && KeyOf(r) == k && plan.mountPath == r.mountPath)
    && (exists r :: r in refs && KeyOf(r) == k && plan.prefix == r.prefix)
    && (plan.prefix == "" ==> forall r :: r in refs && KeyOf(r) == k ==> r.prefix == "")
  }

  lemma {:induction false} CollectKeys(refs: seq<Ref>)
    ensures forall k :: k in Collect(refs) <==> exists r :: r in refs && KeyOf(r) == k
  {
    if refs != [] {
      var n := |refs| - 1;
      CollectKeys(refs[..n]);
      assert forall r :: r in refs <==> r in refs[..n] || r == refs[n];
    }
  }

  /** One plan per pair of volume and secret that occurs; its users are the users of all references
      with that pair, and its path and prefix come from one of them. */
  lemma {:induction false} CollectFits(refs: seq<Ref>)
    ensures forall k :: k in Collect(refs) <==> exists r :: r in refs && KeyOf(r) == k
    ensures forall k :: k in Collect(refs) ==> PlanFits(Collect(refs)[k], k, refs)
  {
    hide AddRef;
    CollectKeys(refs);
    if refs == [] {
    } else {
      var n := |refs| - 1;
      CollectKeys(refs[..n]);
      CollectFits(refs[..n]);
      forall k | k in Collect(refs)
        ensures PlanFits(Collect(refs)[k], k, refs)
      {
        hide PlanFits;
        AddFits(refs[..n], refs[n], k);
        assert refs == refs[..n] + [refs[n]];
      }
    }
  }

  lemma AddFits(refs: seq<Ref>, r: Ref, k: Key)
    requires forall k :: k in Collect(refs) <==> exists r :: r in refs && KeyOf(r) == k
    requires forall k :: k in Collect(refs) ==> PlanFits(Collect(refs)[k], k, refs)
    requires k in AddRef(Collect(refs), r)
    ensures PlanFits(AddRef(Collect(refs), r)[k], k, refs + [r])
  {
    var all := refs + [r];
    var plan := AddRef(Collect(refs), r)[k];
    assert forall x :: x in all <==> x in refs || x == r;
    if k in Collect(refs) {
      var old0 := Collect(refs)[k];
      var a :| a in refs && KeyOf(a) == k && old0.mountPath == a.mountPath;
      var b :| b in refs && KeyOf(b) == k && old0.prefix == b.prefix;
      assert a in all && b in all;
    }
  }

  /** The first prefix given for a key, and the first path. */
  function FirstPrefix(refs: seq<Ref>, k: Key): string {
    if refs == [] then ""
    else if KeyOf(refs[0]) == k && refs[0].prefix != "" then refs[0].prefix
    else FirstPrefix(refs[1..], k)
  }

  function FirstPath(refs: seq<Ref>, k: Key): string {
    if refs == [] then ""
    else if KeyOf(refs[0]) == k && refs[0].mountPath != "" then refs[0].mountPath
    else FirstPath(refs[1..], k)
  }

  lemma {:induction false} FirstSnoc(refs: seq<Ref>, r: Ref, k: Key)
    ensures FirstPrefix(refs + [r], k)
         == if FirstPrefix(refs, k) != "" then FirstPrefix(refs, k)
            else if KeyOf(r) == k then r.prefix else ""
    ensures FirstPath(refs + [r], k)
         == if FirstPath(refs, k) != "" then FirstPath(refs, k)
            else if KeyOf(r) == k then r.mountPath else ""
  {
    if refs == [] {
      assert ([] + [r])[1..] == [];
    } else {
      FirstSnoc(refs[1..], r, k);
      assert (refs + [r])[1..] == refs[1..] + [r];
    }
  }

  /** For every key, the first non-empty prefix and the first non-empty path win. */
  lemma {:induction false} FirstWins(refs: seq<Ref>, k: Key)
    ensures k !in Collect(refs) ==> FirstPrefix(refs, k) == "" && FirstPath(refs, k) == ""
    ensures k in Collect(refs) ==>
              && Collect(refs)[k].prefix == FirstPrefix(refs, k)
              && Collect(refs)[k].mountPath == FirstPath(refs, k)
  {
    if refs != [] {
      var n := |refs| - 1;
      FirstWins(refs[..n], k);
      FirstSnoc(refs[..n], refs[n], k);
      assert refs == refs[..n] + [refs[n]];
    }
  }

  // ----- The references, given the pod -----

  /** A reference made by a container's environment. */
  ghost predicate EnvReference(c: Container, tsecrets: set<string>, r: Ref) {
    || (exists e :: e in c.envFrom && EnvFromTracked(e, tsecrets) && r == EnvRef(e.secret, e.prefix, c.name))
    || (exists e :: e in c.env && EnvTracked(e, tsecrets) && r == EnvRef(e.secret, "", c.name))
  }

  /** The containers the collector looks at. */
  ghost predicate Scanned(p: Pod, c: Container) {
    c in p.containers || (c in p.inits && !IsInjectorName(c.name))
  }

  /** All references of a pod, spelled out. */
  ghost predicate Reference(p: Pod, tsecrets: set<string>, r: Ref) {
    || (exists v :: v in p.volumes && VolumeTracked(v, tsecrets) && r == VolumeRef(v, p.containers))
    || (exists c :: Scanned(p, c) && EnvReference(c, tsecrets, r))
  }

  lemma {:induction false} InVolumeRefs(vs: seq<Volume>, cs: seq<Container>, tsecrets: set<string>, r: Ref)
    ensures r in VolumeRefs(vs, cs, tsecrets)
       <==> exists v :: v in vs && VolumeTracked(v, tsecrets) && r == VolumeRef(v, cs)
  {
    if vs != [] {
      InVolumeRefs(vs[..|vs| - 1], cs, tsecrets, r);
      assert forall v :: v in vs <==> v in vs[..|vs| - 1] || v == vs[|vs| - 1];
    }
  }

  lemma {:induction false} InEnvFromRefs(es: seq<EnvFrom>, user: string, tsecrets: set<string>, r: Ref)
    ensures r in EnvFromRefs(es, user, tsecrets)
       <==> exists e :: e in es && EnvFromTracked(e, tsecrets) && r == EnvRef(e.secret, e.prefix, user)
  {
    if es != [] {
      InEnvFromRefs(es[..|es| - 1], user, tsecrets, r);
      assert forall e :: e in es <==> e in es[..|es| - 1] || e == es[|es| - 1];
    }
  }

  lemma {:induction false} InEnvRefs(es: seq<EnvVar>, user: string, tsecrets: set<string>, r: Ref)
    ensures r in EnvRefs(es, user, tsecrets)
       <==> exists e :: e in es && EnvTracked(e, tsecrets) && r == EnvRef(e.secret, "", user)
  {
    if es != [] {
      InEnvRefs(es[..|es| - 1], user, tsecrets, r);
      assert forall e :: e in es <==> e in es[..|es| - 1] || e == es[|es| - 1];
    }
  }

  lemma {:induction false} InContainersRefs(cs: seq<Container>, skip: bool, tsecrets: set<string>, r: Ref)
    ensures r in ContainersRefs(cs, skip, tsecrets)
       <==> exists c :: c in cs && !(skip && IsInjectorName(c.name)) && EnvReference(c, tsecrets, r)
  {
    if cs != [] {
      var c := cs[|cs| - 1];
      InContainersRefs(cs[..|cs| - 1], skip, tsecrets, r);
      InEnvFromRefs(c.envFrom, c.name, tsecrets, r);
      InEnvRefs(c.env, c.name, tsecrets, r);
      assert r in ContainerRefs(c, tsecrets) <==> EnvReference(c, tsecrets, r);
      assert forall x :: x in cs <==> x in cs[..|cs| - 1] || x == c;
    }
  }

  /** The collector finds exactly the references of the pod. */
  lemma InAllRefs(p: Pod, tsecrets: set<string>, r: Ref)
    ensures r in AllRefs(p, tsecrets) <==> Reference(p, tsecrets, r)
  {
    InVolumeRefs(p.volumes, p.containers, tsecrets, r);
    InContainersRefs(p.containers, false, tsecrets, r);
    InContainersRefs(p.inits, true, tsecrets, r);
  }

  lemma RefUsersKnown(p: Pod, tsecrets: set<string>, r: Ref, n: string)
    requires r in AllRefs(p, tsecrets) && n in r.users
    ensures HasContainer(p.containers, n) || (HasContainer(p.inits, n) && !IsInjectorName(n))
    ensures r.secret in tsecrets
  {
    InAllRefs(p, tsecrets, r);
    if v :| v in p.volumes && VolumeTracked(v, tsecrets) && r == VolumeRef(v, p.containers) {
    } else {
      var c :| Scanned(p, c) && EnvReference(c, tsecrets, r);
      assert c.name == n;
    }
  }

  lemma RefSecretTracked(p: Pod, tsecrets: set<string>, r: Ref)
    requires r in AllRefs(p, tsecrets)
    ensures r.secret in tsecrets
  {
    InAllRefs(p, tsecrets, r);
  }

  // ----- Plans in some order -----

  /** No two references demand one volume for different secrets. */
  ghost predicate NoVolumeClash(p: Pod, tsecrets: set<string>) {
    forall r, r' :: r in AllRefs(p, tsecrets) && r' in AllRefs(p, tsecrets) && r.volume == r'.volume
               ==> r.secret == r'.secret
  }

  lemma PlanOf(p: Pod, tsecrets: set<string>, k: Key)
    requires k in PodPlans(p, tsecrets)
    ensures PlanFits(PodPlans(p, tsecrets)[k], k, AllRefs(p, tsecrets))
    ensures exists r :: r in AllRefs(p, tsecrets) && KeyOf(r) == k
  {
    CollectFits(AllRefs(p, tsecrets));
  }

  lemma RefHasPlan(p: Pod, tsecrets: set<string>, r: Ref)
    requires r in AllRefs(p, tsecrets)
    ensures KeyOf(r) in PodPlans(p, tsecrets)
    ensures r.users <= PodPlans(p, tsecrets)[KeyOf(r)].users
  {
    CollectFits(AllRefs(p, tsecrets));
    assert PlanFits(PodPlans(p, tsecrets)[KeyOf(r)], KeyOf(r), AllRefs(p, tsecrets));
  }

  lemma OrderedDistinct(p: Pod, tsecrets: set<string>, order: seq<Key>)
    requires IsOrder(order, PodPlans(p, tsecrets)) && NoVolumeClash(p, tsecrets)
    ensures DistinctVolumes(PlansInOrder(PodPlans(p, tsecrets), order))
  {
    var ps := PlansInOrder(PodPlans(p, tsecrets), order);
    forall i, j | 0 <= i < j < |ps|
      ensures ps[i].volume != ps[j].volume
    {
      assert order[i] in order && order[j] in order;
      PlanOf(p, tsecrets, order[i]);
      PlanOf(p, tsecrets, order[j]);
      var r :| r in AllRefs(p, tsecrets) && KeyOf(r) == order[i];
      var r' :| r' in AllRefs(p, tsecrets) && KeyOf(r') == order[j];
      assert order[i] != order[j];
    }
  }

  lemma OrderedUsersKnown(p: Pod, tsecrets: set<string>, order: seq<Key>)
    requires IsOrder(order, PodPlans(p, tsecrets))
    ensures UsersKnown(Strip(p, tsecrets), PlansInOrder(PodPlans(p, tsecrets), order))
  {
    var q := Strip(p, tsecrets);
    var ps := PlansInOrder(PodPlans(p, tsecrets), order);
    SameNames(p.containers, q.containers);
    SameNames(p.inits, q.inits);
    forall plan, n | plan in ps && n in plan.users
      ensures HasContainer(q.containers, n) || (HasContainer(q.inits, n) && !IsInjectorName(n))
    {
      var i :| 0 <= i < |ps| && ps[i] == plan;
      assert order[i] in order;
      PlanOf(p, tsecrets, order[i]);
      var r :| r in AllRefs(p, tsecrets) && KeyOf(r) == order[i] && n in r.users;
      RefUsersKnown(p, tsecrets, r, n);
    }
  }

  /** The plans replayed do not depend on the order, only their sequence does. */
  lemma OrderedMembers(p: Pod, tsecrets: set<string>, order: seq<Key>, plan: Plan)
    requires IsOrder(order, PodPlans(p, tsecrets))
    ensures plan in PlansInOrder(PodPlans(p, tsecrets), order)
       <==> plan in PodPlans(p, tsecrets).Values
  {
    var plans := PodPlans(p, tsecrets);
    var ps := PlansInOrder(plans, order);
    if plan in ps {
      var i :| 0 <= i < |ps| && ps[i] == plan;
      assert order[i] in plans;
    }
    if plan in plans.Values {
      var k :| k in plans && plans[k] == plan;
      assert k in order;
      var i :| 0 <= i < |order| && order[i] == k;
      assert ps[i] == plan;
    }
  }

  function OrderedPlans(p: Pod, tsecrets: set<string>, order: seq<Key>): seq<Plan>
    requires forall k :: k in order ==> k in PodPlans(p, tsecrets)
  {
    PlansInOrder(PodPlans(p, tsecrets), order)
  }

  /** Without volume clashes, the result of an allowed run in closed form. */
  lemma AllowedClosed(p: Pod, tsecrets: set<string>, image: string, namespace: string, order: seq<Key>)
    requires IsOrder(order, PodPlans(p, tsecrets)) && NoVolumeClash(p, tsecrets)
    requires Handle(p, tsecrets, image, namespace, order).Allowed?
    ensures var s := Closed(Strip(p, tsecrets), OrderedPlans(p, tsecrets, order), image, namespace);
            Handle(p, tsecrets, image, namespace, order).pod == WrapAll(s.pod, s.loaders)
  {
    OrderedDistinct(p, tsecrets, order);
    OrderedUsersKnown(p, tsecrets, order);
    RunClosed(Strip(p, tsecrets), OrderedPlans(p, tsecrets, order), image, namespace);
    AllowedForm(p, tsecrets, image, namespace, order);
  }

  lemma StripNames(p: Pod, tsecrets: set<string>)
    ensures forall i :: 0 <= i < |p.containers| ==>
              (IsFirst(p.containers, i) <==> IsFirst(Strip(p, tsecrets).containers, i))
    ensures forall i :: 0 <= i < |p.inits| ==>
              (IsFirst(p.inits, i) <==> IsFirst(Strip(p, tsecrets).inits, i))
    ensures forall n :: HasContainer(p.containers, n) <==> HasContainer(Strip(p, tsecrets).containers, n)
    ensures forall n :: HasContainer(p.inits, n) <==> HasContainer(Strip(p, tsecrets).inits, n)
  {
    SameNames(p.containers, Strip(p, tsecrets).containers);
    SameNames(p.inits, Strip(p, tsecrets).inits);
  }
}
