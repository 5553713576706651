/** The converse of confluence: when two plans share a volume, the order decides which secret the
    only injector of that volume fetches. */
module MutateDivergence {
  import opened Common
  import opened Pods
  import opened Mutate
  import opened MutateFrame
  import opened MutateClosed
  import opened MutatePlans
  import opened MutateConfluence

  /** The volume's injector exists, and whatever has its name has these arguments. */
  ghost predicate Owned(inits: seq<Container>, volume: string, args: seq<string>) {
    && HasContainer(inits, InitName(volume))
    && forall i :: 0 <= i < |inits| && inits[i].name == InitName(volume) ==> inits[i].args == args
  }

  lemma MountsKeepOwner(cs: seq<Container>, shadow: seq<Container>, users: set<string>, v: string, path: string,
                        volume: string, args: seq<string>)
    requires Owned(cs, volume, args)
    ensures Owned(MountContainers(cs, shadow, users, v, path), volume, args)
  {
    SameNames(cs, MountContainers(cs, shadow, users, v, path));
  }

  lemma InitKeepsOwner(p: Pod, plan: Plan, image: string, namespace: string, volume: string, args: seq<string>)
    requires Owned(p.inits, volume, args)
    ensures Owned(EnsureInit(p, plan, image, namespace).inits, volume, args)
  {
    var inits := EnsureInit(p, plan, image, namespace).inits;
    var i :| 0 <= i < |p.inits| && p.inits[i].name == InitName(volume);
    assert inits[i].name == InitName(volume);
    InitNameInjective(plan.volume, volume);
  }

  lemma StepKeepsOwner(s: Progress, plan: Plan, image: string, namespace: string, volume: string, args: seq<string>)
    requires Owned(s.pod.inits, volume, args)
    ensures Owned(Step(s, plan, image, namespace).pod.inits, volume, args)
  {
    var p2 := EnsureVolume(EnsureFsGroup(s.pod), plan.volume);
    var p3 := EnsureInit(p2, Flagged(s.pod.annotations, plan), image, namespace);
    InitKeepsOwner(p2, Flagged(s.pod.annotations, plan), image, namespace, volume, args);
    MountsKeepOwner(p3.inits, p3.containers, plan.users, plan.volume, plan.mountPath, volume, args);
  }

  /** The first plan of a volume owns the injector. */
  lemma FirstOwns(s: Progress, plan: Plan, image: string, namespace: string)
    requires !HasContainer(s.pod.inits, InitName(plan.volume))
    ensures Owned(Step(s, plan, image, namespace).pod.inits, plan.volume,
                  InjectorArgs(Flagged(s.pod.annotations, plan), namespace))
  {
    var p2 := EnsureVolume(EnsureFsGroup(s.pod), plan.volume);
    var plan' := Flagged(s.pod.annotations, plan);
    var p3 := EnsureInit(p2, plan', image, namespace);
    InjectorName(s.pod.annotations, plan, image, namespace);
    assert p3.inits[|p2.inits|] == Injector(plan', image, namespace);
    assert Owned(p3.inits, plan.volume, InjectorArgs(plan', namespace));
    MountsKeepOwner(p3.inits, p3.containers, plan.users, plan.volume, plan.mountPath,
                    plan.volume, InjectorArgs(plan', namespace));
  }

  lemma {:induction false} RunOwned(s: Progress, plan: Plan, rest: seq<Plan>, image: string, namespace: string)
    requires !HasContainer(s.pod.inits, InitName(plan.volume))
    ensures Owned(Run(s, [plan] + rest, image, namespace).pod.inits, plan.volume,
                  InjectorArgs(Flagged(s.pod.annotations, plan), namespace))
    decreases |rest|
  {
    hide Step, Flagged, InjectorArgs, Owned, HasContainer, InitName;
    var ps := [plan] + rest;
    if rest == [] {
      assert ps[..0] == [] && ps[0] == plan;
      FirstOwns(s, plan, image, namespace);
    } else {
      var n := |rest| - 1;
      RunOwned(s, plan, rest[..n], image, namespace);
      assert ps[..|ps| - 1] == [plan] + rest[..n];
      StepKeepsOwner(Run(s, [plan] + rest[..n], image, namespace), rest[n], image, namespace,
                     plan.volume, InjectorArgs(Flagged(s.pod.annotations, plan), namespace));
    }
  }

  /** A pod after a run in which the given plan came first. */
  lemma OwnedAfter(p: Pod, tsecrets: set<string>, image: string, namespace: string, order: seq<Key>)
    requires IsOrder(order, PodPlans(p, tsecrets)) && order != []
    requires Handle(p, tsecrets, image, namespace, order).Allowed?
    requires !HasContainer(p.inits, InitName(order[0].volume))
    ensures order[0] in PodPlans(p, tsecrets)
    ensures Owned(Handle(p, tsecrets, image, namespace, order).pod.inits, order[0].volume,
                  InjectorArgs(Flagged(p.annotations, PodPlans(p, tsecrets)[order[0]]), namespace))
  {
    assert order[0] in order;
    var q := Strip(p, tsecrets);
    var ps := OrderedPlans(p, tsecrets, order);
    var s0 := Progress(q, map[]);
    PlanOf(p, tsecrets, order[0]);
    StripNames(p, tsecrets);
    assert ps == [ps[0]] + ps[1..];
    RunOwned(s0, ps[0], ps[1..], image, namespace);
    AllowedForm(p, tsecrets, image, namespace, order);
    RunGrows(s0, ps, image, namespace);
    RunLoaders(s0, ps, image, namespace);
    OrderedUsersKnown(p, tsecrets, order);
    WrapKeepsOwner(q, ps, Run(s0, ps, image, namespace), order[0].volume,
                   InjectorArgs(Flagged(p.annotations, ps[0]), namespace));
  }

  lemma WrapKeepsOwner(q: Pod, ps: seq<Plan>, s: Progress, volume: string, args: seq<string>)
    requires UsersKnown(q, ps) && Grown(q, s.pod) && s.loaders == ClosedLoaders(ps, q.annotations)
    requires Owned(s.pod.inits, volume, args)
    ensures Owned(WrapAll(s.pod, s.loaders).inits, volume, args)
  {
    var out := WrapAll(s.pod, s.loaders).inits;
    SameNames(s.pod.inits, out);
    SameNames(q.containers, s.pod.containers);
    assert IsInjectorName(InitName(volume));
  }

  /** Two different keys with one volume, whose injector name is free: some two orders differ. */
  lemma Divergent(p: Pod, tsecrets: set<string>, image: string, namespace: string, k1: Key, k2: Key)
      returns (o1: seq<Key>, o2: seq<Key>)
    requires k1 in PodPlans(p, tsecrets) && k2 in PodPlans(p, tsecrets)
    requires k1 != k2 && k1.volume == k2.volume
    requires !HasContainer(p.inits, InitName(k1.volume))
    requires forall n :: !Unstartable(p, tsecrets, n)
    ensures IsOrder(o1, PodPlans(p, tsecrets)) && IsOrder(o2, PodPlans(p, tsecrets))
    ensures !SameVerdict(p, OrderedPlans(p, tsecrets, o1), Handle(p, tsecrets, image, namespace, o1),
                         OrderedPlans(p, tsecrets, o2), Handle(p, tsecrets, image, namespace, o2))
  {
    var keys := PodPlans(p, tsecrets).Keys;
    var r1 := Enumerate(keys - {k1});
    var r2 := Enumerate(keys - {k2});
    o1, o2 := [k1] + r1, [k2] + r2;
    HeadsDiffer(p, tsecrets, image, namespace, o1, o2);
  }

  lemma HeadsDiffer(p: Pod, tsecrets: set<string>, image: string, namespace: string, o1: seq<Key>, o2: seq<Key>)
    requires IsOrder(o1, PodPlans(p, tsecrets)) && IsOrder(o2, PodPlans(p, tsecrets))
    requires o1 != [] && o2 != [] && o1[0] != o2[0] && o1[0].volume == o2[0].volume
    requires !HasContainer(p.inits, InitName(o1[0].volume))
    requires forall n :: !Unstartable(p, tsecrets, n)
    ensures !SameVerdict(p, OrderedPlans(p, tsecrets, o1), Handle(p, tsecrets, image, namespace, o1),
                         OrderedPlans(p, tsecrets, o2), Handle(p, tsecrets, image, namespace, o2))
  {
    hide SamePod, Replay, Finish, InjectorArgs, Handle, Owned, NoVolumeClash, Unstartable, OrderedPlans;
    DeniedIff(p, tsecrets, image, namespace, o1);
    DeniedIff(p, tsecrets, image, namespace, o2);
    OwnedAfter(p, tsecrets, image, namespace, o1);
    OwnedAfter(p, tsecrets, image, namespace, o2);
    Frame(p, tsecrets, image, namespace, o1);
    PlanOf(p, tsecrets, o1[0]);
    PlanOf(p, tsecrets, o2[0]);
    var plan1, plan2 := PodPlans(p, tsecrets)[o1[0]], PodPlans(p, tsecrets)[o2[0]];
    DifferentSecrets(p.annotations, plan1, plan2, namespace);
    OwnersDiffer(p, OrderedPlans(p, tsecrets, o1), Handle(p, tsecrets, image, namespace, o1).pod,
                 OrderedPlans(p, tsecrets, o2), Handle(p, tsecrets, image, namespace, o2).pod, o1[0].volume,
                 InjectorArgs(Flagged(p.annotations, plan1), namespace),
                 InjectorArgs(Flagged(p.annotations, plan2), namespace));
  }

  lemma DifferentSecrets(annotations: map<string, string>, a: Plan, b: Plan, namespace: string)
    requires a.secret != b.secret
    ensures InjectorArgs(Flagged(annotations, a), namespace) != InjectorArgs(Flagged(annotations, b), namespace)
  {
    var x, y := InjectorArgs(Flagged(annotations, a), namespace), InjectorArgs(Flagged(annotations, b), namespace);
    assert x[0] == "--secret=" + a.secret && y[0] == "--secret=" + b.secret;
    assert ("--secret=" + a.secret)[|"--secret="|..] == a.secret;
    assert ("--secret=" + b.secret)[|"--secret="|..] == b.secret;
  }

  lemma OwnersDiffer(p: Pod, ps1: seq<Plan>, a: Pod, ps2: seq<Plan>, b: Pod, volume: string,
                     args1: seq<string>, args2: seq<string>)
    requires Owned(a.inits, volume, args1) && Owned(b.inits, volume, args2) && args1 != args2
    requires |p.inits| <= |a.inits| && forall i :: 0 <= i < |p.inits| ==> a.inits[i].name == p.inits[i].name
    requires !HasContainer(p.inits, InitName(volume))
    ensures !SamePod(p, ps1, a, ps2, b)
  {
    var i :| 0 <= i < |a.inits| && a.inits[i].name == InitName(volume);
    assert i >= |p.inits|;
    var tail := a.inits[|p.inits|..];
    assert tail[i - |p.inits|] == a.inits[i];
    assert forall j :: 0 <= j < |b.inits| ==> b.inits[j] != a.inits[i];
    if |p.inits| <= |b.inits| {
      NotPermuted(tail, b.inits[|p.inits|..], a.inits[i]);
    }
  }

  lemma NotPermuted<T(!new)>(a: seq<T>, b: seq<T>, x: T)
    requires x in a && x !in b
    ensures multiset(a) != multiset(b)
  {
    assert x in multiset(a) && x !in multiset(b);
  }

  /** The order of map iteration is invisible, up to the order of appended elements, exactly if no
      two references demand one volume for different secrets or admission is denied anyway. Injector
      names must not be taken by init containers of the pod. */
  lemma ConfluentIff(p: Pod, tsecrets: set<string>, image: string, namespace: string)
    requires forall r :: r in AllRefs(p, tsecrets) ==> !HasContainer(p.inits, InitName(r.volume))
    ensures (forall o1, o2 :: IsOrder(o1, PodPlans(p, tsecrets)) && IsOrder(o2, PodPlans(p, tsecrets)) ==>
               SameVerdict(p, OrderedPlans(p, tsecrets, o1), Handle(p, tsecrets, image, namespace, o1),
                           OrderedPlans(p, tsecrets, o2), Handle(p, tsecrets, image, namespace, o2)))
       <==> (NoVolumeClash(p, tsecrets) || exists n :: Unstartable(p, tsecrets, n))
  {
    if NoVolumeClash(p, tsecrets) || exists n :: Unstartable(p, tsecrets, n) {
      forall o1, o2 | IsOrder(o1, PodPlans(p, tsecrets)) && IsOrder(o2, PodPlans(p, tsecrets))
        ensures SameVerdict(p, OrderedPlans(p, tsecrets, o1), Handle(p, tsecrets, image, namespace, o1),
                            OrderedPlans(p, tsecrets, o2), Handle(p, tsecrets, image, namespace, o2))
      {
        if NoVolumeClash(p, tsecrets) {
          Confluent(p, tsecrets, image, namespace, o1, o2);
        } else {
          DeniedIff(p, tsecrets, image, namespace, o1);
          DeniedIff(p, tsecrets, image, namespace, o2);
        }
      }
    } else {
      var r, r' :| r in AllRefs(p, tsecrets) && r' in AllRefs(p, tsecrets) && r.volume == r'.volume
                   && r.secret != r'.secret;
      RefHasPlan(p, tsecrets, r);
      RefHasPlan(p, tsecrets, r');
      var o1, o2 := Divergent(p, tsecrets, image, namespace, KeyOf(r), KeyOf(r'));
    }
  }
}
