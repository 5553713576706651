/** The order in which Go iterates the map of plans: it never changes the verdict, and it changes
    the pod only in the order of what is appended, exactly if no two plans share a volume. */
module MutateConfluence {
  import opened Common
  import opened Pods
  import opened Mutate
  import opened MutateFrame
  import opened MutateClosed
  import opened MutatePlans
  import ShellText

  // ----- Equal up to the order of what was appended -----

  /** c wrapped with these loaders. */
  ghost predicate WrapperOf(c: Container, a: Container, loaders: seq<string>, annotations: map<string, string>) {
    var entrypoint := ResolveEntrypoint(annotations, c);
    && entrypoint.Some?
    && a.command == SHELL_COMMAND && a.args == [ShellText.WrapText(loaders, entrypoint.value)]
  }

  /** Either both have the command line of c, or both wrap its entrypoint, each with the loaders that its
      plans have for c; and these are permutations of each other. */
  ghost predicate SameCommand(c: Container, ps1: seq<Plan>, a: Container, ps2: seq<Plan>, b: Container,
                              annotations: map<string, string>)
  {
    || (a.command == b.command == c.command && a.args == b.args == c.args)
    || (&& WrapperOf(c, a, NewLoaders(ps1, c.name), annotations)
        && WrapperOf(c, b, NewLoaders(ps2, c.name), annotations)
        && multiset(NewLoaders(ps1, c.name)) == multiset(NewLoaders(ps2, c.name)))
  }

  ghost predicate SameContainer(c: Container, ps1: seq<Plan>, a: Container, ps2: seq<Plan>, b: Container,
                                annotations: map<string, string>)
  {
    && b == a.(mounts := b.mounts, command := b.command, args := b.args)
    && multiset(a.mounts) == multiset(b.mounts)
    && SameCommand(c, ps1, a, ps2, b, annotations)
  }

  ghost predicate SameContainers(cs: seq<Container>, ps1: seq<Plan>, a: seq<Container>,
                                 ps2: seq<Plan>, b: seq<Container>, annotations: map<string, string>)
  {
    && |cs| <= |a| && |cs| <= |b|
    && forall i :: 0 <= i < |cs| ==> SameContainer(cs[i], ps1, a[i], ps2, b[i], annotations)
  }

  /** a grew from p by the plans ps1, b by ps2, and both appended the same things in different orders. */
  ghost predicate SamePod(p: Pod, ps1: seq<Plan>, a: Pod, ps2: seq<Plan>, b: Pod) {
    && a.annotations == b.annotations && a.fsGroup == b.fsGroup
    && |p.volumes| <= |a.volumes| && |p.volumes| <= |b.volumes|
    && a.volumes[..|p.volumes|] == b.volumes[..|p.volumes|]
    && multiset(a.volumes[|p.volumes|..]) == multiset(b.volumes[|p.volumes|..])
    && |a.containers| == |b.containers| == |p.containers|
    && SameContainers(p.containers, ps1, a.containers, ps2, b.containers, p.annotations)
    && SameContainers(p.inits, ps1, a.inits, ps2, b.inits, p.annotations)
    && multiset(a.inits[|p.inits|..]) == multiset(b.inits[|p.inits|..])
  }

  ghost predicate SameVerdict(p: Pod, ps1: seq<Plan>, a: Verdict, ps2: seq<Plan>, b: Verdict) {
    match (a, b)
    case (Denied, Denied) => true
    case (Allowed(q), Allowed(q')) => SamePod(p, ps1, q, ps2, q')
    case (_, _) => false
  }

  // ----- The verdict -----

  /** The loaders do not need the plans to have distinct volumes. */
  lemma {:induction false} RunLoaders(s: Progress, ps: seq<Plan>, image: string, namespace: string)
    requires s.loaders == map[]
    ensures Run(s, ps, image, namespace).loaders == ClosedLoaders(ps, s.pod.annotations)
    decreases |ps|
  {
    if ps != [] {
      var n := |ps| - 1;
      RunLoaders(s, ps[..n], image, namespace);
      RunGrows(s, ps[..n], image, namespace);
      LoadersStep(ps, s.pod.annotations);
    }
  }

  ghost predicate SameMembers(a: seq<Plan>, b: seq<Plan>) {
    forall x :: x in a <==> x in b
  }

  lemma SameUsers(a: seq<Plan>, b: seq<Plan>)
    requires SameMembers(a, b)
    ensures AllUsers(a) == AllUsers(b)
  {
  }

  /** Lacking an entrypoint depends on names and command lines only, and on init containers only
      where no injector was added under the name. */
  lemma LackingStays(p0: Pod, p: Pod, n: string)
    requires Grown(p0, p)
    requires HasContainer(p0.containers, n) || HasContainer(p0.inits, n)
    ensures LacksEntrypoint(p0, n) <==> LacksEntrypoint(p, n)
  {
    SameNames(p0.containers, p.containers);
    forall i | 0 <= i < |p0.containers|
      ensures ResolveEntrypoint(p0.annotations, p0.containers[i]) == ResolveEntrypoint(p.annotations, p.containers[i])
    {
      assert Extends(p0.containers[i], p.containers[i]);
    }
    forall i | 0 <= i < |p0.inits|
      ensures ResolveEntrypoint(p0.annotations, p0.inits[i]) == ResolveEntrypoint(p.annotations, p.inits[i])
      ensures p.inits[i].name == p0.inits[i].name
      ensures IsFirst(p0.inits, i) <==> IsFirst(p.inits, i)
    {
      assert Extends(p0.inits[i], p.inits[i]);
      assert forall j :: 0 <= j < i ==> Extends(p0.inits[j], p.inits[j]);
    }
    if !HasContainer(p0.containers, n) && LacksEntrypoint(p, n) {
      var i :| 0 <= i < |p.inits| && p.inits[i].name == n && IsFirst(p.inits, i)
               && ResolveEntrypoint(p.annotations, p.inits[i]).None?;
      var j :| 0 <= j < |p0.inits| && p0.inits[j].name == n;
      assert p.inits[j].name == n;
      assert i <= j;
      assert p0.inits[i].name == n;
    }
  }

  lemma RunDenied(q: Pod, ps: seq<Plan>, image: string, namespace: string)
    requires UsersKnown(q, ps)
    ensures Finish(Run(Progress(q, map[]), ps, image, namespace)).Denied?
       <==> exists n :: n in AllUsers(ps) && ExportEnabled(q.annotations, n) && LacksEntrypoint(q, n)
  {
    var s0 := Progress(q, map[]);
    RunLoaders(s0, ps, image, namespace);
    RunGrows(s0, ps, image, namespace);
    FinishDenied(q, ps, Run(s0, ps, image, namespace));
  }

  lemma FinishDenied(q: Pod, ps: seq<Plan>, s: Progress)
    requires UsersKnown(q, ps) && Grown(q, s.pod) && s.loaders == ClosedLoaders(ps, q.annotations)
    ensures Finish(s).Denied?
       <==> exists n :: n in AllUsers(ps) && ExportEnabled(q.annotations, n) && LacksEntrypoint(q, n)
  {
    forall n | n in AllUsers(ps)
      ensures LacksEntrypoint(s.pod, n) <==> LacksEntrypoint(q, n)
    {
      LackingStays(q, s.pod, n);
    }
  }

  lemma StripLacking(p: Pod, tsecrets: set<string>, n: string)
    ensures LacksEntrypoint(Strip(p, tsecrets), n) <==> LacksEntrypoint(p, n)
  {
    var q := Strip(p, tsecrets);
    StripNames(p, tsecrets);
    forall i | 0 <= i < |p.containers|
      ensures ResolveEntrypoint(q.annotations, q.containers[i]) == ResolveEntrypoint(p.annotations, p.containers[i])
    {
      assert q.containers[i] == StripOne(p.containers[i], false, tsecrets);
    }
    forall i | 0 <= i < |p.inits|
      ensures ResolveEntrypoint(q.annotations, q.inits[i]) == ResolveEntrypoint(p.annotations, p.inits[i])
    {
      assert q.inits[i] == StripOne(p.inits[i], true, tsecrets);
    }
  }

  /** A container that uses a TSecret, asks for its environment, and gives no entrypoint. */
  ghost predicate Unstartable(p: Pod, tsecrets: set<string>, n: string) {
    && (exists r :: r in AllRefs(p, tsecrets) && n in r.users)
    && ExportEnabled(p.annotations, n)
    && LacksEntrypoint(p, n)
  }

  lemma UsersOfPlans(p: Pod, tsecrets: set<string>, order: seq<Key>, n: string)
    requires IsOrder(order, PodPlans(p, tsecrets))
    ensures n in AllUsers(OrderedPlans(p, tsecrets, order))
       <==> exists r :: r in AllRefs(p, tsecrets) && n in r.users
  {
    var ps := OrderedPlans(p, tsecrets, order);
    if n in AllUsers(ps) {
      var plan :| plan in ps && n in plan.users;
      var i :| 0 <= i < |ps| && ps[i] == plan;
      assert order[i] in order;
      PlanOf(p, tsecrets, order[i]);
    }
    forall r | r in AllRefs(p, tsecrets) && n in r.users
      ensures n in AllUsers(ps)
    {
      RefHasPlan(p, tsecrets, r);
      OrderedMembers(p, tsecrets, order, PodPlans(p, tsecrets)[KeyOf(r)]);
    }
  }

  /** Admission is denied exactly if some container cannot be started; the order has no say. */
  lemma DeniedIff(p: Pod, tsecrets: set<string>, image: string, namespace: string, order: seq<Key>)
    requires IsOrder(order, PodPlans(p, tsecrets))
    ensures Handle(p, tsecrets, image, namespace, order).Denied? <==> exists n :: Unstartable(p, tsecrets, n)
  {
    var q := Strip(p, tsecrets);
    var ps := OrderedPlans(p, tsecrets, order);
    OrderedUsersKnown(p, tsecrets, order);
    RunDenied(q, ps, image, namespace);
    forall n
      ensures n in AllUsers(ps) && ExportEnabled(q.annotations, n) && LacksEntrypoint(q, n)
         <==> Unstartable(p, tsecrets, n)
    {
      UsersOfPlans(p, tsecrets, order, n);
      StripLacking(p, tsecrets, n);
    }
    if PodPlans(p, tsecrets) == map[] {
      CollectNonempty(AllRefs(p, tsecrets));
    }
  }

  lemma StoppedUser(q: Pod, ps: seq<Plan>, image: string, namespace: string, n: string)
    requires UsersKnown(q, ps)
    requires var s := Run(Progress(q, map[]), ps, image, namespace); n in s.loaders && LacksEntrypoint(s.pod, n)
    ensures n in AllUsers(ps) && ExportEnabled(q.annotations, n) && LacksEntrypoint(q, n)
  {
    hide LacksEntrypoint, ExportEnabled, Run, NewLoaders;
    RunLoaders(Progress(q, map[]), ps, image, namespace);
    RunGrows(Progress(q, map[]), ps, image, namespace);
    LackingStays(q, Run(Progress(q, map[]), ps, image, namespace).pod, n);
  }

  /** The container for which the loop over the containers to wrap stops is one that cannot be started. */
  lemma StoppedAt(p: Pod, tsecrets: set<string>, image: string, namespace: string, order: seq<Key>, n: string)
    requires IsOrder(order, PodPlans(p, tsecrets))
    requires var s := Replay(p, tsecrets, OrderedPlans(p, tsecrets, order), image, namespace);
             n in s.loaders && LacksEntrypoint(s.pod, n)
    ensures Unstartable(p, tsecrets, n)
  {
    hide LacksEntrypoint, ExportEnabled, Run, AllUsers, Strip, UsersKnown;
    var q := Strip(p, tsecrets);
    var ps := OrderedPlans(p, tsecrets, order);
    OrderedUsersKnown(p, tsecrets, order);
    StoppedUser(q, ps, image, namespace, n);
    UsersOfPlans(p, tsecrets, order, n);
    StripLacking(p, tsecrets, n);
    StripAnnotations(p, tsecrets);
  }

  lemma StripAnnotations(p: Pod, tsecrets: set<string>)
    ensures Strip(p, tsecrets).annotations == p.annotations
  {
  }

  // ----- Without clashes, the same pod -----

  lemma MountsPermute(c: Container, ps1: seq<Plan>, ps2: seq<Plan>)
    requires DistinctVolumes(ps1) && DistinctVolumes(ps2) && SameMembers(ps1, ps2)
    ensures multiset(Mounted(c, ps1).mounts) == multiset(Mounted(c, ps2).mounts)
  {
    InNewMounts(ps1, c.name, c.mounts);
    InNewMounts(ps2, c.name, c.mounts);
    SameMembersPermute(NewMounts(ps1, c.name, c.mounts), NewMounts(ps2, c.name, c.mounts));
  }

  lemma LoadersPermute(ps1: seq<Plan>, ps2: seq<Plan>, n: string)
    requires SameMembers(ps1, ps2)
    ensures multiset(NewLoaders(ps1, n)) == multiset(NewLoaders(ps2, n))
  {
    InNewLoaders(ps1, n);
    InNewLoaders(ps2, n);
    SameMembersPermute(NewLoaders(ps1, n), NewLoaders(ps2, n));
  }

  lemma VolumesPermute(ps1: seq<Plan>, ps2: seq<Plan>, old0: seq<Volume>)
    requires DistinctVolumes(ps1) && DistinctVolumes(ps2) && SameMembers(ps1, ps2)
    ensures multiset(NewVolumes(ps1, old0)) == multiset(NewVolumes(ps2, old0))
  {
    InNewVolumes(ps1, old0);
    InNewVolumes(ps2, old0);
    SameMembersPermute(NewVolumes(ps1, old0), NewVolumes(ps2, old0));
  }

  lemma InitsPermute(ps1: seq<Plan>, ps2: seq<Plan>, old0: seq<Container>, annotations: map<string, string>,
                     image: string, namespace: string)
    requires DistinctVolumes(ps1) && DistinctVolumes(ps2) && SameMembers(ps1, ps2)
    ensures multiset(NewInits(ps1, old0, annotations, image, namespace))
         == multiset(NewInits(ps2, old0, annotations, image, namespace))
  {
    var a := NewInits(ps1, old0, annotations, image, namespace);
    var b := NewInits(ps2, old0, annotations, image, namespace);
    InNewInits(ps1, old0, annotations, image, namespace);
    InNewInits(ps2, old0, annotations, image, namespace);
    NewInitsDistinct(ps1, old0, annotations, image, namespace);
    NewInitsDistinct(ps2, old0, annotations, image, namespace);
    FirstNoDup(a);
    FirstNoDup(b);
    SameMembersPermute(a, b);
  }

  lemma FirstNoDup(cs: seq<Container>)
    requires forall i :: 0 <= i < |cs| ==> IsFirst(cs, i)
    ensures NoDup(cs)
  {
    forall i, j | 0 <= i < j < |cs|
      ensures cs[i] != cs[j]
    {
      assert IsFirst(cs, j);
    }
  }

  /** One old container after both runs. */
  ghost predicate Twins(c: Container, a: Container, b: Container, ps1: seq<Plan>, ps2: seq<Plan>) {
    (a == c && b == c) || (a == Mounted(c, ps1) && b == Mounted(c, ps2))
  }

  lemma WrappedSame(c: Container, a: Container, b: Container, ps1: seq<Plan>, ps2: seq<Plan>,
                    annotations: map<string, string>)
    requires DistinctVolumes(ps1) && DistinctVolumes(ps2) && SameMembers(ps1, ps2)
    requires Twins(c, a, b, ps1, ps2)
    ensures SameContainer(c, ps1, a, ps2, b, annotations)
    ensures c.name in ClosedLoaders(ps1, annotations) <==> c.name in ClosedLoaders(ps2, annotations)
    ensures c.name in ClosedLoaders(ps1, annotations) ==>
              SameContainer(c, ps1, WrapFound(a, ClosedLoaders(ps1, annotations), annotations),
                            ps2, WrapFound(b, ClosedLoaders(ps2, annotations), annotations), annotations)
  {
    MountsPermute(c, ps1, ps2);
    SameUsers(ps1, ps2);
    LoadersPermute(ps1, ps2, c.name);
    assert ResolveEntrypoint(annotations, a) == ResolveEntrypoint(annotations, b);
    if c.name in ClosedLoaders(ps1, annotations) && ResolveEntrypoint(annotations, a).Some? && !AlreadyWrapped(a) {
      var e := ResolveEntrypoint(annotations, a).value;
      var wa := WrapFound(a, ClosedLoaders(ps1, annotations), annotations);
      var wb := WrapFound(b, ClosedLoaders(ps2, annotations), annotations);
      assert wa.args == [ShellText.WrapText(NewLoaders(ps1, c.name), e)];
      assert wb.args == [ShellText.WrapText(NewLoaders(ps2, c.name), e)];
    }
  }

  lemma ContainersSame(cs: seq<Container>, shadow1: seq<Container>, shadow2: seq<Container>, shadow: seq<Container>,
                       ps1: seq<Plan>, ps2: seq<Plan>, tail1: seq<Container>, tail2: seq<Container>,
                       annotations: map<string, string>)
    requires DistinctVolumes(ps1) && DistinctVolumes(ps2) && SameMembers(ps1, ps2)
    requires forall n :: HasContainer(shadow1, n) <==> HasContainer(shadow, n)
    requires forall n :: HasContainer(shadow2, n) <==> HasContainer(shadow, n)
    ensures var a, b := MountedContainers(cs, shadow, ps1) + tail1, MountedContainers(cs, shadow, ps2) + tail2;
            SameContainers(cs, ps1, WrapContainers(a, shadow1, ClosedLoaders(ps1, annotations), annotations),
                           ps2, WrapContainers(b, shadow2, ClosedLoaders(ps2, annotations), annotations), annotations)
  {
    var a := MountedContainers(cs, shadow, ps1) + tail1;
    var b := MountedContainers(cs, shadow, ps2) + tail2;
    var wa := WrapContainers(a, shadow1, ClosedLoaders(ps1, annotations), annotations);
    var wb := WrapContainers(b, shadow2, ClosedLoaders(ps2, annotations), annotations);
    forall i | 0 <= i < |cs|
      ensures SameContainer(cs[i], ps1, wa[i], ps2, wb[i], annotations)
    {
      WrappedSame(cs[i], a[i], b[i], ps1, ps2, annotations);
      assert forall j :: 0 <= j <= i ==> a[j].name == cs[j].name && b[j].name == cs[j].name;
      assert IsFirst(a, i) <==> IsFirst(b, i);
    }
  }

  /** Injectors are appended after the old init containers and stay as they are. */
  lemma TailKept(q: Pod, ps: seq<Plan>, image: string, namespace: string)
    requires UsersKnown(q, ps)
    ensures var s := Closed(q, ps, image, namespace);
            (WrapAll(s.pod, s.loaders).inits[|q.inits|..]
             == NewInits(ps, q.inits, q.annotations, image, namespace))
  {
    hide WrapFound, Injector, InjectorArgs, NewLoaders, NewVolumes, NewMounts;
    hide PlanExports, ExportEnabled, IsInjectorName;
    var s := Closed(q, ps, image, namespace);
    var tail := NewInits(ps, q.inits, q.annotations, image, namespace);
    var out := WrapAll(s.pod, s.loaders).inits;
    InNewInits(ps, q.inits, q.annotations, image, namespace);
    SameNames(q.containers, s.pod.containers);
    forall i | |q.inits| <= i < |out|
      ensures out[i] == tail[i - |q.inits|]
    {
      var c := tail[i - |q.inits|];
      assert c in tail;
      var p :| p in ps && c == Injector(Flagged(q.annotations, p), image, namespace);
      InjectorName(q.annotations, p, image, namespace);
      assert s.pod.inits[i] == c;
    }
  }

  /** Without volume clashes every two orders give the same pod up to order. */
  lemma Confluent(p: Pod, tsecrets: set<string>, image: string, namespace: string, o1: seq<Key>, o2: seq<Key>)
    requires IsOrder(o1, PodPlans(p, tsecrets)) && IsOrder(o2, PodPlans(p, tsecrets))
    requires NoVolumeClash(p, tsecrets)
    ensures SameVerdict(p, OrderedPlans(p, tsecrets, o1), Handle(p, tsecrets, image, namespace, o1),
                        OrderedPlans(p, tsecrets, o2), Handle(p, tsecrets, image, namespace, o2))
  {
    DeniedIff(p, tsecrets, image, namespace, o1);
    DeniedIff(p, tsecrets, image, namespace, o2);
    if Handle(p, tsecrets, image, namespace, o1).Allowed? {
      var q := Strip(p, tsecrets);
      var ps1, ps2 := OrderedPlans(p, tsecrets, o1), OrderedPlans(p, tsecrets, o2);
      forall plan
        ensures plan in ps1 <==> plan in ps2
      {
        OrderedMembers(p, tsecrets, o1, plan);
        OrderedMembers(p, tsecrets, o2, plan);
      }
      AllowedClosed(p, tsecrets, image, namespace, o1);
      AllowedClosed(p, tsecrets, image, namespace, o2);
      OrderedDistinct(p, tsecrets, o1);
      OrderedDistinct(p, tsecrets, o2);
      OrderedUsersKnown(p, tsecrets, o1);
      OrderedUsersKnown(p, tsecrets, o2);
      ClosedSame(q, ps1, ps2, image, namespace);
      var s1, s2 := Closed(q, ps1, image, namespace), Closed(q, ps2, image, namespace);
      SamePodOf(p, tsecrets, ps1, WrapAll(s1.pod, s1.loaders), ps2, WrapAll(s2.pod, s2.loaders));
    }
  }

  lemma SamePodOf(p: Pod, tsecrets: set<string>, ps1: seq<Plan>, a: Pod, ps2: seq<Plan>, b: Pod)
    requires SamePod(Strip(p, tsecrets), ps1, a, ps2, b)
    ensures SamePod(p, ps1, a, ps2, b)
  {
    hide SameContainer;
    SameStripped(p.containers, false, tsecrets, ps1, a.containers, ps2, b.containers, p.annotations);
    SameStripped(p.inits, true, tsecrets, ps1, a.inits, ps2, b.inits, p.annotations);
  }

  lemma SameStripped(cs: seq<Container>, skip: bool, tsecrets: set<string>, ps1: seq<Plan>, a: seq<Container>,
                     ps2: seq<Plan>, b: seq<Container>, annotations: map<string, string>)
    requires SameContainers(StripContainers(cs, skip, tsecrets), ps1, a, ps2, b, annotations)
    ensures SameContainers(cs, ps1, a, ps2, b, annotations)
  {
    forall i | 0 <= i < |cs|
      ensures SameContainer(cs[i], ps1, a[i], ps2, b[i], annotations)
    {
      var c := StripContainers(cs, skip, tsecrets)[i];
      assert c == StripOne(cs[i], skip, tsecrets);
      assert SameContainer(c, ps1, a[i], ps2, b[i], annotations);
    }
  }

  lemma ClosedSame(q: Pod, ps1: seq<Plan>, ps2: seq<Plan>, image: string, namespace: string)
    requires DistinctVolumes(ps1) && DistinctVolumes(ps2) && SameMembers(ps1, ps2)
    requires UsersKnown(q, ps1) && UsersKnown(q, ps2)
    ensures var s1, s2 := Closed(q, ps1, image, namespace), Closed(q, ps2, image, namespace);
            SamePod(q, ps1, WrapAll(s1.pod, s1.loaders), ps2, WrapAll(s2.pod, s2.loaders))
  {
    var s1, s2 := Closed(q, ps1, image, namespace), Closed(q, ps2, image, namespace);
    var a, b := WrapAll(s1.pod, s1.loaders), WrapAll(s2.pod, s2.loaders);
    var tail1 := NewInits(ps1, q.inits, q.annotations, image, namespace);
    var tail2 := NewInits(ps2, q.inits, q.annotations, image, namespace);
    SameNames(q.containers, s1.pod.containers);
    SameNames(q.containers, s2.pod.containers);
    ContainersSame(q.containers, [], [], [], ps1, ps2, [], [], q.annotations);
    assert s1.pod.containers + [] == s1.pod.containers && s2.pod.containers + [] == s2.pod.containers;
    ContainersSame(q.inits, s1.pod.containers, s2.pod.containers, q.containers, ps1, ps2, tail1, tail2, q.annotations);
    TailKept(q, ps1, image, namespace);
    TailKept(q, ps2, image, namespace);
    InitsPermute(ps1, ps2, q.inits, q.annotations, image, namespace);
    VolumesPermute(ps1, ps2, q.volumes);
    assert a.volumes[|q.volumes|..] == NewVolumes(ps1, q.volumes);
    assert b.volumes[|q.volumes|..] == NewVolumes(ps2, q.volumes);
    EmptyTogether(ps1, ps2);
  }

  lemma EmptyTogether(ps1: seq<Plan>, ps2: seq<Plan>)
    requires SameMembers(ps1, ps2)
    ensures ps1 == [] <==> ps2 == []
  {
    if ps1 != [] {
      assert ps1[0] in ps1;
    }
    if ps2 != [] {
      assert ps2[0] in ps2;
    }
  }
}
