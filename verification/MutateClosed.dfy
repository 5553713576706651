/** The result of replaying plans with distinct volumes, written down without the loop: what is
    appended to each list of the pod, plan by plan, judged against the pod before the loop. */
module MutateClosed {
  import opened Common
  import opened Pods
  import opened Mutate

  ghost predicate DistinctVolumes(ps: seq<Plan>) {
    forall i, j :: 0 <= i < j < |ps| ==> ps[i].volume != ps[j].volume
  }

  /** Every user is a container of the pod; an init container with the injector prefix is none. */
  ghost predicate UsersKnown(q: Pod, ps: seq<Plan>) {
    forall p, n :: p in ps && n in p.users ==>
      HasContainer(q.containers, n) || (HasContainer(q.inits, n) && !IsInjectorName(n))
  }

  // ----- What each list gains -----

  function NewVolumes(ps: seq<Plan>, old0: seq<Volume>): seq<Volume> {
    if ps == [] then []
    else
      var p := ps[|ps| - 1];
      NewVolumes(ps[..|ps| - 1], old0)
      + (if HasVolume(old0, p.volume) then [] else [Volume(p.volume, MemoryDir)])
  }

  function NewInits(ps: seq<Plan>, old0: seq<Container>, annotations: map<string, string>,
                    image: string, namespace: string): seq<Container>
  {
    if ps == [] then []
    else
      var p := ps[|ps| - 1];
      NewInits(ps[..|ps| - 1], old0, annotations, image, namespace)
      + (if HasContainer(old0, InitName(p.volume)) then []
         else [Injector(Flagged(annotations, p), image, namespace)])
  }

  function NewMounts(ps: seq<Plan>, name: string, old0: seq<Mount>): seq<Mount> {
    if ps == [] then []
    else
      var p := ps[|ps| - 1];
      NewMounts(ps[..|ps| - 1], name, old0)
      + (if name in p.users && !HasMount(old0, p.volume) then [Mount(p.volume, p.mountPath, true)] else [])
  }

  function NewLoaders(ps: seq<Plan>, name: string): seq<string> {
    if ps == [] then []
    else
      var p := ps[|ps| - 1];
      var before := NewLoaders(ps[..|ps| - 1], name);
      if name in p.users then AppendUnique(before, LoaderPath(p.mountPath)) else before
  }

  function AllUsers(ps: seq<Plan>): set<string> {
    set p, n | p in ps && n in p.users :: n
  }

  function Mounted(c: Container, ps: seq<Plan>): Container {
    c.(mounts := c.mounts + NewMounts(ps, c.name, c.mounts))
  }

  function MountedContainers(cs: seq<Container>, shadow: seq<Container>, ps: seq<Plan>): (r: seq<Container>)
    ensures |r| == |cs|
    ensures forall i :: 0 <= i < |cs| ==>
              r[i] == if IsFirst(cs, i) && !HasContainer(shadow, cs[i].name) then Mounted(cs[i], ps) else cs[i]
  {
    seq(|cs|, i requires 0 <= i < |cs| =>
          if IsFirst(cs, i) && !HasContainer(shadow, cs[i].name) then Mounted(cs[i], ps) else cs[i])
  }

  function ClosedLoaders(ps: seq<Plan>, annotations: map<string, string>): Loaders {
    map n | n in AllUsers(ps) && ExportEnabled(annotations, n) :: NewLoaders(ps, n)
  }

  function ClosedPod(q: Pod, ps: seq<Plan>, image: string, namespace: string): Pod {
    (if ps == [] then q else EnsureFsGroup(q))
      .(volumes := q.volumes + NewVolumes(ps, q.volumes),
        containers := MountedContainers(q.containers, [], ps),
        inits := MountedContainers(q.inits, q.containers, ps)
                 + NewInits(ps, q.inits, q.annotations, image, namespace))
  }

  function Closed(q: Pod, ps: seq<Plan>, image: string, namespace: string): Progress {
    Progress(ClosedPod(q, ps, image, namespace), ClosedLoaders(ps, q.annotations))
  }

  // ----- Membership in the appended lists -----

  lemma {:induction false} InNewVolumes(ps: seq<Plan>, old0: seq<Volume>)
    ensures forall v :: v in NewVolumes(ps, old0)
                   <==> exists p :: p in ps && !HasVolume(old0, p.volume) && v == Volume(p.volume, MemoryDir)
    ensures DistinctVolumes(ps) ==> NoDup(NewVolumes(ps, old0))
  {
    if ps != [] {
      var n := |ps| - 1;
      InNewVolumes(ps[..n], old0);
      assert forall p :: p in ps <==> p in ps[..n] || p == ps[n];
      if DistinctVolumes(ps) {
        assert Volume(ps[n].volume, MemoryDir) !in NewVolumes(ps[..n], old0);
      }
    }
  }

  lemma {:induction false} InNewInits(ps: seq<Plan>, old0: seq<Container>, annotations: map<string, string>,
                                      image: string, namespace: string)
    ensures forall c :: c in NewInits(ps, old0, annotations, image, namespace)
                   <==> exists p :: p in ps && !HasContainer(old0, InitName(p.volume))
                                    && c == Injector(Flagged(annotations, p), image, namespace)
  {
    if ps != [] {
      var n := |ps| - 1;
      InNewInits(ps[..n], old0, annotations, image, namespace);
      assert forall p :: p in ps <==> p in ps[..n] || p == ps[n];
    }
  }

  lemma InitNameInjective(a: string, b: string)
    ensures InitName(a) == InitName(b) <==> a == b
  {
    assert InitName(a)[|INIT_PREFIX|..] == a;
    assert InitName(b)[|INIT_PREFIX|..] == b;
  }

  lemma InjectorName(annotations: map<string, string>, plan: Plan, image: string, namespace: string)
    ensures Injector(Flagged(annotations, plan), image, namespace).name == InitName(plan.volume)
    ensures IsInjectorName(InitName(plan.volume))
  {
  }

  lemma FreshInit(ps: seq<Plan>, volume: string, old0: seq<Container>, annotations: map<string, string>,
                  image: string, namespace: string)
    requires forall p :: p in ps ==> p.volume != volume
    ensures forall c :: c in NewInits(ps, old0, annotations, image, namespace) ==> c.name != InitName(volume)
  {
    InNewInits(ps, old0, annotations, image, namespace);
    forall c | c in NewInits(ps, old0, annotations, image, namespace)
      ensures c.name != InitName(volume)
    {
      var p :| p in ps && c == Injector(Flagged(annotations, p), image, namespace);
      InjectorName(annotations, p, image, namespace);
      InitNameInjective(p.volume, volume);
    }
  }

  lemma {:induction false} NewInitsDistinct(ps: seq<Plan>, old0: seq<Container>, annotations: map<string, string>,
                                            image: string, namespace: string)
    requires DistinctVolumes(ps)
    ensures forall i :: 0 <= i < |NewInits(ps, old0, annotations, image, namespace)|
                   ==> IsFirst(NewInits(ps, old0, annotations, image, namespace), i)
  {
    if ps != [] {
      var n := |ps| - 1;
      var before := NewInits(ps[..n], old0, annotations, image, namespace);
      NewInitsDistinct(ps[..n], old0, annotations, image, namespace);
      FreshInit(ps[..n], ps[n].volume, old0, annotations, image, namespace);
      forall i | 0 <= i < |before|
        ensures before[i].name != InitName(ps[n].volume)
      {
        assert before[i] in before;
      }
      var r := NewInits(ps, old0, annotations, image, namespace);
      forall i | 0 <= i < |r|
        ensures IsFirst(r, i)
      {
        if i < |before| {
          assert IsFirst(before, i);
        }
      }
    }
  }

  lemma {:induction false} InNewMounts(ps: seq<Plan>, name: string, old0: seq<Mount>)
    ensures forall m :: m in NewMounts(ps, name, old0)
                   <==> exists p :: p in ps && name in p.users && !HasMount(old0, p.volume)
                                    && m == Mount(p.volume, p.mountPath, true)
    ensures DistinctVolumes(ps) ==> NoDup(NewMounts(ps, name, old0))
  {
    if ps != [] {
      var n := |ps| - 1;
      InNewMounts(ps[..n], name, old0);
      assert forall p :: p in ps <==> p in ps[..n] || p == ps[n];
      if DistinctVolumes(ps) {
        assert Mount(ps[n].volume, ps[n].mountPath, true) !in NewMounts(ps[..n], name, old0);
      }
    }
  }

  lemma {:induction false} InNewLoaders(ps: seq<Plan>, name: string)
    ensures forall l :: l in NewLoaders(ps, name)
                   <==> exists p :: p in ps && name in p.users && l == LoaderPath(p.mountPath)
    ensures NoDup(NewLoaders(ps, name))
  {
    if ps != [] {
      var n := |ps| - 1;
      InNewLoaders(ps[..n], name);
      assert forall p :: p in ps <==> p in ps[..n] || p == ps[n];
    }
  }

  // ----- One more plan -----

  lemma VolumeStep(ps: seq<Plan>, old0: seq<Volume>)
    requires ps != [] && DistinctVolumes(ps)
    ensures HasVolume(old0 + NewVolumes(Front(ps), old0), Last(ps).volume) <==> HasVolume(old0, Last(ps).volume)
  {
    var n := |ps| - 1;
    var added := NewVolumes(ps[..n], old0);
    InNewVolumes(ps[..n], old0);
    forall i | 0 <= i < |added|
      ensures added[i].name != ps[n].volume
    {
      assert added[i] in added;
    }
    if HasVolume(old0, ps[n].volume) {
      var i :| 0 <= i < |old0| && old0[i].name == ps[n].volume;
      assert (old0 + added)[i].name == ps[n].volume;
    }
  }

  lemma SameNames(cs: seq<Container>, cs': seq<Container>)
    requires |cs| == |cs'| && forall i :: 0 <= i < |cs| ==> cs[i].name == cs'[i].name
    ensures forall i :: 0 <= i < |cs| ==> (IsFirst(cs, i) <==> IsFirst(cs', i))
    ensures forall name :: HasContainer(cs, name) <==> HasContainer(cs', name)
  {
    forall name
      ensures HasContainer(cs, name) <==> HasContainer(cs', name)
    {
      if HasContainer(cs, name) {
        var i :| 0 <= i < |cs| && cs[i].name == name;
        assert cs'[i].name == name;
      }
      if HasContainer(cs', name) {
        var i :| 0 <= i < |cs'| && cs'[i].name == name;
        assert cs[i].name == name;
      }
    }
  }

  lemma MountStep(c: Container, ps: seq<Plan>)
    requires ps != [] && DistinctVolumes(ps)
    ensures Mounted(c, ps) == if c.name in Last(ps).users
                              then AddMount(Mounted(c, Front(ps)), Last(ps).volume, Last(ps).mountPath)
                              else Mounted(c, Front(ps))
  {
    var n := |ps| - 1;
    var added := NewMounts(ps[..n], c.name, c.mounts);
    InNewMounts(ps[..n], c.name, c.mounts);
    forall i | 0 <= i < |added|
      ensures added[i].name != ps[n].volume
    {
      assert added[i] in added;
    }
    if HasMount(c.mounts, ps[n].volume) {
      var i :| 0 <= i < |c.mounts| && c.mounts[i].name == ps[n].volume;
      assert (c.mounts + added)[i].name == ps[n].volume;
    }
    assert c.mounts + added + [] == c.mounts + added;
  }

  lemma MountedStep(cs: seq<Container>, shadow: seq<Container>, shadow': seq<Container>, ps: seq<Plan>)
    requires ps != [] && DistinctVolumes(ps)
    requires forall name :: HasContainer(shadow, name) <==> HasContainer(shadow', name)
    ensures MountContainers(MountedContainers(cs, shadow, Front(ps)), shadow',
                            Last(ps).users, Last(ps).volume, Last(ps).mountPath)
         == MountedContainers(cs, shadow, ps)
  {
    var n := |ps| - 1;
    var mid := MountedContainers(cs, shadow, ps[..n]);
    SameNames(cs, mid);
    var a := MountContainers(mid, shadow', ps[n].users, ps[n].volume, ps[n].mountPath);
    var b := MountedContainers(cs, shadow, ps);
    forall i | 0 <= i < |cs|
      ensures a[i] == b[i]
    {
      MountStep(cs[i], ps);
    }
  }

  /** Injectors are never users, so the mounting loop passes them over. */
  lemma InjectorsUntouched(cs: seq<Container>, tail: seq<Container>, shadow: seq<Container>, plan: Plan)
    requires forall c :: c in tail ==> IsInjectorName(c.name)
    requires forall n :: n in plan.users ==> HasContainer(shadow, n) || !IsInjectorName(n)
    ensures MountContainers(cs + tail, shadow, plan.users, plan.volume, plan.mountPath)
         == MountContainers(cs, shadow, plan.users, plan.volume, plan.mountPath) + tail
  {
    var a := MountContainers(cs + tail, shadow, plan.users, plan.volume, plan.mountPath);
    var b := MountContainers(cs, shadow, plan.users, plan.volume, plan.mountPath) + tail;
    forall i | 0 <= i < |a|
      ensures a[i] == b[i]
    {
      if i < |cs| {
        assert forall j :: 0 <= j < i ==> (cs + tail)[j] == cs[j];
        assert IsFirst(cs + tail, i) <==> IsFirst(cs, i);
      } else {
        assert tail[i - |cs|] in tail;
      }
    }
  }

  lemma InitStep(ps: seq<Plan>, q: Pod, image: string, namespace: string)
    requires ps != [] && DistinctVolumes(ps)
    ensures HasContainer(ClosedPod(q, Front(ps), image, namespace).inits, InitName(Last(ps).volume))
       <==> HasContainer(q.inits, InitName(Last(ps).volume))
  {
    var before := Front(ps);
    var name := InitName(Last(ps).volume);
    var head := MountedContainers(q.inits, q.containers, before);
    var added := NewInits(before, q.inits, q.annotations, image, namespace);
    SameNames(q.inits, head);
    FreshInit(before, Last(ps).volume, q.inits, q.annotations, image, namespace);
    HasConcat(head, added, name);
  }

  lemma HasConcat(head: seq<Container>, added: seq<Container>, name: string)
    requires forall c :: c in added ==> c.name != name
    ensures HasContainer(head + added, name) <==> HasContainer(head, name)
  {
    if HasContainer(head, name) {
      var i :| 0 <= i < |head| && head[i].name == name;
      assert (head + added)[i].name == name;
    }
    if HasContainer(head + added, name) {
      var i :| 0 <= i < |head + added| && (head + added)[i].name == name;
      assert i >= |head| ==> added[i - |head|] in added;
    }
  }

  lemma {:induction false} NoUserNoLoader(ps: seq<Plan>, name: string)
    requires forall p :: p in ps ==> name !in p.users
    ensures NewLoaders(ps, name) == []
  {
    if ps != [] {
      NoUserNoLoader(ps[..|ps| - 1], name);
    }
  }

  lemma LoadersStep(ps: seq<Plan>, annotations: map<string, string>)
    requires ps != []
    ensures AddLoaders(ClosedLoaders(Front(ps), annotations), annotations,
                       Last(ps).users, LoaderPath(Last(ps).mountPath))
         == ClosedLoaders(ps, annotations)
  {
    var n := |ps| - 1;
    var before := ClosedLoaders(ps[..n], annotations);
    assert forall p :: p in ps <==> p in ps[..n] || p == ps[n];
    assert AllUsers(ps) == AllUsers(ps[..n]) + ps[n].users;
    forall m | m in ps[n].users && m !in AllUsers(ps[..n])
      ensures NewLoaders(ps[..n], m) == []
    {
      NoUserNoLoader(ps[..n], m);
    }
  }

  lemma InitsOfStep(q: Pod, ps: seq<Plan>, image: string, namespace: string)
    requires ps != [] && DistinctVolumes(ps) && UsersKnown(q, ps)
    ensures MountAll(EnsureInit(ClosedPod(q, Front(ps), image, namespace),
                                Flagged(q.annotations, Last(ps)), image, namespace),
                     Last(ps).users, Last(ps).volume, Last(ps).mountPath).inits
         == ClosedPod(q, ps, image, namespace).inits
  {
    var n := |ps| - 1;
    var plan := ps[n];
    var mid := ClosedPod(q, ps[..n], image, namespace);
    var head := MountedContainers(q.inits, q.containers, ps[..n]);
    var tail := NewInits(ps, q.inits, q.annotations, image, namespace);
    var p3 := EnsureInit(mid, Flagged(q.annotations, plan), image, namespace);
    InitStep(ps, q, image, namespace);
    assert p3.inits == head + tail;
    SameNames(q.containers, mid.containers);
    MountedStep(q.inits, q.containers, mid.containers, ps);
    InNewInits(ps, q.inits, q.annotations, image, namespace);
    forall c | c in tail
      ensures IsInjectorName(c.name)
    {
      var p :| p in ps && c == Injector(Flagged(q.annotations, p), image, namespace);
    }
    InjectorsUntouched(head, tail, mid.containers, plan);
  }

  lemma ClosedStep(q: Pod, ps: seq<Plan>, image: string, namespace: string)
    requires ps != [] && DistinctVolumes(ps) && UsersKnown(q, ps)
    ensures Step(Closed(q, ps[..|ps| - 1], image, namespace), ps[|ps| - 1], image, namespace)
         == Closed(q, ps, image, namespace)
  {
    var n := |ps| - 1;
    var plan := ps[n];
    var mid := ClosedPod(q, ps[..n], image, namespace);
    VolumeStep(ps, q.volumes);
    InitsOfStep(q, ps, image, namespace);
    MountedStep(q.containers, [], [], ps);
    LoadersStep(ps, q.annotations);
    var p1 := EnsureFsGroup(mid);
    var p2 := EnsureVolume(p1, plan.volume);
    assert p2.volumes == ClosedPod(q, ps, image, namespace).volumes;
  }

  /** The loop over plans with distinct volumes computes the closed form. */
  lemma {:induction false} RunClosed(q: Pod, ps: seq<Plan>, image: string, namespace: string)
    requires DistinctVolumes(ps) && UsersKnown(q, ps)
    ensures Run(Progress(q, map[]), ps, image, namespace) == Closed(q, ps, image, namespace)
    decreases |ps|
  {
    if ps == [] {
      ClosedNothing(q, image, namespace);
    } else {
      var n := |ps| - 1;
      RunClosed(q, ps[..n], image, namespace);
      ClosedStep(q, ps, image, namespace);
    }
  }

  lemma ClosedNothing(q: Pod, image: string, namespace: string)
    ensures Closed(q, [], image, namespace) == Progress(q, map[])
  {
    forall i | 0 <= i < |q.containers|
      ensures Mounted(q.containers[i], []) == q.containers[i]
    {
      assert q.containers[i].mounts + [] == q.containers[i].mounts;
    }
    forall i | 0 <= i < |q.inits|
      ensures Mounted(q.inits[i], []) == q.inits[i]
    {
      assert q.inits[i].mounts + [] == q.inits[i].mounts;
    }
    assert MountedContainers(q.containers, [], []) == q.containers;
    assert MountedContainers(q.inits, q.containers, []) + [] == q.inits;
    assert q.volumes + [] == q.volumes;
  }
}
