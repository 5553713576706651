/** Which containers of an admitted pod get another command line, and which one: for every pod and order,
    in terms of annotations, command and args as they were. */
module MutateWrap {
  import opened Common
  import opened Pods
  import opened Mutate
  import opened MutateFrame
  import opened MutateClosed
  import opened MutatePlans
  import opened MutateConfluence
  import opened MutateLoaders
  import ShellText

  // ----- What the annotations say -----

  /** "true", whatever the case of its letters. */
  predicate SaysTrue(v: string) {
    |v| == 4 && forall i :: 0 <= i < 4 ==> v[i] == "true"[i] || v[i] == "TRUE"[i]
  }

  /** The container's own annotation decides, and only without one that of the pod. */
  predicate Asked(annotations: map<string, string>, name: string) {
    var own, all := "tsecret.io/export-env." + name, "tsecret.io/export-env";
    && (own in annotations ==> SaysTrue(annotations[own]))
    && (own !in annotations ==> all in annotations && SaysTrue(annotations[all]))
  }

  /** The annotation is there and not blank. */
  predicate Given(annotations: map<string, string>, key: string) {
    key in annotations && exists c :: c in annotations[key] && !IsSpace(c)
  }

  /** The entrypoint: the container's own annotation, or else the pod's, or else its command and args. */
  ghost predicate EntryOf(annotations: map<string, string>, c: Container, e: string) {
    var own, all := "tsecret.io/entrypoint." + c.name, "tsecret.io/entrypoint";
    && (Given(annotations, own) ==> e == annotations[own])
    && (!Given(annotations, own) && Given(annotations, all) ==> e == annotations[all])
    && (!Given(annotations, own) && !Given(annotations, all) ==>
          c.command + c.args != [] && e == ShellText.ShellJoin(c.command + c.args))
  }

  /** The first argument contains the name of a loader. */
  ghost predicate Mentions(args: seq<string>) {
    args != [] && exists before: string, after: string :: args[0] == before + "load-env.sh" + after
  }

  lemma TrueIff(v: string)
    ensures IsTrue(v) <==> SaysTrue(v)
  {
    assert "true"[0] == 't' && "true"[1] == 'r' && "true"[2] == 'u' && "true"[3] == 'e';
    assert "TRUE"[0] == 'T' && "TRUE"[1] == 'R' && "TRUE"[2] == 'U' && "TRUE"[3] == 'E';
    if SaysTrue(v) {
      assert v[0] == "true"[0] || v[0] == "TRUE"[0];
      assert v[1] == "true"[1] || v[1] == "TRUE"[1];
      assert v[2] == "true"[2] || v[2] == "TRUE"[2];
      assert v[3] == "true"[3] || v[3] == "TRUE"[3];
    }
  }

  lemma AskedIff(annotations: map<string, string>, name: string)
    ensures ExportEnabled(annotations, name) <==> Asked(annotations, name)
  {
    hide IsTrue, SaysTrue;
    assert EXPORT_ENV + "." + name == "tsecret.io/export-env." + name;
    forall v
      ensures IsTrue(v) <==> SaysTrue(v)
    {
      TrueIff(v);
    }
  }

  lemma EntryIff(annotations: map<string, string>, c: Container, e: string)
    ensures ResolveEntrypoint(annotations, c) == Some(e) <==> EntryOf(annotations, c, e)
  {
    hide IsSpace, ShellText.ShellJoin;
    assert ENTRYPOINT + "." + c.name == "tsecret.io/entrypoint." + c.name;
    AnnotatedIff(annotations, ENTRYPOINT);
    AnnotatedIff(annotations, ENTRYPOINT + "." + c.name);
  }

  lemma AnnotatedIff(annotations: map<string, string>, key: string)
    ensures Annotated(annotations, key).Some? <==> Given(annotations, key)
    ensures Given(annotations, key) ==> Annotated(annotations, key) == Some(annotations[key])
  {
  }

  lemma MentionsIff(c: Container)
    ensures AlreadyWrapped(c) <==> Mentions(c.args)
  {
    if c.args != [] {
      ContainsIff(c.args[0], LOADER);
    }
  }

  lemma ContainsIff(s: string, sub: string)
    ensures Contains(s, sub) <==> exists before: string, after: string :: s == before + sub + after
  {
    if Contains(s, sub) {
      var i :| 0 <= i <= |s| && sub <= s[i..];
      assert s == s[..i] + sub + s[i..][|sub|..];
    }
    if before: string, after: string :| s == before + sub + after {
      assert s[|before|..] == sub + after;
    }
  }

  // ----- What one container becomes -----

  /** The container sources the loaders and runs the entrypoint. */
  ghost predicate Sourcing(annotations: map<string, string>, c: Container, loaders: seq<string>, c': Container) {
    && c'.command == ["/bin/sh", "-c"]
    && exists e :: EntryOf(annotations, c, e) && c'.args == [ShellText.WrapText(loaders, e)]
  }

  predicate SameCommandLine(c: Container, c': Container) {
    c'.command == c.command && c'.args == c.args
  }

  lemma FoundBecomes(annotations: map<string, string>, c: Container, loaders: Loaders)
    requires c.name in loaders && ResolveEntrypoint(annotations, c).Some?
    ensures var c' := WrapFound(c, loaders, annotations);
            if Mentions(c.args) then SameCommandLine(c, c') else Sourcing(annotations, c, loaders[c.name], c')
  {
    hide Mentions, AlreadyWrapped, EntryOf, ResolveEntrypoint;
    MentionsIff(c);
    EntryIff(annotations, c, ResolveEntrypoint(annotations, c).value);
  }

  /** The container reads a TSecret into its environment. */
  ghost predicate ReadsTSecret(c: Container, tsecrets: set<string>) {
    || (exists e :: e in c.envFrom && e.SecretEnvFrom? && e.secret in tsecrets)
    || (exists e :: e in c.env && e.SecretKeyEnv? && e.secret in tsecrets)
  }

  /** The container mounts a volume that a TSecret stands for. */
  ghost predicate MountsTSecret(p: Pod, c: Container, tsecrets: set<string>) {
    exists v, m :: v in p.volumes && v.source.SecretSource? && v.source.secretName in tsecrets
                   && m in c.mounts && m.name == v.name
  }

  /** A container of the name mounts a TSecret, or it or an init container, except the handler's own, reads
      one. */
  ghost predicate Uses(p: Pod, tsecrets: set<string>, name: string) {
    || (exists c :: c in p.containers && c.name == name
                    && (MountsTSecret(p, c, tsecrets) || ReadsTSecret(c, tsecrets)))
    || (exists c :: c in p.inits && c.name == name && !("tsecret-init-" <= name) && ReadsTSecret(c, tsecrets))
  }

  /** The container uses a TSecret and asks for its environment. */
  ghost predicate Loads(p: Pod, tsecrets: set<string>, name: string) {
    Asked(p.annotations, name) && Uses(p, tsecrets, name)
  }

  lemma ReadsIff(c: Container, tsecrets: set<string>)
    ensures ReadsTSecret(c, tsecrets) <==> exists r :: EnvReference(c, tsecrets, r)
    ensures forall r :: EnvReference(c, tsecrets, r) ==> r.users == {c.name}
  {
    hide EnvRef;
    assert forall s, prefix :: EnvRef(s, prefix, c.name).users == {c.name} by {
      EnvRefUsers(c.name);
    }
    if e :| e in c.envFrom && e.SecretEnvFrom? && e.secret in tsecrets {
      assert EnvReference(c, tsecrets, EnvRef(e.secret, e.prefix, c.name));
    }
    if e :| e in c.env && e.SecretKeyEnv? && e.secret in tsecrets {
      assert EnvReference(c, tsecrets, EnvRef(e.secret, "", c.name));
    }
  }

  lemma EnvRefUsers(name: string)
    ensures forall s, prefix :: EnvRef(s, prefix, name).users == {name}
  {
  }

  lemma MountUsersAre(cs: seq<Container>, volume: string, name: string)
    ensures name in MountUsers(cs, volume)
       <==> exists c, m :: c in cs && c.name == name && m in c.mounts && m.name == volume
  {
    if name in MountUsers(cs, volume) {
      var i :| 0 <= i < |cs| && HasMount(cs[i].mounts, volume) && cs[i].name == name;
      HasMountIff(cs[i].mounts, volume);
      assert cs[i] in cs;
    }
    if c, m :| c in cs && c.name == name && m in c.mounts && m.name == volume {
      HasMountIff(c.mounts, volume);
      var i :| 0 <= i < |cs| && cs[i] == c;
    }
  }

  lemma VolumeUse(p: Pod, tsecrets: set<string>, name: string, v: Volume)
    requires v in p.volumes && VolumeTracked(v, tsecrets)
    ensures name in VolumeRef(v, p.containers).users ==> Uses(p, tsecrets, name)
    ensures forall c, m :: c in p.containers && c.name == name && m in c.mounts && m.name == v.name ==>
              name in VolumeRef(v, p.containers).users
  {
    hide ReadsTSecret, MountUsers, VolumePath;
    MountUsersAre(p.containers, v.name, name);
    if name in VolumeRef(v, p.containers).users {
      var c, m :| c in p.containers && c.name == name && m in c.mounts && m.name == v.name;
      assert MountsTSecret(p, c, tsecrets);
    }
  }

  /** These are the users of the references that the collector finds. */
  lemma UsesIff(p: Pod, tsecrets: set<string>, name: string)
    ensures Uses(p, tsecrets, name) <==> exists r :: r in AllRefs(p, tsecrets) && name in r.users
  {
    hide AllRefs, EnvReference, ReadsTSecret, VolumeRef;
    forall r
      ensures r in AllRefs(p, tsecrets) <==> Reference(p, tsecrets, r)
    {
      InAllRefs(p, tsecrets, r);
    }
    forall c
      ensures ReadsTSecret(c, tsecrets) <==> exists r :: EnvReference(c, tsecrets, r)
      ensures forall r :: EnvReference(c, tsecrets, r) ==> r.users == {c.name}
    {
      ReadsIff(c, tsecrets);
    }
    forall v | v in p.volumes && VolumeTracked(v, tsecrets)
      ensures name in VolumeRef(v, p.containers).users ==> Uses(p, tsecrets, name)
      ensures forall c, m :: c in p.containers && c.name == name && m in c.mounts && m.name == v.name ==>
                name in VolumeRef(v, p.containers).users
    {
      VolumeUse(p, tsecrets, name, v);
    }
    if r :| r in AllRefs(p, tsecrets) && name in r.users {
      if v :| v in p.volumes && VolumeTracked(v, tsecrets) && r == VolumeRef(v, p.containers) {
      } else {
        var c :| Scanned(p, c) && EnvReference(c, tsecrets, r);
        assert ReadsTSecret(c, tsecrets);
      }
    }
    if Uses(p, tsecrets, name) {
      UseIsReferred(p, tsecrets, name);
    }
  }

  lemma UseIsReferred(p: Pod, tsecrets: set<string>, name: string)
    requires Uses(p, tsecrets, name)
    ensures exists r :: r in AllRefs(p, tsecrets) && name in r.users
  {
    hide AllRefs, EnvReference, ReadsTSecret, VolumeRef;
    if c :| c in p.containers && c.name == name && MountsTSecret(p, c, tsecrets) {
      var v, m :| v in p.volumes && v.source.SecretSource? && v.source.secretName in tsecrets
                  && m in c.mounts && m.name == v.name;
      VolumeUse(p, tsecrets, name, v);
      InAllRefs(p, tsecrets, VolumeRef(v, p.containers));
    } else {
      var c :| Scanned(p, c) && c.name == name && ReadsTSecret(c, tsecrets);
      ReadsIff(c, tsecrets);
      var r :| EnvReference(c, tsecrets, r);
      InAllRefs(p, tsecrets, r);
    }
  }

  lemma LoadsIff(p: Pod, tsecrets: set<string>, order: seq<Key>, name: string)
    requires IsOrder(order, PodPlans(p, tsecrets))
    ensures Loads(p, tsecrets, name) <==> name in ClosedLoaders(OrderedPlans(p, tsecrets, order), p.annotations)
    ensures name in ClosedLoaders(OrderedPlans(p, tsecrets, order), p.annotations) ==>
              ClosedLoaders(OrderedPlans(p, tsecrets, order), p.annotations)[name]
              == NewLoaders(OrderedPlans(p, tsecrets, order), name)
  {
    hide Asked, ExportEnabled, NewLoaders, Uses;
    UsersOfPlans(p, tsecrets, order, name);
    UsesIff(p, tsecrets, name);
    AskedIff(p.annotations, name);
  }

  /** Loaders that a wrapped container sources are mentioned in its arguments. */
  lemma SourcingMentions(annotations: map<string, string>, c: Container, ps: seq<Plan>, c': Container)
    requires c.name in AllUsers(ps) && Sourcing(annotations, c, NewLoaders(ps, c.name), c')
    ensures Mentions(c'.args)
  {
    hide EntryOf;
    var e :| EntryOf(annotations, c, e) && c'.args == [ShellText.WrapText(NewLoaders(ps, c.name), e)];
    var loaders := NewLoaders(ps, c.name);
    InNewLoaders(ps, c.name);
    var plan :| plan in ps && c.name in plan.users;
    assert LoaderPath(plan.mountPath) in loaders;
    assert loaders[0] in loaders;
    var first :| first in ps && c.name in first.users && loaders[0] == LoaderPath(first.mountPath);
    WrappedIsSeen(loaders, first.mountPath, e);
    MentionsIff(c');
  }

  // ----- In the admitted pod -----

  /** The pod before wrapping, and the loaders. */
  lemma BeforeWrapping(p: Pod, tsecrets: set<string>, image: string, namespace: string, order: seq<Key>)
      returns (q: Pod)
    requires IsOrder(order, PodPlans(p, tsecrets))
    requires Handle(p, tsecrets, image, namespace, order).Allowed?
    ensures Grown(Strip(p, tsecrets), q)
    ensures Handle(p, tsecrets, image, namespace, order).pod
         == WrapAll(q, ClosedLoaders(OrderedPlans(p, tsecrets, order), p.annotations))
  {
    hide Handle, Run, ClosedLoaders;
    var s0 := Progress(Strip(p, tsecrets), map[]);
    var ps := OrderedPlans(p, tsecrets, order);
    AllowedForm(p, tsecrets, image, namespace, order);
    RunGrows(s0, ps, image, namespace);
    RunLoaders(s0, ps, image, namespace);
    q := Run(s0, ps, image, namespace).pod;
  }

  /** What becomes of container c, and of c' the container at its place. */
  ghost predicate Becomes(p: Pod, tsecrets: set<string>, found: bool, c: Container, loaders: seq<string>,
                          c': Container)
  {
    && (found && Loads(p, tsecrets, c.name) && !Mentions(c.args) ==> Sourcing(p.annotations, c, loaders, c'))
    && (found && Loads(p, tsecrets, c.name) ==> (SameCommandLine(c, c') <==> Mentions(c.args)))
    && (!found || !Loads(p, tsecrets, c.name) ==> SameCommandLine(c, c'))
  }

  /** One container: b is c with references taken out and mounts added, and c' is b after wrapping. */
  lemma OneBecomes(p: Pod, tsecrets: set<string>, order: seq<Key>, found: bool, c: Container, b: Container,
                   c': Container)
    requires IsOrder(order, PodPlans(p, tsecrets))
    requires b.name == c.name && b.command == c.command && b.args == c.args
    requires var loaders := ClosedLoaders(OrderedPlans(p, tsecrets, order), p.annotations);
             c' == if found && c.name in loaders then WrapFound(b, loaders, p.annotations) else b
    requires found && Loads(p, tsecrets, c.name) ==> ResolveEntrypoint(p.annotations, c).Some?
    ensures Becomes(p, tsecrets, found, c, NewLoaders(OrderedPlans(p, tsecrets, order), c.name), c')
  {
    hide Loads, Mentions, NewLoaders, WrapFound, EntryOf, OrderedPlans;
    var ps := OrderedPlans(p, tsecrets, order);
    LoadsIff(p, tsecrets, order, c.name);
    if found && Loads(p, tsecrets, c.name) {
      SameEntry(p.annotations, c, b);
      FoundBecomes(p.annotations, b, ClosedLoaders(ps, p.annotations));
      if !Mentions(c.args) {
        SameSourcing(p.annotations, c, b, NewLoaders(ps, c.name), c');
        SourcingMentions(p.annotations, c, ps, c');
      }
    }
  }

  lemma SameEntry(annotations: map<string, string>, c: Container, b: Container)
    requires b.name == c.name && b.command == c.command && b.args == c.args
    ensures ResolveEntrypoint(annotations, b) == ResolveEntrypoint(annotations, c)
  {
    hide ShellText.ShellJoin, Annotated;
  }

  lemma SameSourcing(annotations: map<string, string>, c: Container, b: Container, loaders: seq<string>, c': Container)
    requires b.name == c.name && b.command == c.command && b.args == c.args
    requires Sourcing(annotations, b, loaders, c')
    ensures Sourcing(annotations, c, loaders, c')
  {
    hide ShellText.ShellJoin, Given;
    var e :| EntryOf(annotations, b, e) && c'.args == [ShellText.WrapText(loaders, e)];
    assert EntryOf(annotations, c, e);
  }

  /** An admitted pod has no container to wrap that lacks an entrypoint. */
  lemma Startable(p: Pod, tsecrets: set<string>, image: string, namespace: string, order: seq<Key>, name: string)
    requires IsOrder(order, PodPlans(p, tsecrets))
    requires Handle(p, tsecrets, image, namespace, order).Allowed? && Loads(p, tsecrets, name)
    ensures !LacksEntrypoint(p, name)
  {
    hide Handle, LacksEntrypoint, ExportEnabled, Asked, Uses;
    DeniedIff(p, tsecrets, image, namespace, order);
    AskedIff(p.annotations, name);
    UsesIff(p, tsecrets, name);
    assert !Unstartable(p, tsecrets, name);
  }

  /** For every admitted pod and every order: the container that is found under a name that uses a TSecret
      and asks for its environment keeps its command line exactly if its first argument contains the text
      load-env.sh; otherwise it becomes a shell that sources its loaders and runs its entrypoint. All other
      containers keep theirs. */
  lemma CommandLine(p: Pod, tsecrets: set<string>, image: string, namespace: string, order: seq<Key>, i: nat)
    requires IsOrder(order, PodPlans(p, tsecrets))
    requires Handle(p, tsecrets, image, namespace, order).Allowed? && i < |p.containers|
    ensures i < |Handle(p, tsecrets, image, namespace, order).pod.containers|
    ensures var c, c' := p.containers[i], Handle(p, tsecrets, image, namespace, order).pod.containers[i];
            Becomes(p, tsecrets, IsFirst(p.containers, i), c,
                    NewLoaders(OrderedPlans(p, tsecrets, order), c.name), c')
  {
    hide Handle, ClosedLoaders, WrapFound, NewLoaders, Becomes, Loads, ResolveEntrypoint;
    var q := BeforeWrapping(p, tsecrets, image, namespace, order);
    var c, q0 := p.containers[i], Strip(p, tsecrets);
    NamesStay(q0.containers, q.containers);
    StripNames(p, tsecrets);
    assert Extends(q0.containers[i], q.containers[i]);
    if IsFirst(p.containers, i) && Loads(p, tsecrets, c.name) {
      Startable(p, tsecrets, image, namespace, order, c.name);
    }
    OneBecomes(p, tsecrets, order, IsFirst(p.containers, i), c, q.containers[i],
               Handle(p, tsecrets, image, namespace, order).pod.containers[i]);
  }

  /** The same for init containers, which are found only where no container has the name. */
  lemma CommandLineOfInit(p: Pod, tsecrets: set<string>, image: string, namespace: string, order: seq<Key>, i: nat)
    requires IsOrder(order, PodPlans(p, tsecrets))
    requires Handle(p, tsecrets, image, namespace, order).Allowed? && i < |p.inits|
    ensures i < |Handle(p, tsecrets, image, namespace, order).pod.inits|
    ensures var c, c' := p.inits[i], Handle(p, tsecrets, image, namespace, order).pod.inits[i];
            Becomes(p, tsecrets, IsFirst(p.inits, i) && !HasContainer(p.containers, c.name), c,
                    NewLoaders(OrderedPlans(p, tsecrets, order), c.name), c')
  {
    hide Handle, ClosedLoaders, WrapFound, NewLoaders, Becomes, Loads, ResolveEntrypoint;
    var q := BeforeWrapping(p, tsecrets, image, namespace, order);
    var c, q0 := p.inits[i], Strip(p, tsecrets);
    NamesStay(q0.containers, q.containers);
    NamesStay(q0.inits, q.inits[..|q0.inits|]);
    StripNames(p, tsecrets);
    assert Extends(q0.inits[i], q.inits[i]);
    assert IsFirst(q.inits, i) <==> IsFirst(q.inits[..|q0.inits|], i);
    var found := IsFirst(p.inits, i) && !HasContainer(p.containers, c.name);
    if found && Loads(p, tsecrets, c.name) {
      Startable(p, tsecrets, image, namespace, order, c.name);
    }
    OneBecomes(p, tsecrets, order, found, c, q.inits[i], Handle(p, tsecrets, image, namespace, order).pod.inits[i]);
  }

  lemma NamesStay(cs0: seq<Container>, cs: seq<Container>)
    requires |cs0| == |cs| && AllExtend(cs0, cs)
    ensures forall i :: 0 <= i < |cs| ==> (IsFirst(cs0, i) <==> IsFirst(cs, i))
    ensures forall name :: HasContainer(cs0, name) <==> HasContainer(cs, name)
  {
    forall i | 0 <= i < |cs0|
      ensures cs0[i].name == cs[i].name
    {
      assert Extends(cs0[i], cs[i]);
    }
    SameNames(cs0, cs);
  }

  // ----- Who gets a loader -----

  /** The injector of a plan is told to write a loader exactly if one of the plan's users asks for its
      environment. */
  lemma ExportFlagIff(annotations: map<string, string>, plan: Plan, image: string, namespace: string)
    requires !plan.exportEnv
    ensures "--export-env" in Injector(Flagged(annotations, plan), image, namespace).args
       <==> exists n :: n in plan.users && Asked(annotations, n)
  {
    hide Asked, ExportEnabled;
    forall n
      ensures ExportEnabled(annotations, n) <==> Asked(annotations, n)
    {
      AskedIff(annotations, n);
    }
    OtherFlags(Flagged(annotations, plan), namespace);
  }

  lemma OtherFlags(plan: Plan, namespace: string)
    ensures "--export-env" in InjectorArgs(plan, namespace) <==> plan.exportEnv
  {
    assert "--export-env"[2] == 'e';
    assert ("--secret=" + plan.secret)[2] == 's' && ("--mount=" + plan.mountPath)[2] == 'm';
    assert ("--namespace=" + namespace)[2] == 'n' && ("--prefix=" + plan.prefix)[2] == 'p';
    if plan.exportEnv {
      var args := InjectorArgs(plan, namespace);
      assert args[|args| - 1] == "--export-env";
    }
  }

  // ----- When nothing is admitted -----

  /** The container that a search by its name finds: containers come before init containers. */
  ghost predicate FoundFirst(p: Pod, c: Container) {
    || (exists i :: 0 <= i < |p.containers| && p.containers[i] == c && IsFirst(p.containers, i))
    || (!HasContainer(p.containers, c.name)
        && exists i :: 0 <= i < |p.inits| && p.inits[i] == c && IsFirst(p.inits, i))
  }

  /** No annotation, command or argument says what to run. */
  predicate Silent(annotations: map<string, string>, c: Container) {
    && !Given(annotations, "tsecret.io/entrypoint." + c.name) && !Given(annotations, "tsecret.io/entrypoint")
    && c.command == [] && c.args == []
  }

  lemma SilentIff(annotations: map<string, string>, c: Container)
    ensures Silent(annotations, c) <==> ResolveEntrypoint(annotations, c).None?
  {
    hide IsSpace, ShellText.ShellJoin;
    if ResolveEntrypoint(annotations, c).Some? {
      EntryIff(annotations, c, ResolveEntrypoint(annotations, c).value);
    } else if Given(annotations, "tsecret.io/entrypoint." + c.name) {
      EntryIff(annotations, c, annotations["tsecret.io/entrypoint." + c.name]);
    } else if Given(annotations, "tsecret.io/entrypoint") {
      EntryIff(annotations, c, annotations["tsecret.io/entrypoint"]);
    } else {
      EntryIff(annotations, c, ShellText.ShellJoin(c.command + c.args));
    }
  }

  lemma LacksIff(p: Pod, name: string)
    ensures LacksEntrypoint(p, name)
       <==> exists c :: FoundFirst(p, c) && c.name == name && Silent(p.annotations, c)
  {
    hide Silent, ResolveEntrypoint, IsFirst;
    forall c
      ensures Silent(p.annotations, c) <==> ResolveEntrypoint(p.annotations, c).None?
    {
      SilentIff(p.annotations, c);
    }
  }

  /** A request is denied exactly if a container that uses a TSecret and asks for its environment says
      nowhere what to run. */
  lemma DeniedWhen(p: Pod, tsecrets: set<string>, image: string, namespace: string, order: seq<Key>)
    requires IsOrder(order, PodPlans(p, tsecrets))
    ensures Handle(p, tsecrets, image, namespace, order).Denied?
       <==> exists c :: FoundFirst(p, c) && Loads(p, tsecrets, c.name) && Silent(p.annotations, c)
  {
    hide Handle, LacksEntrypoint, ExportEnabled, Asked, Uses, Silent, FoundFirst;
    DeniedIff(p, tsecrets, image, namespace, order);
    forall name
      ensures Unstartable(p, tsecrets, name)
         <==> Loads(p, tsecrets, name) && exists c :: FoundFirst(p, c) && c.name == name && Silent(p.annotations, c)
    {
      AskedIff(p.annotations, name);
      UsesIff(p, tsecrets, name);
      LacksIff(p, name);
    }
  }
}
