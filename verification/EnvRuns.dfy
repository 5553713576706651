/** Pods with one container that reads TSecrets through envFrom. The injectors of every admitted one can do
    their work, so what the environment theorem says of such a pod can be seen. */
module EnvRuns {
  import opened Common
  import opened Pods
  import opened Mutate
  import opened MutateClosed
  import opened MutatePlans
  import opened MutateCoverage
  import opened MutateWrap
  import opened MutateConfluence
  import opened MutateAppend
  import opened Shell
  import opened ShellText
  import opened EnvMeaning
  import opened EnvPreserved
  import opened EnvNative
  import Inject

  const INJECTOR_IMAGE := "injector"
  const NAMESPACE := "default"

  function OnePod(c: Container): Pod {
    Pod(map[EXPORT_ENV := "true"], None, [], [c], [])
  }

  /** The TSecret exists, and its variables have names that a shell can use. */
  ghost predicate NamedSource(e: EnvFrom, secrets: Secrets)
    requires e.SecretEnvFrom?
  {
    && PlainSecret(e.secret) && e.secret in secrets
    && forall n :: n in SourceVars(secrets[e.secret], e.prefix) ==> IsName(n)
  }

  ghost predicate Simple(c: Container, tsecrets: set<string>, secrets: Secrets) {
    && c.mounts == [] && !IsInjectorName(c.name)
    && (c.command != [] || c.args != []) && !Mentions(c.args)
    && (forall e :: e in c.env ==> e.PlainEnv?)
    && (forall e :: e in c.envFrom && EnvFromTracked(e, tsecrets) ==> NamedSource(e, secrets))
    && exists e :: e in c.envFrom && EnvFromTracked(e, tsecrets)
  }

  // ----- The pod meets the preconditions of the theorem -----

  lemma SimpleRef(c: Container, tsecrets: set<string>, secrets: Secrets, r: Ref)
    requires Simple(c, tsecrets, secrets)
    ensures r in AllRefs(OnePod(c), tsecrets)
       <==> exists e :: e in c.envFrom && EnvFromTracked(e, tsecrets) && r == EnvRef(e.secret, e.prefix, c.name)
  {
    hide EnvRef, NamedSource, Mentions, IsInjectorName;
    InAllRefs(OnePod(c), tsecrets, r);
    assert Scanned(OnePod(c), c);
    assert forall x :: Scanned(OnePod(c), x) <==> x == c;
  }

  lemma VolumeNameInjective(a: string, b: string)
    ensures VolumeName(a) == VolumeName(b) <==> a == b
  {
    CancelPrefix("tsecret-", a, b);
  }

  lemma Annotations(c: Container)
    ensures ExportEnabled(OnePod(c).annotations, c.name) && Asked(OnePod(c).annotations, c.name)
    ensures !Given(OnePod(c).annotations, "tsecret.io/entrypoint." + c.name)
    ensures !Given(OnePod(c).annotations, "tsecret.io/entrypoint")
  {
    var own := EXPORT_ENV + "." + c.name;
    assert |own| > |EXPORT_ENV|;
    assert EXPORT_ENV[12] == 'x' && ENTRYPOINT[12] == 'n';
    assert (ENTRYPOINT + "." + c.name)[12] == ENTRYPOINT[12];
  }

  lemma InjectorNameIs(volume: string)
    ensures IsInjectorName(InitName(volume))
  {
  }

  lemma SimpleNamesFree(c: Container, tsecrets: set<string>, secrets: Secrets)
    requires Simple(c, tsecrets, secrets)
    ensures NamesFree(OnePod(c), tsecrets) && EnvFromOnly(OnePod(c), tsecrets)
  {
    hide Mentions, NamedSource, VolumeName;
    var p := OnePod(c);
    forall r | r in AllRefs(p, tsecrets)
      ensures r.volume == VolumeName(r.secret)
      ensures !HasContainer(p.inits, InitName(r.volume)) && !HasContainer(p.containers, InitName(r.volume))
    {
      SimpleRef(c, tsecrets, secrets, r);
      InjectorNameIs(r.volume);
    }
    forall r, r' | r in AllRefs(p, tsecrets) && r' in AllRefs(p, tsecrets) && r.volume == r'.volume
      ensures r.secret == r'.secret
    {
      VolumeNameInjective(r.secret, r'.secret);
    }
  }

  lemma SimpleLoading(c: Container, tsecrets: set<string>, secrets: Secrets)
    requires Simple(c, tsecrets, secrets)
    ensures Loading(OnePod(c), 0, tsecrets, secrets)
  {
    hide Mentions, PlainSecret, IsName, IsInjectorName, NamesFree, Asked, Given, SourceVars;
    var p := OnePod(c);
    SimpleNamesFree(c, tsecrets, secrets);
    Annotations(c);
    forall e, r, n | e in c.envFrom && EnvFromTracked(e, tsecrets) && r in AllRefs(p, tsecrets)
                     && r.secret == e.secret && n in SourceVars(secrets[e.secret], r.prefix)
      ensures IsName(n)
    {
      SimpleRef(c, tsecrets, secrets, r);
      var e' :| e' in c.envFrom && EnvFromTracked(e', tsecrets) && r == EnvRef(e'.secret, e'.prefix, c.name);
      assert NamedSource(e', secrets);
    }
  }

  lemma SimpleAllowed(c: Container, tsecrets: set<string>, secrets: Secrets, order: seq<Key>)
    requires Simple(c, tsecrets, secrets) && IsOrder(order, PodPlans(OnePod(c), tsecrets))
    ensures Handle(OnePod(c), tsecrets, INJECTOR_IMAGE, NAMESPACE, order).Allowed?
  {
    hide Handle, ShellJoin, Mentions, IsInjectorName, NamedSource, IsOrder;
    DeniedIff(OnePod(c), tsecrets, INJECTOR_IMAGE, NAMESPACE, order);
  }

  // ----- What the injectors leave -----

  /** The directory that the injector of a plan fills. */
  ghost function DirOf(plan: Plan, secrets: Secrets): map<string, string> {
    if plan.secret in secrets then
      var vars := SourceVars(secrets[plan.secret], plan.prefix);
      vars[Inject.LOADER_NAME := LoaderText(plan.mountPath, SortedNames(vars))]
    else map[]
  }

  ghost function Volumes(ps: seq<Plan>, secrets: Secrets): map<string, map<string, string>> {
    if ps == [] then map[]
    else
      var plan := ps[|ps| - 1];
      Volumes(ps[..|ps| - 1], secrets)[plan.volume := DirOf(plan, secrets)]
  }

  /** The files of a directory, seen under a path. */
  function FilesAt(path: string, dir: map<string, string>): Files {
    map f | f in (set n | n in dir.Keys :: path + "/" + n) && f[if |path| < |f| then |path| + 1 else 0..] in dir ::
      dir[f[if |path| < |f| then |path| + 1 else 0..]]
  }

  ghost function AllFiles(ps: seq<Plan>, secrets: Secrets): Files {
    if ps == [] then map[]
    else
      var plan := ps[|ps| - 1];
      AllFiles(ps[..|ps| - 1], secrets) + FilesAt(plan.mountPath, DirOf(plan, secrets))
  }

  lemma {:induction false} VolumeHolds(ps: seq<Plan>, secrets: Secrets, plan: Plan)
    requires DistinctVolumes(ps) && plan in ps
    ensures plan.volume in Volumes(ps, secrets) && Volumes(ps, secrets)[plan.volume] == DirOf(plan, secrets)
  {
    hide DirOf;
    var n := |ps| - 1;
    var i :| 0 <= i < |ps| && ps[i] == plan;
    if i < n {
      assert plan in ps[..n];
      VolumeHolds(ps[..n], secrets, plan);
    }
  }

  lemma SeenFiles(path: string, dir: map<string, string>, n: string)
    requires n in dir
    ensures path + "/" + n in FilesAt(path, dir) && FilesAt(path, dir)[path + "/" + n] == dir[n]
  {
    var f := path + "/" + n;
    assert f[|path| + 1..] == n;
  }

  lemma LastSlash(a: string, f: string)
    requires '/' !in f
    ensures forall k :: |a| < k < |a + "/" + f| ==> (a + "/" + f)[k] != '/'
  {
    assert forall k :: |a| < k < |a + "/" + f| ==> (a + "/" + f)[k] == f[k - |a| - 1];
  }

  /** Paths that end in names without slashes are equal only part by part. */
  lemma SamePath(a: string, f: string, b: string, g: string)
    requires '/' !in f && '/' !in g && a + "/" + f == b + "/" + g
    ensures a == b
  {
    var path := a + "/" + f;
    LastSlash(a, f);
    LastSlash(b, g);
    assert path[|a|] == '/' && path[|b|] == '/';
    assert a == path[..|a|] && b == path[..|b|];
  }

  ghost predicate SlashFree(dir: map<string, string>) {
    forall f :: f in dir ==> '/' !in f
  }

  lemma FilesUnder(path: string, dir: map<string, string>, f: string)
    requires f in FilesAt(path, dir)
    ensures exists n :: n in dir && f == path + "/" + n
  {
  }

  lemma {:induction false} FileHolds(ps: seq<Plan>, secrets: Secrets, plan: Plan, f: string)
    requires plan in ps && f in DirOf(plan, secrets)
    requires forall p :: p in ps ==> SlashFree(DirOf(p, secrets))
    requires forall p, p' :: p in ps && p' in ps && p.mountPath == p'.mountPath ==> p == p'
    ensures plan.mountPath + "/" + f in AllFiles(ps, secrets)
    ensures AllFiles(ps, secrets)[plan.mountPath + "/" + f] == DirOf(plan, secrets)[f]
  {
    hide DirOf, FilesAt;
    var n := |ps| - 1;
    var last := ps[n];
    assert last in ps;
    if plan == last {
      SeenFiles(plan.mountPath, DirOf(plan, secrets), f);
    } else {
      var i :| 0 <= i < |ps| && ps[i] == plan;
      assert plan == ps[..n][i];
      FileHolds(ps[..n], secrets, plan, f);
      if plan.mountPath + "/" + f in FilesAt(last.mountPath, DirOf(last, secrets)) {
        FilesUnder(last.mountPath, DirOf(last, secrets), plan.mountPath + "/" + f);
        var g :| g in DirOf(last, secrets) && plan.mountPath + "/" + f == last.mountPath + "/" + g;
        assert SlashFree(DirOf(last, secrets)) && SlashFree(DirOf(plan, secrets));
        SamePath(plan.mountPath, f, last.mountPath, g);
      }
    }
  }

  // ----- The plans of such a pod -----

  lemma SimplePlan(c: Container, tsecrets: set<string>, secrets: Secrets, order: seq<Key>, plan: Plan)
    requires Simple(c, tsecrets, secrets) && IsOrder(order, PodPlans(OnePod(c), tsecrets))
    requires plan in OrderedPlans(OnePod(c), tsecrets, order)
    ensures EnvPlan(plan) && !plan.exportEnv && c.name in plan.users
    ensures PlainSecret(plan.secret) && plan.secret in secrets
    ensures forall n :: n in SourceVars(secrets[plan.secret], plan.prefix) ==> IsName(n)
  {
    hide SourceVars, PlainSecret, IsName, Mentions, IsInjectorName, VolumeName, MountPath;
    var p := OnePod(c);
    SimpleNamesFree(c, tsecrets, secrets);
    PlanShape(p, tsecrets, order, plan);
    var r :| r in AllRefs(p, tsecrets) && r.secret == plan.secret && r.prefix == plan.prefix;
    SimpleRef(c, tsecrets, secrets, r);
    var e :| e in c.envFrom && EnvFromTracked(e, tsecrets) && r == EnvRef(e.secret, e.prefix, c.name);
    assert NamedSource(e, secrets);
    assert KeyOf(r) == Key(plan.volume, plan.secret) && c.name in r.users;
  }

  lemma NoSlashes(plan: Plan, secrets: Secrets)
    requires plan.secret in secrets
    requires forall n :: n in SourceVars(secrets[plan.secret], plan.prefix) ==> IsName(n)
    ensures SlashFree(DirOf(plan, secrets))
  {
    hide SourceVars, LoaderText, SortedNames;
    assert forall ch :: ch in Inject.LOADER_NAME ==> ch != '/';
  }

  lemma SimpleFilled(annotations: map<string, string>, plan: Plan, secrets: Secrets)
    requires EnvPlan(plan) && !plan.exportEnv && PlanExports(annotations, plan)
    requires plan.secret != "" && plan.secret in secrets
    ensures var c := Injector(Flagged(annotations, plan), INJECTOR_IMAGE, NAMESPACE);
            Filled(DirOf(plan, secrets), c, secrets) && c.mounts == [Mount(plan.volume, plan.mountPath, false)]
  {
    hide LoaderText, Inject.SortStrings, SourceVars, SortedNames;
    assert MountPath(plan.secret)[|MOUNT_ROOT|] == '/';
    InjectorReads(annotations, plan, INJECTOR_IMAGE, NAMESPACE);
    var vars := SourceVars(secrets[plan.secret], plan.prefix);
    SortedNamesAre(vars, SortedNames(vars));
    assert map[] + vars == vars;
  }

  lemma SimpleInits(c: Container, tsecrets: set<string>, secrets: Secrets, order: seq<Key>, q: Pod)
    requires Simple(c, tsecrets, secrets) && IsOrder(order, PodPlans(OnePod(c), tsecrets))
    requires Appends(Strip(OnePod(c), tsecrets), q, OrderedPlans(OnePod(c), tsecrets, order), INJECTOR_IMAGE, NAMESPACE)
    ensures Injected(q, secrets, Volumes(OrderedPlans(OnePod(c), tsecrets, order), secrets))
  {
    hide Filled, DirOf, Simple, Volumes, ExportEnabled, SourceVars, IsName;
    var p := OnePod(c);
    var ps := OrderedPlans(p, tsecrets, order);
    SimpleNamesFree(c, tsecrets, secrets);
    OrderedDistinct(p, tsecrets, order);
    Annotations(c);
    forall i | 0 <= i < |q.inits|
      ensures |q.inits[i].mounts| == 1 && q.inits[i].mounts[0].name in Volumes(ps, secrets)
      ensures Filled(Volumes(ps, secrets)[q.inits[i].mounts[0].name], q.inits[i], secrets)
    {
      assert InjectorOf(q.inits[i], ps, p.annotations, INJECTOR_IMAGE, NAMESPACE);
      var plan :| plan in ps && q.inits[i] == Injector(Flagged(p.annotations, plan), INJECTOR_IMAGE, NAMESPACE);
      SimplePlan(c, tsecrets, secrets, order, plan);
      SimpleFilled(p.annotations, plan, secrets);
      VolumeHolds(ps, secrets, plan);
    }
  }

  lemma SimpleShows(c: Container, tsecrets: set<string>, secrets: Secrets, order: seq<Key>, c': Container)
    requires Simple(c, tsecrets, secrets) && IsOrder(order, PodPlans(OnePod(c), tsecrets))
    requires var ps := OrderedPlans(OnePod(c), tsecrets, order);
             NewMountsOf(Strip(OnePod(c), tsecrets).containers[0], c', ps)
    ensures var ps := OrderedPlans(OnePod(c), tsecrets, order);
            Shows(AllFiles(ps, secrets), c'.mounts, Volumes(ps, secrets))
  {
    hide DirOf, Volumes, AllFiles, SourceVars, IsName, NamedSource, IsInjectorName;
    var p := OnePod(c);
    var ps := OrderedPlans(p, tsecrets, order);
    PlansApart(c, tsecrets, secrets, order);
    forall m, f | m in c'.mounts && m.name in Volumes(ps, secrets) && f in Volumes(ps, secrets)[m.name]
      ensures m.mountPath + "/" + f in AllFiles(ps, secrets)
      ensures AllFiles(ps, secrets)[m.mountPath + "/" + f] == Volumes(ps, secrets)[m.name][f]
    {
      var j :| 0 <= j < |c'.mounts| && c'.mounts[j] == m;
      assert MountOf(c'.mounts[j], Strip(p, tsecrets).containers[0], ps);
      var plan :| plan in ps && m == Mount(plan.volume, plan.mountPath, true);
      VolumeHolds(ps, secrets, plan);
      FileHolds(ps, secrets, plan, f);
    }
  }

  lemma PlansApart(c: Container, tsecrets: set<string>, secrets: Secrets, order: seq<Key>)
    requires Simple(c, tsecrets, secrets) && IsOrder(order, PodPlans(OnePod(c), tsecrets))
    ensures var ps := OrderedPlans(OnePod(c), tsecrets, order);
            && DistinctVolumes(ps)
            && (forall p :: p in ps ==> SlashFree(DirOf(p, secrets)))
            && (forall p, p' :: p in ps && p' in ps && p.mountPath == p'.mountPath ==> p == p')
  {
    hide DirOf, SourceVars, IsName, NamedSource, IsInjectorName, Simple, SlashFree, MountPath, VolumeName;
    var ps := OrderedPlans(OnePod(c), tsecrets, order);
    SimpleNamesFree(c, tsecrets, secrets);
    OrderedDistinct(OnePod(c), tsecrets, order);
    forall p | p in ps
      ensures EnvPlan(p) && SlashFree(DirOf(p, secrets))
    {
      SimplePlan(c, tsecrets, secrets, order, p);
      NoSlashes(p, secrets);
    }
    forall p, p' | p in ps && p' in ps && p.mountPath == p'.mountPath
      ensures p == p'
    {
      LoaderPathInjective(p.secret, p'.secret);
      var i :| 0 <= i < |ps| && ps[i] == p;
      var j :| 0 <= j < |ps| && ps[j] == p';
    }
  }

  lemma SimplePrepared(c: Container, tsecrets: set<string>, secrets: Secrets, order: seq<Key>)
    requires Simple(c, tsecrets, secrets) && IsOrder(order, PodPlans(OnePod(c), tsecrets))
    ensures var ps := OrderedPlans(OnePod(c), tsecrets, order);
            Prepared(OnePod(c), 0, tsecrets, INJECTOR_IMAGE, NAMESPACE, order, secrets, Volumes(ps, secrets),
                     AllFiles(ps, secrets))
  {
    hide Handle, Simple, Injected, Shows, Volumes, AllFiles;
    var p := OnePod(c);
    SimpleAllowed(c, tsecrets, secrets, order);
    var q := Handle(p, tsecrets, INJECTOR_IMAGE, NAMESPACE, order).pod;
    Appended(p, tsecrets, INJECTOR_IMAGE, NAMESPACE, order);
    SimpleInits(c, tsecrets, secrets, order, q);
    SimpleShows(c, tsecrets, secrets, order, q.containers[0]);
  }

  // ----- Runs -----

  /** The pod is admitted with its plans in this order, its injectors run, and the container starts the
      process. */
  ghost predicate Runs(c: Container, tsecrets: set<string>, secrets: Secrets, order: seq<Key>,
                       image: Image, w: World, process: Process)
  {
    exists volumes, files ::
      && Prepared(OnePod(c), 0, tsecrets, INJECTOR_IMAGE, NAMESPACE, order, secrets, volumes, files)
      && RunContainer(Handle(OnePod(c), tsecrets, INJECTOR_IMAGE, NAMESPACE, order).pod.containers[0], files,
                      image, tsecrets, secrets, w)
         == Some(process)
  }

  /** Whatever the order, the container starts what Kubernetes would have started without the webhook. */
  ghost predicate Works(c: Container, tsecrets: set<string>, secrets: Secrets, image: Image, w: World) {
    && (exists order, x :: Runs(c, tsecrets, secrets, order, image, w, x))
    && forall order, x :: Runs(c, tsecrets, secrets, order, image, w, x) ==>
         x == NativeProcess(c, image, tsecrets, secrets, w)
  }

  /** Whatever the order, the container starts something else. */
  ghost predicate Fails(c: Container, tsecrets: set<string>, secrets: Secrets, image: Image, w: World) {
    && (exists order, x :: Runs(c, tsecrets, secrets, order, image, w, x))
    && forall order, x :: Runs(c, tsecrets, secrets, order, image, w, x) ==>
         x != NativeProcess(c, image, tsecrets, secrets, w)
  }

  ghost function LinesIn(c: Container, tsecrets: set<string>, secrets: Secrets, order: seq<Key>): seq<Line>
    requires IsOrder(order, PodPlans(OnePod(c), tsecrets))
  {
    LoadedLines(OnePod(c), tsecrets, order, 0, secrets)
  }

  /** In every order the container starts exactly one process. */
  lemma SimpleRuns(c: Container, tsecrets: set<string>, secrets: Secrets, order: seq<Key>,
                   image: Image, w: World, process: Process)
    requires Simple(c, tsecrets, secrets) && IsOrder(order, PodPlans(OnePod(c), tsecrets))
    ensures Runs(c, tsecrets, secrets, order, image, w, process)
       <==> process == Process(c.command + c.args,
                               LoadLines(StartEnv(KeptEnv(c, image, tsecrets, secrets, w), image.user),
                                         LinesIn(c, tsecrets, secrets, order), image.user))
  {
    hide Handle, RunContainer, NativeEnv, LoadLines, StartEnv, LoadedLines, Injected, Shows, Simple, Loading;
    var p := OnePod(c);
    SimpleLoading(c, tsecrets, secrets);
    SimpleNamesFree(c, tsecrets, secrets);
    SimplePrepared(c, tsecrets, secrets, order);
    forall volumes, files |
      Prepared(p, 0, tsecrets, INJECTOR_IMAGE, NAMESPACE, order, secrets, volumes, files)
      ensures RunContainer(Handle(p, tsecrets, INJECTOR_IMAGE, NAMESPACE, order).pod.containers[0], files,
                           image, tsecrets, secrets, w)
              == Some(Process(c.command + c.args,
                              LoadLines(StartEnv(KeptEnv(c, image, tsecrets, secrets, w), image.user),
                                        LinesIn(c, tsecrets, secrets, order), image.user)))
    {
      EnvFromPreserved(p, 0, tsecrets, INJECTOR_IMAGE, NAMESPACE, order, secrets, volumes, files, image, w);
      KeptParts(p, 0, tsecrets, INJECTOR_IMAGE, NAMESPACE, order);
      var c' := Handle(p, tsecrets, INJECTOR_IMAGE, NAMESPACE, order).pod.containers[0];
      SameParts(c', c.(envFrom := KeepEnvFrom(c.envFrom, tsecrets)), image, tsecrets, secrets, w);
    }
  }

  /** The condition of the theorem, for one order of the plans. */
  ghost predicate Safe(c: Container, tsecrets: set<string>, secrets: Secrets, order: seq<Key>, image: Image, w: World)
    requires IsOrder(order, PodPlans(OnePod(c), tsecrets))
  {
    && ProgramSafe(c, image)
    && VarsSafe(c, image, tsecrets, secrets, w, LoadedNames(OnePod(c), tsecrets, order, 0, secrets))
  }

  lemma NativeIff(c: Container, tsecrets: set<string>, secrets: Secrets, order: seq<Key>, image: Image, w: World)
    requires Simple(c, tsecrets, secrets) && Supported(OnePod(c), 0, tsecrets, secrets)
    requires IsOrder(order, PodPlans(OnePod(c), tsecrets))
    ensures Runs(c, tsecrets, secrets, order, image, w, NativeProcess(c, image, tsecrets, secrets, w))
       <==> Safe(c, tsecrets, secrets, order, image, w)
  {
    hide Handle, RunContainer, NativeProcess, ProgramSafe, VarsSafe, LoadedNames, Injected, Shows, Simple, Supported;
    var p := OnePod(c);
    SimplePrepared(c, tsecrets, secrets, order);
    forall volumes, files |
      Prepared(p, 0, tsecrets, INJECTOR_IMAGE, NAMESPACE, order, secrets, volumes, files)
      ensures RunContainer(Handle(p, tsecrets, INJECTOR_IMAGE, NAMESPACE, order).pod.containers[0], files,
                           image, tsecrets, secrets, w)
              == Some(NativeProcess(c, image, tsecrets, secrets, w))
         <==> Safe(c, tsecrets, secrets, order, image, w)
    {
      SameAsNativeIff(p, 0, tsecrets, INJECTOR_IMAGE, NAMESPACE, order, secrets, volumes, files, image, w);
    }
  }

  /** The condition decides between the two outcomes. */
  lemma Decided(c: Container, tsecrets: set<string>, secrets: Secrets, image: Image, w: World)
    requires Simple(c, tsecrets, secrets) && Supported(OnePod(c), 0, tsecrets, secrets)
    ensures Works(c, tsecrets, secrets, image, w)
       <==> forall order :: IsOrder(order, PodPlans(OnePod(c), tsecrets)) ==>
              Safe(c, tsecrets, secrets, order, image, w)
    ensures Fails(c, tsecrets, secrets, image, w)
       <==> forall order :: IsOrder(order, PodPlans(OnePod(c), tsecrets)) ==>
              !Safe(c, tsecrets, secrets, order, image, w)
  {
    hide Runs, Safe, Simple, Supported, NativeProcess, KeptEnv, LoadLines, StartEnv, LinesIn, PodPlans;
    var native := NativeProcess(c, image, tsecrets, secrets, w);
    SomeList(PodPlans(OnePod(c), tsecrets).Keys);
    var some :| NoDup(some) && forall k :: k in some <==> k in PodPlans(OnePod(c), tsecrets).Keys;
    assert IsOrder(some, PodPlans(OnePod(c), tsecrets));
    forall order | IsOrder(order, PodPlans(OnePod(c), tsecrets))
      ensures exists x :: Runs(c, tsecrets, secrets, order, image, w, x)
      ensures forall x :: Runs(c, tsecrets, secrets, order, image, w, x) ==>
                (x == native <==> Safe(c, tsecrets, secrets, order, image, w))
    {
      OneOutcome(c, tsecrets, secrets, order, image, w);
      NativeIff(c, tsecrets, secrets, order, image, w);
    }
    forall order, x | Runs(c, tsecrets, secrets, order, image, w, x)
      ensures IsOrder(order, PodPlans(OnePod(c), tsecrets))
    {
      RunsInOrder(c, tsecrets, secrets, order, image, w, x);
    }
  }

  lemma RunsInOrder(c: Container, tsecrets: set<string>, secrets: Secrets, order: seq<Key>, image: Image, w: World,
                    x: Process)
    requires Runs(c, tsecrets, secrets, order, image, w, x)
    ensures IsOrder(order, PodPlans(OnePod(c), tsecrets))
  {
    hide RunContainer, Injected, Shows;
  }

  lemma OneOutcome(c: Container, tsecrets: set<string>, secrets: Secrets, order: seq<Key>, image: Image, w: World)
    requires Simple(c, tsecrets, secrets) && IsOrder(order, PodPlans(OnePod(c), tsecrets))
    ensures exists x :: Runs(c, tsecrets, secrets, order, image, w, x)
    ensures forall x, y ::
              (Runs(c, tsecrets, secrets, order, image, w, x) && Runs(c, tsecrets, secrets, order, image, w, y))
              ==> x == y
  {
    hide Runs, Simple, KeptEnv, LoadLines, StartEnv, LinesIn, IsOrder, PodPlans;
    var one := Process(c.command + c.args,
                       LoadLines(StartEnv(KeptEnv(c, image, tsecrets, secrets, w), image.user),
                                 LinesIn(c, tsecrets, secrets, order), image.user));
    forall x
      ensures Runs(c, tsecrets, secrets, order, image, w, x) <==> x == one
    {
      SimpleRuns(c, tsecrets, secrets, order, image, w, x);
    }
    assert Runs(c, tsecrets, secrets, order, image, w, one);
  }
}
