/** What the rewriting is for: containers that get environment variables from TSecrets through envFrom. The
    environment Kubernetes would give them, and the one that the loaders of the rewritten container give. */
module EnvMeaning {
  import opened Common
  import opened Pods
  import opened Mutate
  import opened MutateFrame
  import opened MutateClosed
  import opened MutatePlans
  import opened MutateCoverage
  import opened MutateWrap
  import opened Shell
  import opened ShellText
  import Inject
  import InjectFlags

  /** The decrypted data of the TSecrets in the pod's namespace. */
  type Secrets = map<string, map<string, string>>

  // ----- The environment Kubernetes would give -----

  /** The variables of one source: prefix + key holds the value. */
  function SourceVars(data: map<string, string>, prefix: string): Env {
    map n | n in Inject.FileNames(prefix, data.Keys) && Inject.Unprefixed(prefix, n) in data ::
      data[Inject.Unprefixed(prefix, n)]
  }

  /** The variables of the TSecret sources, later ones overriding earlier ones. */
  function SecretEnv(es: seq<EnvFrom>, tsecrets: set<string>, secrets: Secrets): Env {
    if es == [] then map[]
    else
      var e := es[|es| - 1];
      SecretEnv(es[..|es| - 1], tsecrets, secrets)
      + (if EnvFromTracked(e, tsecrets) && e.secret in secrets then SourceVars(secrets[e.secret], e.prefix) else map[])
  }

  /** What a container's image brings along. */
  datatype Image = Image(entrypoint: seq<string>, cmd: seq<string>, env: Env, user: Userland)

  /** What the cluster puts in place of references that are not to TSecrets. A literal whose optional
      reference is missing has no value. */
  datatype World = World(source: EnvFrom -> Env, literal: EnvVar -> Option<string>)

  function SourceEnv(e: EnvFrom, tsecrets: set<string>, secrets: Secrets, w: World): Env {
    if EnvFromTracked(e, tsecrets) then
      if e.secret in secrets then SourceVars(secrets[e.secret], e.prefix) else map[]
    else w.source(e)
  }

  /** All sources in order, later ones overriding earlier ones. */
  function SourcesEnv(es: seq<EnvFrom>, tsecrets: set<string>, secrets: Secrets, w: World): Env {
    if es == [] then map[]
    else SourcesEnv(es[..|es| - 1], tsecrets, secrets, w) + SourceEnv(es[|es| - 1], tsecrets, secrets, w)
  }

  function LiteralValue(e: EnvVar, w: World): Option<string> {
    match e
    case PlainEnv(_, value) => Some(value)
    case _ => w.literal(e)
  }

  /** The literals in order, later ones overriding earlier ones. */
  function LiteralsEnv(es: seq<EnvVar>, w: World): Env {
    if es == [] then map[]
    else
      var e := es[|es| - 1];
      match LiteralValue(e, w)
      case Some(value) => LiteralsEnv(es[..|es| - 1], w)[e.name := value]
      case None => LiteralsEnv(es[..|es| - 1], w)
  }

  /** The environment a container starts in: its image's, overridden by its sources, and these by its
      literals. */
  function NativeEnv(c: Container, image: Image, tsecrets: set<string>, secrets: Secrets, w: World): Env {
    image.env + SourcesEnv(c.envFrom, tsecrets, secrets, w) + LiteralsEnv(c.env, w)
  }

  /** The command line a container starts: the command replaces the image's entrypoint and default
      arguments, the args replace the default arguments. */
  function NativeArgv(c: Container, image: Image): seq<string> {
    if c.command != [] then c.command + c.args
    else if c.args != [] then image.entrypoint + c.args
    else image.entrypoint + image.cmd
  }

  function NativeProcess(c: Container, image: Image, tsecrets: set<string>, secrets: Secrets, w: World): Process {
    Process(NativeArgv(c, image), NativeEnv(c, image, tsecrets, secrets, w))
  }

  // ----- Running the rewritten pod -----

  /** A directory as an injector leaves it: Inject.Write with the flags of the container, started on an
      empty volume, has succeeded. */
  ghost predicate Filled(dir: map<string, string>, c: Container, secrets: Secrets) {
    var flags := InjectFlags.Parse(c.args, "");
    && flags.Some? && flags.value.secret in secrets
    && Inject.Gained(map[], dir, SourceVars(secrets[flags.value.secret], flags.value.prefix),
                     flags.value.mount, flags.value.exportEnv)
  }

  /** All injectors have run: each filled the volume it mounts. */
  ghost predicate Injected(q: Pod, secrets: Secrets, volumes: map<string, map<string, string>>) {
    forall i :: 0 <= i < |q.inits| && q.inits[i].command == INJECT_COMMAND && |q.inits[i].mounts| == 1 ==>
      && q.inits[i].mounts[0].name in volumes
      && Filled(volumes[q.inits[i].mounts[0].name], q.inits[i], secrets)
  }

  /** The process sees the files of each volume under the path where it is mounted. */
  ghost predicate Shows(files: Files, mounts: seq<Mount>, volumes: map<string, map<string, string>>) {
    forall m, f :: m in mounts && m.name in volumes && f in volumes[m.name] ==>
      && m.mountPath + "/" + f in files
      && files[m.mountPath + "/" + f] == volumes[m.name][f]
  }

  /** A container that runs a shell script, in the environment it starts in. */
  function RunContainer(c: Container, files: Files, image: Image, tsecrets: set<string>, secrets: Secrets, w: World):
      Option<Process>
  {
    if c.command == SHELL_COMMAND && |c.args| == 1
    then RunScript(c.args[0], Machine(files, image.user), NativeEnv(c, image, tsecrets, secrets, w))
    else None
  }

  // ----- When the meaning is kept -----

  /** Secret names are DNS labels, hence plain. */
  ghost predicate PlainSecret(s: string) {
    s != "" && AllPlain(s)
  }

  ghost predicate EnvFromOnly(p: Pod, tsecrets: set<string>) {
    && (forall v :: v in p.volumes ==> !VolumeTracked(v, tsecrets))
    && (forall c, e :: Scanned(p, c) && e in c.env ==> !EnvTracked(e, tsecrets))
  }

  /** Every use of a secret that the container reads, anywhere in the pod, is with the container's prefix. */
  ghost predicate OnePrefix(p: Pod, c: Container, tsecrets: set<string>) {
    forall r, e :: (r in AllRefs(p, tsecrets) && e in c.envFrom && EnvFromTracked(e, tsecrets)
                    && r.secret == e.secret) ==> r.prefix == e.prefix
  }

  /** The source is a TSecret that has the variable. */
  ghost predicate Gives(e: EnvFrom, tsecrets: set<string>, secrets: Secrets, n: string) {
    EnvFromTracked(e, tsecrets) && e.secret in secrets && n in SourceVars(secrets[e.secret], e.prefix)
  }

  /** No variable comes from two different TSecret sources. */
  ghost predicate Apart(es: seq<EnvFrom>, tsecrets: set<string>, secrets: Secrets) {
    forall e, e', n :: e in es && e' in es && Gives(e, tsecrets, secrets, n) && Gives(e', tsecrets, secrets, n)
                   ==> e.secret == e'.secret && e.prefix == e'.prefix
  }

  /** The container asks for its environment, and its entrypoint is taken from its command and args, the
      first of which does not contain the name of a loader. */
  ghost predicate LoadsEnv(p: Pod, c: Container) {
    && Asked(p.annotations, c.name)
    && !Given(p.annotations, "tsecret.io/entrypoint." + c.name)
    && !Given(p.annotations, "tsecret.io/entrypoint")
    && (c.command != [] || c.args != [])
    && !Mentions(c.args)
  }

  /** The same in the handler's terms. */
  lemma LoadsEnvMeans(p: Pod, c: Container)
    requires LoadsEnv(p, c)
    ensures ExportEnabled(p.annotations, c.name) && !AlreadyWrapped(c)
    ensures ResolveEntrypoint(p.annotations, c) == Some(ShellJoin(c.command + c.args))
  {
    hide Given, Asked, Mentions, ExportEnabled, AlreadyWrapped, ResolveEntrypoint, ShellJoin;
    AskedIff(p.annotations, c.name);
    MentionsIff(c);
    EntryIff(p.annotations, c, ShellJoin(c.command + c.args));
  }

  // ----- The loader of one secret -----

  lemma PlainMountPath(s: string)
    requires PlainSecret(s)
    ensures PlainWord(MountPath(s)) && PlainWord(LoaderPath(MountPath(s)))
    ensures '/' in LoaderPath(MountPath(s))
  {
    RootPlain();
    assert forall c :: c in MountPath(s) ==> c in MOUNT_ROOT || c == '/' || c in s;
    assert MountPath(s)[0] == MOUNT_ROOT[0];
    assert forall c :: c in LoaderPath(MountPath(s)) ==> c in MountPath(s) || c == '/' || c in LOADER;
    assert LoaderPath(MountPath(s))[0] == MountPath(s)[0];
  }

  lemma RootPlain()
    ensures PlainWord(MOUNT_ROOT) && MOUNT_ROOT[0] == '/' && AllPlain(LOADER) && IsPlain('/')
    ensures '/' in MOUNT_ROOT
  {
    hide AllPlain;
    LoaderPlain();
    MountRootPlain();
    assert MOUNT_ROOT[0] == '/';
  }

  lemma MountRootPlain()
    ensures PlainWord(MOUNT_ROOT)
  {
    hide IsPlain;
    assert forall c :: c in MOUNT_ROOT ==> c == '/' || 'a' <= c <= 'z';
    assert MOUNT_ROOT[0] == '/';
    LettersPlain(MOUNT_ROOT);
  }

  lemma LoaderPlain()
    ensures AllPlain(LOADER)
  {
    assert forall c :: c in LOADER ==> c == '-' || c == '.' || 'a' <= c <= 'z';
    LettersPlain(LOADER);
  }

  lemma LettersPlain(s: string)
    requires forall c :: c in s ==> c == '/' || c == '-' || c == '.' || 'a' <= c <= 'z'
    ensures AllPlain(s)
  {
  }

  lemma NamesArePlain(n: string)
    requires IsName(n)
    ensures PlainKey(n) && n != Inject.LOADER_NAME
  {
    assert forall c :: c in n ==> IsPlain(c) && c != '=' && c != '-';
    assert Inject.LOADER_NAME[4] == '-' && '-' in Inject.LOADER_NAME;
  }

  /** The files of a secret and its loader, seen under the mount path. */
  ghost predicate SeesSecret(files: Files, vars: Env, mountPath: string) {
    && (forall n :: n in vars ==> mountPath + "/" + n in files && files[mountPath + "/" + n] == vars[n])
    && exists names :: NoDup(names) && (forall n :: n in names <==> n in vars)
                       && LoaderPath(mountPath) in files
                       && files[LoaderPath(mountPath)] == LoaderText(mountPath, Inject.SortStrings(names))
  }

  // ----- What loaders do, line by line -----

  /** A line of a loader: the variable, and the contents of its file. */
  datatype Line = Line(name: string, value: string)

  /** What cat prints, and what remains of it. */
  function Printed(found: bool, value: string): string {
    if found then Trimmed(value) else ""
  }

  function LoadLine(env: Env, l: Line, user: Userland): Env {
    env[l.name := Printed(HasCat(SearchPath(env, user), user), l.value)]
  }

  /** Each line sees the environment, and so the search path, that the lines before it leave. */
  function LoadLines(env: Env, lines: seq<Line>, user: Userland): Env
    decreases |lines|
  {
    if lines == [] then env else LoadLines(LoadLine(env, lines[0], user), lines[1..], user)
  }

  lemma {:induction false} LoadConcat(env: Env, a: seq<Line>, b: seq<Line>, user: Userland)
    ensures LoadLines(env, a + b, user) == LoadLines(LoadLines(env, a, user), b, user)
    decreases |a|
  {
    hide LoadLine;
    if a == [] {
      assert a + b == b;
    } else {
      LoadConcat(LoadLine(env, a[0], user), a[1..], b, user);
      assert (a + b)[1..] == a[1..] + b;
    }
  }

  /** The names of variables in the order in which a loader has them. */
  ghost function SortedNames(vars: Env): (r: seq<string>)
    ensures NoDup(r) && forall n :: n in r <==> n in vars
  {
    SomeList(vars.Keys);
    var names :| NoDup(names) && forall n :: n in names <==> n in vars.Keys;
    Inject.Sorts(names);
    PermutationMembers(names, Inject.SortStrings(names));
    Inject.SortStrings(names)
  }

  lemma SortedNamesAre(vars: Env, names: seq<string>)
    requires NoDup(names) && forall n :: n in names <==> n in vars
    ensures Inject.SortStrings(names) == SortedNames(vars)
    ensures Inject.IsSorted(SortedNames(vars))
  {
    SomeList(vars.Keys);
    var names' :| NoDup(names') && (forall n :: n in names' <==> n in vars.Keys)
                  && SortedNames(vars) == Inject.SortStrings(names');
    SameMembersPermute(names, names');
    Inject.Sorts(names);
    Inject.Sorts(names');
    Inject.SortedUnique(Inject.SortStrings(names), Inject.SortStrings(names'));
  }

  function LinesFor(names: seq<string>, vars: Env): (ls: seq<Line>)
    requires forall n :: n in names ==> n in vars
    ensures |ls| == |names| && forall k :: 0 <= k < |names| ==> ls[k] == Line(names[k], vars[names[k]])
  {
    seq(|names|, k requires 0 <= k < |names| => Line(names[k], vars[names[k]]))
  }

  ghost function LinesOf(vars: Env): (ls: seq<Line>)
  {
    LinesFor(SortedNames(vars), vars)
  }

  /** The lines of the loaders of the listed secrets, one loader after the other. */
  ghost function AllLines(ss: seq<string>, vars: map<string, Env>): seq<Line> {
    if ss == [] then []
    else (if ss[0] in vars then LinesOf(vars[ss[0]]) else []) + AllLines(ss[1..], vars)
  }

  lemma {:induction false} NamesAreLines(mp: string, names: seq<string>, vars: Env, m: Machine, env: Env)
    requires forall n :: n in names ==>
               n in vars && mp + "/" + n in m.files && m.files[mp + "/" + n] == vars[n]
    ensures LoadNames(mp, names, m, env) == LoadLines(env, LinesFor(names, vars), m.user)
    decreases |names|
  {
    if names != [] {
      var lines := LinesFor(names, vars);
      assert lines[0] == Line(names[0], vars[names[0]]) && lines[1..] == LinesFor(names[1..], vars);
      assert FileText(mp, names[0], m, env) == Printed(HasCat(SearchPath(env, m.user), m.user), vars[names[0]]);
      NamesAreLines(mp, names[1..], vars, m, LoadLine(env, lines[0], m.user));
    }
  }

  /** Sourcing the loader of a secret runs one line for each of its variables. */
  lemma LoaderAdds(m: Machine, vars: Env, s: string, env: Env)
    requires PlainSecret(s) && SeesSecret(m.files, vars, MountPath(s))
    requires forall n :: n in vars ==> IsName(n)
    ensures RunDot(LoaderPath(MountPath(s)), m, env) == Some(LoadLines(env, LinesOf(vars), m.user))
  {
    hide LoaderText, MountPath, IsName, PlainSecret;
    var mp := MountPath(s);
    PlainMountPath(s);
    var names :| NoDup(names) && (forall n :: n in names <==> n in vars)
                 && m.files[LoaderPath(mp)] == LoaderText(mp, Inject.SortStrings(names));
    SortedNamesAre(vars, names);
    var sorted := SortedNames(vars);
    forall n | n in sorted
      ensures PlainKey(n) && IsName(n)
    {
      NamesArePlain(n);
    }
    LoaderReads(mp, sorted);
    RunExportCommands(mp, sorted, m, env);
    NamesAreLines(mp, sorted, vars, m, env);
  }

  // ----- All loaders of a container -----

  function LoaderPaths(ss: seq<string>): (r: seq<string>)
    ensures |r| == |ss|
    ensures forall i :: 0 <= i < |ss| ==> r[i] == LoaderPath(MountPath(ss[i]))
  {
    seq(|ss|, i requires 0 <= i < |ss| => LoaderPath(MountPath(ss[i])))
  }

  lemma DotRuns(l: string, more: seq<Command>, m: Machine, env: Env, env': Env)
    requires RunDot(l, m, env) == Some(env')
    ensures RunCommands([LitWords([".", l])] + more, m, env) == RunCommands(more, m, env')
  {
    hide RunDot, Expand;
    ExpandLitWords([".", l], m, env);
    assert ([LitWords([".", l])] + more)[1..] == more;
    assert [".", l][0] == ".";
  }

  lemma DotsHead(ss: seq<string>, more: seq<Command>)
    requires ss != []
    ensures DotCommands(LoaderPaths(ss)) + more
         == [LitWords([".", LoaderPath(MountPath(ss[0]))])] + (DotCommands(LoaderPaths(ss[1..])) + more)
  {
    var ls := LoaderPaths(ss);
    DotsCons(ls[0], ls[1..], more);
    assert ls == [ls[0]] + ls[1..];
    assert ls[1..] == LoaderPaths(ss[1..]);
  }

  lemma DotsCons(l: string, ls: seq<string>, more: seq<Command>)
    ensures DotCommands([l] + ls) + more == [LitWords([".", l])] + (DotCommands(ls) + more)
  {
    assert ([l] + ls)[1..] == ls;
  }

  /** The loaders of the listed secrets can be sourced. */
  ghost predicate Loadable(ss: seq<string>, vars: map<string, Env>, files: Files) {
    && (forall s :: s in ss ==> s in vars && PlainSecret(s) && SeesSecret(files, vars[s], MountPath(s)))
    && (forall s, n :: s in ss && n in vars[s] ==> IsName(n))
  }

  lemma {:induction false} DotsRun(ss: seq<string>, vars: map<string, Env>, more: seq<Command>, m: Machine, env: Env)
    requires Loadable(ss, vars, m.files)
    ensures RunCommands(DotCommands(LoaderPaths(ss)) + more, m, env)
         == RunCommands(more, m, LoadLines(env, AllLines(ss, vars), m.user))
    decreases |ss|
  {
    hide SeesSecret, PlainSecret, IsName, RunDot, RunCommands, LoadLine, LinesOf;
    if ss == [] {
      assert DotCommands(LoaderPaths(ss)) + more == more;
    } else {
      var env' := LoadLines(env, LinesOf(vars[ss[0]]), m.user);
      LoaderAdds(m, vars[ss[0]], ss[0], env);
      DotsHead(ss, more);
      DotRuns(LoaderPath(MountPath(ss[0])), DotCommands(LoaderPaths(ss[1..])) + more, m, env, env');
      DotsRun(ss[1..], vars, more, m, env');
      LoadConcat(env, LinesOf(vars[ss[0]]), AllLines(ss[1..], vars), m.user);
    }
  }

  lemma SetRuns(flag: string, more: seq<Command>, m: Machine, env: Env)
    requires flag == "-a" || flag == "+a"
    ensures RunCommands([LitWords(["set", flag])] + more, m, env) == RunCommands(more, m, env)
  {
    ExpandLitWords(["set", flag], m, env);
    assert ([LitWords(["set", flag])] + more)[1..] == more;
  }

  lemma ExecRuns(argv: seq<string>, m: Machine, env: Env)
    requires argv != []
    ensures RunCommands([LitWords(["exec"] + argv)], m, env) == Some(Process(argv, env))
  {
    var words := ["exec"] + argv;
    ExpandLitWords(words, m, env);
    assert words[0] == "exec" && words[1..] == argv;
    NotSet(words);
  }

  lemma NotSet(words: seq<string>)
    requires words != [] && words[0] == "exec"
    ensures words != ["set", "-a"] && words != ["set", "+a"] && words[0] != "."
  {
    assert "exec"[0] == 'e' && "set"[0] == 's';
  }

  lemma LoadersPlain(ss: seq<string>)
    requires forall s :: s in ss ==> PlainSecret(s)
    ensures forall l :: l in LoaderPaths(ss) ==> PlainWord(l)
  {
    hide PlainSecret, PlainWord;
    var loaders := LoaderPaths(ss);
    forall l | l in loaders
      ensures PlainWord(l)
    {
      var i :| 0 <= i < |loaders| && loaders[i] == l;
      assert ss[i] in ss;
      PlainMountPath(ss[i]);
    }
  }

  /** The wrapped script runs the lines of all loaders, from the environment the shell takes over, and then
      the original program. */
  lemma WrapperRuns(ss: seq<string>, vars: map<string, Env>, argv: seq<string>, m: Machine, env: Env)
    requires argv != [] && Loadable(ss, vars, m.files)
    ensures RunScript(WrapText(LoaderPaths(ss), ShellJoin(argv)), m, env)
         == Some(Process(argv, LoadLines(StartEnv(env, m.user), AllLines(ss, vars), m.user)))
  {
    hide SeesSecret, PlainSecret, RunCommands, LoadLines, WrapText, StartEnv;
    var loaders := LoaderPaths(ss);
    LoadersPlain(ss);
    WrapReads(loaders, argv);
    var start := StartEnv(env, m.user);
    var loaded := LoadLines(start, AllLines(ss, vars), m.user);
    var last := [LitWords(["exec"] + argv)];
    var mid := [LitWords(["set", "+a"])] + last;
    SetRuns("-a", DotCommands(loaders) + mid, m, start);
    DotsRun(ss, vars, mid, m, start);
    SetRuns("+a", last, m, loaded);
    ExecRuns(argv, m, loaded);
    assert mid == [LitWords(["set", "+a"]), LitWords(["exec"] + argv)];
  }

  /** A loader that cannot be read ends the shell before the program starts. */
  lemma {:induction false} DotsStop(ss: seq<string>, more: seq<Command>, m: Machine, env: Env, s: string)
    requires s in ss && LoaderPath(MountPath(s)) !in m.files
    ensures RunCommands(DotCommands(LoaderPaths(ss)) + more, m, env) == None
    decreases |ss|
  {
    hide RunDot, Expand;
    var l := LoaderPath(MountPath(ss[0]));
    var rest := DotCommands(LoaderPaths(ss[1..])) + more;
    DotsHead(ss, more);
    if ss[0] != s && RunDot(l, m, env).Some? {
      DotRuns(l, rest, m, env, RunDot(l, m, env).value);
      DotsStop(ss[1..], more, m, RunDot(l, m, env).value, s);
    } else {
      NoDot(s, m, env);
      DotStops(l, rest, m, env);
    }
  }

  lemma NoDot(s: string, m: Machine, env: Env)
    requires LoaderPath(MountPath(s)) !in m.files
    ensures RunDot(LoaderPath(MountPath(s)), m, env) == None
  {
  }

  lemma DotStops(l: string, more: seq<Command>, m: Machine, env: Env)
    requires RunDot(l, m, env) == None
    ensures RunCommands([LitWords([".", l])] + more, m, env) == None
  {
    hide RunDot, Expand;
    ExpandLitWords([".", l], m, env);
    assert [".", l][0] == ".";
  }

  lemma WrapperStops(ss: seq<string>, argv: seq<string>, m: Machine, env: Env, s: string)
    requires argv != [] && s in ss && LoaderPath(MountPath(s)) !in m.files
    requires forall x :: x in ss ==> PlainSecret(x)
    ensures RunScript(WrapText(LoaderPaths(ss), ShellJoin(argv)), m, env) == None
  {
    hide PlainSecret, RunCommands, WrapText, StartEnv;
    var loaders := LoaderPaths(ss);
    LoadersPlain(ss);
    WrapReads(loaders, argv);
    var start := StartEnv(env, m.user);
    var mid := [LitWords(["set", "+a"]), LitWords(["exec"] + argv)];
    SetRuns("-a", DotCommands(loaders) + mid, m, start);
    DotsStop(ss, mid, m, start, s);
  }
}
