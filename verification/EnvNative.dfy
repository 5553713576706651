/** The rewritten container against the one Kubernetes would have started: when both start the same program
    in the same environment, and when they do not. */
module EnvNative {
  import opened Common
  import opened Pods
  import opened Mutate
  import opened MutateFrame
  import opened MutateClosed
  import opened MutatePlans
  import opened MutateCoverage
  import opened Shell
  import opened EnvMeaning
  import opened EnvPreserved
  import Inject

  // ----- What overrides a TSecret natively -----

  /** The value a kept source gives to n after every TSecret that gives one. */
  function LaterKept(es: seq<EnvFrom>, n: string, tsecrets: set<string>, secrets: Secrets, w: World): Option<string> {
    if es == [] then None
    else
      var e := es[|es| - 1];
      if n !in SourceEnv(e, tsecrets, secrets, w) then LaterKept(es[..|es| - 1], n, tsecrets, secrets, w)
      else if EnvFromTracked(e, tsecrets) then None
      else Some(w.source(e)[n])
  }

  /** The value by which a literal, or else a later kept source, natively overrides a TSecret's n. */
  function Override(c: Container, n: string, tsecrets: set<string>, secrets: Secrets, w: World): Option<string> {
    if n in LiteralsEnv(c.env, w) then Some(LiteralsEnv(c.env, w)[n])
    else LaterKept(c.envFrom, n, tsecrets, secrets, w)
  }

  // ----- When the loaders find cat -----

  /** The container without its TSecret sources, and the environment it starts in. */
  function KeptEnv(c: Container, image: Image, tsecrets: set<string>, secrets: Secrets, w: World): Env {
    NativeEnv(c.(envFrom := KeepEnvFrom(c.envFrom, tsecrets)), image, tsecrets, secrets, w)
  }

  predicate After(names: seq<string>, first: string, n: string) {
    exists j, k :: 0 <= j < k < |names| && names[j] == first && names[k] == n
  }

  /** The names are in the order in which the loaders set them. Until one of them is PATH, cat is searched
      for where the container starts; from then on, where the TSecret says, or nowhere in particular if
      cat was not there to read that. */
  predicate FindsCat(kept: Env, vars: Env, names: seq<string>, n: string, user: Userland) {
    var start := HasCat(SearchPath(kept, user), user);
    if PATH in vars && After(names, PATH, n) then HasCat(Printed(start, vars[PATH]), user) else start
  }

  // ----- The conditions -----

  predicate EndsInNewline(v: string) {
    v != "" && v[|v| - 1] == '\n'
  }

  /** The loader of a TSecret variable leaves the value that n has natively: that of what overrides it, or
      else its own. */
  predicate ValueSafe(overriding: Option<string>, value: string, found: bool) {
    match overriding
    case Some(v) => v == Printed(found, value)
    case None => if found then !EndsInNewline(value) else value == ""
  }

  /** Every variable of the container apart from its TSecrets' has a name that its shell passes on. */
  ghost predicate NamesSafe(c: Container, image: Image, tsecrets: set<string>, secrets: Secrets, w: World) {
    image.user.oddNames || forall n :: n in KeptEnv(c, image, tsecrets, secrets, w) ==> IsName(n)
  }

  ghost predicate VarsSafe(c: Container, image: Image, tsecrets: set<string>, secrets: Secrets, w: World,
                           names: seq<string>)
  {
    var vars := SecretEnv(c.envFrom, tsecrets, secrets);
    var kept := KeptEnv(c, image, tsecrets, secrets, w);
    && NamesSafe(c, image, tsecrets, secrets, w)
    && forall n :: n in vars ==>
         ValueSafe(Override(c, n, tsecrets, secrets, w), vars[n], FindsCat(kept, vars, names, n, image.user))
  }

  /** The program is the container's own, not one that its image prefixes to its args. */
  predicate ProgramSafe(c: Container, image: Image) {
    c.command != [] || image.entrypoint == []
  }

  // ----- What the lines leave, variable by variable -----

  ghost predicate SameAt(a: Env, b: Env, n: string) {
    (n in a <==> n in b) && (n in a ==> a[n] == b[n])
  }

  function NamesOf(lines: seq<Line>): (names: seq<string>)
    ensures |names| == |lines| && forall k :: 0 <= k < |lines| ==> names[k] == lines[k].name
  {
    seq(|lines|, k requires 0 <= k < |lines| => lines[k].name)
  }

  function FirstValue(lines: seq<Line>, n: string): Option<string> {
    if lines == [] then None
    else if lines[0].name == n then Some(lines[0].value)
    else FirstValue(lines[1..], n)
  }

  /** Whether line k finds cat: earlier lines may have set the search path. */
  predicate CatAtLine(env: Env, lines: seq<Line>, k: nat, user: Userland)
    requires k < |lines|
  {
    var start := HasCat(SearchPath(env, user), user);
    match FirstValue(lines[..k], PATH)
    case Some(value) => HasCat(Printed(start, value), user)
    case None => start
  }

  lemma {:induction false} FirstValueIff(lines: seq<Line>, n: string)
    ensures FirstValue(lines, n).Some? <==> exists j :: 0 <= j < |lines| && lines[j].name == n
    ensures FirstValue(lines, n).Some? ==>
              exists j :: 0 <= j < |lines| && lines[j].name == n && lines[j].value == FirstValue(lines, n).value
  {
    if lines != [] {
      FirstValueIff(lines[1..], n);
      if j :| 0 <= j < |lines[1..]| && lines[1..][j].name == n
              && lines[1..][j].value == FirstValue(lines[1..], n).value {
        assert lines[j + 1].name == n;
      }
      if lines[0].name != n {
        forall j | 0 <= j < |lines| && lines[j].name == n
          ensures lines[1..][j - 1].name == n
        {
        }
      }
    }
  }

  lemma TailNames(lines: seq<Line>)
    requires lines != [] && NoDup(NamesOf(lines))
    ensures NoDup(NamesOf(lines[1..])) && lines[0].name !in NamesOf(lines[1..])
  {
    var names := NamesOf(lines);
    assert forall k :: 0 <= k < |lines| - 1 ==> NamesOf(lines[1..])[k] == names[k + 1];
    assert names[0] == lines[0].name;
  }

  /** One line later, seen from the environment that the first line leaves. */
  lemma CatNext(env: Env, lines: seq<Line>, k: nat, user: Userland)
    requires 0 < k < |lines| && NoDup(NamesOf(lines))
    ensures CatAtLine(LoadLine(env, lines[0], user), lines[1..], k - 1, user) == CatAtLine(env, lines, k, user)
  {
    hide HasCat;
    assert lines[..k][1..] == lines[1..][..k - 1];
    if lines[0].name == PATH {
      FirstValueIff(lines[1..][..k - 1], PATH);
      TailNames(lines);
      assert forall j :: 0 <= j < k - 1 ==> NamesOf(lines[1..])[j] == lines[1..][..k - 1][j].name;
    }
  }

  lemma {:induction false} LoadedOthers(env: Env, lines: seq<Line>, user: Userland, n: string)
    requires n !in NamesOf(lines)
    ensures SameAt(LoadLines(env, lines, user), env, n)
    decreases |lines|
  {
    hide HasCat;
    if lines != [] {
      assert NamesOf(lines)[0] == lines[0].name;
      assert forall k :: 0 <= k < |lines[1..]| ==> NamesOf(lines[1..])[k] == NamesOf(lines)[k + 1];
      LoadedOthers(LoadLine(env, lines[0], user), lines[1..], user, n);
    }
  }

  lemma {:induction false} LoadedAt(env: Env, lines: seq<Line>, user: Userland, k: nat)
    requires k < |lines| && NoDup(NamesOf(lines))
    ensures lines[k].name in LoadLines(env, lines, user)
    ensures LoadLines(env, lines, user)[lines[k].name] == Printed(CatAtLine(env, lines, k, user), lines[k].value)
    decreases |lines|
  {
    hide HasCat;
    TailNames(lines);
    var env' := LoadLine(env, lines[0], user);
    if k == 0 {
      LoadedOthers(env', lines[1..], user, lines[0].name);
      assert lines[..0] == [];
    } else {
      LoadedAt(env', lines[1..], user, k - 1);
      CatNext(env, lines, k, user);
    }
  }

  // ----- The lines of a container are the variables of its TSecrets -----

  lemma {:induction false} InSecretEnv(es: seq<EnvFrom>, tsecrets: set<string>, secrets: Secrets, n: string)
    requires Apart(es, tsecrets, secrets)
    ensures n in SecretEnv(es, tsecrets, secrets) <==> exists e :: e in es && Gives(e, tsecrets, secrets, n)
    ensures forall e :: e in es && Gives(e, tsecrets, secrets, n) ==>
              SecretEnv(es, tsecrets, secrets)[n] == SourceVars(secrets[e.secret], e.prefix)[n]
  {
    hide SourceVars;
    if es == [] {
      assert SecretEnv(es, tsecrets, secrets) == map[];
    } else {
      var k := |es| - 1;
      InSecretEnv(es[..k], tsecrets, secrets, n);
      if Gives(es[k], tsecrets, secrets, n) {
        assert es[k] in es;
        forall e | e in es && Gives(e, tsecrets, secrets, n)
          ensures e.secret == es[k].secret && e.prefix == es[k].prefix
        {
        }
      } else {
        assert forall e :: e in es && Gives(e, tsecrets, secrets, n) ==> e in es[..k];
      }
    }
  }

  lemma {:induction false} InAllLines(ss: seq<string>, vars: map<string, Env>, l: Line)
    ensures l in AllLines(ss, vars)
       <==> exists s :: s in ss && s in vars && l.name in vars[s] && l.value == vars[s][l.name]
  {
    if ss != [] {
      InAllLines(ss[1..], vars, l);
      assert forall s :: s in ss <==> s == ss[0] || s in ss[1..];
      if ss[0] in vars {
        InLinesOf(vars[ss[0]], l);
      }
    }
  }

  lemma InLinesOf(vars: Env, l: Line)
    ensures l in LinesOf(vars) <==> l.name in vars && l.value == vars[l.name]
  {
    var names := SortedNames(vars);
    if l.name in vars && l.value == vars[l.name] {
      var k :| 0 <= k < |names| && names[k] == l.name;
      assert LinesOf(vars)[k] == l;
    }
    if l in LinesOf(vars) {
      var k :| 0 <= k < |LinesOf(vars)| && LinesOf(vars)[k] == l;
      assert names[k] in names;
    }
  }

  /** No two of the secrets have a variable in common. */
  ghost predicate Disjoint(ss: seq<string>, vars: map<string, Env>) {
    && NoDup(ss)
    && forall s, s', n :: (s in ss && s' in ss && s in vars && s' in vars && n in vars[s] && n in vars[s']) ==> s == s'
  }

  lemma {:induction false} LinesDistinct(ss: seq<string>, vars: map<string, Env>)
    requires Disjoint(ss, vars)
    ensures NoDup(NamesOf(AllLines(ss, vars)))
  {
    if ss != [] {
      var rest := AllLines(ss[1..], vars);
      LinesDistinct(ss[1..], vars);
      if ss[0] in vars {
        var first := LinesOf(vars[ss[0]]);
        forall j, k | 0 <= j < |first| && 0 <= k < |rest|
          ensures first[j].name != rest[k].name
        {
          assert first[j] in first && rest[k] in rest;
          InLinesOf(vars[ss[0]], first[j]);
          InAllLines(ss[1..], vars, rest[k]);
          var s :| s in ss[1..] && s in vars && rest[k].name in vars[s];
          var i :| 0 <= i < |ss[1..]| && ss[1..][i] == s;
          assert ss[i + 1] == s && ss[0] != ss[i + 1] && s in ss && ss[0] in ss;
        }
        ConcatNames(first, rest);
        assert NamesOf(first) == SortedNames(vars[ss[0]]);
      } else {
        assert [] + rest == rest;
      }
    }
  }

  lemma ConcatNames(a: seq<Line>, b: seq<Line>)
    requires NoDup(NamesOf(a)) && NoDup(NamesOf(b))
    requires forall j, k :: 0 <= j < |a| && 0 <= k < |b| ==> a[j].name != b[k].name
    ensures NoDup(NamesOf(a + b))
  {
    assert NamesOf(a + b) == NamesOf(a) + NamesOf(b);
  }

  lemma {:induction false} SecretsDistinct(ps: seq<Plan>, name: string)
    requires DistinctVolumes(ps) && forall p :: p in ps ==> EnvPlan(p)
    ensures NoDup(UserSecrets(ps, name))
  {
    if ps != [] {
      var n := |ps| - 1;
      SecretsDistinct(ps[..n], name);
      InUserSecrets(ps[..n], name);
      forall p | p in ps[..n]
        ensures p.secret != ps[n].secret
      {
        var i :| 0 <= i < n && ps[i] == p;
        assert p in ps && ps[n] in ps && p.volume != ps[n].volume;
      }
      var before := UserSecrets(ps[..n], name);
      assert ps[n].secret !in before;
      if name in ps[n].users {
        assert UserSecrets(ps, name) == before + [ps[n].secret];
      } else {
        assert UserSecrets(ps, name) == before + [];
        assert before + [] == before;
      }
    }
  }

  // ----- Containers whose environment is a function of their own sources -----

  /** The container loads its environment, with one prefix for each TSecret and no variable from two. */
  ghost predicate Supported(p: Pod, i: nat, tsecrets: set<string>, secrets: Secrets) {
    && i < |p.containers|
    && Loading(p, i, tsecrets, secrets)
    && OnePrefix(p, p.containers[i], tsecrets)
    && Apart(p.containers[i].envFrom, tsecrets, secrets)
  }

  lemma SecretVars(p: Pod, tsecrets: set<string>, order: seq<Key>, i: nat, secrets: Secrets, s: string)
    requires IsOrder(order, PodPlans(p, tsecrets)) && Supported(p, i, tsecrets, secrets)
    requires s in LoadedSecrets(p, tsecrets, order, i)
    ensures s in secrets && s in LoadedVars(p, tsecrets, order, i, secrets)
    ensures exists e :: e in p.containers[i].envFrom && EnvFromTracked(e, tsecrets) && e.secret == s
              && LoadedVars(p, tsecrets, order, i, secrets)[s] == SourceVars(secrets[s], e.prefix)
  {
    hide LoadsEnv, UniqueContainers, WellFormed, NamesFree, Apart, SourceVars, IsName;
    SecretsAgree(p, tsecrets, order, i, s);
    var e :| e in p.containers[i].envFrom && EnvFromTracked(e, tsecrets) && e.secret == s;
    SourcePlan(p, tsecrets, order, i, e);
    var r :| r in AllRefs(p, tsecrets) && r.secret == s && r.prefix == PlanFor(p, tsecrets, s).value.prefix;
  }

  /** The lines are the given variables, each once. */
  ghost predicate LinesFit(lines: seq<Line>, vars: Env) {
    && NoDup(NamesOf(lines))
    && (forall n :: n in NamesOf(lines) <==> n in vars)
    && (forall k :: 0 <= k < |lines| ==> lines[k].name in vars && lines[k].value == vars[lines[k].name])
  }

  /** The lines that the container's loaders run are the variables of its TSecret sources, each once. */
  lemma LinesAreVars(p: Pod, tsecrets: set<string>, order: seq<Key>, i: nat, secrets: Secrets)
    requires IsOrder(order, PodPlans(p, tsecrets)) && Supported(p, i, tsecrets, secrets)
    ensures LinesFit(LoadedLines(p, tsecrets, order, i, secrets),
                     SecretEnv(p.containers[i].envFrom, tsecrets, secrets))
  {
    hide Loading, OnePrefix, SourceVars, LoadedVars, LoadedSecrets, SecretEnv, AllLines;
    var lines := LoadedLines(p, tsecrets, order, i, secrets);
    var vars := SecretEnv(p.containers[i].envFrom, tsecrets, secrets);
    SecretsApart(p, tsecrets, order, i, secrets);
    LinesDistinct(LoadedSecrets(p, tsecrets, order, i), LoadedVars(p, tsecrets, order, i, secrets));
    forall l | l in lines
      ensures l.name in vars && l.value == vars[l.name]
    {
      LineIsVar(p, tsecrets, order, i, secrets, l);
    }
    forall n | n in vars
      ensures n in NamesOf(lines)
    {
      VarIsLine(p, tsecrets, order, i, secrets, n);
      var k :| 0 <= k < |lines| && lines[k] == Line(n, vars[n]);
      assert NamesOf(lines)[k] == n;
    }
    forall n | n in NamesOf(lines)
      ensures n in vars
    {
      var k :| 0 <= k < |lines| && NamesOf(lines)[k] == n;
      assert lines[k] in lines;
    }
    assert forall k :: 0 <= k < |lines| ==> lines[k] in lines;
  }

  lemma SecretsApart(p: Pod, tsecrets: set<string>, order: seq<Key>, i: nat, secrets: Secrets)
    requires IsOrder(order, PodPlans(p, tsecrets)) && Supported(p, i, tsecrets, secrets)
    ensures Disjoint(LoadedSecrets(p, tsecrets, order, i), LoadedVars(p, tsecrets, order, i, secrets))
  {
    hide LoadsEnv, UniqueContainers, WellFormed, OnePrefix, SourceVars, LoadedVars, GoodNames;
    var ps := OrderedPlans(p, tsecrets, order);
    OrderedDistinct(p, tsecrets, order);
    forall plan | plan in ps
      ensures EnvPlan(plan)
    {
      PlanShape(p, tsecrets, order, plan);
    }
    SecretsDistinct(ps, p.containers[i].name);
    var ss := LoadedSecrets(p, tsecrets, order, i);
    var vars := LoadedVars(p, tsecrets, order, i, secrets);
    forall s, s', n | s in ss && s' in ss && s in vars && s' in vars && n in vars[s] && n in vars[s']
      ensures s == s'
    {
      SecretVars(p, tsecrets, order, i, secrets, s);
      SecretVars(p, tsecrets, order, i, secrets, s');
      var e :| e in p.containers[i].envFrom && EnvFromTracked(e, tsecrets) && e.secret == s
               && vars[s] == SourceVars(secrets[s], e.prefix);
      var e' :| e' in p.containers[i].envFrom && EnvFromTracked(e', tsecrets) && e'.secret == s'
                && vars[s'] == SourceVars(secrets[s'], e'.prefix);
      assert Gives(e, tsecrets, secrets, n) && Gives(e', tsecrets, secrets, n);
    }
  }

  lemma LineIsVar(p: Pod, tsecrets: set<string>, order: seq<Key>, i: nat, secrets: Secrets, l: Line)
    requires IsOrder(order, PodPlans(p, tsecrets)) && Supported(p, i, tsecrets, secrets)
    requires l in LoadedLines(p, tsecrets, order, i, secrets)
    ensures var vars := SecretEnv(p.containers[i].envFrom, tsecrets, secrets);
            l.name in vars && l.value == vars[l.name]
  {
    hide Loading, OnePrefix, SourceVars, LoadedVars, LoadedSecrets, SecretEnv, AllLines, Apart;
    InAllLines(LoadedSecrets(p, tsecrets, order, i), LoadedVars(p, tsecrets, order, i, secrets), l);
    var s :| s in LoadedSecrets(p, tsecrets, order, i) && s in LoadedVars(p, tsecrets, order, i, secrets)
             && l.name in LoadedVars(p, tsecrets, order, i, secrets)[s]
             && l.value == LoadedVars(p, tsecrets, order, i, secrets)[s][l.name];
    SecretVars(p, tsecrets, order, i, secrets, s);
    var e :| e in p.containers[i].envFrom && EnvFromTracked(e, tsecrets) && e.secret == s
             && LoadedVars(p, tsecrets, order, i, secrets)[s] == SourceVars(secrets[s], e.prefix);
    assert Gives(e, tsecrets, secrets, l.name);
    InSecretEnv(p.containers[i].envFrom, tsecrets, secrets, l.name);
  }

  lemma VarIsLine(p: Pod, tsecrets: set<string>, order: seq<Key>, i: nat, secrets: Secrets, n: string)
    requires IsOrder(order, PodPlans(p, tsecrets)) && Supported(p, i, tsecrets, secrets)
    requires n in SecretEnv(p.containers[i].envFrom, tsecrets, secrets)
    ensures Line(n, SecretEnv(p.containers[i].envFrom, tsecrets, secrets)[n])
            in LoadedLines(p, tsecrets, order, i, secrets)
  {
    hide LoadsEnv, WellFormed, NamesFree, SourceVars, LoadedVars, SecretEnv, AllLines, Apart, IsName;
    hide OnePrefix, UserSecrets, OrderedPlans, PodPlans, GoodNames;
    var es := p.containers[i].envFrom;
    InSecretEnv(es, tsecrets, secrets, n);
    var e :| e in es && Gives(e, tsecrets, secrets, n);
    SecretsAgree(p, tsecrets, order, i, e.secret);
    SecretVars(p, tsecrets, order, i, secrets, e.secret);
    var e' :| e' in es && EnvFromTracked(e', tsecrets) && e'.secret == e.secret
              && LoadedVars(p, tsecrets, order, i, secrets)[e.secret] == SourceVars(secrets[e.secret], e'.prefix);
    SamePrefix(p, tsecrets, i, e, e');
    InAllLines(LoadedSecrets(p, tsecrets, order, i), LoadedVars(p, tsecrets, order, i, secrets),
               Line(n, SecretEnv(es, tsecrets, secrets)[n]));
  }

  lemma SamePrefix(p: Pod, tsecrets: set<string>, i: nat, e: EnvFrom, e': EnvFrom)
    requires i < |p.containers| && OnePrefix(p, p.containers[i], tsecrets)
    requires e in p.containers[i].envFrom && EnvFromTracked(e, tsecrets)
    requires e' in p.containers[i].envFrom && EnvFromTracked(e', tsecrets) && e'.secret == e.secret
    ensures e.prefix == e'.prefix
  {
    assert ReadsSecret(p.containers[i], tsecrets, e.secret, e.prefix);
    SourceIsRef(p, tsecrets, p.containers[i], e.secret, e.prefix);
  }

  // ----- The environments, variable by variable -----

  lemma {:induction false} TrimmedIff(v: string)
    ensures Trimmed(v) == v <==> !EndsInNewline(v)
    ensures |Trimmed(v)| <= |v|
  {
    if EndsInNewline(v) {
      TrimmedIff(v[..|v| - 1]);
    }
  }

  /** Natively n is what overrides it, or else what the TSecrets give. */
  lemma {:induction false} SourceWins(es: seq<EnvFrom>, n: string, tsecrets: set<string>, secrets: Secrets, w: World)
    requires n in SecretEnv(es, tsecrets, secrets)
    ensures n in SourcesEnv(es, tsecrets, secrets, w)
    ensures SourcesEnv(es, tsecrets, secrets, w)[n]
         == match LaterKept(es, n, tsecrets, secrets, w)
            case Some(value) => value
            case None => SecretEnv(es, tsecrets, secrets)[n]
  {
    hide SourceVars;
    var e := es[|es| - 1];
    if n !in SourceEnv(e, tsecrets, secrets, w) {
      SourceWins(es[..|es| - 1], n, tsecrets, secrets, w);
    } else if !EnvFromTracked(e, tsecrets) {
      assert n in SourceEnv(e, tsecrets, secrets, w);
    }
  }

  /** A variable no TSecret gives does not notice that the TSecret sources are gone. */
  lemma {:induction false} OthersKept(es: seq<EnvFrom>, n: string, tsecrets: set<string>, secrets: Secrets, w: World)
    requires n !in SecretEnv(es, tsecrets, secrets)
    ensures SameAt(SourcesEnv(es, tsecrets, secrets, w),
                   SourcesEnv(KeepEnvFrom(es, tsecrets), tsecrets, secrets, w), n)
  {
    hide SourceEnv, EnvFromTracked, SourcesEnv, KeepEnvFrom, SecretEnv, SameAt;
    if es == [] {
      NoSources(tsecrets, secrets, w, n);
    } else {
      var front, e := es[..|es| - 1], es[|es| - 1];
      var all, kept := SourcesEnv(front, tsecrets, secrets, w), KeepEnvFrom(front, tsecrets);
      LastOfSecretEnv(es, n, tsecrets, secrets, w);
      OthersKept(front, n, tsecrets, secrets, w);
      LastSource(es, tsecrets, secrets, w);
      if EnvFromTracked(e, tsecrets) {
        LayerAside(all, SourcesEnv(kept, tsecrets, secrets, w), SourceEnv(e, tsecrets, secrets, w), n);
      } else {
        SourcesSnoc(kept, e, tsecrets, secrets, w);
        LayerBoth(all, SourcesEnv(kept, tsecrets, secrets, w), SourceEnv(e, tsecrets, secrets, w), n);
      }
    }
  }

  lemma NoSources(tsecrets: set<string>, secrets: Secrets, w: World, n: string)
    ensures SameAt(SourcesEnv([], tsecrets, secrets, w),
                   SourcesEnv(KeepEnvFrom([], tsecrets), tsecrets, secrets, w), n)
  {
  }

  /** One step of both definitions. */
  lemma LastSource(es: seq<EnvFrom>, tsecrets: set<string>, secrets: Secrets, w: World)
    requires es != []
    ensures var front, e := es[..|es| - 1], es[|es| - 1];
            && SourcesEnv(es, tsecrets, secrets, w)
               == SourcesEnv(front, tsecrets, secrets, w) + SourceEnv(e, tsecrets, secrets, w)
            && KeepEnvFrom(es, tsecrets)
               == if EnvFromTracked(e, tsecrets) then KeepEnvFrom(front, tsecrets)
                  else KeepEnvFrom(front, tsecrets) + [e]
  {
    hide SourceEnv, EnvFromTracked;
    var kept := KeepEnvFrom(es[..|es| - 1], tsecrets);
    assert kept + [] == kept;
  }

  lemma LayerAside(a: Env, b: Env, top: Env, n: string)
    requires SameAt(a, b, n) && n !in top
    ensures SameAt(a + top, b, n)
  {
  }

  lemma LayerBoth(a: Env, b: Env, top: Env, n: string)
    requires SameAt(a, b, n)
    ensures SameAt(a + top, b + top, n)
  {
  }

  lemma SourcesSnoc(es: seq<EnvFrom>, e: EnvFrom, tsecrets: set<string>, secrets: Secrets, w: World)
    ensures SourcesEnv(es + [e], tsecrets, secrets, w)
         == SourcesEnv(es, tsecrets, secrets, w) + SourceEnv(e, tsecrets, secrets, w)
  {
    hide SourceEnv;
    assert (es + [e])[..|es|] == es;
  }

  lemma LastOfSecretEnv(es: seq<EnvFrom>, n: string, tsecrets: set<string>, secrets: Secrets, w: World)
    requires es != [] && n !in SecretEnv(es, tsecrets, secrets)
    ensures n !in SecretEnv(es[..|es| - 1], tsecrets, secrets)
    ensures EnvFromTracked(es[|es| - 1], tsecrets) ==> n !in SourceEnv(es[|es| - 1], tsecrets, secrets, w)
  {
    hide SourceVars;
  }

  /** Natively, one variable. */
  lemma NativeVariable(c: Container, image: Image, tsecrets: set<string>, secrets: Secrets, w: World, n: string)
    ensures var vars := SecretEnv(c.envFrom, tsecrets, secrets);
            var native := NativeEnv(c, image, tsecrets, secrets, w);
            if n in vars then
              && n in native
              && native[n] == match Override(c, n, tsecrets, secrets, w)
                              case Some(value) => value
                              case None => vars[n]
            else SameAt(native, KeptEnv(c, image, tsecrets, secrets, w), n)
  {
    hide LiteralsEnv, SourcesEnv, SecretEnv, LaterKept, KeepEnvFrom;
    if n in SecretEnv(c.envFrom, tsecrets, secrets) {
      SourceWins(c.envFrom, n, tsecrets, secrets, w);
    } else {
      OthersKept(c.envFrom, n, tsecrets, secrets, w);
    }
  }

  lemma PathIsName()
    ensures IsName(PATH)
  {
    assert forall ch :: ch in PATH ==> 'A' <= ch <= 'Z';
    assert PATH[0] == 'P';
  }

  lemma StartSearch(kept: Env, user: Userland)
    ensures SearchPath(StartEnv(kept, user), user) == SearchPath(kept, user)
  {
    PathIsName();
  }

  lemma CatAgrees(kept: Env, lines: seq<Line>, vars: Env, k: nat, user: Userland)
    requires LinesFit(lines, vars) && k < |lines|
    ensures CatAtLine(StartEnv(kept, user), lines, k, user)
         == FindsCat(kept, vars, NamesOf(lines), lines[k].name, user)
  {
    hide HasCat, StartEnv, IsName;
    StartSearch(kept, user);
    var names := NamesOf(lines);
    FirstValueIff(lines[..k], PATH);
    if FirstValue(lines[..k], PATH).Some? {
      var j :| 0 <= j < k && lines[..k][j].name == PATH
               && lines[..k][j].value == FirstValue(lines[..k], PATH).value;
      assert names[j] == PATH && names[k] == lines[k].name;
      assert lines[j].value == vars[PATH];
    } else {
      forall j, m | 0 <= j < m < |names| && names[m] == lines[k].name
        ensures names[j] != PATH
      {
        assert m == k;
        assert lines[..k][j].name == names[j];
      }
    }
  }

  /** In the rewritten container, one variable. */
  lemma LoadedVariable(kept: Env, lines: seq<Line>, vars: Env, user: Userland, n: string)
    requires LinesFit(lines, vars)
    ensures var loaded := LoadLines(StartEnv(kept, user), lines, user);
            if n in vars then
              n in loaded && loaded[n] == Printed(FindsCat(kept, vars, NamesOf(lines), n, user), vars[n])
            else SameAt(loaded, StartEnv(kept, user), n)
  {
    hide FindsCat, CatAtLine, LoadLines, StartEnv;
    if n in vars {
      var k :| 0 <= k < |lines| && NamesOf(lines)[k] == n;
      LoadedAt(StartEnv(kept, user), lines, user, k);
      CatAgrees(kept, lines, vars, k, user);
    } else {
      LoadedOthers(StartEnv(kept, user), lines, user, n);
    }
  }

  /** Both environments have the variable alike. */
  ghost predicate VariableSafe(c: Container, image: Image, tsecrets: set<string>, secrets: Secrets, w: World,
                               names: seq<string>, n: string)
  {
    var vars := SecretEnv(c.envFrom, tsecrets, secrets);
    var kept := KeptEnv(c, image, tsecrets, secrets, w);
    if n in vars then
      ValueSafe(Override(c, n, tsecrets, secrets, w), vars[n], FindsCat(kept, vars, names, n, image.user))
    else n in kept ==> image.user.oddNames || IsName(n)
  }

  lemma OneVariable(c: Container, image: Image, tsecrets: set<string>, secrets: Secrets, w: World,
                    lines: seq<Line>, n: string)
    requires LinesFit(lines, SecretEnv(c.envFrom, tsecrets, secrets))
    ensures SameAt(NativeEnv(c, image, tsecrets, secrets, w),
                   LoadLines(StartEnv(KeptEnv(c, image, tsecrets, secrets, w), image.user), lines, image.user), n)
       <==> VariableSafe(c, image, tsecrets, secrets, w, NamesOf(lines), n)
  {
    hide LoadLines, SecretEnv, NativeEnv, Override, FindsCat, LinesFit, EndsInNewline, Trimmed, KeptEnv, IsName;
    var vars := SecretEnv(c.envFrom, tsecrets, secrets);
    NativeVariable(c, image, tsecrets, secrets, w, n);
    LoadedVariable(KeptEnv(c, image, tsecrets, secrets, w), lines, vars, image.user, n);
    if n in vars {
      TrimmedIff(vars[n]);
    }
  }

  lemma SameMaps(a: Env, b: Env)
    ensures a == b <==> forall n :: SameAt(a, b, n)
  {
    if forall n :: SameAt(a, b, n) {
      forall n
        ensures n in a <==> n in b
        ensures n in a ==> a[n] == b[n]
      {
        assert SameAt(a, b, n);
      }
    }
  }

  lemma SameEnvIff(c: Container, image: Image, tsecrets: set<string>, secrets: Secrets, w: World, lines: seq<Line>)
    requires LinesFit(lines, SecretEnv(c.envFrom, tsecrets, secrets))
    requires forall n :: n in SecretEnv(c.envFrom, tsecrets, secrets) ==> IsName(n)
    ensures (NativeEnv(c, image, tsecrets, secrets, w)
             == LoadLines(StartEnv(KeptEnv(c, image, tsecrets, secrets, w), image.user), lines, image.user))
       <==> VarsSafe(c, image, tsecrets, secrets, w, NamesOf(lines))
  {
    hide LoadLines, SecretEnv, NativeEnv, Override, FindsCat, LinesFit, ValueSafe, KeptEnv, IsName, StartEnv;
    var names := NamesOf(lines);
    SameMaps(NativeEnv(c, image, tsecrets, secrets, w),
             LoadLines(StartEnv(KeptEnv(c, image, tsecrets, secrets, w), image.user), lines, image.user));
    forall n
      ensures SameAt(NativeEnv(c, image, tsecrets, secrets, w),
                     LoadLines(StartEnv(KeptEnv(c, image, tsecrets, secrets, w), image.user), lines, image.user), n)
         <==> VariableSafe(c, image, tsecrets, secrets, w, names, n)
    {
      OneVariable(c, image, tsecrets, secrets, w, lines, n);
    }
    AllSafe(c, image, tsecrets, secrets, w, names);
  }

  lemma AllSafe(c: Container, image: Image, tsecrets: set<string>, secrets: Secrets, w: World, names: seq<string>)
    requires forall n :: n in SecretEnv(c.envFrom, tsecrets, secrets) ==> IsName(n)
    ensures (forall n :: VariableSafe(c, image, tsecrets, secrets, w, names, n))
       <==> VarsSafe(c, image, tsecrets, secrets, w, names)
  {
    hide SecretEnv, Override, FindsCat, ValueSafe, KeptEnv, IsName;
    if forall n :: VariableSafe(c, image, tsecrets, secrets, w, names, n) {
      forall n | n in KeptEnv(c, image, tsecrets, secrets, w)
        ensures image.user.oddNames || IsName(n)
      {
        assert VariableSafe(c, image, tsecrets, secrets, w, names, n);
      }
      forall n | n in SecretEnv(c.envFrom, tsecrets, secrets)
        ensures VariableSafe(c, image, tsecrets, secrets, w, names, n)
      {
      }
    }
  }

  lemma SameArgvIff(c: Container, image: Image)
    requires c.command != [] || c.args != []
    ensures NativeArgv(c, image) == c.command + c.args <==> ProgramSafe(c, image)
  {
    if c.command == [] {
      assert c.command + c.args == c.args;
      assert |image.entrypoint + c.args| == |image.entrypoint| + |c.args|;
    }
  }

  // ----- The theorem -----

  /** The variables of the container's TSecrets, in the order in which its loaders set them. */
  ghost function LoadedNames(p: Pod, tsecrets: set<string>, order: seq<Key>, i: nat, secrets: Secrets): seq<string>
    requires forall k :: k in order ==> k in PodPlans(p, tsecrets)
    requires i < |p.containers|
  {
    NamesOf(LoadedLines(p, tsecrets, order, i, secrets))
  }

  lemma VarsAreNames(p: Pod, i: nat, tsecrets: set<string>, secrets: Secrets)
    requires Supported(p, i, tsecrets, secrets)
    ensures forall n :: n in SecretEnv(p.containers[i].envFrom, tsecrets, secrets) ==> IsName(n)
  {
    hide LoadsEnv, WellFormed, NamesFree, SourceVars, SecretEnv, Apart, IsName, OnePrefix, UniqueContainers;
    var c := p.containers[i];
    forall n | n in SecretEnv(c.envFrom, tsecrets, secrets)
      ensures IsName(n)
    {
      InSecretEnv(c.envFrom, tsecrets, secrets, n);
      var e :| e in c.envFrom && Gives(e, tsecrets, secrets, n);
      assert ReadsSecret(c, tsecrets, e.secret, e.prefix);
      SourceIsRef(p, tsecrets, c, e.secret, e.prefix);
      var r := EnvRef(e.secret, e.prefix, c.name);
      assert r in AllRefs(p, tsecrets) && r.secret == e.secret;
    }
  }

  /** The rewritten container starts exactly what Kubernetes would have started, if and only if the program
      is the container's own; the shell passes on every other variable; and each TSecret variable gets from
      its loader what it has natively: cat is found, no other value overrides it, and it loses no line
      end (or it does not matter, because the values happen to be equal). */
  lemma SameAsNativeIff(p: Pod, i: nat, tsecrets: set<string>, injector: string, namespace: string, order: seq<Key>,
                        secrets: Secrets, volumes: map<string, map<string, string>>, files: Files,
                        image: Image, w: World)
    requires Supported(p, i, tsecrets, secrets)
    requires Prepared(p, i, tsecrets, injector, namespace, order, secrets, volumes, files)
    ensures RunContainer(Handle(p, tsecrets, injector, namespace, order).pod.containers[i], files,
                         image, tsecrets, secrets, w)
            == Some(NativeProcess(p.containers[i], image, tsecrets, secrets, w))
       <==> (&& ProgramSafe(p.containers[i], image)
             && VarsSafe(p.containers[i], image, tsecrets, secrets, w, LoadedNames(p, tsecrets, order, i, secrets)))
  {
    hide RunContainer, NativeEnv, NativeArgv, VarsSafe, ProgramSafe, SecretEnv, Handle, LoadLines, StartEnv, Apart;
    hide Injected, Shows, OnePrefix, LoadedLines, GoodNames, NamesFree;
    var c := p.containers[i];
    EnvFromPreserved(p, i, tsecrets, injector, namespace, order, secrets, volumes, files, image, w);
    KeptParts(p, i, tsecrets, injector, namespace, order);
    var c' := Handle(p, tsecrets, injector, namespace, order).pod.containers[i];
    SameParts(c', c.(envFrom := KeepEnvFrom(c.envFrom, tsecrets)), image, tsecrets, secrets, w);
    LinesAreVars(p, tsecrets, order, i, secrets);
    VarsAreNames(p, i, tsecrets, secrets);
    SameEnvIff(c, image, tsecrets, secrets, w, LoadedLines(p, tsecrets, order, i, secrets));
    SameArgvIff(c, image);
  }

  lemma SameParts(a: Container, b: Container, image: Image, tsecrets: set<string>, secrets: Secrets, w: World)
    requires a.envFrom == b.envFrom && a.env == b.env
    ensures NativeEnv(a, image, tsecrets, secrets, w) == NativeEnv(b, image, tsecrets, secrets, w)
  {
  }

  // ----- The usual case -----

  /** Where cat is found from start to end, the order of the loaders does not matter. */
  lemma SafeWithCat(c: Container, image: Image, tsecrets: set<string>, secrets: Secrets, w: World, names: seq<string>)
    requires HasCat(SearchPath(KeptEnv(c, image, tsecrets, secrets, w), image.user), image.user)
    requires var vars := SecretEnv(c.envFrom, tsecrets, secrets);
             PATH in vars ==> HasCat(Trimmed(vars[PATH]), image.user)
    ensures VarsSafe(c, image, tsecrets, secrets, w, names)
       <==> (&& NamesSafe(c, image, tsecrets, secrets, w)
             && forall n :: n in SecretEnv(c.envFrom, tsecrets, secrets) ==>
                  ValueSafe(Override(c, n, tsecrets, secrets, w), SecretEnv(c.envFrom, tsecrets, secrets)[n], true))
  {
    hide SecretEnv, Override, ValueSafe, KeptEnv, HasCat, After, NamesSafe;
  }

  /** Without a TSecret variable PATH it does not matter either. */
  lemma OrderIrrelevant(c: Container, image: Image, tsecrets: set<string>, secrets: Secrets, w: World,
                        names: seq<string>, names': seq<string>)
    requires PATH !in SecretEnv(c.envFrom, tsecrets, secrets)
    ensures VarsSafe(c, image, tsecrets, secrets, w, names) <==> VarsSafe(c, image, tsecrets, secrets, w, names')
  {
    hide SecretEnv, Override, ValueSafe, KeptEnv, HasCat, After, NamesSafe;
  }

  /** Within one loader, names come in byte order. */
  lemma AfterInLoader(vars: Env, first: string, n: string)
    requires first in vars && n in vars
    ensures After(SortedNames(vars), first, n) <==> first != n && Inject.AtMost(first, n)
  {
    hide Inject.AtMost;
    var names := SortedNames(vars);
    SortedNamesAre(vars, names);
    var j :| 0 <= j < |names| && names[j] == first;
    var k :| 0 <= k < |names| && names[k] == n;
    Inject.AtMostTotal(first, n);
    if j < k {
      assert Inject.AtMost(names[j], names[k]);
    } else if k < j {
      assert Inject.AtMost(names[k], names[j]);
    }
  }
}
