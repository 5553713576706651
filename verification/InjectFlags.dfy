/** The command line of cmd/inject/main.go, which the webhook writes and the injector reads. */
module InjectFlags {
  import opened Common
  import opened Mutate

  datatype Flags = Flags(secret: string, mount: string, namespace: string, prefix: string, exportEnv: bool)

  const SECRET_FLAG := "--secret="
  const MOUNT_FLAG := "--mount="
  const NAMESPACE_FLAG := "--namespace="
  const PREFIX_FLAG := "--prefix="
  const EXPORT_FLAG := "--export-env"

  function Apply(f: Flags, arg: string): Option<Flags> {
    if SECRET_FLAG <= arg then Some(f.(secret := arg[|SECRET_FLAG|..]))
    else if MOUNT_FLAG <= arg then Some(f.(mount := arg[|MOUNT_FLAG|..]))
    else if NAMESPACE_FLAG <= arg then Some(f.(namespace := arg[|NAMESPACE_FLAG|..]))
    else if PREFIX_FLAG <= arg then Some(f.(prefix := arg[|PREFIX_FLAG|..]))
    else if arg == EXPORT_FLAG then Some(f.(exportEnv := true))
    else None
  }

  function ApplyAll(f: Flags, args: seq<string>): Option<Flags>
    decreases |args|
  {
    if args == [] then Some(f)
    else
      match Apply(f, args[0])
      case Some(f') => ApplyAll(f', args[1..])
      case None => None
  }

  /** The secret and the mount are required; the namespace falls back to POD_NAMESPACE. */
  function Parse(args: seq<string>, podNamespace: string): Option<Flags> {
    match ApplyAll(Flags("", "", "", "", false), args)
    case None => None
    case Some(f) =>
      var f' := if f.namespace == "" then f.(namespace := podNamespace) else f;
      if f'.secret == "" || f'.mount == "" || f'.namespace == "" then None else Some(f')
  }

  lemma StringFlag(flag: string, value: string)
    ensures flag <= flag + value && (flag + value)[|flag|..] == value
  {
  }

  lemma ApplySecret(f: Flags, v: string)
    ensures Apply(f, SECRET_FLAG + v) == Some(f.(secret := v))
  {
    StringFlag(SECRET_FLAG, v);
  }

  lemma ApplyMount(f: Flags, v: string)
    ensures Apply(f, MOUNT_FLAG + v) == Some(f.(mount := v))
  {
    StringFlag(MOUNT_FLAG, v);
    assert (MOUNT_FLAG + v)[2] == 'm';
  }

  lemma ApplyNamespace(f: Flags, v: string)
    ensures Apply(f, NAMESPACE_FLAG + v) == Some(f.(namespace := v))
  {
    StringFlag(NAMESPACE_FLAG, v);
    assert (NAMESPACE_FLAG + v)[2] == 'n';
  }

  lemma ApplyPrefix(f: Flags, v: string)
    ensures Apply(f, PREFIX_FLAG + v) == Some(f.(prefix := v))
  {
    StringFlag(PREFIX_FLAG, v);
    assert (PREFIX_FLAG + v)[2] == 'p';
  }

  lemma ApplyExport(f: Flags)
    ensures Apply(f, EXPORT_FLAG) == Some(f.(exportEnv := true))
  {
    assert EXPORT_FLAG[2] == 'e';
  }

  lemma ApplyFirst(f: Flags, arg: string, rest: seq<string>)
    requires Apply(f, arg).Some?
    ensures ApplyAll(f, [arg] + rest) == ApplyAll(Apply(f, arg).value, rest)
  {
    assert ([arg] + rest)[1..] == rest;
  }

  lemma ApplyOptions(f: Flags, prefix: string, exportEnv: bool)
    requires f.prefix == "" && !f.exportEnv
    ensures ApplyAll(f, (if prefix != "" then [PREFIX_FLAG + prefix] else [])
                        + (if exportEnv then [EXPORT_FLAG] else []))
         == Some(f.(prefix := prefix, exportEnv := exportEnv))
  {
    var a := if prefix != "" then [PREFIX_FLAG + prefix] else [];
    var b := if exportEnv then [EXPORT_FLAG] else [];
    var f1 := f.(prefix := prefix);
    if exportEnv {
      ApplyExport(f1);
      assert b + [] == b;
      ApplyFirst(f1, EXPORT_FLAG, []);
    }
    assert ApplyAll(f1, b) == Some(f1.(exportEnv := exportEnv));
    if prefix != "" {
      ApplyPrefix(f, prefix);
      ApplyFirst(f, PREFIX_FLAG + prefix, b);
    } else {
      assert a + b == b;
    }
  }

  /** The injector reads back exactly the plan the webhook wrote down, with the namespace of its pod if none
      was written; it refuses to start without a secret, a mount or a namespace. */
  lemma FlagsRoundTrip(plan: Plan, namespace: string, podNamespace: string)
    ensures Parse(InjectorArgs(plan, namespace), podNamespace)
         == if plan.secret == "" || plan.mountPath == "" || (namespace == "" && podNamespace == "") then None
            else Some(Flags(plan.secret, plan.mountPath, if namespace != "" then namespace else podNamespace,
                            plan.prefix, plan.exportEnv))
  {
    var f0 := Flags("", "", "", "", false);
    var f1 := f0.(secret := plan.secret);
    var f2 := f1.(mount := plan.mountPath);
    var f3 := f2.(namespace := namespace);
    var options := (if plan.prefix != "" then [PREFIX_FLAG + plan.prefix] else [])
                   + (if plan.exportEnv then [EXPORT_FLAG] else []);
    ApplyOptions(f3, plan.prefix, plan.exportEnv);
    ApplyNamespace(f2, namespace);
    ApplyFirst(f2, NAMESPACE_FLAG + namespace, options);
    ApplyMount(f1, plan.mountPath);
    ApplyFirst(f1, MOUNT_FLAG + plan.mountPath, [NAMESPACE_FLAG + namespace] + options);
    ApplySecret(f0, plan.secret);
    ApplyFirst(f0, SECRET_FLAG + plan.secret,
               [MOUNT_FLAG + plan.mountPath] + ([NAMESPACE_FLAG + namespace] + options));
    assert InjectorArgs(plan, namespace)
        == [SECRET_FLAG + plan.secret]
           + ([MOUNT_FLAG + plan.mountPath] + ([NAMESPACE_FLAG + namespace] + options));
  }
}
