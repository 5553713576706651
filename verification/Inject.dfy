/** pkg/inject/writer.go and the flags of cmd/inject/main.go: decrypting a TSecret to files and
    writing the loader script. A directory holds its files by name. */
module Inject {
  import opened Common
  import opened Base64
  import opened Crypto
  import opened KeyResolver
  import opened ShellText

  datatype Entry = Entry(value: string, algorithm: string, keyRef: string)

  datatype TSecret = TSecret(encryptionRef: EncryptionRef, data: map<string, Entry>)

  const LOADER_NAME := "load-env.sh"

  // ----- Sorting names -----

  /** The byte order of Go strings. */
  predicate AtMost(a: string, b: string) {
    if a == "" then true
    else if b == "" then false
    else if a[0] != b[0] then a[0] < b[0]
    else AtMost(a[1..], b[1..])
  }

  function Insert(x: string, s: seq<string>): seq<string> {
    if s == [] then [x]
    else if AtMost(x, s[0]) then [x] + s
    else [s[0]] + Insert(x, s[1..])
  }

  /** sort.Strings. */
  function SortStrings(s: seq<string>): seq<string> {
    if s == [] then [] else Insert(s[0], SortStrings(s[1..]))
  }

  ghost predicate IsSorted(s: seq<string>) {
    forall i, j :: 0 <= i <= j < |s| ==> AtMost(s[i], s[j])
  }

  /** a comes before b if it is a beginning of b, or has the smaller byte where they first differ. */
  lemma {:induction false} AtMostIff(a: string, b: string)
    ensures AtMost(a, b)
       <==> a <= b || exists i :: 0 <= i < |a| && i < |b| && a[..i] == b[..i] && a[i] < b[i]
  {
    if a != "" && b != "" {
      if a[0] == b[0] {
        AtMostIff(a[1..], b[1..]);
        assert a == [a[0]] + a[1..] && b == [b[0]] + b[1..];
        assert a <= b <==> a[1..] <= b[1..];
        DifferBehind(a, b);
      } else {
        assert a[..0] == b[..0];
      }
    }
  }

  lemma DifferBehind(a: string, b: string)
    requires a != "" && b != "" && a[0] == b[0]
    ensures (exists i :: 0 <= i < |a| && i < |b| && a[..i] == b[..i] && a[i] < b[i])
       <==> exists i :: 0 <= i < |a[1..]| && i < |b[1..]| && a[1..][..i] == b[1..][..i] && a[1..][i] < b[1..][i]
  {
    if i :| 0 <= i < |a| && i < |b| && a[..i] == b[..i] && a[i] < b[i] {
      assert a[1..][..i - 1] == a[..i][1..] && b[1..][..i - 1] == b[..i][1..];
      assert a[1..][i - 1] < b[1..][i - 1];
    }
    if i :| 0 <= i < |a[1..]| && i < |b[1..]| && a[1..][..i] == b[1..][..i] && a[1..][i] < b[1..][i] {
      assert a[..i + 1] == [a[0]] + a[1..][..i] && b[..i + 1] == [b[0]] + b[1..][..i];
      assert a[i + 1] < b[i + 1];
    }
  }

  lemma {:induction false} AtMostReflexive(a: string)
    ensures AtMost(a, a)
  {
    if a != "" {
      AtMostReflexive(a[1..]);
    }
  }

  lemma {:induction false} AtMostTotal(a: string, b: string)
    ensures AtMost(a, b) || AtMost(b, a)
    ensures AtMost(a, b) && AtMost(b, a) ==> a == b
  {
    if a != "" && b != "" && a[0] == b[0] {
      AtMostTotal(a[1..], b[1..]);
      assert a == [a[0]] + a[1..] && b == [b[0]] + b[1..];
    }
  }

  lemma {:induction false} AtMostTransitive(a: string, b: string, c: string)
    requires AtMost(a, b) && AtMost(b, c)
    ensures AtMost(a, c)
  {
    if a != "" && a[0] == b[0] && b[0] == c[0] {
      AtMostTransitive(a[1..], b[1..], c[1..]);
    }
  }

  lemma {:induction false} InsertMembers(x: string, s: seq<string>)
    ensures multiset(Insert(x, s)) == multiset(s) + multiset{x}
  {
    if s != [] && !AtMost(x, s[0]) {
      InsertMembers(x, s[1..]);
      assert s == [s[0]] + s[1..];
    }
  }

  lemma ConsSorted(h: string, r: seq<string>)
    requires IsSorted(r) && forall n :: n in r ==> AtMost(h, n)
    ensures IsSorted([h] + r)
  {
    AtMostReflexive(h);
    var all := [h] + r;
    forall i, j | 0 <= i <= j < |all|
      ensures AtMost(all[i], all[j])
    {
      if i == 0 && j > 0 {
        assert all[j] in r;
      }
    }
  }

  lemma HeadLeast(s: seq<string>)
    requires IsSorted(s) && s != []
    ensures forall n :: n in s ==> AtMost(s[0], n)
  {
  }

  lemma {:induction false} InsertSorted(x: string, s: seq<string>)
    requires IsSorted(s)
    ensures IsSorted(Insert(x, s))
  {
    if s == [] {
      AtMostReflexive(x);
    } else {
      HeadLeast(s);
      if AtMost(x, s[0]) {
        forall n | n in s
          ensures AtMost(x, n)
        {
          AtMostTransitive(x, s[0], n);
        }
        ConsSorted(x, s);
      } else {
        InsertSorted(x, s[1..]);
        InsertMembers(x, s[1..]);
        AtMostTotal(x, s[0]);
        var r := Insert(x, s[1..]);
        forall n | n in r
          ensures AtMost(s[0], n)
        {
          assert n in multiset(r);
        }
        ConsSorted(s[0], r);
      }
    }
  }

  lemma {:induction false} Sorts(s: seq<string>)
    ensures IsSorted(SortStrings(s)) && multiset(SortStrings(s)) == multiset(s)
  {
    if s != [] {
      Sorts(s[1..]);
      InsertSorted(s[0], SortStrings(s[1..]));
      InsertMembers(s[0], SortStrings(s[1..]));
      assert s == [s[0]] + s[1..];
    }
  }

  lemma SameHead(a: seq<string>, b: seq<string>)
    requires IsSorted(a) && IsSorted(b) && a != [] && b != []
    requires forall n :: n in a <==> n in b
    ensures a[0] == b[0]
  {
    HeadLeast(a);
    HeadLeast(b);
    AtMostTotal(a[0], b[0]);
  }

  lemma TailSorted(s: seq<string>)
    requires IsSorted(s) && s != []
    ensures IsSorted(s[1..]) && multiset(s[1..]) == multiset(s) - multiset{s[0]}
  {
    assert s == [s[0]] + s[1..];
  }

  lemma {:induction false} SortedUnique(a: seq<string>, b: seq<string>)
    requires IsSorted(a) && IsSorted(b) && multiset(a) == multiset(b)
    ensures a == b
  {
    hide IsSorted;
    assert |a| == |multiset(a)| == |multiset(b)| == |b|;
    if a != [] {
      PermutationMembers(a, b);
      SameHead(a, b);
      assert a == [a[0]] + a[1..] && b == [b[0]] + b[1..];
      TailSorted(a);
      TailSorted(b);
      SortedUnique(a[1..], b[1..]);
    }
  }

  /** The loader script does not depend on the order in which the map of entries was iterated. */
  lemma LoaderUnique(mountPath: string, a: seq<string>, b: seq<string>)
    requires NoDup(a) && NoDup(b) && forall n :: n in a <==> n in b
    ensures LoaderText(mountPath, SortStrings(a)) == LoaderText(mountPath, SortStrings(b))
  {
    SameMembersPermute(a, b);
    Sorts(a);
    Sorts(b);
    SortedUnique(SortStrings(a), SortStrings(b));
  }

  // ----- What is written -----

  /** The text of an entry, if it decrypts. */
  function TextOf(ciphers: Ciphers, data: map<string, Entry>, key: Bytes, name: string): Option<Bytes> {
    if name !in data then None
    else
      match Decrypt(ciphers, data[name].value, key)
      case Plain(text) => Some(text)
      case Failed(_) => None
      case Panicked => None
  }

  predicate AllDecrypt(ciphers: Ciphers, data: map<string, Entry>, key: Bytes) {
    forall name :: name in data ==> TextOf(ciphers, data, key, name).Some?
  }

  function FileNames(prefix: string, names: set<string>): set<string> {
    set n | n in names :: prefix + n
  }

  function Unprefixed(prefix: string, file: string): string {
    if |prefix| <= |file| then file[|prefix|..] else ""
  }

  /** The files of the entries with the given names: name prefix plus data key, contents the text. */
  function FilesOf(ciphers: Ciphers, data: map<string, Entry>, key: Bytes, prefix: string, names: set<string>):
      map<string, string>
  {
    map f | f in FileNames(prefix, names) && TextOf(ciphers, data, key, Unprefixed(prefix, f)).Some? ::
      TextOf(ciphers, data, key, Unprefixed(prefix, f)).value
  }

  /** No two data keys share a file. */
  lemma PrefixInjective(prefix: string, a: string, b: string)
    ensures prefix + a == prefix + b <==> a == b
    ensures Unprefixed(prefix, prefix + a) == a
  {
    assert (prefix + a)[|prefix|..] == a;
    assert (prefix + b)[|prefix|..] == b;
  }

  datatype Outcome = Done | Failed(error: string)

  /** Joined to the mount path, other names without slashes denote a directory, which cannot be written. */
  predicate FileName(name: string) {
    name != "" && name != "." && name != ".."
  }

  /** A volume that only injectors write to. They leave every file without write permission (mode 0400, the
      loader 0500) and do not run as root, so a file that exists cannot be written again. */
  class Directory {
    var files: map<string, string>

    constructor ()
      ensures files == map[]
    {
      files := map[];
    }

    method WriteFile(name: string, text: string) returns (ok: bool)
      modifies this
      ensures ok <==> FileName(name) && name !in old(files)
      ensures files == if ok then old(files)[name := text] else old(files)
    {
      ok := FileName(name) && name !in files;
      if ok {
        files := files[name := text];
      }
    }

    /** load-env.sh exports each name from its file; the names are sorted first. */
    method WriteEnvLoader(mountPath: string, names: seq<string>) returns (ok: bool)
      modifies this
      ensures ok <==> LOADER_NAME !in old(files)
      ensures files == if ok then old(files)[LOADER_NAME := LoaderText(mountPath, SortStrings(names))] else old(files)
    {
      var sorted := SortStrings(names);
      var text := "#!/bin/sh\n";
      for i := 0 to |sorted|
        invariant text == LoaderText(mountPath, sorted[..i])
        invariant files == old(files)
      {
        text := text + ExportLine(mountPath, sorted[i]);
        LinesSnoc(mountPath, sorted[..i], sorted[i]);
        assert sorted[..i + 1] == sorted[..i] + [sorted[i]];
      }
      assert sorted[..|sorted|] == sorted;
      ok := WriteFile(LOADER_NAME, text);
    }
  }

  lemma {:induction false} ExportLinesSnoc(mountPath: string, names: seq<string>, n: string)
    ensures ExportLines(mountPath, names + [n]) == ExportLines(mountPath, names) + ExportLine(mountPath, n)
  {
    if names == [] {
      assert [] + [n] == [n];
      assert [n][1..] == [];
    } else {
      ExportLinesSnoc(mountPath, names[1..], n);
      assert (names + [n])[1..] == names[1..] + [n];
    }
  }

  lemma LinesSnoc(mountPath: string, names: seq<string>, n: string)
    ensures LoaderText(mountPath, names + [n]) == LoaderText(mountPath, names) + ExportLine(mountPath, n)
  {
    ExportLinesSnoc(mountPath, names, n);
  }

  // ----- Write -----

  lemma OneMoreFile(ciphers: Ciphers, data: map<string, Entry>, key: Bytes, prefix: string,
                    names: set<string>, n: string)
    requires TextOf(ciphers, data, key, n).Some?
    ensures FilesOf(ciphers, data, key, prefix, names + {n})
         == FilesOf(ciphers, data, key, prefix, names)[prefix + n := TextOf(ciphers, data, key, n).value]
    ensures n !in names ==> prefix + n !in FileNames(prefix, names)
    ensures FileNames(prefix, names + {n}) == FileNames(prefix, names) + {prefix + n}
  {
    hide TextOf;
    PrefixInjective(prefix, n, n);
    forall m | m in names
      ensures prefix + m == prefix + n <==> m == n
      ensures Unprefixed(prefix, prefix + m) == m
    {
      PrefixInjective(prefix, m, n);
    }
    assert FileNames(prefix, names + {n}) == FileNames(prefix, names) + {prefix + n};
  }

  lemma NoFiles(ciphers: Ciphers, data: map<string, Entry>, key: Bytes, prefix: string)
    ensures FilesOf(ciphers, data, key, prefix, {}) == map[] && FileNames(prefix, {}) == {}
  {
  }

  /** The directory and the list of names after the entries with the given names were written. */
  ghost predicate Progressed(before: map<string, string>, after: map<string, string>, fileNames: seq<string>,
                             ciphers: Ciphers, data: map<string, Entry>, key: Bytes, prefix: string,
                             names: set<string>)
  {
    && after == before + FilesOf(ciphers, data, key, prefix, names)
    && NoDup(fileNames)
    && forall f :: f in fileNames <==> f in FileNames(prefix, names)
  }

  lemma ProgressStarts(before: map<string, string>, ciphers: Ciphers, data: map<string, Entry>, key: Bytes,
                       prefix: string)
    ensures Progressed(before, before, [], ciphers, data, key, prefix, {})
  {
    NoFiles(ciphers, data, key, prefix);
    assert before + map[] == before;
  }

  lemma ProgressStep(before: map<string, string>, after: map<string, string>, fileNames: seq<string>,
                     ciphers: Ciphers, data: map<string, Entry>, key: Bytes, prefix: string,
                     names: set<string>, n: string)
    requires Progressed(before, after, fileNames, ciphers, data, key, prefix, names)
    requires n !in names && TextOf(ciphers, data, key, n).Some?
    ensures Progressed(before, after[prefix + n := TextOf(ciphers, data, key, n).value], fileNames + [prefix + n],
                       ciphers, data, key, prefix, names + {n})
    ensures prefix + n in after <==> prefix + n in before
  {
    OneMoreFile(ciphers, data, key, prefix, names, n);
    OverlaySnoc(before, FilesOf(ciphers, data, key, prefix, names), prefix + n, TextOf(ciphers, data, key, n).value);
    ListSnoc(fileNames, FileNames(prefix, names), prefix + n);
  }

  lemma OverlaySnoc(before: map<string, string>, files: map<string, string>, k: string, v: string)
    ensures (before + files)[k := v] == before + files[k := v]
  {
  }

  lemma ListSnoc(list: seq<string>, members: set<string>, x: string)
    requires NoDup(list) && (forall f :: f in list <==> f in members) && x !in members
    ensures NoDup(list + [x]) && forall f :: f in list + [x] <==> f in members + {x}
  {
  }

  method DecryptEntry(ciphers: Ciphers, data: map<string, Entry>, key: Bytes, n: string) returns (text: Result<Bytes>)
    requires n in data
    ensures TextOf(ciphers, data, key, n) == match text
                                             case Ok(t) => Some(t)
                                             case Err(_) => None
  {
    match Decrypt(ciphers, data[n].value, key) {
      case Plain(t) => text := Ok(t);
      case Failed(e) => text := Err(e);
      case Panicked => text := Err("panic");
    }
  }

  /** Every file that the entries call for can be created: its name is one for a file, and it does not exist. */
  ghost predicate Creatable(before: map<string, string>, prefix: string, names: set<string>) {
    forall n :: n in names ==>
      && prefix + n != "" && prefix + n != "." && prefix + n != ".."
      && prefix + n !in before
  }

  /** The entries of the map are visited in any order; the first that does not decrypt, or whose file
      cannot be created, stops it, and the files already written stay. */
  method WriteEntries(ciphers: Ciphers, data: map<string, Entry>, key: Bytes, prefix: string, dir: Directory)
      returns (outcome: Outcome, fileNames: seq<string>, ghost written: set<string>)
    modifies dir
    ensures Progressed(old(dir.files), dir.files, fileNames, ciphers, data, key, prefix, written)
    ensures written <= data.Keys && forall n :: n in written ==> TextOf(ciphers, data, key, n).Some?
    ensures outcome.Done? <==> AllDecrypt(ciphers, data, key) && Creatable(old(dir.files), prefix, data.Keys)
    ensures outcome.Done? ==> written == data.Keys
  {
    fileNames, written := [], {};
    var rest := data.Keys;
    ProgressStarts(dir.files, ciphers, data, key, prefix);
    while rest != {}
      invariant rest <= data.Keys && written == data.Keys - rest
      invariant forall n :: n in written ==> TextOf(ciphers, data, key, n).Some?
      invariant Creatable(old(dir.files), prefix, written)
      invariant Progressed(old(dir.files), dir.files, fileNames, ciphers, data, key, prefix, written)
      decreases |rest|
    {
      var n :| n in rest;
      var text := DecryptEntry(ciphers, data, key, n);
      if text.Err? {
        return Outcome.Failed(text.error), fileNames, written;
      }
      ProgressStep(old(dir.files), dir.files, fileNames, ciphers, data, key, prefix, written, n);
      var ok := dir.WriteFile(prefix + n, text.value);
      if !ok {
        return Outcome.Failed("write file"), fileNames, written;
      }
      fileNames := fileNames + [prefix + n];
      written := written + {n};
      rest := rest - {n};
    }
    outcome := Done;
  }

  /** The TSecret exists, its key resolves, and every entry decrypts. */
  predicate Readable(ciphers: Ciphers, cluster: Cluster, tsecrets: map<ObjectKey, TSecret>,
                     namespace: string, secretName: string)
  {
    var at := ObjectKey(namespace, secretName);
    && at in tsecrets
    && Resolve(cluster, tsecrets[at].encryptionRef, namespace).Ok?
    && AllDecrypt(ciphers, tsecrets[at].data, Resolve(cluster, tsecrets[at].encryptionRef, namespace).value)
  }

  /** The files a readable TSecret gives: one per entry. */
  function TSecretFiles(ciphers: Ciphers, cluster: Cluster, t: TSecret, namespace: string, prefix: string):
      map<string, string>
    requires Resolve(cluster, t.encryptionRef, namespace).Ok?
  {
    FilesOf(ciphers, t.data, Resolve(cluster, t.encryptionRef, namespace).value, prefix, t.data.Keys)
  }

  /** What the directory gains: the files, and with exportEnv the loader script over their names. The
      names may be listed in any order (LoaderUnique). */
  ghost predicate Gained(before: map<string, string>, after: map<string, string>, files: map<string, string>,
                         mountPath: string, exportEnv: bool)
  {
    if exportEnv then
      exists names :: NoDup(names) && (forall f :: f in names <==> f in files)
                      && after == (before + files)[LOADER_NAME := LoaderText(mountPath, SortStrings(names))]
    else after == before + files
  }

  /** What a run with these arguments writes can be created, and it does not write one name twice. */
  ghost predicate Unwritten(before: map<string, string>, prefix: string, names: set<string>, exportEnv: bool) {
    && Creatable(before, prefix, names)
    && (exportEnv ==> LOADER_NAME !in before && LOADER_NAME !in FileNames(prefix, names))
  }

  method Write(ciphers: Ciphers, cluster: Cluster, tsecrets: map<ObjectKey, TSecret>, namespace: string,
               secretName: string, mountPath: string, prefix: string, exportEnv: bool, dir: Directory)
      returns (outcome: Outcome)
    modifies dir
    ensures outcome.Done?
       <==> (&& Readable(ciphers, cluster, tsecrets, namespace, secretName)
             && Unwritten(old(dir.files), prefix, tsecrets[ObjectKey(namespace, secretName)].data.Keys, exportEnv))
    ensures outcome.Done? ==>
              Gained(old(dir.files), dir.files,
                     TSecretFiles(ciphers, cluster, tsecrets[ObjectKey(namespace, secretName)], namespace, prefix),
                     mountPath, exportEnv)
  {
    var at := ObjectKey(namespace, secretName);
    if at !in tsecrets {
      return Outcome.Failed("get TSecret");
    }
    var t := tsecrets[at];
    var key := Resolve(cluster, t.encryptionRef, namespace);
    if key.Err? {
      return Outcome.Failed("resolve encryption key");
    }
    var fileNames;
    ghost var written;
    outcome, fileNames, written := WriteEntries(ciphers, t.data, key.value, prefix, dir);
    if outcome.Done? {
      AllNames(ciphers, t.data, key.value, prefix);
      if exportEnv {
        var ok := dir.WriteEnvLoader(mountPath, fileNames);
        if !ok {
          outcome := Outcome.Failed("write load-env.sh");
        }
      }
    }
  }

  /** So an injector that runs again on the volume it has filled fails, unless there was nothing to write. */
  lemma RestartFailsIff(ciphers: Ciphers, data: map<string, Entry>, key: Bytes, before: map<string, string>,
                        after: map<string, string>, mountPath: string, prefix: string, exportEnv: bool)
    requires AllDecrypt(ciphers, data, key)
    requires Gained(before, after, FilesOf(ciphers, data, key, prefix, data.Keys), mountPath, exportEnv)
    requires Unwritten(before, prefix, data.Keys, exportEnv)
    ensures !Unwritten(after, prefix, data.Keys, exportEnv) <==> data != map[] || exportEnv
  {
    AllNames(ciphers, data, key, prefix);
    if data != map[] {
      var n :| n in data;
      assert prefix + n in FileNames(prefix, data.Keys);
      assert prefix + n in after;
    }
  }

  lemma AllNames(ciphers: Ciphers, data: map<string, Entry>, key: Bytes, prefix: string)
    requires AllDecrypt(ciphers, data, key)
    ensures FilesOf(ciphers, data, key, prefix, data.Keys).Keys == FileNames(prefix, data.Keys)
  {
    forall n | n in data
      ensures Unprefixed(prefix, prefix + n) == n
    {
      PrefixInjective(prefix, n, n);
    }
  }

  /** The files, named and filled: prefix + name holds the text of the entry, and nothing else exists. */
  lemma FilesAre(ciphers: Ciphers, data: map<string, Entry>, key: Bytes, prefix: string, f: string)
    requires AllDecrypt(ciphers, data, key)
    ensures f in FilesOf(ciphers, data, key, prefix, data.Keys)
       <==> exists n :: n in data && f == prefix + n
    ensures forall n :: n in data ==>
              && prefix + n in FilesOf(ciphers, data, key, prefix, data.Keys)
              && Decrypt(ciphers, data[n].value, key)
                 == Plain(TextOf(ciphers, data, key, n).value)
              && FilesOf(ciphers, data, key, prefix, data.Keys)[prefix + n] == TextOf(ciphers, data, key, n).value
  {
    AllNames(ciphers, data, key, prefix);
    forall n | n in data
      ensures Unprefixed(prefix, prefix + n) == n
    {
      PrefixInjective(prefix, n, n);
    }
  }
}
