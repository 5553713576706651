/** pkg/controller/sync_controller.go: pulling values, encrypting them and storing them in the target
    TSecret; and what an injector later reads from it. */
module Sync {
  import opened Common
  import opened Base64
  import opened Crypto
  import opened KeyResolver
  import Conditions
  import Inject

  datatype Item = Item(secretKey: string, remoteKey: string, property: string)

  datatype Spec = Spec(target: string, items: seq<Item>, encryptionRef: Option<EncryptionRef>)

  const MASTER_KEY := "tsecret-master-key"

  function DefaultRef(spec: Spec): EncryptionRef {
    match spec.encryptionRef
    case Some(ref) => ref
    case None => EncryptionRef("sealed-secret", MASTER_KEY, "", None)
  }

  /** The reference a spec asks for: its own, or else the master key in the sync's namespace. */
  ghost predicate AskedRef(spec: Spec, ref: EncryptionRef) {
    match spec.encryptionRef
    case Some(own) => ref == own
    case None =>
      && ref.provider == "sealed-secret" && ref.name == "tsecret-master-key"
      && ref.namespace == "" && ref.vaultTransit.None?
  }

  lemma AskedIff(spec: Spec, ref: EncryptionRef)
    ensures AskedRef(spec, ref) <==> ref == DefaultRef(spec)
  {
  }

  // ----- The pull loop -----

  /** What the surroundings answer for one item: the provider's value, the cluster as the key resolver
      sees it at that moment, and randomness for the nonce. */
  datatype Answer = Answer(value: Result<Bytes>, cluster: Cluster, random: Bytes)

  datatype Pulled = Entries(data: map<string, Inject.Entry>) | Stopped(reason: string)

  function PullOne(ciphers: Ciphers, ref: EncryptionRef, namespace: string, answer: Answer): Result<Inject.Entry> {
    match answer.value
    case Err(_) => Err("PullFailed")
    case Ok(value) =>
      match Resolve(answer.cluster, ref, namespace)
      case Err(_) => Err("KeyResolutionFailed")
      case Ok(key) =>
        match Encrypt(ciphers, value, key, XCHACHA, answer.random)
        case Err(_) => Err("EncryptionFailed")
        case Ok(text) => Ok(Inject.Entry(text, XCHACHA, ref.name))
  }

  function Results(ciphers: Ciphers, ref: EncryptionRef, namespace: string, answers: seq<Answer>):
      (rs: seq<Result<Inject.Entry>>)
    ensures |rs| == |answers|
    ensures forall i :: 0 <= i < |answers| ==> rs[i] == PullOne(ciphers, ref, namespace, answers[i])
  {
    seq(|answers|, i requires 0 <= i < |answers| => PullOne(ciphers, ref, namespace, answers[i]))
  }

  /** A later item with the same key overrides an earlier one; the first failure stops. */
  function Gather(items: seq<Item>, results: seq<Result<Inject.Entry>>): Pulled
    requires |items| == |results|
  {
    if items == [] then Entries(map[])
    else
      var n := |items| - 1;
      match Gather(items[..n], results[..n])
      case Stopped(reason) => Stopped(reason)
      case Entries(data) =>
        match results[n]
        case Err(reason) => Stopped(reason)
        case Ok(e) => Entries(data[items[n].secretKey := e])
  }

  function Pull(ciphers: Ciphers, ref: EncryptionRef, namespace: string, items: seq<Item>, answers: seq<Answer>): Pulled
    requires |items| == |answers|
  {
    Gather(items, Results(ciphers, ref, namespace, answers))
  }

  method PullAll(ciphers: Ciphers, ref: EncryptionRef, namespace: string, items: seq<Item>, answers: seq<Answer>)
      returns (pulled: Pulled)
    requires |items| == |answers|
    ensures pulled == Pull(ciphers, ref, namespace, items, answers)
  {
    ghost var results := Results(ciphers, ref, namespace, answers);
    var data := map[];
    for i := 0 to |items|
      invariant Gather(items[..i], results[..i]) == Entries(data)
    {
      hide Gather, PullOne;
      GatherStep(items, results, i);
      var e := PullOne(ciphers, ref, namespace, answers[i]);
      match e {
        case Err(reason) =>
          StoppedStays(items, results, i + 1);
          return Stopped(reason);
        case Ok(entry) =>
          data := data[items[i].secretKey := entry];
      }
    }
    assert items[..|items|] == items && results[..|items|] == results;
    pulled := Entries(data);
  }

  lemma GatherStep(items: seq<Item>, results: seq<Result<Inject.Entry>>, i: nat)
    requires |items| == |results| && i < |items|
    ensures Gather(items[..i + 1], results[..i + 1])
         == match Gather(items[..i], results[..i])
            case Stopped(reason) => Stopped(reason)
            case Entries(data) =>
              match results[i]
              case Err(reason) => Stopped(reason)
              case Ok(e) => Entries(data[items[i].secretKey := e])
  {
    assert items[..i + 1][..i] == items[..i] && results[..i + 1][..i] == results[..i];
  }

  lemma {:induction false} StoppedStays(items: seq<Item>, results: seq<Result<Inject.Entry>>, k: nat)
    requires |items| == |results| && k <= |items|
    requires Gather(items[..k], results[..k]).Stopped?
    ensures Gather(items, results) == Gather(items[..k], results[..k])
  {
    if k == |items| {
      assert items[..k] == items && results[..k] == results;
    } else {
      var n := |items| - 1;
      assert items[..n][..k] == items[..k] && results[..n][..k] == results[..k];
      StoppedStays(items[..n], results[..n], k);
    }
  }

  lemma {:induction false} GatherCompleteIff(items: seq<Item>, results: seq<Result<Inject.Entry>>)
    requires |items| == |results|
    ensures Gather(items, results).Entries? <==> forall r :: r in results ==> r.Ok?
  {
    if items != [] {
      var n := |items| - 1;
      GatherCompleteIff(items[..n], results[..n]);
      assert forall r :: r in results <==> r in results[..n] || r == results[n];
    }
  }

  /** Why an item fails: the provider first, then its key, then encryption. */
  lemma PullOneReason(ciphers: Ciphers, ref: EncryptionRef, namespace: string, answer: Answer)
    requires PullOne(ciphers, ref, namespace, answer).Err?
    ensures PullOne(ciphers, ref, namespace, answer).error
         == if answer.value.Err? then "PullFailed"
            else if Resolve(answer.cluster, ref, namespace).Err? then "KeyResolutionFailed"
            else "EncryptionFailed"
  {
  }

  /** The loop ends well exactly if every item does. */
  lemma PullCompleteIff(ciphers: Ciphers, ref: EncryptionRef, namespace: string, items: seq<Item>, answers: seq<Answer>)
    requires |items| == |answers|
    ensures Pull(ciphers, ref, namespace, items, answers).Entries?
       <==> forall a :: a in answers ==> PullOne(ciphers, ref, namespace, a).Ok?
  {
    var results := Results(ciphers, ref, namespace, answers);
    GatherCompleteIff(items, results);
    forall a | a in answers
      ensures PullOne(ciphers, ref, namespace, a) in results
    {
      var i :| 0 <= i < |answers| && answers[i] == a;
      assert results[i] == PullOne(ciphers, ref, namespace, a);
    }
    forall r | r in results
      ensures exists a :: a in answers && r == PullOne(ciphers, ref, namespace, a)
    {
      var i :| 0 <= i < |results| && results[i] == r;
      assert answers[i] in answers;
    }
  }

  /** Otherwise the loop reports the first item that failed. */
  lemma PullStopsAtFirst(ciphers: Ciphers, ref: EncryptionRef, namespace: string, items: seq<Item>,
                         answers: seq<Answer>, i: nat)
    requires |items| == |answers| && i < |items|
    requires forall j :: 0 <= j < i ==> PullOne(ciphers, ref, namespace, answers[j]).Ok?
    requires PullOne(ciphers, ref, namespace, answers[i]).Err?
    ensures Pull(ciphers, ref, namespace, items, answers)
         == Stopped(PullOne(ciphers, ref, namespace, answers[i]).error)
  {
    hide Gather, PullOne;
    var results := Results(ciphers, ref, namespace, answers);
    GatherCompleteIff(items[..i], results[..i]);
    GatherStep(items, results, i);
    StoppedStays(items, results, i + 1);
  }

  // ----- What ends up under each key -----

  predicate Names(items: seq<Item>, k: string) {
    exists i :: 0 <= i < |items| && items[i].secretKey == k
  }

  /** The position of the last item with a key. */
  function LastWith(items: seq<Item>, k: string): (i: nat)
    requires Names(items, k)
    ensures i < |items| && items[i].secretKey == k
    ensures forall j :: i < j < |items| ==> items[j].secretKey != k
  {
    if items[|items| - 1].secretKey == k then |items| - 1
    else
      assert Names(items[..|items| - 1], k) by {
        var i :| 0 <= i < |items| && items[i].secretKey == k;
        assert items[..|items| - 1][i].secretKey == k;
      }
      LastWith(items[..|items| - 1], k)
  }

  lemma LastWithFront(items: seq<Item>, k: string)
    requires items != []
    ensures Names(items, k) <==> items[|items| - 1].secretKey == k || Names(items[..|items| - 1], k)
    ensures Names(items, k) ==>
              LastWith(items, k) == if items[|items| - 1].secretKey == k then |items| - 1
                                    else LastWith(items[..|items| - 1], k)
  {
    var front := items[..|items| - 1];
    if Names(front, k) {
      var i :| 0 <= i < |front| && front[i].secretKey == k;
      assert items[i].secretKey == k;
    }
    if Names(items, k) && items[|items| - 1].secretKey != k {
      var i :| 0 <= i < |items| && items[i].secretKey == k;
      assert front[i].secretKey == k;
    }
  }

  lemma {:induction false} GatherGives(items: seq<Item>, results: seq<Result<Inject.Entry>>, k: string)
    requires |items| == |results| && Gather(items, results).Entries?
    ensures k in Gather(items, results).data <==> Names(items, k)
    ensures Names(items, k) ==> results[LastWith(items, k)] == Ok(Gather(items, results).data[k])
  {
    if items != [] {
      var n := |items| - 1;
      GatherGives(items[..n], results[..n], k);
      LastWithFront(items, k);
    }
  }

  /** One entry per distinct key, made from the last item with that key. */
  lemma PullGives(ciphers: Ciphers, ref: EncryptionRef, namespace: string, items: seq<Item>,
                  answers: seq<Answer>, k: string)
    requires |items| == |answers| && Pull(ciphers, ref, namespace, items, answers).Entries?
    ensures k in Pull(ciphers, ref, namespace, items, answers).data <==> Names(items, k)
    ensures Names(items, k) ==>
              PullOne(ciphers, ref, namespace, answers[LastWith(items, k)])
              == Ok(Pull(ciphers, ref, namespace, items, answers).data[k])
  {
    GatherGives(items, Results(ciphers, ref, namespace, answers), k);
  }

  /** Every TSecret the sync reconciler stores passes the TSecret reconciler's validation. */
  lemma SyncedIsValid(ciphers: Ciphers, ref: EncryptionRef, namespace: string, items: seq<Item>, answers: seq<Answer>)
    requires |items| == |answers| && ciphers.Lawful()
    requires Pull(ciphers, ref, namespace, items, answers).Entries?
    ensures Conditions.AllValid(Pull(ciphers, ref, namespace, items, answers).data)
    ensures forall k :: k in Pull(ciphers, ref, namespace, items, answers).data ==>
              && Pull(ciphers, ref, namespace, items, answers).data[k].algorithm == XCHACHA
              && Pull(ciphers, ref, namespace, items, answers).data[k].keyRef == ref.name
  {
    var data := Pull(ciphers, ref, namespace, items, answers).data;
    forall k | k in data
      ensures Conditions.EntryValid(data[k]) && data[k].algorithm == XCHACHA && data[k].keyRef == ref.name
    {
      PullGives(ciphers, ref, namespace, items, answers, k);
      EntryDecrypts(ciphers, ref, namespace, answers[LastWith(items, k)]);
    }
  }

  /** An item succeeds exactly if the provider answers, the key resolves and there is enough randomness. */
  lemma PullOneIff(ciphers: Ciphers, ref: EncryptionRef, namespace: string, a: Answer)
    requires ciphers.Lawful()
    ensures PullOne(ciphers, ref, namespace, a).Ok?
       <==> a.value.Ok? && Resolve(a.cluster, ref, namespace).Ok? && |a.random| >= 24
  {
    ResolvedSize(a.cluster, ref, namespace);
    if a.value.Ok? && Resolve(a.cluster, ref, namespace).Ok? {
      DecryptEncrypt(ciphers, a.value.value, Resolve(a.cluster, ref, namespace).value, XCHACHA, a.random);
    }
  }

  lemma EntryDecrypts(ciphers: Ciphers, ref: EncryptionRef, namespace: string, a: Answer)
    requires ciphers.Lawful() && PullOne(ciphers, ref, namespace, a).Ok?
    ensures Conditions.EntryValid(PullOne(ciphers, ref, namespace, a).value)
    ensures a.value.Ok? && Resolve(a.cluster, ref, namespace).Ok?
    ensures Decrypt(ciphers, PullOne(ciphers, ref, namespace, a).value.value, Resolve(a.cluster, ref, namespace).value)
         == Plain(a.value.value)
  {
    DecryptEncrypt(ciphers, a.value.value, Resolve(a.cluster, ref, namespace).value, XCHACHA, a.random);
  }

  // ----- From the provider to the file -----

  /** The key the resolver finds for the reference is the same at every item and at injection time. */
  ghost predicate KeyStable(cluster: Cluster, ref: EncryptionRef, namespace: string, answers: seq<Answer>) {
    forall a :: a in answers ==> Resolve(a.cluster, ref, namespace) == Resolve(cluster, ref, namespace)
  }

  /** The files that ought to appear: prefix + key for each distinct key, holding the value pulled for
      the last item with that key. */
  function ExpectedFiles(items: seq<Item>, answers: seq<Answer>, prefix: string): map<string, string>
    requires |items| == |answers|
  {
    if items == [] then map[]
    else
      var n := |items| - 1;
      var rest := ExpectedFiles(items[..n], answers[..n], prefix);
      match answers[n].value
      case Ok(value) => rest[prefix + items[n].secretKey := value]
      case Err(_) => rest
  }

  /** The result of an item decrypts, with the key, to the value that was pulled. */
  ghost predicate Opens(ciphers: Ciphers, key: Bytes, result: Result<Inject.Entry>, answer: Answer) {
    result.Ok? && answer.value.Ok? && Decrypt(ciphers, result.value.value, key) == Plain(answer.value.value)
  }

  lemma {:induction false} GatheredFiles(ciphers: Ciphers, key: Bytes, items: seq<Item>,
                                         results: seq<Result<Inject.Entry>>, answers: seq<Answer>, prefix: string)
    requires |items| == |results| == |answers|
    requires forall i :: 0 <= i < |items| ==> Opens(ciphers, key, results[i], answers[i])
    ensures Gather(items, results).Entries?
    ensures Inject.AllDecrypt(ciphers, Gather(items, results).data, key)
    ensures Inject.FilesOf(ciphers, Gather(items, results).data, key, prefix, Gather(items, results).data.Keys)
         == ExpectedFiles(items, answers, prefix)
  {
    if items == [] {
      Inject.NoFiles(ciphers, map[], key, prefix);
    } else {
      var n := |items| - 1;
      GatheredFiles(ciphers, key, items[..n], results[..n], answers[..n], prefix);
      assert Opens(ciphers, key, results[n], answers[n]);
      OneMoreEntry(ciphers, Gather(items[..n], results[..n]).data, key, prefix, items[n].secretKey,
                   results[n].value, answers[n].value.value);
    }
  }

  /** The reference stored with the data leads the injector, which passes the same namespace, to the key
      the sync used; so decrypting gives exactly the pulled values. */
  lemma FilesAreValues(ciphers: Ciphers, cluster: Cluster, ref: EncryptionRef, namespace: string,
                       items: seq<Item>, answers: seq<Answer>, prefix: string)
    requires |items| == |answers| && ciphers.Lawful() && KeyStable(cluster, ref, namespace, answers)
    requires Resolve(cluster, ref, namespace).Ok?
    requires Pull(ciphers, ref, namespace, items, answers).Entries?
    ensures var data := Pull(ciphers, ref, namespace, items, answers).data;
            var key := Resolve(cluster, ref, namespace).value;
            && Inject.AllDecrypt(ciphers, data, key)
            && Inject.FilesOf(ciphers, data, key, prefix, data.Keys) == ExpectedFiles(items, answers, prefix)
  {
    var key := Resolve(cluster, ref, namespace).value;
    var results := Results(ciphers, ref, namespace, answers);
    PullCompleteIff(ciphers, ref, namespace, items, answers);
    forall i | 0 <= i < |items|
      ensures Opens(ciphers, key, results[i], answers[i])
    {
      assert answers[i] in answers;
      EntryDecrypts(ciphers, ref, namespace, answers[i]);
    }
    GatheredFiles(ciphers, key, items, results, answers, prefix);
  }

  /** Adding or replacing one entry adds or replaces one file. */
  lemma OneMoreEntry(ciphers: Ciphers, data: map<string, Inject.Entry>, key: Bytes, prefix: string, k: string,
                     e: Inject.Entry, text: Bytes)
    requires Inject.AllDecrypt(ciphers, data, key) && Decrypt(ciphers, e.value, key) == Plain(text)
    ensures Inject.AllDecrypt(ciphers, data[k := e], key)
    ensures Inject.FilesOf(ciphers, data[k := e], key, prefix, data[k := e].Keys)
         == Inject.FilesOf(ciphers, data, key, prefix, data.Keys)[prefix + k := text]
  {
    hide Decrypt;
    var data' := data[k := e];
    forall n | n in data'
      ensures Inject.TextOf(ciphers, data', key, n)
           == if n == k then Some(text) else Inject.TextOf(ciphers, data, key, n)
      ensures Inject.Unprefixed(prefix, prefix + n) == n && (prefix + n == prefix + k <==> n == k)
    {
      Inject.PrefixInjective(prefix, n, k);
    }
    Inject.AllNames(ciphers, data, key, prefix);
    Inject.AllNames(ciphers, data', key, prefix);
    assert Inject.FileNames(prefix, data'.Keys) == Inject.FileNames(prefix, data.Keys) + {prefix + k};
  }

  lemma {:induction false} ExpectedFilesAre(items: seq<Item>, answers: seq<Answer>, prefix: string, k: string)
    requires |items| == |answers| && forall a :: a in answers ==> a.value.Ok?
    ensures prefix + k in ExpectedFiles(items, answers, prefix) <==> Names(items, k)
    ensures Names(items, k) ==>
              answers[LastWith(items, k)].value == Ok(ExpectedFiles(items, answers, prefix)[prefix + k])
    ensures forall f :: f in ExpectedFiles(items, answers, prefix) ==> prefix <= f
  {
    if items != [] {
      var n := |items| - 1;
      assert forall a :: a in answers[..n] ==> a in answers;
      assert answers[n] in answers;
      ExpectedFilesAre(items[..n], answers[..n], prefix, k);
      Inject.PrefixInjective(prefix, items[n].secretKey, k);
      LastWithFront(items, k);
    }
  }

  lemma {:induction false} ValuesWerePulled(ciphers: Ciphers, ref: EncryptionRef, namespace: string,
                                            items: seq<Item>, answers: seq<Answer>)
    requires |items| == |answers| && Pull(ciphers, ref, namespace, items, answers).Entries?
    ensures forall a :: a in answers ==> a.value.Ok?
  {
    PullCompleteIff(ciphers, ref, namespace, items, answers);
  }

  /** End to end: with a stable key, an injector that runs on the synced TSecret succeeds and gains one
      file per distinct key, prefix + key, that holds the bytes pulled for the last item with that key. */
  lemma EndToEnd(ciphers: Ciphers, cluster: Cluster, spec: Spec, ref: EncryptionRef, namespace: string,
                 answers: seq<Answer>, tsecrets: map<ObjectKey, Inject.TSecret>, prefix: string)
    requires |spec.items| == |answers| && ciphers.Lawful() && AskedRef(spec, ref)
    requires Pull(ciphers, ref, namespace, spec.items, answers).Entries?
    requires KeyStable(cluster, ref, namespace, answers)
    requires spec.items != [] || Resolve(cluster, ref, namespace).Ok?
    requires ObjectKey(namespace, spec.target) in tsecrets
    requires tsecrets[ObjectKey(namespace, spec.target)]
          == Inject.TSecret(ref, Pull(ciphers, ref, namespace, spec.items, answers).data)
    ensures Inject.Readable(ciphers, cluster, tsecrets, namespace, spec.target)
    ensures var t := tsecrets[ObjectKey(namespace, spec.target)];
            var files := Inject.TSecretFiles(ciphers, cluster, t, namespace, prefix);
            && |Resolve(cluster, t.encryptionRef, namespace).value| == KEY_SIZE
            && (forall f :: f in files ==> exists k :: Names(spec.items, k) && f == prefix + k)
            && (forall k :: Names(spec.items, k) ==>
                  prefix + k in files && answers[LastWith(spec.items, k)].value == Ok(files[prefix + k]))
  {
    PullCompleteIff(ciphers, ref, namespace, spec.items, answers);
    if spec.items != [] {
      assert PullOne(ciphers, ref, namespace, answers[0]).Ok?;
      assert answers[0] in answers;
    }
    ResolvedSize(cluster, ref, namespace);
    FilesAreValues(ciphers, cluster, ref, namespace, spec.items, answers, prefix);
    ValuesWerePulled(ciphers, ref, namespace, spec.items, answers);
    var files := ExpectedFiles(spec.items, answers, prefix);
    forall k | Names(spec.items, k)
      ensures prefix + k in files && answers[LastWith(spec.items, k)].value == Ok(files[prefix + k])
    {
      ExpectedFilesAre(spec.items, answers, prefix, k);
    }
    forall f | f in files
      ensures exists k :: Names(spec.items, k) && f == prefix + k
    {
      ExpectedFilesAre(spec.items, answers, prefix, "");
      ExpectedFilesAre(spec.items, answers, prefix, f[|prefix|..]);
      assert f == prefix + f[|prefix|..];
    }
  }

  /** Without items the sync succeeds although its key may not exist; the injector then fails. */
  lemma EmptySyncMayBeUnreadable(ciphers: Ciphers, spec: Spec, ref: EncryptionRef, namespace: string, cluster: Cluster)
    requires spec.items == [] && spec.encryptionRef.None? && AskedRef(spec, ref) && cluster.secrets == map[]
    ensures Pull(ciphers, ref, namespace, spec.items, []) == Entries(map[])
    ensures !Inject.Readable(ciphers, cluster,
                             map[ObjectKey(namespace, spec.target) := Inject.TSecret(ref, map[])],
                             namespace, spec.target)
  {
    assert ref.provider == "sealed-secret";
  }

  // ----- When to look again -----

  const SECOND: int := 1_000_000_000
  const HOUR: int := 3600 * SECOND

  /** In nanoseconds; the argument is what parsing the refresh interval gave. An empty or unreadable
      interval counts as one hour. The result is the admissible interval nearest to the wish. */
  function RequeueAfter(parsed: Option<int>): (r: int)
    ensures 30 * SECOND <= r <= 24 * HOUR
    ensures parsed.Some? ==>
              forall x :: 30 * SECOND <= x <= 24 * HOUR ==> Distance(r, parsed.value) <= Distance(x, parsed.value)
    ensures parsed.None? ==> r == HOUR
  {
    var interval := if parsed.Some? then parsed.value else HOUR;
    var raised := if interval < 30 * SECOND then 30 * SECOND else interval;
    if raised > 24 * HOUR then 24 * HOUR else raised
  }

  function Distance(a: int, b: int): int {
    if a < b then b - a else a - b
  }
}
