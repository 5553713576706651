/** pkg/certs/certs.go, one run at a time: the certificate authority, the serving certificate and the
    bundles of the webhook configuration, with the times written into certificates. Signing is taken
    for granted: a certificate carries the number of the authority whose key signed it. */
module Certs {
  import opened Common

  // ----- Times, in nanoseconds -----

  const SECOND: int := 1_000_000_000
  const HOUR: int := 3600 * SECOND
  const DAY: int := 24 * HOUR
  const CA_VALIDITY: int := 10 * 365 * DAY
  const SERVING_VALIDITY: int := 365 * DAY
  const RENEWAL_THRESHOLD: int := 30 * DAY

  /** Certificates store whole seconds. */
  function WholeSeconds(t: int): (r: int)
    ensures r <= t < r + SECOND
  {
    t - t % SECOND
  }

  lemma WholeSecondsMonotone(a: int, b: int)
    requires a <= b
    ensures WholeSeconds(a) <= WholeSeconds(b)
  {
    assert a / SECOND <= b / SECOND;
    assert WholeSeconds(a) == (a / SECOND) * SECOND;
    assert WholeSeconds(b) == (b / SECOND) * SECOND;
  }

  datatype Authority = Authority(id: nat, notBefore: int, notAfter: int)

  datatype Certificate = Certificate(issuer: nat, notBefore: int, notAfter: int)

  /** A bundle as it was installed, or that of an authority. */
  datatype Bundle = Initial(text: string) | BundleOf(id: nat)

  predicate ValidAt(c: Certificate, t: int) {
    c.notBefore <= t <= c.notAfter
  }

  predicate Within(c: Certificate, ca: Authority) {
    ca.notBefore <= c.notBefore && c.notAfter <= ca.notAfter
  }

  /** The readings of the clock in one run, in the order in which they are taken: for the authority,
      for the renewal check, for the two ends of a new certificate, and when the certificate is stored. */
  datatype Times = Times(caBefore: int, caAfter: int, check: int, before: int, after: int, stored: int) {
    predicate Ordered() {
      caBefore <= caAfter <= check <= before <= after <= stored
    }
  }

  function NewAuthority(id: nat, t: Times): Authority {
    Authority(id, WholeSeconds(t.caBefore - HOUR), WholeSeconds(t.caAfter + CA_VALIDITY))
  }

  function NewCertificate(ca: Authority, t: Times): Certificate {
    Certificate(ca.id, WholeSeconds(t.before - HOUR), WholeSeconds(t.after + SERVING_VALIDITY))
  }

  // ----- What is stored, and what one run does to it -----

  /** None stands for a Secret or configuration that does not exist. */
  datatype Stored = Stored(ca: Option<Authority>, serving: Option<Certificate>, bundles: Option<seq<Bundle>>)

  function EnsuredCa(s: Stored, id: nat, t: Times): Authority {
    if s.ca.Some? then s.ca.value else NewAuthority(id, t)
  }

  predicate NeedsRenewal(serving: Option<Certificate>, now: int) {
    serving.None? || serving.value.notAfter - now < RENEWAL_THRESHOLD
  }

  function Patched(bundles: seq<Bundle>, ca: nat): (r: seq<Bundle>)
    ensures |r| == |bundles| && forall i :: 0 <= i < |bundles| ==> r[i] == BundleOf(ca)
  {
    seq(|bundles|, i => BundleOf(ca))
  }

  /** A run in which every call succeeds; id is the number of the authority it would create. */
  function Ensured(s: Stored, id: nat, t: Times): Stored {
    var ca := EnsuredCa(s, id, t);
    Stored(Some(ca),
           if NeedsRenewal(s.serving, t.check) then Some(NewCertificate(ca, t)) else s.serving,
           if s.bundles.Some? then Some(Patched(s.bundles.value, ca.id)) else None)
  }

  /** The number of writes it makes. */
  function Writes(s: Stored, id: nat, t: Times): nat {
    (if s.ca.None? then 1 else 0)
    + (if NeedsRenewal(s.serving, t.check) then 1 else 0)
    + (if s.bundles.Some? && s.bundles.value != Patched(s.bundles.value, EnsuredCa(s, id, t).id) then 1 else 0)
  }

  /** The objects as they are changed in place. */
  class CertManager {
    var ca: Option<Authority>
    var serving: Option<Certificate>
    var bundles: Option<seq<Bundle>>
    var writes: nat

    constructor ()
      ensures Value() == Stored(None, None, None) && writes == 0
    {
      ca, serving, bundles, writes := None, None, None, 0;
    }

    ghost function Value(): Stored
      reads this
    {
      Stored(ca, serving, bundles)
    }

    method EnsureCa(id: nat, t: Times) returns (authority: Authority)
      modifies this`ca, this`writes
      ensures authority == EnsuredCa(old(Value()), id, t) && ca == Some(authority)
      ensures writes == old(writes) + if old(ca).None? then 1 else 0
    {
      match ca {
        case Some(found) =>
          authority := found;
        case None =>
          authority := NewAuthority(id, t);
          ca := Some(authority);
          writes := writes + 1;
      }
    }

    method EnsureServingCert(authority: Authority, t: Times)
      modifies this`serving, this`writes
      ensures serving
           == if NeedsRenewal(old(serving), t.check) then Some(NewCertificate(authority, t)) else old(serving)
      ensures writes == old(writes) + if NeedsRenewal(old(serving), t.check) then 1 else 0
    {
      if serving.None? || serving.value.notAfter - t.check < RENEWAL_THRESHOLD {
        serving := Some(NewCertificate(authority, t));
        writes := writes + 1;
      }
    }

    /** Every bundle that differs is replaced; the configuration is stored only if one did. */
    method PatchWebhookCaBundle(authority: Authority)
      modifies this`bundles, this`writes
      ensures bundles == if old(bundles).Some? then Some(Patched(old(bundles).value, authority.id)) else None
      ensures writes == old(writes)
                        + if old(bundles).Some? && old(bundles).value != Patched(old(bundles).value, authority.id)
                          then 1 else 0
    {
      if bundles.None? {
        return;
      }
      var hooks := bundles.value;
      var updated := false;
      for i := 0 to |hooks|
        invariant |hooks| == |old(bundles).value|
        invariant forall j :: 0 <= j < i ==> hooks[j] == BundleOf(authority.id)
        invariant forall j :: i <= j < |hooks| ==> hooks[j] == old(bundles).value[j]
        invariant updated <==> exists j :: 0 <= j < i && old(bundles).value[j] != BundleOf(authority.id)
      {
        if hooks[i] != BundleOf(authority.id) {
          hooks := hooks[i := BundleOf(authority.id)];
          updated := true;
        }
      }
      assert hooks == Patched(old(bundles).value, authority.id);
      assert !updated ==> hooks == old(bundles).value;
      if updated {
        bundles := Some(hooks);
        writes := writes + 1;
      }
    }

    method EnsureCerts(id: nat, t: Times)
      modifies this
      ensures Value() == Ensured(old(Value()), id, t)
      ensures writes == old(writes) + Writes(old(Value()), id, t)
    {
      var authority := EnsureCa(id, t);
      EnsureServingCert(authority, t);
      PatchWebhookCaBundle(authority);
    }
  }

  // ----- Doing nothing twice -----

  lemma PatchedIff(bs: seq<Bundle>, ca: nat)
    ensures bs == Patched(bs, ca) <==> forall b :: b in bs ==> b == BundleOf(ca)
  {
    if forall b :: b in bs ==> b == BundleOf(ca) {
      forall i | 0 <= i < |bs|
        ensures bs[i] == BundleOf(ca)
      {
        assert bs[i] in bs;
      }
    }
  }

  /** A run makes no writes exactly if the authority exists, the certificate has 30 days left, and the
      webhook configuration is absent or trusts that authority alone. */
  lemma NoWritesIff(s: Stored, id: nat, t: Times)
    ensures Writes(s, id, t) == 0
       <==> (&& s.ca.Some?
             && s.serving.Some? && s.serving.value.notAfter - t.check >= 30 * 86400 * 1_000_000_000
             && (s.bundles.Some? ==> forall b :: b in s.bundles.value ==> b == BundleOf(s.ca.value.id)))
    ensures Writes(s, id, t) == 0 ==> Ensured(s, id, t) == s
  {
    if s.bundles.Some? {
      PatchedIff(s.bundles.value, EnsuredCa(s, id, t).id);
    }
  }

  /** A run repeated at once: it finds everything in place if the certificate was renewed just before, or
      if it still has its 30 days at the moment of the second check. */
  lemma RepeatMakesNoWrites(s: Stored, id: nat, t: Times, id': nat, t': Times)
    requires t.Ordered()
    requires var c := Ensured(s, id, t).serving.value;
             t'.check <= (if NeedsRenewal(s.serving, t.check)
                          then t.after + SERVING_VALIDITY - RENEWAL_THRESHOLD - SECOND
                          else c.notAfter - RENEWAL_THRESHOLD)
    ensures Writes(Ensured(s, id, t), id', t') == 0
    ensures Ensured(Ensured(s, id, t), id', t') == Ensured(s, id, t)
  {
    NoWritesIff(Ensured(s, id, t), id', t');
  }

  // ----- The certificate is always valid -----

  /** The state after the first k runs; the authority a run creates gets the number of the run. */
  function AfterRuns(s: Stored, runs: seq<Times>): Stored {
    if runs == [] then s
    else Ensured(AfterRuns(s, runs[..|runs| - 1]), |runs| - 1, runs[|runs| - 1])
  }

  /** Each run stores its certificate no later than 30 days after the check of the run before. */
  ghost predicate Regular(runs: seq<Times>) {
    && (forall k :: 0 <= k < |runs| ==> runs[k].Ordered())
    && (forall k :: 0 < k < |runs| ==> runs[k - 1].stored <= runs[k].caBefore)
    && (forall k :: 0 < k < |runs| ==> runs[k].stored <= runs[k - 1].check + RENEWAL_THRESHOLD)
  }

  /** After its last run the certificate has begun and lasts 30 days beyond the check. */
  lemma {:induction false} LastsAMonth(runs: seq<Times>)
    requires Regular(runs) && runs != []
    ensures var c := AfterRuns(Stored(None, None, None), runs).serving;
            && c.Some? && c.value.notBefore <= runs[|runs| - 1].stored
            && runs[|runs| - 1].check + RENEWAL_THRESHOLD <= c.value.notAfter
    decreases |runs|
  {
    var n := |runs| - 1;
    if n > 0 {
      LastsAMonth(runs[..n]);
      assert runs[n - 1].stored <= runs[n].caBefore;
    } else {
      assert runs[..n] == [];
    }
    assert runs[n].Ordered();
  }

  /** If runs succeed and follow one another within 30 days, the stored certificate is valid at every
      instant from the first store on: between two runs, and for 30 days after the last check. */
  lemma AlwaysValid(runs: seq<Times>, k: nat, instant: int)
    requires Regular(runs) && k < |runs|
    requires runs[k].stored <= instant
    requires instant <= if k + 1 < |runs| then runs[k + 1].stored else runs[k].check + RENEWAL_THRESHOLD
    ensures AfterRuns(Stored(None, None, None), runs[..k + 1]).serving.Some?
    ensures ValidAt(AfterRuns(Stored(None, None, None), runs[..k + 1]).serving.value, instant)
  {
    LastsAMonth(runs[..k + 1]);
  }

  /** The bound is sharp: a certificate with exactly 30 days left is kept, and is no longer valid one
      instant after these 30 days. */
  lemma GapIsSharp(s: Stored, id: nat, t: Times)
    requires s.serving.Some? && s.serving.value.notAfter == t.check + RENEWAL_THRESHOLD
    ensures Ensured(s, id, t).serving == s.serving
    ensures !ValidAt(Ensured(s, id, t).serving.value, t.check + RENEWAL_THRESHOLD + 1)
  {
  }

  /** A certificate is accepted by clients whose clocks are up to an hour behind, and for a year; its ends are
      off by less than a second. */
  lemma AcceptedFrom(ca: Authority, t: Times, instant: int)
    ensures t.before - 3600 * 1_000_000_000 <= instant <= t.after + (365 * 86400 - 1) * 1_000_000_000
            ==> ValidAt(NewCertificate(ca, t), instant)
    ensures ValidAt(NewCertificate(ca, t), instant)
            ==> t.before - 3601 * 1_000_000_000 < instant <= t.after + 365 * 86400 * 1_000_000_000
    ensures NewCertificate(ca, t).issuer == ca.id
  {
  }

  /** So is an authority, for ten years. */
  lemma AuthoritySpan(id: nat, t: Times)
    ensures var ca := NewAuthority(id, t);
            && ca.id == id
            && t.caBefore - 3601 * 1_000_000_000 < ca.notBefore <= t.caBefore - 3600 * 1_000_000_000
            && t.caAfter + (3650 * 86400 - 1) * 1_000_000_000 < ca.notAfter <= t.caAfter + 3650 * 86400 * 1_000_000_000
  {
  }

  // ----- The certificate and its authority -----

  /** A certificate issued later than its authority lies within the authority's validity exactly if it
      ends in time; that is so for nine years and fails after one second more. */
  lemma WithinAuthorityIff(id: nat, born: Times, t: Times)
    requires born.Ordered() && t.Ordered() && born.caBefore <= t.before
    ensures Within(NewCertificate(NewAuthority(id, born), t), NewAuthority(id, born))
       <==> WholeSeconds(t.after + SERVING_VALIDITY) <= WholeSeconds(born.caAfter + CA_VALIDITY)
    ensures t.after <= born.caAfter + 9 * 365 * DAY
        ==> Within(NewCertificate(NewAuthority(id, born), t), NewAuthority(id, born))
    ensures t.after >= born.caAfter + 9 * 365 * DAY + SECOND
        ==> !Within(NewCertificate(NewAuthority(id, born), t), NewAuthority(id, born))
  {
    WholeSecondsMonotone(born.caBefore - HOUR, t.before - HOUR);
    if t.after <= born.caAfter + 9 * 365 * DAY {
      WholeSecondsMonotone(t.after + SERVING_VALIDITY, born.caAfter + CA_VALIDITY);
    }
  }

  /** The authority is never renewed: once stored it stays, whatever the time. */
  lemma {:induction false} AuthorityNeverRenewed(s: Stored, runs: seq<Times>)
    requires s.ca.Some?
    ensures AfterRuns(s, runs).ca == s.ca
    decreases |runs|
  {
    if runs != [] {
      AuthorityNeverRenewed(s, runs[..|runs| - 1]);
    }
  }

  /** So a run after the authority's end issues a certificate under an authority that has expired. */
  lemma IssuedByExpired(id: nat, born: Times, t: Times)
    requires born.Ordered() && t.Ordered() && t.check > born.stored + CA_VALIDITY
    ensures var s := Ensured(Stored(None, None, None), id, born);
            var s' := Ensured(s, id + 1, t);
            && s'.ca == s.ca && s'.serving == Some(NewCertificate(s.ca.value, t))
            && s'.ca.value.notAfter < t.check
            && !Within(s'.serving.value, s'.ca.value)
  {
    var s := Ensured(Stored(None, None, None), id, born);
    assert s.ca == Some(NewAuthority(id, born));
  }
}
