/** pkg/controller/tsecret_controller.go: the list of conditions that both reconcilers keep, and the
    validation of a TSecret's entries. */
module Conditions {
  import opened Common
  import Crypto
  import Inject

  datatype Condition = Condition(kind: string, holds: bool, reason: string, message: string, time: int)

  // ----- The condition list -----

  /** The first condition of the same kind is replaced; without one, the condition is added at the end. */
  function With(cs: seq<Condition>, c: Condition): seq<Condition> {
    if cs == [] then [c]
    else if cs[0].kind == c.kind then [c] + cs[1..]
    else [cs[0]] + With(cs[1..], c)
  }

  function WithAll(cs: seq<Condition>, updates: seq<Condition>): seq<Condition> {
    if updates == [] then cs
    else With(WithAll(cs, updates[..|updates| - 1]), updates[|updates| - 1])
  }

  function Kinds(cs: seq<Condition>): (ks: seq<string>)
    ensures |ks| == |cs|
    ensures forall i :: 0 <= i < |cs| ==> ks[i] == cs[i].kind
  {
    seq(|cs|, i requires 0 <= i < |cs| => cs[i].kind)
  }

  function Lookup(cs: seq<Condition>, kind: string): Option<Condition> {
    if cs == [] then None
    else if cs[0].kind == kind then Some(cs[0])
    else Lookup(cs[1..], kind)
  }

  /** The last update of a kind. */
  function LastOf(updates: seq<Condition>, kind: string): Option<Condition> {
    if updates == [] then None
    else if updates[|updates| - 1].kind == kind then Some(updates[|updates| - 1])
    else LastOf(updates[..|updates| - 1], kind)
  }

  /** A condition list as a field that is updated in place. */
  class ConditionList {
    var items: seq<Condition>

    constructor ()
      ensures items == []
    {
      items := [];
    }

    method SetCondition(c: Condition)
      modifies this
      ensures items == With(old(items), c)
    {
      for i := 0 to |items|
        invariant items == old(items)
        invariant forall j :: 0 <= j < i ==> items[j].kind != c.kind
      {
        if items[i].kind == c.kind {
          WithAt(items, c, i);
          items := items[i := c];
          return;
        }
      }
      WithNew(items, c);
      items := items + [c];
    }
  }

  lemma {:induction false} WithAt(cs: seq<Condition>, c: Condition, i: nat)
    requires i < |cs| && cs[i].kind == c.kind && forall j :: 0 <= j < i ==> cs[j].kind != c.kind
    ensures With(cs, c) == cs[i := c]
  {
    if i > 0 {
      WithAt(cs[1..], c, i - 1);
      assert cs[i := c] == [cs[0]] + cs[1..][i - 1 := c];
    } else {
      assert cs[0 := c] == [c] + cs[1..];
    }
  }

  lemma {:induction false} WithNew(cs: seq<Condition>, c: Condition)
    requires forall j :: 0 <= j < |cs| ==> cs[j].kind != c.kind
    ensures With(cs, c) == cs + [c]
  {
    if cs != [] {
      WithNew(cs[1..], c);
      assert cs + [c] == [cs[0]] + (cs[1..] + [c]);
    }
  }

  /** One update changes what its own kind shows and nothing else, and keeps every place in the list. */
  lemma {:induction false} WithLookup(cs: seq<Condition>, c: Condition, kind: string)
    ensures Lookup(With(cs, c), kind) == if kind == c.kind then Some(c) else Lookup(cs, kind)
    ensures Kinds(With(cs, c)) == Kinds(cs) + (if c.kind in Kinds(cs) then [] else [c.kind])
  {
    if cs == [] {
      assert Kinds([c]) == [c.kind];
      assert [c][1..] == [];
    } else if cs[0].kind == c.kind {
      assert Kinds(cs)[0] == c.kind;
      assert Kinds(With(cs, c)) == Kinds(cs);
    } else {
      WithLookup(cs[1..], c, kind);
      var rest := With(cs[1..], c);
      assert ([cs[0]] + rest)[1..] == rest;
      assert Kinds([cs[0]] + rest) == [cs[0].kind] + Kinds(rest);
      assert Kinds(cs) == [cs[0].kind] + Kinds(cs[1..]);
    }
  }

  /** Over any run of updates kinds stay unique, the kinds that were there keep their places, and each
      kind shows its last update, or what it showed before if there was none. */
  lemma {:induction false} RunOfUpdates(cs: seq<Condition>, updates: seq<Condition>, kind: string)
    ensures NoDup(Kinds(cs)) ==> NoDup(Kinds(WithAll(cs, updates)))
    ensures Kinds(cs) <= Kinds(WithAll(cs, updates))
    ensures kind in Kinds(WithAll(cs, updates)) <==> kind in Kinds(cs) || kind in Kinds(updates)
    ensures Lookup(WithAll(cs, updates), kind)
         == if LastOf(updates, kind).Some? then LastOf(updates, kind) else Lookup(cs, kind)
  {
    hide With, Lookup;
    if updates != [] {
      var n := |updates| - 1;
      RunOfUpdates(cs, updates[..n], kind);
      WithLookup(WithAll(cs, updates[..n]), updates[n], kind);
      assert Kinds(updates) == Kinds(updates[..n]) + [updates[n].kind];
    }
  }

  // ----- Validation -----

  predicate EntryValid(e: Inject.Entry) {
    Crypto.IsValidEncryptedValue(e.value) && Crypto.IsSupported(e.algorithm)
  }

  predicate AllValid(data: map<string, Inject.Entry>) {
    forall k :: k in data ==> EntryValid(data[k])
  }

  /** The entries are visited in any order; one bad entry clears the flag for good. */
  method Validate(data: map<string, Inject.Entry>) returns (allValid: bool)
    ensures allValid <==> AllValid(data)
  {
    allValid := true;
    var rest := data.Keys;
    while rest != {}
      invariant rest <= data.Keys
      invariant allValid <==> forall k :: k in data.Keys - rest ==> EntryValid(data[k])
      decreases |rest|
    {
      var k :| k in rest;
      if !Crypto.IsValidEncryptedValue(data[k].value) {
        allValid := false;
      }
      if data[k].algorithm != Crypto.XCHACHA && data[k].algorithm != Crypto.CHACHA {
        allValid := false;
      }
      assert data.Keys - (rest - {k}) == (data.Keys - rest) + {k};
      rest := rest - {k};
    }
  }

  function Ready(data: map<string, Inject.Entry>, time: int): Condition {
    if AllValid(data) then Condition("Ready", true, "Valid", "All entries are valid encrypted values", time)
    else Condition("Ready", false, "ValidationFailed", "One or more entries have invalid encrypted format", time)
  }

  /** What the TSecret reconciler does with the object it read. */
  method Reconcile(data: map<string, Inject.Entry>, conditions: ConditionList, time: int)
    modifies conditions
    ensures conditions.items == With(old(conditions.items), Ready(data, time))
  {
    var allValid := Validate(data);
    var c := if allValid then Condition("Ready", true, "Valid", "All entries are valid encrypted values", time)
             else Condition("Ready", false, "ValidationFailed",
                            "One or more entries have invalid encrypted format", time);
    conditions.SetCondition(c);
  }

  /** After a reconcile the Ready condition tells exactly whether every entry is in the wire format
      with a supported algorithm. */
  lemma ReadyIff(cs: seq<Condition>, data: map<string, Inject.Entry>, time: int)
    ensures Lookup(With(cs, Ready(data, time)), "Ready").Some?
    ensures var c := Lookup(With(cs, Ready(data, time)), "Ready").value;
            c.reason == (if c.holds then "Valid" else "ValidationFailed") && c.time == time
    ensures Lookup(With(cs, Ready(data, time)), "Ready").value.holds
       <==> forall k :: k in data ==>
              Crypto.IsValidEncryptedValue(data[k].value)
              && (data[k].algorithm == "xchacha20-poly1305" || data[k].algorithm == "chacha20-poly1305")
  {
    WithLookup(cs, Ready(data, time), "Ready");
  }
}
