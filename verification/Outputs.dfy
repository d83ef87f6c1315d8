/** Deciding whether the outputs of a Bitcoin-style transaction pay what an option expects. */
module Outputs {
  import opened Wrappers

  datatype Output = Output(address: string, amount: nat)

  /** A transaction output as decoded: the address of its script, or None when the script has none. */
  datatype RawOutput = RawOutput(address: Option<string>, satoshis: nat)

  /** An expected output: the address decoded from its script if it has one, and its own address field. */
  datatype Expected = Expected(script: Option<string>, address: Option<string>, amount: nat)

  predicate HasColon(s: string) {
    ':' in s
  }

  function UpToColon(s: string): (r: string)
    ensures !HasColon(r) && r <= s
  {
    if s == "" || s[0] == ':' then "" else [s[0]] + UpToColon(s[1..])
  }

  /** `split(':')[1]`: what stands between the first colon and the next; None without a colon. */
  function SecondPart(s: string): (r: Option<string>)
    ensures r.Some? <==> HasColon(s)
    ensures r.Some? ==> !HasColon(r.value)
  {
    if s == "" then None
    else if s[0] == ':' then Some(UpToColon(s[1..]))
    else SecondPart(s[1..])
  }

  /** An address without its prefix. */
  function Bare(address: string): string {
    if HasColon(address) then SecondPart(address).value else address
  }

  /** The transaction's outputs with readable addresses, prefixes dropped. */
  function Readable(raw: seq<RawOutput>): seq<Output> {
    if raw == [] then []
    else
      var rest := Readable(raw[1..]);
      match raw[0].address
      case None => rest
      case Some(a) => [Output(Bare(a), raw[0].satoshis)] + rest
  }

  lemma {:induction false} UpToColonSplits(a: string, rest: string)
    requires ':' !in a
    ensures UpToColon(a + ":" + rest) == a && UpToColon(a) == a
    decreases |a|
  {
    if a != "" {
      assert (a + ":" + rest)[1..] == a[1..] + ":" + rest;
      assert a[0] in a && ':' !in a[1..];
      UpToColonSplits(a[1..], rest);
    }
  }

  /** What `split(':')[1]` is: the part between the first colon and the second, or the end. */
  lemma {:induction false} SecondPartSplits(prefix: string, a: string, rest: string)
    requires ':' !in prefix && ':' !in a
    ensures SecondPart(prefix) == None
    ensures SecondPart(prefix + ":" + a) == Some(a) && SecondPart(prefix + ":" + a + ":" + rest) == Some(a)
    decreases |prefix|
  {
    if prefix == "" {
      assert ("" + ":" + a)[1..] == a && ("" + ":" + a + ":" + rest)[1..] == a + ":" + rest;
      UpToColonSplits(a, rest);
    } else {
      assert (prefix + ":" + a)[1..] == prefix[1..] + ":" + a;
      assert (prefix + ":" + a + ":" + rest)[1..] == prefix[1..] + ":" + a + ":" + rest;
      assert prefix[0] in prefix && ':' !in prefix[1..];
      SecondPartSplits(prefix[1..], a, rest);
    }
  }

  /** A prefix is dropped, and an address without one stays. */
  lemma {:induction false} BareAddress(prefix: string, a: string)
    requires ':' !in prefix && ':' !in a
    ensures Bare(prefix + ":" + a) == a && Bare(a) == a
  {
    SecondPartSplits(prefix, a, "");
    assert (prefix + ":" + a)[|prefix|] == ':';
    hide SecondPart;
  }

  /** Reading keeps order and multiplicity: one output for each raw one with an address, and the amount as it is. */
  lemma {:induction false} ReadableOne(raw: RawOutput)
    ensures Readable([raw]) == if raw.address.Some? then [Output(Bare(raw.address.value), raw.satoshis)] else []
  {
    assert [raw][1..] == [];
  }

  lemma {:induction false} ReadableConcat(first: seq<RawOutput>, second: seq<RawOutput>)
    ensures Readable(first + second) == Readable(first) + Readable(second)
    decreases |first|
  {
    if first == [] {
      assert first + second == second;
    } else {
      assert (first + second)[1..] == first[1..] + second;
      ReadableConcat(first[1..], second);
    }
  }

  /** Some raw output has an address that is this one without its prefix, and exactly this amount. */
  predicate Sends(raw: seq<RawOutput>, address: string, amount: nat) {
    exists i :: 0 <= i < |raw| && raw[i].address.Some? && Bare(raw[i].address.value) == address
                && raw[i].satoshis == amount
  }

  lemma {:induction false} ReadableMembers(raw: seq<RawOutput>, o: Output)
    ensures o in Readable(raw) <==> Sends(raw, o.address, o.amount)
    decreases |raw|
  {
    if raw != [] {
      ReadableMembers(raw[1..], o);
      assert raw == [raw[0]] + raw[1..];
      ReadableConcat([raw[0]], raw[1..]);
      ReadableOne(raw[0]);
      hide Readable, Bare;
      if i :| 0 <= i < |raw[1..]| && raw[1..][i].address.Some? && Bare(raw[1..][i].address.value) == o.address
              && raw[1..][i].satoshis == o.amount {
        assert raw[i + 1] == raw[1..][i];
      }
      if i :| 0 <= i < |raw| && raw[i].address.Some? && Bare(raw[i].address.value) == o.address
              && raw[i].satoshis == o.amount {
        if i > 0 { assert raw[1..][i - 1] == raw[i]; }
      }
    }
  }

  /** The address an expected output is matched against. None when there is none to match, which no output can
      meet. A prefixed script address is replaced by the second part of the address FIELD. */
  function Target(e: Expected): Option<string> {
    var address := if e.script.Some? then e.script else e.address;
    if address.None? then None
    else if !HasColon(address.value) then address
    else if e.address.Some? && e.address.value != "" then SecondPart(e.address.value)
    else None
  }

  /** An expected output's own address is used only if it has no script; a prefixed address is replaced by what follows
      the prefix in the address field, and there may be nothing there. */
  lemma {:induction false} TargetColumns(e: Expected, prefix: string, a: string)
    requires ':' !in prefix && ':' !in a
    ensures e.script == Some(a) || (e.script.None? && e.address == Some(a)) ==> Target(e) == Some(a)
    ensures e.script.None? && e.address.None? ==> Target(e) == None
    ensures e.script.None? && e.address == Some(prefix + ":" + a) ==> Target(e) == Some(a)
    ensures e.script.Some? && ':' in e.script.value && e.address == Some(prefix + ":" + a) ==> Target(e) == Some(a)
    ensures e.script.Some? && ':' in e.script.value && (e.address.None? || e.address == Some(a)) ==> Target(e) == None
  {
    SecondPartSplits(prefix, a, "");
    SecondPartSplits(a, "", "");
    assert (prefix + ":" + a)[|prefix|] == ':';
    hide SecondPart;
  }

  /** Every expected pair is sent by the transaction itself. */
  predicate PaysRaw(raw: seq<RawOutput>, expected: seq<Expected>) {
    forall i :: 0 <= i < |expected| ==>
      Target(expected[i]).Some? && Sends(raw, Target(expected[i]).value, expected[i].amount)
  }

  lemma {:induction false} PaysRawExactly(raw: seq<RawOutput>, expected: seq<Expected>)
    ensures PaysRaw(raw, expected) <==> Pays(Readable(raw), expected)
  {
    forall o { ReadableMembers(raw, o); }
    hide Readable, Sends, Target;
    forall i | 0 <= i < |expected| && Target(expected[i]).Some?
      ensures Sends(raw, Target(expected[i]).value, expected[i].amount) <==>
              Output(Target(expected[i]).value, expected[i].amount) in Readable(raw)
    {
      var o := Output(Target(expected[i]).value, expected[i].amount);
      assert o in Readable(raw) <==> Sends(raw, o.address, o.amount);
    }
  }

  /** Every expected (address, amount) pair occurs among the outputs. */
  ghost predicate Pays(outputs: seq<Output>, expected: seq<Expected>) {
    forall i :: 0 <= i < |expected| ==>
      Target(expected[i]).Some? && Output(Target(expected[i]).value, expected[i].amount) in outputs
  }

  /** `verifyOutput`; false when it throws. */
  method VerifyOutput(outputs: seq<Output>, targetAddress: Option<string>, targetAmount: nat) returns (ok: bool)
    ensures ok <==> targetAddress.Some? && Output(targetAddress.value, targetAmount) in outputs
  {
    var matching := 0;
    for n := 0 to |outputs|
      invariant matching > 0 <==>
                targetAddress.Some? && Output(targetAddress.value, targetAmount) in outputs[..n]
    {
      if Some(outputs[n].address) == targetAddress && outputs[n].amount == targetAmount {
        matching := matching + 1;
      }
      assert outputs[..n + 1] == outputs[..n] + [outputs[n]];
    }
    assert outputs[..|outputs|] == outputs;
    return matching > 0;
  }

  /** `verifyPayment` and `validateUnsignedTx`: they share this loop. False when it throws. */
  method VerifyPayment(raw: seq<RawOutput>, expected: seq<Expected>) returns (ok: bool)
    ensures ok <==> PaysRaw(raw, expected)
  {
    PaysRawExactly(raw, expected);
    var txOutputs := Readable(raw);
    for n := 0 to |expected|
      invariant Pays(txOutputs, expected[..n])
    {
      var output := expected[n];
      var address := if output.script.Some? then output.script else output.address;
      if address.None? {
        return false;
      }
      if HasColon(address.value) {
        address :=
          if output.address.Some? && output.address.value != "" then SecondPart(output.address.value) else None;
      }
      var found := VerifyOutput(txOutputs, address, output.amount);
      if !found {
        return false;
      }
    }
    assert expected[..|expected|] == expected;
    return true;
  }

  // ---------------------------------------------------------------- what acceptance guarantees

  /** More outputs, or the same in another order, never turn an accepted transaction away. */
  lemma {:induction false} AcceptanceIsMonotone(outputs: seq<Output>, more: seq<Output>, expected: seq<Expected>)
    requires Pays(outputs, expected) && forall o :: o in outputs ==> o in more
    ensures Pays(more, expected)
  {
  }

  lemma {:induction false} AcceptanceIgnoresOrder(outputs: seq<Output>, shuffled: seq<Output>, expected: seq<Expected>)
    requires multiset(outputs) == multiset(shuffled)
    ensures Pays(outputs, expected) <==> Pays(shuffled, expected)
  {
    forall o: Output
      ensures o in outputs <==> o in shuffled
    {
      assert o in outputs <==> o in multiset(outputs);
      assert o in shuffled <==> o in multiset(shuffled);
    }
    if Pays(outputs, expected) { AcceptanceIsMonotone(outputs, shuffled, expected); }
    if Pays(shuffled, expected) { AcceptanceIsMonotone(shuffled, outputs, expected); }
    hide Pays;
  }

  function Sum(outputs: seq<Output>): nat {
    if outputs == [] then 0 else outputs[0].amount + Sum(outputs[1..])
  }

  /** The pairs to be paid, once every target is an address. */
  function Pairs(expected: seq<Expected>): (pairs: seq<Output>)
    requires forall i :: 0 <= i < |expected| ==> Target(expected[i]).Some?
    ensures |pairs| == |expected|
    ensures forall i :: 0 <= i < |expected| ==> pairs[i] == Output(Target(expected[i]).value, expected[i].amount)
  {
    seq(|expected|, i requires 0 <= i < |expected| => Output(Target(expected[i]).value, expected[i].amount))
  }

  ghost predicate Covers(outputs: seq<Output>, pairs: seq<Output>) {
    forall p :: p in pairs ==> p in outputs
  }

  /** Each pair once, at its last place. */
  function Dedup(pairs: seq<Output>): (r: seq<Output>)
    ensures forall p :: p in r <==> p in pairs
    ensures forall i, j :: 0 <= i < j < |r| ==> r[i] != r[j]
  {
    if pairs == [] then []
    else
      var rest := Dedup(pairs[1..]);
      if pairs[0] in pairs[1..] then rest else [pairs[0]] + rest
  }

  lemma {:induction false} SumWithout(outputs: seq<Output>, j: nat)
    requires j < |outputs|
    ensures Sum(outputs) == outputs[j].amount + Sum(outputs[..j] + outputs[j + 1..])
    decreases j
  {
    var rest := outputs[..j] + outputs[j + 1..];
    if j == 0 {
      assert rest == outputs[1..];
    } else {
      SumWithout(outputs[1..], j - 1);
      assert rest[1..] == outputs[1..][..j - 1] + outputs[1..][j..];
    }
  }

  /** Outputs that cover pairwise distinct pairs carry at least their total: each pair has its own output. */
  lemma {:induction false} DistinctPairsArePaid(outputs: seq<Output>, pairs: seq<Output>)
    requires Covers(outputs, pairs) && forall i, j :: 0 <= i < j < |pairs| ==> pairs[i] != pairs[j]
    ensures Sum(outputs) >= Sum(pairs)
    decreases |pairs|
  {
    if pairs != [] {
      assert pairs[0] in pairs;
      var j :| 0 <= j < |outputs| && outputs[j] == pairs[0];
      var rest := outputs[..j] + outputs[j + 1..];
      forall p | p in pairs[1..]
        ensures p in rest
      {
        assert p in pairs && p != pairs[0];
        var m :| 0 <= m < |outputs| && outputs[m] == p;
        assert rest[if m < j then m else m - 1] == p;
      }
      DistinctPairsArePaid(rest, pairs[1..]);
      SumWithout(outputs, j);
    }
  }

  /** The least an accepted transaction can carry: every distinct pair once. Both the bound and a transaction
      that attains it. */
  lemma {:induction false} LeastAcceptedTotal(expected: seq<Expected>, outputs: seq<Output>)
    requires forall i :: 0 <= i < |expected| ==> Target(expected[i]).Some?
    ensures Pays(outputs, expected) ==> Sum(outputs) >= Sum(Dedup(Pairs(expected)))
    ensures Pays(Dedup(Pairs(expected)), expected)
  {
    var pairs := Pairs(expected);
    if Pays(outputs, expected) {
      assert Covers(outputs, pairs);
      DistinctPairsArePaid(outputs, Dedup(pairs));
    }
    forall i | 0 <= i < |expected|
      ensures pairs[i] in Dedup(pairs)
    {
      assert pairs[i] in pairs;
    }
  }

  /** No pair with a positive amount is expected twice. */
  ghost predicate NoRepeatedAmount(pairs: seq<Output>) {
    forall i, j :: 0 <= i < j < |pairs| && pairs[i] == pairs[j] ==> pairs[i].amount == 0
  }

  lemma {:induction false} DedupSum(pairs: seq<Output>)
    ensures Sum(Dedup(pairs)) <= Sum(pairs)
    ensures Sum(Dedup(pairs)) == Sum(pairs) <==> NoRepeatedAmount(pairs)
    decreases |pairs|
  {
    if pairs != [] {
      var p, rest := pairs[0], pairs[1..];
      DedupSum(rest);
      assert NoRepeatedAmount(pairs) <==> NoRepeatedAmount(rest) && (p in rest ==> p.amount == 0) by {
        RepeatedHead(pairs);
      }
      if p !in rest {
        assert Dedup(pairs)[1..] == Dedup(rest);
      }
    }
  }

  lemma {:induction false} RepeatedHead(pairs: seq<Output>)
    requires pairs != []
    ensures NoRepeatedAmount(pairs) <==>
            NoRepeatedAmount(pairs[1..]) && (pairs[0] in pairs[1..] ==> pairs[0].amount == 0)
  {
  }

  ghost predicate AlwaysPaidInFull(expected: seq<Expected>)
    requires forall i :: 0 <= i < |expected| ==> Target(expected[i]).Some?
  {
    forall outputs :: Pays(outputs, expected) ==> Sum(outputs) >= Sum(Pairs(expected))
  }

  /** Accepted means paid in full exactly when no positive (address, amount) pair is expected twice: the same
      output may satisfy two equal expectations. */
  lemma {:induction false} AcceptedMeansPaidExactly(expected: seq<Expected>)
    requires forall i :: 0 <= i < |expected| ==> Target(expected[i]).Some?
    ensures AlwaysPaidInFull(expected) <==> NoRepeatedAmount(Pairs(expected))
  {
    DedupSum(Pairs(expected));
    LeastAcceptedTotal(expected, []);
    forall outputs
      ensures Pays(outputs, expected) ==> Sum(outputs) >= Sum(Dedup(Pairs(expected)))
    {
      LeastAcceptedTotal(expected, outputs);
    }
  }

  /** When the expected pairs are pairwise distinct, each has its own witness among the outputs. */
  lemma {:induction false} DistinctWitnesses(outputs: seq<Output>, expected: seq<Expected>) returns (chosen: seq<nat>)
    requires Pays(outputs, expected)
    requires var pairs := Pairs(expected); forall i, j :: 0 <= i < j < |pairs| ==> pairs[i] != pairs[j]
    ensures |chosen| == |expected|
    ensures forall i :: 0 <= i < |expected| ==> chosen[i] < |outputs| && outputs[chosen[i]] == Pairs(expected)[i]
    ensures forall i, j :: 0 <= i < j < |expected| ==> chosen[i] != chosen[j]
  {
    var pairs := Pairs(expected);
    chosen := [];
    for n := 0 to |expected|
      invariant |chosen| == n
      invariant forall i :: 0 <= i < n ==> chosen[i] < |outputs| && outputs[chosen[i]] == pairs[i]
    {
      assert pairs[n] in outputs;
      var w: nat :| w < |outputs| && outputs[w] == pairs[n];
      chosen := chosen + [w];
    }
  }

  /** Examples: an exact payment, one short of a unit, and a prefixed address. */
  lemma {:induction false} AcceptanceExamples()
    ensures PaysRaw([RawOutput(Some("A"), 1000)], [Expected(None, Some("A"), 1000)])
    ensures !PaysRaw([RawOutput(Some("A"), 999)], [Expected(None, Some("A"), 1000)])
    ensures !PaysRaw([RawOutput(None, 1000)], [Expected(None, Some("A"), 1000)])
    ensures PaysRaw([RawOutput(Some("p:A"), 7)], [Expected(Some("p:A"), Some("p:A"), 7)])
  {
    assert "p:A" == "p" + ":" + "A";
    BareAddress("p", "A");
    TargetColumns(Expected(None, Some("A"), 1000), "p", "A");
    TargetColumns(Expected(Some("p:A"), Some("p:A"), 7), "p", "A");
    assert "p:A"[1] == ':';
    hide Bare, Target;
    assert [RawOutput(Some("A"), 1000)][0].satoshis == 1000;
    assert [RawOutput(Some("p:A"), 7)][0].satoshis == 7;
    assert [Expected(None, Some("A"), 1000)][0].amount == 1000;
  }
}
