/** Reconciling the OUTPUT chain to one jump, first, command by command (cmd/gate/firewall.go:63-107). */
module Firewall {
  import opened Rows
  import opened Options

  // A rule's tokens behind "-A OUTPUT".
  type Rule = seq<string>

  const Jump: Rule := ["-j", "MAP-GATE-EGRESS"]

  predicate Foreign(r: Rule) {
    r != Jump
  }

  // Every rule but ours, in chain order.
  function Others(rules: seq<Rule>): seq<Rule> {
    Keep(rules, Foreign)
  }

  // One jump, first, and everyone else's rules behind it.
  ghost predicate Reconciled(rules: seq<Rule>) {
    rules == [Jump] + Others(rules)
  }

  // What holds of the chain after every single command.
  ghost predicate Intact(before: seq<Rule>, now: seq<Rule>) {
    && Others(now) == Others(before)
    && now != [] && now[0] == Jump
  }

  // The kernel's chain. Commands are numbered; one may fail, and then changes nothing.
  class OutputChain {
    var rules: seq<Rule>
    var issued: nat
    const failsAt: Option<nat>
    ghost var trace: seq<seq<Rule>>

    constructor (rules: seq<Rule>, failsAt: Option<nat>)
      ensures this.rules == rules && this.failsAt == failsAt && issued == 0 && trace == []
    {
      this.rules, this.failsAt, issued, trace := rules, failsAt, 0, [];
    }

    // -I OUTPUT 1
    method Insert() returns (ok: bool)
      modifies this
      ensures ok <==> failsAt != Some(old(issued))
      ensures rules == if ok then [Jump] + old(rules) else old(rules)
      ensures issued == old(issued) + 1 && trace == old(trace) + [rules]
    {
      ok := failsAt != Some(issued);
      issued := issued + 1;
      if ok { rules := [Jump] + rules; }
      trace := trace + [rules];
    }

    // -D OUTPUT pos, counted from 1; a number the chain does not have is refused.
    method Delete(pos: int) returns (ok: bool)
      modifies this
      ensures ok <==> failsAt != Some(old(issued)) && 1 <= pos <= |old(rules)|
      ensures rules == if ok then old(rules)[..pos - 1] + old(rules)[pos..] else old(rules)
      ensures issued == old(issued) + 1 && trace == old(trace) + [rules]
    {
      ok := failsAt != Some(issued) && 1 <= pos <= |rules|;
      issued := issued + 1;
      if ok { rules := rules[..pos - 1] + rules[pos..]; }
      trace := trace + [rules];
    }

    // The positions our jump holds, counted from 1.
    method Find() returns (pos: seq<int>)
      ensures Ascending(pos)
      ensures forall p :: p in pos <==> 1 <= p <= |rules| && rules[p - 1] == Jump
    {
      pos := [];
      for i := 0 to |rules|
        invariant Ascending(pos)
        invariant forall p :: p in pos <==> 1 <= p <= i && rules[p - 1] == Jump
      {
        if rules[i] == Jump {
          assert forall k :: 0 <= k < |pos| ==> pos[k] in pos;
          pos := pos + [i + 1];
        }
      }
    }

    // Deletes the duplicates, highest first so the numbers stay valid.
    method DeleteDuplicates(pos: seq<int>) returns (ok: bool)
      requires rules != [] && rules[0] == Jump && Ascending(pos)
      requires forall p :: p in pos <==> 2 <= p <= |rules| && rules[p - 1] == Jump
      modifies this
      ensures old(trace) <= trace
      ensures forall k :: |old(trace)| <= k < |trace| ==> Intact(old(rules), trace[k])
      ensures Intact(old(rules), rules)
      ensures ok ==> rules == [Jump] + Others(old(rules)) && issued == old(issued) + |pos|
      ensures pos == [] ==> ok && rules == old(rules) && trace == old(trace)
      ensures !ok ==> failsAt.Some? && old(issued) <= failsAt.value < old(issued) + |pos|
    {
      hide Keep;
      var i := |pos|;
      assert pos[..i] == pos;
      while i > 0
        invariant 0 <= i <= |pos| && issued == old(issued) + |pos| - i
        invariant rules != [] && Left(rules, pos, i)
        invariant old(trace) <= trace && Intact(old(rules), rules)
        invariant forall k :: |old(trace)| <= k < |trace| ==> Intact(old(rules), trace[k])
        invariant failsAt.Some? ==> !(old(issued) <= failsAt.value < issued)
        invariant i == |pos| ==> rules == old(rules) && trace == old(trace)
      {
        i := i - 1;
        HighestIsJump(rules, pos, i);
        ghost var was := rules;
        var done := Delete(pos[i]);
        if !done { return false; }
        DropJump(was, pos[i]);
        LeftAfter(was, pos, i);
      }
      NoneLeft(rules, pos);
      return true;
    }

    /**
     Whatever the chain held: one jump at position 1 and every foreign rule in
     its order, or a failure that leaves all of them and at least as safe a
     chain. After each command the foreign rules are intact and rule 1 is the
     jump, unless that command was an insert that failed, which is then the
     last; and a chain already reconciled is sent no command.
     */
    method EnsureJumpFirst() returns (ok: bool)
      modifies this
      ensures old(trace) <= trace
      ensures forall k :: |old(trace)| <= k < |trace| ==> Others(trace[k]) == Others(old(rules))
      ensures forall k :: |old(trace)| <= k < |trace| && Jump in old(rules) ==> Jump in trace[k]
      ensures forall k :: |old(trace)| < k < |trace| ==> Intact(old(rules), trace[k])
      ensures |old(trace)| < |trace| && !Intact(old(rules), trace[|old(trace)|]) ==>
        !ok && |trace| == |old(trace)| + 1 && trace[|old(trace)|] == old(rules)
      ensures ok ==> rules == [Jump] + Others(old(rules)) && Reconciled(rules)
      ensures !ok ==> failsAt.Some? && failsAt.value >= old(issued) && (rules == old(rules) || Intact(old(rules), rules))
      ensures Reconciled(old(rules)) ==> ok && rules == old(rules) && issued == old(issued) && trace == old(trace)
    {
      hide Keep;
      var pos := Find();
      if |pos| > 0 && pos[0] == 1 {
        FirstIsJump(rules, pos);
        pos := pos[1..];
        if Reconciled(rules) { ReconciledShape(rules, pos); }
      } else {
        NotFirst(rules, pos);
        var done := Insert();
        OthersBehind(old(rules));
        if !done { return false; }
        ghost var was := pos;
        for i := 0 to |pos|
          invariant |pos| == |was|
          invariant forall k :: 0 <= k < |was| ==> pos[k] == if k < i then was[k] + 1 else was[k]
        {
          pos := pos[i := pos[i] + 1];
        }
        Shifted(old(rules), was, pos);
      }
      ok := DeleteDuplicates(pos);
      ReconciledAfter(old(rules));
    }
  }

  // ---------------------------------------------------------------- positions

  // The jumps the chain holds behind its first rule are at the first i of pos.
  ghost predicate Left(rules: seq<Rule>, pos: seq<int>, i: nat) {
    i <= |pos| && forall p :: p in pos[..i] <==> 2 <= p <= |rules| && rules[p - 1] == Jump
  }

  lemma HighestIsJump(rules: seq<Rule>, pos: seq<int>, i: nat)
    requires i < |pos| && Left(rules, pos, i + 1)
    ensures 2 <= pos[i] <= |rules| && rules[pos[i] - 1] == Jump
  {
    assert pos[..i + 1][i] in pos[..i + 1];
  }

  lemma LeftAfter(rules: seq<Rule>, pos: seq<int>, i: nat)
    requires i < |pos| && Ascending(pos) && Left(rules, pos, i + 1)
    requires 2 <= pos[i] <= |rules|
    ensures Left(rules[..pos[i] - 1] + rules[pos[i]..], pos, i)
  {
    var p := pos[i];
    var next := rules[..p - 1] + rules[p..];
    Shorter(pos[..i + 1], p);
    assert pos[..i + 1][..i] == pos[..i];
    forall q ensures q in pos[..i] <==> 2 <= q <= |next| && next[q - 1] == Jump {
      Shorter(pos[..i + 1], q);
      Shorter(pos[..i + 1], q + 1);
      assert 2 <= q < p ==> next[q - 1] == rules[q - 1];
      assert p <= q <= |next| ==> next[q - 1] == rules[q];
    }
  }

  lemma DropJump(rules: seq<Rule>, p: int)
    requires 2 <= p <= |rules| && rules[p - 1] == Jump
    ensures Others(rules[..p - 1] + rules[p..]) == Others(rules)
  {
    hide Keep;
    var a, b := rules[..p - 1], rules[p..];
    assert rules == a + [Jump] + b;
    KeepConcat(a, b, Foreign);
    KeepConcat(a + [Jump], b, Foreign);
    KeepConcat(a, [Jump], Foreign);
    KeepNone([Jump], Foreign);
  }

  lemma {:induction false} AllForeign(s: seq<Rule>)
    requires forall k :: 0 <= k < |s| ==> Foreign(s[k])
    ensures Others(s) == s
  {
    if s != [] {
      AllForeign(s[..|s| - 1]);
      assert s == s[..|s| - 1] + [s[|s| - 1]];
    }
  }

  lemma OthersBehind(rules: seq<Rule>)
    ensures Others([Jump] + rules) == Others(rules)
  {
    hide Keep;
    KeepConcat([Jump], rules, Foreign);
    KeepNone([Jump], Foreign);
  }

  lemma NoneLeft(rules: seq<Rule>, pos: seq<int>)
    requires rules != [] && rules[0] == Jump && Left(rules, pos, 0)
    ensures rules == [Jump] + Others(rules)
  {
    var tail := rules[1..];
    forall k | 0 <= k < |tail| ensures Foreign(tail[k]) { assert k + 2 !in pos[..0]; }
    AllForeign(tail);
    assert rules == [Jump] + tail;
    OthersBehind(tail);
  }

  lemma FirstIsJump(rules: seq<Rule>, pos: seq<int>)
    requires Ascending(pos) && pos != [] && pos[0] == 1
    requires forall p :: p in pos <==> 1 <= p <= |rules| && rules[p - 1] == Jump
    ensures rules != [] && rules[0] == Jump && Ascending(pos[1..])
    ensures forall p :: p in pos[1..] <==> 2 <= p <= |rules| && rules[p - 1] == Jump
  {
    assert pos[0] in pos;
    forall p ensures p in pos[1..] <==> p in pos && p != 1 {
      if p in pos && p != 1 {
        var k :| 0 <= k < |pos| && pos[k] == p;
        assert pos[1..][k - 1] == p;
      }
    }
  }

  lemma NotFirst(rules: seq<Rule>, pos: seq<int>)
    requires Ascending(pos) && (pos == [] || pos[0] != 1)
    requires forall p :: p in pos <==> 1 <= p <= |rules| && rules[p - 1] == Jump
    ensures rules == [] || rules[0] != Jump
  {
    forall k | 0 <= k < |pos| ensures pos[k] != 1 {
      assert pos[0] in pos && pos[0] <= pos[k];
    }
    assert 1 !in pos;
  }

  lemma Shifted(rules: seq<Rule>, was: seq<int>, pos: seq<int>)
    requires Ascending(was) && |pos| == |was| && forall k :: 0 <= k < |was| ==> pos[k] == was[k] + 1
    requires forall p :: p in was <==> 1 <= p <= |rules| && rules[p - 1] == Jump
    ensures Ascending(pos)
    ensures var next := [Jump] + rules; forall p :: p in pos <==> 2 <= p <= |next| && next[p - 1] == Jump
  {
    var next := [Jump] + rules;
    forall p ensures p in pos <==> 2 <= p <= |next| && next[p - 1] == Jump {
      if p in pos {
        var k :| 0 <= k < |pos| && pos[k] == p;
        assert was[k] in was;
      }
      if 2 <= p <= |next| && next[p - 1] == Jump {
        assert p - 1 in was;
        var k :| 0 <= k < |was| && was[k] == p - 1;
        assert pos[k] == p;
      }
    }
  }

  lemma ReconciledAfter(rules: seq<Rule>)
    ensures Reconciled([Jump] + Others(rules))
  {
    hide Keep;
    OthersBehind(Others(rules));
    OthersTwice(rules);
  }

  lemma {:induction false} OthersTwice(rules: seq<Rule>)
    ensures Others(Others(rules)) == Others(rules)
  {
    KeptForeign(rules);
    AllForeign(Others(rules));
  }

  lemma {:induction false} KeptForeign(rules: seq<Rule>)
    ensures forall k :: 0 <= k < |Others(rules)| ==> Foreign(Others(rules)[k])
  {
    if rules != [] {
      var short := rules[..|rules| - 1];
      KeptForeign(short);
      assert Others(rules) == Others(short) + (if Foreign(rules[|rules| - 1]) then [rules[|rules| - 1]] else []);
    }
  }

  // A reconciled chain has its jump first and no duplicate.
  lemma ReconciledShape(rules: seq<Rule>, pos: seq<int>)
    requires Reconciled(rules) && forall p :: p in pos <==> 2 <= p <= |rules| && rules[p - 1] == Jump
    ensures pos == []
  {
    KeptForeign(rules);
    forall k | 1 <= k < |rules| ensures rules[k] != Jump {
      assert rules[k] == Others(rules)[k - 1];
    }
    forall p ensures p !in pos {
      if 2 <= p <= |rules| { assert rules[p - 1] != Jump; }
    }
    EmptyOrHasFirst(pos);
  }
}
