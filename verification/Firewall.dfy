/**
 The iptables chains an instance owns: how they are built, recognized as its own, and removed
 again among rules and chains that belong to others.
 */
module Firewall {
  import opened Faults

  type Instance = nat
  type Network = nat
  type Interface = nat

  // ------------------------------------------------------------------
  // Tables
  // ------------------------------------------------------------------

  /** The current name of an instance's chain, the older name cut to a prefix of its id, and all other chains. */
  datatype ChainName = Own(instance: Instance) | Legacy(prefix: nat) | Other(name: nat)

  datatype Rule =
    | Jump(instance: Instance, target: ChainName)
    | Owner(instance: Instance)
    | Egress(instance: Instance, network: Network, out: Interface)
    | Reply(instance: Instance, network: Network, out: Interface)
    | Masquerade(instance: Instance, network: Network, out: Interface)
    | Unknown(text: nat, targets: set<ChainName>)

  /** A table: the built-in chain that instances jump from, FORWARD or POSTROUTING, and the rest. */
  datatype State = State(parent: seq<Rule>, chains: map<ChainName, seq<Rule>>)

  /** The first twelve digits of an instance id. */
  function Prefix(i: Instance): nat {
    i / 0x1_0000_0000_0000_0000_0000
  }

  function Without(rules: seq<Rule>, rule: Rule): (r: seq<Rule>)
    ensures rule !in r
  {
    if rules == [] then []
    else if rules[0] == rule then Without(rules[1..], rule)
    else [rules[0]] + Without(rules[1..], rule)
  }

  lemma {:induction false} WithoutCount(rules: seq<Rule>, rule: Rule)
    ensures multiset(Without(rules, rule)) == multiset(rules)[rule := 0]
  {
    if rules != [] {
      assert rules == [rules[0]] + rules[1..];
      WithoutCount(rules[1..], rule);
    }
  }

  /** What -D does: the first match goes. */
  function RemoveFirst(rules: seq<Rule>, rule: Rule): (r: seq<Rule>)
    requires rule in rules
    ensures multiset(r)[rule] == multiset(rules)[rule] - 1
    ensures forall x :: x in r ==> x in rules
  {
    assert rules == [rules[0]] + rules[1..];
    if rules[0] == rule then rules[1..] else [rules[0]] + RemoveFirst(rules[1..], rule)
  }

  lemma {:induction false} WithoutFirst(rules: seq<Rule>, rule: Rule)
    requires rule in rules
    ensures Without(RemoveFirst(rules, rule), rule) == Without(rules, rule)
  {
    if rules[0] != rule {
      WithoutFirst(rules[1..], rule);
    }
  }

  lemma {:induction false} WithoutAbsent(rules: seq<Rule>, rule: Rule)
    requires rule !in rules
    ensures Without(rules, rule) == rules
  {
    if rules != [] {
      WithoutAbsent(rules[1..], rule);
    }
  }

  lemma {:induction false} WithoutCommutes(rules: seq<Rule>, a: Rule, b: Rule)
    ensures Without(Without(rules, a), b) == Without(Without(rules, b), a)
  {
    if rules != [] {
      WithoutCommutes(rules[1..], a, b);
    }
  }

  lemma {:induction false} WithoutAppend(rules: seq<Rule>, last: Rule, rule: Rule)
    ensures Without(rules + [last], rule) == Without(rules, rule) + (if last == rule then [] else [last])
  {
    if rules == [] {
      assert rules + [last] == [last];
    } else {
      WithoutAppend(rules[1..], last, rule);
      assert (rules + [last])[1..] == rules[1..] + [last];
    }
  }

  function Targets(rule: Rule): set<ChainName> {
    match rule
    case Jump(_, target) => {target}
    case Unknown(_, targets) => targets
    case _ => {}
  }

  predicate Referenced(s: State, chain: ChainName) {
    || (exists r :: r in s.parent && chain in Targets(r))
    || (exists c :: c in s.chains && exists r :: r in s.chains[c] && chain in Targets(r))
  }

  /** Every jump leads to a chain that exists; the kernel keeps it so. */
  ghost predicate WellFormed(s: State) {
    forall c :: Referenced(s, c) ==> c in s.chains
  }

  /** An instance recognizes a chain by its own jump to it or by its own marker in it. */
  predicate Owned(s: State, i: Instance, chain: ChainName)
    requires chain in s.chains
  {
    Jump(i, chain) in s.parent || Owner(i) in s.chains[chain]
  }

  /** The table without an instance's chain and its jumps. */
  function Removed(s: State, i: Instance, chain: ChainName): State {
    State(Without(s.parent, Jump(i, chain)), s.chains - {chain})
  }

  const JUMP_LIMIT := 64

  /** An instance can remove a chain if it is absent, or owned, jumped to less than 64 times and by nothing else. */
  predicate Removable(s: State, i: Instance, chain: ChainName) {
    chain in s.chains ==>
      && Owned(s, i, chain)
      && multiset(s.parent)[Jump(i, chain)] < JUMP_LIMIT
      && !Referenced(State(Without(s.parent, Jump(i, chain)), s.chains[chain := []]), chain)
  }

  function Cleaned(s: State, i: Instance): State {
    Removed(Removed(s, i, Own(i)), i, Legacy(Prefix(i)))
  }

  predicate Cleanable(s: State, i: Instance) {
    Removable(s, i, Own(i)) && Removable(Removed(s, i, Own(i)), i, Legacy(Prefix(i)))
  }

  /** No obstacle to removing a chain but that it may not be recognized. */
  predicate Untangled(s: State, i: Instance, chain: ChainName) {
    chain in s.chains ==>
      && multiset(s.parent)[Jump(i, chain)] < JUMP_LIMIT
      && !Referenced(State(Without(s.parent, Jump(i, chain)), s.chains[chain := []]), chain)
  }

  predicate Sound(s: State, i: Instance) {
    Untangled(s, i, Own(i)) && Untangled(Removed(s, i, Own(i)), i, Legacy(Prefix(i)))
  }

  /** Every chain under one of the instance's names is recognized. */
  predicate Recognized(s: State, i: Instance) {
    && (Own(i) in s.chains ==> Owned(s, i, Own(i)))
    && (Legacy(Prefix(i)) in s.chains ==> Owned(s, i, Legacy(Prefix(i))))
  }

  /** The instance has rules in the table. */
  predicate Stands(s: State, i: Instance) {
    Own(i) in s.chains || (Legacy(Prefix(i)) in s.chains && Owned(s, i, Legacy(Prefix(i))))
  }

  /** What belongs to others: the other rules of the built-in chain in their order, and all other chains. */
  function Foreign(s: State, i: Instance): State {
    State(Without(Without(s.parent, Jump(i, Own(i))), Jump(i, Legacy(Prefix(i)))),
      s.chains - {Own(i), Legacy(Prefix(i))})
  }

  /** Where a chain is absent there is no jump to it, so removing it changes nothing. */
  lemma AbsentChain(s: State, i: Instance, chain: ChainName)
    requires WellFormed(s) && chain !in s.chains
    ensures Removed(s, i, chain) == s
  {
    assert chain in Targets(Jump(i, chain));
    assert !Referenced(s, chain);
    WithoutAbsent(s.parent, Jump(i, chain));
    assert s.chains - {chain} == s.chains;
  }

  lemma FewerRules(s: State, s': State)
    requires WellFormed(s) && s'.chains.Keys == s.chains.Keys
    requires forall r :: r in s'.parent ==> r in s.parent
    requires forall c, r :: c in s'.chains && r in s'.chains[c] ==> r in s.chains[c]
    ensures WellFormed(s')
  {
    forall c | Referenced(s', c) ensures c in s'.chains {
      assert Referenced(s, c);
    }
  }

  lemma FewerChains(s: State, chain: ChainName)
    requires WellFormed(s) && !Referenced(s, chain)
    ensures WellFormed(s.(chains := s.chains - {chain}))
  {
    var s' := s.(chains := s.chains - {chain});
    forall c | Referenced(s', c) ensures c in s'.chains {
      assert Referenced(s, c);
    }
  }

  /** What removing a chain may do to a table, done or not. */
  ghost predicate Removal(s: State, s': State, i: Instance, chain: ChainName, outcome: Outcome) {
    && (outcome == Done ==> s' == Removed(s, i, chain) && Removable(s, i, chain))
    && (outcome == Refused ==> !Removable(s, i, chain))
    && Without(s'.parent, Jump(i, chain)) == Without(s.parent, Jump(i, chain))
    && s'.chains - {chain} == s.chains - {chain}
    && (chain in s.chains && !Owned(s, i, chain) ==> s' == s)
    && (forall r :: r in s'.parent ==> r in s.parent)
    && multiset(s'.parent)[Jump(i, chain)] <= multiset(s.parent)[Jump(i, chain)]
    && (chain in s'.chains ==> chain in s.chains && (s'.chains[chain] == s.chains[chain] || s'.chains[chain] == []))
  }

  class Table {
    var parent: seq<Rule>
    var chains: map<ChainName, seq<Rule>>

    function Now(): State
      reads this
    {
      State(parent, chains)
    }

    // ----------------------------------------------------------------
    // Commands; a command that fails changes nothing
    // ----------------------------------------------------------------

    method NewChain(chain: ChainName, env: Environment) returns (outcome: Outcome)
      requires chain !in chains
      modifies this`chains, env
      ensures chains == if outcome == Done then old(chains)[chain := []] else old(chains)
      ensures outcome != Refused && env.trouble == old(env.trouble) - (if outcome == Done then 0 else 1)
    {
      outcome := env.Step();
      if outcome == Done {
        chains := chains[chain := []];
      }
    }

    method SetChain(chain: ChainName, rules: seq<Rule>, env: Environment) returns (outcome: Outcome)
      requires chain in chains
      modifies this`chains, env
      ensures chains == if outcome == Done then old(chains)[chain := rules] else old(chains)
      ensures outcome != Refused && env.trouble == old(env.trouble) - (if outcome == Done then 0 else 1)
    {
      outcome := env.Step();
      if outcome == Done {
        chains := chains[chain := rules];
      }
    }

    /** -X refuses a chain that still has rules or is still jumped to. */
    method DeleteChain(chain: ChainName, env: Environment) returns (outcome: Outcome)
      requires chain in chains
      modifies this`chains, env
      ensures outcome == Refused ==> old(chains)[chain] != [] || Referenced(old(Now()), chain)
      ensures outcome == Done ==> old(chains)[chain] == [] && !Referenced(old(Now()), chain)
      ensures chains == if outcome == Done then old(chains) - {chain} else old(chains)
      ensures env.trouble == old(env.trouble) - (if outcome == Failed || outcome == Crashed then 1 else 0)
    {
      outcome := env.Step();
      if outcome != Done {
        return;
      }
      if chains[chain] != [] || Referenced(Now(), chain) {
        return Refused;
      }
      chains := chains - {chain};
    }

    method AppendToParent(rule: Rule, env: Environment) returns (outcome: Outcome)
      modifies this`parent, env
      ensures parent == if outcome == Done then old(parent) + [rule] else old(parent)
      ensures outcome != Refused && env.trouble == old(env.trouble) - (if outcome == Done then 0 else 1)
    {
      outcome := env.Step();
      if outcome == Done {
        parent := parent + [rule];
      }
    }

    method DeleteFromParent(rule: Rule, env: Environment) returns (outcome: Outcome)
      requires rule in parent
      modifies this`parent, env
      ensures parent == if outcome == Done then RemoveFirst(old(parent), rule) else old(parent)
      ensures outcome != Refused && env.trouble == old(env.trouble) - (if outcome == Done then 0 else 1)
    {
      outcome := env.Step();
      if outcome == Done {
        parent := RemoveFirst(parent, rule);
      }
    }

    // ----------------------------------------------------------------
    // Removing
    // ----------------------------------------------------------------

    /** The bounded loop: 64 removals without seeing the end count as too many, even if they were all. */
    method RemoveJump(jump: Rule, env: Environment) returns (outcome: Outcome)
      modifies this`parent, env
      ensures Without(parent, jump) == Without(old(parent), jump)
      ensures outcome == Done ==> parent == Without(old(parent), jump) && multiset(old(parent))[jump] < JUMP_LIMIT
      ensures outcome == Refused ==> multiset(old(parent))[jump] >= JUMP_LIMIT
      ensures forall r :: r in parent ==> r in old(parent)
      ensures multiset(parent)[jump] <= multiset(old(parent))[jump]
      ensures env.trouble == old(env.trouble) - (if outcome == Failed || outcome == Crashed then 1 else 0)
    {
      hide Without, RemoveFirst;
      var removed := 0;
      while removed < JUMP_LIMIT
        invariant 0 <= removed <= JUMP_LIMIT && env.trouble == old(env.trouble)
        invariant Without(parent, jump) == Without(old(parent), jump)
        invariant forall r :: r in parent ==> r in old(parent)
        invariant multiset(parent)[jump] + removed == multiset(old(parent))[jump]
      {
        outcome := env.Step();
        if outcome != Done {
          return;
        }
        if jump !in parent {
          WithoutAbsent(parent, jump);
          return;
        }
        WithoutFirst(parent, jump);
        outcome := DeleteFromParent(jump, env);
        if outcome != Done {
          return;
        }
        removed := removed + 1;
      }
      outcome := Refused;
    }

    /** Takes an owned chain down: its jumps, then its rules, then the chain. */
    method TearDown(i: Instance, chain: ChainName, env: Environment) returns (outcome: Outcome)
      requires WellFormed(Now()) && chain in chains && Owned(Now(), i, chain)
      modifies this, env
      ensures WellFormed(Now())
      ensures Removal(old(Now()), Now(), i, chain, outcome)
      ensures env.trouble == old(env.trouble) - (if outcome == Failed || outcome == Crashed then 1 else 0)
    {
      hide Referenced, WellFormed, Without;
      outcome := RemoveJump(Jump(i, chain), env);
      FewerRules(old(Now()), Now());
      if outcome != Done {
        return;
      }
      outcome := SetChain(chain, [], env);
      FewerRules(old(Now()), Now());
      if outcome != Done {
        return;
      }
      if !Referenced(Now(), chain) {
        FewerChains(Now(), chain);
      }
      assert Now() == State(Without(old(parent), Jump(i, chain)), old(chains)[chain := []]);
      outcome := DeleteChain(chain, env);
    }

    /** Removes one chain of the instance and its jumps; a chain that is not recognized is never touched. */
    method RemoveChain(i: Instance, chain: ChainName, env: Environment) returns (outcome: Outcome)
      requires WellFormed(Now())
      modifies this, env
      ensures WellFormed(Now())
      ensures Removal(old(Now()), Now(), i, chain, outcome)
      ensures env.trouble == old(env.trouble) - (if outcome == Failed || outcome == Crashed then 1 else 0)
    {
      hide Referenced, WellFormed, Without;
      outcome := env.Step();
      if outcome != Done {
        return;
      }
      if chain !in chains {
        AbsentChain(Now(), i, chain);
        return;
      }
      outcome := env.Step();
      if outcome != Done {
        return;
      }
      var jumpOwned := Jump(i, chain) in parent;
      outcome := env.Step();
      if outcome != Done {
        return;
      }
      var markerOwned := Owner(i) in chains[chain];
      if !jumpOwned && !markerOwned {
        return Refused;
      }
      outcome := TearDown(i, chain, env);
    }

    // ----------------------------------------------------------------
    // Building
    // ----------------------------------------------------------------

    /** Makes the chain empty but for the instance's marker; an existing chain must carry it already. */
    method PrepareChain(i: Instance, env: Environment) returns (outcome: Outcome)
      modifies this`chains, env
      ensures chains - {Own(i)} == old(chains) - {Own(i)} && (Own(i) in old(chains) ==> Own(i) in chains)
      ensures Own(i) in chains ==>
              (Own(i) in old(chains) && chains[Own(i)] == old(chains)[Own(i)]) || Plain(chains[Own(i)])
      ensures outcome == Done ==> chains == old(chains)[Own(i) := [Owner(i)]]
      ensures outcome == Refused ==> Own(i) in old(chains) && Owner(i) !in old(chains)[Own(i)]
      ensures env.trouble == old(env.trouble) - (if outcome == Failed || outcome == Crashed then 1 else 0)
    {
      outcome := env.Step();
      if outcome != Done {
        return;
      }
      if Own(i) !in chains {
        outcome := NewChain(Own(i), env);
        if outcome != Done {
          return;
        }
      } else {
        outcome := env.Step();
        if outcome != Done {
          return;
        }
        if Owner(i) !in chains[Own(i)] {
          return Refused;
        }
      }
      outcome := SetChain(Own(i), [], env);
      if outcome != Done {
        return;
      }
      assert [] + [Owner(i)] == [Owner(i)];
      outcome := SetChain(Own(i), chains[Own(i)] + [Owner(i)], env);
    }

    /** Inserts the rules one after the other ahead of the marker. */
    method InsertRules(i: Instance, rules: seq<Rule>, env: Environment) returns (outcome: Outcome)
      requires Own(i) in chains && chains[Own(i)] == [Owner(i)] && Plain(rules)
      modifies this`chains, env
      ensures chains.Keys == old(chains).Keys && chains - {Own(i)} == old(chains) - {Own(i)} && Plain(chains[Own(i)])
      ensures outcome == Done ==> chains == old(chains)[Own(i) := rules + [Owner(i)]]
      ensures outcome != Refused && env.trouble == old(env.trouble) - (if outcome == Done then 0 else 1)
    {
      outcome := Done;
      var index := 0;
      assert rules[..0] + [Owner(i)] == [Owner(i)];
      assert chains == chains[Own(i) := [Owner(i)]];
      while index < |rules|
        invariant 0 <= index <= |rules| && outcome == Done && env.trouble == old(env.trouble)
        invariant chains == old(chains)[Own(i) := rules[..index] + [Owner(i)]]
      {
        var chain := chains[Own(i)];
        outcome := SetChain(Own(i), chain[..index] + [rules[index]] + chain[index..], env);
        if outcome != Done {
          return;
        }
        assert chains[Own(i)] == rules[..index + 1] + [Owner(i)];
        index := index + 1;
      }
      assert rules[..index] == rules;
    }

    method EnsureJump(i: Instance, env: Environment) returns (outcome: Outcome)
      requires WellFormed(Now()) && Own(i) in chains
      modifies this`parent, env
      ensures WellFormed(Now())
      ensures Without(parent, Jump(i, Own(i))) == Without(old(parent), Jump(i, Own(i)))
      ensures multiset(parent)[Jump(i, Own(i))] <= multiset(old(parent))[Jump(i, Own(i))] + 1
      ensures outcome == Done ==> parent == Without(old(parent), Jump(i, Own(i))) + [Jump(i, Own(i))]
      ensures outcome == Refused ==> multiset(old(parent))[Jump(i, Own(i))] >= JUMP_LIMIT
      ensures env.trouble == old(env.trouble) - (if outcome == Failed || outcome == Crashed then 1 else 0)
    {
      hide WellFormed, Without;
      outcome := RemoveJump(Jump(i, Own(i)), env);
      FewerRules(old(Now()), Now());
      if outcome != Done {
        return;
      }
      ghost var cleared := parent;
      WithoutAppend(cleared, Jump(i, Own(i)), Jump(i, Own(i)));
      MoreJumps(Now(), i);
      outcome := AppendToParent(Jump(i, Own(i)), env);
      assert cleared + [] == cleared;
    }

    /** Builds the instance's chain and the jump to it where neither exists yet. */
    method Build(i: Instance, rules: seq<Rule>, env: Environment) returns (outcome: Outcome)
      requires WellFormed(Now()) && Own(i) !in chains && Plain(rules)
      modifies this, env
      ensures WellFormed(Now())
      ensures Foreign(Now(), i) == Foreign(old(Now()), i)
      ensures Sound(old(Now()), i) ==> Sound(Now(), i)
      ensures outcome == Done ==> Now() == With(old(Now()), i, rules)
      ensures outcome != Refused && env.trouble == old(env.trouble) - (if outcome == Done then 0 else 1)
    {
      hide Referenced, WellFormed, Without, Sound;
      ghost var was := Now();
      AbsentChain(was, i, Own(i));
      assert was.parent == Without(was.parent, Jump(i, Own(i)));
      outcome := PrepareChain(i, env);
      JumpCount(was, i);
      PlainChain(was, Now(), i);
      ForeignAround(was, Now(), i, Own(i));
      BuildKeepsSound(was, Now(), i);
      if outcome != Done {
        return;
      }
      outcome := InsertRules(i, rules, env);
      PlainChain(was, Now(), i);
      ForeignAround(was, Now(), i, Own(i));
      BuildKeepsSound(was, Now(), i);
      if outcome != Done {
        return;
      }
      outcome := EnsureJump(i, env);
      ForeignAround(was, Now(), i, Own(i));
      BuildKeepsSound(was, Now(), i);
    }
  }

  // ------------------------------------------------------------------
  // What removals leave alone
  // ------------------------------------------------------------------

  lemma SameOtherwise(m: map<ChainName, seq<Rule>>, m': map<ChainName, seq<Rule>>, k: ChainName, other: ChainName)
    requires m' - {k} == m - {k} && other != k
    ensures other in m' <==> other in m
    ensures other in m ==> m'[other] == m[other]
  {
    assert other in m <==> other in m - {k};
    assert other in m' <==> other in m' - {k};
    if other in m {
      assert m[other] == (m - {k})[other] == (m' - {k})[other];
    }
  }

  lemma ForeignAround(s: State, s': State, i: Instance, chain: ChainName)
    requires chain == Own(i) || chain == Legacy(Prefix(i))
    requires Without(s'.parent, Jump(i, chain)) == Without(s.parent, Jump(i, chain)) &&
             s'.chains - {chain} == s.chains - {chain}
    ensures Foreign(s', i) == Foreign(s, i)
  {
    var both := {Own(i), Legacy(Prefix(i))};
    WithoutCommutes(s.parent, Jump(i, Own(i)), Jump(i, Legacy(Prefix(i))));
    WithoutCommutes(s'.parent, Jump(i, Own(i)), Jump(i, Legacy(Prefix(i))));
    assert s'.chains - both == s'.chains - {chain} - both;
    assert s.chains - both == s.chains - {chain} - both;
  }

  // ------------------------------------------------------------------
  // What an interrupted run leaves can be worked on again
  // ------------------------------------------------------------------

  lemma OwnedElsewhere(s: State, i: Instance)
    ensures Legacy(Prefix(i)) in s.chains ==>
              (Owned(Removed(s, i, Own(i)), i, Legacy(Prefix(i))) <==> Owned(s, i, Legacy(Prefix(i))))
  {
    WithoutCount(s.parent, Jump(i, Own(i)));
    assert Jump(i, Legacy(Prefix(i))) in s.parent <==> Jump(i, Legacy(Prefix(i))) in multiset(s.parent);
    assert Jump(i, Legacy(Prefix(i))) in Without(s.parent, Jump(i, Own(i)))
      <==> Jump(i, Legacy(Prefix(i))) in multiset(Without(s.parent, Jump(i, Own(i))));
  }

  /** Of sound tables an instance can clean exactly those in which it recognizes every chain with one of its names. */
  lemma CleanableExactly(s: State, i: Instance)
    ensures Cleanable(s, i) <==> Sound(s, i) && Recognized(s, i)
  {
    OwnedElsewhere(s, i);
    hide Without, Referenced, Owned;
  }

  /**
   What every run leaves, finished or interrupted: tables that can be worked on again exactly if the
   instance recognizes its chains in them. This holds from sound tables, and cleanable ones are sound.
   */
  predicate Repeatable(s: State, i: Instance) {
    Sound(s, i) && (Cleanable(s, i) <==> Recognized(s, i))
  }

  lemma SoundIsRepeatable(s: State, i: Instance)
    ensures Sound(s, i) ==> Repeatable(s, i)
    ensures Cleanable(s, i) ==> Sound(s, i)
  {
    CleanableExactly(s, i);
  }

  lemma JumpsLeft(s: State, s': State, a: Rule, b: Rule)
    requires Without(s'.parent, a) == Without(s.parent, a) && a != b
    ensures multiset(s'.parent)[b] == multiset(s.parent)[b]
    ensures forall r :: r in Without(s'.parent, b) ==> r == a || r in Without(s.parent, b)
  {
    WithoutCount(s.parent, a);
    WithoutCount(s'.parent, a);
    assert multiset(s'.parent)[b] == multiset(Without(s'.parent, a))[b] == multiset(s.parent)[b];
    WithoutCount(s.parent, b);
    WithoutCount(s'.parent, b);
    forall r | r in Without(s'.parent, b) && r != a ensures r in Without(s.parent, b) {
      assert r in multiset(Without(s'.parent, b)) && r in multiset(s'.parent);
      assert multiset(Without(s'.parent, a))[r] == multiset(s'.parent)[r];
      assert multiset(Without(s.parent, a))[r] == multiset(s.parent)[r];
      assert r in multiset(Without(s.parent, b));
    }
  }

  /** However far the removal of the current chain went, both chains are as removable as before. */
  lemma OwnRemovalKeepsSound(s: State, s': State, i: Instance, outcome: Outcome)
    requires Removal(s, s', i, Own(i), outcome) && Sound(s, i)
    ensures Sound(s', i)
  {
    assert Own(i) in s'.chains ==> s'.chains[Own(i) := []] == s.chains[Own(i) := []] by {
      if Own(i) in s'.chains {
        SameButOne(s.chains, s'.chains, Own(i));
      }
    }
    hide Without, Referenced, Removable;
  }

  lemma SameButOne(m: map<ChainName, seq<Rule>>, m': map<ChainName, seq<Rule>>, k: ChainName)
    requires m' - {k} == m - {k}
    ensures m'[k := []] == m[k := []]
  {
    assert m[k := []] == (m - {k})[k := []];
    assert m'[k := []] == (m' - {k})[k := []];
  }

  /** So it is for the chain under the older name. */
  lemma LegacyRemovalKeepsSound(s: State, s': State, i: Instance, outcome: Outcome)
    requires Removal(s, s', i, Legacy(Prefix(i)), outcome) && Sound(s, i)
    ensures Sound(s', i)
  {
    var own, legacy := Own(i), Legacy(Prefix(i));
    SameOtherwise(s.chains, s'.chains, legacy, own);
    JumpsLeft(s, s', Jump(i, legacy), Jump(i, own));
    if own in s'.chains {
      assert !Referenced(State(Without(s'.parent, Jump(i, own)), s'.chains[own := []]), own) by {
        FewerReferences(s, s', i);
      }
    }
    if legacy in s'.chains {
      LegacyStaysUntangled(s, s', i);
    }
  }

  lemma FewerReferences(s: State, s': State, i: Instance)
    requires Removal(s, s', i, Legacy(Prefix(i)), Crashed) && Own(i) in s.chains
    requires !Referenced(State(Without(s.parent, Jump(i, Own(i))), s.chains[Own(i) := []]), Own(i))
    ensures !Referenced(State(Without(s'.parent, Jump(i, Own(i))), s'.chains[Own(i) := []]), Own(i))
  {
    var own, legacy := Own(i), Legacy(Prefix(i));
    var e, e' := State(Without(s.parent, Jump(i, own)), s.chains[own := []]),
      State(Without(s'.parent, Jump(i, own)), s'.chains[own := []]);
    JumpsLeft(s, s', Jump(i, legacy), Jump(i, own));
    forall r | r in e'.parent ensures own !in Targets(r) {
      assert r == Jump(i, legacy) || r in e.parent;
    }
    forall c, r | c in e'.chains && r in e'.chains[c] ensures own !in Targets(r) {
      if c != own && c != legacy {
        SameOtherwise(s.chains, s'.chains, legacy, c);
      }
      assert c in e.chains && r in e.chains[c];
    }
  }

  lemma LegacyStaysUntangled(s: State, s': State, i: Instance)
    requires Removal(s, s', i, Legacy(Prefix(i)), Crashed) && Legacy(Prefix(i)) in s'.chains
    requires Untangled(Removed(s, i, Own(i)), i, Legacy(Prefix(i)))
    ensures Untangled(Removed(s', i, Own(i)), i, Legacy(Prefix(i)))
  {
    var own, legacy := Own(i), Legacy(Prefix(i));
    WithoutCommutes(s.parent, Jump(i, own), Jump(i, legacy));
    WithoutCommutes(s'.parent, Jump(i, own), Jump(i, legacy));
    WithoutCount(s.parent, Jump(i, own));
    WithoutCount(s'.parent, Jump(i, own));
    SameButOne(s.chains, s'.chains, legacy);
    assert (s'.chains - {own})[legacy := []] == s'.chains[legacy := []] - {own};
    assert (s.chains - {own})[legacy := []] == s.chains[legacy := []] - {own};
    hide Without, Referenced;
  }

  /** Whatever is built of the current chain and its jump where there was neither can be removed as far as jumps go. */
  lemma BuildKeepsSound(s: State, s': State, i: Instance)
    requires WellFormed(s) && Own(i) !in s.chains
    requires Without(s'.parent, Jump(i, Own(i))) == Without(s.parent, Jump(i, Own(i)))
    requires multiset(s'.parent)[Jump(i, Own(i))] <= 1 && s'.chains - {Own(i)} == s.chains - {Own(i)}
    ensures Sound(s, i) ==> Sound(s', i)
  {
    var own := Own(i);
    JumpCount(s, i);
    WithoutAbsent(s.parent, Jump(i, own));
    assert !Referenced(s, own);
    SameButOne(s.chains, s'.chains, own);
    var e := State(s.parent, s.chains[own := []]);
    forall c, r | c in e.chains && r in e.chains[c] ensures own !in Targets(r) {
      assert c in s.chains && r in s.chains[c];
    }
    assert !Referenced(e, own);
    hide Without, Referenced;
  }

  /** A chain with one of the instance's names that the instance does not recognize keeps its rules. */
  ghost predicate Spares(s: State, s': State, i: Instance) {
    forall c :: (c == Own(i) || c == Legacy(Prefix(i))) && c in s.chains && !Owned(s, i, c) ==>
      c in s'.chains && s'.chains[c] == s.chains[c]
  }

  /** An instance's current chain removed, then the one under its older name, each as far as it went. */
  lemma TwoRemovals(s: State, between: State, s': State, i: Instance, first: Outcome, second: Outcome)
    requires Removal(s, between, i, Own(i), first) && Removal(between, s', i, Legacy(Prefix(i)), second)
    ensures Foreign(s', i) == Foreign(s, i) && Spares(s, s', i)
    ensures Sound(s, i) ==> Sound(s', i)
    ensures Stands(s', i) ==> Stands(s, i)
    ensures first == Done && second == Done ==> !Stands(s', i)
    ensures Sound(s, i) && (first == Refused || (first == Done && second == Refused)) ==> !Recognized(s', i)
    ensures first == Done && second == Done ==> s' == Cleaned(s, i) && Cleanable(s, i)
    ensures first == Refused || (first == Done && second == Refused) ==> !Cleanable(s, i)
  {
    hide Removable, Without;
    ForeignAround(s, between, i, Own(i));
    ForeignAround(between, s', i, Legacy(Prefix(i)));
    SameOtherwise(s.chains, between.chains, Own(i), Legacy(Prefix(i)));
    SameOtherwise(between.chains, s'.chains, Legacy(Prefix(i)), Own(i));
    if Sound(s, i) {
      RefusedIsUnowned(s, between, i, Own(i), first);
      OwnRemovalKeepsSound(s, between, i, first);
      if first == Done {
        RefusedIsUnowned(between, s', i, Legacy(Prefix(i)), second);
      }
      LegacyRemovalKeepsSound(between, s', i, second);
    }
  }

  /** As far as jumps go a chain is only refused, and then not touched, because it is not recognized. */
  lemma RefusedIsUnowned(s: State, s': State, i: Instance, chain: ChainName, outcome: Outcome)
    requires Removal(s, s', i, chain, outcome) && Untangled(s, i, chain)
    ensures outcome == Refused ==> s' == s && chain in s.chains && !Owned(s, i, chain)
  {
  }

  /** A removal that was never attempted. */
  lemma NoRemoval(s: State, i: Instance, chain: ChainName)
    ensures Removal(s, s, i, chain, Crashed)
  {
  }

  // ------------------------------------------------------------------
  // What is built
  // ------------------------------------------------------------------

  /** Rules that jump nowhere. */
  ghost predicate Plain(rules: seq<Rule>) {
    forall r :: r in rules ==> Targets(r) == {}
  }

  function With(s: State, i: Instance, rules: seq<Rule>): State {
    State(s.parent + [Jump(i, Own(i))], s.chains[Own(i) := rules + [Owner(i)]])
  }

  lemma MoreJumps(s: State, i: Instance)
    requires WellFormed(s) && Own(i) in s.chains
    ensures WellFormed(s.(parent := s.parent + [Jump(i, Own(i))]))
  {
    var s' := s.(parent := s.parent + [Jump(i, Own(i))]);
    forall c | Referenced(s', c) ensures c in s'.chains {
      if c != Own(i) {
        assert Referenced(s, c);
      }
    }
  }

  /** Adding a chain, or giving it rules that jump nowhere, leaves every jump leading somewhere. */
  lemma PlainChain(s: State, s': State, i: Instance)
    requires WellFormed(s) && Own(i) !in s.chains && s'.parent == s.parent
    requires s'.chains - {Own(i)} == s.chains - {Own(i)} && (Own(i) in s'.chains ==> Plain(s'.chains[Own(i)]))
    ensures WellFormed(s')
  {
    forall c | Referenced(s', c) ensures c in s'.chains {
      forall other | other != Own(i) ensures other in s'.chains <==> other in s.chains
                                     ensures other in s.chains ==> s'.chains[other] == s.chains[other] {
        SameOtherwise(s.chains, s'.chains, Own(i), other);
      }
      assert Referenced(s, c);
    }
  }

  lemma JumpCount(s: State, i: Instance)
    requires WellFormed(s) && Own(i) !in s.chains
    ensures Jump(i, Own(i)) !in s.parent && multiset(s.parent)[Jump(i, Own(i))] == 0
  {
    assert Own(i) in Targets(Jump(i, Own(i)));
    assert !Referenced(s, Own(i));
  }

  // ------------------------------------------------------------------
  // Reconciling both tables
  // ------------------------------------------------------------------

  datatype Config = Config(network: Network, out: Interface, natEnabled: bool, redirectGateway: bool, routes: nat)

  predicate Required(c: Config) {
    c.natEnabled || c.redirectGateway || c.routes > 0
  }

  function FilterRules(i: Instance, c: Config): seq<Rule> {
    [Egress(i, c.network, c.out), Reply(i, c.network, c.out)]
  }

  function NatRules(i: Instance, c: Config): seq<Rule> {
    [Masquerade(i, c.network, c.out)]
  }

  /** The tables of a reconciled instance, from the tables before. */
  function FilterFor(s: State, i: Instance, c: Config): State {
    if Required(c) then With(Cleaned(s, i), i, FilterRules(i, c)) else Cleaned(s, i)
  }

  function NatFor(s: State, i: Instance, c: Config): State {
    if c.natEnabled then With(Cleaned(s, i), i, NatRules(i, c)) else Cleaned(s, i)
  }

  /** The instance's chain holds these rules and then its marker, and its only jump comes last. */
  predicate Carries(s: State, i: Instance, rules: seq<Rule>) {
    && Own(i) in s.chains && s.chains[Own(i)] == rules + [Owner(i)]
    && s.parent != [] && s.parent[|s.parent| - 1] == Jump(i, Own(i))
    && Jump(i, Own(i)) !in s.parent[..|s.parent| - 1]
  }

  predicate Bare(s: State, i: Instance) {
    Own(i) !in s.chains && Jump(i, Own(i)) !in s.parent
  }

  predicate NoLegacy(s: State, i: Instance) {
    Legacy(Prefix(i)) !in s.chains && Jump(i, Legacy(Prefix(i))) !in s.parent
  }

  lemma CleanedIsBare(s: State, i: Instance)
    ensures Bare(Cleaned(s, i), i) && NoLegacy(Cleaned(s, i), i)
  {
    WithoutFewer(Without(s.parent, Jump(i, Own(i))), Jump(i, Legacy(Prefix(i))));
  }

  lemma WithCarries(s: State, i: Instance, rules: seq<Rule>)
    ensures var w := With(Cleaned(s, i), i, rules); Carries(w, i, rules) && NoLegacy(w, i)
  {
    CleanedIsBare(s, i);
    hide Cleaned;
    assert With(Cleaned(s, i), i, rules).parent[..|Cleaned(s, i).parent|] == Cleaned(s, i).parent;
  }

  /** The rules that stand for each configuration, written out. */
  lemma RulesFor(s: State, i: Instance, c: Config)
    ensures if c.natEnabled || c.redirectGateway || c.routes > 0
            then Carries(FilterFor(s, i, c), i, [Egress(i, c.network, c.out), Reply(i, c.network, c.out)])
            else Bare(FilterFor(s, i, c), i)
    ensures if c.natEnabled then Carries(NatFor(s, i, c), i, [Masquerade(i, c.network, c.out)])
            else Bare(NatFor(s, i, c), i)
    ensures NoLegacy(FilterFor(s, i, c), i) && NoLegacy(NatFor(s, i, c), i)
  {
    hide Carries, Bare, NoLegacy, With, Cleaned;
    WithCarries(s, i, FilterRules(i, c));
    WithCarries(s, i, NatRules(i, c));
    CleanedIsBare(s, i);
  }

  /** The instance has rules in one of the two tables. */
  predicate StandsIn(filterTable: State, natTable: State, i: Instance) {
    Stands(filterTable, i) || Stands(natTable, i)
  }

  /** What a cleanup does to whether rules stand: never more than before, and none after a success. */
  predicate CleanupLeaves(before: bool, outcome: Outcome, after: bool) {
    (after ==> before) && (outcome == Done ==> !after)
  }

  /** What a reconciliation does to it: after a success they stand exactly if they are required. */
  predicate ReconcileLeaves(required: bool, before: bool, outcome: Outcome, after: bool) {
    if outcome == Done then after == required else required || (after ==> before)
  }

  /** The errors of two removals as one. */
  function Join(a: Outcome, b: Outcome): Outcome {
    if a == Crashed || b == Crashed then Crashed
    else if a == Failed || b == Failed then Failed
    else if a == Done then b else a
  }

  /** Removes what the instance owns in both tables, going on past errors. */
  method Cleanup(filterTable: Table, natTable: Table, i: Instance, env: Environment) returns (outcome: Outcome)
    requires filterTable != natTable && WellFormed(filterTable.Now()) && WellFormed(natTable.Now())
    modifies filterTable, natTable, env
    ensures WellFormed(filterTable.Now()) && WellFormed(natTable.Now())
    ensures outcome == Done ==>
            filterTable.Now() == Cleaned(old(filterTable.Now()), i) && Cleanable(old(filterTable.Now()), i)
    ensures outcome == Done ==> natTable.Now() == Cleaned(old(natTable.Now()), i) && Cleanable(old(natTable.Now()), i)
    ensures outcome == Done ==> Bare(filterTable.Now(), i) && NoLegacy(filterTable.Now(), i)
    ensures outcome == Done ==> Bare(natTable.Now(), i) && NoLegacy(natTable.Now(), i)
    ensures outcome == Refused ==> !Cleanable(old(filterTable.Now()), i) || !Cleanable(old(natTable.Now()), i)
    ensures Foreign(filterTable.Now(), i) == Foreign(old(filterTable.Now()), i) &&
            Foreign(natTable.Now(), i) == Foreign(old(natTable.Now()), i)
    ensures Spares(old(filterTable.Now()), filterTable.Now(), i) && Spares(old(natTable.Now()), natTable.Now(), i)
    ensures Sound(old(filterTable.Now()), i) ==> Repeatable(filterTable.Now(), i)
    ensures Sound(old(natTable.Now()), i) ==> Repeatable(natTable.Now(), i)
    ensures outcome == Refused && Sound(old(filterTable.Now()), i) && Sound(old(natTable.Now()), i) ==>
              !Recognized(filterTable.Now(), i) || !Recognized(natTable.Now(), i)
    ensures CleanupLeaves(old(StandsIn(filterTable.Now(), natTable.Now(), i)), outcome,
                          StandsIn(filterTable.Now(), natTable.Now(), i))
    ensures env.trouble + (if outcome == Failed || outcome == Crashed then 1 else 0) <= old(env.trouble)
  {
    hide WellFormed, Removal, Cleaned, Cleanable, Foreign, Spares, Sound, Stands, Repeatable, Recognized, Bare,
      NoLegacy;
    ghost var nat0, filter0 := natTable.Now(), filterTable.Now();
    CleanedIsBare(nat0, i);
    CleanedIsBare(filter0, i);
    var natOwn, filterOwn, natLegacy, filterLegacy := Crashed, Crashed, Crashed, Crashed;
    NoRemoval(nat0, i, Own(i));
    NoRemoval(filter0, i, Own(i));
    natOwn := natTable.RemoveChain(i, Own(i), env);
    ghost var nat1 := natTable.Now();
    if natOwn != Crashed {
      filterOwn := filterTable.RemoveChain(i, Own(i), env);
    }
    ghost var filter1 := filterTable.Now();
    NoRemoval(nat1, i, Legacy(Prefix(i)));
    NoRemoval(filter1, i, Legacy(Prefix(i)));
    if filterOwn != Crashed {
      natLegacy := natTable.RemoveChain(i, Legacy(Prefix(i)), env);
    }
    if natLegacy != Crashed {
      filterLegacy := filterTable.RemoveChain(i, Legacy(Prefix(i)), env);
    }
    TwoRemovals(nat0, nat1, natTable.Now(), i, natOwn, natLegacy);
    TwoRemovals(filter0, filter1, filterTable.Now(), i, filterOwn, filterLegacy);
    outcome := Join(Join(natOwn, filterOwn), Join(natLegacy, filterLegacy));
    SoundIsRepeatable(filterTable.Now(), i);
    SoundIsRepeatable(natTable.Now(), i);
  }

  /** The chain under the older name is somebody else's, and keeps its rules. */
  ghost predicate SparesLegacy(s: State, s': State, i: Instance) {
    var chain := Legacy(Prefix(i));
    chain in s.chains && !Owned(s, i, chain) ==> chain in s'.chains && s'.chains[chain] == s.chains[chain]
  }

  lemma CleanableOwned(s: State, i: Instance)
    requires Cleanable(s, i)
    ensures Legacy(Prefix(i)) in s.chains ==> Owned(s, i, Legacy(Prefix(i)))
  {
    if Legacy(Prefix(i)) in s.chains && !Owned(s, i, Legacy(Prefix(i))) {
      UnownedBlocks(s, i);
    }
  }

  /** The part of Reconcile that an error makes it clean up after. */
  method Construct(filterTable: Table, natTable: Table, i: Instance, c: Config, env: Environment)
      returns (outcome: Outcome)
    requires filterTable != natTable && WellFormed(filterTable.Now()) && WellFormed(natTable.Now()) && Required(c)
    requires Own(i) !in filterTable.chains && Own(i) !in natTable.chains
    modifies filterTable, natTable, env
    ensures WellFormed(filterTable.Now()) && WellFormed(natTable.Now())
    ensures Foreign(filterTable.Now(), i) == Foreign(old(filterTable.Now()), i) &&
            Foreign(natTable.Now(), i) == Foreign(old(natTable.Now()), i)
    ensures Sound(old(filterTable.Now()), i) ==> Sound(filterTable.Now(), i)
    ensures Sound(old(natTable.Now()), i) ==> Sound(natTable.Now(), i)
    ensures outcome == Done ==> filterTable.Now() == With(old(filterTable.Now()), i, FilterRules(i, c))
    ensures outcome == Done ==>
            natTable.Now() == if c.natEnabled then With(old(natTable.Now()), i, NatRules(i, c)) else old(natTable.Now())
    ensures outcome != Refused && env.trouble == old(env.trouble) - (if outcome == Done then 0 else 1)
  {
    hide WellFormed, Foreign, Sound;
    // forwarding and the egress interface
    outcome := env.Step();
    if outcome != Done {
      return;
    }
    outcome := filterTable.Build(i, FilterRules(i, c), env);
    if outcome != Done || !c.natEnabled {
      return;
    }
    outcome := natTable.Build(i, NatRules(i, c), env);
  }

  /**
   Brings both tables to what the configuration asks for. On every run, whatever fails, the rules
   and chains of others stay as they are; without faults it succeeds exactly if the instance can
   remove what carries its names.
   */
  method Reconcile(filterTable: Table, natTable: Table, i: Instance, c: Config, env: Environment)
      returns (outcome: Outcome)
    requires filterTable != natTable && WellFormed(filterTable.Now()) && WellFormed(natTable.Now())
    modifies filterTable, natTable, env
    ensures WellFormed(filterTable.Now()) && WellFormed(natTable.Now())
    ensures Foreign(filterTable.Now(), i) == Foreign(old(filterTable.Now()), i) &&
            Foreign(natTable.Now(), i) == Foreign(old(natTable.Now()), i)
    ensures outcome == Done ==>
            filterTable.Now() == FilterFor(old(filterTable.Now()), i, c) &&
            natTable.Now() == NatFor(old(natTable.Now()), i, c)
    ensures outcome == Done ==>
            if c.natEnabled || c.redirectGateway || c.routes > 0
            then Carries(filterTable.Now(), i, [Egress(i, c.network, c.out), Reply(i, c.network, c.out)])
            else Bare(filterTable.Now(), i)
    ensures outcome == Done ==>
            if c.natEnabled then Carries(natTable.Now(), i, [Masquerade(i, c.network, c.out)])
            else Bare(natTable.Now(), i)
    ensures outcome == Done ==> NoLegacy(filterTable.Now(), i) && NoLegacy(natTable.Now(), i)
    ensures outcome == Done ==> Cleanable(old(filterTable.Now()), i) && Cleanable(old(natTable.Now()), i)
    ensures outcome == Refused ==> !Cleanable(old(filterTable.Now()), i) || !Cleanable(old(natTable.Now()), i)
    ensures SparesLegacy(old(filterTable.Now()), filterTable.Now(), i) &&
            SparesLegacy(old(natTable.Now()), natTable.Now(), i)
    ensures Sound(old(filterTable.Now()), i) ==> Repeatable(filterTable.Now(), i)
    ensures Sound(old(natTable.Now()), i) ==> Repeatable(natTable.Now(), i)
    ensures outcome == Refused && Sound(old(filterTable.Now()), i) && Sound(old(natTable.Now()), i) ==>
              !Recognized(filterTable.Now(), i) || !Recognized(natTable.Now(), i)
    ensures ReconcileLeaves(Required(c), old(StandsIn(filterTable.Now(), natTable.Now(), i)), outcome,
                            StandsIn(filterTable.Now(), natTable.Now(), i))
    ensures outcome == Failed || outcome == Crashed ==> env.trouble < old(env.trouble)
    ensures env.trouble <= old(env.trouble)
  {
    hide WellFormed, Foreign, Cleanable, Sound, Recognized, Carries, Bare, NoLegacy;
    RulesFor(filterTable.Now(), i, c);
    RulesFor(natTable.Now(), i, c);
    outcome := Cleanup(filterTable, natTable, i, env);
    if outcome == Done {
      CleanableOwned(old(filterTable.Now()), i);
      CleanableOwned(old(natTable.Now()), i);
    }
    if outcome != Done || !Required(c) {
      return;
    }
    outcome := Construct(filterTable, natTable, i, c, env);
    SoundIsRepeatable(filterTable.Now(), i);
    SoundIsRepeatable(natTable.Now(), i);
    if outcome == Failed {
      var cleanup := Cleanup(filterTable, natTable, i, env);
      if cleanup == Crashed {
        outcome := Crashed;
      }
    }
  }

  // ------------------------------------------------------------------
  // Reconciling again, and cleaning up after
  // ------------------------------------------------------------------

  lemma CleanedWellFormed(s: State, i: Instance)
    requires WellFormed(s) && Cleanable(s, i)
    ensures WellFormed(Cleaned(s, i))
  {
    hide WellFormed, Removable;
    RemovedWellFormed(s, i, Own(i));
    RemovedWellFormed(Removed(s, i, Own(i)), i, Legacy(Prefix(i)));
  }

  lemma RemovedWellFormed(s: State, i: Instance, chain: ChainName)
    requires WellFormed(s) && Removable(s, i, chain)
    ensures WellFormed(Removed(s, i, chain))
  {
    if chain in s.chains {
      var emptied := State(Without(s.parent, Jump(i, chain)), s.chains[chain := []]);
      WithoutFewer(s.parent, Jump(i, chain));
      FewerRules(s, emptied);
      FewerChains(emptied, chain);
      assert emptied.chains - {chain} == s.chains - {chain};
    } else {
      AbsentChain(s, i, chain);
    }
  }

  lemma {:induction false} WithoutFewer(rules: seq<Rule>, rule: Rule)
    ensures forall r :: r in Without(rules, rule) ==> r in rules
  {
    if rules != [] {
      WithoutFewer(rules[1..], rule);
    }
  }

  /** What an instance builds it can remove again, and nothing else goes with it. */
  lemma WithIsRemovable(s: State, i: Instance, rules: seq<Rule>)
    requires WellFormed(s) && Own(i) !in s.chains
    ensures Removable(With(s, i, rules), i, Own(i)) && Removed(With(s, i, rules), i, Own(i)) == s
  {
    var w := With(s, i, rules);
    var jump := Jump(i, Own(i));
    JumpCount(s, i);
    WithoutAbsent(s.parent, jump);
    WithoutAppend(s.parent, jump, jump);
    assert Without(w.parent, jump) == s.parent + [] == s.parent;
    assert Owner(i) in w.chains[Own(i)];
    assert Owned(w, i, Own(i));
    var emptied := State(s.parent, w.chains[Own(i) := []]);
    assert !Referenced(s, Own(i));
    assert !Referenced(emptied, Own(i)) by {
      forall c | c in emptied.chains ensures forall r :: r in emptied.chains[c] ==> Own(i) !in Targets(r) {
        if c != Own(i) {
          assert emptied.chains[c] == s.chains[c];
        }
      }
    }
    assert w.chains - {Own(i)} == s.chains;
  }

  /** After a reconciliation nothing is left of the instance but what it built, and all of that can be cleaned off. */
  lemma WithCleans(s: State, i: Instance, rules: seq<Rule>)
    requires WellFormed(s) && Cleanable(s, i)
    ensures var w := With(Cleaned(s, i), i, rules); Cleanable(w, i) && Cleaned(w, i) == Cleaned(s, i)
  {
    hide WellFormed, Removable;
    CleanedWellFormed(s, i);
    WithIsRemovable(Cleaned(s, i), i, rules);
    CleanedTwice(s, i);
  }

  lemma CleanedTwice(s: State, i: Instance)
    requires WellFormed(s) && Cleanable(s, i)
    ensures Cleaned(Cleaned(s, i), i) == Cleaned(s, i) && Cleanable(Cleaned(s, i), i)
    ensures Removable(Cleaned(s, i), i, Legacy(Prefix(i))) &&
            Removed(Cleaned(s, i), i, Legacy(Prefix(i))) == Cleaned(s, i)
  {
    CleanedWellFormed(s, i);
    var c := Cleaned(s, i);
    hide WellFormed;
    AbsentChain(c, i, Own(i));
    AbsentChain(c, i, Legacy(Prefix(i)));
  }

  /** Reconciling is idempotent, also across configurations: only the last one counts. */
  lemma ReconcileIdempotent(filterTable: State, natTable: State, i: Instance, before: Config, c: Config)
    requires WellFormed(filterTable) && WellFormed(natTable) && Cleanable(filterTable, i) && Cleanable(natTable, i)
    ensures Cleanable(FilterFor(filterTable, i, before), i) && Cleanable(NatFor(natTable, i, before), i)
    ensures FilterFor(FilterFor(filterTable, i, before), i, c) == FilterFor(filterTable, i, c)
    ensures NatFor(NatFor(natTable, i, before), i, c) == NatFor(natTable, i, c)
  {
    hide WellFormed, Cleanable, Cleaned;
    WithCleans(filterTable, i, FilterRules(i, before));
    WithCleans(natTable, i, NatRules(i, before));
    CleanedTwice(filterTable, i);
    CleanedTwice(natTable, i);
  }

  /** Cleanup after Reconcile takes away exactly what was added, for an instance that had nothing there. */
  lemma CleanupUndoes(filterTable: State, natTable: State, i: Instance, c: Config)
    requires WellFormed(filterTable) && WellFormed(natTable) && Cleanable(filterTable, i) && Cleanable(natTable, i)
    requires Cleaned(filterTable, i) == filterTable && Cleaned(natTable, i) == natTable
    ensures Cleaned(FilterFor(filterTable, i, c), i) == filterTable && Cleaned(NatFor(natTable, i, c), i) == natTable
  {
    hide WellFormed, Cleanable, Cleaned;
    WithCleans(filterTable, i, FilterRules(i, c));
    WithCleans(natTable, i, NatRules(i, c));
  }

  /** What is left of a table without the instance depends only on what belongs to others. */
  lemma CleanedIsForeign(s: State, before: State, i: Instance)
    ensures Foreign(s, i) == Foreign(before, i) ==> Cleaned(s, i) == Cleaned(before, i)
  {
    var own, legacy := Own(i), Legacy(Prefix(i));
    assert s.chains - {own} - {legacy} == s.chains - {own, legacy};
    assert before.chains - {own} - {legacy} == before.chains - {own, legacy};
  }

  /**
   A reconciliation that is repeated for as long as it fails or is killed. From tables the instance can
   clean it ends as configured, as if nothing had failed, or for ever refused, and then exactly
   because it does not recognize one of its chains any more.
   */
  method ReconcileThroughFaults(filterTable: Table, natTable: Table, i: Instance, c: Config, env: Environment)
      returns (outcome: Outcome)
    requires filterTable != natTable && WellFormed(filterTable.Now()) && WellFormed(natTable.Now())
    requires Cleanable(filterTable.Now(), i) && Cleanable(natTable.Now(), i)
    modifies filterTable, natTable, env
    ensures outcome == Done || outcome == Refused
    ensures outcome == Done ==>
            filterTable.Now() == FilterFor(old(filterTable.Now()), i, c) &&
            natTable.Now() == NatFor(old(natTable.Now()), i, c)
    ensures outcome == Refused <==> !Recognized(filterTable.Now(), i) || !Recognized(natTable.Now(), i)
    ensures Foreign(filterTable.Now(), i) == Foreign(old(filterTable.Now()), i) &&
            Foreign(natTable.Now(), i) == Foreign(old(natTable.Now()), i)
  {
    hide WellFormed, Foreign, Cleanable, Cleaned, Sound, Recognized, With;
    ghost var filter0, nat0 := filterTable.Now(), natTable.Now();
    SoundIsRepeatable(filter0, i);
    SoundIsRepeatable(nat0, i);
    outcome := Reconcile(filterTable, natTable, i, c, env);
    while outcome == Failed || outcome == Crashed
      invariant WellFormed(filterTable.Now()) && WellFormed(natTable.Now())
      invariant Foreign(filterTable.Now(), i) == Foreign(filter0, i) && Foreign(natTable.Now(), i) == Foreign(nat0, i)
      invariant Sound(filterTable.Now(), i) && Sound(natTable.Now(), i)
      invariant outcome == Done ==>
                filterTable.Now() == FilterFor(filter0, i, c) && natTable.Now() == NatFor(nat0, i, c)
      invariant outcome == Refused ==> !Recognized(filterTable.Now(), i) || !Recognized(natTable.Now(), i)
      decreases env.trouble, outcome == Failed || outcome == Crashed
    {
      CleanedIsForeign(filterTable.Now(), filter0, i);
      CleanedIsForeign(natTable.Now(), nat0, i);
      outcome := Reconcile(filterTable, natTable, i, c, env);
    }
    if outcome == Done {
      WithCleans(filter0, i, FilterRules(i, c));
      WithCleans(nat0, i, NatRules(i, c));
      CleanedTwice(filter0, i);
      CleanedTwice(nat0, i);
      CleanableExactly(filterTable.Now(), i);
      CleanableExactly(natTable.Now(), i);
    }
  }

  /** A chain under the instance's older name that it does not recognize makes every reconciliation refuse. */
  lemma UnownedBlocks(s: State, i: Instance)
    requires Legacy(Prefix(i)) in s.chains && !Owned(s, i, Legacy(Prefix(i)))
    ensures !Cleanable(s, i)
  {
    var removed := Removed(s, i, Own(i));
    WithoutFewer(s.parent, Jump(i, Own(i)));
    assert Legacy(Prefix(i)) in removed.chains && removed.chains[Legacy(Prefix(i))] == s.chains[Legacy(Prefix(i))];
    assert !Owned(removed, i, Legacy(Prefix(i)));
  }

  /**
   Between the command that makes the chain and the one that marks it, the chain is nobody's: an
   instance that is killed there, or whose next command fails, can neither reconcile nor clean up again.
   */
  lemma UnmarkedBlocks(s: State, i: Instance)
    requires WellFormed(s) && Own(i) !in s.chains
    ensures !Cleanable(s.(chains := s.chains[Own(i) := []]), i)
    ensures Cleanable(s, i) ==> Cleanable(With(s, i, []), i)
  {
    JumpCount(s, i);
    var made := s.(chains := s.chains[Own(i) := []]);
    assert !Owned(made, i, Own(i));
    WithIsRemovable(s, i, []);
    AbsentChain(s, i, Own(i));
  }

  /**
   Taking a chain down has such a window, too. Its jumps go first and its marker next, so that it is nobody's
   when it is to be deleted: an instance that is killed then, or whose last command fails, can neither
   reconcile nor clean up again, although nothing else is in the way.
   */
  lemma FlushedBlocks(s: State, i: Instance, chain: ChainName)
    requires Cleanable(s, i) && chain in s.chains && (chain == Own(i) || chain == Legacy(Prefix(i)))
    ensures var left := State(Without(s.parent, Jump(i, chain)), s.chains[chain := []]);
            Removal(s, left, i, chain, Failed) && Sound(left, i) && !Recognized(left, i) && !Cleanable(left, i)
  {
    var left := State(Without(s.parent, Jump(i, chain)), s.chains[chain := []]);
    WithoutAbsent(left.parent, Jump(i, chain));
    WithoutFewer(s.parent, Jump(i, chain));
    WithoutCount(s.parent, Jump(i, chain));
    assert left.chains - {chain} == s.chains - {chain};
    SoundIsRepeatable(s, i);
    CleanableExactly(s, i);
    assert Removal(s, left, i, chain, Failed);
    if chain == Own(i) {
      OwnRemovalKeepsSound(s, left, i, Failed);
    } else {
      LegacyRemovalKeepsSound(s, left, i, Failed);
    }
    assert !Owned(left, i, chain);
    CleanableExactly(left, i);
  }

  /** Two instances whose ids share the prefix: the older chain of one keeps the other from ever reconciling. */
  lemma SharedPrefixBlocks(i: Instance, other: Instance)
    requires i != other && Prefix(i) == Prefix(other)
    ensures var s := State([Jump(other, Legacy(Prefix(other)))], map[Legacy(Prefix(other)) := [Owner(other)]]);
            Cleanable(s, other) && !Cleanable(s, i)
  {
    var chain := Legacy(Prefix(other));
    var s := State([Jump(other, chain)], map[chain := [Owner(other)]]);
    UnownedBlocks(s, i);
    WithoutAbsent(s.parent, Jump(other, Own(other)));
    var removed := Removed(s, other, Own(other));
    assert removed.chains == s.chains;
    assert Without(removed.parent, Jump(other, chain)) == [];
    assert removed.chains[chain := []][chain] == [];
  }
}
