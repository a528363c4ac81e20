/**
 * Group reconciliation of the inventory plugin: `check_groups` decides
 * whether the groups stored on a stack instance still fit the group rules of
 * a service, and `create_groups` partitions the service's hosts into new
 * groups, consuming the caller's host list from the front.
 *
 * A group rule names tags and a count of hosts; the stored groups map each
 * tag to a list of entries `{host, target}`.
 */
module Groups {
  import opened Wrappers
  import opened Dicts

  datatype GroupRule = GroupRule(tags: seq<string>, count: nat)

  /** One member of a group: `{"host": ..., "target": ...}`. */
  datatype Entry = Entry(host: string, target: string)

  type Groups = Dict<seq<Entry>>

  function Min(a: nat, b: nat): nat {
    if a <= b then a else b
  }

  // ---------------------------------------------------------------- demand

  /** Some rule lists `tag` among its tags. */
  predicate Mentioned(rules: seq<GroupRule>, tag: string)
    decreases |rules|
  {
    rules != [] && (tag in rules[0].tags || Mentioned(rules[1..], tag))
  }

  /** The hosts `tag` asks for per host of the service: every rule's count, once per listing of `tag`. */
  function Demand(rules: seq<GroupRule>, tag: string): nat
    decreases |rules|
  {
    if rules == [] then 0
    else rules[0].count * multiset(rules[0].tags)[tag] + Demand(rules[1..], tag)
  }

  lemma {:induction false} MentionedSpec(rules: seq<GroupRule>, tag: string)
    ensures Mentioned(rules, tag) <==> exists i :: 0 <= i < |rules| && tag in rules[i].tags
  {
    if rules != [] {
      MentionedSpec(rules[1..], tag);
      if Mentioned(rules[1..], tag) {
        var i :| 0 <= i < |rules| - 1 && tag in rules[1..][i].tags;
        assert tag in rules[i + 1].tags;
      }
      if exists i :: 0 <= i < |rules| && tag in rules[i].tags {
        var i :| 0 <= i < |rules| && tag in rules[i].tags;
        if i > 0 { assert tag in rules[1..][i - 1].tags; }
      }
    }
  }

  lemma {:induction false} MentionedSnoc(rules: seq<GroupRule>, r: GroupRule, tag: string)
    ensures Mentioned(rules + [r], tag) <==> Mentioned(rules, tag) || tag in r.tags
  {
    if rules != [] {
      assert (rules + [r])[1..] == rules[1..] + [r];
      MentionedSnoc(rules[1..], r, tag);
    } else {
      assert ([r])[1..] == [];
    }
  }

  lemma {:induction false} DemandSnoc(rules: seq<GroupRule>, r: GroupRule, tag: string)
    ensures Demand(rules + [r], tag) == Demand(rules, tag) + r.count * multiset(r.tags)[tag]
  {
    if rules != [] {
      assert (rules + [r])[1..] == rules[1..] + [r];
      DemandSnoc(rules[1..], r, tag);
    } else {
      assert ([r])[1..] == [];
    }
  }

  /** A tag no rule names asks for no hosts. */
  lemma {:induction false} DemandUnmentioned(rules: seq<GroupRule>, tag: string)
    requires !Mentioned(rules, tag)
    ensures Demand(rules, tag) == 0
  {
    if rules != [] {
      DemandUnmentioned(rules[1..], tag);
      assert multiset(rules[0].tags)[tag] == 0;
    }
  }

  /**
   * The groups fit the rules for `hostCount` hosts: every tag some rule
   * names is present and holds exactly its demand times `hostCount`
   * entries. Tags no rule names are not looked at.
   */
  ghost predicate GroupsValid(groups: Groups, rules: seq<GroupRule>, hostCount: nat) {
    forall tag :: Mentioned(rules, tag) ==>
      tag in Keys(groups) && |ListAt(groups, tag)| == Demand(rules, tag) * hostCount
  }

  /** With no rules every stored assignment is accepted. */
  lemma NoRulesValid(groups: Groups, hostCount: nat)
    ensures GroupsValid(groups, [], hostCount)
  {
  }

  /** A tag no rule names can be bound to anything without changing the verdict. */
  lemma ValidIgnoresOtherTags(groups: Groups, rules: seq<GroupRule>, hostCount: nat, tag: string, entries: seq<Entry>)
    requires !Mentioned(rules, tag)
    ensures GroupsValid(Put(groups, tag, entries), rules, hostCount) <==> GroupsValid(groups, rules, hostCount)
  {
    forall t | t != tag
      ensures t in Keys(Put(groups, tag, entries)) <==> t in Keys(groups)
    {
      GetSome(Put(groups, tag, entries), t);
      GetSome(groups, t);
    }
  }

  lemma MulSucc(c: int, m: int)
    ensures c * (m + 1) == c * m + c
  {
  }

  /**
   * A count in a `defaultdict(int)` after `n` more additions of `count`:
   * the key appears with the first addition.
   */
  function Tallied(before: Option<int>, count: nat, n: nat): Option<int> {
    if before.None? && n == 0 then None else Some(before.GetOr(0) + count * n)
  }

  /** One addition to the count of `tag`, as seen from the count of `t`. */
  lemma TallyAt(r: Dict<int>, counts: Dict<int>, tags: seq<string>, tag: string, count: nat, t: string)
    requires Get(r, t) == Tallied(Get(counts, t), count, multiset(tags)[t])
    requires Get(r, tag) == Tallied(Get(counts, tag), count, multiset(tags)[tag])
    ensures Get(Put(r, tag, Get(r, tag).GetOr(0) + count), t)
         == Tallied(Get(counts, t), count, multiset(tags + [tag])[t])
  {
    var m := multiset(tags)[t];
    if t != tag {
      assert multiset(tags + [tag])[t] == m;
    } else {
      assert multiset(tags + [tag])[t] == m + 1;
      MulSucc(count, m);
    }
  }

  /** One pass of the loop of `AddCounts`. */
  lemma TallyStep(r: Dict<int>, counts: Dict<int>, tags: seq<string>, tag: string, count: nat)
    requires forall t :: Get(r, t) == Tallied(Get(counts, t), count, multiset(tags)[t])
    ensures forall t :: Get(Put(r, tag, Get(r, tag).GetOr(0) + count), t)
                     == Tallied(Get(counts, t), count, multiset(tags + [tag])[t])
  {
    forall t
      ensures Get(Put(r, tag, Get(r, tag).GetOr(0) + count), t)
           == Tallied(Get(counts, t), count, multiset(tags + [tag])[t])
    {
      TallyAt(r, counts, tags, tag, count, t);
    }
  }

  /** The pass of the loop of `AddCounts` over the tag at position `j`. */
  lemma TallyNext(r: Dict<int>, counts: Dict<int>, tags: seq<string>, j: nat, count: nat)
    requires j < |tags|
    requires forall t :: Get(r, t) == Tallied(Get(counts, t), count, multiset(tags[..j])[t])
    ensures forall t :: Get(Put(r, tags[j], Get(r, tags[j]).GetOr(0) + count), t)
                     == Tallied(Get(counts, t), count, multiset(tags[..j + 1])[t])
  {
    assert tags[..j + 1] == tags[..j] + [tags[j]];
    TallyStep(r, counts, tags[..j], tags[j], count);
  }

  /** `count_group_dict[tag] += count` for every tag of one rule. */
  method AddCounts(counts: Dict<int>, tags: seq<string>, count: nat) returns (r: Dict<int>)
    requires UniqueKeys(counts)
    ensures UniqueKeys(r)
    ensures forall t :: Get(r, t) == Tallied(Get(counts, t), count, multiset(tags)[t])
  {
    r := counts;
    var j := 0;
    while j < |tags|
      invariant 0 <= j <= |tags|
      invariant UniqueKeys(r)
      invariant forall t :: Get(r, t) == Tallied(Get(counts, t), count, multiset(tags[..j])[t])
    {
      TallyNext(r, counts, tags, j, count);
      PutKeepsUniqueKeys(r, tags[j], Get(r, tags[j]).GetOr(0) + count);
      r := Put(r, tags[j], Get(r, tags[j]).GetOr(0) + count);
      j := j + 1;
    }
    assert tags[..j] == tags;
  }

  /** The first loop of `check_groups`: the demand of every tag some rule names, in a dictionary. */
  method CountDemand(rules: seq<GroupRule>) returns (counts: Dict<int>)
    ensures UniqueKeys(counts)
    ensures forall tag :: Get(counts, tag) == if Mentioned(rules, tag) then Some(Demand(rules, tag) as int) else None
  {
    counts := [];
    var i := 0;
    while i < |rules|
      invariant 0 <= i <= |rules|
      invariant UniqueKeys(counts)
      invariant forall tag :: Get(counts, tag) == if Mentioned(rules[..i], tag) then Some(Demand(rules[..i], tag) as int) else None
    {
      var rule := rules[i];
      assert rules[..i + 1] == rules[..i] + [rule];
      ghost var before := counts;
      counts := AddCounts(counts, rule.tags, rule.count);
      forall tag
        ensures Get(counts, tag) == if Mentioned(rules[..i + 1], tag) then Some(Demand(rules[..i + 1], tag) as int) else None
      {
        MentionedSnoc(rules[..i], rule, tag);
        DemandSnoc(rules[..i], rule, tag);
        var n := multiset(rule.tags)[tag];
        assert Get(counts, tag) == Tallied(Get(before, tag), rule.count, n);
        assert tag in rule.tags <==> n > 0;
        if Mentioned(rules[..i], tag) {
          assert Get(before, tag) == Some(Demand(rules[..i], tag) as int);
        } else {
          assert Get(before, tag) == None;
          DemandUnmentioned(rules[..i], tag);
        }
      }
      i := i + 1;
    }
    assert rules[..i] == rules;
  }

  /**
   * `check_groups`: adds up the demand of every tag in a dictionary of
   * counts, then compares each counted tag with the stored groups.
   */
  method CheckGroups(groups: Groups, rules: seq<GroupRule>, hosts: seq<string>) returns (ok: bool)
    ensures ok <==> GroupsValid(groups, rules, |hosts|)
  {
    var counts := CountDemand(rules);
    var targetCount := |hosts|;
    var k := 0;
    while k < |counts|
      invariant 0 <= k <= |counts|
      invariant forall m :: 0 <= m < k ==>
        counts[m].0 in Keys(groups) && |ListAt(groups, counts[m].0)| == counts[m].1 * targetCount
    {
      var (tag, count) := counts[k];
      if !(tag in Keys(groups)) || |ListAt(groups, tag)| != count * targetCount {
        GetAt(counts, k);
        assert Keys(counts)[k] == tag;
        return false;
      }
      k := k + 1;
    }
    forall tag | Mentioned(rules, tag)
      ensures tag in Keys(groups) && |ListAt(groups, tag)| == Demand(rules, tag) * targetCount
    {
      GetSome(counts, tag);
      var m :| 0 <= m < |counts| && Keys(counts)[m] == tag;
      GetAt(counts, m);
    }
    return true;
  }

  // ---------------------------------------------------------------- partition

  /** The mutable host list `create_groups` consumes. */
  class HostPool {
    var hosts: seq<string>

    constructor (hosts: seq<string>)
      ensures this.hosts == hosts
    {
      this.hosts := hosts;
    }
  }

  function Entries(hosts: seq<string>, target: string): (es: seq<Entry>)
    ensures |es| == |hosts|
    ensures forall k :: 0 <= k < |hosts| ==> es[k] == Entry(hosts[k], target)
  {
    seq(|hosts|, k requires 0 <= k < |hosts| => Entry(hosts[k], target))
  }

  /** `groups[tag].append(...)` for every entry, on a `defaultdict(list)`: no entry, no key. */
  function Append(groups: Groups, tag: string, entries: seq<Entry>): Groups {
    if entries == [] then groups else Put(groups, tag, ListAt(groups, tag) + entries)
  }

  /** The same entries appended under every tag of a rule, in order. */
  function AddTags(groups: Groups, tags: seq<string>, entries: seq<Entry>): Groups
    decreases |tags|
  {
    if tags == [] then groups else AddTags(Append(groups, tags[0], entries), tags[1..], entries)
  }

  /** How `create_groups` ends: `exit(1)`, or the groups; either way with what is left of the host list. */
  datatype Allotment = Exit(pool: seq<string>) | Done(groups: Groups, pool: seq<string>)

  /**
   * The rules applied in order: every tag of a rule receives the first
   * `count` hosts of the pool, then those hosts are deleted from the pool
   * once. A rule with tags that asks for more hosts than are left exits; a
   * rule without tags deletes what it can.
   */
  function Allot(groups: Groups, pool: seq<string>, rules: seq<GroupRule>, target: string): Allotment
    decreases |rules|
  {
    if rules == [] then Done(groups, pool)
    else
      var r := rules[0];
      if r.tags != [] && r.count > |pool| then Exit(pool)
      else
        var n := Min(r.count, |pool|);
        Allot(AddTags(groups, r.tags, Entries(pool[..n], target)), pool[n..], rules[1..], target)
  }

  function Partition(pool: seq<string>, rules: seq<GroupRule>, target: string): Allotment {
    Allot([], pool, rules, target)
  }

  lemma AppendOne(groups: Groups, tag: string, entries: seq<Entry>, e: Entry)
    ensures Put(Append(groups, tag, entries), tag, ListAt(Append(groups, tag, entries), tag) + [e])
         == Append(groups, tag, entries + [e])
  {
    if entries == [] {
      assert entries + [e] == [e];
    } else {
      PutPut(groups, tag, ListAt(groups, tag) + entries, ListAt(groups, tag) + entries + [e]);
      assert ListAt(groups, tag) + entries + [e] == ListAt(groups, tag) + (entries + [e]);
    }
  }

  /**
   * The innermost loop of `create_groups`: the first `count` hosts appended
   * under `tag` one at a time, or `exit(1)` at the first missing host.
   */
  method AppendHosts(groups: Groups, tag: string, hosts: seq<string>, count: nat, target: string)
    returns (exit: bool, r: Groups)
    ensures exit <==> count > |hosts|
    ensures !exit ==> r == Append(groups, tag, Entries(hosts[..count], target))
  {
    r := groups;
    var index := 0;
    while index < count
      invariant 0 <= index <= count && index <= |hosts|
      invariant r == Append(groups, tag, Entries(hosts[..index], target))
    {
      if index >= |hosts| {
        // `hosts[index]` raises IndexError and the handler calls `exit(1)`
        return true, r;
      }
      AppendOne(groups, tag, Entries(hosts[..index], target), Entry(hosts[index], target));
      assert Entries(hosts[..index], target) + [Entry(hosts[index], target)] == Entries(hosts[..index + 1], target);
      r := Put(r, tag, ListAt(r, tag) + [Entry(hosts[index], target)]);
      index := index + 1;
    }
    return false, r;
  }

  /**
   * `create_groups`: appends one entry at a time under each tag, exits when
   * the pool runs out, and deletes each rule's hosts from the front of the
   * pool.
   */
  method CreateGroups(pool: HostPool, rules: seq<GroupRule>, target: string) returns (r: Option<Groups>)
    modifies pool
    ensures var a := Partition(old(pool.hosts), rules, target);
      pool.hosts == a.pool
      && (a.Exit? ==> r == None)
      && (a.Done? ==> r == Some(a.groups))
  {
    var groups: Groups := [];
    var i := 0;
    while i < |rules|
      invariant 0 <= i <= |rules|
      invariant Partition(old(pool.hosts), rules, target) == Allot(groups, pool.hosts, rules[i..], target)
    {
      var rule := rules[i];
      var hosts := pool.hosts;
      assert rules[i..][0] == rule && rules[i..][1..] == rules[i + 1..];
      ghost var fails := rule.tags != [] && rule.count > |hosts|;
      ghost var entries := Entries(hosts[..Min(rule.count, |hosts|)], target);
      var j := 0;
      while j < |rule.tags|
        invariant 0 <= j <= |rule.tags|
        invariant pool.hosts == hosts
        invariant fails ==> j == 0 && Partition(old(pool.hosts), rules, target) == Exit(hosts)
        invariant !fails ==>
          Partition(old(pool.hosts), rules, target)
          == Allot(AddTags(groups, rule.tags[j..], entries), hosts[Min(rule.count, |hosts|)..], rules[i + 1..], target)
      {
        var tag := rule.tags[j];
        var exit;
        exit, groups := AppendHosts(groups, tag, hosts, rule.count, target);
        if exit {
          return None;
        }
        assert rule.tags[j..][0] == tag && rule.tags[j..][1..] == rule.tags[j + 1..];
        j := j + 1;
      }
      pool.hosts := hosts[Min(rule.count, |hosts|)..];
      i := i + 1;
    }
    return Some(groups);
  }

  // ---------------------------------------------------------------- what a partition holds

  /** `n` copies of `es`, one after the other. */
  function Repeat(es: seq<Entry>, n: nat): (r: seq<Entry>)
  {
    if n == 0 then [] else es + Repeat(es, n - 1)
  }

  lemma {:induction false} RepeatLength(es: seq<Entry>, n: nat)
    ensures |Repeat(es, n)| == n * |es|
    ensures Repeat(es, n) == [] <==> es == [] || n == 0
  {
    if n > 0 {
      RepeatLength(es, n - 1);
      MulSucc(|es|, n - 1);
    }
  }

  /** The total count of a list of rules. */
  function Total(rules: seq<GroupRule>): nat
    decreases |rules|
  {
    if rules == [] then 0 else rules[0].count + Total(rules[1..])
  }

  /**
   * The entries a tag ends up with, rule by rule, described without
   * dictionaries: each rule contributes its slice of the pool once for
   * every time it lists the tag, and moves the pool past its count.
   */
  function Expected(pool: seq<string>, rules: seq<GroupRule>, target: string, tag: string): seq<Entry>
    decreases |rules|
  {
    if rules == [] then []
    else
      var n := Min(rules[0].count, |pool|);
      Repeat(Entries(pool[..n], target), multiset(rules[0].tags)[tag])
        + Expected(pool[n..], rules[1..], target, tag)
  }

  lemma AppendListAt(groups: Groups, t: string, entries: seq<Entry>, tag: string)
    ensures ListAt(Append(groups, t, entries), tag) == ListAt(groups, tag) + (if t == tag then entries else [])
    ensures tag in Keys(Append(groups, t, entries)) <==> tag in Keys(groups) || (entries != [] && t == tag)
  {
    if entries != [] {
      PutKeys(groups, t, ListAt(groups, t) + entries);
    }
  }

  /** How often the head of a list counts towards a tag. */
  lemma MultisetHead(tags: seq<string>, tag: string)
    requires tags != []
    ensures multiset(tags)[tag] == multiset(tags[1..])[tag] + (if tags[0] == tag then 1 else 0)
  {
    assert tags == [tags[0]] + tags[1..];
  }

  lemma {:induction false} AddTagsListAt(groups: Groups, tags: seq<string>, entries: seq<Entry>, tag: string)
    ensures ListAt(AddTags(groups, tags, entries), tag) == ListAt(groups, tag) + Repeat(entries, multiset(tags)[tag])
    decreases |tags|
  {
    if tags == [] {
      assert ListAt(groups, tag) + [] == ListAt(groups, tag);
    } else {
      var g := Append(groups, tags[0], entries);
      AppendListAt(groups, tags[0], entries, tag);
      AddTagsListAt(g, tags[1..], entries, tag);
      MultisetHead(tags, tag);
      RepeatAfter(ListAt(groups, tag), entries, multiset(tags[1..])[tag], tags[0] == tag);
    }
  }

  /** Entries appended once more, then `m` times, are entries appended `m` or `m + 1` times. */
  lemma RepeatAfter(before: seq<Entry>, entries: seq<Entry>, m: nat, once: bool)
    ensures (before + (if once then entries else [])) + Repeat(entries, m)
         == before + Repeat(entries, m + (if once then 1 else 0))
  {
    if once {
      assert Repeat(entries, m + 1) == entries + Repeat(entries, m);
      assert (before + entries) + Repeat(entries, m) == before + (entries + Repeat(entries, m));
    } else {
      assert before + [] == before;
    }
  }

  lemma {:induction false} AddTagsKeys(groups: Groups, tags: seq<string>, entries: seq<Entry>, tag: string)
    ensures tag in Keys(AddTags(groups, tags, entries)) <==> tag in Keys(groups) || (entries != [] && tag in tags)
    decreases |tags|
  {
    if tags != [] {
      var g := Append(groups, tags[0], entries);
      AppendListAt(groups, tags[0], entries, tag);
      AddTagsKeys(g, tags[1..], entries, tag);
      assert tags == [tags[0]] + tags[1..];
    }
  }

  /** What a run of the rules adds under a tag. */
  lemma {:induction false} AllotListAt(groups: Groups, pool: seq<string>, rules: seq<GroupRule>, target: string, tag: string)
    requires Allot(groups, pool, rules, target).Done?
    ensures ListAt(Allot(groups, pool, rules, target).groups, tag) == ListAt(groups, tag) + Expected(pool, rules, target, tag)
    decreases |rules|
  {
    if rules == [] {
      assert ListAt(groups, tag) + [] == ListAt(groups, tag);
    } else {
      var n := Min(rules[0].count, |pool|);
      var es := Entries(pool[..n], target);
      var g := AddTags(groups, rules[0].tags, es);
      AllotFirst(groups, pool, rules, target, tag);
      AddTagsListAt(groups, rules[0].tags, es, tag);
      AllotListAt(g, pool[n..], rules[1..], target, tag);
      EntryAssoc(ListAt(groups, tag), Repeat(es, multiset(rules[0].tags)[tag]), Expected(pool[n..], rules[1..], target, tag));
    }
  }

  /** The first rule's step of a run of the rules, and of the entries it is expected to add. */
  lemma AllotFirst(groups: Groups, pool: seq<string>, rules: seq<GroupRule>, target: string, tag: string)
    requires rules != [] && Allot(groups, pool, rules, target).Done?
    ensures var n := Min(rules[0].count, |pool|);
      var es := Entries(pool[..n], target);
      && Allot(groups, pool, rules, target) == Allot(AddTags(groups, rules[0].tags, es), pool[n..], rules[1..], target)
      && Expected(pool, rules, target, tag) == Repeat(es, multiset(rules[0].tags)[tag]) + Expected(pool[n..], rules[1..], target, tag)
  {
  }

  lemma EntryAssoc(a: seq<Entry>, b: seq<Entry>, c: seq<Entry>)
    ensures (a + b) + c == a + (b + c)
  {
  }

  /** A run of the rules makes a tag a key exactly when it adds entries under it. */
  lemma {:induction false} AllotKeys(groups: Groups, pool: seq<string>, rules: seq<GroupRule>, target: string, tag: string)
    requires Allot(groups, pool, rules, target).Done?
    ensures tag in Keys(Allot(groups, pool, rules, target).groups)
        <==> tag in Keys(groups) || Expected(pool, rules, target, tag) != []
    decreases |rules|
  {
    if rules != [] {
      var r := rules[0];
      var n := Min(r.count, |pool|);
      var es := Entries(pool[..n], target);
      var g := AddTags(groups, r.tags, es);
      AddTagsListAt(groups, r.tags, es, tag);
      AddTagsKeys(groups, r.tags, es, tag);
      AllotKeys(g, pool[n..], rules[1..], target, tag);
      RepeatLength(es, multiset(r.tags)[tag]);
      assert tag in r.tags <==> multiset(r.tags)[tag] > 0;
    }
  }

  /** On success every tag receives exactly its demand. */
  lemma {:induction false} ExpectedLength(groups: Groups, pool: seq<string>, rules: seq<GroupRule>, target: string, tag: string)
    requires Allot(groups, pool, rules, target).Done?
    ensures |Expected(pool, rules, target, tag)| == Demand(rules, tag)
    decreases |rules|
  {
    if rules != [] {
      var r := rules[0];
      var n := Min(r.count, |pool|);
      var es := Entries(pool[..n], target);
      ExpectedLength(AddTags(groups, r.tags, es), pool[n..], rules[1..], target, tag);
      RepeatLength(es, multiset(r.tags)[tag]);
      if multiset(r.tags)[tag] > 0 {
        assert tag in r.tags;
        assert n == r.count;
      }
    }
  }

  /**
   * The partition, tag by tag: each tag holds the entries `Expected` gives,
   * as many as its demand, and it is a key exactly when that demand is
   * positive, so a rule with count 0 creates no key and no tag outside the
   * rules appears.
   */
  lemma PartitionContents(pool: seq<string>, rules: seq<GroupRule>, target: string, tag: string)
    requires Partition(pool, rules, target).Done?
    ensures var groups := Partition(pool, rules, target).groups;
      && ListAt(groups, tag) == Expected(pool, rules, target, tag)
      && |ListAt(groups, tag)| == Demand(rules, tag)
      && (tag in Keys(groups) <==> Demand(rules, tag) > 0)
  {
    AllotListAt([], pool, rules, target, tag);
    AllotKeys([], pool, rules, target, tag);
    ExpectedLength([], pool, rules, target, tag);
  }

  /** Every entry of a partition carries the target it was made for, and a host of the pool. */
  lemma PartitionEntries(pool: seq<string>, rules: seq<GroupRule>, target: string, tag: string, e: Entry)
    requires Partition(pool, rules, target).Done?
    requires e in ListAt(Partition(pool, rules, target).groups, tag)
    ensures e.target == target && e.host in pool
  {
    PartitionContents(pool, rules, target, tag);
    ExpectedMembers(pool, rules, target, tag, e);
  }

  lemma {:induction false} ExpectedMembers(pool: seq<string>, rules: seq<GroupRule>, target: string, tag: string, e: Entry)
    requires e in Expected(pool, rules, target, tag)
    ensures e.target == target && e.host in pool
    decreases |rules|
  {
    var n := Min(rules[0].count, |pool|);
    var es := Entries(pool[..n], target);
    if e in Repeat(es, multiset(rules[0].tags)[tag]) {
      RepeatMembers(es, multiset(rules[0].tags)[tag], e);
      var k :| 0 <= k < |es| && es[k] == e;
      assert pool[..n][k] == pool[k];
    } else {
      ExpectedMembers(pool[n..], rules[1..], target, tag, e);
      var k :| 0 <= k < |pool[n..]| && pool[n..][k] == e.host;
      assert pool[n + k] == e.host;
    }
  }

  lemma {:induction false} RepeatMembers(es: seq<Entry>, n: nat, e: Entry)
    requires e in Repeat(es, n)
    ensures e in es
  {
    if n > 0 && e !in es {
      RepeatMembers(es, n - 1, e);
    }
  }

  /** A rule that lists a tag and asks for at least one host: the only kind that can exit. */
  predicate Asks(r: GroupRule) {
    r.tags != [] && r.count > 0
  }

  /**
   * Some rule that asks for hosts asks, counted with all the rules before
   * it, for more than `room` hosts.
   */
  ghost predicate Overdrawn(rules: seq<GroupRule>, room: int) {
    exists i :: 0 <= i < |rules| && Asks(rules[i]) && Total(rules[..i + 1]) > room
  }

  lemma TotalCons(r: GroupRule, rest: seq<GroupRule>)
    ensures Total([r] + rest) == r.count + Total(rest)
  {
    assert ([r] + rest)[1..] == rest;
  }

  lemma OverdrawnCons(r: GroupRule, rest: seq<GroupRule>, room: int)
    ensures Overdrawn([r] + rest, room) <==> (Asks(r) && r.count > room) || Overdrawn(rest, room - r.count)
  {
    var rules := [r] + rest;
    assert Total(rules[..1]) == r.count by {
      assert rules[..1] == [r] + [];
      TotalCons(r, []);
    }
    if Overdrawn(rules, room) {
      var i :| 0 <= i < |rules| && Asks(rules[i]) && Total(rules[..i + 1]) > room;
      if i > 0 {
        assert rules[..i + 1] == [r] + rest[..i];
        TotalCons(r, rest[..i]);
        assert rest[i - 1] == rules[i] && rest[..(i - 1) + 1] == rest[..i];
      }
    }
    if Overdrawn(rest, room - r.count) {
      var i :| 0 <= i < |rest| && Asks(rest[i]) && Total(rest[..i + 1]) > room - r.count;
      assert rules[..(i + 1) + 1] == [r] + rest[..i + 1];
      TotalCons(r, rest[..i + 1]);
      assert rules[i + 1] == rest[i];
    }
  }

  /** Every rule that asks for a host makes any prefix ending with it count at least one. */
  lemma OverdrawnNoRoom(rules: seq<GroupRule>, room: int)
    requires room <= 0
    ensures Overdrawn(rules, room) <==> Overdrawn(rules, 0)
  {
    if Overdrawn(rules, 0) {
      var i :| 0 <= i < |rules| && Asks(rules[i]) && Total(rules[..i + 1]) > 0;
    }
    if Overdrawn(rules, room) {
      var i :| 0 <= i < |rules| && Asks(rules[i]) && Total(rules[..i + 1]) > room;
      TotalAtLeast(rules[..i + 1]);
    }
  }

  lemma {:induction false} TotalAtLeast(rules: seq<GroupRule>)
    requires rules != []
    ensures Total(rules) >= rules[|rules| - 1].count
    decreases |rules|
  {
    if |rules| > 1 {
      TotalAtLeast(rules[1..]);
    }
  }

  /**
   * `create_groups` exits exactly when some rule that lists a tag asks for
   * at least one host and, counted with all the rules before it, for more
   * hosts than the pool holds.
   */
  lemma {:induction false} AllotExit(groups: Groups, pool: seq<string>, rules: seq<GroupRule>, target: string)
    ensures Allot(groups, pool, rules, target).Exit? <==> Overdrawn(rules, |pool|)
    decreases |rules|
  {
    if rules != [] {
      var r := rules[0];
      var n := Min(r.count, |pool|);
      assert rules == [r] + rules[1..];
      OverdrawnCons(r, rules[1..], |pool|);
      if !(r.tags != [] && r.count > |pool|) {
        AllotExit(AddTags(groups, r.tags, Entries(pool[..n], target)), pool[n..], rules[1..], target);
        if r.count > |pool| {
          OverdrawnNoRoom(rules[1..], |pool| - r.count);
        }
      }
    }
  }

  /** After the rules, the pool has lost its first `Total(rules)` hosts, or all of them. */
  lemma {:induction false} AllotRest(groups: Groups, pool: seq<string>, rules: seq<GroupRule>, target: string)
    requires Allot(groups, pool, rules, target).Done?
    ensures Allot(groups, pool, rules, target).pool == pool[Min(Total(rules), |pool|)..]
    decreases |rules|
  {
    if rules != [] {
      var r := rules[0];
      var n := Min(r.count, |pool|);
      AllotRest(AddTags(groups, r.tags, Entries(pool[..n], target)), pool[n..], rules[1..], target);
      assert pool[n..][Min(Total(rules[1..]), |pool| - n)..] == pool[Min(Total(rules), |pool|)..];
    }
  }

  /**
   * Checking a fresh partition against the same rules succeeds, when the
   * rules name any tag at all, only for a multiplier of 1 and only when
   * every named tag has a positive demand: `check_groups` multiplies by the
   * number of hosts, and a tag with demand 0 has no key.
   */
  lemma PartitionRevalidated(pool: seq<string>, rules: seq<GroupRule>, target: string, hostCount: nat)
    requires Partition(pool, rules, target).Done?
    ensures GroupsValid(Partition(pool, rules, target).groups, rules, hostCount)
        <==> NoTags(rules) || (hostCount == 1 && AllDemanded(rules))
  {
    var groups := Partition(pool, rules, target).groups;
    if !NoTags(rules) {
      if GroupsValid(groups, rules, hostCount) {
        var some :| Mentioned(rules, some);
        PartitionContents(pool, rules, target, some);
        if hostCount != 1 {
          DemandTimes(Demand(rules, some), hostCount);
        }
        forall tag | Mentioned(rules, tag) ensures Demand(rules, tag) > 0 {
          PartitionContents(pool, rules, target, tag);
        }
      } else if hostCount == 1 && AllDemanded(rules) {
        forall tag | Mentioned(rules, tag)
          ensures tag in Keys(groups) && |ListAt(groups, tag)| == Demand(rules, tag) * hostCount
        {
          PartitionContents(pool, rules, target, tag);
        }
      }
    }
  }

  /** The rules name no tag at all. */
  ghost predicate NoTags(rules: seq<GroupRule>) {
    forall tag :: !Mentioned(rules, tag)
  }

  /** Every tag the rules name is asked for at least once. */
  ghost predicate AllDemanded(rules: seq<GroupRule>) {
    forall tag :: Mentioned(rules, tag) ==> Demand(rules, tag) > 0
  }

  lemma DemandTimes(d: nat, n: nat)
    requires d > 0 && n != 1
    ensures d * n != d
  {
    if n > 1 {
      MulSucc(d, n - 1);
    }
  }

  /** Rule entries under a single new tag. */
  lemma SingleTag(groups: Groups, tag: string, entries: seq<Entry>)
    requires tag !in Keys(groups) && entries != []
    ensures AddTags(groups, [tag], entries) == Put(groups, tag, entries)
  {
    GetSome(groups, tag);
    assert ListAt(groups, tag) + entries == entries;
    assert [tag][1..] == [];
  }

  /** Four hosts, two rules: `web` gets the first two hosts, `db` the third, one host is left. */
  lemma PartitionScenario()
    ensures Partition(["h1", "h2", "h3", "h4"], [GroupRule(["web"], 2), GroupRule(["db"], 1)], "t1")
         == Done([("web", [Entry("h1", "t1"), Entry("h2", "t1")]), ("db", [Entry("h3", "t1")])], ["h4"])
  {
    var pool := ["h1", "h2", "h3", "h4"];
    var web := [Entry("h1", "t1"), Entry("h2", "t1")];
    var db := [Entry("h3", "t1")];
    assert Entries(pool[..2], "t1") == web;
    SingleTag([], "web", web);
    assert pool[2..] == ["h3", "h4"];
    assert Entries(pool[2..][..1], "t1") == db;
    SingleTag([("web", web)], "db", db);
    assert Put([("web", web)], "db", db) == [("web", web), ("db", db)] by {
      assert Put([("web", web)][1..], "db", db) == [("db", db)];
    }
    assert pool[2..][1..] == ["h4"];
  }

  /** One host, a rule asking for two: `exit(1)`, with the pool untouched. */
  lemma PartitionInsufficient()
    ensures Partition(["h1"], [GroupRule(["web"], 2)], "t1") == Exit(["h1"])
  {
  }

  /** Two tags in one rule share the same hosts, and the pool loses them once. */
  lemma PartitionSharedHosts()
    ensures Partition(["h1", "h2"], [GroupRule(["a", "b"], 1)], "t")
         == Done([("a", [Entry("h1", "t")]), ("b", [Entry("h1", "t")])], ["h2"])
  {
    var es := [Entry("h1", "t")];
    assert Entries(["h1", "h2"][..1], "t") == es;
    assert AddTags([], ["a", "b"], es) == AddTags(Append([], "a", es), ["b"], es) by {
      assert ["a", "b"][1..] == ["b"];
    }
    SingleTag([], "a", es);
    SingleTag([("a", es)], "b", es);
    assert Put([("a", es)], "b", es) == [("a", es), ("b", es)] by {
      assert Put([("a", es)][1..], "b", es) == [("b", es)];
    }
  }

  /** Two hosts and a rule for one of them: the fresh partition fails the check `parse` makes next time. */
  lemma PartitionFailsItsOwnCheck()
    ensures Partition(["h1", "h2"], [GroupRule(["web"], 1)], "t").Done?
    ensures !GroupsValid(Partition(["h1", "h2"], [GroupRule(["web"], 1)], "t").groups, [GroupRule(["web"], 1)], 2)
  {
    assert Entries(["h1", "h2"][..1], "t") == [Entry("h1", "t")];
    PartitionRevalidated(["h1", "h2"], [GroupRule(["web"], 1)], "t", 2);
    assert Mentioned([GroupRule(["web"], 1)], "web");
  }
}
