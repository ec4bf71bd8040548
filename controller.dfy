/** One reconciliation pass of the ingress controller: collect the ingress
    hosts, resolve the external address, load the zone's records and issue the
    Add/Update/Delete calls that bring the zone in line, stopping at the first
    call that fails.

    The provider write calls are modelled as a log: `calls` is every call the
    pass issued, in order, the failing one included. `failing` holds the
    indices of the write calls of the pass that the provider rejects. */
module Controller {
  import opened Common
  import opened OvhRecords
  import Ip

  /** An ingress, reduced to the host of each of its rules. */
  datatype Ingress = Ingress(ruleHosts: seq<string>)

  /** One provider write call: `record` is the receiver of `AddRecord`,
      `UpdateRecord` or `DeleteRecord`, `zone` the zone in its URL. The body
      of Add and Update is `record`; Delete sends only `record.id`. */
  datatype Call =
    | AddRecord(zone: string, record: OVHRecord)
    | UpdateRecord(zone: string, record: OVHRecord)
    | DeleteRecord(zone: string, record: OVHRecord)

  /** `ctrl.Result`; the error returned beside it is always nil. */
  datatype CtrlResult = CtrlResult(requeue: bool)

  // ---------------------------------------------------------------------------
  // Host collection

  /** Every rule host of every ingress, ingress by ingress, rule by rule. */
  function Hosts(ingresses: seq<Ingress>): seq<string>
  {
    if ingresses == [] then []
    else Hosts(ingresses[..|ingresses| - 1]) + ingresses[|ingresses| - 1].ruleHosts
  }

  /** A host is collected exactly when some rule of some ingress declares it. */
  lemma {:induction false} HostsMembers(ingresses: seq<Ingress>, h: string)
    ensures h in Hosts(ingresses) <==> exists i :: 0 <= i < |ingresses| && h in ingresses[i].ruleHosts
  {
    if ingresses != [] {
      var init := ingresses[..|ingresses| - 1];
      HostsMembers(init, h);
      assert forall i :: 0 <= i < |init| ==> init[i] == ingresses[i];
    }
  }

  method CollectHosts(ingresses: seq<Ingress>) returns (hosts: seq<string>)
    ensures hosts == Hosts(ingresses)
  {
    hosts := [];
    for i := 0 to |ingresses|
      invariant hosts == Hosts(ingresses[..i])
    {
      var rules := ingresses[i].ruleHosts;
      for j := 0 to |rules|
        invariant hosts == Hosts(ingresses[..i]) + rules[..j]
      {
        hosts := hosts + [rules[j]];
      }
      assert rules[..|rules|] == rules;
      assert ingresses[..i + 1][..i] == ingresses[..i];
    }
    assert ingresses[..|ingresses|] == ingresses;
  }

  // ---------------------------------------------------------------------------
  // Subdomain extraction: strings.ReplaceAll(host, "."+domain, "")

  /** `pattern` occurs in `s` at position `i`. */
  predicate OccursAt(s: string, pattern: string, i: nat)
  {
    i + |pattern| <= |s| && s[i..i + |pattern|] == pattern
  }

  ghost predicate Contains(s: string, pattern: string)
  {
    exists i: nat :: OccursAt(s, pattern, i)
  }

  /** Removes every non-overlapping occurrence of `pattern`, leftmost first, as
      Go's `strings.ReplaceAll(s, pattern, "")` does for a non-empty pattern. */
  function RemoveAll(s: string, pattern: string): (r: string)
    requires pattern != []
    ensures |r| <= |s|
    decreases |s|
  {
    if |s| < |pattern| then s
    else if s[..|pattern|] == pattern then RemoveAll(s[|pattern|..], pattern)
    else [s[0]] + RemoveAll(s[1..], pattern)
  }

  /** Without an occurrence of the pattern the string is returned unchanged. */
  lemma {:induction false} RemoveAllAbsent(s: string, pattern: string)
    requires pattern != [] && !Contains(s, pattern)
    ensures RemoveAll(s, pattern) == s
  {
    if |s| >= |pattern| {
      assert !OccursAt(s, pattern, 0);
      forall i: nat | OccursAt(s[1..], pattern, i) ensures OccursAt(s, pattern, i + 1) {
        assert s[1..][i..i + |pattern|] == s[i + 1..i + 1 + |pattern|];
      }
      RemoveAllAbsent(s[1..], pattern);
      assert [s[0]] + s[1..] == s;
    }
  }

  /** The general step: the first occurrence of the pattern is removed, the
      text before it is kept, and the scan resumes right after it. With
      `RemoveAllAbsent` this fixes `RemoveAll` on every input. */
  lemma {:induction false} RemoveAllFirst(a: string, pattern: string, b: string)
    requires pattern != []
    requires forall i: nat :: i < |a| ==> !OccursAt(a + pattern + b, pattern, i)
    ensures RemoveAll(a + pattern + b, pattern) == a + RemoveAll(b, pattern)
  {
    var s := a + pattern + b;
    if a == [] {
      assert s == pattern + b;
      assert s[..|pattern|] == pattern;
      assert s[|pattern|..] == b;
    } else {
      assert !OccursAt(s, pattern, 0);
      NoOccurrenceInTail(a, pattern, b);
      RemoveAllFirst(a[1..], pattern, b);
      assert [a[0]] + a[1..] == a;
    }
  }

  lemma NoOccurrenceInTail(a: string, pattern: string, b: string)
    requires a != []
    requires forall i: nat :: i < |a| ==> !OccursAt(a + pattern + b, pattern, i)
    ensures (a + pattern + b)[1..] == a[1..] + pattern + b
    ensures forall i: nat :: i < |a[1..]| ==> !OccursAt(a[1..] + pattern + b, pattern, i)
  {
    var s := a + pattern + b;
    assert s[1..] == a[1..] + pattern + b;
    forall i: nat | i < |a[1..]| ensures !OccursAt(a[1..] + pattern + b, pattern, i) {
      assert !OccursAt(s, pattern, i + 1);
      assert s[i + 1..i + 1 + |pattern|] == s[1..][i..i + |pattern|];
    }
  }

  /** For a single dot-free label `name`, the subdomain of `name.domain` is `name`. */
  lemma {:induction false} RemoveAllLabel(name: string, domain: string)
    requires '.' !in name
    ensures RemoveAll(name + "." + domain, "." + domain) == name
  {
    var pattern := "." + domain;
    var s := name + "." + domain;
    if name == [] {
      assert s == pattern;
      assert s[|pattern|..] == [];
    } else {
      assert s[..|pattern|][0] == name[0] != '.';
      assert s[1..] == name[1..] + "." + domain;
      RemoveAllLabel(name[1..], domain);
      assert [name[0]] + name[1..] == name;
    }
  }

  function Subdomain(host: string, conf: Config): string
  {
    RemoveAll(host, "." + conf.ovhDNSDomain)
  }

  /** The full name the pruning loop compares with the hosts. */
  function FullName(record: OVHRecord, conf: Config): string
  {
    record.subDomain + "." + conf.ovhDNSDomain
  }

  /** The target every alias record should have. */
  function AliasTarget(conf: Config): string
  {
    conf.ovhDNSDomain + "."
  }

  // ---------------------------------------------------------------------------
  // The calls a pass issues when none fails

  predicate IsApex(record: OVHRecord)
  {
    record.subDomain == ""
  }

  predicate HasApex(aRecords: seq<OVHRecord>)
  {
    exists i :: 0 <= i < |aRecords| && IsApex(aRecords[i])
  }

  /** An existing apex record pointed at `ip`, its id and zone kept. */
  function UpdatedApex(record: OVHRecord, ip: string, conf: Config): OVHRecord
  {
    record.(fieldType := "A", subDomain := "", target := ip, ttl := conf.ovhDNSTTL)
  }

  /** The apex record created when none exists (id and zone are zero values). */
  function NewApex(ip: string, conf: Config): OVHRecord
  {
    OVHRecord(conf.ovhDNSTTL, 0, "", ip, "A", "")
  }

  function ApexStep(record: OVHRecord, ip: string, conf: Config): seq<Call>
  {
    if IsApex(record) && record.target != ip then [UpdateRecord(conf.ovhDNSDomain, UpdatedApex(record, ip, conf))]
    else []
  }

  /** The updates of the `A` loop, record by record. */
  function ApexUpdates(aRecords: seq<OVHRecord>, ip: string, conf: Config): seq<Call>
  {
    if aRecords == [] then []
    else ApexUpdates(aRecords[..|aRecords| - 1], ip, conf) + ApexStep(aRecords[|aRecords| - 1], ip, conf)
  }

  function ApexCalls(aRecords: seq<OVHRecord>, ip: string, conf: Config): seq<Call>
  {
    ApexUpdates(aRecords, ip, conf) + (if HasApex(aRecords) then [] else [AddRecord(conf.ovhDNSDomain, NewApex(ip, conf))])
  }

  /** The call, if any, for one host, looked up in the loaded aliases. */
  function HostStep(cnames: seq<OVHRecord>, host: string, conf: Config): seq<Call>
  {
    var subdomain := Subdomain(host, conf);
    var found := FindBySubDomain(cnames, subdomain);
    if found.err.Some? then [AddRecord(conf.ovhDNSDomain, InitWithConfig(found.record, subdomain, conf))]
    else if found.record.target != AliasTarget(conf) then
      [UpdateRecord(conf.ovhDNSDomain, InitWithConfig(found.record, subdomain, conf))]
    else []
  }

  function HostCalls(cnames: seq<OVHRecord>, hosts: seq<string>, conf: Config): seq<Call>
  {
    if hosts == [] then []
    else HostCalls(cnames, hosts[..|hosts| - 1], conf) + HostStep(cnames, hosts[|hosts| - 1], conf)
  }

  function PruneStep(record: OVHRecord, hosts: seq<string>, conf: Config): seq<Call>
  {
    if FullName(record, conf) in hosts then [] else [DeleteRecord(conf.ovhDNSDomain, record)]
  }

  function PruneCalls(cnames: seq<OVHRecord>, hosts: seq<string>, conf: Config): seq<Call>
  {
    if cnames == [] then []
    else PruneCalls(cnames[..|cnames| - 1], hosts, conf) + PruneStep(cnames[|cnames| - 1], hosts, conf)
  }

  /** Every write call of a pass over the loaded buckets, in issue order. */
  function Plan(aRecords: seq<OVHRecord>, cnames: seq<OVHRecord>, hosts: seq<string>, conf: Config, ip: string): seq<Call>
  {
    ApexCalls(aRecords, ip, conf) + HostCalls(cnames, hosts, conf) + PruneCalls(cnames, hosts, conf)
  }

  // ---------------------------------------------------------------------------
  // Issuing the plan with abort on the first failure

  predicate Succeeded(n: nat, failing: set<nat>)
  {
    forall j :: 0 <= j < n ==> j !in failing
  }

  /** `calls` is what issuing `plan` call by call leaves behind when the pass
      stops at the first failing call: a prefix of the plan whose every call
      but the last succeeded; the pass requeues exactly when it issued the whole
      plan without a failure, and otherwise its last call failed. */
  predicate IssuedLog(plan: seq<Call>, calls: seq<Call>, requeue: bool, failing: set<nat>)
  {
    && calls <= plan
    && (requeue <==> calls == plan && Succeeded(|plan|, failing))
    && (!requeue ==> |calls| > 0 && (|calls| - 1 in failing) && Succeeded(|calls| - 1, failing))
  }

  /** The log of a pass is determined by the plan and the provider's answers. */
  lemma IssuedLogUnique(plan: seq<Call>, c1: seq<Call>, r1: bool, c2: seq<Call>, r2: bool, failing: set<nat>)
    requires IssuedLog(plan, c1, r1, failing) && IssuedLog(plan, c2, r2, failing)
    ensures c1 == c2 && r1 == r2
  {
  }

  /** The first failing call is the last one issued; the calls before it stay
      applied and nothing after it is issued. */
  lemma StopsAtFirstFailure(plan: seq<Call>, calls: seq<Call>, requeue: bool, failing: set<nat>, k: nat)
    requires IssuedLog(plan, calls, requeue, failing)
    requires k < |plan| && (k in failing) && Succeeded(k, failing)
    ensures calls == plan[..k + 1] && !requeue
  {
  }

  /** No write call with index in `lo..hi-1` fails. */
  predicate SucceededBetween(lo: nat, hi: nat, failing: set<nat>)
  {
    forall j :: lo <= j < hi ==> j !in failing
  }

  /** What issuing `part` call by call sends, when its first call is write
      call number `start` of the pass: every call up to and including the
      first one that fails. */
  function Issued(part: seq<Call>, start: nat, failing: set<nat>): seq<Call>
    decreases |part|
  {
    if part == [] then []
    else [part[0]] + (if start in failing then [] else Issued(part[1..], start + 1, failing))
  }

  /** Issuing a plan from the start of the pass leaves the log `IssuedLog`
      describes, and requeues exactly when no call of the plan failed. */
  lemma IssuedIsLog(plan: seq<Call>, failing: set<nat>)
    ensures IssuedLog(plan, Issued(plan, 0, failing), Succeeded(|plan|, failing), failing)
  {
    IssuedShape(plan, 0, failing);
  }

  lemma {:induction false} IssuedShape(part: seq<Call>, start: nat, failing: set<nat>)
    ensures var c := Issued(part, start, failing);
      && c <= part
      && (SucceededBetween(start, start + |part|, failing) ==> c == part)
      && (!SucceededBetween(start, start + |part|, failing) ==>
            c != [] && (start + |c| - 1 in failing) && SucceededBetween(start, start + |c| - 1, failing))
    decreases |part|
  {
    if part != [] && start !in failing {
      IssuedShape(part[1..], start + 1, failing);
      assert part == [part[0]] + part[1..];
    }
  }

  /** A failing call that ends a prefix `done` of the part ends what is issued. */
  lemma {:induction false} IssuedAbort(part: seq<Call>, done: seq<Call>, start: nat, failing: set<nat>)
    requires done <= part && done != []
    requires (start + |done| - 1 in failing) && SucceededBetween(start, start + |done| - 1, failing)
    ensures Issued(part, start, failing) == done
    ensures !SucceededBetween(start, start + |part|, failing)
    decreases |done|
  {
    if |done| > 1 {
      assert done[1..] <= part[1..];
      IssuedAbort(part[1..], done[1..], start + 1, failing);
      assert done == [part[0]] + done[1..];
    }
  }

  /** Without a failure the whole part is issued. */
  lemma {:induction false} IssuedAll(part: seq<Call>, start: nat, failing: set<nat>)
    requires SucceededBetween(start, start + |part|, failing)
    ensures Issued(part, start, failing) == part
    decreases |part|
  {
    if part != [] {
      IssuedAll(part[1..], start + 1, failing);
      assert part == [part[0]] + part[1..];
    }
  }

  lemma SucceededBetweenSplit(lo: nat, mid: nat, hi: nat, failing: set<nat>)
    requires lo <= mid <= hi
    ensures SucceededBetween(lo, hi, failing) <==>
      SucceededBetween(lo, mid, failing) && SucceededBetween(mid, hi, failing)
  {
  }

  /** Issuing two parts one after the other is issuing their concatenation;
      the second part is reached only if the first went through. */
  lemma {:induction false} IssuedConcat(p1: seq<Call>, p2: seq<Call>, start: nat, failing: set<nat>)
    ensures Issued(p1 + p2, start, failing) ==
      Issued(p1, start, failing)
      + (if SucceededBetween(start, start + |p1|, failing) then Issued(p2, start + |p1|, failing) else [])
    decreases |p1|
  {
    if p1 == [] {
      assert p1 + p2 == p2;
    } else {
      assert (p1 + p2)[0] == p1[0] && (p1 + p2)[1..] == p1[1..] + p2;
      IssuedConcat(p1[1..], p2, start + 1, failing);
    }
  }


  /** A loop over a part that stops at a failing call after `done`. */
  lemma LoopStops(issued: seq<Call>, part: seq<Call>, done: seq<Call>, calls: seq<Call>, failing: set<nat>)
    requires done <= part && done != [] && calls == issued + done
    requires |calls| - 1 in failing && SucceededBetween(|issued|, |calls| - 1, failing)
    ensures calls == issued + Issued(part, |issued|, failing)
    ensures !SucceededBetween(|issued|, |issued| + |part|, failing)
  {
    IssuedAbort(part, done, |issued|, failing);
  }

  /** A loop over a part that went through without a failure. */
  lemma LoopCompletes(issued: seq<Call>, part: seq<Call>, calls: seq<Call>, failing: set<nat>)
    requires calls == issued + part && SucceededBetween(|issued|, |calls|, failing)
    ensures calls == issued + Issued(part, |issued|, failing)
    ensures SucceededBetween(|issued|, |issued| + |part|, failing)
  {
    IssuedAll(part, |issued|, failing);
  }

  /** A part that fails somewhere stops the pass inside it. */
  lemma IssuedStopsIn(p: seq<Call>, q: seq<Call>, cp: seq<Call>, failing: set<nat>)
    requires cp == Issued(p, 0, failing) && !SucceededBetween(0, |p|, failing)
    ensures cp == Issued(p + q, 0, failing) && !SucceededBetween(0, |p + q|, failing)
  {
    IssuedConcat(p, q, 0, failing);
  }

  /** After a part that went through, the pass goes on with the next one. */
  lemma IssuedGoesOn(p: seq<Call>, q: seq<Call>, cq: seq<Call>, failing: set<nat>)
    requires SucceededBetween(0, |p|, failing) && cq == p + Issued(q, |p|, failing)
    ensures cq == Issued(p + q, 0, failing)
    ensures SucceededBetween(|p|, |p| + |q|, failing) <==> SucceededBetween(0, |p + q|, failing)
  {
    IssuedConcat(p, q, 0, failing);
    IssuedAll(p, 0, failing);
    SucceededBetweenSplit(0, |p|, |p| + |q|, failing);
  }

  /** The three phases of a pass (apex, hosts, pruning): each starts where
      the one before stopped, and runs only if the one before went through. */
  lemma StopInFirstPhase(a: seq<Call>, b: seq<Call>, c: seq<Call>, c1: seq<Call>, failing: set<nat>)
    requires c1 == Issued(a, 0, failing) && !SucceededBetween(0, |a|, failing)
    ensures c1 == Issued(a + b + c, 0, failing) && !SucceededBetween(0, |a + b + c|, failing)
  {
    IssuedStopsIn(a, b, c1, failing);
    IssuedStopsIn(a + b, c, c1, failing);
  }

  lemma StopInSecondPhase(a: seq<Call>, b: seq<Call>, c: seq<Call>, c1: seq<Call>, c2: seq<Call>, failing: set<nat>)
    requires c1 == Issued(a, 0, failing) && SucceededBetween(0, |a|, failing)
    requires c2 == c1 + Issued(b, |c1|, failing) && !SucceededBetween(|c1|, |c1| + |b|, failing)
    ensures c2 == Issued(a + b + c, 0, failing) && !SucceededBetween(0, |a + b + c|, failing)
  {
    IssuedAll(a, 0, failing);
    IssuedGoesOn(a, b, c2, failing);
    IssuedStopsIn(a + b, c, c2, failing);
  }

  lemma ReachThirdPhase(a: seq<Call>, b: seq<Call>, c: seq<Call>, c1: seq<Call>, c2: seq<Call>, c3: seq<Call>, ok3: bool, failing: set<nat>)
    requires c1 == Issued(a, 0, failing) && SucceededBetween(0, |a|, failing)
    requires c2 == c1 + Issued(b, |c1|, failing) && SucceededBetween(|c1|, |c1| + |b|, failing)
    requires c3 == c2 + Issued(c, |c2|, failing) && (ok3 <==> SucceededBetween(|c2|, |c2| + |c|, failing))
    ensures c3 == Issued(a + b + c, 0, failing) && (ok3 <==> SucceededBetween(0, |a + b + c|, failing))
  {
    IssuedAll(a, 0, failing);
    assert c1 == a;
    IssuedAll(b, |a|, failing);
    SucceededBetweenSplit(0, |a|, |a| + |b|, failing);
    IssuedGoesOn(a + b, c, c3, failing);
  }

  lemma {:induction false} ApexUpdatesPrefix(aRecords: seq<OVHRecord>, ip: string, conf: Config, k: nat)
    requires k <= |aRecords|
    ensures ApexUpdates(aRecords[..k], ip, conf) <= ApexUpdates(aRecords, ip, conf)
  {
    if k < |aRecords| {
      var init := aRecords[..|aRecords| - 1];
      assert aRecords[..k] == init[..k];
      ApexUpdatesPrefix(init, ip, conf, k);
    } else {
      assert aRecords[..k] == aRecords;
    }
  }

  lemma {:induction false} HostCallsPrefix(cnames: seq<OVHRecord>, hosts: seq<string>, conf: Config, k: nat)
    requires k <= |hosts|
    ensures HostCalls(cnames, hosts[..k], conf) <= HostCalls(cnames, hosts, conf)
  {
    if k < |hosts| {
      var init := hosts[..|hosts| - 1];
      assert hosts[..k] == init[..k];
      HostCallsPrefix(cnames, init, conf, k);
    } else {
      assert hosts[..k] == hosts;
    }
  }

  lemma {:induction false} PruneCallsPrefix(cnames: seq<OVHRecord>, hosts: seq<string>, conf: Config, k: nat)
    requires k <= |cnames|
    ensures PruneCalls(cnames[..k], hosts, conf) <= PruneCalls(cnames, hosts, conf)
  {
    if k < |cnames| {
      var init := cnames[..|cnames| - 1];
      assert cnames[..k] == init[..k];
      PruneCallsPrefix(init, hosts, conf, k);
    } else {
      assert cnames[..k] == cnames;
    }
  }

  /** One turn of the `A` loop: the next record's step, and still a prefix. */
  lemma ApexLoopStep(aRecords: seq<OVHRecord>, ip: string, conf: Config, i: nat)
    requires i < |aRecords|
    ensures ApexUpdates(aRecords[..i + 1], ip, conf) == ApexUpdates(aRecords[..i], ip, conf) + ApexStep(aRecords[i], ip, conf)
    ensures ApexUpdates(aRecords[..i + 1], ip, conf) <= ApexUpdates(aRecords, ip, conf)
  {
    assert aRecords[..i + 1][..i] == aRecords[..i];
    ApexUpdatesPrefix(aRecords, ip, conf, i + 1);
  }

  lemma HostLoopStep(cnames: seq<OVHRecord>, hosts: seq<string>, conf: Config, i: nat)
    requires i < |hosts|
    ensures HostCalls(cnames, hosts[..i + 1], conf) == HostCalls(cnames, hosts[..i], conf) + HostStep(cnames, hosts[i], conf)
    ensures HostCalls(cnames, hosts[..i + 1], conf) <= HostCalls(cnames, hosts, conf)
  {
    assert hosts[..i + 1][..i] == hosts[..i];
    HostCallsPrefix(cnames, hosts, conf, i + 1);
  }

  lemma PruneLoopStep(cnames: seq<OVHRecord>, hosts: seq<string>, conf: Config, i: nat)
    requires i < |cnames|
    ensures PruneCalls(cnames[..i + 1], hosts, conf) == PruneCalls(cnames[..i], hosts, conf) + PruneStep(cnames[i], hosts, conf)
    ensures PruneCalls(cnames[..i + 1], hosts, conf) <= PruneCalls(cnames, hosts, conf)
  {
    assert cnames[..i + 1][..i] == cnames[..i];
    PruneCallsPrefix(cnames, hosts, conf, i + 1);
  }

  lemma HasApexStep(aRecords: seq<OVHRecord>, i: nat)
    requires i < |aRecords|
    ensures HasApex(aRecords[..i + 1]) <==> HasApex(aRecords[..i]) || IsApex(aRecords[i])
  {
    assert aRecords[..i + 1][i] == aRecords[i];
    assert forall j :: 0 <= j < i ==> aRecords[..i + 1][j] == aRecords[..i][j];
  }

  /** The `A` loop: retarget every apex record whose target is not `ip`, and
      note whether an apex record was seen. */
  method ApplyApexUpdates(manager: OVHManager, conf: Config, ip: string, failing: set<nat>)
    returns (ok: bool, aRecordFound: bool, calls: seq<Call>)
    requires manager.config == conf
    ensures aRecordFound <==> HasApex(manager.remoteARecords)
    ensures var part := ApexUpdates(manager.remoteARecords, ip, conf);
      calls == Issued(part, 0, failing) && (ok <==> SucceededBetween(0, |part|, failing))
  {
    var aRecords := manager.remoteARecords;
    calls := [];
    aRecordFound := false;
    for i := 0 to |aRecords|
      invariant calls == ApexUpdates(aRecords[..i], ip, conf)
      invariant aRecordFound <==> HasApex(aRecords[..i])
      invariant SucceededBetween(0, |calls|, failing)
    {
      ApexLoopStep(aRecords, ip, conf, i);
      HasApexStep(aRecords, i);
      var aRecord := aRecords[i];
      if aRecord.subDomain == "" {
        aRecordFound := true;
        if aRecord.target != ip {
          aRecord := UpdatedApex(aRecord, ip, conf);
          calls := calls + [UpdateRecord(manager.GetZone(), aRecord)];
          if |calls| - 1 in failing {
            LoopStops([], ApexUpdates(aRecords, ip, conf), calls, calls, failing);
            return false, aRecordFound, calls;
          }
        }
      }
    }
    assert aRecords[..|aRecords|] == aRecords;
    LoopCompletes([], calls, calls, failing);
    return true, aRecordFound, calls;
  }

  /** The `A` loop followed by the apex Add when no apex record exists. */
  method ApplyApex(manager: OVHManager, conf: Config, ip: string, failing: set<nat>)
    returns (ok: bool, calls: seq<Call>)
    requires manager.config == conf
    ensures var part := ApexCalls(manager.remoteARecords, ip, conf);
      calls == Issued(part, 0, failing) && (ok <==> SucceededBetween(0, |part|, failing))
  {
    ghost var updates := ApexUpdates(manager.remoteARecords, ip, conf);
    ghost var add := if HasApex(manager.remoteARecords) then [] else [AddRecord(conf.ovhDNSDomain, NewApex(ip, conf))];
    var aRecordFound;
    ok, aRecordFound, calls := ApplyApexUpdates(manager, conf, ip, failing);
    if !ok {
      IssuedStopsIn(updates, add, calls, failing);
      return false, calls;
    }
    IssuedAll(updates, 0, failing);
    ghost var c1 := calls;
    if !aRecordFound {
      var mainARecord := EmptyRecord.(fieldType := "A", subDomain := "", target := ip, ttl := conf.ovhDNSTTL);
      calls := calls + [AddRecord(manager.GetZone(), mainARecord)];
    }
    assert calls == c1 + Issued(add, |c1|, failing);
    IssuedGoesOn(updates, add, calls, failing);
    if !aRecordFound && |calls| - 1 in failing {
      return false, calls;
    }
    return true, calls;
  }

  /** The body of the host loop: the call, if any, for one host. */
  method HostCall(manager: OVHManager, host: string, conf: Config) returns (call: Option<Call>)
    requires manager.config == conf
    ensures (if call.Some? then [call.value] else []) == HostStep(manager.remoteCNAMERecords, host, conf)
  {
    var subdomain := RemoveAll(host, "." + conf.ovhDNSDomain);
    var found := manager.GetRecordBySubDomain(subdomain);
    var record := found.record;
    if found.err.Some? {
      record := InitWithConfig(record, subdomain, conf);
      return Some(AddRecord(manager.GetZone(), record));
    } else if record.target != conf.ovhDNSDomain + "." {
      record := InitWithConfig(record, subdomain, conf);
      return Some(UpdateRecord(manager.GetZone(), record));
    }
    return None;
  }

  /** One turn of the host loop: issue the call for `hosts[i]`, if any, after
      the calls for the hosts before it. */
  method HostTurn(manager: OVHManager, hosts: seq<string>, conf: Config, i: nat, issued: seq<Call>, calls: seq<Call>, failing: set<nat>)
    returns (stop: bool, next: seq<Call>)
    requires manager.config == conf && i < |hosts|
    requires calls == issued + HostCalls(manager.remoteCNAMERecords, hosts[..i], conf)
    requires SucceededBetween(|issued|, |calls|, failing)
    ensures var part := HostCalls(manager.remoteCNAMERecords, hosts, conf);
      stop ==> next == issued + Issued(part, |issued|, failing) && !SucceededBetween(|issued|, |issued| + |part|, failing)
    ensures !stop ==>
      next == issued + HostCalls(manager.remoteCNAMERecords, hosts[..i + 1], conf) && SucceededBetween(|issued|, |next|, failing)
  {
    var cnames := manager.remoteCNAMERecords;
    HostLoopStep(cnames, hosts, conf, i);
    ghost var done := HostCalls(cnames, hosts[..i], conf);
    var call := HostCall(manager, hosts[i], conf);
    next := calls;
    if call.Some? {
      assert issued + done + [call.value] == issued + (done + [call.value]);
      next := calls + [call.value];
      if |next| - 1 in failing {
        LoopStops(issued, HostCalls(cnames, hosts, conf), done + [call.value], next, failing);
        return true, next;
      }
    }
    return false, next;
  }

  /** The host loop: add missing aliases, retarget wrong ones. The calls
      already issued in the pass are `issued`. */
  method ApplyHosts(manager: OVHManager, hosts: seq<string>, conf: Config, issued: seq<Call>, failing: set<nat>)
    returns (ok: bool, calls: seq<Call>)
    requires manager.config == conf
    ensures var part := HostCalls(manager.remoteCNAMERecords, hosts, conf);
      calls == issued + Issued(part, |issued|, failing)
      && (ok <==> SucceededBetween(|issued|, |issued| + |part|, failing))
  {
    calls := issued;
    for i := 0 to |hosts|
      invariant calls == issued + HostCalls(manager.remoteCNAMERecords, hosts[..i], conf)
      invariant SucceededBetween(|issued|, |calls|, failing)
    {
      var stop;
      stop, calls := HostTurn(manager, hosts, conf, i, issued, calls, failing);
      if stop {
        return false, calls;
      }
    }
    assert hosts[..|hosts|] == hosts;
    LoopCompletes(issued, HostCalls(manager.remoteCNAMERecords, hosts, conf), calls, failing);
    return true, calls;
  }

  /** The inner loop of pruning: whether some host equals `domain`. */
  method IsStillNecessary(hosts: seq<string>, domain: string) returns (domainStillNecessary: bool)
    ensures domainStillNecessary <==> domain in hosts
  {
    domainStillNecessary := false;
    for j := 0 to |hosts|
      invariant domainStillNecessary <==> domain in hosts[..j]
    {
      assert hosts[..j + 1] == hosts[..j] + [hosts[j]];
      if hosts[j] == domain {
        domainStillNecessary := true;
        break;
      }
    }
    assert domainStillNecessary ==> domain in hosts;
    assert hosts[..|hosts|] == hosts;
  }

  /** The prune loop: delete every loaded alias whose full name is no host. */
  method ApplyPrune(manager: OVHManager, hosts: seq<string>, conf: Config, issued: seq<Call>, failing: set<nat>)
    returns (ok: bool, calls: seq<Call>)
    requires manager.config == conf
    ensures var part := PruneCalls(manager.remoteCNAMERecords, hosts, conf);
      calls == issued + Issued(part, |issued|, failing)
      && (ok <==> SucceededBetween(|issued|, |issued| + |part|, failing))
  {
    var cnames := manager.remoteCNAMERecords;
    calls := issued;
    for i := 0 to |cnames|
      invariant calls == issued + PruneCalls(cnames[..i], hosts, conf)
      invariant SucceededBetween(|issued|, |calls|, failing)
    {
      PruneLoopStep(cnames, hosts, conf, i);
      var record := cnames[i];
      var domain := record.subDomain + "." + conf.ovhDNSDomain;
      var domainStillNecessary := IsStillNecessary(hosts, domain);
      ghost var done := PruneCalls(cnames[..i], hosts, conf);
      if !domainStillNecessary {
        var call := DeleteRecord(manager.GetZone(), record);
        assert PruneStep(record, hosts, conf) == [call];
        assert issued + done + [call] == issued + (done + [call]);
        calls := calls + [call];
        if |calls| - 1 in failing {
          LoopStops(issued, PruneCalls(cnames, hosts, conf), done + [call], calls, failing);
          return false, calls;
        }
      }
    }
    assert cnames[..|cnames|] == cnames;
    LoopCompletes(issued, PruneCalls(cnames, hosts, conf), calls, failing);
    return true, calls;
  }

  /** The apex, host and prune loops over the loaded buckets, each call issued
      in turn and the pass stopped at the first failure. */
  method ApplyRecords(manager: OVHManager, hosts: seq<string>, conf: Config, ip: string, failing: set<nat>)
    returns (requeue: bool, calls: seq<Call>)
    requires manager.config == conf
    ensures var plan := Plan(manager.remoteARecords, manager.remoteCNAMERecords, hosts, conf, ip);
      calls == Issued(plan, 0, failing) && (requeue <==> SucceededBetween(0, |plan|, failing))
  {
    ghost var apex := ApexCalls(manager.remoteARecords, ip, conf);
    ghost var upserts := HostCalls(manager.remoteCNAMERecords, hosts, conf);
    ghost var prunes := PruneCalls(manager.remoteCNAMERecords, hosts, conf);
    var ok1, c1 := ApplyApex(manager, conf, ip, failing);
    if !ok1 {
      StopInFirstPhase(apex, upserts, prunes, c1, failing);
      return false, c1;
    }
    var ok2, c2 := ApplyHosts(manager, hosts, conf, c1, failing);
    if !ok2 {
      StopInSecondPhase(apex, upserts, prunes, c1, c2, failing);
      return false, c2;
    }
    var ok3, c3 := ApplyPrune(manager, hosts, conf, c2, failing);
    ReachThirdPhase(apex, upserts, prunes, c1, c2, c3, ok3, failing);
    return ok3, c3;
  }

  /** One reconciliation pass. The ingress listing, the configuration, the
      address lookup and clock reading, the record listing and fetching, and
      the provider's answer to each write call are inputs. */
  method Reconcile(
    ingresses: Result<seq<Ingress>>,
    conf: Result<Config>,
    ipCache: Ip.IP,
    now: int64,
    lookup: Ip.LookupResult,
    recordIds: Result<seq<int64>>,
    fetch: int64 -> Result<OVHRecord>,
    failing: set<nat>)
    returns (result: CtrlResult, calls: seq<Call>)
    modifies ipCache
    ensures ingresses.Err? || conf.Err? ==>
      result == CtrlResult(false) && calls == [] && ipCache.State() == old(ipCache.State())
    ensures ingresses.Ok? && conf.Ok? ==>
      var o := Ip.Get(old(ipCache.State()), now, conf.value.ovhDNSTTL, lookup);
      var loaded := if recordIds.Ok? then Fetched(recordIds.value, fetch) else [];
      var loadErr := if recordIds.Ok? then FetchError(recordIds.value, fetch) else Some(recordIds.error);
      && ipCache.State() == o.next
      && (o.err.Some? || loadErr.Some? ==> result == CtrlResult(false) && calls == [])
      && (o.err.None? && loadErr.None? ==>
            IssuedLog(Plan(OfType(loaded, "A"), OfType(loaded, "CNAME"), Hosts(ingresses.value), conf.value, o.ip),
                      calls, result.requeue, failing))
  {
    if ingresses.Err? {
      return CtrlResult(false), [];
    }
    if conf.Err? {
      return CtrlResult(false), [];
    }
    var config := conf.value;
    var ip, ipErr := ipCache.GetIP(now, config.ovhDNSTTL, lookup);
    if ipErr.Some? {
      return CtrlResult(false), [];
    }
    var hosts := CollectHosts(ingresses.value);
    var manager := new OVHManager.Init(config);
    var loadErr := manager.LoadRemoteRecords(recordIds, fetch);
    if loadErr.Some? {
      return CtrlResult(false), [];
    }
    assert recordIds.Ok?;
    ghost var loaded := Fetched(recordIds.value, fetch);
    assert manager.remoteARecords == [] + OfType(loaded, "A") == OfType(loaded, "A");
    assert manager.remoteCNAMERecords == [] + OfType(loaded, "CNAME") == OfType(loaded, "CNAME");
    var requeue;
    requeue, calls := ApplyRecords(manager, hosts, config, ip, failing);
    IssuedIsLog(Plan(manager.remoteARecords, manager.remoteCNAMERecords, hosts, config, ip), failing);
    return CtrlResult(requeue), calls;
  }
}
