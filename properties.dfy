/** What a pass issues, stated over the loaded buckets, the hosts, the
    configuration and the external address: which calls occur, with which
    payloads, in which order, and when a pass issues nothing at all. */
module PlanProperties {
  import opened Common
  import opened OvhRecords
  import opened Controller

  // ---------------------------------------------------------------------------
  // Apex record

  /** Without an apex record the `A` loop issues no update. */
  lemma {:induction false} NoApexNoUpdates(aRecords: seq<OVHRecord>, ip: string, conf: Config)
    requires !HasApex(aRecords)
    ensures ApexUpdates(aRecords, ip, conf) == []
  {
    if aRecords != [] {
      var init := aRecords[..|aRecords| - 1];
      assert !IsApex(aRecords[|aRecords| - 1]);
      forall i | 0 <= i < |init| ensures !IsApex(init[i]) {
        assert init[i] == aRecords[i];
      }
      NoApexNoUpdates(init, ip, conf);
    }
  }

  /** Without an apex record exactly one call is issued for the apex: the Add
      of an `A` record at the empty subdomain pointing at `ip`. */
  lemma NoApexSingleAdd(aRecords: seq<OVHRecord>, ip: string, conf: Config)
    requires !HasApex(aRecords)
    ensures ApexCalls(aRecords, ip, conf) ==
      [AddRecord(conf.ovhDNSDomain, OVHRecord(conf.ovhDNSTTL, 0, "", ip, "A", ""))]
  {
    NoApexNoUpdates(aRecords, ip, conf);
  }

  /** The `A` loop updates exactly the apex records whose target is not `ip`,
      each retargeted to `ip` with the configured TTL. */
  lemma {:induction false} ApexUpdatesMembers(aRecords: seq<OVHRecord>, ip: string, conf: Config, c: Call)
    ensures c in ApexUpdates(aRecords, ip, conf) <==>
      exists r :: r in aRecords && IsApex(r) && r.target != ip && c == UpdateRecord(conf.ovhDNSDomain, UpdatedApex(r, ip, conf))
  {
    if aRecords != [] {
      var init := aRecords[..|aRecords| - 1];
      var last := aRecords[|aRecords| - 1];
      ApexUpdatesMembers(init, ip, conf, c);
      assert aRecords == init + [last];
      assert forall r :: r in aRecords <==> r in init || r == last;
    }
  }

  /** An update of a loaded `A` record changes its target and TTL only; its
      id, zone, type and subdomain stay. */
  lemma UpdatedApexKeepsIdentity(record: OVHRecord, ip: string, conf: Config)
    requires record.fieldType == "A" && IsApex(record)
    ensures UpdatedApex(record, ip, conf) == record.(target := ip, ttl := conf.ovhDNSTTL)
  {
  }

  /** Every apex call is an update of a stale apex record or, when there is
      no apex record, the Add of a new one; records with a subdomain are never
      touched and an apex already at `ip` gets no call whatever its TTL. */
  lemma ApexCallsMembers(aRecords: seq<OVHRecord>, ip: string, conf: Config, c: Call)
    ensures c in ApexCalls(aRecords, ip, conf) <==>
      (exists r :: r in aRecords && IsApex(r) && r.target != ip && c == UpdateRecord(conf.ovhDNSDomain, UpdatedApex(r, ip, conf)))
      || (!HasApex(aRecords) && c == AddRecord(conf.ovhDNSDomain, NewApex(ip, conf)))
  {
    ApexUpdatesMembers(aRecords, ip, conf, c);
    if !HasApex(aRecords) {
      NoApexNoUpdates(aRecords, ip, conf);
    }
  }

  // ---------------------------------------------------------------------------
  // Hosts

  /** The call for one host, in terms of the first loaded alias with its
      subdomain: an Add of a fresh alias when there is none, an Update keeping
      the alias' id and zone when its target is wrong, nothing otherwise. */
  lemma HostStepCases(cnames: seq<OVHRecord>, host: string, conf: Config)
    ensures var sub := Subdomain(host, conf);
      && ((forall r :: r in cnames ==> r.subDomain != sub) ==>
            HostStep(cnames, host, conf) ==
              [AddRecord(conf.ovhDNSDomain, OVHRecord(conf.ovhDNSTTL, 0, sub, AliasTarget(conf), "CNAME", ""))])
      && (forall i :: IsFirstMatch(cnames, sub, i) ==>
            HostStep(cnames, host, conf) ==
              if cnames[i].target != AliasTarget(conf)
              then [UpdateRecord(conf.ovhDNSDomain, InitWithConfig(cnames[i], sub, conf))]
              else [])
  {
    var sub := Subdomain(host, conf);
    FindBySubDomainFirstMatch(cnames, sub);
    forall i | IsFirstMatch(cnames, sub, i)
      ensures HostStep(cnames, host, conf) ==
        if cnames[i].target != AliasTarget(conf)
        then [UpdateRecord(conf.ovhDNSDomain, InitWithConfig(cnames[i], sub, conf))]
        else []
    {
      var j :| IsFirstMatch(cnames, sub, j) && cnames[j] == FindBySubDomain(cnames, sub).record;
      FirstMatchUnique(cnames, sub, i, j);
    }
  }

  /** No call for a host exactly when its first loaded alias exists and
      already points at the zone. */
  lemma HostStepEmpty(cnames: seq<OVHRecord>, host: string, conf: Config)
    ensures HostStep(cnames, host, conf) == [] <==>
      exists i :: IsFirstMatch(cnames, Subdomain(host, conf), i) && cnames[i].target == AliasTarget(conf)
  {
    var sub := Subdomain(host, conf);
    FindBySubDomainFirstMatch(cnames, sub);
    HostStepCases(cnames, host, conf);
    if HostStep(cnames, host, conf) == [] {
      var j :| IsFirstMatch(cnames, sub, j) && cnames[j] == FindBySubDomain(cnames, sub).record;
    }
  }

  /** Hosts are handled in order: the calls for a concatenation of host lists
      are the calls for the first list followed by those for the second. */
  lemma {:induction false} HostCallsConcat(cnames: seq<OVHRecord>, h1: seq<string>, h2: seq<string>, conf: Config)
    ensures HostCalls(cnames, h1 + h2, conf) == HostCalls(cnames, h1, conf) + HostCalls(cnames, h2, conf)
  {
    if h2 == [] {
      assert h1 + h2 == h1;
    } else {
      var init := h2[..|h2| - 1];
      HostCallsConcat(cnames, h1, init, conf);
      assert (h1 + h2)[..|h1 + h2| - 1] == h1 + init;
    }
  }

  /** The host loop issues nothing exactly when no host needs a call. */
  lemma {:induction false} HostCallsEmpty(cnames: seq<OVHRecord>, hosts: seq<string>, conf: Config)
    ensures HostCalls(cnames, hosts, conf) == [] <==> forall h :: h in hosts ==> HostStep(cnames, h, conf) == []
  {
    if hosts != [] {
      var init := hosts[..|hosts| - 1];
      HostCallsEmpty(cnames, init, conf);
      assert hosts == init + [hosts[|hosts| - 1]];
    }
  }

  /** Lookups see only the records loaded before the pass wrote anything, so
      a host repeated `k` times whose subdomain is not loaded is added `k`
      times. */
  lemma {:induction false} RepeatedMissingHost(cnames: seq<OVHRecord>, host: string, conf: Config, k: nat)
    requires forall r :: r in cnames ==> r.subDomain != Subdomain(host, conf)
    ensures HostCalls(cnames, seq(k, _ => host), conf) ==
      seq(k, _ => AddRecord(conf.ovhDNSDomain, OVHRecord(conf.ovhDNSTTL, 0, Subdomain(host, conf), AliasTarget(conf), "CNAME", "")))
  {
    if k > 0 {
      RepeatedMissingHost(cnames, host, conf, k - 1);
      HostStepCases(cnames, host, conf);
      assert seq(k, _ => host)[..k - 1] == seq(k - 1, _ => host);
    }
  }

  // ---------------------------------------------------------------------------
  // Pruning

  /** The prune loop deletes exactly the loaded aliases whose full name is no
      host. */
  lemma {:induction false} PruneCallsMembers(cnames: seq<OVHRecord>, hosts: seq<string>, conf: Config, c: Call)
    ensures c in PruneCalls(cnames, hosts, conf) <==>
      exists r :: r in cnames && FullName(r, conf) !in hosts && c == DeleteRecord(conf.ovhDNSDomain, r)
  {
    if cnames != [] {
      var init := cnames[..|cnames| - 1];
      var last := cnames[|cnames| - 1];
      PruneCallsMembers(init, hosts, conf, c);
      assert cnames == init + [last];
      assert forall r :: r in cnames <==> r in init || r == last;
    }
  }

  /** A loaded alias is deleted exactly when no host equals its full name. */
  lemma PruneDeletes(cnames: seq<OVHRecord>, hosts: seq<string>, conf: Config, r: OVHRecord)
    ensures DeleteRecord(conf.ovhDNSDomain, r) in PruneCalls(cnames, hosts, conf) <==>
      r in cnames && FullName(r, conf) !in hosts
  {
    PruneCallsMembers(cnames, hosts, conf, DeleteRecord(conf.ovhDNSDomain, r));
  }

  /** Deletes follow the order of the loaded aliases. */
  lemma {:induction false} PruneCallsConcat(c1: seq<OVHRecord>, c2: seq<OVHRecord>, hosts: seq<string>, conf: Config)
    ensures PruneCalls(c1 + c2, hosts, conf) == PruneCalls(c1, hosts, conf) + PruneCalls(c2, hosts, conf)
  {
    if c2 == [] {
      assert c1 + c2 == c1;
    } else {
      var init := c2[..|c2| - 1];
      PruneCallsConcat(c1, init, hosts, conf);
      assert (c1 + c2)[..|c1 + c2| - 1] == c1 + init;
    }
  }

  // ---------------------------------------------------------------------------
  // The whole plan

  /** The kinds of call in each phase: the apex phase adds or updates `A`
      records at the empty subdomain; the host phase adds or updates aliases
      pointing at the zone with the configured TTL; the prune phase only
      deletes. */
  lemma {:induction false} ApexUpdatesKinds(aRecords: seq<OVHRecord>, ip: string, conf: Config)
    ensures forall c :: c in ApexUpdates(aRecords, ip, conf) ==>
      c.UpdateRecord? && c.record.fieldType == "A" && c.record.subDomain == "" && c.record.target == ip
  {
    if aRecords != [] {
      ApexUpdatesKinds(aRecords[..|aRecords| - 1], ip, conf);
    }
  }

  lemma {:induction false} HostCallsKinds(cnames: seq<OVHRecord>, hosts: seq<string>, conf: Config)
    ensures forall c :: c in HostCalls(cnames, hosts, conf) ==>
      !c.DeleteRecord? && c.record.fieldType == "CNAME" && c.record.target == AliasTarget(conf) && c.record.ttl == conf.ovhDNSTTL
  {
    if hosts != [] {
      HostCallsKinds(cnames, hosts[..|hosts| - 1], conf);
    }
  }

  /** Apex calls come first, then the host calls, and the deletes last. */
  lemma PlanPhases(aRecords: seq<OVHRecord>, cnames: seq<OVHRecord>, hosts: seq<string>, conf: Config, ip: string)
    ensures var plan := Plan(aRecords, cnames, hosts, conf, ip);
      var nApex := |ApexCalls(aRecords, ip, conf)|;
      var nHosts := |HostCalls(cnames, hosts, conf)|;
      && |plan| == nApex + nHosts + |PruneCalls(cnames, hosts, conf)|
      && (forall i :: 0 <= i < nApex ==> !plan[i].DeleteRecord? && plan[i].record.fieldType == "A" && plan[i].record.subDomain == "")
      && (forall i :: nApex <= i < nApex + nHosts ==> !plan[i].DeleteRecord? && plan[i].record.fieldType == "CNAME")
      && (forall i :: nApex + nHosts <= i < |plan| ==> plan[i].DeleteRecord?)
  {
    var apex := ApexCalls(aRecords, ip, conf);
    var upserts := HostCalls(cnames, hosts, conf);
    var prunes := PruneCalls(cnames, hosts, conf);
    var plan := Plan(aRecords, cnames, hosts, conf, ip);
    ApexUpdatesKinds(aRecords, ip, conf);
    HostCallsKinds(cnames, hosts, conf);
    forall i | 0 <= i < |apex| ensures plan[i] == apex[i] && !apex[i].DeleteRecord? {
      ApexCallsMembers(aRecords, ip, conf, apex[i]);
    }
    forall i | |apex| <= i < |apex| + |upserts| ensures plan[i] == upserts[i - |apex|] {
    }
    forall i | |apex| + |upserts| <= i < |plan| ensures plan[i].DeleteRecord? {
      assert plan[i] == prunes[i - |apex| - |upserts|];
      PruneCallsMembers(cnames, hosts, conf, plan[i]);
    }
  }

  /** The zone is in line with the hosts: an apex record exists and every apex
      record points at `ip`, every host's first alias exists and points at the
      zone, and every loaded alias is the full name of some host. */
  ghost predicate Converged(aRecords: seq<OVHRecord>, cnames: seq<OVHRecord>, hosts: seq<string>, conf: Config, ip: string)
  {
    && HasApex(aRecords)
    && (forall r :: r in aRecords && IsApex(r) ==> r.target == ip)
    && (forall h :: h in hosts ==>
          exists i :: IsFirstMatch(cnames, Subdomain(h, conf), i) && cnames[i].target == AliasTarget(conf))
    && (forall r :: r in cnames ==> FullName(r, conf) in hosts)
  }

  /** A pass issues no call at all exactly when the zone is converged. */
  lemma ConvergedIffNoCalls(aRecords: seq<OVHRecord>, cnames: seq<OVHRecord>, hosts: seq<string>, conf: Config, ip: string)
    ensures Plan(aRecords, cnames, hosts, conf, ip) == [] <==> Converged(aRecords, cnames, hosts, conf, ip)
  {
    var domain := conf.ovhDNSDomain;
    // Apex phase
    if !HasApex(aRecords) {
      ApexCallsMembers(aRecords, ip, conf, AddRecord(domain, NewApex(ip, conf)));
    }
    var updates := ApexUpdates(aRecords, ip, conf);
    if updates != [] {
      ApexUpdatesMembers(aRecords, ip, conf, updates[0]);
    }
    forall r | r in aRecords && IsApex(r) && r.target != ip ensures updates != [] {
      ApexUpdatesMembers(aRecords, ip, conf, UpdateRecord(domain, UpdatedApex(r, ip, conf)));
    }
    // Host phase
    HostCallsEmpty(cnames, hosts, conf);
    forall h | h in hosts ensures HostStep(cnames, h, conf) == [] <==>
      exists i :: IsFirstMatch(cnames, Subdomain(h, conf), i) && cnames[i].target == AliasTarget(conf)
    {
      HostStepEmpty(cnames, h, conf);
    }
    // Prune phase
    var prunes := PruneCalls(cnames, hosts, conf);
    if prunes != [] {
      PruneCallsMembers(cnames, hosts, conf, prunes[0]);
    }
    forall r | r in cnames && FullName(r, conf) !in hosts ensures prunes != [] {
      PruneDeletes(cnames, hosts, conf, r);
    }
  }

  // ---------------------------------------------------------------------------
  // Subdomains and full names

  /** For a host that is one label below the zone, the subdomain the host loop
      looks up and the full name the prune loop compares agree: the alias the
      host loop creates is kept by the prune loop. */
  lemma LabelHostRoundTrip(name: string, conf: Config, record: OVHRecord)
    requires '.' !in name
    ensures Subdomain(name + "." + conf.ovhDNSDomain, conf) == name
    ensures FullName(InitWithConfig(record, name, conf), conf) == name + "." + conf.ovhDNSDomain
  {
    RemoveAllLabel(name, conf.ovhDNSDomain);
  }

  /** A host outside the zone is looked up under its whole name. Unless
      `host.zone` is listed too, a pass adds its alias when none is loaded,
      and deletes every loaded alias with that subdomain, since the alias's
      full name `host.zone` is no host: the zone never settles. */
  lemma OutOfZoneHostNeverSettles(cnames: seq<OVHRecord>, hosts: seq<string>, host: string, conf: Config)
    requires host in hosts && !Contains(host, "." + conf.ovhDNSDomain)
    requires host + "." + conf.ovhDNSDomain !in hosts
    ensures Subdomain(host, conf) == host
    ensures (forall r :: r in cnames ==> r.subDomain != host) ==>
      AddRecord(conf.ovhDNSDomain, InitWithConfig(EmptyRecord, host, conf)) in HostCalls(cnames, hosts, conf)
    ensures forall r :: r in cnames && r.subDomain == host ==>
      DeleteRecord(conf.ovhDNSDomain, r) in PruneCalls(cnames, hosts, conf)
  {
    RemoveAllAbsent(host, "." + conf.ovhDNSDomain);
    if forall r :: r in cnames ==> r.subDomain != host {
      var i :| 0 <= i < |hosts| && hosts[i] == host;
      assert hosts == hosts[..i] + [host] + hosts[i + 1..];
      HostCallsConcat(cnames, hosts[..i] + [host], hosts[i + 1..], conf);
      HostCallsConcat(cnames, hosts[..i], [host], conf);
      assert [host][..0] == [];
      HostStepCases(cnames, host, conf);
    }
    forall r | r in cnames && r.subDomain == host
      ensures DeleteRecord(conf.ovhDNSDomain, r) in PruneCalls(cnames, hosts, conf)
    {
      PruneDeletes(cnames, hosts, conf, r);
    }
  }
}
