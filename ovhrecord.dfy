/** OVH DNS records, the comparison and lookup on them, and the manager that
    loads a zone's records into an `A` bucket and a `CNAME` bucket. */
module OvhRecords {
  import opened Common

  /** One record body as the OVH API returns and accepts it. */
  datatype OVHRecord = OVHRecord(
    ttl: int64,
    id: int64,
    subDomain: string,
    target: string,
    fieldType: string,
    zone: string)

  /** Go's zero value `OVHRecord{}`. */
  const EmptyRecord := OVHRecord(0, 0, "", "", "", "")

  /** The error GetRecordBySubDomain returns when nothing matches. */
  const RecordNotFound := Error("record not found")

  /** Turns `record` into the alias record the reconciliation wants for
      `subdomain`; the provider-side identity (id and zone) is kept. */
  function InitWithConfig(record: OVHRecord, subdomain: string, conf: Config): (r: OVHRecord)
    ensures r.fieldType == "CNAME" && r.subDomain == subdomain
    ensures r.target == conf.ovhDNSDomain + "." && r.ttl == conf.ovhDNSTTL
    ensures r.id == record.id && r.zone == record.zone
  {
    record.(fieldType := "CNAME", subDomain := subdomain, target := conf.ovhDNSDomain + ".",
            ttl := conf.ovhDNSTTL)
  }

  /** Field-wise equality of everything but the id. */
  predicate Compare(r1: OVHRecord, r2: OVHRecord)
  {
    r1.fieldType == r2.fieldType && r1.subDomain == r2.subDomain && r1.target == r2.target
    && r1.zone == r2.zone && r1.ttl == r2.ttl
  }

  /** Compare is equality once the ids are forgotten. */
  lemma CompareIgnoresId(r1: OVHRecord, r2: OVHRecord)
    ensures Compare(r1, r2) <==> r1.(id := 0) == r2.(id := 0)
  {
  }

  /** Compare is an equivalence relation. */
  lemma CompareIsEquivalence()
    ensures forall r :: Compare(r, r)
    ensures forall r1, r2 :: Compare(r1, r2) ==> Compare(r2, r1)
    ensures forall r1, r2, r3 :: Compare(r1, r2) && Compare(r2, r3) ==> Compare(r1, r3)
  {
  }

  /** Two records initialised for the same subdomain and configuration compare
      equal exactly when they lived in the same zone, whatever they held before. */
  lemma InitWithConfigCompare(a: OVHRecord, b: OVHRecord, subdomain: string, conf: Config)
    ensures Compare(InitWithConfig(a, subdomain, conf), InitWithConfig(b, subdomain, conf))
            <==> a.zone == b.zone
  {
  }

  /** Initialising twice is initialising once. */
  lemma InitWithConfigIdempotent(r: OVHRecord, subdomain: string, conf: Config)
    ensures InitWithConfig(InitWithConfig(r, subdomain, conf), subdomain, conf)
            == InitWithConfig(r, subdomain, conf)
  {
  }

  /** The pair `(OVHRecord, error)` that GetRecordBySubDomain returns. */
  datatype Lookup = Lookup(record: OVHRecord, err: Option<Error>)

  /** `records[i]` is the first record whose subdomain is `subDomain`. */
  predicate IsFirstMatch(records: seq<OVHRecord>, subDomain: string, i: int)
  {
    0 <= i < |records| && records[i].subDomain == subDomain
    && forall j :: 0 <= j < i ==> records[j].subDomain != subDomain
  }

  /** First-match linear search by subdomain; the zero record and
      "record not found" when nothing matches. */
  function FindBySubDomain(records: seq<OVHRecord>, subDomain: string): Lookup
  {
    if records == [] then Lookup(EmptyRecord, Some(RecordNotFound))
    else if records[0].subDomain == subDomain then Lookup(records[0], None)
    else FindBySubDomain(records[1..], subDomain)
  }

  /** The search finds a record exactly when one has the subdomain, and then
      the first one; otherwise it returns the zero record and "record not found". */
  lemma {:induction false} FindBySubDomainFirstMatch(records: seq<OVHRecord>, subDomain: string)
    ensures var res := FindBySubDomain(records, subDomain);
      && (res.err.None? <==> exists i :: 0 <= i < |records| && records[i].subDomain == subDomain)
      && (res.err.None? ==> exists i :: IsFirstMatch(records, subDomain, i) && records[i] == res.record)
      && (res.err.Some? ==> res == Lookup(EmptyRecord, Some(RecordNotFound)))
  {
    if records == [] {
    } else if records[0].subDomain == subDomain {
      assert IsFirstMatch(records, subDomain, 0);
    } else {
      FindBySubDomainFirstMatch(records[1..], subDomain);
      assert forall i :: IsFirstMatch(records[1..], subDomain, i) ==> IsFirstMatch(records, subDomain, i + 1);
      assert forall i :: 0 < i < |records| ==> records[i] == records[1..][i - 1];
    }
  }

  /** There is at most one first match. */
  lemma FirstMatchUnique(records: seq<OVHRecord>, subDomain: string, i: int, j: int)
    requires IsFirstMatch(records, subDomain, i) && IsFirstMatch(records, subDomain, j)
    ensures i == j
  {
  }

  /** The records of `records` whose type is `fieldType`, in order. */
  function OfType(records: seq<OVHRecord>, fieldType: string): seq<OVHRecord>
  {
    if records == [] then []
    else
      var last := records[|records| - 1];
      OfType(records[..|records| - 1], fieldType) + (if last.fieldType == fieldType then [last] else [])
  }

  /** A bucket holds exactly the records of its type. */
  lemma {:induction false} OfTypeMembers(records: seq<OVHRecord>, fieldType: string, r: OVHRecord)
    ensures r in OfType(records, fieldType) <==> r in records && r.fieldType == fieldType
  {
    if records != [] {
      var init := records[..|records| - 1];
      OfTypeMembers(init, fieldType, r);
      assert records == init + [records[|records| - 1]];
    }
  }

  /** Bucketing keeps the order of the records: bucketing a concatenation is
      concatenating the buckets. */
  lemma {:induction false} OfTypeConcat(s: seq<OVHRecord>, t: seq<OVHRecord>, fieldType: string)
    ensures OfType(s + t, fieldType) == OfType(s, fieldType) + OfType(t, fieldType)
  {
    if t == [] {
      assert s + t == s;
    } else {
      var init := t[..|t| - 1];
      OfTypeConcat(s, init, fieldType);
      assert (s + t)[..|s + t| - 1] == s + init;
    }
  }

  /** A record of a type other than `A` and `CNAME` lands in neither bucket. */
  lemma OtherTypesInNoBucket(records: seq<OVHRecord>, r: OVHRecord)
    requires r.fieldType != "A" && r.fieldType != "CNAME"
    ensures r !in OfType(records, "A") && r !in OfType(records, "CNAME")
  {
    OfTypeMembers(records, "A", r);
    OfTypeMembers(records, "CNAME", r);
  }

  /** The records fetched, id by id, before the first failing fetch. */
  function Fetched(ids: seq<int64>, fetch: int64 -> Result<OVHRecord>): seq<OVHRecord>
  {
    if ids == [] then []
    else match fetch(ids[0])
      case Err(_) => []
      case Ok(r) => [r] + Fetched(ids[1..], fetch)
  }

  /** The error of the first failing fetch, if any. */
  function FetchError(ids: seq<int64>, fetch: int64 -> Result<OVHRecord>): Option<Error>
  {
    if ids == [] then None
    else match fetch(ids[0])
      case Err(e) => Some(e)
      case Ok(_) => FetchError(ids[1..], fetch)
  }

  /** When the first `k` fetches succeed and fetch `k` fails (or there is none),
      exactly records `0..k-1` are fetched, and the error is that of fetch `k`. */
  lemma {:induction false} FetchedUpToFailure(ids: seq<int64>, fetch: int64 -> Result<OVHRecord>, k: nat)
    requires k <= |ids|
    requires forall j :: 0 <= j < k ==> fetch(ids[j]).Ok?
    requires k < |ids| ==> fetch(ids[k]).Err?
    ensures |Fetched(ids, fetch)| == k
    ensures forall j :: 0 <= j < k ==> Fetched(ids, fetch)[j] == fetch(ids[j]).value
    ensures FetchError(ids, fetch) == if k < |ids| then Some(fetch(ids[k]).error) else None
  {
    if k > 0 {
      assert forall j :: 0 <= j < k - 1 ==> ids[1..][j] == ids[j + 1];
      FetchedUpToFailure(ids[1..], fetch, k - 1);
    }
  }

  /** One step of the fetch loop, seen from position `i`. */
  lemma FetchStep(ids: seq<int64>, fetch: int64 -> Result<OVHRecord>, i: nat)
    requires i < |ids|
    ensures fetch(ids[i]).Err? ==>
      Fetched(ids[i..], fetch) == [] && FetchError(ids[i..], fetch) == Some(fetch(ids[i]).error)
    ensures fetch(ids[i]).Ok? ==>
      Fetched(ids[i..], fetch) == [fetch(ids[i]).value] + Fetched(ids[i + 1..], fetch)
      && FetchError(ids[i..], fetch) == FetchError(ids[i + 1..], fetch)
  {
    assert ids[i..][0] == ids[i] && ids[i..][1..] == ids[i + 1..];
  }

  lemma OfTypeSnoc(s: seq<OVHRecord>, r: OVHRecord, fieldType: string)
    ensures OfType(s + [r], fieldType) == OfType(s, fieldType) + (if r.fieldType == fieldType then [r] else [])
  {
    assert (s + [r])[..|s|] == s;
  }

  /** The part of the Go `OVHManager` the reconciliation uses: the two
      buckets and the configuration (the OVH client handle is not modelled). */
  class OVHManager {
    var remoteCNAMERecords: seq<OVHRecord>
    var remoteARecords: seq<OVHRecord>
    var config: Config

    /** `OVHManager{}` followed by `Init(conf)`. */
    constructor Init(conf: Config)
      ensures remoteCNAMERecords == [] && remoteARecords == [] && config == conf
    {
      remoteCNAMERecords := [];
      remoteARecords := [];
      config := conf;
    }

    function GetZone(): string
      reads this
    {
      config.ovhDNSDomain
    }

    /** Searches the alias bucket only; `A` records are never looked at. */
    function GetRecordBySubDomain(subDomain: string): Lookup
      reads this
    {
      FindBySubDomain(remoteCNAMERecords, subDomain)
    }

    /** The type dispatch of the fetch loop: `A` and `CNAME` records are
        appended to their bucket, any other type is dropped. */
    method AddToBucket(ovhRecord: OVHRecord)
      modifies this
      ensures config == old(config)
      ensures remoteARecords == old(remoteARecords) + (if ovhRecord.fieldType == "A" then [ovhRecord] else [])
      ensures remoteCNAMERecords == old(remoteCNAMERecords) + (if ovhRecord.fieldType == "CNAME" then [ovhRecord] else [])
    {
      if ovhRecord.fieldType == "A" {
        remoteARecords := remoteARecords + [ovhRecord];
      } else if ovhRecord.fieldType == "CNAME" {
        remoteCNAMERecords := remoteCNAMERecords + [ovhRecord];
      }
    }

    /** Lists the zone's record ids, fetches each record and appends it to the
        bucket of its type. The buckets are only appended to. */
    method LoadRemoteRecords(recordIds: Result<seq<int64>>, fetch: int64 -> Result<OVHRecord>)
      returns (err: Option<Error>)
      modifies this
      ensures config == old(config)
      ensures recordIds.Err? ==>
        err == Some(recordIds.error)
        && remoteARecords == old(remoteARecords) && remoteCNAMERecords == old(remoteCNAMERecords)
      ensures recordIds.Ok? ==>
        var got := Fetched(recordIds.value, fetch);
        err == FetchError(recordIds.value, fetch)
        && remoteARecords == old(remoteARecords) + OfType(got, "A")
        && remoteCNAMERecords == old(remoteCNAMERecords) + OfType(got, "CNAME")
    {
      if recordIds.Err? {
        return Some(recordIds.error);
      }
      var ids := recordIds.value;
      ghost var got: seq<OVHRecord> := [];
      for i := 0 to |ids|
        invariant Fetched(ids, fetch) == got + Fetched(ids[i..], fetch)
        invariant FetchError(ids, fetch) == FetchError(ids[i..], fetch)
        invariant remoteARecords == old(remoteARecords) + OfType(got, "A")
        invariant remoteCNAMERecords == old(remoteCNAMERecords) + OfType(got, "CNAME")
        invariant config == old(config)
      {
        FetchStep(ids, fetch, i);
        var fetched := fetch(ids[i]);
        if fetched.Err? {
          assert got + [] == got;
          return Some(fetched.error);
        }
        var ovhRecord := fetched.value;
        AddToBucket(ovhRecord);
        OfTypeSnoc(got, ovhRecord, "A");
        OfTypeSnoc(got, ovhRecord, "CNAME");
        assert got + ([ovhRecord] + Fetched(ids[i + 1..], fetch)) == (got + [ovhRecord]) + Fetched(ids[i + 1..], fetch);
        got := got + [ovhRecord];
      }
      assert ids[|ids|..] == [] && got + [] == got;
      return None;
    }
  }
}
