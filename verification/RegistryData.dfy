/**
 The deployment registry (registry.json) as data, and the two mutators that the deployment
 helpers run on it: the flat overwrite of a per-contract registry and the merge of one
 contract into the central registry.
 */
module RegistryData {
  datatype Json =
    | Null
    | Bool(b: bool)
    | Num(n: int)
    | Str(s: string)
    | Arr(items: seq<Json>)
    | Obj(fields: map<string, Json>)

  type Registry = map<string, Json>

  /** A deployment result. `record` is the whole result object as it is serialised. */
  datatype Deployment = Deployment(
    network: string,
    address: string,
    timestamp: int,
    deployer: string,
    verified: bool,
    record: Json)

  datatype Mutator =
    | Overwrite(d: Deployment)
    | Merge(d: Deployment, contractType: string)

  function Mutate(m: Mutator, r: Registry): Registry {
    match m
    case Overwrite(d) => r[d.network := d.record]
    case Merge(d, contractType) => MergeDeployment(r, d, contractType)
  }

  /** The mutators applied one after the other, the first one first. */
  function Fold(ms: seq<Mutator>, r: Registry): Registry {
    if ms == [] then r else Fold(ms[1..], Mutate(ms[0], r))
  }

  lemma {:induction false} FoldSnoc(ms: seq<Mutator>, m: Mutator, r: Registry)
    ensures Fold(ms + [m], r) == Mutate(m, Fold(ms, r))
  {
    if ms == [] {
      assert [] + [m] == [m] && [m][1..] == [];
      assert Fold([m], r) == Fold([], Mutate(m, r));
    } else {
      assert (ms + [m])[1..] == ms[1..] + [m];
      FoldSnoc(ms[1..], m, Mutate(ms[0], r));
    }
  }

  /**
   The entry that a merge writes into. A missing or non-object entry is replaced by an empty
   object. An array passes the `typeof` test, but the string-keyed properties put on it are
   dropped when the registry is serialised, so it comes back from disk as it was.
   */
  function MergedEntry(entry: Json, d: Deployment, contractType: string): Json {
    match entry
    case Arr(_) => entry
    case _ =>
      var fields := if entry.Obj? then entry.fields else map[];
      Obj(fields[contractType := Str(d.address)]
                [contractType + "_deployedAt" := Num(d.timestamp)]
                [contractType + "_deployedBy" := Str(d.deployer)]
                [contractType + "_verified" := Bool(d.verified)]
                ["deployedAt" := Num(d.timestamp)]
                ["deployedBy" := Str(d.deployer)])
  }

  function EntryOf(r: Registry, network: string): Json {
    if network in r then r[network] else Null
  }

  function MergeDeployment(r: Registry, d: Deployment, contractType: string): Registry {
    r[d.network := MergedEntry(EntryOf(r, d.network), d, contractType)]
  }

  /** The parsed registry that a mutator callback changes in place. */
  class RegistryObject {
    var entries: Registry

    constructor (parsed: Registry)
      ensures entries == parsed
    {
      entries := parsed;
    }

    /** The callback of updateRegistryWithLock. */
    method Store(d: Deployment)
      modifies this
      ensures d.network in entries && entries[d.network] == d.record
      ensures forall n :: n != d.network ==>
                EntryOf(entries, n) == EntryOf(old(entries), n) && (n in entries <==> n in old(entries))
      ensures entries == Mutate(Overwrite(d), old(entries))
    {
      entries := entries[d.network := d.record];
    }

    /** The callback of mergeIntoCentralRegistry, property by property. */
    method MergeContract(d: Deployment, contractType: string)
      modifies this
      ensures entries == Mutate(Merge(d, contractType), old(entries))
    {
      hide MergedEntry, WithProperty;
      var networkKey := d.network;
      if networkKey !in entries || (!entries[networkKey].Obj? && !entries[networkKey].Arr?) {
        entries := entries[networkKey := Obj(map[])];
      }
      ghost var base := entries;
      SetProperty(networkKey, contractType, Str(d.address));
      SetProperty(networkKey, contractType + "_deployedAt", Num(d.timestamp));
      SetProperty(networkKey, contractType + "_deployedBy", Str(d.deployer));
      SetProperty(networkKey, contractType + "_verified", Bool(d.verified));
      SetProperty(networkKey, "deployedAt", Num(d.timestamp));
      SetProperty(networkKey, "deployedBy", Str(d.deployer));
      MergedInSteps(EntryOf(old(entries), networkKey), base[networkKey], d, contractType);
      assert entries == old(entries)[networkKey := entries[networkKey]];
    }

    method SetProperty(networkKey: string, key: string, value: Json)
      requires networkKey in entries && (entries[networkKey].Obj? || entries[networkKey].Arr?)
      modifies this
      ensures networkKey in entries && (entries[networkKey].Obj? || entries[networkKey].Arr?)
      ensures entries[networkKey] == WithProperty(old(entries)[networkKey], key, value)
      ensures SameElsewhere(old(entries), entries, networkKey)
    {
      if entries[networkKey].Obj? {
        entries := entries[networkKey := Obj(entries[networkKey].fields[key := value])];
      }
    }
  }

  ghost predicate SameElsewhere(r: Registry, r': Registry, network: string) {
    forall n :: n != network ==> (n in r <==> n in r') && (n in r ==> r'[n] == r[n])
  }

  /** Property assignment, as far as it survives serialisation. */
  function WithProperty(entry: Json, key: string, value: Json): (r: Json)
    requires entry.Obj? || entry.Arr?
    ensures r.Obj? || r.Arr?
  {
    if entry.Obj? then Obj(entry.fields[key := value]) else entry
  }

  /** The merge as the assignments one after the other, `base` being the entry they start from. */
  lemma MergedInSteps(entry: Json, base: Json, d: Deployment, contractType: string)
    requires base == if entry.Obj? || entry.Arr? then entry else Obj(map[])
    ensures var a := WithProperty(base, contractType, Str(d.address));
            var b := WithProperty(a, contractType + "_deployedAt", Num(d.timestamp));
            var c := WithProperty(b, contractType + "_deployedBy", Str(d.deployer));
            var e := WithProperty(c, contractType + "_verified", Bool(d.verified));
            var f := WithProperty(e, "deployedAt", Num(d.timestamp));
            WithProperty(f, "deployedBy", Str(d.deployer)) == MergedEntry(entry, d, contractType)
  {
  }
}
