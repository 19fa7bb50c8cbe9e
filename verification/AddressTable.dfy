/**
 What merges do to the central registry, the table that the generator extracts from it, and
 the two put together: the table is what the deployments wrote.
 */
module AddressTable {
  import opened Options
  import opened RegistryData
  import Protocol = RegistryProtocol
  import Safety = RegistrySafety

  const ZERO_ADDRESS := "0x0000000000000000000000000000000000000000"

  const CONTRACT_TYPES: seq<string> := [
    "FlashLoanArbitrage",
    "PancakeSwapFlashArbitrage",
    "BalancerV2FlashArbitrage",
    "SyncSwapFlashArbitrage",
    "DaiFlashMintArbitrage",
    "CommitRevealArbitrage",
    "MultiPathQuoter"
  ]

  // ---------------------------------------------------------------------------
  // Keys of a network entry
  // ---------------------------------------------------------------------------

  /** Contract type names: no underscore, and not one of the two shared keys. */
  predicate PlainType(t: string) {
    '_' !in t && t != "deployedAt" && t != "deployedBy"
  }

  const SHARED_KEYS: set<string> := {"deployedAt", "deployedBy"}

  function KeysOf(t: string): set<string> {
    {t, t + "_deployedAt", t + "_deployedBy", t + "_verified"}
  }

  lemma SuffixesDiffer(a: string, b: string)
    ensures a + "_deployedAt" != b + "_deployedBy"
    ensures a + "_deployedAt" != b + "_verified"
    ensures a + "_deployedBy" != b + "_verified"
  {
    var x, y, z := a + "_deployedAt", b + "_deployedBy", b + "_verified";
    assert x[|x| - 1] == 't' && y[|y| - 1] == 'y' && z[|z| - 1] == 'd';
    var y' := a + "_deployedBy";
    assert y'[|y'| - 1] == 'y';
  }

  lemma SameSuffix(a: string, b: string, suffix: string)
    requires a + suffix == b + suffix
    ensures a == b
  {
    assert |a| == |b|;
    assert a == (a + suffix)[..|a|] == (b + suffix)[..|b|] == b;
  }

  lemma SuffixedIsNotPlain(a: string, suffix: string, b: string)
    requires '_' !in b && suffix != "" && suffix[0] == '_'
    ensures a + suffix != b
  {
  }

  /** The keys of two contract types, and the keys shared by all of them, never coincide. */
  lemma KeysDisjoint(a: string, b: string)
    requires PlainType(a) && PlainType(b) && a != b
    ensures KeysOf(a) !! KeysOf(b)
  {
    SuffixesDiffer(a, b);
    SuffixesDiffer(b, a);
    forall suffix | suffix in {"_deployedAt", "_deployedBy", "_verified"}
      ensures a + suffix != b + suffix && a + suffix != b && b + suffix != a
    {
      if a + suffix == b + suffix { SameSuffix(a, b, suffix); }
      SuffixedIsNotPlain(a, suffix, b);
      SuffixedIsNotPlain(b, suffix, a);
    }
    assert "_deployedAt" in {"_deployedAt", "_deployedBy", "_verified"};
  }

  lemma SharedKeysDisjoint(a: string)
    requires PlainType(a)
    ensures KeysOf(a) !! SHARED_KEYS
  {
    forall shared, suffix | shared in SHARED_KEYS && suffix in {"_deployedAt", "_deployedBy", "_verified"}
      ensures a + suffix != shared
    {
      SuffixedIsNotPlain(a, suffix, shared);
    }
    assert "_deployedAt" in {"_deployedAt", "_deployedBy", "_verified"};
  }

  // ---------------------------------------------------------------------------
  // Sequences of merges
  // ---------------------------------------------------------------------------

  /** The value under `key` in the entry of `network`, Null when there is none. */
  function Lookup(r: Registry, network: string, key: string): Json {
    var entry := EntryOf(r, network);
    if entry.Obj? && key in entry.fields then entry.fields[key] else Null
  }

  predicate IsMerge(m: Mutator) {
    m.Merge? && PlainType(m.contractType)
  }

  predicate For(m: Mutator, network: string, t: string) {
    m.Merge? && m.d.network == network && m.contractType == t
  }

  /** The last merge for a (network, contract type) pair. */
  function LastFor(ms: seq<Mutator>, network: string, t: string): Option<Mutator> {
    if ms == [] then None
    else if For(ms[|ms| - 1], network, t) then Some(ms[|ms| - 1])
    else LastFor(ms[..|ms| - 1], network, t)
  }

  /** A merge leaves every key of every other contract type, and every other network, as it was. */
  lemma MergeFrame(m: Mutator, r: Registry, network: string, t: string, key: string)
    requires IsMerge(m) && PlainType(t)
    requires !For(m, network, t)
    requires key in KeysOf(t)
    ensures Lookup(Mutate(m, r), network, key) == Lookup(r, network, key)
  {
    if m.d.network == network {
      KeysDisjoint(m.contractType, t);
      SharedKeysDisjoint(t);
    }
  }

  /** Whether an entry is an array never changes, and nothing can be looked up in an array. */
  lemma MergeKeepsArrays(m: Mutator, r: Registry, network: string)
    requires IsMerge(m)
    ensures EntryOf(Mutate(m, r), network).Arr? <==> EntryOf(r, network).Arr?
  {
  }

  lemma MergeWrites(m: Mutator, r: Registry)
    requires IsMerge(m) && !EntryOf(r, m.d.network).Arr?
    ensures Lookup(Mutate(m, r), m.d.network, m.contractType) == Str(m.d.address)
    ensures Lookup(Mutate(m, r), m.d.network, m.contractType + "_deployedAt") == Num(m.d.timestamp)
    ensures Lookup(Mutate(m, r), m.d.network, m.contractType + "_deployedBy") == Str(m.d.deployer)
    ensures Lookup(Mutate(m, r), m.d.network, m.contractType + "_verified") == Bool(m.d.verified)
  {
    var t := m.contractType;
    SharedKeysDisjoint(t);
    SuffixesDiffer(t, t);
    SuffixedIsNotPlain(t, "_deployedAt", t);
    SuffixedIsNotPlain(t, "_deployedBy", t);
    SuffixedIsNotPlain(t, "_verified", t);
    assert t in KeysOf(t) && t + "_deployedAt" in KeysOf(t) && t + "_deployedBy" in KeysOf(t) &&
        t + "_verified" in KeysOf(t);
  }

  /**
   After any sequence of merges each pair holds what the last merge for it wrote, address and
   metadata, and a pair that was never merged holds what it held before. It fails exactly for a
   network whose entry is an array, where every merge is lost.
   */
  lemma {:induction false} LastMergeWins(ms: seq<Mutator>, r: Registry, network: string, t: string)
    requires forall m :: m in ms ==> IsMerge(m)
    requires PlainType(t)
    ensures EntryOf(Fold(ms, r), network).Arr? <==> EntryOf(r, network).Arr?
    ensures var r' := Fold(ms, r);
            var last := LastFor(ms, network, t);
            if last.None? || EntryOf(r, network).Arr? then
              forall key :: key in KeysOf(t) ==> Lookup(r', network, key) == Lookup(r, network, key)
            else
              && Lookup(r', network, t) == Str(last.value.d.address)
              && Lookup(r', network, t + "_deployedAt") == Num(last.value.d.timestamp)
              && Lookup(r', network, t + "_deployedBy") == Str(last.value.d.deployer)
              && Lookup(r', network, t + "_verified") == Bool(last.value.d.verified)
  {
    if ms != [] {
      var front, m := ms[..|ms| - 1], ms[|ms| - 1];
      assert ms == front + [m];
      LastMergeWins(front, r, network, t);
      var mid := Fold(front, r);
      FoldSnoc(front, m, r);
      MergeKeepsArrays(m, mid, network);
      if For(m, network, t) {
        if !EntryOf(r, network).Arr? {
          MergeWrites(m, mid);
        }
      } else {
        forall key | key in KeysOf(t) ensures Lookup(Mutate(m, mid), network, key) == Lookup(mid, network, key) {
          MergeFrame(m, mid, network, t, key);
        }
        assert t in KeysOf(t) && t + "_deployedAt" in KeysOf(t) && t + "_deployedBy" in KeysOf(t) &&
            t + "_verified" in KeysOf(t);
      }
    }
  }

  /** The last merge into a network, whatever its contract type. */
  function LastInto(ms: seq<Mutator>, network: string): Option<Mutator> {
    if ms == [] then None
    else if ms[|ms| - 1].Merge? && ms[|ms| - 1].d.network == network then Some(ms[|ms| - 1])
    else LastInto(ms[..|ms| - 1], network)
  }

  /** The two shared keys tell of the last merge into the network, whatever its type. */
  lemma {:induction false} SharedKeysTellOfTheLast(ms: seq<Mutator>, r: Registry, network: string)
    requires forall m :: m in ms ==> IsMerge(m)
    requires !EntryOf(r, network).Arr?
    ensures var last := LastInto(ms, network);
            var r' := Fold(ms, r);
            if last.None? then
              && Lookup(r', network, "deployedAt") == Lookup(r, network, "deployedAt")
              && Lookup(r', network, "deployedBy") == Lookup(r, network, "deployedBy")
            else
              && Lookup(r', network, "deployedAt") == Num(last.value.d.timestamp)
              && Lookup(r', network, "deployedBy") == Str(last.value.d.deployer)
    ensures !EntryOf(Fold(ms, r), network).Arr?
  {
    if ms != [] {
      var front, m := ms[..|ms| - 1], ms[|ms| - 1];
      assert ms == front + [m];
      SharedKeysTellOfTheLast(front, r, network);
      FoldSnoc(front, m, r);
      MergeKeepsArrays(m, Fold(front, r), network);
    }
  }

  /** A merge adds no other key to the entry, and changes no other. */
  lemma MergeAddsNothingElse(m: Mutator, r: Registry, network: string, key: string)
    requires IsMerge(m)
    requires network != m.d.network ||
             (key !in KeysOf(m.contractType) && key != "deployedAt" && key != "deployedBy")
    ensures Lookup(Mutate(m, r), network, key) == Lookup(r, network, key)
  {
  }

  lemma MergeIdempotent(m: Mutator, r: Registry)
    requires IsMerge(m)
    ensures Mutate(m, Mutate(m, r)) == Mutate(m, r)
  {
    if !EntryOf(r, m.d.network).Arr? {
      var once := EntryOf(Mutate(m, r), m.d.network);
      MergeWrites(m, r);
      assert EntryOf(Mutate(m, Mutate(m, r)), m.d.network).fields == once.fields;
    }
  }

  /** The registry without the keys shared by all contract types of a network. */
  function WithoutShared(r: Registry): Registry {
    map n | n in r :: if r[n].Obj? then Obj(r[n].fields - SHARED_KEYS) else r[n]
  }

  /** What a merge puts under a key, as a function of the key alone. */
  lemma MergedValue(entry: Json, d: Deployment, t: string, key: string)
    requires PlainType(t) && !entry.Arr? && key !in SHARED_KEYS
    ensures var before := if entry.Obj? then entry.fields else map[];
            var after := MergedEntry(entry, d, t).fields;
            if key in KeysOf(t) then
              key in after && after[key] == MergedEntry(Null, d, t).fields[key]
            else
              (key in after <==> key in before) && (key in before ==> after[key] == before[key])
  {
  }

  lemma EntriesCommute(entry: Json, a: Mutator, b: Mutator)
    requires IsMerge(a) && IsMerge(b) && a.contractType != b.contractType
    requires !entry.Arr?
    ensures var ab := MergedEntry(MergedEntry(entry, a.d, a.contractType), b.d, b.contractType);
            var ba := MergedEntry(MergedEntry(entry, b.d, b.contractType), a.d, a.contractType);
            ab.fields - SHARED_KEYS == ba.fields - SHARED_KEYS
  {
    KeysDisjoint(a.contractType, b.contractType);
    var ea, eb := MergedEntry(entry, a.d, a.contractType), MergedEntry(entry, b.d, b.contractType);
    var ab := MergedEntry(ea, b.d, b.contractType).fields;
    var ba := MergedEntry(eb, a.d, a.contractType).fields;
    forall key | key !in SHARED_KEYS
      ensures (key in ab <==> key in ba) && (key in ab ==> ab[key] == ba[key])
    {
      MergedValue(entry, a.d, a.contractType, key);
      MergedValue(entry, b.d, b.contractType, key);
      MergedValue(ea, b.d, b.contractType, key);
      MergedValue(eb, a.d, a.contractType, key);
    }
  }

  lemma MergedShape(entry: Json, d: Deployment, t: string)
    ensures if entry.Arr? then MergedEntry(entry, d, t) == entry else MergedEntry(entry, d, t).Obj?
  {
  }

  /** Merges for different pairs commute up to the shared deployedAt/deployedBy keys. */
  lemma MergesCommute(a: Mutator, b: Mutator, r: Registry)
    requires IsMerge(a) && IsMerge(b)
    requires !For(a, b.d.network, b.contractType)
    ensures WithoutShared(Mutate(b, Mutate(a, r))) == WithoutShared(Mutate(a, Mutate(b, r)))
    ensures a.d.network != b.d.network ==> Mutate(b, Mutate(a, r)) == Mutate(a, Mutate(b, r))
  {
    hide MergedEntry;
    var ab, ba := Mutate(b, Mutate(a, r)), Mutate(a, Mutate(b, r));
    if a.d.network != b.d.network {
      assert ab == ba;
    } else {
      var n := a.d.network;
      var ea, eb := MergedEntry(EntryOf(r, n), a.d, a.contractType), MergedEntry(EntryOf(r, n), b.d, b.contractType);
      MergedShape(EntryOf(r, n), a.d, a.contractType);
      MergedShape(EntryOf(r, n), b.d, b.contractType);
      MergedShape(ea, b.d, b.contractType);
      MergedShape(eb, a.d, a.contractType);
      if !EntryOf(r, n).Arr? {
        EntriesCommute(EntryOf(r, n), a, b);
      }
      assert WithoutShared(ab).Keys == WithoutShared(ba).Keys;
    }
  }

  // ---------------------------------------------------------------------------
  // Extraction
  // ---------------------------------------------------------------------------

  type Table = map<string, map<string, string>>

  predicate IsMetadataKey(key: string) {
    key != "" && key[0] == '_'
  }

  function NetworkKeys(r: Registry): set<string> {
    set n | n in r && !IsMetadataKey(n)
  }

  /** Non-null, a string, not empty and not the zero address. */
  predicate IsDeployed(address: Json) {
    address.Str? && address.s != "" && address.s != ZERO_ADDRESS
  }

  function Column(r: Registry, t: string): map<string, string> {
    map n | n in NetworkKeys(r) && IsDeployed(Lookup(r, n, t)) :: Lookup(r, n, t).s
  }

  /** The value of a null entry cannot be indexed: the generator throws on one. */
  ghost predicate Indexable(r: Registry) {
    forall n :: n in NetworkKeys(r) ==> !r[n].Null?
  }

  /** The network is no metadata key, and its entry has a non-empty, non-zero address under the type. */
  predicate HasAddress(r: Registry, n: string, t: string) {
    && n in r && (n == "" || n[0] != '_')
    && r[n].Obj? && t in r[n].fields
    && r[n].fields[t].Str? && r[n].fields[t].s != ""
    && r[n].fields[t].s != "0x0000000000000000000000000000000000000000"
  }

  lemma ColumnHasAddresses(r: Registry, t: string)
    ensures forall n :: n in Column(r, t) <==> HasAddress(r, n, t)
    ensures forall n :: n in Column(r, t) ==> r[n].fields[t] == Str(Column(r, t)[n])
  {
  }

  /** One column of the table; None is the TypeError thrown on a network whose entry is null. */
  method ExtractColumn(r: Registry, t: string) returns (column: Option<map<string, string>>)
    ensures column.Some? <==> Indexable(r)
    ensures column.Some? ==> column.value == Column(r, t)
    ensures column.Some? ==> forall n :: n in column.value <==> HasAddress(r, n, t)
    ensures column.Some? ==> forall n :: n in column.value ==> r[n].fields[t] == Str(column.value[n])
  {
    var row: map<string, string> := map[];
    var rest := NetworkKeys(r);
    while rest != {}
      invariant rest <= NetworkKeys(r)
      invariant forall n :: n in NetworkKeys(r) - rest ==> !r[n].Null?
      invariant row == map n | n in NetworkKeys(r) - rest && IsDeployed(Lookup(r, n, t)) :: Lookup(r, n, t).s
      decreases rest
    {
      var n :| n in rest;
      if r[n].Null? {
        return None;
      }
      var address := Lookup(r, n, t);
      if IsDeployed(address) {
        row := row[n := address.s];
      }
      rest := rest - {n};
    }
    ColumnHasAddresses(r, t);
    column := Some(row);
  }

  method ExtractAddressesByType(r: Registry) returns (table: Option<Table>)
    ensures table.Some? <==> Indexable(r)
    ensures table.Some? ==> table.value.Keys == {
              "FlashLoanArbitrage", "PancakeSwapFlashArbitrage", "BalancerV2FlashArbitrage", "SyncSwapFlashArbitrage",
              "DaiFlashMintArbitrage", "CommitRevealArbitrage", "MultiPathQuoter"}
    ensures table.Some? ==> forall t :: t in CONTRACT_TYPES ==> table.value[t] == Column(r, t)
  {
    var types := CONTRACT_TYPES;
    var result: Table := map[];
    for i := 0 to |types|
      invariant result.Keys == set t | t in types[..i]
      invariant forall t :: t in result ==> result[t] == Column(r, t)
      invariant i > 0 ==> Indexable(r)
    {
      var column := ExtractColumn(r, types[i]);
      if column.None? {
        return None;
      }
      result := result[types[i] := column.value];
    }
    assert types[..|types|] == types;
    table := Some(result);
  }

  lemma ListedTypesArePlain(t: string)
    requires t in CONTRACT_TYPES
    ensures PlainType(t)
  {
  }

  /**
   End to end: let any number of deployers merge into the central registry in any interleaving,
   with crashes and retries. In the table extracted afterwards every listed contract type maps
   exactly the networks whose last committed deployment has a usable address, each to that
   address; a pair nobody deployed, or one of a network whose entry is an array, keeps what it
   had before the run.
   */
  lemma TableIsWhatWasDeployed(s: Protocol.State, tr: seq<Protocol.Event>, network: string, t: string)
    requires Protocol.Initial(s) && Protocol.Healthy(s, tr) && Protocol.Run(s, tr).Some?
    requires forall p :: 0 <= p < |s.procs| ==> IsMerge(s.procs[p].mutator)
    requires Protocol.Run(s, tr).value.file.Whole?
    requires t in CONTRACT_TYPES && (network == "" || network[0] != '_')
    ensures var column := Column(Protocol.Run(s, tr).value.file.registry, t);
            var last := LastFor(Protocol.Committed(s, tr), network, t);
            var kept := last.None? || EntryOf(Protocol.Base(s.file), network).Arr?;
            var address := if kept then Lookup(Protocol.Base(s.file), network, t) else Str(last.value.d.address);
            && (network in column <==>
                  address.Str? && address.s != "" && address.s != "0x0000000000000000000000000000000000000000")
            && (network in column ==> column[network] == address.s)
  {
    var ms := Protocol.Committed(s, tr);
    Safety.Serialisable(s, tr);
    CommittedAreMerges(s, tr);
    ListedTypesArePlain(t);
    LastMergeWins(ms, Protocol.Base(s.file), network, t);
    assert t in KeysOf(t);
  }

  lemma {:induction false} CommittedAreMerges(s: Protocol.State, tr: seq<Protocol.Event>)
    requires forall p :: 0 <= p < |s.procs| ==> IsMerge(s.procs[p].mutator)
    ensures forall m :: m in Protocol.Committed(s, tr) ==> IsMerge(m)
    decreases |tr|
  {
    if tr != [] && Protocol.Next(s, tr[0]).Some? {
      var s' := Protocol.Next(s, tr[0]).value;
      Protocol.StepEffect(s, tr[0], s');
      CommittedAreMerges(s', tr[1..]);
    }
  }
}
