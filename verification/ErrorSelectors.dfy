/**
 The error-selector table: one entry per custom error signature found in any ABI, with the
 selector collisions detected on the way. The hash is arbitrary. A selector is a number here;
 its text is fixed-width lower-case hexadecimal, so text order is number order.
 */
module ErrorSelectors {
  import opened Options

  /** An ABI item; `inputs` are the parameter types. */
  datatype AbiItem = AbiItem(kind: string, name: Option<string>, inputs: seq<string>)

  datatype Abi = Abi(contractName: string, items: seq<AbiItem>)

  datatype Entry = Entry(selector: nat, name: string, signature: string, source: string)

  /** Collision and NoErrors are the two early exits of the script. */
  datatype Outcome = Collision | NoErrors | Table(entries: seq<Entry>)

  function JoinTypes(types: seq<string>): string {
    if types == [] then "" else if |types| == 1 then types[0] else types[0] + "," + JoinTypes(types[1..])
  }

  predicate IsNamedError(item: AbiItem) {
    item.kind == "error" && item.name.Some? && item.name.value != ""
  }

  function Signature(item: AbiItem): string
    requires IsNamedError(item)
  {
    item.name.value + "(" + JoinTypes(item.inputs) + ")"
  }

  /** The signatures of the named errors among some items, and of those in all ABIs. */
  function SignaturesOf(items: seq<AbiItem>): set<string> {
    set i | 0 <= i < |items| && IsNamedError(items[i]) :: Signature(items[i])
  }

  function Signatures(abis: seq<Abi>): set<string> {
    if abis == [] then {} else Signatures(abis[..|abis| - 1]) + SignaturesOf(abis[|abis| - 1].items)
  }

  ghost predicate CollisionFree(signatures: set<string>, hash: string -> nat) {
    forall a, b :: a in signatures && b in signatures && hash(a) == hash(b) ==> a == b
  }

  function SignatureSet(entries: seq<Entry>): set<string> {
    set i | 0 <= i < |entries| :: entries[i].signature
  }

  predicate StrictlySorted(entries: seq<Entry>) {
    forall i, j :: 0 <= i < j < |entries| ==> entries[i].selector < entries[j].selector
  }

  predicate Hashed(entries: seq<Entry>, hash: string -> nat) {
    forall i :: 0 <= i < |entries| ==> entries[i].selector == hash(entries[i].signature)
  }

  predicate DistinctSelectors(entries: seq<Entry>) {
    forall i, j :: 0 <= i < j < |entries| ==> entries[i].selector != entries[j].selector
  }

  lemma SortedWithHead(head: Entry, rest: seq<Entry>)
    requires StrictlySorted(rest)
    requires forall x :: x in rest ==> head.selector < x.selector
    ensures StrictlySorted([head] + rest)
  {
    var r := [head] + rest;
    forall i, j | 0 <= i < j < |r| ensures r[i].selector < r[j].selector {
      assert r[j] == rest[j - 1] && rest[j - 1] in rest;
      assert i > 0 ==> r[i] == rest[i - 1];
    }
  }

  function Insert(e: Entry, sorted: seq<Entry>): (r: seq<Entry>)
    requires StrictlySorted(sorted)
    requires forall x :: x in sorted ==> x.selector != e.selector
    ensures StrictlySorted(r)
    ensures |r| == |sorted| + 1
    ensures forall x :: x in r <==> x == e || x in sorted
  {
    if sorted == [] then [e]
    else if e.selector < sorted[0].selector then [e] + sorted
    else
      var rest := Insert(e, sorted[1..]);
      SortedWithHead(sorted[0], rest);
      [sorted[0]] + rest
  }

  function Sort(entries: seq<Entry>): (r: seq<Entry>)
    requires DistinctSelectors(entries)
    ensures StrictlySorted(r)
    ensures |r| == |entries|
    ensures forall x :: x in r <==> x in entries
  {
    if entries == [] then [] else
      var rest := entries[1..];
      assert forall x :: x in rest ==> exists i :: 1 <= i < |entries| && entries[i] == x;
      Insert(entries[0], Sort(rest))
  }

  lemma SameElements(a: seq<Entry>, b: seq<Entry>)
    requires forall e :: e in a <==> e in b
    ensures SignatureSet(a) == SignatureSet(b)
  {
    forall s ensures s in SignatureSet(a) <==> s in SignatureSet(b) {
      if s in SignatureSet(a) {
        var i :| 0 <= i < |a| && a[i].signature == s;
        assert a[i] in b;
      }
      if s in SignatureSet(b) {
        var i :| 0 <= i < |b| && b[i].signature == s;
        assert b[i] in a;
      }
    }
  }

  predicate HasSelector(selectors: seq<Entry>, k: nat) {
    exists i :: 0 <= i < |selectors| && selectors[i].selector == k
  }

  /** The map kept beside the list: which signature owns each selector so far. */
  ghost predicate Tracks(selectorMap: map<nat, string>, selectors: seq<Entry>) {
    && (forall i :: 0 <= i < |selectors| ==>
          selectors[i].selector in selectorMap && selectorMap[selectors[i].selector] == selectors[i].signature)
    && (forall k :: k in selectorMap ==> HasSelector(selectors, k))
  }

  /** What the loop has established after collecting the signatures `seen`. */
  ghost predicate Collected(selectorMap: map<nat, string>, selectors: seq<Entry>, seen: set<string>,
          hash: string -> nat)
  {
    && Tracks(selectorMap, selectors)
    && DistinctSelectors(selectors)
    && Hashed(selectors, hash)
    && SignatureSet(selectors) == seen
  }

  lemma CollectOne(selectorMap: map<nat, string>, selectors: seq<Entry>, seen: set<string>, hash: string -> nat,
          e: Entry)
    requires Collected(selectorMap, selectors, seen, hash)
    requires e.selector !in selectorMap && e.selector == hash(e.signature)
    ensures Collected(selectorMap[e.selector := e.signature], selectors + [e], seen + {e.signature}, hash)
  {
    var next := selectors + [e];
    forall s ensures s in SignatureSet(next) <==> s in seen + {e.signature} {
      if s in seen {
        var i :| 0 <= i < |selectors| && selectors[i].signature == s;
        assert next[i].signature == s;
      }
      assert next[|selectors|] == e;
    }
    forall k | k in selectorMap || k == e.selector ensures HasSelector(next, k) {
      if k == e.selector {
        assert next[|selectors|].selector == k;
      } else {
        var i :| 0 <= i < |selectors| && selectors[i].selector == k;
        assert next[i].selector == k;
      }
    }
  }

  lemma {:induction false} PrefixSignatures(abis: seq<Abi>, k: nat)
    requires k <= |abis|
    ensures Signatures(abis[..k]) <= Signatures(abis)
  {
    if k == |abis| {
      assert abis[..k] == abis;
    } else {
      var shorter := abis[..|abis| - 1];
      assert shorter[..k] == abis[..k];
      PrefixSignatures(shorter, k);
    }
  }

  /** The signatures met before item j of ABI i. */
  function Met(abis: seq<Abi>, i: nat, j: nat): set<string>
    requires i < |abis| && j <= |abis[i].items|
  {
    Signatures(abis[..i]) + SignaturesOf(abis[i].items[..j])
  }

  lemma MetNext(abis: seq<Abi>, i: nat, j: nat)
    requires i < |abis| && j < |abis[i].items|
    ensures var item := abis[i].items[j];
            Met(abis, i, j + 1) == Met(abis, i, j) + (if IsNamedError(item) then {Signature(item)} else {})
    ensures Met(abis, i, j + 1) <= Signatures(abis)
  {
    var items := abis[i].items;
    assert abis[..i + 1][..i] == abis[..i];
    PrefixSignatures(abis, i + 1);
  }

  lemma MetAll(abis: seq<Abi>, i: nat)
    requires i < |abis|
    ensures Met(abis, i, |abis[i].items|) == Signatures(abis[..i + 1])
  {
    var items := abis[i].items;
    assert items[..|items|] == items && abis[..i + 1][..i] == abis[..i];
  }

  /** Item j of ABI i is the first named error with the entry's signature, and the entry names it and its contract. */
  ghost predicate Origin(abis: seq<Abi>, i: nat, j: nat, e: Entry) {
    && i < |abis| && j < |abis[i].items|
    && IsNamedError(abis[i].items[j])
    && e.name == abis[i].items[j].name.value
    && e.signature == Signature(abis[i].items[j])
    && e.source == abis[i].contractName
    && e.signature !in Met(abis, i, j)
  }

  ghost predicate HasOrigin(abis: seq<Abi>, e: Entry) {
    exists i: nat, j: nat :: Origin(abis, i, j, e)
  }

  /** A signature whose selector is not in the map has not been met. */
  lemma NewSelector(selectorMap: map<nat, string>, selectors: seq<Entry>, seen: set<string>, hash: string -> nat,
          signature: string)
    requires Collected(selectorMap, selectors, seen, hash)
    requires hash(signature) !in selectorMap
    ensures signature !in seen
  {
  }

  /** The entry pushed for item j of ABI i, whose selector is not in the map. */
  lemma PushEntry(selectorMap: map<nat, string>, selectors: seq<Entry>, abis: seq<Abi>, i: nat, j: nat,
          hash: string -> nat, e: Entry)
    requires i < |abis| && j < |abis[i].items| && IsNamedError(abis[i].items[j])
    requires e.signature == Signature(abis[i].items[j]) && e.selector == hash(e.signature)
    requires e.name == abis[i].items[j].name.value && e.source == abis[i].contractName
    requires Collected(selectorMap, selectors, Met(abis, i, j), hash)
    requires e.selector !in selectorMap
    ensures Collected(selectorMap[e.selector := e.signature], selectors + [e], Met(abis, i, j + 1), hash)
    ensures HasOrigin(abis, e)
  {
    hide Collected, Met, Signature;
    MetNext(abis, i, j);
    NewSelector(selectorMap, selectors, Met(abis, i, j), hash, e.signature);
    CollectOne(selectorMap, selectors, Met(abis, i, j), hash, e);
    assert Origin(abis, i, j, e);
  }

  /**
   The script completes with a table exactly when no two distinct signatures share a selector
   and there is at least one named error; the table is then sorted and is a bijection between
   the signatures occurring in any ABI and their selectors, each entry with the name and the
   contract of the first error that has its signature.
   */
  method GenerateSelectors(abis: seq<Abi>, hash: string -> nat) returns (r: Outcome)
    ensures r.Collision? <==> !CollisionFree(Signatures(abis), hash)
    ensures r.NoErrors? <==> Signatures(abis) == {}
    ensures r.Table? ==>
              StrictlySorted(r.entries) && Hashed(r.entries, hash) && SignatureSet(r.entries) == Signatures(abis)
    ensures r.Table? ==> forall e :: e in r.entries ==> HasOrigin(abis, e)
  {
    hide HasOrigin;
    var selectors: seq<Entry> := [];
    var selectorMap: map<nat, string> := map[];
    for i := 0 to |abis|
      invariant Collected(selectorMap, selectors, Signatures(abis[..i]), hash)
      invariant forall e :: e in selectors ==> HasOrigin(abis, e)
    {
      assert Met(abis, i, 0) == Signatures(abis[..i]);
      for j := 0 to |abis[i].items|
        invariant Collected(selectorMap, selectors, Met(abis, i, j), hash)
        invariant forall e :: e in selectors ==> HasOrigin(abis, e)
      {
        var item := abis[i].items[j];
        MetNext(abis, i, j);
        if !IsNamedError(item) {
          continue;
        }
        var signature := Signature(item);
        var selector := hash(signature);
        if selector in selectorMap {
          if selectorMap[selector] == signature {
            assert Met(abis, i, j + 1) == Met(abis, i, j);
            continue;
          }
          return Collision;
        }
        var e := Entry(selector, item.name.value, signature, abis[i].contractName);
        PushEntry(selectorMap, selectors, abis, i, j, hash, e);
        selectorMap := selectorMap[selector := signature];
        selectors := selectors + [e];
      }
      MetAll(abis, i);
    }
    assert abis[..|abis|] == abis;
    if |selectors| == 0 {
      return NoErrors;
    }
    assert selectors[0].signature in SignatureSet(selectors);
    var table := Sort(selectors);
    SameElements(table, selectors);
    assert forall i :: 0 <= i < |table| ==> table[i] in selectors;
    return Table(table);
  }

  /** Two tables over the same signatures list the same selectors and signatures in the same order. */
  lemma {:induction false} TableIsDetermined(a: seq<Entry>, b: seq<Entry>, hash: string -> nat)
    requires StrictlySorted(a) && StrictlySorted(b)
    requires Hashed(a, hash) && Hashed(b, hash)
    requires SignatureSet(a) == SignatureSet(b)
    ensures |a| == |b|
    ensures forall i :: 0 <= i < |a| ==> a[i].selector == b[i].selector && a[i].signature == b[i].signature
    decreases |a|
  {
    NoSignatures(a);
    NoSignatures(b);
    if a != [] {
      assert a[0].signature in SignatureSet(b);
      var i :| 0 <= i < |b| && b[i].signature == a[0].signature;
      assert b[0].signature in SignatureSet(a);
      var j :| 0 <= j < |a| && a[j].signature == b[0].signature;
      assert a[0].selector <= a[j].selector && b[0].selector <= b[i].selector;
      TailSignatures(a);
      TailSignatures(b);
      TableIsDetermined(a[1..], b[1..], hash);
      assert forall k :: 1 <= k < |a| ==> a[k] == a[1..][k - 1];
      assert forall k :: 1 <= k < |b| ==> b[k] == b[1..][k - 1];
    }
  }

  lemma NoSignatures(a: seq<Entry>)
    ensures SignatureSet(a) == {} <==> a == []
  {
    if a != [] {
      assert a[0].signature in SignatureSet(a);
    }
  }

  lemma TailSignatures(a: seq<Entry>)
    requires a != [] && StrictlySorted(a)
    requires forall i :: 0 <= i < |a| ==> forall j :: 0 <= j < |a| && a[i].signature == a[j].signature ==>
             a[i].selector == a[j].selector
    ensures SignatureSet(a[1..]) == SignatureSet(a) - {a[0].signature}
  {
  }

  // ---------------------------------------------------------------------------
  // Order
  // ---------------------------------------------------------------------------

  /** Error names as Solidity has them. */
  ghost predicate PlainNames(abis: seq<Abi>) {
    forall i, j :: 0 <= i < |abis| && 0 <= j < |abis[i].items| && IsNamedError(abis[i].items[j]) ==>
      '(' !in abis[i].items[j].name.value
  }

  /** A signature determines the name in front of its first parenthesis. */
  lemma SignatureDeterminesName(a: string, b: string, x: string, y: string)
    requires '(' !in a && '(' !in b
    requires a + "(" + x == b + "(" + y
    ensures a == b
  {
    var s := a + "(" + x;
    assert s[|a|] == '(' && s[|b|] == '(';
    assert forall i :: 0 <= i < |a| ==> s[i] == a[i];
    assert forall i :: 0 <= i < |b| ==> s[i] == b[i];
    assert |a| == |b|;
    assert s[..|a|] == a && s[..|b|] == b;
  }

  /** Reads a comma-separated list; `current` is what the current element holds so far. */
  function ReadTypes(s: string, current: string): seq<string>
    decreases |s|
  {
    if s == "" then [current]
    else if s[0] == ',' then [current] + ReadTypes(s[1..], "")
    else ReadTypes(s[1..], current + [s[0]])
  }

  lemma {:induction false} ReadOneType(t: string, rest: string, current: string)
    requires ',' !in t
    requires rest == "" || rest[0] == ','
    ensures ReadTypes(t + rest, current) ==
            [current + t] + (if rest == "" then [] else ReadTypes(rest[1..], ""))
    decreases |t|
  {
    if t == "" {
      assert t + rest == rest && current + t == current;
    } else {
      assert (t + rest)[1..] == t[1..] + rest && t[0] in t;
      ReadOneType(t[1..], rest, current + [t[0]]);
      assert (current + [t[0]]) + t[1..] == current + t;
    }
  }

  /** Types without commas, as Solidity has them. */
  predicate PlainTypes(types: seq<string>) {
    forall i :: 0 <= i < |types| ==> types[i] != "" && ',' !in types[i]
  }

  lemma {:induction false} TypesReadBack(types: seq<string>)
    requires types != [] && PlainTypes(types)
    ensures ReadTypes(JoinTypes(types), "") == types
    decreases |types|
  {
    hide ReadTypes;
    var rest := if |types| == 1 then "" else "," + JoinTypes(types[1..]);
    ReadOneType(types[0], rest, "");
    assert "" + types[0] == types[0];
    if |types| == 1 {
      assert types[0] + "" == types[0] && types == [types[0]] + [];
    } else {
      TypesReadBack(types[1..]);
      assert JoinTypes(types) == types[0] + rest && rest[1..] == JoinTypes(types[1..]);
      assert types == [types[0]] + types[1..];
    }
  }

  /**
   A signature is the name, an opening parenthesis, the types with commas between them, and a
   closing parenthesis: read back they are those of the error.
   */
  lemma SignatureReadsBack(item: AbiItem) returns (types: string)
    requires IsNamedError(item) && PlainTypes(item.inputs)
    ensures Signature(item) == item.name.value + "(" + types + ")"
    ensures if item.inputs == [] then types == "" else ReadTypes(types, "") == item.inputs
  {
    types := JoinTypes(item.inputs);
    if item.inputs != [] {
      TypesReadBack(item.inputs);
    }
  }

  lemma SameText(a: string, b: string)
    requires a + ")" == b + ")"
    ensures a == b
  {
    assert |a| == |b|;
    assert a == (a + ")")[..|a|] && b == (b + ")")[..|b|];
  }

  /** Two errors have the same signature exactly when they have the same name and the same parameter types. */
  lemma SameSignatureExactlyWhen(a: AbiItem, b: AbiItem)
    requires IsNamedError(a) && IsNamedError(b)
    requires '(' !in a.name.value && '(' !in b.name.value
    requires PlainTypes(a.inputs) && PlainTypes(b.inputs)
    ensures Signature(a) == Signature(b) <==> a.name == b.name && a.inputs == b.inputs
  {
    var x := SignatureReadsBack(a);
    var y := SignatureReadsBack(b);
    hide Signature, ReadTypes;
    if Signature(a) == Signature(b) {
      var n, m := a.name.value, b.name.value;
      assert n + "(" + (x + ")") == Signature(a) && m + "(" + (y + ")") == Signature(b);
      SignatureDeterminesName(n, m, x + ")", y + ")");
      assert (n + "(" + (x + ")"))[|n| + 1..] == x + ")" && (m + "(" + (y + ")"))[|m| + 1..] == y + ")";
      SameText(x, y);
      EmptyList(a.inputs, b.inputs, x);
    }
  }

  lemma EmptyList(a: seq<string>, b: seq<string>, types: string)
    requires PlainTypes(a) && PlainTypes(b)
    requires if a == [] then types == "" else ReadTypes(types, "") == a
    requires if b == [] then types == "" else ReadTypes(types, "") == b
    ensures a == b
  {
    assert ReadTypes("", "") == [""];
    var unnamed := [""];
    assert unnamed[0] == "" && !PlainTypes(unnamed);
  }

  /** What stands behind the opening parenthesis of an entry's signature. */
  lemma OriginOfName(abis: seq<Abi>, e: Entry) returns (rest: string)
    requires PlainNames(abis) && HasOrigin(abis, e)
    ensures '(' !in e.name && e.signature == e.name + "(" + rest
  {
    hide Signature;
    var i: nat, j: nat :| Origin(abis, i, j, e);
    rest := SplitSignature(abis[i].items[j]);
  }

  lemma SplitSignature(item: AbiItem) returns (rest: string)
    requires IsNamedError(item)
    ensures Signature(item) == item.name.value + "(" + rest
  {
    rest := JoinTypes(item.inputs) + ")";
  }

  lemma SameName(abis: seq<Abi>, others: seq<Abi>, e: Entry, f: Entry)
    requires PlainNames(abis) && PlainNames(others)
    requires HasOrigin(abis, e) && HasOrigin(others, f)
    requires e.signature == f.signature
    ensures e.name == f.name
  {
    hide PlainNames, HasOrigin;
    var x := OriginOfName(abis, e);
    var y := OriginOfName(others, f);
    SignatureDeterminesName(e.name, f.name, x, y);
  }

  /** Item j of ABI i is a named error with this signature. */
  predicate OccursAt(abis: seq<Abi>, i: nat, j: nat, signature: string) {
    && i < |abis| && j < |abis[i].items|
    && abis[i].items[j].kind == "error" && abis[i].items[j].name.Some? && abis[i].items[j].name.value != ""
    && Signature(abis[i].items[j]) == signature
  }

  lemma {:induction false} SignatureOccurs(abis: seq<Abi>, signature: string)
    ensures signature in Signatures(abis) <==> exists i: nat, j: nat :: OccursAt(abis, i, j, signature)
  {
    if abis != [] {
      var n := |abis| - 1;
      SignatureOccurs(abis[..n], signature);
      forall i: nat, j: nat ensures OccursAt(abis[..n], i, j, signature) <==>
          i < n && OccursAt(abis, i, j, signature) {}
      if signature in SignaturesOf(abis[n].items) {
        var j :| 0 <= j < |abis[n].items| && IsNamedError(abis[n].items[j]) && Signature(abis[n].items[j]) == signature;
        assert OccursAt(abis, n, j, signature);
      }
      if i: nat, j: nat :| OccursAt(abis, i, j, signature) && i == n {
        assert signature in SignaturesOf(abis[n].items);
      }
    }
  }

  /** `others` lists the ABIs in another order, each with its items in another order: ABI i is at `place[i]`. */
  ghost predicate Reordered(abis: seq<Abi>, others: seq<Abi>, place: seq<nat>) {
    && |abis| == |others| == |place|
    && (forall i :: 0 <= i < |place| ==>
          place[i] < |others| && multiset(abis[i].items) == multiset(others[place[i]].items))
    && (forall k :: 0 <= k < |others| ==> k in place)
  }

  /** No order of ABIs and items changes the set of signatures. */
  lemma ReorderingKeepsSignatures(abis: seq<Abi>, others: seq<Abi>, place: seq<nat>)
    requires Reordered(abis, others, place)
    ensures Signatures(abis) == Signatures(others)
  {
    forall signature ensures signature in Signatures(abis) <==> signature in Signatures(others) {
      SignatureOccurs(abis, signature);
      SignatureOccurs(others, signature);
      if i: nat, j: nat :| OccursAt(abis, i, j, signature) {
        var l := PositionOf(abis[i].items[j], abis[i].items, others[place[i]].items);
        assert OccursAt(others, place[i], l, signature);
      }
      if k: nat, l: nat :| OccursAt(others, k, l, signature) {
        assert k in place;
        var i :| 0 <= i < |place| && place[i] == k;
        var j := PositionOf(others[k].items[l], others[k].items, abis[i].items);
        assert OccursAt(abis, i, j, signature);
      }
    }
  }

  lemma PositionOf(item: AbiItem, items: seq<AbiItem>, others: seq<AbiItem>) returns (l: nat)
    requires item in items && multiset(items) == multiset(others)
    ensures l < |others| && others[l] == item
  {
    assert item in multiset(items);
    assert item in multiset(others);
    l :| 0 <= l < |others| && others[l] == item;
  }

  /**
   The order of the ABIs and of the errors within them does not matter: any two lists with the
   same signatures collide together or give the same table, names included.
   */
  method OrderDoesNotMatter(abis: seq<Abi>, others: seq<Abi>, hash: string -> nat) returns (r: Outcome, s: Outcome)
    requires Signatures(abis) == Signatures(others)
    ensures r.Collision? <==> s.Collision?
    ensures r.Table? <==> s.Table?
    ensures r.Table? ==> |r.entries| == |s.entries|
    ensures r.Table? ==> forall i :: 0 <= i < |r.entries| ==>
              r.entries[i].selector == s.entries[i].selector && r.entries[i].signature == s.entries[i].signature
    ensures r.Table? && PlainNames(abis) && PlainNames(others) ==>
              forall i :: 0 <= i < |r.entries| ==> r.entries[i].name == s.entries[i].name
  {
    r := GenerateSelectors(abis, hash);
    s := GenerateSelectors(others, hash);
    if r.Table? && s.Table? {
      hide HasOrigin, PlainNames;
      TableIsDetermined(r.entries, s.entries, hash);
      if PlainNames(abis) && PlainNames(others) {
        forall i | 0 <= i < |r.entries| ensures r.entries[i].name == s.entries[i].name {
          assert r.entries[i] in r.entries && s.entries[i] in s.entries;
          SameName(abis, others, r.entries[i], s.entries[i]);
        }
      }
    }
  }
}
