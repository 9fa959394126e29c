/**
 Reference-counted browser resources that are looked up through a registry of weak pointers.

 Ephemeral-storage lifetimes and DOM-storage namespaces are both of this kind: asking for a key
 hands out a new reference to the live object with that key or creates the object, and dropping
 the last reference destroys the object and takes its key out of the registry.
 */
module RefCounting {
  import opened Wrappers

  /** What a resource is registered under: the profile together with a storage domain or a namespace id. */
  datatype ResourceKey =
    | Lifetime(context: nat, name: string)
    | Namespace(context: nat, name: string)

  /** A counted reference. The key of an object never changes, so the reference can show it. */
  datatype Ref = Ref(id: nat, key: ResourceKey)

  datatype Resource = Resource(key: ResourceKey, refs: nat)

  /** `next` is the identity of the next object to be created; identities are never used twice. */
  datatype Store = Store(live: map<nat, Resource>, registry: map<ResourceKey, nat>, next: nat)

  const EmptyStore := Store(map[], map[], 0)

  function AddRef(s: Store, r: Ref): Store {
    if r.id in s.live then
      s.(live := s.live[r.id := s.live[r.id].(refs := s.live[r.id].refs + 1)])
    else
      s
  }

  function Release(s: Store, r: Ref): Store {
    if r.id !in s.live then s
    else if s.live[r.id].refs > 1 then
      s.(live := s.live[r.id := s.live[r.id].(refs := s.live[r.id].refs - 1)])
    else
      s.(live := s.live - {r.id}, registry := s.registry - {s.live[r.id].key})
  }

  function GetOrCreate(s: Store, key: ResourceKey): (Store, Ref) {
    if key in s.registry then
      var r := Ref(s.registry[key], key);
      (AddRef(s, r), r)
    else
      (Store(s.live[s.next := Resource(key, 1)], s.registry[key := s.next], s.next + 1), Ref(s.next, key))
  }

  function ReleaseOption(s: Store, r: Option<Ref>): Store {
    match r
    case None => s
    case Some(x) => Release(s, x)
  }

  function ReleaseAll(s: Store, rs: seq<Ref>): Store
    decreases |rs|
  {
    if rs == [] then s else ReleaseAll(Release(s, rs[0]), rs[1..])
  }

  /** Assigning a freshly looked-up reference to a pointer: the old reference is dropped afterwards. */
  function Assign(s: Store, old_: Option<Ref>, key: ResourceKey): (Store, Ref) {
    var (s1, r) := GetOrCreate(s, key);
    (ReleaseOption(s1, old_), r)
  }

  /** `held` are all the references anybody holds: the counters say exactly how many there are, an
      object is live exactly when it is referred to, and live objects and registry keys correspond
      one to one. */
  ghost predicate Accounts(s: Store, held: multiset<Ref>) {
    && (forall r :: r in held ==> r.id in s.live && s.live[r.id].key == r.key)
    && (forall id :: id in s.live ==>
          && 0 < s.live[id].refs == held[Ref(id, s.live[id].key)]
          && id < s.next
          && s.live[id].key in s.registry && s.registry[s.live[id].key] == id)
    && (forall k :: k in s.registry ==> s.registry[k] in s.live && s.live[s.registry[k]].key == k)
  }

  lemma AddRefAccounts(s: Store, held: multiset<Ref>, r: Ref)
    requires Accounts(s, held) && r in held
    ensures Accounts(AddRef(s, r), held + multiset{r})
    ensures AddRef(s, r).next == s.next
  {
    var s', held' := AddRef(s, r), held + multiset{r};
    forall id | id in s'.live
      ensures s'.live[id].refs == held'[Ref(id, s'.live[id].key)]
    {
      assert id in s.live;
    }
  }

  lemma ReleaseOneOfMany(s: Store, others: multiset<Ref>, r: Ref)
    requires Accounts(s, others + multiset{r}) && s.live[r.id].refs > 1
    ensures Accounts(Release(s, r), others)
  {
  }

  lemma ReleaseLast(s: Store, others: multiset<Ref>, r: Ref)
    requires Accounts(s, others + multiset{r}) && s.live[r.id].refs <= 1
    ensures Accounts(Release(s, r), others)
  {
    var s', held := Release(s, r), others + multiset{r};
    assert r in held && held[r] == others[r] + 1;
    assert r !in others;
    forall x | x in others
      ensures x.id in s'.live && s'.live[x.id].key == x.key
    {
      assert x in held && x.id != r.id;
    }
  }

  lemma ReleaseAccounts(s: Store, others: multiset<Ref>, r: Ref)
    requires Accounts(s, others + multiset{r})
    ensures Accounts(Release(s, r), others)
    ensures Release(s, r).next == s.next
  {
    assert r in others + multiset{r};
    if s.live[r.id].refs > 1 {
      ReleaseOneOfMany(s, others, r);
    } else {
      ReleaseLast(s, others, r);
    }
  }

  lemma GetOrCreateAccounts(s: Store, held: multiset<Ref>, key: ResourceKey)
    requires Accounts(s, held)
    ensures var (s', r) := GetOrCreate(s, key);
            Accounts(s', held + multiset{r}) && r.key == key && s.next <= s'.next
  {
    var (s', r) := GetOrCreate(s, key);
    if key in s.registry {
      AddRefAccounts(s, held, r);
    } else {
      assert s.next !in s.live;
      forall x | x in held
        ensures x != r && x.id in s'.live && s'.live[x.id].key == x.key
      {
        assert x.id in s.live;
      }
      forall id | id in s'.live
        ensures s'.live[id].refs == (held + multiset{r})[Ref(id, s'.live[id].key)]
        ensures s'.registry[s'.live[id].key] == id
      {
        if id != s.next {
          assert id in s.live && s.live[id].key in s.registry;
        }
      }
    }
  }

  function Refs(r: Option<Ref>): multiset<Ref> {
    match r
    case None => multiset{}
    case Some(x) => multiset{x}
  }

  lemma ReleaseOptionAccounts(s: Store, others: multiset<Ref>, r: Option<Ref>)
    requires Accounts(s, others + Refs(r))
    ensures Accounts(ReleaseOption(s, r), others)
    ensures ReleaseOption(s, r).next == s.next
  {
    if r.Some? {
      ReleaseAccounts(s, others, r.value);
    } else {
      assert others + Refs(r) == others;
    }
  }

  lemma AssignAccounts(s: Store, others: multiset<Ref>, old_: Option<Ref>, key: ResourceKey)
    requires Accounts(s, others + Refs(old_))
    ensures var (s', r) := Assign(s, old_, key);
            Accounts(s', others + multiset{r}) && r.key == key && s.next <= s'.next
  {
    var (s1, r) := GetOrCreate(s, key);
    GetOrCreateAccounts(s, others + Refs(old_), key);
    assert others + Refs(old_) + multiset{r} == others + multiset{r} + Refs(old_);
    ReleaseOptionAccounts(s1, others + multiset{r}, old_);
  }

  lemma {:induction false} ReleaseAllAccounts(s: Store, others: multiset<Ref>, rs: seq<Ref>)
    requires Accounts(s, others + multiset(rs))
    ensures Accounts(ReleaseAll(s, rs), others)
    ensures ReleaseAll(s, rs).next == s.next
    decreases |rs|
  {
    if rs == [] {
      assert others + multiset(rs) == others;
    } else {
      assert rs == [rs[0]] + rs[1..];
      assert others + multiset(rs) == others + multiset(rs[1..]) + multiset{rs[0]};
      ReleaseAccounts(s, others + multiset(rs[1..]), rs[0]);
      ReleaseAllAccounts(Release(s, rs[0]), others, rs[1..]);
    }
  }

  /** Everything a number of holders hold together. */
  function Total<T>(holders: seq<T>, held: T -> multiset<Ref>): multiset<Ref> {
    if holders == [] then multiset{}
    else Total(holders[..|holders| - 1], held) + held(holders[|holders| - 1])
  }

  /** What all holders but one hold together. */
  function Others<T>(holders: seq<T>, held: T -> multiset<Ref>, i: nat): multiset<Ref>
    requires i < |holders|
    decreases |holders|
  {
    var n := |holders| - 1;
    if i == n then Total(holders[..n], held) else Others(holders[..n], held, i) + held(holders[n])
  }

  lemma {:induction false} TotalUpdate<T>(holders: seq<T>, held: T -> multiset<Ref>, i: nat, h: T)
    requires i < |holders|
    ensures Total(holders, held) == Others(holders, held, i) + held(holders[i])
    ensures Total(holders[i := h], held) == Others(holders, held, i) + held(h)
    decreases |holders|
  {
    var n := |holders| - 1;
    if i == n {
      assert holders[i := h][..n] == holders[..n];
    } else {
      TotalUpdate(holders[..n], held, i, h);
      assert holders[i := h][..n] == holders[..n][i := h];
    }
  }

  lemma {:induction false} TotalSnoc<T>(holders: seq<T>, held: T -> multiset<Ref>, h: T)
    ensures Total(holders + [h], held) == Total(holders, held) + held(h)
  {
  }

  lemma {:induction false} TotalIncludes<T>(holders: seq<T>, held: T -> multiset<Ref>, i: nat)
    requires i < |holders|
    ensures held(holders[i]) <= Total(holders, held)
  {
    TotalUpdate(holders, held, i, holders[i]);
  }

  lemma {:induction false} OthersInclude<T>(holders: seq<T>, held: T -> multiset<Ref>, i: nat, m: nat)
    requires i < |holders| && m < |holders| && i != m
    ensures held(holders[i]) <= Others(holders, held, m)
    decreases |holders|
  {
    var n := |holders| - 1;
    if m == n {
      TotalIncludes(holders[..n], held, i);
    } else if i != n {
      OthersInclude(holders[..n], held, i, m);
    }
  }

  function SumOf<T>(holders: seq<T>, count: T -> nat): nat {
    if holders == [] then 0 else SumOf(holders[..|holders| - 1], count) + count(holders[|holders| - 1])
  }

  lemma {:induction false} SumOfCounts<T>(holders: seq<T>, held: T -> multiset<Ref>, count: T -> nat, r: Ref)
    requires forall h :: h in holders ==> count(h) == held(h)[r]
    ensures SumOf(holders, count) == Total(holders, held)[r]
    decreases |holders|
  {
    if holders != [] {
      SumOfCounts(holders[..|holders| - 1], held, count, r);
    }
  }

  lemma {:induction false} SumOfZeros<T>(holders: seq<T>, count: T -> nat)
    requires forall h :: h in holders ==> count(h) == 0
    ensures SumOf(holders, count) == 0
    decreases |holders|
  {
    if holders != [] {
      SumOfZeros(holders[..|holders| - 1], count);
    }
  }

  /** How many of the references in a list are to the object registered under a key. */
  function CountKey(rs: seq<Ref>, key: ResourceKey): nat {
    if rs == [] then 0 else (if rs[0].key == key then 1 else 0) + CountKey(rs[1..], key)
  }

  lemma HeadCounts(rs: seq<Ref>, r: Ref)
    requires rs != []
    ensures multiset(rs)[r] == multiset(rs[1..])[r] + if rs[0] == r then 1 else 0
  {
    assert rs == [rs[0]] + rs[1..];
  }

  lemma HeldIsRegisteredUnderItsKey(s: Store, held: multiset<Ref>, r: Ref)
    requires Accounts(s, held) && r in held
    ensures r.key in s.registry && r == Ref(s.registry[r.key], r.key)
  {
    assert r.id in s.live;
  }

  /** The count kept in the object is the number of references made out to its key, so a key is
      registered exactly while somebody holds a reference made out to it. */
  lemma {:induction false} CountKeyIsMultiplicity(s: Store, held: multiset<Ref>, rs: seq<Ref>, key: ResourceKey)
    requires Accounts(s, held) && (forall r :: r in rs ==> r in held)
    ensures key in s.registry ==> CountKey(rs, key) == multiset(rs)[Ref(s.registry[key], key)]
    ensures key !in s.registry ==> CountKey(rs, key) == 0
    decreases |rs|
  {
    if rs != [] {
      HeldIsRegisteredUnderItsKey(s, held, rs[0]);
      CountKeyIsMultiplicity(s, held, rs[1..], key);
      if key in s.registry {
        HeadCounts(rs, Ref(s.registry[key], key));
      }
    }
  }
}
