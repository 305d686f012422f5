/** Which keys a bounded least-recently-used cache still holds, as a matter of what was done to it. */
module Recency {
  import opened QueryMetadata

  /** What one call did: nothing, a key came to the front, or a lookup of a key failed and emptied its slot. */
  datatype Effect = Nothing | Used(key: QueryKey) | Missed(key: QueryKey)

  // ---- The cache's own bookkeeping ----------------------------------------------------------------

  function Removed(keys: seq<QueryKey>, key: QueryKey): seq<QueryKey> {
    if keys == [] then []
    else if keys[0] == key then keys[1..]
    else [keys[0]] + Removed(keys[1..], key)
  }

  /** Most recently used first; the least recently used makes room. */
  function Applied(keys: seq<QueryKey>, capacity: nat, e: Effect): seq<QueryKey>
    requires capacity >= 1
  {
    match e
    case Nothing => keys
    case Missed(key) => Removed(keys, key)
    case Used(key) =>
      var rest := Removed(keys, key);
      [key] + if |rest| < capacity then rest else rest[..capacity - 1]
  }

  function Stack(capacity: nat, es: seq<Effect>): seq<QueryKey>
    requires capacity >= 1
  {
    if es == [] then [] else Applied(Stack(capacity, es[..|es| - 1]), capacity, es[|es| - 1])
  }

  // ---- The history of effects -----------------------------------------------------------------------

  ghost predicate EverUsed(es: seq<Effect>, key: QueryKey) {
    Used(key) in es
  }

  /** The other keys used since `key` was, less those a failed lookup has emptied since. */
  function Ahead(es: seq<Effect>, key: QueryKey): set<QueryKey> {
    if es == [] then {}
    else
      var before := Ahead(es[..|es| - 1], key);
      match es[|es| - 1]
      case Nothing => before
      case Missed(other) => before - {other}
      case Used(other) => if other == key then {} else before + {other}
  }

  /** Since `key` was last used there were once as many others ahead of it as the cache has slots. */
  predicate Crowded(es: seq<Effect>, capacity: nat, key: QueryKey) {
    es != [] && es[|es| - 1] != Used(key)
    && (|Ahead(es, key)| >= capacity || Crowded(es[..|es| - 1], capacity, key))
  }

  /** A lookup of `key` has failed since it was last used. */
  predicate LostSince(es: seq<Effect>, key: QueryKey) {
    es != [] && es[|es| - 1] != Used(key) && (es[|es| - 1] == Missed(key) || LostSince(es[..|es| - 1], key))
  }

  /** The distinct other keys used since `key` was. */
  function UsedSince(es: seq<Effect>, key: QueryKey): set<QueryKey> {
    if es == [] then {}
    else
      var before := UsedSince(es[..|es| - 1], key);
      match es[|es| - 1]
      case Used(other) => if other == key then {} else before + {other}
      case _ => before
  }

  /** No lookup of any key has failed since `key` was last used. */
  predicate NoMissSince(es: seq<Effect>, key: QueryKey) {
    es == [] || es[|es| - 1] == Used(key) || (!es[|es| - 1].Missed? && NoMissSince(es[..|es| - 1], key))
  }

  // ---- Key lists --------------------------------------------------------------------------------------

  ghost predicate NoRepeats(keys: seq<QueryKey>) {
    keys == [] || (keys[0] !in keys[1..] && NoRepeats(keys[1..]))
  }

  function InFront(keys: seq<QueryKey>, key: QueryKey): set<QueryKey> {
    if keys == [] || keys[0] == key then {} else {keys[0]} + InFront(keys[1..], key)
  }

  lemma {:induction false} RemovedMembers(keys: seq<QueryKey>, key: QueryKey)
    requires NoRepeats(keys)
    ensures forall k :: k in Removed(keys, key) <==> k in keys && k != key
    ensures |Removed(keys, key)| == if key in keys then |keys| - 1 else |keys|
    decreases |keys|
  {
    if keys != [] {
      RemovedMembers(keys[1..], key);
      assert forall k :: k in keys <==> k == keys[0] || k in keys[1..];
    }
  }

  lemma {:induction false} RemovedFacts(keys: seq<QueryKey>, key: QueryKey)
    requires NoRepeats(keys)
    ensures NoRepeats(Removed(keys, key))
    ensures forall k :: k in Removed(keys, key) <==> k in keys && k != key
    ensures |Removed(keys, key)| == if key in keys then |keys| - 1 else |keys|
    decreases |keys|
  {
    RemovedMembers(keys, key);
    if keys != [] && keys[0] != key {
      RemovedFacts(keys[1..], key);
      assert Removed(keys, key)[1..] == Removed(keys[1..], key);
    }
  }

  lemma {:induction false} InFrontRemoved(keys: seq<QueryKey>, gone: QueryKey, key: QueryKey)
    requires NoRepeats(keys) && key in keys && key != gone
    ensures InFront(Removed(keys, gone), key) == InFront(keys, key) - {gone}
    decreases |keys|
  {
    InFrontMembers(keys[1..], key);
    if keys[0] != key && keys[0] != gone {
      InFrontRemoved(keys[1..], gone, key);
      assert Removed(keys, gone)[1..] == Removed(keys[1..], gone);
    }
  }

  lemma {:induction false} InFrontMembers(keys: seq<QueryKey>, key: QueryKey)
    ensures forall k | k in InFront(keys, key) :: k in keys && k != key
    decreases |keys|
  {
    if keys != [] && keys[0] != key {
      InFrontMembers(keys[1..], key);
    }
  }

  lemma {:induction false} CutFacts(keys: seq<QueryKey>, n: nat)
    requires NoRepeats(keys) && n <= |keys|
    ensures NoRepeats(keys[..n]) && forall k | k in keys[..n] :: k in keys
    decreases |keys|
  {
    if n > 0 {
      CutFacts(keys[1..], n - 1);
      assert keys[..n][1..] == keys[1..][..n - 1];
    }
  }

  lemma InFrontNext(keys: seq<QueryKey>, key: QueryKey)
    requires NoRepeats(keys) && keys != [] && keys[0] != key
    ensures |InFront(keys, key)| == 1 + |InFront(keys[1..], key)|
  {
    InFrontMembers(keys[1..], key);
  }

  lemma CutNext(keys: seq<QueryKey>, n: nat, key: QueryKey)
    requires 1 <= n <= |keys| && keys[0] != key
    ensures key in keys[..n] <==> key in keys[1..][..n - 1]
    ensures InFront(keys[..n], key) == {keys[0]} + InFront(keys[1..][..n - 1], key)
  {
    assert keys[..n] == [keys[0]] + keys[1..][..n - 1];
  }

  /** A list cut to `n` keys still has `key` exactly when fewer than `n` stand in front of it. */
  lemma {:induction false} InFrontCut(keys: seq<QueryKey>, n: nat, key: QueryKey)
    requires NoRepeats(keys) && key in keys && n <= |keys|
    ensures key in keys[..n] <==> |InFront(keys, key)| < n
    ensures key in keys[..n] ==> InFront(keys[..n], key) == InFront(keys, key)
    decreases |keys|
  {
    if n == 0 {
    } else if keys[0] == key {
      assert keys[..n][0] == key;
    } else {
      InFrontCut(keys[1..], n - 1, key);
      InFrontNext(keys, key);
      CutNext(keys, n, key);
    }
  }

  lemma InFrontBelow(keys: seq<QueryKey>, key: QueryKey)
    requires NoRepeats(keys) && key in keys
    ensures |InFront(keys, key)| < |keys|
  {
    InFrontCut(keys, |keys|, key);
    assert keys[..|keys|] == keys;
  }

  // ---- Which keys are held -----------------------------------------------------------------------------

  lemma Snoc(es: seq<Effect>, e: Effect)
    ensures (es + [e])[..|es|] == es && (es + [e])[|es|] == e
  {
  }

  /** `key` is in its place: those in front of it are the ones used since. */
  ghost predicate InPlace(keys: seq<QueryKey>, capacity: nat, es: seq<Effect>, key: QueryKey) {
    NoRepeats(keys) && |keys| <= capacity
    && (key in keys <==> EverUsed(es, key) && !Crowded(es, capacity, key) && !LostSince(es, key))
    && (key in keys ==> InFront(keys, key) == Ahead(es, key))
  }

  lemma FrontedKey(keys: seq<QueryKey>, other: QueryKey, n: nat, key: QueryKey)
    requires NoRepeats(keys) && key in keys && key != other && n <= |[other] + Removed(keys, other)|
    ensures var all := [other] + Removed(keys, other);
            key in all && InFront(all, key) == InFront(keys, key) + {other} && |InFront(all, key)| < |all|
            && (key in all[..n] <==> |InFront(all, key)| < n)
            && (key in all[..n] ==> InFront(all[..n], key) == InFront(all, key))
  {
    RemovedFacts(keys, other);
    var all := [other] + Removed(keys, other);
    assert all[1..] == Removed(keys, other);
    InFrontRemoved(keys, other, key);
    InFrontBelow(all, key);
    InFrontCut(all, n, key);
  }

  lemma UsedKeepsPlace(keys: seq<QueryKey>, capacity: nat, es: seq<Effect>, other: QueryKey, key: QueryKey)
    requires capacity >= 1 && InPlace(keys, capacity, es, key)
    ensures InPlace(Applied(keys, capacity, Used(other)), capacity, es + [Used(other)], key)
  {
    Snoc(es, Used(other));
    RemovedFacts(keys, other);
    var all := [other] + Removed(keys, other);
    var n := if |all| <= capacity then |all| else capacity;
    assert all[1..] == Removed(keys, other);
    assert Applied(keys, capacity, Used(other)) == all[..n];
    CutFacts(all, n);
    if other == key {
      assert all[..n][0] == key;
    } else if key in keys {
      FrontedKey(keys, other, n, key);
    }
  }

  lemma MissedKeepsPlace(keys: seq<QueryKey>, capacity: nat, es: seq<Effect>, other: QueryKey, key: QueryKey)
    requires capacity >= 1 && InPlace(keys, capacity, es, key)
    ensures InPlace(Removed(keys, other), capacity, es + [Missed(other)], key)
  {
    Snoc(es, Missed(other));
    RemovedFacts(keys, other);
    if other != key && key in keys {
      InFrontRemoved(keys, other, key);
      InFrontBelow(Removed(keys, other), key);
    }
  }

  lemma NothingKeepsPlace(keys: seq<QueryKey>, capacity: nat, es: seq<Effect>, key: QueryKey)
    requires capacity >= 1 && InPlace(keys, capacity, es, key)
    ensures InPlace(keys, capacity, es + [Nothing], key)
  {
    Snoc(es, Nothing);
    if key in keys {
      InFrontBelow(keys, key);
    }
  }

  /** A key is held exactly when it was used, was never crowded out since, and no lookup of it has failed since. */
  lemma {:induction false} HeldExactly(capacity: nat, es: seq<Effect>, key: QueryKey)
    requires capacity >= 1
    ensures InPlace(Stack(capacity, es), capacity, es, key)
    decreases |es|
  {
    if es != [] {
      var before, last := es[..|es| - 1], es[|es| - 1];
      assert es == before + [last];
      HeldExactly(capacity, before, key);
      match last
      case Nothing => NothingKeepsPlace(Stack(capacity, before), capacity, before, key);
      case Missed(other) => MissedKeepsPlace(Stack(capacity, before), capacity, before, other, key);
      case Used(other) => UsedKeepsPlace(Stack(capacity, before), capacity, before, other, key);
    }
  }

  // ---- Counting the others ---------------------------------------------------------------------------------

  lemma {:induction false} SubsetCard<T>(a: set<T>, b: set<T>)
    requires a <= b
    ensures |a| <= |b|
    decreases |a|
  {
    if a != {} {
      var x :| x in a;
      SubsetCard(a - {x}, b - {x});
    }
  }

  /** Only as many distinct others as there are slots crowd a key out. */
  lemma {:induction false} CrowdedByOthers(es: seq<Effect>, capacity: nat, key: QueryKey)
    ensures Ahead(es, key) <= UsedSince(es, key) && key !in UsedSince(es, key)
    ensures Crowded(es, capacity, key) ==> |UsedSince(es, key)| >= capacity
    decreases |es|
  {
    if es != [] {
      var before := es[..|es| - 1];
      CrowdedByOthers(before, capacity, key);
      SubsetCard(Ahead(es, key), UsedSince(es, key));
      if es[|es| - 1] != Used(key) {
        SubsetCard(UsedSince(before, key), UsedSince(es, key));
      }
    }
  }

  /** While no lookup fails, those ahead are all the others used since. */
  lemma {:induction false} AllStayAhead(es: seq<Effect>, key: QueryKey)
    requires NoMissSince(es, key)
    ensures Ahead(es, key) == UsedSince(es, key) && !LostSince(es, key)
    decreases |es|
  {
    if es != [] && es[|es| - 1] != Used(key) {
      AllStayAhead(es[..|es| - 1], key);
    }
  }

  /** Without failed lookups in between, a key is crowded out exactly when enough distinct others were used since. */
  lemma CrowdedIffEnoughOthers(es: seq<Effect>, capacity: nat, key: QueryKey)
    requires capacity >= 1 && NoMissSince(es, key)
    ensures Crowded(es, capacity, key) <==> |UsedSince(es, key)| >= capacity
  {
    AllStayAhead(es, key);
    CrowdedByOthers(es, capacity, key);
  }

  lemma SinceSnoc(es: seq<Effect>, e: Effect, key: QueryKey)
    ensures e == Used(key) ==> UsedSince(es + [e], key) == {} && Ahead(es + [e], key) == {}
    ensures e.Used? && e.key != key ==>
              UsedSince(es + [e], key) == UsedSince(es, key) + {e.key} &&
              Ahead(es + [e], key) == Ahead(es, key) + {e.key}
    ensures e == Nothing ==> UsedSince(es + [e], key) == UsedSince(es, key) && Ahead(es + [e], key) == Ahead(es, key)
    ensures e.Missed? ==>
              UsedSince(es + [e], key) == UsedSince(es, key) &&
              Ahead(es + [e], key) == Ahead(es, key) - {e.key}
  {
    Snoc(es, e);
  }

  lemma RoomStep(es: seq<Effect>, e: Effect, capacity: nat, a: QueryKey)
    requires e != Used(a) && e != Missed(a) && !Crowded(es, capacity, a) && !LostSince(es, a)
    ensures !LostSince(es + [e], a) && (Crowded(es + [e], capacity, a) <==> |Ahead(es + [e], a)| >= capacity)
  {
    Snoc(es, e);
  }

  lemma UsedNow(es: seq<Effect>, capacity: nat, a: QueryKey)
    ensures !Crowded(es + [Used(a)], capacity, a) && !LostSince(es + [Used(a)], a)
  {
    Snoc(es, Used(a));
  }

  lemma RoomAfterMiss(one: seq<Effect>, two: seq<Effect>, three: seq<Effect>, four: seq<Effect>,
                      a: QueryKey, b: QueryKey, c: QueryKey)
    requires a != b && b != c && a != c
    requires one == [] + [Used(a)] && two == one + [Used(b)] && three == two + [Missed(b)] && four == three + [Used(c)]
    ensures UsedSince(four, a) == {b, c} && !Crowded(four, 2, a) && !LostSince(four, a)
  {
    SinceSnoc([], Used(a), a);
    SinceSnoc(one, Used(b), a);
    SinceSnoc(two, Missed(b), a);
    SinceSnoc(three, Used(c), a);
    UsedNow([], 2, a);
    assert Ahead(two, a) == {b} && Ahead(three, a) == {} && Ahead(four, a) == {c};
    RoomStep(one, Used(b), 2, a);
    RoomStep(two, Missed(b), 2, a);
    RoomStep(three, Used(c), 2, a);
  }

  /** A failed lookup makes room: two others have been used since, and of two slots one is still the first key's. */
  lemma FailedLookupsMakeRoom(a: QueryKey, b: QueryKey, c: QueryKey)
    requires a != b && b != c && a != c
    ensures var es := [Used(a), Used(b), Missed(b), Used(c)];
            |UsedSince(es, a)| == 2 && a in Stack(2, es) && !Crowded(es, 2, a)
  {
    var one := [] + [Used(a)];
    var two := one + [Used(b)];
    var three := two + [Missed(b)];
    var four := three + [Used(c)];
    RoomAfterMiss(one, two, three, four, a, b, c);
    assert four == [Used(a), Used(b), Missed(b), Used(c)];
    assert four[0] == Used(a);
    HeldExactly(2, four, a);
  }
}
