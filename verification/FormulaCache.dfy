/** The bounded cache of parsed formulas (api/formulas/cache.py:36-94): the object, and what holds
    of it over every sequence of calls. */
module FormulaCache {
  import opened Prelude

  /** Cached values, use counts, and the keys of the count dictionary in insertion order. */
  datatype State<V> = State(cache: map<string, V>, counts: map<string, nat>, order: seq<string>)

  function Empty<V>(): State<V> { State(map[], map[], []) }

  ghost predicate NoRepeats(order: seq<string>) {
    forall i, j :: 0 <= i < j < |order| ==> order[i] != order[j]
  }

  ghost predicate Consistent<V>(s: State<V>) {
    s.cache.Keys == s.counts.Keys && (forall k :: k in s.order <==> k in s.counts) && NoRepeats(s.order)
  }

  /** The first of the first `n` keys, in insertion order, with the least count. */
  function LeastUsed(counts: map<string, nat>, order: seq<string>, n: nat): (k: string)
    requires 1 <= n <= |order| && forall i | 0 <= i < |order| :: order[i] in counts
    ensures k in order && forall i | 0 <= i < n :: counts[k] <= counts[order[i]]
  {
    if n == 1 then order[0]
    else
      var best := LeastUsed(counts, order, n - 1);
      if counts[order[n - 1]] < counts[best] then order[n - 1] else best
  }

  function Without(order: seq<string>, k: string): (out: seq<string>)
    ensures forall x :: x in out <==> x in order && x != k
  {
    if order == [] then []
    else if order[0] == k then Without(order[1..], k) else [order[0]] + Without(order[1..], k)
  }

  lemma {:induction false} WithoutNoRepeats(order: seq<string>, k: string)
    requires NoRepeats(order)
    ensures NoRepeats(Without(order, k))
  {
    if order != [] {
      var rest := order[1..];
      assert order[0] !in rest && NoRepeats(rest);
      WithoutNoRepeats(rest, k);
      assert order[0] !in Without(rest, k);
    }
  }

  // ----- one call -------------------------------------------------------------------------

  function AfterGet<V>(s: State<V>, k: string): State<V> {
    if k in s.cache && k in s.counts then s.(counts := s.counts[k := s.counts[k] + 1]) else s
  }

  /** Making room: nothing below the limit, else the least used entry goes.  None stands for the
      error of looking for a least key in an empty dictionary. */
  function Evicted<V>(s: State<V>, maxSize: int): Option<State<V>>
    requires Consistent(s)
  {
    if |s.cache| < maxSize then Some(s)
    else if s.order == [] then None
    else
      var victim := LeastUsed(s.counts, s.order, |s.order|);
      Some(State(s.cache - {victim}, s.counts - {victim}, Without(s.order, victim)))
  }

  function Stored<V>(s: State<V>, k: string, v: V): State<V> {
    State(s.cache[k := v], s.counts[k := 1], if k in s.counts then s.order else s.order + [k])
  }

  function AfterSet<V>(s: State<V>, maxSize: int, k: string, v: V): Option<State<V>>
    requires Consistent(s)
  {
    match Evicted(s, maxSize)
    case None => None
    case Some(room) => Some(Stored(room, k, v))
  }

  class Cache<V> {
    const maxSize: int
    var cache: map<string, V>
    var counts: map<string, nat>
    var order: seq<string>

    ghost function Now(): State<V>
      reads this
    {
      State(cache, counts, order)
    }

    constructor (maxSize: int)
      ensures this.maxSize == maxSize && Now() == Empty()
    {
      this.maxSize := maxSize;
      cache, counts, order := map[], map[], [];
    }

    method Get(k: string) returns (v: Option<V>)
      requires Consistent(Now())
      modifies this
      ensures Now() == AfterGet(old(Now()), k)
      ensures v == if k in old(cache) then Some(old(cache)[k]) else None
    {
      if k in cache {
        counts := counts[k := counts[k] + 1];
        return Some(cache[k]);
      }
      return None;
    }

    /** The least used key, found by one pass over the count dictionary. */
    method MinKey() returns (best: string)
      requires order != [] && Consistent(Now())
      ensures best == LeastUsed(counts, order, |order|)
    {
      hide NoRepeats;
      best := order[0];
      for i := 1 to |order|
        invariant best in order && best == LeastUsed(counts, order, i)
      {
        if counts[order[i]] < counts[best] {
          best := order[i];
        }
      }
    }

    method Set(k: string, v: V) returns (raised: bool)
      requires Consistent(Now())
      modifies this
      ensures raised <==> AfterSet(old(Now()), maxSize, k, v).None?
      ensures raised ==> Now() == old(Now())
      ensures !raised ==> Now() == AfterSet(old(Now()), maxSize, k, v).value
    {
      if |cache| >= maxSize {
        if order == [] {
          return true;
        }
        var victim := MinKey();
        cache, counts, order := cache - {victim}, counts - {victim}, Without(order, victim);
      }
      if k !in counts {
        order := order + [k];
      }
      cache, counts := cache[k := v], counts[k := 1];
      return false;
    }

    method Clear()
      modifies this
      ensures Now() == Empty()
    {
      cache, counts, order := map[], map[], [];
    }

    method Size() returns (n: nat)
      ensures n == |cache|
    {
      return |cache|;
    }
  }

  // ----- every run ------------------------------------------------------------------------

  datatype Op<V> = Get(key: string) | Set(key: string, value: V) | Clear

  /** The state after a run of calls on a fresh cache that holds at least one entry. */
  ghost function Run<V>(ops: seq<Op<V>>, maxSize: nat): (s: State<V>)
    requires maxSize >= 1
    ensures Consistent(s) && |s.cache| <= maxSize
  {
    if ops == [] then Empty()
    else
      var s := Run(ops[..|ops| - 1], maxSize);
      match ops[|ops| - 1]
      case Get(k) => AfterGet(s, k)
      case Clear => Empty()
      case Set(k, v) =>
        SetKeepsBounds(s, maxSize, k, v);
        AfterSet(s, maxSize, k, v).value
  }

  lemma OrderEmpty<V>(s: State<V>)
    requires Consistent(s) && s.order == []
    ensures |s.cache| == 0
  {
    assert s.cache.Keys == {};
  }

  lemma EvictionKeeps<V>(s: State<V>, maxSize: nat)
    requires Consistent(s) && |s.cache| <= maxSize && maxSize >= 1
    ensures Evicted(s, maxSize).Some? && Consistent(Evicted(s, maxSize).value)
    ensures |Evicted(s, maxSize).value.cache| < maxSize
  {
    if |s.cache| >= maxSize {
      if s.order == [] {
        OrderEmpty(s);
      }
      hide NoRepeats, Without;
      var victim := LeastUsed(s.counts, s.order, |s.order|);
      WithoutNoRepeats(s.order, victim);
      var t := Evicted(s, maxSize).value;
      assert t.cache.Keys == s.cache.Keys - {victim} && t.counts.Keys == s.counts.Keys - {victim};
    }
  }

  lemma StoringKeeps<V>(s: State<V>, k: string, v: V)
    requires Consistent(s)
    ensures Consistent(Stored(s, k, v)) && |Stored(s, k, v).cache| <= |s.cache| + 1
    ensures k in Stored(s, k, v).cache && Stored(s, k, v).cache[k] == v
  {
    var t := Stored(s, k, v);
    assert t.cache.Keys == s.cache.Keys + {k} && t.counts.Keys == s.counts.Keys + {k};
    assert k !in s.counts ==> k !in s.order;
  }

  /** A call of `set` keeps both dictionaries in step and within the limit, keeps the new entry,
      and raises nothing. */
  lemma SetKeepsBounds<V>(s: State<V>, maxSize: nat, k: string, v: V)
    requires Consistent(s) && |s.cache| <= maxSize && maxSize >= 1
    ensures AfterSet(s, maxSize, k, v).Some?
    ensures var t := AfterSet(s, maxSize, k, v).value;
      Consistent(t) && |t.cache| <= maxSize && k in t.cache && t.cache[k] == v
  {
    hide Consistent, Evicted, Stored;
    EvictionKeeps(s, maxSize);
    StoringKeeps(Evicted(s, maxSize).value, k, v);
  }

  /** What a call of `set` may have removed: at most one entry, none used less often. */
  lemma VictimIsLeastUsed<V>(s: State<V>, maxSize: nat, k: string, v: V, gone: string)
    requires Consistent(s) && |s.cache| <= maxSize && maxSize >= 1
    requires gone in s.cache && gone != k && gone !in AfterSet(s, maxSize, k, v).value.cache
    ensures |s.cache| == maxSize
    ensures forall x | x in s.cache :: s.counts[gone] <= s.counts[x]
    ensures forall x | x in s.cache && x != gone && x != k :: x in AfterSet(s, maxSize, k, v).value.cache
  {
    assert forall x | x in s.cache :: x in s.order;
  }

  /** The value of the last `set` of a key since the last `clear`. */
  function LastSet<V>(ops: seq<Op<V>>, k: string): Option<V> {
    if ops == [] then None
    else
      match ops[|ops| - 1]
      case Clear => None
      case Set(x, v) => if x == k then Some(v) else LastSet(ops[..|ops| - 1], k)
      case Get(_) => LastSet(ops[..|ops| - 1], k)
  }

  /** How often a key was used since: once for its last `set`, once for every `get` after it. */
  function Uses<V>(ops: seq<Op<V>>, k: string): nat {
    if ops == [] then 0
    else
      match ops[|ops| - 1]
      case Clear => 0
      case Set(x, _) => if x == k then 1 else Uses(ops[..|ops| - 1], k)
      case Get(x) => Uses(ops[..|ops| - 1], k) + if x == k then 1 else 0
  }

  /** Whatever is found in the cache is the last value set since it was cleared, and its count
      is the number of its uses; so a hit is never stale. */
  lemma {:induction false} HitsAreCurrent<V>(ops: seq<Op<V>>, maxSize: nat, k: string)
    requires maxSize >= 1 && k in Run(ops, maxSize).cache
    ensures LastSet(ops, k) == Some(Run(ops, maxSize).cache[k])
    ensures Uses(ops, k) == Run(ops, maxSize).counts[k]
  {
    if ops != [] {
      var front := ops[..|ops| - 1];
      var s, last := Run(front, maxSize), ops[|ops| - 1];
      if last.Set? {
        SetKeepsOthers(s, maxSize, last.key, last.value, k);
      }
      if k in s.cache {
        HitsAreCurrent(front, maxSize, k);
      }
    }
  }

  /** Entries other than the new one are kept as they were, or dropped. */
  lemma SetKeepsOthers<V>(s: State<V>, maxSize: nat, k: string, v: V, x: string)
    requires Consistent(s) && |s.cache| <= maxSize && maxSize >= 1
    ensures AfterSet(s, maxSize, k, v).Some?
    ensures var t := AfterSet(s, maxSize, k, v).value;
      x in t.cache && x != k ==> x in s.cache && x in t.counts && t.cache[x] == s.cache[x] && t.counts[x] == s.counts[x]
    ensures var t := AfterSet(s, maxSize, k, v).value; k in t.counts && t.counts[k] == 1
  {
    hide NoRepeats;
    SetKeepsBounds(s, maxSize, k, v);
  }

  /** Over every run the entry that makes room has been used least often since it was set. */
  lemma EvictsLeastFrequent<V>(ops: seq<Op<V>>, maxSize: nat, k: string, v: V, gone: string, other: string)
    requires maxSize >= 1 && gone != k
    requires gone in Run(ops, maxSize).cache && gone !in Run(ops + [Set(k, v)], maxSize).cache
    requires other in Run(ops, maxSize).cache
    ensures Uses(ops, gone) <= Uses(ops, other)
  {
    assert (ops + [Op.Set(k, v)])[..|ops|] == ops;
    VictimIsLeastUsed(Run(ops, maxSize), maxSize, k, v, gone);
    HitsAreCurrent(ops, maxSize, gone);
    HitsAreCurrent(ops, maxSize, other);
  }

  /** A limit below one cannot hold anything: the very first `set` raises. */
  lemma NoRoomRaises<V>(maxSize: int, k: string, v: V)
    ensures AfterSet(Empty(), maxSize, k, v).None? <==> maxSize < 1
  {
  }

  // ----- recency --------------------------------------------------------------------------

  /** `a` stands before `b` in the count dictionary. */
  ghost predicate Precedes(order: seq<string>, a: string, b: string) {
    exists i, j :: 0 <= i < j < |order| && order[i] == a && order[j] == b
  }

  /** `a` is evicted before `b`: used less often, or as often and inserted earlier. */
  ghost predicate Sooner<V>(s: State<V>, a: string, b: string)
    requires a in s.counts && b in s.counts
  {
    s.counts[a] < s.counts[b] || (s.counts[a] == s.counts[b] && Precedes(s.order, a, b))
  }

  /** Where the key that `LeastUsed` finds stands. */
  lemma {:induction false} LeastUsedAt(counts: map<string, nat>, order: seq<string>, n: nat) returns (m: nat)
    requires 1 <= n <= |order| && forall i | 0 <= i < |order| :: order[i] in counts
    ensures m < n && LeastUsed(counts, order, n) == order[m]
    ensures forall i | 0 <= i < n && i != m ::
      counts[order[m]] < counts[order[i]] || (counts[order[m]] == counts[order[i]] && m < i)
  {
    m := 0;
    if n > 1 {
      m := LeastUsedAt(counts, order, n - 1);
      if counts[order[n - 1]] < counts[order[m]] {
        m := n - 1;
      }
    }
  }

  function Victim<V>(s: State<V>): string
    requires Consistent(s) && s.order != []
  {
    LeastUsed(s.counts, s.order, |s.order|)
  }

  /** The victim is the key that goes before every other one. */
  lemma VictimIsSoonest<V>(s: State<V>, x: string)
    requires Consistent(s) && x in s.cache
    ensures s.order != []
    ensures x == Victim(s) <==> forall y | y in s.cache && y != x :: Sooner(s, x, y)
  {
    assert x in s.counts && x in s.order;
    var m := LeastUsedAt(s.counts, s.order, |s.order|);
    var victim := s.order[m];
    assert victim in s.order && victim in s.counts && victim in s.cache;
    if x == victim {
      forall y | y in s.cache && y != x ensures Sooner(s, x, y) {
        assert y in s.counts && y in s.order;
        var i :| 0 <= i < |s.order| && s.order[i] == y;
        assert i != m;
      }
    } else {
      var i :| 0 <= i < |s.order| && s.order[i] == x;
      assert i != m && !Sooner(s, x, victim);
    }
  }

  /** What a call of `set` takes out of the cache: nothing below the limit; from a full cache the one
      entry that goes before every other, even when the key being set is already there. */
  lemma SetRemovesExactly<V>(s: State<V>, maxSize: nat, k: string, v: V, x: string)
    requires Consistent(s) && |s.cache| <= maxSize && maxSize >= 1 && x in s.cache
    ensures AfterSet(s, maxSize, k, v).Some?
    ensures x !in AfterSet(s, maxSize, k, v).value.cache <==>
      |s.cache| == maxSize && x != k && forall y | y in s.cache && y != x :: Sooner(s, x, y)
  {
    hide Sooner, NoRepeats, LeastUsed;
    SetKeepsBounds(s, maxSize, k, v);
    VictimIsSoonest(s, x);
  }

  /** The last call that set or read a key, as a position in the run; -1 if there is none. */
  function LastUse<V>(ops: seq<Op<V>>, k: string): (i: int)
    ensures -1 <= i < |ops|
  {
    if ops == [] then -1
    else
      var last := ops[|ops| - 1];
      if !last.Clear? && last.key == k then |ops| - 1 else LastUse(ops[..|ops| - 1], k)
  }

  /** Among the entries of the cache this one was used longest ago. */
  ghost predicate LeastRecent<V>(ops: seq<Op<V>>, maxSize: nat, k: string)
    requires maxSize >= 1
  {
    k in Run(ops, maxSize).cache
    && forall x | x in Run(ops, maxSize).cache && x != k :: LastUse(ops, k) < LastUse(ops, x)
  }

  /** The entry survives the room-making of a call of `set`. */
  ghost predicate Stays<V>(s: State<V>, maxSize: nat, k: string)
    requires Consistent(s)
  {
    k in s.cache && (|s.cache| < maxSize || (s.order != [] && k != Victim(s)))
  }

  /** The call that put a key into the cache where it has stayed since, as a position in the run;
      setting a key that stays does not insert it anew. */
  ghost function Inserted<V>(ops: seq<Op<V>>, maxSize: nat, k: string): (i: int)
    requires maxSize >= 1
    ensures -1 <= i < |ops|
  {
    if ops == [] then -1
    else
      var front, last := ops[..|ops| - 1], ops[|ops| - 1];
      if last.Clear? then -1
      else if last.Set? && last.key == k && !Stays(Run(front, maxSize), maxSize, k) then |ops| - 1
      else Inserted(front, maxSize, k)
  }

  /** Insertions come later along these keys. */
  ghost predicate Ordered<V>(ops: seq<Op<V>>, maxSize: nat, order: seq<string>)
    requires maxSize >= 1
  {
    forall i, j :: 0 <= i < j < |order| ==> Inserted(ops, maxSize, order[i]) < Inserted(ops, maxSize, order[j])
  }

  lemma {:induction false} WithoutOrdered<V>(ops: seq<Op<V>>, maxSize: nat, order: seq<string>, k: string)
    requires maxSize >= 1 && Ordered(ops, maxSize, order)
    ensures Ordered(ops, maxSize, Without(order, k))
  {
    hide Inserted;
    if order != [] {
      var rest := order[1..];
      assert forall i | 0 <= i < |rest| :: rest[i] == order[i + 1];
      assert forall x | x in rest :: Inserted(ops, maxSize, order[0]) < Inserted(ops, maxSize, x);
      WithoutOrdered(ops, maxSize, rest, k);
      assert forall x | x in Without(rest, k) :: x in rest;
    }
  }

  lemma StaysIsKept<V>(s: State<V>, maxSize: nat, k: string)
    requires Consistent(s) && |s.cache| <= maxSize && maxSize >= 1
    ensures Evicted(s, maxSize).Some? && (Stays(s, maxSize, k) <==> k in Evicted(s, maxSize).value.counts)
  {
    EvictionKeeps(s, maxSize);
    hide NoRepeats, Without, LeastUsed;
  }

  lemma EvictedOrdered<V>(ops: seq<Op<V>>, maxSize: nat, s: State<V>)
    requires maxSize >= 1 && Consistent(s) && Evicted(s, maxSize).Some? && Ordered(ops, maxSize, s.order)
    ensures Ordered(ops, maxSize, Evicted(s, maxSize).value.order)
  {
    hide Consistent, Ordered, LeastUsed, Without;
    if |s.cache| >= maxSize {
      WithoutOrdered(ops, maxSize, s.order, Victim(s));
    }
  }

  /** What one more call makes of the insertion of a key. */
  lemma InsertedNext<V>(front: seq<Op<V>>, last: Op<V>, maxSize: nat, k: string)
    requires maxSize >= 1
    ensures Inserted(front + [last], maxSize, k) ==
      if last.Clear? then -1
      else if last.Set? && last.key == k && !Stays(Run(front, maxSize), maxSize, k) then |front|
      else Inserted(front, maxSize, k)
  {
    hide Stays, Run;
    assert (front + [last])[..|front|] == front;
  }

  lemma SetOrdered<V>(front: seq<Op<V>>, maxSize: nat, k: string, v: V)
    requires maxSize >= 1 && Ordered(front, maxSize, Run(front, maxSize).order)
    ensures Ordered(front + [Set(k, v)], maxSize, Run(front + [Set(k, v)], maxSize).order)
  {
    hide Run, Consistent, Inserted, Evicted, Stays;
    var s := Run(front, maxSize);
    RunSet(front, maxSize, k, v);
    StaysIsKept(s, maxSize, k);
    EvictedOrdered(front, maxSize, s);
    EvictionKeeps(s, maxSize);
    var room := Evicted(s, maxSize).value;
    forall x ensures Inserted(front + [Set(k, v)], maxSize, x) ==
      if x == k && k !in room.counts then |front| else Inserted(front, maxSize, x)
    {
      InsertedNext(front, Set(k, v), maxSize, x);
    }
    SameKeys(room, k);
  }

  lemma SameKeys<V>(s: State<V>, k: string)
    requires Consistent(s)
    ensures k in s.order <==> k in s.counts
  {
  }

  /** The count dictionary lists its keys in the order in which they were inserted. */
  lemma {:induction false} OrderIsInsertion<V>(ops: seq<Op<V>>, maxSize: nat)
    requires maxSize >= 1
    ensures Ordered(ops, maxSize, Run(ops, maxSize).order)
  {
    if ops == [] {
      EmptyRun<V>(maxSize);
    } else {
      var front, last := ops[..|ops| - 1], ops[|ops| - 1];
      assert ops == front + [last];
      OrderIsInsertion(front, maxSize);
      if last.Set? {
        SetOrdered(front, maxSize, last.key, last.value);
      } else {
        OtherOrder(front, last, maxSize);
        hide Run, Inserted;
        forall k ensures last.Get? ==> Inserted(ops, maxSize, k) == Inserted(front, maxSize, k) {
          InsertedNext(front, last, maxSize, k);
        }
      }
    }
  }

  lemma OtherOrder<V>(front: seq<Op<V>>, last: Op<V>, maxSize: nat)
    requires maxSize >= 1 && !last.Set?
    ensures Run(front + [last], maxSize).order == if last.Clear? then [] else Run(front, maxSize).order
  {
    assert (front + [last])[..|front|] == front;
  }

  lemma InsertionOrder<V>(ops: seq<Op<V>>, maxSize: nat, a: string, b: string)
    requires maxSize >= 1 && a in Run(ops, maxSize).cache && b in Run(ops, maxSize).cache
    ensures Precedes(Run(ops, maxSize).order, a, b) <==> Inserted(ops, maxSize, a) < Inserted(ops, maxSize, b)
  {
    hide Run, Inserted, Consistent, Ordered, Precedes;
    OrderIsInsertion(ops, maxSize);
    InStep(Run(ops, maxSize), a);
    InStep(Run(ops, maxSize), b);
    SameKeys(Run(ops, maxSize), a);
    SameKeys(Run(ops, maxSize), b);
    PrecedesIsEarlier(ops, maxSize, Run(ops, maxSize).order, a, b);
  }

  lemma PrecedesIsEarlier<V>(ops: seq<Op<V>>, maxSize: nat, order: seq<string>, a: string, b: string)
    requires maxSize >= 1 && Ordered(ops, maxSize, order) && a in order && b in order
    ensures Precedes(order, a, b) <==> Inserted(ops, maxSize, a) < Inserted(ops, maxSize, b)
  {
    hide Inserted;
    var i :| 0 <= i < |order| && order[i] == a;
    var j :| 0 <= j < |order| && order[j] == b;
    if Precedes(order, a, b) {
      var k, m :| 0 <= k < m < |order| && order[k] == a && order[m] == b;
      assert Inserted(ops, maxSize, order[k]) < Inserted(ops, maxSize, order[m]);
    }
  }

  /** Over every run: when a full cache makes room, the least recently used entry goes exactly if it
      has been used less often than every other one, or as often and was inserted earlier. */
  lemma EvictsLeastRecentExactlyWhen<V>(ops: seq<Op<V>>, maxSize: nat, k: string, v: V, eldest: string)
    requires maxSize >= 1 && |Run(ops, maxSize).cache| == maxSize && LeastRecent(ops, maxSize, eldest) && eldest != k
    ensures eldest !in Run(ops + [Set(k, v)], maxSize).cache <==>
      forall x | x in Run(ops, maxSize).cache && x != eldest ::
        Uses(ops, eldest) < Uses(ops, x)
        || (Uses(ops, eldest) == Uses(ops, x) && Inserted(ops, maxSize, eldest) < Inserted(ops, maxSize, x))
  {
    var s := Run(ops, maxSize);
    hide Consistent, Run, LeastUsed, Inserted, Precedes, Uses;
    assert (ops + [Op.Set(k, v)])[..|ops|] == ops;
    RunSet(ops, maxSize, k, v);
    SetRemovesExactly(s, maxSize, k, v, eldest);
    InStep(s, eldest);
    forall x | x in s.cache
      ensures x in s.counts && Uses(ops, x) == s.counts[x]
      ensures Precedes(s.order, eldest, x) <==> Inserted(ops, maxSize, eldest) < Inserted(ops, maxSize, x)
    {
      HitsAreCurrent(ops, maxSize, x);
      InStep(s, x);
      InsertionOrder(ops, maxSize, eldest, x);
    }
  }

  lemma InStep<V>(s: State<V>, x: string)
    requires Consistent(s)
    ensures x in s.cache <==> x in s.counts
  {
  }

  lemma RunSet<V>(ops: seq<Op<V>>, maxSize: nat, k: string, v: V)
    requires maxSize >= 1
    ensures AfterSet(Run(ops, maxSize), maxSize, k, v) == Some(Run(ops + [Set(k, v)], maxSize))
  {
    assert (ops + [Op.Set(k, v)])[..|ops|] == ops;
    SetKeepsBounds(Run(ops, maxSize), maxSize, k, v);
  }

  lemma RunGet<V>(ops: seq<Op<V>>, maxSize: nat, k: string)
    requires maxSize >= 1
    ensures Run(ops + [Get(k)], maxSize) == AfterGet(Run(ops, maxSize), k)
  {
    assert (ops + [Op.Get(k)])[..|ops|] == ops;
  }

  lemma RunFill<V>(ops: seq<Op<V>>, maxSize: nat, k: string, v: V)
    requires maxSize >= 1 && |Run(ops, maxSize).cache| < maxSize
    ensures Run(ops + [Set(k, v)], maxSize) == Stored(Run(ops, maxSize), k, v)
  {
    RunSet(ops, maxSize, k, v);
  }

  lemma LastOf<V>(ops: seq<Op<V>>, last: Op<V>, k: string)
    requires !last.Clear?
    ensures LastUse(ops + [last], k) == if last.key == k then |ops| else LastUse(ops, k)
    ensures last.Set? ==> Uses(ops + [last], k) == if last.key == k then 1 else Uses(ops, k)
    ensures last.Get? ==> Uses(ops + [last], k) == Uses(ops, k) + if last.key == k then 1 else 0
  {
    assert (ops + [last])[..|ops|] == ops;
  }

  function SetGetSet<V>(a: string, b: string, v: V): seq<Op<V>> { [Set(a, v)] + [Get(a)] + [Set(b, v)] }

  lemma AfterSetGetSet<V>(a: string, b: string, v: V)
    requires a != b
    ensures Run(SetGetSet(a, b, v), 2) == State(map[a := v, b := v], map[a := 2, b := 1], [a, b])
  {
    hide Run, Consistent;
    var one, two := [Op.Set(a, v)], [Op.Set(a, v)] + [Op.Get(a)];
    EmptyRun<V>(2);
    RunFill([], 2, a, v);
    assert [] + [Op.Set(a, v)] == one && [] + [a] == [a];
    assert Run(one, 2) == State(map[a := v], map[a := 1], [a]);
    RunGet(one, 2, a);
    assert Run(two, 2) == State(map[a := v], map[a := 2], [a]);
    RunFill(two, 2, b, v);
    assert [a] + [b] == [a, b];
  }

  lemma EmptyRun<V>(maxSize: nat)
    requires maxSize >= 1
    ensures Run<V>([], maxSize) == Empty()
  {
  }

  lemma UsesSetGetSet<V>(a: string, b: string, v: V, x: string)
    requires a != b && x in {a, b}
    ensures LastUse(SetGetSet(a, b, v), x) == (if x == a then 1 else 2)
    ensures Uses(SetGetSet(a, b, v), x) == if x == a then 2 else 1
  {
    hide LastUse, Uses;
    var one, two := [Op.Set(a, v)], [Op.Set(a, v)] + [Op.Get(a)];
    UsesNone<V>(x);
    assert [] + [Op.Set(a, v)] == one;
    LastOf([], Op.Set(a, v), x);
    LastOf(one, Op.Get(a), x);
    LastOf(two, Op.Set(b, v), x);
  }

  lemma UsesNone<V>(x: string)
    ensures LastUse<V>([], x) == -1 && Uses<V>([], x) == 0
  {
  }

  /** Two entries, the older one read once: it is the least recently used one, yet the newer goes. */
  lemma EvictionIgnoresRecency<V>(a: string, b: string, c: string, v: V)
    requires a != b && a != c && b != c
    ensures LeastRecent(SetGetSet(a, b, v), 2, a) && |Run(SetGetSet(a, b, v), 2).cache| == 2
    ensures a in Run(SetGetSet(a, b, v) + [Set(c, v)], 2).cache
  {
    hide Run, SetGetSet, LastUse, Uses, Consistent, Inserted;
    AfterSetGetSet(a, b, v);
    assert Run(SetGetSet(a, b, v), 2).cache.Keys == {a, b};
    UsesSetGetSet(a, b, v, a);
    UsesSetGetSet(a, b, v, b);
    EvictsLeastRecentExactlyWhen(SetGetSet(a, b, v), 2, c, v, a);
  }

  function SetAgain<V>(a: string, b: string, c: string, v: V): seq<Op<V>> {
    [Set(a, v)] + [Set(b, v)] + [Set(a, v)] + [Set(c, v)]
  }

  lemma AfterSetAgain<V>(a: string, b: string, c: string, v: V)
    requires a != b && a != c && b != c
    ensures Run(SetAgain(a, b, c, v), 3) ==
      State(map[a := v, b := v, c := v], map[a := 1, b := 1, c := 1], [a, b, c])
  {
    hide Run, Consistent;
    var one, two := [Op.Set(a, v)], [Op.Set(a, v)] + [Op.Set(b, v)];
    var three := two + [Op.Set(a, v)];
    EmptyRun<V>(3);
    RunFill([], 3, a, v);
    assert [] + [Op.Set(a, v)] == one && [] + [a] == [a];
    assert Run(one, 3) == State(map[a := v], map[a := 1], [a]);
    RunFill(one, 3, b, v);
    assert [a] + [b] == [a, b];
    var s := State(map[a := v, b := v], map[a := 1, b := 1], [a, b]);
    assert Run(two, 3) == s && s.cache.Keys == {a, b};
    RunFill(two, 3, a, v);
    assert s.cache[a := v] == s.cache && s.counts[a := 1] == s.counts;
    assert Run(three, 3) == s;
    RunFill(three, 3, c, v);
    assert [a, b] + [c] == [a, b, c];
  }

  lemma UsesSetAgain<V>(a: string, b: string, c: string, v: V, x: string)
    requires a != b && a != c && b != c && x in {a, b, c}
    ensures LastUse(SetAgain(a, b, c, v), x) == (if x == a then 2 else if x == b then 1 else 3)
    ensures Uses(SetAgain(a, b, c, v), x) == 1
  {
    hide LastUse, Uses;
    var one, two := [Op.Set(a, v)], [Op.Set(a, v)] + [Op.Set(b, v)];
    UsesNone<V>(x);
    assert [] + [Op.Set(a, v)] == one;
    LastOf([], Op.Set(a, v), x);
    LastOf(one, Op.Set(b, v), x);
    LastOf(two, Op.Set(a, v), x);
    LastOf(two + [Op.Set(a, v)], Op.Set(c, v), x);
  }

  /** Setting a key again counts as a use, but the key keeps its place in the dictionary: of entries
      with one use each, the one set again goes before the one that was left alone. */
  lemma SettingAgainKeepsPlace<V>(a: string, b: string, c: string, d: string, v: V)
    requires a != b && a != c && b != c && d != a && d != b && d != c
    ensures LeastRecent(SetAgain(a, b, c, v), 3, b) && |Run(SetAgain(a, b, c, v), 3).cache| == 3
    ensures b in Run(SetAgain(a, b, c, v) + [Set(d, v)], 3).cache
  {
    hide Run, SetAgain, LastUse, Uses, Consistent, Inserted;
    var ops := SetAgain(a, b, c, v);
    AfterSetAgain(a, b, c, v);
    assert Run(ops, 3).cache.Keys == {a, b, c};
    UsesSetAgain(a, b, c, v, a);
    UsesSetAgain(a, b, c, v, b);
    UsesSetAgain(a, b, c, v, c);
    assert !Precedes([a, b, c], b, a);
    InsertionOrder(ops, 3, b, a);
    EvictsLeastRecentExactlyWhen(ops, 3, d, v, b);
  }
}
