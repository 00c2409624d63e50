/**
 * The in-memory stand-in for the key-value store used by the tests
 * (`MockKv`, `MockAtomic`): keys are flattened to strings, the entries live
 * in one JavaScript `Map` shared by the store and its atomic batches, a batch
 * queues operations and replays them in order on `commit`, and `list` with a
 * prefix is a string-prefix filter in insertion order.
 */
module KvMock {
  import opened Wrappers
  import opened Records
  import opened Strings
  import opened Kv

  /** `String(b)` for each byte, joined by ",". */
  function ByteStrings(bytes: seq<bv8>): (r: seq<string>)
    ensures |r| == |bytes|
  {
    seq(|bytes|, i requires 0 <= i < |bytes| => NatToString(bytes[i] as nat))
  }

  /** How `keyToString` renders one key part. */
  function PartToString(p: KeyPart): string
  {
    match p
    case Bytes(bytes) => "U8(" + Join(ByteStrings(bytes), ',') + ")"
    case Str(s) => s
    case Num(n) => IntToString(n)
    case Bool(b) => if b then "true" else "false"
  }

  function Rendered(key: Key): (r: seq<string>)
    ensures |r| == |key|
  {
    seq(|key|, i requires 0 <= i < |key| => PartToString(key[i]))
  }

  /** `keyToString`: the rendered parts joined by "/". */
  function KeyToString(key: Key): string
  {
    Join(Rendered(key), '/')
  }

  predicate NoSlash(parts: seq<string>)
  {
    forall i | 0 <= i < |parts| :: '/' !in parts[i]
  }

  /**
   * While no rendered part contains "/", the string key splits back into the
   * rendered parts, so it still tells the parts apart.
   */
  lemma KeyToStringParts(key: Key)
    requires |key| > 0 && NoSlash(Rendered(key))
    ensures Split(KeyToString(key), '/') == Rendered(key)
  {
    SplitJoin(Rendered(key), '/');
  }

  /** Rendering forgets the part's type: the string "1" and the number 1 share an entry. */
  lemma StringAndNumberPartsCollide()
    ensures KeyToString([Str("1")]) == KeyToString([Num(1)])
    ensures [Str("1")] != [Num(1)]
  {
    assert NatToString(1) == "1";
    assert IntToString(1) == "1";
  }

  /** The contents of a JavaScript `Map`: its keys in insertion order and its entries. */
  datatype MapState = MapState(keys: seq<string>, store: map<string, Value>)

  predicate Distinct(s: seq<string>)
  {
    forall i, j | 0 <= i < j < |s| :: s[i] != s[j]
  }

  ghost predicate ValidState(m: MapState)
  {
    Distinct(m.keys) && forall k :: k in m.keys <==> k in m.store
  }

  function Without(s: seq<string>, x: string): (r: seq<string>)
    ensures forall y :: y in r <==> y in s && y != x
  {
    if s == [] then []
    else if s[0] == x then Without(s[1..], x)
    else [s[0]] + Without(s[1..], x)
  }

  lemma {:induction false} WithoutDistinct(s: seq<string>, x: string)
    requires Distinct(s)
    ensures Distinct(Without(s, x))
    decreases |s|
  {
    if s != [] {
      WithoutDistinct(s[1..], x);
      if s[0] != x {
        var rest := Without(s[1..], x);
        forall i, j | 0 <= i < j < |[s[0]] + rest| ensures ([s[0]] + rest)[i] != ([s[0]] + rest)[j] {
          if i == 0 {
            assert rest[j - 1] in s[1..];
          }
        }
      }
    }
  }

  /** `map.set(k, v)`: a new key goes last, an existing key keeps its place. */
  function MapSet(m: MapState, k: string, v: Value): MapState
  {
    MapState(if k in m.store then m.keys else m.keys + [k], m.store[k := v])
  }

  /** `map.delete(k)`. */
  function MapDelete(m: MapState, k: string): MapState
  {
    MapState(Without(m.keys, k), m.store - {k})
  }

  /** `set` and `delete` keep the map's bookkeeping consistent, touch only their key, and order: set keeps existing positions. */
  lemma MapUpdatesValid(m: MapState, k: string, v: Value)
    requires ValidState(m)
    ensures ValidState(MapSet(m, k, v)) && ValidState(MapDelete(m, k))
    ensures MapSet(m, k, v).store[k] == v
    ensures forall j | j in m.store && j != k :: j in MapSet(m, k, v).store && MapSet(m, k, v).store[j] == m.store[j]
    ensures forall j | j in m.store && j != k :: j in MapDelete(m, k).store && MapDelete(m, k).store[j] == m.store[j]
    ensures k !in MapDelete(m, k).store
    ensures |MapSet(m, k, v).keys| >= |m.keys| && MapSet(m, k, v).keys[..|m.keys|] == m.keys
  {
    WithoutDistinct(m.keys, k);
    var s := MapSet(m, k, v);
    if k !in m.store {
      forall i, j | 0 <= i < j < |s.keys| ensures s.keys[i] != s.keys[j] {
        if j == |m.keys| {
          assert s.keys[i] in m.keys;
        }
      }
    }
  }

  /** A `Deno.KvU64` holds an unsigned 64-bit value; its constructor throws `RangeError` otherwise. */
  const U64_LIMIT: int := 0x1_0000_0000_0000_0000

  predicate InU64(n: int)
  {
    0 <= n < U64_LIMIT
  }

  /** `(map.get(k) as Deno.KvU64)?.value`: a counter's value, or nothing for a missing or other value. */
  function Current(m: MapState, k: string): Option<int>
  {
    if k in m.store && m.store[k].U64? then Some(m.store[k].n) else None
  }

  /** The operations a batch queues. */
  datatype Op =
    | OpSet(key: Key, value: Value)
    | OpDelete(key: Key)
    | OpSum(key: Key, n: int)
    | OpMin(key: Key, n: int)
    | OpMax(key: Key, n: int)

  /** Running one queued operation; `None` when it throws (a `KvU64` out of range). */
  function ApplyOp(m: MapState, op: Op): Option<MapState>
  {
    var k := KeyToString(op.key);
    match op
    case OpSet(_, v) => Some(MapSet(m, k, v))
    case OpDelete(_) => Some(MapDelete(m, k))
    case OpSum(_, n) =>
      var total := Current(m, k).GetOr(0) + n;
      if InU64(total) then Some(MapSet(m, k, U64(total))) else None
    case OpMin(_, n) =>
      var cur := Current(m, k);
      if cur.None? || n < cur.value then
        (if InU64(n) then Some(MapSet(m, k, U64(n))) else None)
      else Some(m)
    case OpMax(_, n) =>
      var cur := Current(m, k);
      if cur.None? || n > cur.value then
        (if InU64(n) then Some(MapSet(m, k, U64(n))) else None)
      else Some(m)
  }

  /** Two sums on one counter add up, while the running total stays in range. */
  lemma SumsAdd(m: MapState, key: Key, a: int, b: int)
    requires ValidState(m)
    requires var c := Current(m, KeyToString(key)).GetOr(0); InU64(c + a) && InU64(c + a + b)
    ensures ApplyOp(m, OpSum(key, a)).Some?
    ensures ApplyOp(ApplyOp(m, OpSum(key, a)).value, OpSum(key, b)) == ApplyOp(m, OpSum(key, a + b))
  {
    var k := KeyToString(key);
    var m1 := ApplyOp(m, OpSum(key, a)).value;
    var c := Current(m, k).GetOr(0);
    assert m1 == MapSet(m, k, U64(c + a));
    assert Current(m1, k) == Some(c + a);
    assert m1.store[k := U64(c + a + b)] == m.store[k := U64(c + a + b)];
  }

  /** A sum on a missing key (or one that holds no counter) counts from 0. */
  lemma SumOfMissing(m: MapState, key: Key, n: int)
    requires Current(m, KeyToString(key)).None? && InU64(n)
    ensures ApplyOp(m, OpSum(key, n)).Some?
    ensures Current(ApplyOp(m, OpSum(key, n)).value, KeyToString(key)) == Some(n)
  {
  }

  /**
   * `min` leaves the smaller of the stored counter and n (n alone when there
   * is none) and `max` the larger; repeating either changes nothing.
   */
  lemma MinMaxSpec(m: MapState, key: Key, n: int)
    requires InU64(n)
    ensures var k := KeyToString(key);
      var cur := Current(m, k);
      && ApplyOp(m, OpMin(key, n)).Some? && ApplyOp(m, OpMax(key, n)).Some?
      && Current(ApplyOp(m, OpMin(key, n)).value, k) == Some(if cur.None? || n < cur.value then n else cur.value)
      && Current(ApplyOp(m, OpMax(key, n)).value, k) == Some(if cur.None? || n > cur.value then n else cur.value)
      && ApplyOp(ApplyOp(m, OpMin(key, n)).value, OpMin(key, n)) == ApplyOp(m, OpMin(key, n))
      && ApplyOp(ApplyOp(m, OpMax(key, n)).value, OpMax(key, n)) == ApplyOp(m, OpMax(key, n))
  {
  }

  datatype Outcome = Committed | Threw(at: nat)

  datatype Replayed = Replayed(state: MapState, outcome: Outcome)

  function Shifted(r: Replayed, d: nat): Replayed
  {
    if r.outcome.Threw? then r.(outcome := Threw(r.outcome.at + d)) else r
  }

  /** `operations.forEach(op => op())`: the first operation that throws stops the rest. */
  function Replay(m: MapState, ops: seq<Op>): Replayed
    decreases |ops|
  {
    if ops == [] then Replayed(m, Committed)
    else match ApplyOp(m, ops[0])
      case None => Replayed(m, Threw(0))
      case Some(next) => Shifted(Replay(next, ops[1..]), 1)
  }

  /**
   * When the i-th operation throws, the operations before it stay applied
   * (there is no rollback) and the i-th finds the state they left.
   */
  lemma {:induction false} ReplayThrowKeepsEarlierOps(m: MapState, ops: seq<Op>)
    requires Replay(m, ops).outcome.Threw?
    ensures var r := Replay(m, ops);
      && r.outcome.at < |ops|
      && Replay(m, ops[..r.outcome.at]) == Replayed(r.state, Committed)
      && ApplyOp(r.state, ops[r.outcome.at]).None?
    decreases |ops|
  {
    var r := Replay(m, ops);
    if ApplyOp(m, ops[0]).Some? {
      var next := ApplyOp(m, ops[0]).value;
      ReplayThrowKeepsEarlierOps(next, ops[1..]);
      var i := r.outcome.at;
      assert ops[..i][1..] == ops[1..][..i - 1];
      assert ops[1..][i - 1] == ops[i];
    }
  }

  /** A batch of only `set`s and `delete`s always commits. */
  lemma {:induction false} SetDeleteBatchCommits(m: MapState, ops: seq<Op>)
    requires forall i | 0 <= i < |ops| :: ops[i].OpSet? || ops[i].OpDelete?
    ensures Replay(m, ops).outcome == Committed
    decreases |ops|
  {
    if ops != [] {
      SetDeleteBatchCommits(ApplyOp(m, ops[0]).value, ops[1..]);
    }
  }

  lemma ApplyOpKeepsValid(m: MapState, op: Op)
    requires ValidState(m) && ApplyOp(m, op).Some?
    ensures ValidState(ApplyOp(m, op).value)
  {
    var k := KeyToString(op.key);
    match op
    case OpSet(_, v) => MapUpdatesValid(m, k, v);
    case OpDelete(_) => MapUpdatesValid(m, k, U64(0));
    case OpSum(_, n) => MapUpdatesValid(m, k, U64(Current(m, k).GetOr(0) + n));
    case OpMin(_, n) => MapUpdatesValid(m, k, U64(n));
    case OpMax(_, n) => MapUpdatesValid(m, k, U64(n));
  }

  /** Replaying a batch, committed or not, leaves the map's bookkeeping consistent. */
  lemma {:induction false} ReplayKeepsValid(m: MapState, ops: seq<Op>)
    requires ValidState(m)
    ensures ValidState(Replay(m, ops).state)
    decreases |ops|
  {
    if ops != [] && ApplyOp(m, ops[0]).Some? {
      ApplyOpKeepsValid(m, ops[0]);
      ReplayKeepsValid(ApplyOp(m, ops[0]).value, ops[1..]);
    }
  }

  /** What `list` collects while walking the map's entries in insertion order. */
  function PrefixEntries(keys: seq<string>, store: map<string, Value>, prefix: string): seq<Entry>
  {
    if keys == [] then []
    else
      var rest := PrefixEntries(keys[1..], store, prefix);
      if keys[0] in store && StartsWith(keys[0], prefix) then [Entry([Str(keys[0])], store[keys[0]])] + rest
      else rest
  }

  /** Walking one more key appends its entry when it is stored under the prefix. */
  lemma {:induction false} PrefixEntriesSnoc(keys: seq<string>, k: string, store: map<string, Value>, prefix: string)
    ensures PrefixEntries(keys + [k], store, prefix)
         == PrefixEntries(keys, store, prefix)
            + (if k in store && StartsWith(k, prefix) then [Entry([Str(k)], store[k])] else [])
    decreases |keys|
  {
    if keys == [] {
      assert [k][1..] == [];
    } else {
      assert (keys + [k])[1..] == keys[1..] + [k];
      PrefixEntriesSnoc(keys[1..], k, store, prefix);
    }
  }

  /** `list(selector)`: a selector with a prefix (its `start`/`end` ignored) filters by string prefix; any other yields nothing. */
  function Listed(m: MapState, sel: Selector): seq<Entry>
  {
    match sel
    case Prefix(p) => PrefixEntries(m.keys, m.store, KeyToString(p))
    case PrefixEnd(p, _) => PrefixEntries(m.keys, m.store, KeyToString(p))
    case Range(_, _) => []
  }

  /** A listed entry: a one-part key naming a stored string key under the prefix, with its value. */
  predicate ListedFrom(e: Entry, keys: seq<string>, store: map<string, Value>, prefix: string)
  {
    && |e.key| == 1 && e.key[0].Str?
    && e.key[0].s in keys && e.key[0].s in store
    && StartsWith(e.key[0].s, prefix) && e.value == store[e.key[0].s]
  }

  /**
   * A prefix listing yields exactly the stored string keys that start with
   * the prefix string, as one-part keys carrying the stored value.
   */
  lemma {:induction false} PrefixEntriesSpec(keys: seq<string>, store: map<string, Value>, prefix: string)
    ensures forall e | e in PrefixEntries(keys, store, prefix) :: ListedFrom(e, keys, store, prefix)
    ensures forall s | s in keys && s in store && StartsWith(s, prefix) ::
      Entry([Str(s)], store[s]) in PrefixEntries(keys, store, prefix)
    decreases |keys|
  {
    if keys != [] {
      var tail := keys[1..];
      PrefixEntriesSpec(tail, store, prefix);
      forall e | e in PrefixEntries(tail, store, prefix) ensures ListedFrom(e, keys, store, prefix) {
        assert ListedFrom(e, tail, store, prefix);
      }
      assert keys == [keys[0]] + tail;
    }
  }

  /** Over a map's distinct keys, a prefix listing names each key at most once. */
  lemma {:induction false} PrefixEntriesUnique(keys: seq<string>, store: map<string, Value>, prefix: string)
    requires Distinct(keys)
    ensures forall i, j | 0 <= i < j < |PrefixEntries(keys, store, prefix)| ::
      PrefixEntries(keys, store, prefix)[i].key != PrefixEntries(keys, store, prefix)[j].key
    decreases |keys|
  {
    if keys != [] {
      var tail := keys[1..];
      forall i, j | 0 <= i < j < |tail| ensures tail[i] != tail[j] {
        assert tail[i] == keys[i + 1] && tail[j] == keys[j + 1];
      }
      assert Distinct(tail);
      PrefixEntriesUnique(tail, store, prefix);
      PrefixEntriesSpec(tail, store, prefix);
      var rest := PrefixEntries(tail, store, prefix);
      if keys[0] in store && StartsWith(keys[0], prefix) {
        var es := [Entry([Str(keys[0])], store[keys[0]])] + rest;
        forall i, j | 0 <= i < j < |es| ensures es[i].key != es[j].key {
          if i == 0 {
            var e := es[j];
            assert e in rest;
            assert ListedFrom(e, tail, store, prefix);
            var k :| 0 <= k < |tail| && tail[k] == e.key[0].s;
            assert keys[k + 1] == e.key[0].s;
          } else {
            assert es[i] == rest[i - 1] && es[j] == rest[j - 1];
          }
        }
      }
    }
  }

  /**
   * As written, the prefix of user 1's tasks also lists an entry of user 12:
   * "tasks_by_user/1" is a string prefix of "tasks_by_user/12/t", although
   * the key does not start with the parts of the prefix.
   */
  lemma PrefixListingOvermatches(v: Value)
    ensures var prefix := [Str("tasks_by_user"), Num(1)];
      var key := [Str("tasks_by_user"), Num(12), Str("t")];
      var m := MapState([KeyToString(key)], map[KeyToString(key) := v]);
      && !HasPrefix(key, prefix)
      && Listed(m, Prefix(prefix)) == [Entry([Str(KeyToString(key))], v)]
  {
    var prefix := [Str("tasks_by_user"), Num(1)];
    var key := [Str("tasks_by_user"), Num(12), Str("t")];
    assert key[..2] != prefix by {
      assert key[..2][1] == Num(12);
    }
    assert IntToString(1) == "1";
    assert NatToString(12) == NatToString(1) + [DigitChar(2)];
    assert IntToString(12) == "12";
    assert Rendered(prefix) == ["tasks_by_user", "1"];
    assert Rendered(key) == ["tasks_by_user", "12", "t"];
    var p := KeyToString(prefix);
    var s := KeyToString(key);
    assert p == "tasks_by_user/1";
    assert s == "tasks_by_user/12/t";
    assert StartsWith(s, p) by {
      assert s[..|p|] == p;
    }
    var m := MapState([s], map[s := v]);
    assert m.keys[1..] == [];
    assert PrefixEntries(m.keys[1..], m.store, p) == [];
    assert PrefixEntries(m.keys, m.store, p) == [Entry([Str(s)], v)];
  }

  /**
   * The intended test: a key lies under a prefix when its string starts with
   * the prefix string followed by the separator.
   */
  predicate UnderPrefix(keyStr: string, prefix: string)
  {
    StartsWith(keyStr, prefix + "/")
  }

  lemma {:induction false} JoinAppend(a: seq<string>, b: seq<string>, sep: char)
    requires |a| > 0 && |b| > 0
    ensures Join(a + b, sep) == Join(a, sep) + [sep] + Join(b, sep)
    decreases |a|
  {
    if |a| == 1 {
      assert (a + b)[1..] == b;
    } else {
      JoinAppend(a[1..], b, sep);
      assert (a + b)[1..] == a[1..] + b;
    }
  }

  lemma Regroup(x: string, y: string, r: string, sep: char)
    ensures (x + [sep] + y) + [sep] + r == x + [sep] + (y + [sep] + r)
  {
  }

  lemma {:induction false} SplitAfterJoin(a: seq<string>, sep: char, rest: string)
    requires |a| > 0 && forall i | 0 <= i < |a| :: sep !in a[i]
    ensures Split(Join(a, sep) + [sep] + rest, sep) == a + Split(rest, sep)
    decreases |a|
  {
    if |a| == 1 {
      SplitAfterPiece(a[0], sep, rest);
    } else {
      var tail := Join(a[1..], sep) + [sep] + rest;
      assert Join(a, sep) == a[0] + [sep] + Join(a[1..], sep);
      Regroup(a[0], Join(a[1..], sep), rest, sep);
      SplitAfterPiece(a[0], sep, tail);
      SplitAfterJoin(a[1..], sep, rest);
      assert [a[0]] + (a[1..] + Split(rest, sep)) == a + Split(rest, sep);
    }
  }

  /**
   * While no rendered part holds "/", the intended test accepts a key under a
   * prefix exactly when the key is longer and its first rendered parts are
   * the prefix's: the part-wise prefix the real store lists.
   */
  lemma UnderPrefixIsPartPrefix(key: Key, prefix: Key)
    requires |key| > 0 && |prefix| > 0
    requires NoSlash(Rendered(key)) && NoSlash(Rendered(prefix))
    ensures UnderPrefix(KeyToString(key), KeyToString(prefix)) <==>
      |prefix| < |key| && Rendered(key)[..|prefix|] == Rendered(prefix)
  {
    var K := Rendered(key);
    var P := Rendered(prefix);
    var ks := KeyToString(key);
    var ps := KeyToString(prefix);
    if UnderPrefix(ks, ps) {
      var rest := ks[|ps| + 1..];
      assert ks == ps + "/" + rest;
      SplitAfterJoin(P, '/', rest);
      KeyToStringParts(key);
      assert K == P + Split(rest, '/');
      assert K[..|P|] == P;
    }
    if |prefix| < |key| && K[..|prefix|] == P {
      var tail := K[|prefix|..];
      assert K == P + tail;
      JoinAppend(P, tail, '/');
      assert ks == ps + "/" + Join(tail, '/');
      assert ks[..|ps + "/"|] == ps + "/";
    }
  }

  /** The listing with the intended test. */
  function CorrectedPrefixEntries(keys: seq<string>, store: map<string, Value>, prefix: string): seq<Entry>
  {
    if keys == [] then []
    else
      var rest := CorrectedPrefixEntries(keys[1..], store, prefix);
      if keys[0] in store && UnderPrefix(keys[0], prefix) then [Entry([Str(keys[0])], store[keys[0]])] + rest
      else rest
  }

  /** With the intended test the user-1 listing no longer picks up user 12's entry. */
  lemma CorrectedPrefixExcludesOtherUser(v: Value)
    ensures var prefix := [Str("tasks_by_user"), Num(1)];
      var key := [Str("tasks_by_user"), Num(12), Str("t")];
      CorrectedPrefixEntries([KeyToString(key)], map[KeyToString(key) := v], KeyToString(prefix)) == []
  {
    var prefix := [Str("tasks_by_user"), Num(1)];
    var key := [Str("tasks_by_user"), Num(12), Str("t")];
    assert IntToString(1) == "1";
    assert NatToString(12) == NatToString(1) + [DigitChar(2)];
    assert IntToString(12) == "12";
    assert Rendered(prefix) == ["tasks_by_user", "1"];
    assert Rendered(key) == ["tasks_by_user", "12", "t"];
    assert NoSlash(Rendered(prefix)) && NoSlash(Rendered(key));
    UnderPrefixIsPartPrefix(key, prefix);
    assert Rendered(key)[..2] != Rendered(prefix) by {
      assert Rendered(key)[..2][1] == "12";
    }
    assert [KeyToString(key)][1..] == [];
  }

  /** The shared `Map` object behind a store and its batches. */
  class JsMap {
    var keys: seq<string>
    var store: map<string, Value>

    constructor ()
      ensures keys == [] && store == map[]
    {
      keys := [];
      store := map[];
    }

    function State(): MapState
      reads this
    {
      MapState(keys, store)
    }

    ghost predicate Valid()
      reads this
    {
      ValidState(State())
    }

    method Get(k: string) returns (v: Option<Value>)
      ensures v == (if k in store then Some(store[k]) else None)
    {
      v := if k in store then Some(store[k]) else None;
    }

    method Set(k: string, v: Value)
      requires Valid()
      modifies this
      ensures Valid()
      ensures State() == MapSet(old(State()), k, v)
    {
      MapUpdatesValid(State(), k, v);
      if k !in store {
        keys := keys + [k];
      }
      store := store[k := v];
    }

    method Delete(k: string)
      requires Valid()
      modifies this
      ensures Valid()
      ensures State() == MapDelete(old(State()), k)
    {
      MapUpdatesValid(State(), k, U64(0));
      keys := Without(keys, k);
      store := store - {k};
    }

    method Clear()
      modifies this
      ensures Valid() && keys == [] && store == map[]
    {
      keys := [];
      store := map[];
    }
  }

  class MockAtomic {
    const store: JsMap
    var operations: seq<Op>

    constructor (store: JsMap)
      ensures this.store == store && operations == []
    {
      this.store := store;
      operations := [];
    }

    /** Queues a write; nothing is written before `commit`. */
    method Set(key: Key, value: Value)
      modifies this
      ensures operations == old(operations) + [OpSet(key, value)]
    {
      operations := operations + [OpSet(key, value)];
    }

    method Delete(key: Key)
      modifies this
      ensures operations == old(operations) + [OpDelete(key)]
    {
      operations := operations + [OpDelete(key)];
    }

    method Sum(key: Key, n: int)
      modifies this
      ensures operations == old(operations) + [OpSum(key, n)]
    {
      operations := operations + [OpSum(key, n)];
    }

    method Min(key: Key, n: int)
      modifies this
      ensures operations == old(operations) + [OpMin(key, n)]
    {
      operations := operations + [OpMin(key, n)];
    }

    method Max(key: Key, n: int)
      modifies this
      ensures operations == old(operations) + [OpMax(key, n)]
    {
      operations := operations + [OpMax(key, n)];
    }

    /** Runs one queued operation on the shared map; false when it throws. */
    method Run(op: Op) returns (ok: bool)
      requires store.Valid()
      modifies store
      ensures store.Valid()
      ensures ok == ApplyOp(old(store.State()), op).Some?
      ensures ok ==> store.State() == ApplyOp(old(store.State()), op).value
      ensures !ok ==> store.State() == old(store.State())
    {
      var k := KeyToString(op.key);
      var found := store.Get(k);
      var cur := if found.Some? && found.value.U64? then Some(found.value.n) else None;
      match op
      case OpSet(_, v) =>
        store.Set(k, v);
        ok := true;
      case OpDelete(_) =>
        store.Delete(k);
        ok := true;
      case OpSum(_, n) =>
        var total := cur.GetOr(0) + n;
        if !InU64(total) {
          return false;
        }
        store.Set(k, U64(total));
        ok := true;
      case OpMin(_, n) =>
        if cur.None? || n < cur.value {
          if !InU64(n) {
            return false;
          }
          store.Set(k, U64(n));
        }
        ok := true;
      case OpMax(_, n) =>
        if cur.None? || n > cur.value {
          if !InU64(n) {
            return false;
          }
          store.Set(k, U64(n));
        }
        ok := true;
    }

    /**
     * `commit`: replays the queue in order on the shared map; an operation
     * that throws ends the commit with the earlier ones applied.
     */
    method Commit() returns (outcome: Outcome)
      requires store.Valid()
      modifies store
      ensures store.Valid()
      ensures Replayed(store.State(), outcome) == Replay(old(store.State()), operations)
    {
      ghost var start := store.State();
      assert operations[0..] == operations;
      var i := 0;
      while i < |operations|
        invariant 0 <= i <= |operations|
        invariant store.Valid()
        invariant Replay(start, operations) == Shifted(Replay(store.State(), operations[i..]), i)
      {
        assert operations[i..][1..] == operations[i + 1..];
        var ok := Run(operations[i]);
        if !ok {
          return Threw(i);
        }
        i := i + 1;
      }
      return Committed;
    }
  }

  class MockKv {
    const store: JsMap

    constructor ()
      ensures fresh(store) && store.Valid() && store.keys == []
    {
      store := new JsMap();
    }

    /** `get`: the stored value, or none (`value: null, versionstamp: null`). */
    method Get(key: Key) returns (value: Option<Value>)
      ensures value == (if KeyToString(key) in store.store then Some(store.store[KeyToString(key)]) else None)
    {
      value := store.Get(KeyToString(key));
    }

    method Set(key: Key, value: Value)
      requires store.Valid()
      modifies store
      ensures store.Valid()
      ensures store.State() == MapSet(old(store.State()), KeyToString(key), value)
    {
      store.Set(KeyToString(key), value);
    }

    method Delete(key: Key)
      requires store.Valid()
      modifies store
      ensures store.Valid()
      ensures store.State() == MapDelete(old(store.State()), KeyToString(key))
    {
      store.Delete(KeyToString(key));
    }

    method List(selector: Selector) returns (entries: seq<Entry>)
      ensures entries == Listed(store.State(), selector)
    {
      if selector.Range? {
        return [];
      }
      var prefix := KeyToString(selector.prefix);
      var keys := store.keys;
      entries := [];
      var i := 0;
      while i < |keys|
        invariant 0 <= i <= |keys|
        invariant entries == PrefixEntries(keys[..i], store.store, prefix)
      {
        assert keys[..i + 1] == keys[..i] + [keys[i]];
        PrefixEntriesSnoc(keys[..i], keys[i], store.store, prefix);
        if keys[i] in store.store && StartsWith(keys[i], prefix) {
          entries := entries + [Entry([Str(keys[i])], store.store[keys[i]])];
        }
        i := i + 1;
      }
      assert keys[..|keys|] == keys;
    }

    /** `atomic`: a new batch over this store's own map. */
    method Atomic() returns (batch: MockAtomic)
      ensures fresh(batch) && batch.store == store && batch.operations == []
    {
      batch := new MockAtomic(store);
    }

    method Close()
      modifies store
      ensures store.Valid() && store.keys == [] && store.store == map[]
    {
      store.Clear();
    }
  }
}
