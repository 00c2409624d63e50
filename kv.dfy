/**
 * The ordered key-value store the repositories and the scheduler run on
 * (`Deno.Kv`): keys are tuples of parts, sorted part by part; `list` with a
 * prefix yields the keys strictly longer than the prefix that start with it,
 * in key order, and an `end` bound excludes every key not below it; an atomic
 * batch applies its mutations in order, all at once.
 */
module Kv {
  import opened Ordering
  import opened Records
  import opened Wrappers

  datatype KeyPart = Bytes(bytes: seq<bv8>) | Str(s: string) | Num(n: int) | Bool(b: bool)

  type Key = seq<KeyPart>

  datatype Entry = Entry(key: Key, value: Value)

  /** `{prefix}`, `{prefix, end}` and `{start, end}` selectors of `list`. */
  datatype Selector = Prefix(prefix: Key) | PrefixEnd(prefix: Key, end: Key) | Range(start: Key, end: Key)

  datatype Mutation = Put(key: Key, value: Value) | Remove(key: Key)

  predicate CharLess(x: char, y: char) { x < y }

  predicate ByteLess(x: bv8, y: bv8) { x < y }

  /** Parts of different types sort by type: byte arrays, strings, numbers, booleans. */
  function Rank(p: KeyPart): nat
  {
    match p
    case Bytes(_) => 0
    case Str(_) => 1
    case Num(_) => 2
    case Bool(_) => 3
  }

  predicate PartLess(x: KeyPart, y: KeyPart)
  {
    if Rank(x) != Rank(y) then Rank(x) < Rank(y)
    else match x
      case Bytes(a) => Lex(ByteLess, a, y.bytes)
      case Str(a) => Lex(CharLess, a, y.s)
      case Num(a) => a < y.n
      case Bool(a) => !a && y.b
  }

  predicate KeyLess(a: Key, b: Key)
  {
    Lex(PartLess, a, b)
  }

  lemma PartLessStrictTotal()
    ensures StrictTotalOrder(PartLess)
  {
    assert StrictTotalOrder(CharLess);
    assert StrictTotalOrder(ByteLess);
    forall x: KeyPart ensures !PartLess(x, x) {
      match x
      case Bytes(a) => LexIrreflexive(ByteLess, a);
      case Str(a) => LexIrreflexive(CharLess, a);
      case _ =>
    }
    forall x: KeyPart, y: KeyPart, z: KeyPart | PartLess(x, y) && PartLess(y, z)
      ensures PartLess(x, z)
    {
      if Rank(x) == Rank(y) == Rank(z) {
        match x
        case Bytes(a) => LexTransitive(ByteLess, a, y.bytes, z.bytes);
        case Str(a) => LexTransitive(CharLess, a, y.s, z.s);
        case _ =>
      }
    }
    forall x: KeyPart, y: KeyPart ensures x == y || PartLess(x, y) || PartLess(y, x) {
      if Rank(x) == Rank(y) {
        match x
        case Bytes(a) => LexTrichotomous(ByteLess, a, y.bytes);
        case Str(a) => LexTrichotomous(CharLess, a, y.s);
        case _ =>
      }
    }
  }

  lemma KeyLessIrreflexive(a: Key)
    ensures !KeyLess(a, a)
  {
    PartLessStrictTotal();
    LexIrreflexive(PartLess, a);
  }

  lemma KeyLessTransitive(a: Key, b: Key, c: Key)
    requires KeyLess(a, b) && KeyLess(b, c)
    ensures KeyLess(a, c)
  {
    PartLessStrictTotal();
    LexTransitive(PartLess, a, b, c);
  }

  lemma KeyLessTrichotomous(a: Key, b: Key)
    ensures a == b || KeyLess(a, b) || KeyLess(b, a)
  {
    PartLessStrictTotal();
    LexTrichotomous(PartLess, a, b);
  }

  /** The prefix selector does not include the key equal to the prefix. */
  predicate HasPrefix(k: Key, p: Key)
  {
    |p| < |k| && k[..|p|] == p
  }

  predicate Selects(sel: Selector, k: Key)
  {
    match sel
    case Prefix(p) => HasPrefix(k, p)
    case PrefixEnd(p, end) => HasPrefix(k, p) && KeyLess(k, end)
    case Range(start, end) => !KeyLess(k, start) && KeyLess(k, end)
  }

  function Selected(data: map<Key, Value>, sel: Selector): set<Key>
  {
    set k | k in data && Selects(sel, k)
  }

  predicate StrictlySorted(ks: seq<Key>)
  {
    forall i, j | 0 <= i < j < |ks| :: KeyLess(ks[i], ks[j])
  }

  ghost predicate IsLeast(m: Key, s: set<Key>)
  {
    m in s && forall k | k in s && k != m :: KeyLess(m, k)
  }

  lemma {:induction false} LeastExists(s: set<Key>)
    requires s != {}
    ensures exists m :: IsLeast(m, s)
    decreases |s|
  {
    var x :| x in s;
    var rest := s - {x};
    if rest == {} {
      assert s == {x};
      assert IsLeast(x, s);
    } else {
      LeastExists(rest);
      var m :| IsLeast(m, rest);
      KeyLessTrichotomous(x, m);
      if KeyLess(x, m) {
        forall k | k in s && k != x ensures KeyLess(x, k) {
          if k != m { KeyLessTransitive(x, m, k); }
        }
        assert IsLeast(x, s);
      } else {
        assert IsLeast(m, s);
      }
    }
  }

  /** The keys of s in ascending order. */
  ghost function SortedKeys(s: set<Key>): (ks: seq<Key>)
    ensures |ks| == |s|
    ensures forall k :: k in ks <==> k in s
    ensures StrictlySorted(ks)
    decreases |s|
  {
    if s == {} then []
    else
      LeastExists(s);
      var m :| IsLeast(m, s);
      [m] + SortedKeys(s - {m})
  }

  lemma SortedHeadIsLeast(ks: seq<Key>, s: set<Key>)
    requires StrictlySorted(ks) && |ks| > 0
    requires forall k :: k in ks <==> k in s
    ensures IsLeast(ks[0], s)
  {
    forall k | k in s && k != ks[0] ensures KeyLess(ks[0], k) {
      var j :| 0 <= j < |ks| && ks[j] == k;
    }
  }

  lemma LeastUnique(m: Key, n: Key, s: set<Key>)
    requires IsLeast(m, s) && IsLeast(n, s)
    ensures m == n
  {
    if m != n {
      KeyLessTransitive(m, n, m);
      KeyLessIrreflexive(m);
    }
  }

  lemma SortedTail(ks: seq<Key>, s: set<Key>)
    requires StrictlySorted(ks) && |ks| > 0
    requires forall k :: k in ks <==> k in s
    ensures StrictlySorted(ks[1..])
    ensures forall k :: k in ks[1..] <==> k in s - {ks[0]}
  {
    forall j | 1 <= j < |ks| ensures ks[j] != ks[0] {
      if ks[j] == ks[0] { KeyLessIrreflexive(ks[0]); }
    }
    assert ks == [ks[0]] + ks[1..];
  }

  /** A set has one ascending enumeration. */
  lemma {:induction false} SortedKeysUnique(ks: seq<Key>, s: set<Key>)
    requires StrictlySorted(ks)
    requires forall k :: k in ks <==> k in s
    ensures ks == SortedKeys(s)
    decreases |s|
  {
    if ks == [] {
      assert s == {};
    } else {
      var ms := SortedKeys(s);
      assert ks[0] in s;
      SortedHeadIsLeast(ks, s);
      SortedHeadIsLeast(ms, s);
      LeastUnique(ks[0], ms[0], s);
      SortedTail(ks, s);
      SortedTail(ms, s);
      SortedKeysUnique(ms[1..], s - {ms[0]});
      SortedKeysUnique(ks[1..], s - {ms[0]});
      assert ks == [ks[0]] + ks[1..];
      assert ms == [ms[0]] + ms[1..];
    }
  }

  function EntriesAt(data: map<Key, Value>, ks: seq<Key>): (es: seq<Entry>)
    requires forall k | k in ks :: k in data
    ensures |es| == |ks|
    ensures forall i | 0 <= i < |ks| :: es[i] == Entry(ks[i], data[ks[i]])
  {
    seq(|ks|, i requires 0 <= i < |ks| => Entry(ks[i], data[ks[i]]))
  }

  /** What `list(sel)` yields: the selected entries in ascending key order. */
  ghost function Scan(data: map<Key, Value>, sel: Selector): seq<Entry>
  {
    EntriesAt(data, SortedKeys(Selected(data, sel)))
  }

  /** A key is scanned exactly when it is stored and selected; scanned entries carry the stored value. */
  lemma ScanSpec(data: map<Key, Value>, sel: Selector)
    ensures var es := Scan(data, sel);
      && |es| == |Selected(data, sel)|
      && (forall i | 0 <= i < |es| :: es[i].key in data && Selects(sel, es[i].key) && es[i].value == data[es[i].key])
      && (forall k | k in data && Selects(sel, k) :: exists i :: 0 <= i < |es| && es[i].key == k)
  {
    var ks := SortedKeys(Selected(data, sel));
    var es := Scan(data, sel);
    assert forall i | 0 <= i < |ks| :: ks[i] in Selected(data, sel);
    forall k | k in data && Selects(sel, k) ensures exists i :: 0 <= i < |es| && es[i].key == k {
      assert k in ks;
      var i :| 0 <= i < |ks| && ks[i] == k;
      assert es[i].key == k;
    }
  }

  /** Scanned entries come in strictly ascending key order. */
  lemma ScanAscending(data: map<Key, Value>, sel: Selector)
    ensures var es := Scan(data, sel);
      forall i, j | 0 <= i < j < |es| :: KeyLess(es[i].key, es[j].key)
  {
    var ks := SortedKeys(Selected(data, sel));
    assert StrictlySorted(ks);
  }

  /** Overwriting a stored key changes which values a listing yields, not which keys. */
  lemma ScanAfterOverwrite(data: map<Key, Value>, sel: Selector, k: Key, v: Value)
    requires k in data
    ensures Selected(data[k := v], sel) == Selected(data, sel)
    ensures Scan(data[k := v], sel) == EntriesAt(data[k := v], SortedKeys(Selected(data, sel)))
  {
  }

  function Apply(data: map<Key, Value>, ops: seq<Mutation>): map<Key, Value>
    decreases |ops|
  {
    if ops == [] then data
    else
      var next := match ops[0]
        case Put(k, v) => data[k := v]
        case Remove(k) => data - {k};
      Apply(next, ops[1..])
  }

  class Store {
    var data: map<Key, Value>

    constructor ()
      ensures data == map[]
    {
      data := map[];
    }

    /** `get`: the stored value, or none (`value: null`). */
    method Get(key: Key) returns (v: Option<Value>)
      ensures v.Some? <==> key in data
      ensures v.Some? ==> v.value == data[key]
    {
      v := if key in data then Some(data[key]) else None;
    }

    method Set(key: Key, value: Value)
      modifies this
      ensures data == old(data)[key := value]
    {
      data := data[key := value];
    }

    method Delete(key: Key)
      modifies this
      ensures data == old(data) - {key}
    {
      data := data - {key};
    }

    /** `atomic()...commit()`: the queued mutations, applied in order, as one step. */
    method Commit(ops: seq<Mutation>)
      modifies this
      ensures data == Apply(old(data), ops)
    {
      data := Apply(data, ops);
    }

    /** `list(sel)`, read in one go. */
    method List(sel: Selector) returns (entries: seq<Entry>)
      ensures entries == Scan(data, sel)
    {
      var pending := Selected(data, sel);
      ghost var all := pending;
      var keys: seq<Key> := [];
      while pending != {}
        invariant pending <= all
        invariant forall k :: k in keys <==> k in all && k !in pending
        invariant StrictlySorted(keys)
        invariant forall i, k | 0 <= i < |keys| && k in pending :: KeyLess(keys[i], k)
        decreases |pending|
      {
        var m := Least(pending);
        keys := keys + [m];
        pending := pending - {m};
      }
      SortedKeysUnique(keys, all);
      entries := EntriesAt(data, keys);
    }
  }

  method Least(s: set<Key>) returns (m: Key)
    requires s != {}
    ensures m in s && forall k | k in s && k != m :: KeyLess(m, k)
  {
    m :| m in s;
    var rest := s - {m};
    while rest != {}
      invariant rest <= s && m in s && m !in rest
      invariant forall k | k in s - rest && k != m :: KeyLess(m, k)
      decreases |rest|
    {
      var k :| k in rest;
      KeyLessTrichotomous(k, m);
      if KeyLess(k, m) {
        forall j | j in s - rest && j != m ensures KeyLess(k, j) {
          KeyLessTransitive(k, m, j);
        }
        m := k;
      }
      rest := rest - {k};
    }
  }
}
