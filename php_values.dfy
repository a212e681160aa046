/**
 * PHP values and ordered arrays, as far as the scheduled-updates core uses them:
 * form values, plugin settings and the value arrays handed to the field
 * storage are all PHP arrays, i.e. ordered maps from integer or string keys
 * to values.
 */
module PhpValues {

  datatype Option<+T> = None | Some(value: T)

  /** A PHP array key. String keys are assumed not to be canonical decimal
      numerals (PHP would turn "5" into the integer key 5). */
  datatype Key = IntKey(i: int) | StrKey(s: string)

  /** An ordered PHP array: its entries in insertion order. */
  type Assoc<V> = seq<(Key, V)>

  /** A PHP value (floats and objects are not needed here). */
  datatype Value = Null | Bool(b: bool) | Int(i: int) | Str(s: string) | Arr(entries: Assoc<Value>)

  /** `$a[$k]` for a key that may be absent (`isset` and read). */
  function Lookup<V>(a: Assoc<V>, k: Key): Option<V> {
    if a == [] then None
    else if a[0].0 == k then Some(a[0].1)
    else Lookup(a[1..], k)
  }

  /** `array_key_exists($k, $a)`. */
  predicate HasKey<V>(a: Assoc<V>, k: Key) {
    Lookup(a, k).Some?
  }

  /** A key is present exactly when some entry carries it. */
  lemma {:induction false} HasKeyIndex<V>(a: Assoc<V>, k: Key)
    ensures HasKey(a, k) <==> exists i :: 0 <= i < |a| && a[i].0 == k
  {
    if a != [] {
      HasKeyIndex(a[1..], k);
      if HasKey(a[1..], k) {
        var i :| 0 <= i < |a[1..]| && a[1..][i].0 == k;
        assert a[i + 1].0 == k;
      }
      if exists i :: 0 <= i < |a| && a[i].0 == k {
        var i :| 0 <= i < |a| && a[i].0 == k;
        if i > 0 { assert a[1..][i - 1].0 == k; }
      }
    }
  }

  /** Every PHP array has pairwise distinct keys. */
  predicate UniqueKeys<V>(a: Assoc<V>) {
    forall i, j :: 0 <= i < j < |a| ==> a[i].0 != a[j].0
  }

  function Keys<V>(a: Assoc<V>): seq<Key> {
    seq(|a|, i requires 0 <= i < |a| => a[i].0)
  }

  function Values<V>(a: Assoc<V>): seq<V> {
    seq(|a|, i requires 0 <= i < |a| => a[i].1)
  }

  /** What `Lookup` finds is an entry of the array. */
  lemma {:induction false} LookupEntry<V>(a: Assoc<V>, k: Key)
    requires HasKey(a, k)
    ensures exists i :: 0 <= i < |a| && a[i] == (k, Lookup(a, k).value)
  {
    if a[0].0 != k {
      LookupEntry(a[1..], k);
      var i :| 0 <= i < |a[1..]| && a[1..][i] == (k, Lookup(a[1..], k).value);
      assert a[i + 1] == a[1..][i];
    }
  }

  lemma {:induction false} LookupUnique<V>(a: Assoc<V>, i: nat)
    requires UniqueKeys(a) && i < |a|
    ensures Lookup(a, a[i].0) == Some(a[i].1)
  {
    if i > 0 {
      assert a[0].0 != a[i].0;
      assert a[1..][i - 1] == a[i];
      LookupUnique(a[1..], i - 1);
    }
  }

  /** The first entry with a given key is the one `Lookup` finds. */
  lemma {:induction false} LookupFirst<V>(a: Assoc<V>, i: nat)
    requires i < |a| && forall j :: 0 <= j < i ==> a[j].0 != a[i].0
    ensures Lookup(a, a[i].0) == Some(a[i].1)
  {
    if i > 0 {
      assert a[1..][i - 1] == a[i];
      LookupFirst(a[1..], i - 1);
    }
  }

  /** In an array with unique keys, no entry's key occurs before it. */
  lemma UniquePrefixFresh<V>(a: Assoc<V>, i: nat)
    requires UniqueKeys(a) && i < |a|
    ensures !HasKey(a[..i], a[i].0)
  {
    HasKeyIndex(a[..i], a[i].0);
    forall j | 0 <= j < i ensures a[..i][j].0 != a[i].0 {
      assert a[..i][j] == a[j];
    }
  }

  /** `$a[$k] ?? NULL` on a value: reading a key of an array, NULL otherwise.
      (Reading an offset of a string is not modelled: it yields NULL here.) */
  function Index(v: Value, k: Key): (r: Value)
    ensures !v.Arr? ==> r == Null
    ensures v.Arr? && !HasKey(v.entries, k) ==> r == Null
  {
    if v.Arr? then
      match Lookup(v.entries, k)
      case Some(x) => x
      case None => Null
    else Null
  }

  /** `$a[$k] = $v`: overwrite in place when the key is present, append otherwise. */
  function Put<V>(a: Assoc<V>, k: Key, v: V): (r: Assoc<V>)
    ensures Lookup(r, k) == Some(v)
    ensures forall k' :: k' != k ==> Lookup(r, k') == Lookup(a, k')
    ensures !HasKey(a, k) ==> r == a + [(k, v)]
  {
    if a == [] then [(k, v)]
    else if a[0].0 == k then [(k, v)] + a[1..]
    else
      var t := Put(a[1..], k, v);
      var r := [a[0]] + t;
      assert r[0] == a[0] && r[1..] == t;
      assert !HasKey(a, k) ==> r == a + [(k, v)] by {
        if !HasKey(a, k) {
          assert a == [a[0]] + a[1..];
        }
      }
      r
  }

  /** `unset($a[$k])`. */
  function Unset<V>(a: Assoc<V>, k: Key): (r: Assoc<V>)
    ensures !HasKey(r, k)
    ensures forall k' :: k' != k ==> Lookup(r, k') == Lookup(a, k')
    ensures !HasKey(a, k) ==> r == a
  {
    if a == [] then []
    else
      var t := Unset(a[1..], k);
      if a[0].0 == k then t
      else
        var r := [a[0]] + t;
        assert r[0] == a[0] && r[1..] == t;
        assert !HasKey(a, k) ==> r == a by {
          if !HasKey(a, k) {
            assert a == [a[0]] + a[1..];
          }
        }
        r
  }

  /** `$a += $b`: the entries of `b` whose keys `a` lacks are appended;
      on shared keys the left operand wins. */
  function Union<V>(a: Assoc<V>, b: Assoc<V>): (r: Assoc<V>)
    ensures |r| >= |a| && r[..|a|] == a
    ensures forall k :: Lookup(r, k) == if HasKey(a, k) then Lookup(a, k) else Lookup(b, k)
    decreases |b|
  {
    if b == [] then a
    else
      var a' := if HasKey(a, b[0].0) then a else a + [b[0]];
      var r := Union(a', b[1..]);
      assert |a'| >= |a| && a'[..|a|] == a;
      assert r[..|a|] == r[..|a'|][..|a|];
      forall k ensures Lookup(r, k) == if HasKey(a, k) then Lookup(a, k) else Lookup(b, k) {
        LookupAppend(a, b[0], k);
      }
      r
  }

  lemma {:induction false} LookupAppend<V>(a: Assoc<V>, e: (Key, V), k: Key)
    ensures Lookup(a + [e], k) == if HasKey(a, k) then Lookup(a, k) else if e.0 == k then Some(e.1) else None
  {
    if a != [] {
      assert (a + [e])[1..] == a[1..] + [e];
      LookupAppend(a[1..], e, k);
    }
  }

  /** The index `$a[] = $v` uses: one past the largest integer key, and never
      negative. */
  function NextIndex<V>(a: Assoc<V>): (n: int)
    ensures n >= 0
    ensures forall i :: 0 <= i < |a| && a[i].0.IntKey? ==> a[i].0.i < n
  {
    if a == [] then 0
    else
      var rest := NextIndex(a[1..]);
      var here := if a[0].0.IntKey? then a[0].0.i + 1 else 0;
      var n := if here > rest then here else rest;
      assert forall i :: 1 <= i < |a| ==> a[i] == a[1..][i - 1];
      n
  }

  /** `$a[] = $v`. */
  function Push<V>(a: Assoc<V>, v: V): (r: Assoc<V>)
    ensures Values(r) == Values(a) + [v]
    ensures Keys(r)[..|a|] == Keys(a)
    ensures !HasKey(a, r[|a|].0)
    ensures UniqueKeys(a) ==> UniqueKeys(r)
  {
    var k := IntKey(NextIndex(a));
    var r := a + [(k, v)];
    HasKeyIndex(a, k);
    assert Values(r) == Values(a) + [v];
    assert Keys(r)[..|a|] == Keys(a);
    r
  }

  /** PHP's conversion to boolean; `empty($x)` is its negation. */
  predicate Truthy(v: Value) {
    match v
    case Null => false
    case Bool(b) => b
    case Int(i) => i != 0
    case Str(s) => s != "" && s != "0"
    case Arr(e) => e != []
  }

  /** The entries of `a` whose values satisfy `p`, in order and with their
      keys: what a `foreach` that copies the accepted entries builds, and
      `array_filter($a)` when `p` is Truthy. */
  function Filter<V>(a: Assoc<V>, p: V -> bool): (r: Assoc<V>)
    ensures forall i :: 0 <= i < |r| ==> p(r[i].1)
    ensures forall e :: e in r ==> e in a
    ensures forall i :: 0 <= i < |a| && p(a[i].1) ==> a[i] in r
  {
    if a == [] then []
    else
      var init := a[..|a| - 1];
      var t := Filter(init, p);
      assert forall i :: 0 <= i < |a| - 1 ==> a[i] == init[i];
      t + (if p(a[|a| - 1].1) then [a[|a| - 1]] else [])
  }

  /** Filtering keeps keys unique. */
  lemma {:induction false} FilterUnique<V>(a: Assoc<V>, p: V -> bool)
    requires UniqueKeys(a)
    ensures UniqueKeys(Filter(a, p))
  {
    if a != [] {
      var init := a[..|a| - 1];
      var last := a[|a| - 1];
      assert UniqueKeys(init) by {
        forall i, j | 0 <= i < j < |init| ensures init[i].0 != init[j].0 {
          assert init[i] == a[i] && init[j] == a[j];
        }
      }
      FilterUnique(init, p);
      var t := Filter(init, p);
      forall e | e in t ensures e.0 != last.0 {
        assert e in init;
        var i :| 0 <= i < |init| && init[i] == e;
        assert a[i] == e;
      }
      var r := Filter(a, p);
      forall i, j | 0 <= i < j < |r| ensures r[i].0 != r[j].0 {
        if j >= |t| {
          assert r[i] == t[i] && r[i] in t;
        } else {
          assert r[i] == t[i] && r[j] == t[j];
        }
      }
    }
  }

  /** On an array with unique keys, a key survives filtering exactly when
      its value satisfies `p`, and keeps its value. */
  lemma FilterLookup<V>(a: Assoc<V>, p: V -> bool, k: Key)
    requires UniqueKeys(a)
    ensures Lookup(Filter(a, p), k) == match Lookup(a, k)
                                        case Some(v) => if p(v) then Some(v) else None
                                        case None => None
  {
    var r := Filter(a, p);
    FilterUnique(a, p);
    HasKeyIndex(a, k);
    HasKeyIndex(r, k);
    match Lookup(a, k)
    case None =>
      forall j | 0 <= j < |r| ensures r[j].0 != k {
        assert r[j] in a;
      }
    case Some(v) =>
      LookupEntry(a, k);
      var i :| 0 <= i < |a| && a[i] == (k, v);
      LookupUnique(a, i);
      if p(v) {
        assert a[i] in r;
        var j :| 0 <= j < |r| && r[j] == a[i];
        LookupUnique(r, j);
      } else {
        forall j | 0 <= j < |r| ensures r[j].0 != k {
          assert r[j] in a;
          var m :| 0 <= m < |a| && a[m] == r[j];
          assert m != i;
        }
      }
  }

  /** The same keys, each value replaced by `f` of it. */
  function MapValues<V, U>(a: Assoc<V>, f: V -> U): (r: Assoc<U>)
    ensures Keys(r) == Keys(a) && |r| == |a|
  {
    seq(|a|, i requires 0 <= i < |a| => (a[i].0, f(a[i].1)))
  }

  /** Mapping the values keeps every key and maps the value found under it. */
  lemma {:induction false} MapValuesLookup<V, U>(a: Assoc<V>, f: V -> U, k: Key)
    ensures Lookup(MapValues(a, f), k) == match Lookup(a, k)
                                          case Some(v) => Some(f(v))
                                          case None => None
  {
    if a != [] {
      assert MapValues(a, f)[1..] == MapValues(a[1..], f);
      MapValuesLookup(a[1..], f, k);
    }
  }

  /** Decimal digits of a natural number, as PHP prints an integer. */
  function NatToString(n: nat): (s: string)
    ensures |s| >= 1
    ensures forall i :: 0 <= i < |s| ==> '0' <= s[i] <= '9'
  {
    if n < 10 then [Digit(n)] else NatToString(n / 10) + [Digit(n % 10)]
  }

  function Digit(d: nat): (c: char)
    requires d < 10
    ensures '0' <= c <= '9'
  {
    "0123456789"[d]
  }

  function IntToString(n: int): string {
    if n < 0 then "-" + NatToString(-n) else NatToString(n)
  }

  function Pow10(e: nat): (p: nat)
    ensures p >= 1
  {
    if e == 0 then 1 else 10 * Pow10(e - 1)
  }

  /** A number of at least `10^e` needs more than `e` digits. */
  lemma {:induction false} NatToStringLength(n: nat, e: nat)
    ensures n >= Pow10(e) ==> |NatToString(n)| > e
  {
    if n >= Pow10(e) && e > 0 {
      assert n >= 10;
      assert n / 10 >= Pow10(e - 1);
      NatToStringLength(n / 10, e - 1);
    }
  }

  /** PHP's loose `$v == $n` against an integer. Numeric strings other than
      the canonical decimal spelling are not modelled. */
  predicate LooseEqInt(v: Value, n: int) {
    match v
    case Null => n == 0
    case Bool(b) => b == (n != 0)
    case Int(i) => i == n
    case Str(s) => s == IntToString(n)
    case Arr(_) => false
  }
}
