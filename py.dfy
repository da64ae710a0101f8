/** The few pieces of Python's data model the bot's logic leans on: `None`,
    insertion-ordered dicts, truthiness of optional strings, `str.upper()`
    restricted to ASCII, string joining and slicing. */
module Py {

  /** A value that may be `None`. */
  datatype Option<+T> = None | Some(value: T)

  /** No element occurs twice. */
  predicate Distinct<T(==)>(s: seq<T>) {
    forall i, j :: 0 <= i < j < |s| ==> s[i] != s[j]
  }

  /** A Python dict: `keys` lists every key once, in the order it was first
      inserted (which is the order `items()` and `values()` walk), and `vals`
      holds the current value of each key. */
  datatype Dict<K(==), V> = Dict(keys: seq<K>, vals: map<K, V>) {

    /** Every key is listed once and the listed keys are the map's keys. */
    ghost predicate Valid() {
      Distinct(keys) && vals.Keys == set k | k in keys
    }

    /** `d[k] = v`: a new key goes to the end, an existing key keeps its place. */
    function Put(k: K, v: V): (d: Dict<K, V>)
      requires Valid()
      ensures d.Valid()
      ensures k in vals ==> d.keys == keys
      ensures k !in vals ==> d.keys == keys + [k]
      ensures d.vals == vals[k := v]
    {
      Dict(if k in vals then keys else keys + [k], vals[k := v])
    }

    /** `list(d.values())`. */
    function Values(): (s: seq<V>)
      requires Valid()
      ensures |s| == |keys|
      ensures forall i :: 0 <= i < |s| ==> s[i] == vals[keys[i]]
    {
      seq(|keys|, i requires 0 <= i < |keys| => vals[keys[i]])
    }

    /** `list(d.items())`. */
    function Items(): (s: seq<(K, V)>)
      requires Valid()
      ensures |s| == |keys|
      ensures forall i :: 0 <= i < |s| ==> s[i].0 == keys[i] && s[i].1 == vals[keys[i]]
    {
      seq(|keys|, i requires 0 <= i < |keys| => (keys[i], vals[keys[i]]))
    }
  }

  /** `{}`. */
  function EmptyDict<K(==), V>(): (d: Dict<K, V>)
    ensures d.Valid() && d.keys == [] && d.vals == map[]
  {
    Dict([], map[])
  }

  /** Python truthiness of a string that may be `None`: `None` and `''` are false. */
  predicate Truthy(t: Option<string>) {
    t.Some? && t.value != ""
  }

  /** `''.join(ss)`. */
  function Concat(ss: seq<string>): string {
    if ss == [] then "" else Concat(ss[..|ss| - 1]) + ss[|ss| - 1]
  }

  lemma {:induction false} ConcatAppend(a: seq<string>, b: seq<string>)
    ensures Concat(a + b) == Concat(a) + Concat(b)
    decreases |b|
  {
    if b == [] {
      assert a + b == a;
    } else {
      var b' := b[..|b| - 1];
      assert (a + b)[..|a + b| - 1] == a + b';
      ConcatAppend(a, b');
    }
  }

  lemma ConcatOne(x: string)
    ensures Concat([x]) == x
  {
    assert [x][..0] == [];
  }

  /** `s[n:]`, which is empty rather than an error when `s` is shorter than `n`. */
  function DropFront(s: string, n: nat): (r: string)
    ensures |s| >= n ==> |r| == |s| - n && s == s[..n] + r
    ensures |s| < n ==> r == ""
  {
    if |s| >= n then s[n..] else ""
  }

  /** `c.upper()` for an ASCII letter; every other character is left alone. */
  function UpperChar(c: char): char {
    if 'a' <= c <= 'z' then (c as int - 'a' as int + 'A' as int) as char else c
  }

  /** `s.upper()`, for ASCII case mapping. */
  function Upper(s: string): (r: string)
    ensures |r| == |s|
    ensures forall i :: 0 <= i < |s| ==> r[i] == UpperChar(s[i])
  {
    seq(|s|, i requires 0 <= i < |s| => UpperChar(s[i]))
  }

  /** `str(n)` for a non-negative integer. */
  function NatToString(n: nat): (s: string)
    ensures |s| >= 1
    ensures forall i :: 0 <= i < |s| ==> '0' <= s[i] <= '9'
    decreases n
  {
    if n < 10 then [Digit(n)] else NatToString(n / 10) + [Digit(n % 10)]
  }

  function Digit(d: nat): (c: char)
    requires d < 10
    ensures '0' <= c <= '9'
  {
    ('0' as int + d) as char
  }
}
