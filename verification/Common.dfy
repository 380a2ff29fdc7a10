/** Small types shared by every module. */
module Common {
  type byte = x: int | 0 <= x < 256

  datatype Option<+T> = None | Some(value: T)

  function Min(a: int, b: int): int {
    if a < b then a else b
  }

  function Max(a: int, b: int): int {
    if a < b then b else a
  }

  ghost predicate Injective<K, V>(m: map<K, V>) {
    forall k, k' | k in m && k' in m && m[k] == m[k'] :: k == k'
  }

  /** Removing keys from an injective map removes exactly their values. */
  lemma InjectiveRemoval<K, V>(m: map<K, V>, gone: set<K>)
    requires Injective(m)
    requires gone <= m.Keys
    ensures Injective(m - gone)
    ensures (m - gone).Values == m.Values - (set k | k in gone :: m[k])
  {
    var rest := m - gone;
    var lost := set k | k in gone :: m[k];
    forall v | v in rest.Values
      ensures v in m.Values - lost
    {
      var k :| k in rest && rest[k] == v;
      assert m[k] == v;
    }
    forall v | v in m.Values - lost
      ensures v in rest.Values
    {
      var k :| k in m && m[k] == v;
      assert k !in gone && rest[k] == v;
    }
  }

  /** Adding a fresh key with a fresh value keeps a map injective. */
  lemma InjectiveExtension<K, V>(m: map<K, V>, k: K, v: V)
    requires Injective(m)
    requires k !in m && v !in m.Values
    ensures Injective(m[k := v])
    ensures m[k := v].Values == m.Values + {v}
  {
    var n := m[k := v];
    forall w | w in m.Values + {v}
      ensures w in n.Values
    {
      if w == v {
        assert n[k] == v;
      } else {
        var j :| j in m && m[j] == w;
        assert n[j] == w;
      }
    }
    assert forall j | j in m :: m[j] in m.Values;
  }

  // ---------------------------------------------------------------- sequences

  lemma Assoc<T>(a: seq<T>, b: seq<T>, c: seq<T>)
    ensures (a + b) + c == a + (b + c)
  {
  }

  /** Taking a concatenation apart. */
  lemma Parts<T>(a: seq<T>, b: seq<T>)
    ensures (a + b)[..|a|] == a && (a + b)[|a|..] == b
  {
  }

  /** A concatenation determines its parts once the first has a known length. */
  lemma SameParts<T>(a: seq<T>, b: seq<T>, c: seq<T>, d: seq<T>)
    requires |a| == |c|
    ensures a + b == c + d <==> a == c && b == d
  {
    Parts(a, b);
    Parts(c, d);
  }

  lemma TailOf<T>(a: seq<T>, b: seq<T>)
    requires a != []
    ensures (a + b)[0] == a[0] && (a + b)[1..] == a[1..] + b
  {
  }

  /** A length byte, that many elements, and the rest. */
  lemma Framed<T>(x: T, l: seq<T>, tail: seq<T>)
    ensures var s := ([x] + l) + tail;
      |s| == 1 + |l| + |tail| && s[0] == x && s[1..1 + |l|] == l && s[1 + |l|..] == tail
  {
  }

  lemma Unframe<T>(s: seq<T>, n: nat)
    requires 1 + n <= |s|
    ensures s == ([s[0]] + s[1..1 + n]) + s[1 + n..]
  {
  }
}
