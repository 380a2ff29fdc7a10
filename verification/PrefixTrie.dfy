/**
 * The prefix trie as a linked structure of mutable nodes. The ghost map `at`
 * names every node by the path of bits that leads to it.
 */
module PrefixTries {
  import opened Common
  import opened Targets
  import opened PrefixSpec

  class Node {
    var zero: Node?
    var one: Node?
    var action: Option<ProxyConfig>

    constructor ()
      ensures zero == null && one == null && action == None
    {
      zero, one, action := null, null, None;
    }

    function Child(bit: bool): Node?
      reads this
    {
      if bit then one else zero
    }
  }

  function Parent(p: Path): Path
    requires p != []
  {
    p[..|p| - 1]
  }

  lemma AppendInjective(p: Path, b: bool, q: Path, c: bool)
    ensures p + [b] == q + [c] ==> p == q && b == c
  {
    if p + [b] == q + [c] {
      assert (p + [b])[..|p|] == p && (q + [c])[..|q|] == q;
      assert (p + [b])[|p|] == b && (q + [c])[|q|] == c;
    }
  }

  class PrefixTrie {
    const root: Node
    ghost var at: map<Path, Node>

    ghost predicate Valid()
      reads this, at.Values
    {
      && [] in at && at[[]] == root
      && Injective(at)
      && (forall p {:trigger Parent(p)} | p in at && p != [] :: Parent(p) in at)
      && (forall p, b | p in at :: at[p].Child(b) == if p + [b] in at then at[p + [b]] else null)
    }

    /** Which path holds which action. */
    ghost function Contents(): Actions
      reads this, at.Values
    {
      map p | p in at && at[p].action.Some? :: at[p].action.value
    }

    constructor ()
      ensures Valid() && Contents() == map[] && fresh(at.Values)
    {
      var node := new Node();
      root := node;
      at := map[[] := node];
      new;
      assert forall p: Path, b: bool :: |p + [b]| > 0;
    }

    method Insert(value: u32, prefix: nat, action: ProxyConfig)
      requires Valid() && prefix <= 32
      modifies this, at.Values
      ensures Valid() && fresh(at.Values - old(at.Values))
      ensures Contents() == InsertAt(old(Contents()), Bits(value, prefix), action)
    {
      var node := root;
      ghost var path := Bits(value, prefix);
      for i := 0 to prefix
        invariant Valid() && fresh(at.Values - old(at.Values))
        invariant path[..i] in at && at[path[..i]] == node
        invariant Contents() == old(Contents())
      {
        assert path[..i + 1] == path[..i] + [Bit(value, i)];
        node := ChildOrInsert(node, path[..i], Bit(value, i));
      }
      assert path[..prefix] == path;
      ghost var before := Contents();
      if node.action.None? {
        node.action := Some(action);
      }
      assert Contents() == InsertAt(before, path, action);
    }

    /** `get_or_insert_with` on one child slot. */
    method ChildOrInsert(node: Node, ghost path: Path, bit: bool) returns (child: Node)
      requires Valid() && path in at && at[path] == node
      modifies this, at.Values
      ensures Valid() && fresh(at.Values - old(at.Values)) && old(at.Values) <= at.Values
      ensures path + [bit] in at && at[path + [bit]] == child
      ensures Contents() == old(Contents())
    {
      var existing := node.Child(bit);
      if existing != null {
        return existing;
      }
      ghost var before := Contents();
      child := new Node();
      if bit {
        node.one := child;
      } else {
        node.zero := child;
      }
      assert Contents() == before;
      ghost var below := path + [bit];
      InjectiveExtension(at, below, child);
      assert Parent(below) == path;
      forall b: bool
        ensures below + [b] !in at
      {
        assert Parent(below + [b]) == below;
      }
      assert below !in at;
      at := at[below := child];
      assert Contents() == before;
      forall p: Path, b: bool | p in at
        ensures at[p].Child(b) == if p + [b] in at then at[p + [b]] else null
      {
        AppendInjective(p, b, path, bit);
        if p == below {
          assert p + [b] != below;
        } else if p != path {
          assert at[p] != node;
          assert at[p].Child(b) == old(at[p].Child(b));
        }
      }
    }

    method Get(value: u32) returns (best: Option<ProxyConfig>)
      requires Valid()
      ensures best == LongestMatch(Contents(), Bits(value, 32), 32)
    {
      ghost var bits := Bits(value, 32);
      var node := root;
      best := node.action;
      for i := 0 to 32
        invariant bits[..i] in at && at[bits[..i]] == node
        invariant best == LongestMatch(Contents(), bits, i)
      {
        assert bits[..i + 1] == bits[..i] + [Bit(value, i)];
        var child := node.Child(Bit(value, i));
        if child == null {
          NothingBelow(bits, i + 1, 32);
          break;
        }
        node := child;
        if node.action.Some? {
          best := node.action;
        }
      }
    }

    /** No node at n bits means no node, hence no action, at any longer prefix. */
    lemma {:induction false} NothingBelow(bits: Path, n: nat, m: nat)
      requires Valid() && 0 < n <= m <= |bits| && bits[..n] !in at
      ensures bits[..m] !in at
      ensures LongestMatch(Contents(), bits, m) == LongestMatch(Contents(), bits, n - 1)
      decreases m
    {
      if m > n {
        NothingBelow(bits, n, m - 1);
        assert Parent(bits[..m]) == bits[..m - 1];
      }
    }
  }
}
