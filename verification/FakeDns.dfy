/**
 * The fake-address allocator: a two-way map with a wrapping cursor.
 *
 * Its specification is much simpler than its code: the state is the log of all
 * names ever given an address, oldest first; allocation i has address
 * `Address(i)`, and the last POOL_SIZE allocations are live.
 */
module FakeDnsPool {
  import opened Common
  import opened Targets

  const POOL_START: u32 := 0xC612_0001
  const POOL_END: u32 := 0xC613_FFFE
  const POOL_SIZE: nat := POOL_END - POOL_START + 1

  type Log = seq<Name>

  function Oldest(log: Log): nat {
    Max(|log| - POOL_SIZE, 0)
  }

  function Address(i: int): u32 {
    POOL_START + i % POOL_SIZE
  }

  predicate Live(log: Log, i: int) {
    Oldest(log) <= i < |log|
  }

  ghost predicate Known(log: Log, d: Name) {
    exists i {:trigger Live(log, i)} :: Live(log, i) && log[i] == d
  }

  ghost function ResolveLog(log: Log, d: Name): Log {
    if Known(log, d) then log else log + [d]
  }

  ghost function ResolveAll(log: Log, names: seq<Name>): Log {
    if names == [] then log
    else ResolveLog(ResolveAll(log, names[..|names| - 1]), names[|names| - 1])
  }

  /** The live allocation of a known name. */
  ghost function LiveIndex(log: Log, d: Name): (i: nat)
    requires Known(log, d)
    ensures Live(log, i) && log[i] == d
  {
    var i {:trigger Live(log, i)} :| Live(log, i) && log[i] == d;
    i
  }

  /** No name has two live addresses. */
  ghost predicate Good(log: Log) {
    forall i, j {:trigger Live(log, i), Live(log, j)} | Live(log, i) && Live(log, j) && log[i] == log[j] :: i == j
  }

  /** Live allocations have different addresses. */
  lemma AddressesDiffer(log: Log, i: int, j: int)
    requires Live(log, i) && Live(log, j) && Address(i) == Address(j)
    ensures i == j
  {
  }

  // ---------------------------------------------------------------- every run

  lemma ResolveStaysGood(log: Log, d: Name)
    requires Good(log)
    ensures Good(ResolveLog(log, d)) && Known(ResolveLog(log, d), d)
  {
    if !Known(log, d) {
      var after := log + [d];
      assert Live(after, |log|) && after[|log|] == d;
      assert forall i | Live(after, i) && i < |log| :: Live(log, i) && after[i] == log[i];
    }
  }

  /** A run only extends the log, by at most one entry per call, and keeps it good. */
  lemma {:induction false} RunExtends(log: Log, names: seq<Name>)
    requires Good(log)
    ensures Good(ResolveAll(log, names))
    ensures log <= ResolveAll(log, names) && |ResolveAll(log, names)| <= |log| + |names|
  {
    if names != [] {
      RunExtends(log, names[..|names| - 1]);
      ResolveStaysGood(ResolveAll(log, names[..|names| - 1]), names[|names| - 1]);
    }
  }

  /** The reverse lookup answers from the live allocations only. */
  ghost predicate Answers(log: Log, ip: int, r: Option<Name>) {
    match r
    case Some(d) => exists i :: Live(log, i) && Address(i) == ip && log[i] == d
    case None => forall i | Live(log, i) :: Address(i) != ip
  }

  /** Allocation i keeps answering for its name until POOL_SIZE later
      allocations have been made, whatever hits happen in between. The next
      allocation evicts it in both directions, and its address cannot mean the
      same name again before another full round. */
  lemma MappingLifetime(log: Log, i: nat, names: seq<Name>, r: Option<Name>)
    requires Good(log) && Live(log, i)
    requires Answers(ResolveAll(log, names), Address(i), r)
    ensures var after, d := ResolveAll(log, names), log[i];
      && (|after| - i <= POOL_SIZE ==> r == Some(d) && Known(after, d) && LiveIndex(after, d) == i)
      && (POOL_SIZE < |after| - i <= 2 * POOL_SIZE ==> r != Some(d))
      && (|after| - i == POOL_SIZE + 1 ==> !Known(after, d))
  {
    RunExtends(log, names);
    var after, d := ResolveAll(log, names), log[i];
    assert after[i] == d;
    if |after| - i <= POOL_SIZE {
      assert Live(after, i);
      if r.Some? {
        var j :| Live(after, j) && Address(j) == Address(i) && after[j] == r.value;
        AddressesDiffer(after, i, j);
      }
    } else {
      NotAllocatedAgain(log, i, names);
      if |after| - i == POOL_SIZE + 1 {
        forall j {:trigger Live(after, j)} | Live(after, j)
          ensures after[j] != d
        {
          assert j < |log| ==> Live(log, j) && Live(log, i);
        }
      }
      if |after| - i <= 2 * POOL_SIZE && r == Some(d) {
        var j :| Live(after, j) && Address(j) == Address(i) && after[j] == d;
        SameSlotNextRound(i, j);
      }
    }
  }

  lemma SameSlotNextRound(i: nat, j: nat)
    requires i < j < i + 2 * POOL_SIZE && Address(i) == Address(j)
    ensures j == i + POOL_SIZE
  {
  }

  /** While an allocation is live its name is not allocated again, and the miss
      that takes its slot is for another name. */
  lemma {:induction false} NotAllocatedAgain(log: Log, i: nat, names: seq<Name>)
    requires Good(log) && Live(log, i)
    ensures log <= ResolveAll(log, names)
    ensures var after := ResolveAll(log, names);
      forall k | |log| <= k < |after| && k <= i + POOL_SIZE :: after[k] != log[i]
  {
    RunExtends(log, names);
    if names != [] {
      var front := names[..|names| - 1];
      RunExtends(log, front);
      var before := ResolveAll(log, front);
      NotAllocatedAgain(log, i, front);
      if |before| <= i + POOL_SIZE {
        assert Live(before, i) && before[i] == log[i];
      }
    }
  }

  /** A hit does not refresh a mapping: in a full pool the oldest name can be
      answered and evicted by the very next miss. */
  lemma HitThenOneMissEvicts(log: Log, e: Name)
    requires Good(log) && |log| >= POOL_SIZE && !Known(log, e)
    ensures var d := log[|log| - POOL_SIZE];
      var after := ResolveLog(ResolveLog(log, d), e);
      ResolveLog(log, d) == log && !Known(after, d) && !Answers(after, Address(|log| - POOL_SIZE), Some(d))
  {
    assert Live(log, |log| - POOL_SIZE);
    OldestIsEvicted(log, e, log + [e]);
  }

  lemma OldestIsEvicted(log: Log, e: Name, after: Log)
    requires Good(log) && |log| >= POOL_SIZE && !Known(log, e) && after == log + [e]
    ensures var d := log[|log| - POOL_SIZE];
      !Known(after, d) && !Answers(after, Address(|log| - POOL_SIZE), Some(d))
  {
    var i := |log| - POOL_SIZE;
    assert Live(log, i) && !Live(after, i);
    forall j {:trigger Live(after, j)} | Live(after, j)
      ensures after[j] != log[i]
    {
      assert j < |log| ==> Live(log, j);
    }
  }

  /** Names of five letters from `a` to `p`. */
  function PoolName(i: nat): (d: Name)
    ensures |d| == 5 && forall c | c in d :: 97 <= c <= 112
  {
    [97 + i / 65536 % 16, 97 + i / 4096 % 16, 97 + i / 256 % 16, 97 + i / 16 % 16, 97 + i % 16]
  }

  lemma PoolNameValue(i: nat)
    requires i < 0x10_0000
    ensures var d := PoolName(i);
      i == (d[0] as int - 97) * 65536 + (d[1] as int - 97) * 4096 + (d[2] as int - 97) * 256
           + (d[3] as int - 97) * 16 + (d[4] as int - 97)
  {
    NextDigit(i, 1);
    NextDigit(i, 16);
    NextDigit(i, 256);
    NextDigit(i, 4096);
    assert i / 65536 % 16 == i / 65536;
    Digits16(i, i / 16, i / 256, i / 4096, i / 65536, i % 16, i / 16 % 16, i / 256 % 16, i / 4096 % 16);
  }

  lemma Digits16(i: int, a: int, b: int, c: int, d: int, r: int, s: int, t: int, u: int)
    requires i == a * 16 + r && a == b * 16 + s && b == c * 16 + t && c == d * 16 + u
    ensures i == d * 65536 + u * 4096 + t * 256 + s * 16 + r
  {
  }

  lemma NextDigit(i: nat, k: nat)
    requires k == 1 || k == 16 || k == 256 || k == 4096
    ensures i / k == i / (k * 16) * 16 + i / k % 16
  {
  }

  lemma PoolNamesDiffer(i: nat, j: nat)
    requires i < 0x10_0000 && j < 0x10_0000 && PoolName(i) == PoolName(j)
    ensures i == j
  {
    PoolNameValue(i);
    PoolNameValue(j);
  }

  /** Asking for different names allocates all of them. */
  lemma {:induction false} DistinctNamesFill(names: seq<Name>)
    requires |names| <= POOL_SIZE && forall i, j | 0 <= i < j < |names| :: names[i] != names[j]
    ensures ResolveAll([], names) == names
  {
    if names != [] {
      var front, last := names[..|names| - 1], names[|names| - 1];
      DistinctNamesFill(front);
      assert !Known(front, last);
      assert names == front + [last];
    }
  }

  /** Such a pool can be reached: by asking for POOL_SIZE different names of five
      letters, with another one left to ask for. */
  lemma FullPool() returns (names: seq<Name>, e: Name)
    ensures |names| == POOL_SIZE && forall d | d in names + [e] :: exists i :: 0 <= i <= POOL_SIZE && d == PoolName(i)
    ensures ResolveAll([], names) == names && Good(names) && !Known(names, e)
  {
    names, e := seq(POOL_SIZE, i requires 0 <= i => PoolName(i)), PoolName(POOL_SIZE);
    forall i, j | 0 <= i < j < |names|
      ensures names[i] != names[j]
    {
      if names[i] == names[j] {
        PoolNamesDiffer(i, j);
      }
    }
    DistinctNamesFill(names);
    if Known(names, e) {
      PoolNamesDiffer(LiveIndex(names, e), POOL_SIZE);
    }
    forall d | d in names + [e]
      ensures exists i :: 0 <= i <= POOL_SIZE && d == PoolName(i)
    {
      var all := names + [e];
      var k :| 0 <= k < |all| && all[k] == d;
      assert all[k] == if k < POOL_SIZE then names[k] else e;
      assert d == PoolName(k);
    }
  }

  // ---------------------------------------------------------------- the maps

  /** The two maps hold exactly the live allocations. */
  ghost predicate Tracks(log: Log, toIp: map<Name, u32>, toName: map<u32, Name>) {
    && (forall i {:trigger Live(log, i)} | Live(log, i) :: log[i] in toIp && toIp[log[i]] == Address(i))
    && (forall i {:trigger Live(log, i)} | Live(log, i) :: Address(i) in toName && toName[Address(i)] == log[i])
    && (forall d | d in toIp :: Known(log, d))
    && (forall a | a in toName :: exists i :: Live(log, i) && Address(i) == a)
  }

  /** The maps are inverse to each other, over pool addresses only. */
  lemma TrackedMapsAreInverse(log: Log, toIp: map<Name, u32>, toName: map<u32, Name>)
    requires Good(log) && Tracks(log, toIp, toName)
    ensures forall d | d in toIp :: toIp[d] in toName && toName[toIp[d]] == d
    ensures forall a | a in toName :: toName[a] in toIp && toIp[toName[a]] == a && POOL_START <= a <= POOL_END
  {
    forall d | d in toIp
      ensures toIp[d] in toName && toName[toIp[d]] == d
    {
      var i := LiveIndex(log, d);
    }
    forall a | a in toName
      ensures toName[a] in toIp && toIp[toName[a]] == a && POOL_START <= a <= POOL_END
    {
      var i :| Live(log, i) && Address(i) == a;
    }
  }

  /** They hold as many names as were allocated, up to the size of the pool. */
  lemma TrackedCount(log: Log, toIp: map<Name, u32>, toName: map<u32, Name>)
    requires Good(log) && Tracks(log, toIp, toName)
    ensures |toIp| == Min(|log|, POOL_SIZE)
  {
    WindowNames(log, toIp, toName);
    WindowDistinct(log);
    DistinctCount(log[Oldest(log)..]);
  }

  lemma WindowDistinct(log: Log)
    requires Good(log)
    ensures var w := log[Oldest(log)..]; forall i, j | 0 <= i < j < |w| :: w[i] != w[j]
  {
    var first := Oldest(log);
    var w := log[first..];
    forall i, j | 0 <= i < j < |w|
      ensures w[i] != w[j]
    {
      assert Live(log, first + i) && Live(log, first + j);
    }
  }

  lemma WindowNames(log: Log, toIp: map<Name, u32>, toName: map<u32, Name>)
    requires Tracks(log, toIp, toName)
    ensures toIp.Keys == set d | d in log[Oldest(log)..]
  {
    var w := log[Oldest(log)..];
    forall d | d in w
      ensures d in toIp
    {
      var k :| 0 <= k < |w| && w[k] == d;
      assert Live(log, Oldest(log) + k);
    }
    forall d | d in toIp
      ensures d in w
    {
      assert w[LiveIndex(log, d) - Oldest(log)] == d;
    }
  }

  lemma {:induction false} DistinctCount(s: seq<Name>)
    requires forall i, j | 0 <= i < j < |s| :: s[i] != s[j]
    ensures |set d | d in s| == |s|
  {
    if s != [] {
      var front, last := s[..|s| - 1], s[|s| - 1];
      DistinctCount(front);
      assert s == front + [last];
      assert (set d | d in s) == (set d | d in front) + {last};
    }
  }

  /** A new allocation takes the slot of the one POOL_SIZE before it and of no
      other live one. */
  lemma NewSlot(log: Log, d: Name)
    ensures var after := log + [d];
      && Live(after, |log|) && after[|log|] == d
      && (forall i | Live(after, i) && i < |log| :: Live(log, i) && Address(i) != Address(|log|) && after[i] == log[i])
      && (forall i | Live(log, i) && !Live(after, i) :: i == |log| - POOL_SIZE && Address(i) == Address(|log|))
      && (forall i | Live(log, i) && Address(i) == Address(|log|) :: !Live(after, i))
  {
  }

  /** What a miss does to the maps: the slot's previous name leaves both. */
  lemma MissTracks(log: Log, toIp: map<Name, u32>, toName: map<u32, Name>, d: Name)
    requires Good(log) && Tracks(log, toIp, toName) && !Known(log, d)
    ensures var ip := Address(|log|);
      var toIp1 := if ip in toName then toIp - {toName[ip]} else toIp;
      Tracks(log + [d], toIp1[d := ip], (toName - {ip})[ip := d])
  {
    MissKeepsAddresses(log, toIp, toName, d);
    MissKeepsNames(log, toIp, toName, d);
    MissKeepsSlots(log, toIp, toName, d);
  }

  lemma MissKeepsSlots(log: Log, toIp: map<Name, u32>, toName: map<u32, Name>, d: Name)
    requires Tracks(log, toIp, toName)
    ensures var after, ip := log + [d], Address(|log|);
      var toName1 := (toName - {ip})[ip := d];
      && (forall i {:trigger Live(after, i)} | Live(after, i) ::
            Address(i) in toName1 && toName1[Address(i)] == after[i])
      && (forall a | a in toName1 :: exists i :: Live(after, i) && Address(i) == a)
  {
    var after, ip := log + [d], Address(|log|);
    var toName1 := (toName - {ip})[ip := d];
    NewSlot(log, d);
    forall a | a in toName1
      ensures exists i :: Live(after, i) && Address(i) == a
    {
      if a != ip {
        var i :| Live(log, i) && Address(i) == a;
        assert Live(after, i);
      }
    }
  }

  lemma MissKeepsAddresses(log: Log, toIp: map<Name, u32>, toName: map<u32, Name>, d: Name)
    requires Good(log) && Tracks(log, toIp, toName) && !Known(log, d)
    ensures var after, ip := log + [d], Address(|log|);
      var toIp1 := if ip in toName then toIp - {toName[ip]} else toIp;
      forall i {:trigger Live(after, i)} | Live(after, i) ::
        after[i] in toIp1[d := ip] && toIp1[d := ip][after[i]] == Address(i)
  {
    var n, after, ip := |log|, log + [d], Address(|log|);
    NewSlot(log, d);
    var toIp1 := if ip in toName then toIp - {toName[ip]} else toIp;
    forall i {:trigger Live(after, i)} | Live(after, i)
      ensures after[i] in toIp1[d := ip] && toIp1[d := ip][after[i]] == Address(i)
    {
      if i < n && ip in toName {
        var j :| Live(log, j) && Address(j) == ip;
        assert toName[ip] == log[j] && j != i;
      }
    }
  }

  lemma MissKeepsNames(log: Log, toIp: map<Name, u32>, toName: map<u32, Name>, d: Name)
    requires Good(log) && Tracks(log, toIp, toName) && !Known(log, d)
    ensures var ip := Address(|log|);
      var toIp1 := if ip in toName then toIp - {toName[ip]} else toIp;
      forall e | e in toIp1[d := ip] :: Known(log + [d], e)
  {
    var n, after, ip := |log|, log + [d], Address(|log|);
    NewSlot(log, d);
    var toIp1 := if ip in toName then toIp - {toName[ip]} else toIp;
    forall e | e in toIp1[d := ip]
      ensures Known(after, e)
    {
      if e != d {
        var i := LiveIndex(log, e);
        assert Live(after, i) && after[i] == e;
      }
    }
  }

  lemma CursorAdvances(n: nat)
    ensures (n % POOL_SIZE + 1) % POOL_SIZE == (n + 1) % POOL_SIZE
  {
  }

  class FakeDns {
    var domainToIp: map<Name, u32>
    var ipToDomain: map<u32, Name>
    var nextOffset: nat
    ghost var log: Log

    ghost predicate Valid()
      reads this
    {
      Good(log) && Tracks(log, domainToIp, ipToDomain) && nextOffset == |log| % POOL_SIZE
    }

    constructor ()
      ensures Valid() && log == []
    {
      domainToIp, ipToDomain, nextOffset, log := map[], map[], 0, [];
    }

    method Resolve(domain: Name) returns (ip: u32)
      requires Valid()
      modifies this
      ensures Valid()
      ensures log == ResolveLog(old(log), domain)
      ensures Known(log, domain) && ip == Address(LiveIndex(log, domain))
      ensures log == old(log) ==> domainToIp == old(domainToIp) && ipToDomain == old(ipToDomain)
    {
      if domain in domainToIp {
        ghost var i := LiveIndex(log, domain);
        return domainToIp[domain];
      }
      assert !Known(log, domain);
      CursorAdvances(|log|);
      ip := POOL_START + nextOffset;
      nextOffset := (nextOffset + 1) % POOL_SIZE;
      Remap(ip, domain);
    }

    /** Evict the slot's previous name, if any, and install the new one. */
    method Remap(ip: u32, domain: Name)
      requires Good(log) && Tracks(log, domainToIp, ipToDomain) && !Known(log, domain) && ip == Address(|log|)
      modifies this`domainToIp, this`ipToDomain, this`log
      ensures log == old(log) + [domain] && Good(log) && Tracks(log, domainToIp, ipToDomain)
      ensures Known(log, domain) && ip == Address(LiveIndex(log, domain))
    {
      MissTracks(log, domainToIp, ipToDomain, domain);
      ResolveStaysGood(log, domain);
      NewSlot(log, domain);
      if ip in ipToDomain {
        var oldDomain := ipToDomain[ip];
        ipToDomain := ipToDomain - {ip};
        domainToIp := domainToIp - {oldDomain};
      }
      assert ipToDomain == old(ipToDomain) - {ip};
      ipToDomain := ipToDomain[ip := domain];
      domainToIp := domainToIp[domain := ip];
      log := log + [domain];
    }

    method Lookup(ip: u32) returns (r: Option<Name>)
      requires Valid()
      ensures Answers(log, ip, r)
    {
      r := if ip in ipToDomain then Some(ipToDomain[ip]) else None;
    }

    predicate IsFakeIp(ip: u32) {
      POOL_START <= ip <= POOL_END
    }
  }
}
