/** The registry that gives each checkout of the repository its own three ports.
    Models scripts/dev_state.py. */
module PortRegistry {

  const BACKEND_BASE := 8000
  const FRONTEND_BASE := 3000
  const VALKEY_BASE := 6379
  const STRIDE := 10
  const LAST_PORT := 65535
  /** Backend ports, the highest of a triple, leave the range of ports after this offset. */
  const LAST_OFFSET := 5753

  datatype Ports = Ports(backend: nat, frontend: nat, valkey: nat) {
    function All(): set<nat> { {backend, frontend, valkey} }
  }

  datatype Entry = Entry(instanceId: string, offset: nat, worktree: string, ports: Ports)

  /** What allocating yields: an entry, or the exception that binding a port above 65535 raises. */
  datatype Allocation = Allocated(entry: Entry) | PortOutOfRange

  function PortsOf(offset: nat): Ports {
    Ports(BACKEND_BASE + offset * STRIDE, FRONTEND_BASE + offset * STRIDE, VALKEY_BASE + offset * STRIDE)
  }

  /** Two checkouts can be given a common port exactly when their offsets are 500 apart: one's
      frontend is then the other's backend. */
  lemma CollideExact(m: nat, n: nat)
    requires m != n
    ensures !(PortsOf(m).All() !! PortsOf(n).All()) <==> m - n == 500 || n - m == 500
  {
    var a, b := PortsOf(m), PortsOf(n);
    if m - n == 500 {
      assert a.frontend in a.All() && a.frontend == b.backend;
    } else if n - m == 500 {
      assert b.frontend in b.All() && b.frontend == a.backend;
    }
  }

  // ---------------------------------------------------------------- the search

  predicate Admissible(offset: nat, used: set<nat>, busy: set<nat>) {
    offset !in used && PortsOf(offset).All() !! busy
  }

  function Above(used: set<nat>, offset: nat): set<nat> {
    set u | u in used && u >= offset
  }

  /** The first admissible offset from `offset` on; None if an unused one out of range comes first. */
  function Search(used: set<nat>, busy: set<nat>, offset: nat): (r: (bool, nat))
    decreases if offset <= LAST_OFFSET then LAST_OFFSET - offset + 1 else 0, |Above(used, offset)|
  {
    if offset !in used && offset > LAST_OFFSET then (false, offset)
    else if offset !in used && PortsOf(offset).All() !! busy then (true, offset)
    else
      assert offset in used ==> Above(used, offset + 1) < Above(used, offset) by {
        assert offset in used ==> offset in Above(used, offset);
      }
      SmallerSet(Above(used, offset + 1), Above(used, offset));
      Search(used, busy, offset + 1)
  }

  lemma SmallerSet(a: set<nat>, b: set<nat>)
    ensures a < b ==> |a| < |b|
    ensures a <= b ==> |a| <= |b|
  {
    if a <= b {
      assert b == a + (b - a);
      assert a < b ==> b - a != {};
    }
  }

  /** The search finds the least admissible offset, or fails when there is none in range. */
  lemma {:induction false} SearchIsLeast(used: set<nat>, busy: set<nat>, offset: nat)
    ensures var (ok, n) := Search(used, busy, offset);
            && n >= offset
            && (ok <==> exists k | offset <= k <= LAST_OFFSET :: Admissible(k, used, busy))
            && (ok ==> n <= LAST_OFFSET && Admissible(n, used, busy))
            && (forall k | offset <= k < n && k <= LAST_OFFSET :: !Admissible(k, used, busy))
    decreases if offset <= LAST_OFFSET then LAST_OFFSET - offset + 1 else 0, |Above(used, offset)|
  {
    if offset !in used && offset > LAST_OFFSET {
    } else if offset !in used && PortsOf(offset).All() !! busy {
      assert Admissible(offset, used, busy);
    } else {
      assert offset in used ==> Above(used, offset + 1) < Above(used, offset) by {
        assert offset in used ==> offset in Above(used, offset);
      }
      SmallerSet(Above(used, offset + 1), Above(used, offset));
      SearchIsLeast(used, busy, offset + 1);
      assert !Admissible(offset, used, busy) || offset > LAST_OFFSET;
    }
  }

  // ---------------------------------------------------------------- how far it has to look

  /** The offsets one busy port can spoil: a valkey port ends in 9, the others in 0. */
  function SpoiledBy(port: nat): set<int> {
    if port % STRIDE == 9 then {(port - VALKEY_BASE) / STRIDE}
    else {(port - BACKEND_BASE) / STRIDE, (port - FRONTEND_BASE) / STRIDE}
  }

  lemma SpoilsAtMostTwo(offset: nat, port: nat)
    ensures |SpoiledBy(port)| <= 2
    ensures port in PortsOf(offset).All() ==> offset in SpoiledBy(port)
  {
  }

  lemma {:induction false} Pigeonhole(offsets: set<int>, used: set<int>, busy: set<nat>)
    requires forall n | n in offsets :: n in used || exists p | p in busy :: n in SpoiledBy(p)
    ensures |offsets| <= |used| + 2 * |busy|
    decreases busy
  {
    if busy == {} {
      assert forall n | n in offsets :: n in used;
      SubsetCard(offsets, used);
    } else {
      var p :| p in busy;
      SpoilsAtMostTwo(0, p);
      Pigeonhole(offsets - SpoiledBy(p), used, busy - {p});
      SubtractSize(offsets, SpoiledBy(p));
    }
  }

  lemma SubtractSize(a: set<int>, b: set<int>)
    ensures |a| <= |a - b| + |b|
  {
    assert a <= (a - b) + b;
    SubsetCard(a, (a - b) + b);
  }

  lemma SubsetCard(a: set<int>, b: set<int>)
    requires a <= b
    ensures |a| <= |b|
  {
    assert b == a + (b - a);
  }

  function Range(n: nat): (r: set<int>)
    ensures forall k :: k in r <==> 0 <= k < n
    ensures |r| == n
  {
    if n == 0 then {} else Range(n - 1) + {n - 1}
  }

  /** If no offset below `n` is admissible, the used offsets and busy ports number that many. */
  lemma CrowdedBelow(n: nat, used: set<nat>, busy: set<nat>)
    requires forall k: nat | k < n :: !Admissible(k, used, busy)
    ensures n <= |used| + 2 * |busy|
  {
    forall k | k in Range(n)
      ensures k in used || exists p | p in busy :: k in SpoiledBy(p)
    {
      if k !in used {
        assert !Admissible(k, used, busy);
        var p :| p in PortsOf(k).All() && p in busy;
        SpoilsAtMostTwo(k, p);
      }
    }
    Pigeonhole(Range(n), used, busy);
  }

  /** With few enough entries and busy ports the search succeeds, and not further out than that. */
  lemma SearchIsBounded(used: set<nat>, busy: set<nat>)
    ensures var (ok, n) := Search(used, busy, 0);
            && (ok ==> n <= |used| + 2 * |busy|)
            && (|used| + 2 * |busy| <= LAST_OFFSET ==> ok)
  {
    SearchIsLeast(used, busy, 0);
    var (ok, n) := Search(used, busy, 0);
    if ok {
      CrowdedBelow(n, used, busy);
    } else {
      CrowdedBelow(LAST_OFFSET + 1, used, busy);
    }
  }

  // ---------------------------------------------------------------- the registry

  type Instances = map<string, Entry>

  function UsedOffsets(instances: Instances): set<nat> {
    set path | path in instances :: instances[path].offset
  }

  /** Every entry is filed under its own path, with the ports of its offset, and no offset is
      given out twice. */
  predicate Consistent(instances: Instances) {
    && (forall p | p in instances ::
          && instances[p].worktree == p
          && instances[p].ports == PortsOf(instances[p].offset)
          && instances[p].offset <= LAST_OFFSET)
    && (forall p, q | p in instances && q in instances && p != q :: instances[p].offset != instances[q].offset)
  }

  function Allocate(instances: Instances, path: string, busy: set<nat>, instanceId: string -> string):
      (Instances, Allocation)
  {
    if path in instances then (instances, Allocated(instances[path]))
    else
      var (ok, n) := Search(UsedOffsets(instances), busy, 0);
      if !ok then (instances, PortOutOfRange)
      else
        var entry := Entry(instanceId(path), n, path, PortsOf(n));
        (instances[path := entry], Allocated(entry))
  }

  class Registry {
    var instances: Instances

    constructor ()
      ensures instances == map[] && Consistent(instances)
    {
      instances := map[];
    }

    /** `busy` are the ports that cannot be bound while the search runs. */
    method CmdAllocate(path: string, busy: set<nat>, instanceId: string -> string) returns (r: Allocation)
      modifies this
      ensures (instances, r) == Allocate(old(instances), path, busy, instanceId)
    {
      if path in instances {
        return Allocated(instances[path]);
      }
      var used := set p | p in instances :: instances[p].offset;
      assert used == UsedOffsets(instances);
      var offset := 0;
      while true
        invariant instances == old(instances)
        invariant Search(used, busy, offset) == Search(used, busy, 0)
        decreases if offset <= LAST_OFFSET then LAST_OFFSET - offset + 1 else 0, |Above(used, offset)|
      {
        if offset !in used {
          var ports := PortsOf(offset);
          if ports.backend > LAST_PORT {
            return PortOutOfRange;
          }
          if ports.backend !in busy && ports.frontend !in busy && ports.valkey !in busy {
            break;
          }
        } else {
          assert offset in Above(used, offset);
          assert Above(used, offset + 1) < Above(used, offset);
          SmallerSet(Above(used, offset + 1), Above(used, offset));
        }
        offset := offset + 1;
      }
      var entry := Entry(instanceId(path), offset, path, PortsOf(offset));
      instances := instances[path := entry];
      r := Allocated(entry);
    }

    method CmdRelease(path: string)
      modifies this
      ensures instances == old(instances) - {path}
    {
      instances := instances - {path};
    }
  }

  /** Allocating keeps the registry consistent, leaves every other entry alone, hands back the entry
      that is there, and otherwise takes the least offset that is free and whose ports are. */
  lemma AllocateKeeps(instances: Instances, path: string, busy: set<nat>, instanceId: string -> string)
    requires Consistent(instances)
    ensures var (after, r) := Allocate(instances, path, busy, instanceId);
            var used := UsedOffsets(instances);
            && Consistent(after)
            && (forall p | p in instances :: p in after && after[p] == instances[p])
            && (r.Allocated? <==> path in instances
                                  || exists k | 0 <= k <= LAST_OFFSET :: Admissible(k, used, busy))
            && (r.Allocated? ==> path in after && after[path] == r.entry
                                 && Allocate(after, path, busy, instanceId) == (after, r))
            && (r.Allocated? && path !in instances ==>
                  && Admissible(r.entry.offset, used, busy)
                  && (forall k: nat | k < r.entry.offset :: !Admissible(k, used, busy))
                  && r.entry.offset <= |instances| + 2 * |busy|
                  && var n := r.entry.offset;
                     r.entry == Entry(instanceId(path), n, path, Ports(8000 + 10 * n, 3000 + 10 * n, 6379 + 10 * n)))
            && (r == PortOutOfRange ==> after == instances)
  {
    hide Consistent, UsedOffsets, Search, Admissible;
    var used := UsedOffsets(instances);
    StaysConsistent(instances, path, busy, instanceId);
    SearchIsLeast(used, busy, 0);
    SearchIsBounded(used, busy);
    UsedSize(instances);
  }

  lemma StaysConsistent(instances: Instances, path: string, busy: set<nat>, instanceId: string -> string)
    requires Consistent(instances)
    ensures Consistent(Allocate(instances, path, busy, instanceId).0)
  {
    hide Search, PortsOf;
    var used := UsedOffsets(instances);
    SearchIsLeast(used, busy, 0);
    assert forall p | p in instances :: instances[p].offset in used;
  }

  lemma {:induction false} UsedSize(instances: Instances)
    ensures |UsedOffsets(instances)| <= |instances|
    decreases |instances|
  {
    if p :| p in instances {
      var rest := instances - {p};
      UsedSize(rest);
      assert forall q | q in instances :: q == p || (q in rest && rest[q] == instances[q]);
      SubsetCard(UsedOffsets(instances), UsedOffsets(rest) + {instances[p].offset});
    } else {
      assert UsedOffsets(instances) == {};
    }
  }

  // ---------------------------------------------------------------- runs

  datatype Command = DoAllocate(path: string, busy: set<nat>) | DoRelease(path: string)

  function Apply(instances: Instances, command: Command, instanceId: string -> string): Instances {
    match command
    case DoAllocate(path, busy) => Allocate(instances, path, busy, instanceId).0
    case DoRelease(path) => instances - {path}
  }

  function Run(instances: Instances, commands: seq<Command>, instanceId: string -> string): Instances
    decreases |commands|
  {
    if commands == [] then instances
    else Run(Apply(instances, commands[0], instanceId), commands[1..], instanceId)
  }

  /** Whatever is allocated and released, no offset is ever held twice; and a checkout that is not
      released keeps its entry through the whole run. */
  lemma {:induction false} RunKeeps(instances: Instances, commands: seq<Command>, instanceId: string -> string)
    requires Consistent(instances)
    ensures Consistent(Run(instances, commands, instanceId))
    ensures forall p | p in instances && DoRelease(p) !in commands ::
              p in Run(instances, commands, instanceId) && Run(instances, commands, instanceId)[p] == instances[p]
    decreases |commands|
  {
    if commands != [] {
      var next := Apply(instances, commands[0], instanceId);
      if commands[0].DoAllocate? {
        AllocateKeeps(instances, commands[0].path, commands[0].busy, instanceId);
      }
      RunKeeps(next, commands[1..], instanceId);
      forall p | p in instances && DoRelease(p) !in commands
        ensures p in Run(instances, commands, instanceId) && Run(instances, commands, instanceId)[p] == instances[p]
      {
        assert DoRelease(p) != commands[0];
        assert p in next && next[p] == instances[p];
      }
    }
  }

  /** After any run, two checkouts share a port exactly when their offsets are 500 apart; so never
      while all offsets are below 500. */
  lemma RunSeparatesPorts(commands: seq<Command>, instanceId: string -> string, p: string, q: string)
    requires var held := Run(map[], commands, instanceId); p in held && q in held && p != q
    ensures var held := Run(map[], commands, instanceId);
            var m, n := held[p].offset, held[q].offset;
            && (held[p].ports.All() !! held[q].ports.All() <==> m - n != 500 && n - m != 500)
            && (m < 500 && n < 500 ==> held[p].ports.All() !! held[q].ports.All())
  {
    RunKeeps(map[], commands, instanceId);
    var held := Run(map[], commands, instanceId);
    CollideExact(held[p].offset, held[q].offset);
  }
}
