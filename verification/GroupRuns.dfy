/** Over every run of the controller: free and live resources partition the initial pools, the undo
    log is exact, and the switch tables mention exactly the live groups. */
module GroupRuns {
  import opened NetCommon
  import opened Segments
  import opened Groups

  type Lives = map<nat, Live>

  // ----- memory -----

  ghost predicate MemInv(ms: seq<Seg>, live: Lives) {
    && Ordered(ms) && AlignedTo(ms, ALLOC_SIZE)
    && (forall g :: g in live ==> live[g].lo % ALLOC_SIZE == 0 && live[g].lo + ALLOC_SIZE <= SWITCH_MEM_SIZE)
    && (forall g :: g in live ==> !Overlaps(ms, live[g].lo, live[g].lo + ALLOC_SIZE))
    && (forall g, h :: g in live && h in live && g != h ==> live[g].lo != live[h].lo)
    && (forall a :: 0 <= a < SWITCH_MEM_SIZE ==> Covers(ms, a) || exists g :: g in live && Holds(live[g], a))
  }

  predicate Holds(l: Live, a: int) {
    l.lo <= a < l.lo + ALLOC_SIZE
  }

  lemma AlignedApart(x: nat, y: nat, a: int)
    requires x % ALLOC_SIZE == 0 && y % ALLOC_SIZE == 0 && x != y
    ensures !(x <= a < x + ALLOC_SIZE && y <= a < y + ALLOC_SIZE)
  {}

  /** A group's memory is found whenever any byte is free, at the first free address. */
  lemma FitIsFirst(ms: seq<Seg>)
    requires Ordered(ms) && AlignedTo(ms, ALLOC_SIZE)
    ensures FitSeg(ms, ALLOC_SIZE) == if ms == [] then NoFit else Found(0, ms[0].lo)
  {
    NoFragmentation(ms, ALLOC_SIZE);
    IsPower2Iff(1024);
    hide FirstFit, IsPower2;
  }

  lemma MemCreate(ms: seq<Seg>, live: Lives, g: nat, l: Live, index: nat)
    requires MemInv(ms, live) && g !in live
    requires FitSeg(ms, ALLOC_SIZE) == Found(index, l.lo)
    ensures index < |ms| && MemInv(AllocSeg(ms, index, l.lo, l.lo + ALLOC_SIZE), live[g := l])
  {
    hide FitSeg, AllocSeg, Holds, Overlaps;
    FitIsFirst(ms);
    FirstIsFree(ms, ALLOC_SIZE);
    hide Ordered, AlignedTo, Covers, MemInv;
    AllocKeeps(ms, index, l.lo, l.lo + ALLOC_SIZE, ALLOC_SIZE);
    MemAfterCreate(ms, live, g, l, AllocSeg(ms, index, l.lo, l.lo + ALLOC_SIZE));
  }

  lemma FirstIsFree(ms: seq<Seg>, n: nat)
    requires Ordered(ms) && n > 0 && AlignedTo(ms, n)
    ensures ms != [] ==> Covers(ms, ms[0].lo) && ms[0].lo % n == 0 && ms[0].lo + n <= ms[0].hi <= SWITCH_MEM_SIZE
  {
    if ms != [] {
      AlignedFits(ms[0], n);
      assert In(ms[0], ms[0].lo);
    }
  }

  lemma MemAfterCreate(ms: seq<Seg>, live: Lives, g: nat, l: Live, ns: seq<Seg>)
    requires MemInv(ms, live) && g !in live && Covers(ms, l.lo)
    requires l.lo % ALLOC_SIZE == 0 && l.lo + ALLOC_SIZE <= SWITCH_MEM_SIZE
    requires Ordered(ns) && AlignedTo(ns, ALLOC_SIZE)
    requires forall a :: Covers(ns, a) <==> Covers(ms, a) && !(l.lo <= a < l.lo + ALLOC_SIZE)
    ensures MemInv(ns, live[g := l])
  {
    var now := live[g := l];
    hide Ordered, AlignedTo, Covers;
    forall h | h in now ensures !Overlaps(ns, now[h].lo, now[h].lo + ALLOC_SIZE) {
      assert h != g ==> !Overlaps(ms, live[h].lo, live[h].lo + ALLOC_SIZE);
    }
    forall a | 0 <= a < SWITCH_MEM_SIZE && !Covers(ns, a) ensures exists h :: h in now && Holds(now[h], a) {
      if Covers(ms, a) {
        assert Holds(now[g], a);
      } else {
        var h :| h in live && Holds(live[h], a);
        assert Holds(now[h], a);
      }
    }
  }

  lemma MemDestroy(ms: seq<Seg>, live: Lives, g: nat)
    requires MemInv(ms, live) && g in live
    ensures FreeSeg(ms, live[g].lo, live[g].lo + ALLOC_SIZE).Some?
    ensures MemInv(FreeSeg(ms, live[g].lo, live[g].lo + ALLOC_SIZE).value, live - {g})
  {
    var lo, hi := live[g].lo, live[g].lo + ALLOC_SIZE;
    FreeKeeps(ms, lo, hi, ALLOC_SIZE);
    var ns, now := FreeSeg(ms, lo, hi).value, live - {g};
    hide FreeSeg, Ordered, AlignedTo;
    forall h | h in now ensures !Overlaps(ns, now[h].lo, now[h].lo + ALLOC_SIZE) {
      if Overlaps(ns, now[h].lo, now[h].lo + ALLOC_SIZE) {
        var a :| now[h].lo <= a < now[h].lo + ALLOC_SIZE && Covers(ns, a);
        AlignedApart(lo, now[h].lo, a);
      }
    }
    forall a | 0 <= a < SWITCH_MEM_SIZE && !Covers(ns, a) ensures exists h :: h in now && Holds(now[h], a) {
      var h :| h in live && Holds(live[h], a);
      assert h in now && Holds(now[h], a);
    }
  }

  // ----- numbered pools -----

  predicate NoDup(s: seq<nat>) {
    forall i, j :: 0 <= i < j < |s| ==> s[i] != s[j]
  }

  /** The free list and the taken set partition 1..hi. */
  predicate Pool(free: seq<nat>, taken: set<nat>, hi: nat) {
    && NoDup(free)
    && (forall n :: n in free ==> 1 <= n < hi && n !in taken)
    && (forall n :: n in taken ==> 1 <= n < hi)
    && (forall n :: 1 <= n < hi ==> n in free || n in taken)
  }

  lemma PoolTake(free: seq<nat>, taken: set<nat>, hi: nat, k: nat)
    requires Pool(free, taken, hi) && k <= |free|
    ensures Pool(free[k..], taken + SetOf(free[..k]), hi)
    ensures NoDup(free[..k]) && SetOf(free[..k]) !! taken
  {
    assert free == free[..k] + free[k..];
    forall n | n in free[k..] ensures n in free && n !in SetOf(free[..k]) {
      var i :| 0 <= i < |free| - k && free[k..][i] == n;
      assert free[k + i] == n;
      assert forall j :: 0 <= j < k ==> free[..k][j] == free[j];
    }
    forall n | n in SetOf(free[..k]) ensures n in free { }
  }

  lemma PoolReturn(free: seq<nat>, taken: set<nat>, hi: nat, ns: seq<nat>)
    requires Pool(free, taken, hi) && NoDup(ns) && SetOf(ns) <= taken
    ensures Pool(free + ns, taken - SetOf(ns), hi)
  {
    var all := free + ns;
    forall i, j | 0 <= i < j < |all| ensures all[i] != all[j] {
      if i < |free| <= j { assert ns[j - |free|] in SetOf(ns); assert free[i] in free; }
    }
    forall n | n in ns ensures n in taken { assert n in SetOf(ns); }
  }

  function NodesOf(live: Lives): set<nat> {
    set g, n | g in live && n in live[g].nodes :: n
  }

  predicate NodesApart(live: Lives) {
    && (forall g :: g in live ==> NoDup(live[g].nodes))
    && (forall g, h :: g in live && h in live && g != h ==> SetOf(live[g].nodes) !! SetOf(live[h].nodes))
  }

  lemma NodesCreate(live: Lives, g: nat, l: Live)
    requires NodesApart(live) && g !in live && NoDup(l.nodes) && SetOf(l.nodes) !! NodesOf(live)
    ensures NodesApart(live[g := l]) && NodesOf(live[g := l]) == NodesOf(live) + SetOf(l.nodes)
  {
    var now := live[g := l];
    forall h | h in live ensures SetOf(live[h].nodes) <= NodesOf(live) {}
    forall n ensures n in NodesOf(now) <==> n in NodesOf(live) + SetOf(l.nodes) {
      if n in NodesOf(live) {
        var h :| h in live && n in live[h].nodes;
        assert h in now && n in now[h].nodes;
      }
      if n in l.nodes { assert n in now[g].nodes; }
    }
  }

  lemma NodesDestroy(live: Lives, g: nat)
    requires NodesApart(live) && g in live
    ensures NodesApart(live - {g}) && NodesOf(live - {g}) == NodesOf(live) - SetOf(live[g].nodes)
    ensures SetOf(live[g].nodes) <= NodesOf(live)
  {
    var now := live - {g};
    forall n ensures n in NodesOf(now) <==> n in NodesOf(live) - SetOf(live[g].nodes) {
      if n in NodesOf(now) {
        var h :| h in now && n in now[h].nodes;
        assert n in SetOf(live[h].nodes);
      }
      if n in NodesOf(live) - SetOf(live[g].nodes) {
        var h :| h in live && n in live[h].nodes;
        assert n in SetOf(live[h].nodes) && h in now;
      }
    }
  }

  // ----- recirculation counters -----

  function Users(live: Lives, i: nat): set<nat> {
    set g | g in live && live[g].idx == i
  }

  predicate RecirInv(recir: seq<int>, live: Lives) {
    && (forall i :: 0 <= i < |recir| ==> recir[i] == |Users(live, i)|)
    && (forall g :: g in live ==> live[g].idx < |recir|)
  }

  lemma RecirCreate(recir: seq<int>, live: Lives, g: nat, l: Live)
    requires RecirInv(recir, live) && g !in live && l.idx < |recir|
    ensures RecirInv(recir[l.idx := recir[l.idx] + 1], live[g := l])
  {
    var now := live[g := l];
    forall i | 0 <= i < |recir| ensures recir[l.idx := recir[l.idx] + 1][i] == |Users(now, i)| {
      assert Users(now, i) == if i == l.idx then Users(live, i) + {g} else Users(live, i);
    }
  }

  lemma RecirDestroy(recir: seq<int>, live: Lives, g: nat)
    requires RecirInv(recir, live) && g in live
    ensures RecirInv(recir[live[g].idx := recir[live[g].idx] - 1], live - {g})
  {
    var k := live[g].idx;
    forall i | 0 <= i < |recir| ensures recir[k := recir[k] - 1][i] == |Users(live - {g}, i)| {
      assert Users(live - {g}, i) == Users(live, i) - {g};
      assert g in Users(live, i) <==> i == k;
    }
  }

  // ----- tables -----

  /** One entry per live group. */
  predicate GroupTables(t: Tables, ports: seq<nat>, live: Lives) {
    && t.recirculate.Keys == live.Keys && t.metadata.Keys == live.Keys && t.mgids.Keys == live.Keys
    && (forall g :: g in live ==>
          && live[g].idx < |ports| && t.recirculate[g] == ports[live[g].idx]
          && t.metadata[g] == |live[g].members| == |live[g].nodes|
          && t.mgids[g] == live[g].nodes)
  }

  /** One entry per member of a live group, with the member's address. */
  ghost predicate RestoreTable(t: map<(nat, nat), nat>, live: Lives) {
    && (forall g: nat, i: nat :: (g, i) in t <==> g in live && i < |live[g].members|)
    && (forall g: nat, i: nat :: (g, i) in t ==> t[(g, i)] == live[g].members[i].ip)
  }

  /** One entry per multicast node of a live group, with the member's rank and port. */
  predicate NodeTable(t: map<nat, (nat, nat)>, live: Lives) {
    && t.Keys == NodesOf(live)
    && (forall g :: g in live ==> NodeEntries(t, live[g]))
  }

  predicate NodeEntries(t: map<nat, (nat, nat)>, l: Live) {
    |l.nodes| <= |l.members| &&
    forall i :: 0 <= i < |l.nodes| ==> l.nodes[i] in t && t[l.nodes[i]] == (i, l.members[i].port)
  }

  ghost predicate TablesInv(t: Tables, ports: seq<nat>, live: Lives) {
    GroupTables(t, ports, live) && RestoreTable(t.restore, live) && NodeTable(t.nodes, live)
  }

  lemma {:induction false} AddedMembers(t: Tables, g: nat, ns: seq<nat>, ms: seq<Member>)
    requires |ns| <= |ms| && NoDup(ns)
    ensures var u := AddMembers(t, g, ns, ms);
      && u.recirculate == t.recirculate && u.metadata == t.metadata && u.mgids == t.mgids
      && AddedRestore(t.restore, u.restore, g, |ns|, ms)
      && AddedNodes(t.nodes, u.nodes, ns, ms)
    decreases |ns|
  {
    if ns != [] {
      var i := |ns| - 1;
      AddedMembers(t, g, ns[..i], ms);
      var u := AddMembers(t, g, ns[..i], ms);
      hide AddedRestore, AddedNodes, NoDup;
      OneRestore(t.restore, u.restore, g, i, ms);
      OneNode(t.nodes, u.nodes, ns, ms);
    } else {
      assert Ranks(g, 0) == {} && SetOf(ns) == {};
    }
  }

  lemma OneRestore(t: map<(nat, nat), nat>, u: map<(nat, nat), nat>, g: nat, i: nat, ms: seq<Member>)
    requires i < |ms| && AddedRestore(t, u, g, i, ms)
    ensures AddedRestore(t, u[(g, i) := ms[i].ip], g, i + 1, ms)
  {
    assert Ranks(g, i + 1) == Ranks(g, i) + {(g, i)};
  }

  lemma OneNode(t: map<nat, (nat, nat)>, u: map<nat, (nat, nat)>, ns: seq<nat>, ms: seq<Member>)
    requires ns != [] && |ns| <= |ms| && NoDup(ns)
    requires AddedNodes(t, u, ns[..|ns| - 1], ms)
    ensures AddedNodes(t, u[ns[|ns| - 1] := (|ns| - 1, ms[|ns| - 1].port)], ns, ms)
  {
    var i := |ns| - 1;
    assert SetOf(ns) == SetOf(ns[..i]) + {ns[i]};
    var v := u[ns[i] := (i, ms[i].port)];
    forall k | 0 <= k < |ns| ensures ns[k] in v && v[ns[k]] == (k, ms[k].port) {
      if k < i { assert ns[..i][k] == ns[k]; }
    }
    forall n | n in t && n !in ns ensures v[n] == t[n] {
      assert n !in ns[..i];
    }
  }

  ghost predicate AddedRestore(t: map<(nat, nat), nat>, u: map<(nat, nat), nat>, g: nat, n: nat, ms: seq<Member>)
    requires n <= |ms|
  {
    && u.Keys == t.Keys + Ranks(g, n)
    && (forall i: nat :: i < n ==> (g, i) in u && u[(g, i)] == ms[i].ip)
    && (forall h: nat, i: nat :: (h, i) in t && (h, i) !in Ranks(g, n) ==> u[(h, i)] == t[(h, i)])
  }

  predicate AddedNodes(t: map<nat, (nat, nat)>, u: map<nat, (nat, nat)>, ns: seq<nat>, ms: seq<Member>)
    requires |ns| <= |ms|
  {
    && u.Keys == t.Keys + SetOf(ns)
    && (forall i :: 0 <= i < |ns| ==> ns[i] in u && u[ns[i]] == (i, ms[i].port))
    && (forall n :: n in t && n !in ns ==> u[n] == t[n])
  }

  function CreatedTables(t: Tables, port: nat, g: nat, l: Live): Tables
    requires |l.nodes| <= |l.members|
  {
    var u := AddMembers(t.(recirculate := t.recirculate[g := port], metadata := t.metadata[g := |l.members|]), g, l.nodes, l.members);
    u.(mgids := u.mgids[g := l.nodes])
  }

  function DestroyedTables(t: Tables, g: nat, l: Live): Tables {
    Tables(t.recirculate - {g}, t.metadata - {g}, t.restore - Ranks(g, |l.nodes|), t.nodes - SetOf(l.nodes), t.mgids - {g})
  }

  lemma RestoreCreate(t: map<(nat, nat), nat>, u: map<(nat, nat), nat>, live: Lives, g: nat, l: Live)
    requires RestoreTable(t, live) && g !in live && AddedRestore(t, u, g, |l.members|, l.members)
    ensures RestoreTable(u, live[g := l])
  {
    var now := live[g := l];
    forall h: nat, i: nat ensures (h, i) in u <==> h in now && i < |now[h].members| {
      assert (h, i) in Ranks(g, |l.members|) <==> h == g && i < |l.members|;
    }
  }

  lemma NodesTableCreate(t: map<nat, (nat, nat)>, u: map<nat, (nat, nat)>, live: Lives, g: nat, l: Live)
    requires NodeTable(t, live) && NodesApart(live) && g !in live && |l.nodes| <= |l.members|
    requires NoDup(l.nodes) && SetOf(l.nodes) !! NodesOf(live) && AddedNodes(t, u, l.nodes, l.members)
    ensures NodeTable(u, live[g := l])
  {
    NodesCreate(live, g, l);
    var now := live[g := l];
    forall h | h in now ensures NodeEntries(u, now[h]) {
      if h != g {
        assert NodeEntries(t, live[h]);
        forall i | 0 <= i < |live[h].nodes| ensures live[h].nodes[i] in u && u[live[h].nodes[i]] == (i, live[h].members[i].port) {
          assert live[h].nodes[i] in NodesOf(live);
          assert live[h].nodes[i] !in SetOf(l.nodes);
        }
      }
    }
  }

  /** The tables that a created group's entries are compared with: what `AddMembers` does to each. */
  predicate AddedGroup(t: Tables, u: Tables, port: nat, g: nat, l: Live) {
    && u.recirculate == t.recirculate[g := port]
    && u.metadata == t.metadata[g := |l.members|]
    && u.mgids == t.mgids[g := l.nodes]
  }

  lemma CreatedShape(t: Tables, port: nat, g: nat, l: Live)
    requires |l.nodes| == |l.members| && NoDup(l.nodes)
    ensures var u := CreatedTables(t, port, g, l);
      && AddedGroup(t, u, port, g, l)
      && AddedRestore(t.restore, u.restore, g, |l.members|, l.members)
      && AddedNodes(t.nodes, u.nodes, l.nodes, l.members)
  {
    var t1 := t.(recirculate := t.recirculate[g := port], metadata := t.metadata[g := |l.members|]);
    AddedMembers(t1, g, l.nodes, l.members);
    hide AddMembers, AddedRestore, AddedNodes, NoDup;
  }

  lemma GroupTablesCreate(t: Tables, u: Tables, ports: seq<nat>, live: Lives, g: nat, l: Live)
    requires GroupTables(t, ports, live) && g !in live && l.idx < |ports| && |l.nodes| == |l.members|
    requires AddedGroup(t, u, ports[l.idx], g, l)
    ensures GroupTables(u, ports, live[g := l])
  {}

  lemma TablesCreate(t: Tables, ports: seq<nat>, live: Lives, g: nat, l: Live)
    requires TablesInv(t, ports, live) && NodesApart(live) && g !in live
    requires l.idx < |ports| && |l.nodes| == |l.members| && NoDup(l.nodes) && SetOf(l.nodes) !! NodesOf(live)
    ensures TablesInv(CreatedTables(t, ports[l.idx], g, l), ports, live[g := l])
  {
    hide AddMembers, RestoreTable, NodeTable, GroupTables, AddedRestore, AddedNodes, AddedGroup, CreatedTables, NodesApart, NodesOf, NoDup, SetOf;
    var u := CreatedTables(t, ports[l.idx], g, l);
    CreatedShape(t, ports[l.idx], g, l);
    GroupTablesCreate(t, u, ports, live, g, l);
    RestoreCreate(t.restore, u.restore, live, g, l);
    NodesTableCreate(t.nodes, u.nodes, live, g, l);
  }

  lemma RestoreDestroy(t: map<(nat, nat), nat>, live: Lives, g: nat)
    requires RestoreTable(t, live) && g in live
    ensures RestoreTable(t - Ranks(g, |live[g].members|), live - {g})
  {
    var n := |live[g].members|;
    forall h: nat, i: nat ensures (h, i) in Ranks(g, n) <==> h == g && i < n {}
  }

  lemma NodesTableDestroy(t: map<nat, (nat, nat)>, live: Lives, g: nat)
    requires NodeTable(t, live) && NodesApart(live) && g in live
    ensures NodeTable(t - SetOf(live[g].nodes), live - {g})
  {
    NodesDestroy(live, g);
    var u, now := t - SetOf(live[g].nodes), live - {g};
    forall h | h in now ensures NodeEntries(u, now[h]) {
      assert NodeEntries(t, live[h]);
      forall i | 0 <= i < |live[h].nodes| ensures live[h].nodes[i] in u && u[live[h].nodes[i]] == (i, live[h].members[i].port) {
        assert live[h].nodes[i] in SetOf(live[h].nodes);
      }
    }
  }

  lemma TablesDestroy(t: Tables, ports: seq<nat>, live: Lives, g: nat)
    requires TablesInv(t, ports, live) && NodesApart(live) && g in live
    ensures TablesInv(DestroyedTables(t, g, live[g]), ports, live - {g})
  {
    RestoreDestroy(t.restore, live, g);
    NodesTableDestroy(t.nodes, live, g);
    hide RestoreTable, NodeTable;
  }

  // ----- the whole controller -----

  predicate UndoInv(undo: map<nat, seq<Undo>>, live: Lives) {
    undo.Keys == live.Keys && (forall g :: g in live ==> undo[g] == UndoList(g, live[g]))
  }

  ghost predicate Inv(c: Ctl, live: Lives) {
    && MemInv(c.memseg, live)
    && Pool(c.freeGroup, live.Keys, MAX_GROUP_NUM)
    && Pool(c.freeNode, NodesOf(live), MAX_WORKER_NUM) && NodesApart(live)
    && RecirInv(c.recir, live) && |c.recir| == |c.ports| > 0
    && UndoInv(c.undo, live)
    && TablesInv(c.tables, c.ports, live)
    && !c.dead
  }

  lemma FreshInv(ports: seq<nat>)
    requires ports != []
    ensures Inv(Fresh(ports), map[])
  {
    var c := Fresh(ports);
    assert forall a :: 0 <= a < SWITCH_MEM_SIZE ==> In(c.memseg[0], a);
    assert forall i :: Users(map[], i) == {};
    forall n: nat | 1 <= n < MAX_GROUP_NUM ensures n in c.freeGroup { assert c.freeGroup[n - 1] == n; }
    forall n: nat | 1 <= n < MAX_WORKER_NUM ensures n in c.freeNode { assert c.freeNode[n - 1] == n; }
  }

  function Added(live: Lives, c: Ctl, members: seq<Member>): Lives
    requires c.recir != []
  {
    match Offer(c, members)
    case None => live
    case Some((g, l)) => live[g := l]
  }

  lemma OfferFacts(c: Ctl, live: Lives, members: seq<Member>)
    requires Inv(c, live)
    ensures Offer(c, members).Some? <==>
      c.freeGroup != [] && |members| <= |c.freeNode| && exists a :: Covers(c.memseg, a)
    ensures Offer(c, members).Some? ==>
      var (g, l) := Offer(c, members).value;
      && c.memseg != [] && FitSeg(c.memseg, ALLOC_SIZE) == Found(FitIndex(c), l.lo) && FitIndex(c) < |c.memseg|
      && c.freeGroup != [] && g == c.freeGroup[0] && |members| <= |c.freeNode| && l.nodes == c.freeNode[..|members|]
      && l.idx < |c.recir| && l.idx == MinIndex(c.recir) && l.members == members
  {
    FitIsFirst(c.memseg);
    NoFragmentation(c.memseg, ALLOC_SIZE);
    hide FitSeg, FirstFit, Pool, NodesApart, RecirInv, TablesInv;
  }

  predicate CreatedAs(c: Ctl, d: Ctl, g: nat, l: Live) {
    && FitIndex(c) < |c.memseg| && l.idx < |c.recir| && l.idx < |c.ports| && |l.nodes| == |l.members|
    && c.freeGroup != [] && |l.members| <= |c.freeNode|
    && d.ports == c.ports && d.dead == c.dead
    && d.memseg == AllocSeg(c.memseg, FitIndex(c), l.lo, l.lo + ALLOC_SIZE)
    && d.freeGroup == c.freeGroup[1..] && d.freeNode == c.freeNode[|l.members|..]
    && d.recir == c.recir[l.idx := c.recir[l.idx] + 1]
    && d.tables == CreatedTables(c.tables, c.ports[l.idx], g, l)
    && d.undo == c.undo[g := UndoList(g, l)]
  }

  lemma CreateFields(c: Ctl, live: Lives, members: seq<Member>)
    requires Inv(c, live) && Offer(c, members).Some?
    ensures CreatedAs(c, Create(c, members), Offer(c, members).value.0, Offer(c, members).value.1)
  {
    hide MemInv, Pool, NodesApart, TablesInv, UndoInv, FitSeg, AddMembers, FitIndex, AllocSeg, UndoList, MinIndex;
    OfferFacts(c, live, members);
    assert |c.recir| == |c.ports|;
    hide Offer, Inv, RecirInv;
    CreateSteps(c, members);
  }

  lemma CreateSteps(c: Ctl, members: seq<Member>)
    requires c.recir != [] && |c.ports| == |c.recir| && Offer(c, members).Some? && FitIndex(c) < |c.memseg|
    requires var l := Offer(c, members).value.1;
      l.idx < |c.recir| && l.members == members && |l.nodes| == |members| <= |c.freeNode| && c.freeGroup != []
    ensures CreatedAs(c, Create(c, members), Offer(c, members).value.0, Offer(c, members).value.1)
  {
    hide FitSeg, Offer, AddMembers, FitIndex, AllocSeg, UndoList;
  }

  lemma CreateIds(c: Ctl, live: Lives, g: nat, l: Live, n: nat)
    requires Inv(c, live) && c.freeGroup != [] && g == c.freeGroup[0] && n <= |c.freeNode| && l.nodes == c.freeNode[..n]
    ensures g !in live && NoDup(l.nodes) && SetOf(l.nodes) !! NodesOf(live)
    ensures Pool(c.freeGroup[1..], live[g := l].Keys, MAX_GROUP_NUM)
    ensures NodesApart(live[g := l]) && Pool(c.freeNode[n..], NodesOf(live[g := l]), MAX_WORKER_NUM)
  {
    hide MemInv, RecirInv, TablesInv, UndoInv;
    assert c.freeGroup[0] in c.freeGroup;
    PoolTake(c.freeGroup, live.Keys, MAX_GROUP_NUM, 1);
    assert live.Keys + SetOf(c.freeGroup[..1]) == live[g := l].Keys;
    PoolTake(c.freeNode, NodesOf(live), MAX_WORKER_NUM, n);
    NodesCreate(live, g, l);
  }

  lemma UndoCreate(undo: map<nat, seq<Undo>>, live: Lives, g: nat, l: Live)
    requires UndoInv(undo, live)
    ensures UndoInv(undo[g := UndoList(g, l)], live[g := l])
  {
    hide UndoList;
  }

  lemma CreatedKeeps(c: Ctl, live: Lives, d: Ctl, g: nat, l: Live)
    requires Inv(c, live) && CreatedAs(c, d, g, l)
    requires g == c.freeGroup[0] && l.nodes == c.freeNode[..|l.members|] && FitSeg(c.memseg, ALLOC_SIZE) == Found(FitIndex(c), l.lo)
    ensures Inv(d, live[g := l])
  {
    hide FitSeg, MemInv, AllocSeg, FitIndex, Pool, RecirInv, UndoInv, TablesInv, NodesApart, CreatedTables, UndoList, NodesOf, SetOf, NoDup;
    CreateIds(c, live, g, l, |l.members|);
    MemCreate(c.memseg, live, g, l, FitIndex(c));
    RecirCreate(c.recir, live, g, l);
    TablesCreate(c.tables, c.ports, live, g, l);
    UndoCreate(c.undo, live, g, l);
  }

  lemma CreateKeeps(c: Ctl, live: Lives, members: seq<Member>)
    requires Inv(c, live)
    ensures Inv(Create(c, members), Added(live, c, members))
  {
    hide MemInv, Pool, RecirInv, UndoInv, TablesInv, NodesApart, FitSeg, FitIndex, CreatedAs, Offer;
    if Offer(c, members).Some? {
      OfferFacts(c, live, members);
      CreateFields(c, live, members);
      var (g, l) := Offer(c, members).value;
      CreatedKeeps(c, live, Create(c, members), g, l);
    }
  }

  predicate DestroyedAs(c: Ctl, d: Ctl, g: nat, l: Live, ms: seq<Seg>) {
    && l.idx < |c.recir|
    && d.ports == c.ports && d.dead == c.dead
    && d.memseg == ms
    && d.freeGroup == c.freeGroup + [g] && d.freeNode == c.freeNode + l.nodes
    && d.recir == c.recir[l.idx := c.recir[l.idx] - 1]
    && d.tables == DestroyedTables(c.tables, g, l)
    && d.undo == c.undo - {g}
  }

  lemma DestroyFields(c: Ctl, g: nat, l: Live)
    requires g in c.undo && c.undo[g] == UndoList(g, l)
    requires l.idx < |c.recir| && FreeSeg(c.memseg, l.lo, l.lo + ALLOC_SIZE).Some?
    ensures DestroyedAs(c, Destroy(c, g), g, l, FreeSeg(c.memseg, l.lo, l.lo + ALLOC_SIZE).value)
  {
    hide UndoList, FreeSeg, ExecBack;
    UndoReturns(c, g, l);
  }

  lemma DestroyIds(c: Ctl, live: Lives, g: nat)
    requires Inv(c, live) && g in live
    ensures Pool(c.freeGroup + [g], (live - {g}).Keys, MAX_GROUP_NUM)
    ensures NodesApart(live - {g}) && Pool(c.freeNode + live[g].nodes, NodesOf(live - {g}), MAX_WORKER_NUM)
  {
    hide MemInv, RecirInv, TablesInv, UndoInv;
    assert g in live.Keys;
    PoolReturn(c.freeGroup, live.Keys, MAX_GROUP_NUM, [g]);
    assert live.Keys - SetOf([g]) == (live - {g}).Keys;
    NodesDestroy(live, g);
    PoolReturn(c.freeNode, NodesOf(live), MAX_WORKER_NUM, live[g].nodes);
  }

  lemma UndoDestroy(undo: map<nat, seq<Undo>>, live: Lives, g: nat)
    requires UndoInv(undo, live)
    ensures UndoInv(undo - {g}, live - {g})
  {
    hide UndoList;
  }

  lemma DestroyedKeeps(c: Ctl, live: Lives, d: Ctl, g: nat, ms: seq<Seg>)
    requires Inv(c, live) && g in live && DestroyedAs(c, d, g, live[g], ms) && MemInv(ms, live - {g})
    ensures Inv(d, live - {g})
  {
    hide MemInv, Pool, RecirInv, UndoInv, TablesInv, NodesApart, DestroyedTables, NodesOf;
    DestroyIds(c, live, g);
    RecirDestroy(c.recir, live, g);
    TablesDestroy(c.tables, c.ports, live, g);
    UndoDestroy(c.undo, live, g);
  }

  lemma LiveParts(c: Ctl, live: Lives, g: nat)
    requires Inv(c, live)
    ensures !c.dead
    ensures g in live <==> g in c.undo
    ensures g in live ==> c.undo[g] == UndoList(g, live[g]) && live[g].idx < |c.recir| && MemInv(c.memseg, live)
  {
    hide MemInv, Pool, TablesInv, NodesApart, UndoList;
  }

  lemma DestroyKeeps(c: Ctl, live: Lives, g: nat)
    requires Inv(c, live)
    ensures Inv(Destroy(c, g), live - {g})
  {
    hide MemInv, Inv, FreeSeg, UndoList, DestroyedAs, ExecBack;
    LiveParts(c, live, g);
    if g in live {
      MemDestroy(c.memseg, live, g);
      DestroyFields(c, g, live[g]);
      DestroyedKeeps(c, live, Destroy(c, g), g, FreeSeg(c.memseg, live[g].lo, live[g].lo + ALLOC_SIZE).value);
    } else {
      assert live - {g} == live;
    }
  }

  // ----- runs -----

  datatype Request = CreateGroup(members: seq<Member>) | DestroyGroup(g: nat) | Init

  function Run(ports: seq<nat>, rs: seq<Request>): (Ctl, Lives)
    requires ports != []
    ensures Inv(Run(ports, rs).0, Run(ports, rs).1)
    decreases |rs|
  {
    if rs == [] then FreshInv(ports); (Fresh(ports), map[])
    else
      var (c, live) := Run(ports, rs[..|rs| - 1]);
      match rs[|rs| - 1]
      case CreateGroup(ms) => CreateKeeps(c, live, ms); (Create(c, ms), Added(live, c, ms))
      case DestroyGroup(g) => DestroyKeeps(c, live, g); (Destroy(c, g), live - {g})
      case Init => FreshInv(c.ports); (Fresh(c.ports), map[])
  }

  // ----- what every run of requests guarantees -----

  lemma {:induction false} NoDupSize(s: seq<nat>)
    requires NoDup(s)
    ensures |SetOf(s)| == |s|
  {
    if s != [] {
      var i := |s| - 1;
      NoDupSize(s[..i]);
      assert SetOf(s) == SetOf(s[..i]) + {s[i]};
    }
  }

  predicate Between(lo: nat, n: nat, hi: nat) {
    lo <= n < hi
  }

  function Numbers(lo: nat, hi: nat): set<nat> {
    set n: nat | n < hi && Between(lo, n, hi)
  }

  lemma {:induction false} NumbersCount(lo: nat, hi: nat)
    requires lo <= hi
    ensures |Numbers(lo, hi)| == hi - lo
    decreases hi
  {
    if lo < hi {
      NumbersCount(lo, hi - 1);
      forall n ensures n in Numbers(lo, hi) <==> n in Numbers(lo, hi - 1) + {hi - 1} {
        assert Between(lo, n, hi) <==> Between(lo, n, hi - 1) || n == hi - 1;
      }
      assert Numbers(lo, hi) == Numbers(lo, hi - 1) + {hi - 1};
    } else {
      assert Numbers(lo, hi) == {};
    }
  }

  /** Conservation: nothing of a pool is ever lost or doubled. */
  lemma PoolCount(free: seq<nat>, taken: set<nat>, hi: nat)
    requires Pool(free, taken, hi) && hi > 0
    ensures |free| + |taken| == hi - 1
  {
    NoDupSize(free);
    NumbersCount(1, hi);
    forall n: nat ensures n in Numbers(1, hi) <==> n in SetOf(free) + taken {
      assert Between(1, n, hi) <==> 1 <= n < hi;
    }
    assert SetOf(free) + taken == Numbers(1, hi);
    assert SetOf(free) !! taken;
  }

  /** Number of blocks the switch memory is divided into. */
  const BLOCKS: nat := SWITCH_MEM_SIZE / ALLOC_SIZE

  function BlockOf(l: Live): nat {
    l.lo / ALLOC_SIZE
  }

  function Blocks(live: Lives): set<nat> {
    set g | g in live :: BlockOf(live[g])
  }

  lemma {:induction false} BlocksCount(live: Lives)
    requires forall g, h :: g in live && h in live && g != h ==> BlockOf(live[g]) != BlockOf(live[h])
    ensures |Blocks(live)| == |live|
    decreases |live|
  {
    if live != map[] {
      var g :| g in live;
      var rest := live - {g};
      assert rest.Keys == live.Keys - {g};
      hide BlockOf;
      BlocksCount(rest);
      forall n ensures n in Blocks(live) <==> n in Blocks(rest) + {BlockOf(live[g])} {
        if n in Blocks(live) {
          var h :| h in live && n == BlockOf(live[h]);
          assert h != g ==> h in rest && rest[h] == live[h];
        }
        if n in Blocks(rest) {
          var h :| h in rest && n == BlockOf(rest[h]);
          assert h in live && live[h] == rest[h];
        }
      }
      assert Blocks(live) == Blocks(rest) + {BlockOf(live[g])};
      assert |rest| == |live| - 1;
    }
  }

  lemma BlockBounds(l: Live, a: nat)
    requires l.lo % ALLOC_SIZE == 0
    ensures Holds(l, a) <==> a / ALLOC_SIZE == BlockOf(l)
    ensures l.lo + ALLOC_SIZE <= SWITCH_MEM_SIZE <==> BlockOf(l) < BLOCKS
  {}

  /** Memory runs out exactly when sixteen groups are live. */
  lemma BlocksLeft(ms: seq<Seg>, live: Lives)
    requires MemInv(ms, live)
    ensures |live| <= BLOCKS
    ensures (exists a :: Covers(ms, a)) <==> |live| < BLOCKS
  {
    hide Covers, Ordered, AlignedTo, Overlaps, Holds, MemInv;
    BlocksDistinct(ms, live);
    BlocksCount(live);
    NumbersCount(0, BLOCKS);
    var all := Numbers(0, BLOCKS);
    forall n | n in Blocks(live) ensures n in all { assert Between(0, n, BLOCKS); }
    SubsetSize(Blocks(live), all);
    if a: int :| Covers(ms, a) {
      FreeBlock(ms, live, a);
      assert Between(0, a / ALLOC_SIZE, BLOCKS);
      assert a / ALLOC_SIZE in all;
    }
    if |live| < BLOCKS {
      assert Blocks(live) != all;
      var n :| n in all && n !in Blocks(live);
      assert Between(0, n, BLOCKS);
      UnusedBlock(ms, live, n);
    }
  }

  lemma BlocksDistinct(ms: seq<Seg>, live: Lives)
    requires MemInv(ms, live)
    ensures forall g :: g in live ==> BlockOf(live[g]) < BLOCKS && live[g].lo % ALLOC_SIZE == 0
    ensures forall g, h :: g in live && h in live && g != h ==> BlockOf(live[g]) != BlockOf(live[h])
  {
    hide Covers, Ordered, AlignedTo, Overlaps, Holds;
    forall g | g in live ensures BlockOf(live[g]) < BLOCKS { BlockBounds(live[g], 0); }
    forall g, h | g in live && h in live && g != h ensures BlockOf(live[g]) != BlockOf(live[h]) {
      var x, y := live[g].lo, live[h].lo;
      assert x % ALLOC_SIZE == 0 && y % ALLOC_SIZE == 0 && x != y;
    }
  }

  lemma SubsetSize(a: set<nat>, b: set<nat>)
    requires a <= b
    ensures |a| <= |b| && (|a| == |b| ==> a == b)
  {
    assert b == a + (b - a);
    if |a| == |b| { assert b - a == {}; }
  }

  lemma FreeBlock(ms: seq<Seg>, live: Lives, a: int)
    requires MemInv(ms, live) && Covers(ms, a)
    ensures 0 <= a < SWITCH_MEM_SIZE && a / ALLOC_SIZE < BLOCKS && a / ALLOC_SIZE !in Blocks(live)
  {
    var n := a / ALLOC_SIZE;
    forall g | g in live ensures BlockOf(live[g]) != n {
      BlockBounds(live[g], a);
      assert !Overlaps(ms, live[g].lo, live[g].lo + ALLOC_SIZE);
    }
  }

  lemma UnusedBlock(ms: seq<Seg>, live: Lives, n: nat)
    requires MemInv(ms, live) && n < BLOCKS && n !in Blocks(live)
    ensures Covers(ms, n * ALLOC_SIZE)
  {
    var a := n * ALLOC_SIZE;
    hide Ordered, AlignedTo, Overlaps, Covers, Holds;
    assert Covers(ms, a) || exists g :: g in live && Holds(live[g], a);
    hide MemInv;
    forall g | g in live ensures !Holds(live[g], a) {
      assert BlockOf(live[g]) in Blocks(live);
      BlockBounds(live[g], a);
    }
  }

  /** After any run, a request for a group is refused exactly when sixteen groups are live or too few
      multicast nodes are left: group numbers never run out, and neither does memory by fragmentation. */
  lemma GrantedIff(ports: seq<nat>, rs: seq<Request>, members: seq<Member>)
    requires ports != []
    ensures var (c, live) := Run(ports, rs);
      Offer(c, members).Some? <==> |live| < BLOCKS && |NodesOf(live)| + |members| < MAX_WORKER_NUM
  {
    hide MemInv, Pool, RecirInv, UndoInv, TablesInv, NodesApart, NodesOf, Offer, Run;
    var (c, live) := Run(ports, rs);
    OfferFacts(c, live, members);
    PoolCount(c.freeGroup, live.Keys, MAX_GROUP_NUM);
    PoolCount(c.freeNode, NodesOf(live), MAX_WORKER_NUM);
    BlocksLeft(c.memseg, live);
  }

  /** The aggregators of a group, as the response announces them: 1024 of them from here. */
  function AggAddr(l: Live): nat {
    l.lo / MTU_SIZE
  }

  const AGG_LEN: nat := ALLOC_SIZE / MTU_SIZE

  /** The aggregators that a group is told of are exactly those in its memory, one for each packet's bytes. */
  lemma AggregatorsAreMemory(ports: seq<nat>, rs: seq<Request>, g: nat, a: nat)
    requires ports != [] && g in Run(ports, rs).1
    ensures var l := Run(ports, rs).1[g];
      AggAddr(l) <= a < AggAddr(l) + AGG_LEN <==> forall x :: a * MTU_SIZE <= x < a * MTU_SIZE + MTU_SIZE ==> Holds(l, x)
  {
    hide Run, RecirInv, UndoInv, TablesInv, MemInv, Pool;
    var (c, live) := Run(ports, rs);
    BlocksDistinct(c.memseg, live);
    var l := live[g];
    assert l.lo == AggAddr(l) * MTU_SIZE;
    if AggAddr(l) <= a < AggAddr(l) + AGG_LEN {
      forall x | a * MTU_SIZE <= x < a * MTU_SIZE + MTU_SIZE ensures Holds(l, x) {}
    } else {
      assert !Holds(l, a * MTU_SIZE);
    }
  }

  /** Live groups never share an aggregator, a node or a number, after any run. */
  lemma LiveGroupsApart(ports: seq<nat>, rs: seq<Request>, g: nat, h: nat)
    requires ports != []
    requires g in Run(ports, rs).1 && h in Run(ports, rs).1 && g != h
    ensures var (c, live) := Run(ports, rs);
      && (AggAddr(live[g]) + AGG_LEN <= AggAddr(live[h]) || AggAddr(live[h]) + AGG_LEN <= AggAddr(live[g]))
      && AggAddr(live[g]) + AGG_LEN <= SWITCH_MEM_SIZE / MTU_SIZE
      && SetOf(live[g].nodes) !! SetOf(live[h].nodes)
      && g !in c.freeGroup && 1 <= g < MAX_GROUP_NUM
  {
    hide Run, RecirInv, UndoInv, TablesInv, Holds, MemInv;
    var (c, live) := Run(ports, rs);
    BlocksDistinct(c.memseg, live);
    hide Pool;
    BlockBounds(live[g], 0);
    assert g in live.Keys;
    forall n | n in SetOf(live[g].nodes) ensures n !in SetOf(live[h].nodes) {}
  }

  /** A created group's destruction is an exact undo, whatever happened in between: all of its
      resources, and only those, go back. */
  lemma DestroyReturnsExactly(ports: seq<nat>, rs: seq<Request>, g: nat)
    requires ports != [] && g in Run(ports, rs).1
    ensures var (c, live) := Run(ports, rs); var d := Destroy(c, g);
      && !d.dead
      && d.freeGroup == c.freeGroup + [g]
      && d.freeNode == c.freeNode + live[g].nodes
      && (forall a :: Covers(d.memseg, a) <==> Covers(c.memseg, a) || Holds(live[g], a))
      && |d.recir| == |c.recir|
      && (forall i :: 0 <= i < |c.recir| ==> d.recir[i] == c.recir[i] - (if i == live[g].idx then 1 else 0))
      && d.tables == DestroyedTables(c.tables, g, live[g])
      && d.undo == c.undo - {g}
  {
    hide Run, Inv, UndoList, ExecBack, FreeSeg, Ordered, AlignedTo, Covers, Destroy;
    var (c, live) := Run(ports, rs);
    var l := live[g];
    LiveParts(c, live, g);
    FreeKeeps(c.memseg, l.lo, l.lo + ALLOC_SIZE, ALLOC_SIZE);
    DestroyFields(c, g, l);
  }
}
