/** The controller as the source writes it (switch/bfrt_grpc.py:67-229): one object whose lists and
    maps its methods edit in place. Each method is proved to take the step that `Groups` describes, so
    everything in `GroupRuns` holds of it. */
module Controllers {
  import opened NetCommon
  import opened Segments
  import opened Groups
  import opened GroupRuns

  /** What a creation answers; group 0 is the null group. */
  datatype Response = Response(group: nat, aggAddr: nat, aggLen: nat)

  class Controller {
    const ports: seq<nat>
    var memseg: seq<Seg>
    var freeGroup: seq<nat>
    var freeNode: seq<nat>
    var recir: seq<int>
    var undo: map<nat, seq<Undo>>
    var tables: Tables
    var dead: bool
    ghost var live: Lives

    ghost function View(): Ctl
      reads this
    {
      Ctl(ports, memseg, freeGroup, freeNode, recir, undo, tables, dead)
    }

    ghost predicate Valid()
      reads this
    {
      Inv(View(), live)
    }

    constructor (ps: seq<nat>)
      requires ps != []
      ensures Valid() && View() == Fresh(ps) && live == map[]
    {
      ports := ps;
      new;
      Reinit();
    }

    method Reinit()
      requires ports != []
      modifies this
      ensures Valid() && View() == Fresh(ports) && live == map[]
    {
      freeGroup := UpTo(1, MAX_GROUP_NUM);
      freeNode := UpTo(1, MAX_WORKER_NUM);
      recir := seq(|ports|, _ => 0);
      undo := map[];
      memseg := [Seg(0, SWITCH_MEM_SIZE)];
      tables := Tables(map[], map[], map[], map[], map[]);
      dead := false;
      live := map[];
      FreshInv(ports);
    }

    /** Index of the least used recirculation port. */
    method SelectRecir() returns (k: nat)
      requires recir != []
      ensures k == MinIndex(recir)
    {
      k := 0;
      var i := 1;
      while i < |recir|
        invariant 1 <= i <= |recir| && k < i
        invariant k == MinIndex(recir[..i])
      {
        assert recir[..i + 1][..i] == recir[..i];
        if recir[i] < recir[k] { k := i; }
        i := i + 1;
      }
      assert recir[..i] == recir;
    }

    method Fit(size: nat) returns (r: Fit)
      requires size > 0
      ensures r == FitSeg(memseg, size)
    {
      if size % MTU_SIZE != 0 || !IsPower2(size / MTU_SIZE) { return Invalid; }
      var i := 0;
      while i < |memseg|
        invariant 0 <= i <= |memseg|
        invariant FirstFit(memseg, size, 0) == FirstFit(memseg, size, i)
      {
        var addr := AddrInSeg(memseg[i], size);
        if addr.Some? { return Found(i, addr.value); }
        i := i + 1;
      }
      r := NoFit;
    }

    /** Take lo..hi out of the segment at `index`. */
    method Alloc(index: nat, lo: nat, hi: nat)
      requires index < |memseg|
      modifies `memseg
      ensures memseg == AllocSeg(old(memseg), index, lo, hi)
    {
      var seg := memseg[index];
      memseg := memseg[..index] + memseg[index + 1..];
      if seg.hi != hi { memseg := memseg[..index] + [Seg(hi, seg.hi)] + memseg[index..]; }
      if seg.lo != lo { memseg := memseg[..index] + [Seg(seg.lo, lo)] + memseg[index..]; }
    }

    /** Put lo..hi back, joining it to its neighbours as the source does. */
    method Free(lo: nat, hi: nat)
      modifies `memseg, `dead
      ensures match FreeSeg(old(memseg), lo, hi)
        case None => dead && memseg == old(memseg)
        case Some(ms) => dead == old(dead) && memseg == ms
    {
      var r := FirstEndingAfter(lo);
      hide FirstAfter;
      if r < |memseg| && memseg[r].lo < hi {
        dead := true;
        return;
      }
      var at, x, y := r, lo, hi;
      ghost var was := memseg;
      ghost var left := r > 0 && was[r - 1].hi == lo;
      if r >= 1 && memseg[r - 1].hi == x {
        x := memseg[r - 1].lo;
        at := r - 1;
        memseg := memseg[..at] + memseg[r..];
      }
      ghost var one := if left then was[..r - 1] + was[r..] else was;
      assert memseg == one && x == (if left then was[r - 1].lo else lo) && at == (if left then r - 1 else r);
      if r < |memseg| && memseg[r].lo == y {
        y := memseg[r].hi;
        memseg := memseg[..r] + memseg[r + 1..];
      }
      memseg := memseg[..at] + [Seg(x, y)] + memseg[at..];
    }

    /** The loop at the head of a release. */
    method FirstEndingAfter(lo: nat) returns (r: nat)
      ensures r == FirstAfter(memseg, lo, 0)
    {
      r := 0;
      while r < |memseg| && memseg[r].hi <= lo
        invariant 0 <= r <= |memseg|
        invariant FirstAfter(memseg, lo, 0) == FirstAfter(memseg, lo, r)
      {
        r := r + 1;
      }
    }

    method Execute(u: Undo)
      modifies `memseg, `dead, `freeGroup, `freeNode, `recir, `tables
      ensures View() == Exec(old(View()), u)
    {
      match u
      case ReleaseSeg(lo, hi) => Free(lo, hi);
      case AppendGroup(g) => freeGroup := freeGroup + [g];
      case AddNodes(ns) => freeNode := freeNode + ns;
      case DecRecir(i) => if i < |recir| { recir := recir[i := recir[i] - 1]; }
      case DelRecirculate(g) => tables := tables.(recirculate := tables.recirculate - {g});
      case DelMetadata(g) => tables := tables.(metadata := tables.metadata - {g});
      case DelRestore(g, rank) => tables := tables.(restore := tables.restore - {(g, rank)});
      case DelNode(n) => tables := tables.(nodes := tables.nodes - {n});
      case DelMgid(g) => tables := tables.(mgids := tables.mgids - {g});
    }

    /** The loop over the members of a new group; `log` grows by the opposite of each write. */
    method AddAll(g: nat, ns: seq<nat>, members: seq<Member>, log: seq<Undo>) returns (r: seq<Undo>)
      requires |ns| == |members|
      modifies `tables
      ensures tables == AddMembers(old(tables), g, ns, members)
      ensures r == log + MemberUndo(g, ns)
    {
      r := log;
      var i := 0;
      while i < |ns|
        invariant 0 <= i <= |ns|
        invariant tables == AddMembers(old(tables), g, ns[..i], members)
        invariant r == log + MemberUndo(g, ns[..i])
      {
        assert ns[..i + 1][..i] == ns[..i];
        tables := tables.(restore := tables.restore[(g, i) := members[i].ip]);
        r := r + [DelRestore(g, i)];
        tables := tables.(nodes := tables.nodes[ns[i] := (i, members[i].port)]);
        r := r + [DelNode(ns[i])];
        i := i + 1;
      }
      assert ns[..|ns|] == ns;
    }

    /** The writes of a creation that come before the members, with their undo entries. */
    method Reserve(index: nat, l: Live) returns (g: nat, log: seq<Undo>)
      requires index < |memseg| && freeGroup != [] && |l.members| <= |freeNode|
      requires l.nodes == freeNode[..|l.members|] && l.idx < |recir| && l.idx < |ports|
      modifies `memseg, `freeGroup, `freeNode, `recir, `tables
      ensures g == old(freeGroup)[0] && log == UndoHead(g, l)
      ensures memseg == AllocSeg(old(memseg), index, l.lo, l.lo + ALLOC_SIZE)
      ensures freeGroup == old(freeGroup)[1..] && freeNode == old(freeNode)[|l.members|..]
      ensures recir == old(recir)[l.idx := old(recir)[l.idx] + 1]
      ensures tables == old(tables).(recirculate := old(tables).recirculate[g := ports[l.idx]],
                                     metadata := old(tables).metadata[g := |l.members|])
    {
      Alloc(index, l.lo, l.lo + ALLOC_SIZE);
      log := [] + [ReleaseSeg(l.lo, l.lo + ALLOC_SIZE)];
      g := freeGroup[0];
      freeGroup := freeGroup[1..];
      log := log + [AppendGroup(g)];
      freeNode := freeNode[|l.members|..];
      log := log + [AddNodes(l.nodes)];
      recir := recir[l.idx := recir[l.idx] + 1];
      log := log + [DecRecir(l.idx)];
      tables := tables.(recirculate := tables.recirculate[g := ports[l.idx]]);
      log := log + [DelRecirculate(g)];
      tables := tables.(metadata := tables.metadata[g := |l.members|]);
      log := log + [DelMetadata(g)];
    }

    method CreateGroup(members: seq<Member>) returns (r: Response)
      requires Valid()
      modifies this
      ensures Valid() && View() == Create(old(View()), members) && live == Added(old(live), old(View()), members)
      ensures r == match Offer(old(View()), members)
        case None => Response(0, 0, 0)
        case Some((g, l)) => Response(g, AggAddr(l), AGG_LEN)
    {
      hide Inv, FitSeg, AllocSeg, UndoHead, MemberUndo, AddMembers, MinIndex;
      ghost var c := View();
      Sizes();
      CreateKeeps(c, live, members);
      var fit := Fit(ALLOC_SIZE);
      if |freeGroup| < 1 || |freeNode| < |members| || !fit.Found? || fit.addr < 0 {
        return Response(0, 0, 0);
      }
      OfferFacts(c, live, members);
      var idx := SelectRecir();
      var l := Live(fit.addr, freeNode[..|members|], idx, members);
      var g, log := Reserve(fit.index, l);
      log := AddAll(g, l.nodes, members, log);
      tables := tables.(mgids := tables.mgids[g := l.nodes]);
      log := log + [DelMgid(g)];
      undo := undo[g := log];
      live := Added(live, c, members);
      r := Response(g, AggAddr(l), AGG_LEN);
    }

    lemma Sizes()
      requires Valid()
      ensures recir != [] && |recir| == |ports|
    {
      hide MemInv, Pool, RecirInv, UndoInv, TablesInv, NodesApart;
    }

    method DestroyGroup(g: nat)
      requires Valid()
      modifies this
      ensures Valid() && View() == Destroy(old(View()), g) && live == old(live) - {g}
    {
      hide Inv, Exec;
      ghost var c := View();
      DestroyKeeps(c, live, g);
      live := live - {g};
      if g !in undo { return; }
      var log := undo[g];
      var i := |log|;
      assert log[..i] == log;
      while i > 0
        invariant 0 <= i <= |log| && undo == old(undo) && live == old(live) - {g}
        invariant ExecBack(View(), log[..i]) == ExecBack(c, log)
      {
        assert log[..i][..i - 1] == log[..i - 1];
        Execute(log[i - 1]);
        i := i - 1;
      }
      undo := undo - {g};
    }
  }
}
