/** Group creation and destruction with an undo log (switch/bfrt_grpc.py:67-76, 97-98, 145-229).
    The strings that the source executes are constructors of `Undo`, the switch tables are maps. */
module Groups {
  import opened NetCommon
  import opened Segments

  const MAX_GROUP_NUM: nat := 256
  const MAX_WORKER_NUM: nat := 1024

  /** A member with the switch port that its address maps to. */
  datatype Member = Member(ip: nat, port: nat)

  datatype Undo =
    | ReleaseSeg(lo: nat, hi: nat)
    | AppendGroup(g: nat)
    | AddNodes(ns: seq<nat>)
    | DecRecir(i: nat)
    | DelRecirculate(g: nat)
    | DelMetadata(g: nat)
    | DelRestore(g: nat, rank: nat)
    | DelNode(n: nat)
    | DelMgid(g: nat)

  datatype Tables = Tables(
    recirculate: map<nat, nat>, metadata: map<nat, nat>, restore: map<(nat, nat), nat>,
    nodes: map<nat, (nat, nat)>, mgids: map<nat, seq<nat>>)

  /** `dead` means that a release failed and the source called exit. */
  datatype Ctl = Ctl(
    ports: seq<nat>, memseg: seq<Seg>, freeGroup: seq<nat>, freeNode: seq<nat>, recir: seq<int>,
    undo: map<nat, seq<Undo>>, tables: Tables, dead: bool)

  /** Numbers lo..hi in ascending order. */
  function UpTo(lo: nat, hi: nat): (r: seq<nat>)
    requires lo <= hi
    ensures |r| == hi - lo
    ensures forall i :: 0 <= i < |r| ==> r[i] == lo + i
  {
    seq(hi - lo, i requires 0 <= i < hi - lo => lo + i)
  }

  function Fresh(ports: seq<nat>): Ctl {
    Ctl(ports, [Seg(0, SWITCH_MEM_SIZE)], UpTo(1, MAX_GROUP_NUM), UpTo(1, MAX_WORKER_NUM),
        seq(|ports|, _ => 0), map[], Tables(map[], map[], map[], map[], map[]), false)
  }

  /** Index of the first smallest element. */
  function MinIndex(s: seq<int>): (k: nat)
    requires s != []
    ensures k < |s|
    ensures forall i :: 0 <= i < |s| ==> s[k] <= s[i]
    ensures forall i :: 0 <= i < k ==> s[k] < s[i]
  {
    if |s| == 1 then 0
    else
      var k := MinIndex(s[..|s| - 1]);
      if s[|s| - 1] < s[k] then |s| - 1 else k
  }

  /** What a live group holds. */
  datatype Live = Live(lo: nat, nodes: seq<nat>, idx: nat, members: seq<Member>)

  function MemberUndo(g: nat, ns: seq<nat>): seq<Undo> {
    if ns == [] then []
    else MemberUndo(g, ns[..|ns| - 1]) + [DelRestore(g, |ns| - 1)] + [DelNode(ns[|ns| - 1])]
  }

  function UndoHead(g: nat, l: Live): seq<Undo> {
    [] + [ReleaseSeg(l.lo, l.lo + ALLOC_SIZE)] + [AppendGroup(g)] + [AddNodes(l.nodes)] + [DecRecir(l.idx)]
    + [DelRecirculate(g)] + [DelMetadata(g)]
  }

  function UndoList(g: nat, l: Live): seq<Undo> {
    UndoHead(g, l) + MemberUndo(g, l.nodes) + [DelMgid(g)]
  }

  function AddMembers(t: Tables, g: nat, ns: seq<nat>, ms: seq<Member>): Tables
    requires |ns| <= |ms|
  {
    if ns == [] then t
    else
      var i := |ns| - 1;
      var u := AddMembers(t, g, ns[..i], ms);
      u.(restore := u.restore[(g, i) := ms[i].ip], nodes := u.nodes[ns[i] := (i, ms[i].port)])
  }

  /** What CreateGroup takes for a new group, if there are resources. */
  function Offer(c: Ctl, members: seq<Member>): Option<(nat, Live)>
    requires c.recir != []
  {
    match FitSeg(c.memseg, ALLOC_SIZE)
    case Found(index, addr) =>
      if |c.freeGroup| < 1 || |c.freeNode| < |members| || addr < 0 then None
      else Some((c.freeGroup[0], Live(addr, c.freeNode[..|members|], MinIndex(c.recir), members)))
    case _ => None
  }

  function FitIndex(c: Ctl): nat {
    match FitSeg(c.memseg, ALLOC_SIZE) case Found(index, _) => index case _ => 0
  }

  function Create(c: Ctl, members: seq<Member>): Ctl
    requires c.recir != [] && |c.ports| == |c.recir|
  {
    match Offer(c, members)
    case None => c
    case Some((g, l)) =>
      if FitIndex(c) >= |c.memseg| then c
      else
        var t := AddMembers(c.tables.(recirculate := c.tables.recirculate[g := c.ports[l.idx]],
                                      metadata := c.tables.metadata[g := |members|]), g, l.nodes, members);
        c.(memseg := AllocSeg(c.memseg, FitIndex(c), l.lo, l.lo + ALLOC_SIZE),
           freeGroup := c.freeGroup[1..],
           freeNode := c.freeNode[|members|..],
           recir := c.recir[l.idx := c.recir[l.idx] + 1],
           tables := t.(mgids := t.mgids[g := l.nodes]),
           undo := c.undo[g := UndoList(g, l)])
  }

  function Exec(c: Ctl, u: Undo): Ctl {
    match u
    case ReleaseSeg(lo, hi) =>
      (match FreeSeg(c.memseg, lo, hi)
       case None => c.(dead := true)
       case Some(ms) => c.(memseg := ms))
    case AppendGroup(g) => c.(freeGroup := c.freeGroup + [g])
    case AddNodes(ns) => c.(freeNode := c.freeNode + ns)
    case DecRecir(i) => if i < |c.recir| then c.(recir := c.recir[i := c.recir[i] - 1]) else c
    case DelRecirculate(g) => c.(tables := c.tables.(recirculate := c.tables.recirculate - {g}))
    case DelMetadata(g) => c.(tables := c.tables.(metadata := c.tables.metadata - {g}))
    case DelRestore(g, rank) => c.(tables := c.tables.(restore := c.tables.restore - {(g, rank)}))
    case DelNode(n) => c.(tables := c.tables.(nodes := c.tables.nodes - {n}))
    case DelMgid(g) => c.(tables := c.tables.(mgids := c.tables.mgids - {g}))
  }

  /** Run an undo list from its end. */
  function ExecBack(c: Ctl, us: seq<Undo>): Ctl
    decreases |us|
  {
    if us == [] then c else ExecBack(Exec(c, us[|us| - 1]), us[..|us| - 1])
  }

  function Destroy(c: Ctl, g: nat): Ctl {
    if g !in c.undo then c
    else
      var d := ExecBack(c, c.undo[g]);
      d.(undo := d.undo - {g})
  }

  // ----- the undo list returns exactly the group's resources -----

  lemma {:induction false} ExecBackConcat(c: Ctl, a: seq<Undo>, b: seq<Undo>)
    ensures ExecBack(c, a + b) == ExecBack(ExecBack(c, b), a)
    decreases |b|
  {
    if b == [] {
      assert a + b == a;
    } else {
      assert (a + b)[..|a + b| - 1] == a + b[..|b| - 1];
      ExecBackConcat(Exec(c, b[|b| - 1]), a, b[..|b| - 1]);
    }
  }

  lemma Last(c: Ctl, us: seq<Undo>, u: Undo)
    ensures ExecBack(c, us + [u]) == ExecBack(Exec(c, u), us)
  {
    assert (us + [u])[..|us|] == us;
  }

  function Ranks(g: nat, n: nat): set<(nat, nat)> {
    set i: nat | i < n :: (g, i)
  }

  function SetOf(ns: seq<nat>): set<nat> {
    set n | n in ns
  }

  lemma {:induction false} MemberUndoRemoves(c: Ctl, g: nat, ns: seq<nat>)
    ensures ExecBack(c, MemberUndo(g, ns)) ==
      c.(tables := c.tables.(restore := c.tables.restore - Ranks(g, |ns|), nodes := c.tables.nodes - SetOf(ns)))
    decreases |ns|
  {
    var t := c.tables;
    if ns == [] {
      assert t.restore - Ranks(g, 0) == t.restore && t.nodes - SetOf(ns) == t.nodes;
    } else {
      var i := |ns| - 1;
      Last(c, MemberUndo(g, ns[..i]) + [DelRestore(g, i)], DelNode(ns[i]));
      var c1 := Exec(c, DelNode(ns[i]));
      Last(c1, MemberUndo(g, ns[..i]), DelRestore(g, i));
      var d := Exec(c1, DelRestore(g, i));
      MemberUndoRemoves(d, g, ns[..i]);
      hide ExecBack;
      WithoutLast(t, g, ns);
    }
  }

  lemma WithoutLast(t: Tables, g: nat, ns: seq<nat>)
    requires ns != []
    ensures var i := |ns| - 1;
      && t.restore - {(g, i)} - Ranks(g, i) == t.restore - Ranks(g, |ns|)
      && t.nodes - {ns[i]} - SetOf(ns[..i]) == t.nodes - SetOf(ns)
  {
    var i := |ns| - 1;
    assert Ranks(g, |ns|) == Ranks(g, i) + {(g, i)};
    assert SetOf(ns) == SetOf(ns[..i]) + {ns[i]};
  }

  /** The controller without group g's table entries, and with its resources back. */
  function Returned(c: Ctl, g: nat, l: Live, ms: seq<Seg>): Ctl
    requires l.idx < |c.recir|
  {
    var t := c.tables;
    c.(memseg := ms, freeGroup := c.freeGroup + [g], freeNode := c.freeNode + l.nodes,
       recir := c.recir[l.idx := c.recir[l.idx] - 1],
       tables := Tables(t.recirculate - {g}, t.metadata - {g}, t.restore - Ranks(g, |l.nodes|), t.nodes - SetOf(l.nodes), t.mgids - {g}))
  }

  lemma UndoReturns(c: Ctl, g: nat, l: Live)
    requires l.idx < |c.recir| && FreeSeg(c.memseg, l.lo, l.lo + ALLOC_SIZE).Some?
    ensures ExecBack(c, UndoList(g, l)) == Returned(c, g, l, FreeSeg(c.memseg, l.lo, l.lo + ALLOC_SIZE).value)
  {
    var t := c.tables;
    var head := UndoHead(g, l);
    Last(c, head + MemberUndo(g, l.nodes), DelMgid(g));
    var c1 := Exec(c, DelMgid(g));
    ExecBackConcat(c1, head, MemberUndo(g, l.nodes));
    MemberUndoRemoves(c1, g, l.nodes);
    hide FreeSeg, MemberUndo, ExecBack, SetOf, Ranks, UndoHead;
    HeadUndo(ExecBack(c1, MemberUndo(g, l.nodes)), g, l);
  }

  lemma HeadUndo(c: Ctl, g: nat, l: Live)
    requires l.idx < |c.recir| && FreeSeg(c.memseg, l.lo, l.lo + ALLOC_SIZE).Some?
    ensures ExecBack(c, UndoHead(g, l))
      == c.(memseg := FreeSeg(c.memseg, l.lo, l.lo + ALLOC_SIZE).value, freeGroup := c.freeGroup + [g], freeNode := c.freeNode + l.nodes,
            recir := c.recir[l.idx := c.recir[l.idx] - 1],
            tables := c.tables.(recirculate := c.tables.recirculate - {g}, metadata := c.tables.metadata - {g}))
  {
    HeadUndoSteps(c, g, l);
    hide ExecBack, FreeSeg;
  }

  lemma HeadUndoSteps(c: Ctl, g: nat, l: Live)
    ensures ExecBack(c, UndoHead(g, l)) ==
      Exec(Exec(Exec(Exec(Exec(Exec(c, DelMetadata(g)), DelRecirculate(g)), DecRecir(l.idx)), AddNodes(l.nodes)), AppendGroup(g)),
           ReleaseSeg(l.lo, l.lo + ALLOC_SIZE))
  {
    var a, b, d, e, f, h := ReleaseSeg(l.lo, l.lo + ALLOC_SIZE), AppendGroup(g), AddNodes(l.nodes), DecRecir(l.idx), DelRecirculate(g), DelMetadata(g);
    hide Exec, ExecBack;
    var c1 := Exec(c, h);
    Last(c, [] + [a] + [b] + [d] + [e] + [f], h);
    var c2 := Exec(c1, f);
    Last(c1, [] + [a] + [b] + [d] + [e], f);
    var c3 := Exec(c2, e);
    Last(c2, [] + [a] + [b] + [d], e);
    var c4 := Exec(c3, d);
    Last(c3, [] + [a] + [b], d);
    var c5 := Exec(c4, b);
    Last(c4, [] + [a], b);
    Last(c5, [], a);
    Nothing(Exec(c5, a));
  }

  lemma Nothing(c: Ctl)
    ensures ExecBack(c, []) == c
  {}
}
