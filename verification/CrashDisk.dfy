/** One directory of a disk that can lose power: directory operations and file data become durable
    separately. A crash keeps an arbitrary subset of the directory operations not yet flushed, and
    leaves arbitrary bytes in every file whose data was not flushed. */
module CrashDisk {

  type Inode = nat

  datatype DirOp<N> = Bind(name: N, inode: Inode) | Unbind(name: N) | Move(from: N, target: N, inode: Inode)

  function Apply<N(==)>(dir: map<N, Inode>, op: DirOp<N>): map<N, Inode> {
    match op
    case Bind(n, i) => dir[n := i]
    case Unbind(n) => dir - {n}
    case Move(from, target, i) => (dir - {from})[target := i]
  }

  function ApplyAll<N(==)>(dir: map<N, Inode>, ops: seq<DirOp<N>>): map<N, Inode> {
    if ops == [] then dir else Apply(ApplyAll(dir, ops[..|ops| - 1]), ops[|ops| - 1])
  }

  /** The operations a crash keeps. */
  function Kept<N>(ops: seq<DirOp<N>>, keep: set<nat>): seq<DirOp<N>> {
    if ops == [] then []
    else
      var n := |ops| - 1;
      Kept(ops[..n], keep) + if n in keep then [ops[n]] else []
  }

  /** `dir` is what is durable, `pending` what is not yet; `synced` are the files whose data is durable. */
  datatype Disk<N(==), D> = Disk(
    dir: map<N, Inode>, pending: seq<DirOp<N>>, data: map<Inode, D>, synced: set<Inode>, next: Inode)
  {
    /** What a running process sees. */
    function Live(): map<N, Inode> {
      ApplyAll(dir, pending)
    }

    /** A directory that a power loss may leave: one for every choice of the operations kept. */
    function Outcome(keep: set<nat>): map<N, Inode> {
      ApplyAll(dir, Kept(pending, keep))
    }

    /** Every name leads to data, and the next inode is new. */
    ghost predicate WellFormed() {
      && (forall n <- dir :: dir[n] in data)
      && (forall op <- pending :: !op.Unbind? ==> op.inode in data)
      && (forall i <- data :: i < next)
      && synced <= data.Keys
    }

    /** `open(…, 'wx')` and a write: a new name with unflushed data. */
    function Create(n: N, content: D): Disk<N, D> {
      Disk(dir, pending + [Bind(n, next)], data[next := content], synced - {next}, next + 1)
    }

    /** A write over the data of an existing name. */
    function Overwrite(n: N, content: D): Disk<N, D>
      requires n in Live()
    {
      this.(data := data[Live()[n] := content], synced := synced - {Live()[n]})
    }

    function FsyncFile(n: N): Disk<N, D>
      requires n in Live()
    {
      this.(synced := synced + {Live()[n]})
    }

    function Unlink(n: N): Disk<N, D> {
      if n in Live() then this.(pending := pending + [Unbind(n)]) else this
    }

    function Link(from: N, target: N): Disk<N, D>
      requires from in Live() && target !in Live()
    {
      this.(pending := pending + [Bind(target, Live()[from])])
    }

    function Rename(from: N, target: N): Disk<N, D>
      requires from in Live()
    {
      this.(pending := pending + [Move(from, target, Live()[from])])
    }

    function FsyncDir(): Disk<N, D> {
      this.(dir := Live(), pending := [])
    }

    /** The disk after a power loss: what survives is durable. */
    function Crash(keep: set<nat>, garbage: map<Inode, D>): Disk<N, D> {
      this.(dir := Outcome(keep), pending := [],
            data := map i <- data :: if i !in synced && i in garbage then garbage[i] else data[i],
            synced := data.Keys)
    }
  }

  predicate Touches<N(==)>(op: DirOp<N>, n: N) {
    match op
    case Bind(m, _) => m == n
    case Unbind(m) => m == n
    case Move(from, target, _) => from == n || target == n
  }

  predicate SameBinding<N(==)>(a: map<N, Inode>, b: map<N, Inode>, n: N) {
    (n in a <==> n in b) && (n in a ==> a[n] == b[n])
  }

  lemma {:induction false} KeptAreOps<N>(ops: seq<DirOp<N>>, keep: set<nat>)
    ensures forall op <- Kept(ops, keep) :: op in ops
  {
    if ops != [] {
      var n := |ops| - 1;
      KeptAreOps(ops[..n], keep);
      assert ops[..n] <= ops;
    }
  }

  /** Operations that do not touch a name leave its binding alone. */
  lemma {:induction false} UntouchedStays<N>(dir: map<N, Inode>, ops: seq<DirOp<N>>, n: N)
    requires forall op <- ops :: !Touches(op, n)
    ensures SameBinding(dir, ApplyAll(dir, ops), n)
  {
    if ops != [] {
      UntouchedStays(dir, ops[..|ops| - 1], n);
      assert ops[|ops| - 1] in ops;
    }
  }

  /** Whatever a crash keeps, an untouched name keeps its binding. */
  lemma UntouchedSurvives<N>(dir: map<N, Inode>, ops: seq<DirOp<N>>, keep: set<nat>, n: N)
    requires forall op <- ops :: !Touches(op, n)
    ensures SameBinding(dir, ApplyAll(dir, Kept(ops, keep)), n)
  {
    KeptAreOps(ops, keep);
    UntouchedStays(dir, Kept(ops, keep), n);
  }

  /** Every binding comes from the directory or from an operation. */
  lemma {:induction false} BindingsHaveASource<N>(dir: map<N, Inode>, ops: seq<DirOp<N>>, n: N)
    requires n in ApplyAll(dir, ops)
    ensures (n in dir && ApplyAll(dir, ops)[n] == dir[n])
      || exists op <- ops :: !op.Unbind? && op.inode == ApplyAll(dir, ops)[n] && Touches(op, n)
  {
    if ops != [] {
      var k := |ops| - 1;
      var op := ops[k];
      assert op in ops;
      if op.Unbind? || (op.Bind? && op.name != n) || (op.Move? && op.target != n) {
        BindingsHaveASource(dir, ops[..k], n);
        var before := ApplyAll(dir, ops[..k]);
        if source :| source in ops[..k] && !source.Unbind? && source.inode == before[n] && Touches(source, n) {
          assert source in ops;
        }
      }
    }
  }

  lemma LiveHasData<N, D>(d: Disk<N, D>)
    requires d.WellFormed()
    ensures forall n <- d.Live() :: d.Live()[n] in d.data
  {
    forall n <- d.Live() ensures d.Live()[n] in d.data { BindingsHaveASource(d.dir, d.pending, n); }
  }

  lemma CrashIsWellFormed<N, D>(d: Disk<N, D>, keep: set<nat>, garbage: map<Inode, D>)
    requires d.WellFormed()
    ensures d.Crash(keep, garbage).WellFormed()
  {
    var c := d.Crash(keep, garbage);
    forall n <- c.dir ensures c.dir[n] in c.data {
      BindingsHaveASource(d.dir, Kept(d.pending, keep), n);
      KeptAreOps(d.pending, keep);
    }
  }

  lemma AppendOp<N>(dir: map<N, Inode>, ops: seq<DirOp<N>>, op: DirOp<N>)
    ensures ApplyAll(dir, ops + [op]) == Apply(ApplyAll(dir, ops), op)
  {
    assert (ops + [op])[..|ops|] == ops;
  }

  lemma NothingPending<N, D>(d: Disk<N, D>, keep: set<nat>)
    requires d.pending == []
    ensures d.Outcome(keep) == d.dir == d.Live()
  {
  }

  /** One more operation: each outcome is an old one, with the operation or without. */
  lemma OutcomeAfter<N, D>(d: Disk<N, D>, e: Disk<N, D>, op: DirOp<N>, keep: set<nat>)
    requires e.dir == d.dir && e.pending == d.pending + [op]
    ensures e.Outcome(keep) == if |d.pending| in keep then Apply(d.Outcome(keep), op) else d.Outcome(keep)
  {
    assert (d.pending + [op])[..|d.pending|] == d.pending;
    if |d.pending| in keep {
      AppendOp(d.dir, Kept(d.pending, keep), op);
    } else {
      assert Kept(d.pending, keep) + [] == Kept(d.pending, keep);
    }
  }

  lemma {:induction false} AllKept<N>(ops: seq<DirOp<N>>, keep: set<nat>)
    requires forall i: nat | i < |ops| :: i in keep
    ensures Kept(ops, keep) == ops
  {
    if ops != [] { AllKept(ops[..|ops| - 1], keep); }
  }

  function UpTo(n: nat): (s: set<nat>)
    ensures forall i: nat :: i in s <==> i < n
  {
    if n == 0 then {} else UpTo(n - 1) + {n - 1}
  }

  /** What a running process sees is one of the outcomes. */
  lemma LiveIsOutcome<N, D>(d: Disk<N, D>) returns (keep: set<nat>)
    ensures d.Outcome(keep) == d.Live()
  {
    keep := UpTo(|d.pending|);
    AllKept(d.pending, keep);
  }

  lemma OutcomeHasData<N, D>(d: Disk<N, D>, keep: set<nat>)
    requires d.WellFormed()
    ensures forall n <- d.Outcome(keep) :: d.Outcome(keep)[n] in d.data
  {
    CrashIsWellFormed(d, keep, map[]);
  }
}
