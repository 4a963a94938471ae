// Every interleaving of settings being changed and the debounced writer: a
// wake-up is never lost, and what was marked before the writer's last check is
// in the last save it attempted.

module ConfigRuns {
  import opened ConfigStore

  /** A setter between its two locked sections, or between marking and signalling. */
  datatype Setter = Wrote(version: nat) | MarkedDirty

  /** Select, debounce window, draining signals, about to lock, about to lock for the last time, gone. */
  datatype Writer = AtSelect | InWindow | Draining | AtCheck | AtFinalCheck | Exited

  /**
   history lists the settings after every write, oldest first; a version counts
   writes. marked is the version when dirty was last set, attempted the version
   of the last save that was tried, saved of the last one that worked.
   */
  datatype System = System(
    shared: Shared, writer: Writer, setters: map<nat, Setter>, history: seq<Data>,
    marked: nat, attempted: nat, saved: nat, lastMarked: nat)

  function Version(s: System): nat
  {
    if s.history == [] then 0 else |s.history| - 1
  }

  datatype Op =
    | WriteOp(id: nat, data: Data)
    | MarkOp(id: nat)
    | SignalOp(id: nat)
    | StopOp
    | Receive
    | Timer
    | StopInWindow
    | Drain
    | Drained
    | Check(ok: bool)
    | StopSeen
    | FinalCheck(ok: bool)

  function Start(c: Cipher, disk: Data): System
  {
    var d := Opened(c, disk);
    System(Shared(d, false, false, false, disk), AtSelect, map[], [d], 0, 0, 0, 0)
  }

  function Flush(s: System, c: Cipher, ok: bool): System
  {
    if !s.shared.dirty then s
    else s.(shared := Flushed(s.shared, c, ok),
            attempted := Version(s),
            saved := if ok then Version(s) else s.saved)
  }

  predicate Enabled(s: System, op: Op)
  {
    match op
    case WriteOp(id, _) => id !in s.setters
    case MarkOp(id) => id in s.setters && s.setters[id].Wrote?
    case SignalOp(id) => id in s.setters && s.setters[id].MarkedDirty?
    case StopOp => true
    case Receive => s.writer.AtSelect? && s.shared.token
    case Timer => s.writer.InWindow?
    case StopInWindow => s.writer.InWindow? && s.shared.stopped
    case Drain => s.writer.Draining? && s.shared.token
    case Drained => s.writer.Draining? && !s.shared.token
    case Check(_) => s.writer.AtCheck?
    case StopSeen => s.writer.AtSelect? && s.shared.stopped
    case FinalCheck(_) => s.writer.AtFinalCheck?
  }

  function Step(s: System, c: Cipher, op: Op): System
  {
    if !Enabled(s, op) then s
    else
      match op
      case WriteOp(id, data) =>
        s.(shared := s.shared.(data := data), history := s.history + [data],
           setters := s.setters[id := Wrote(|s.history|)])
      case MarkOp(id) =>
        s.(shared := Marked(s.shared), marked := Version(s), setters := s.setters[id := MarkedDirty])
      case SignalOp(id) => s.(shared := Signalled(s.shared), setters := s.setters - {id})
      case StopOp => s.(shared := s.shared.(stopped := true))
      case Receive => s.(shared := s.shared.(token := false), writer := InWindow)
      case Timer => s.(writer := Draining)
      case StopInWindow => s.(writer := AtFinalCheck)
      case Drain => s.(shared := s.shared.(token := false))
      case Drained => s.(writer := AtCheck)
      case Check(ok) => Flush(s, c, ok).(writer := AtSelect)
      case StopSeen => s.(writer := AtFinalCheck)
      case FinalCheck(ok) => Flush(s, c, ok).(writer := Exited, lastMarked := s.marked)
  }

  function Run(s: System, c: Cipher, ops: seq<Op>): System
  {
    if ops == [] then s else Step(Run(s, c, ops[..|ops| - 1]), c, ops[|ops| - 1])
  }

  // ------------------------------------------------------------ invariants

  predicate Signalling(s: System)
  {
    exists id :: id in s.setters && s.setters[id].MarkedDirty?
  }

  /** Between receiving a wake-up, or seeing the stop, and the locked check. */
  predicate OnItsWay(w: Writer)
  {
    w.InWindow? || w.Draining? || w.AtCheck? || w.AtFinalCheck?
  }

  ghost predicate NoLostWakeup(s: System)
  {
    s.shared.dirty && !Signalling(s) ==> s.shared.token || OnItsWay(s.writer)
  }

  /** The setter of write v has not marked it yet. */
  ghost predicate Unmarked(setters: map<nat, Setter>, v: nat)
  {
    exists id :: id in setters && setters[id] == Wrote(v)
  }

  ghost predicate VersionsOk(s: System)
  {
    && s.history != [] && s.shared.data == s.history[Version(s)]
    && s.saved <= s.attempted <= Version(s) && s.marked <= Version(s)
    && (!s.shared.dirty ==> s.marked <= s.attempted)
    && (forall v :: s.marked < v <= Version(s) ==> Unmarked(s.setters, v))
    && (forall id :: id in s.setters && s.setters[id].Wrote? ==> 1 <= s.setters[id].version <= Version(s))
    && (s.shared.dirty ==> Version(s) > 0)
    && (s.writer.Exited? ==> s.lastMarked <= s.attempted)
  }

  /** The file holds the settings as they were at the last save that worked. */
  ghost predicate DiskOk(s: System, c: Cipher, original: Data)
  {
    s.saved < |s.history| && s.shared.disk == if s.saved == 0 then original else Sealed(c, s.history[s.saved])
  }

  ghost predicate Inv(s: System, c: Cipher, original: Data)
  {
    NoLostWakeup(s) && VersionsOk(s) && DiskOk(s, c, original)
  }

  lemma StartInv(c: Cipher, disk: Data)
    ensures Inv(Start(c, disk), c, disk)
  {
  }

  lemma WriteKeeps(s: System, c: Cipher, original: Data, id: nat, data: Data)
    requires Inv(s, c, original) && id !in s.setters
    ensures Inv(Step(s, c, WriteOp(id, data)), c, original)
  {
    var next := Step(s, c, WriteOp(id, data));
    forall v | next.marked < v <= Version(next) ensures Unmarked(next.setters, v) {
      if v <= Version(s) {
        assert Unmarked(s.setters, v);
        var i :| i in s.setters && s.setters[i] == Wrote(v);
        assert next.setters[i] == Wrote(v);
      } else {
        assert next.setters[id] == Wrote(v);
      }
    }
    assert Signalling(next) <==> Signalling(s) by {
      if Signalling(s) {
        var i :| i in s.setters && s.setters[i].MarkedDirty?;
        assert next.setters[i].MarkedDirty?;
      }
    }
  }

  lemma MarkKeeps(s: System, c: Cipher, original: Data, id: nat)
    requires Inv(s, c, original) && Enabled(s, MarkOp(id))
    ensures Inv(Step(s, c, MarkOp(id)), c, original)
  {
    assert Step(s, c, MarkOp(id)).setters[id].MarkedDirty?;
  }

  lemma SignalKeeps(s: System, c: Cipher, original: Data, id: nat)
    requires Inv(s, c, original) && Enabled(s, SignalOp(id))
    ensures Inv(Step(s, c, SignalOp(id)), c, original)
  {
    var next := Step(s, c, SignalOp(id));
    forall v | next.marked < v <= Version(next) ensures Unmarked(next.setters, v) {
      assert Unmarked(s.setters, v);
      var i :| i in s.setters && s.setters[i] == Wrote(v);
      assert i != id && next.setters[i] == Wrote(v);
    }
  }

  lemma WriterKeeps(s: System, c: Cipher, original: Data, op: Op)
    requires Inv(s, c, original) && !op.WriteOp? && !op.MarkOp? && !op.SignalOp?
    ensures Inv(Step(s, c, op), c, original)
  {
    WriterWakes(s, c, op);
    if op.Check? || op.FinalCheck? {
      CheckKeeps(s, c, original, op);
    } else {
      SameVersions(s, Step(s, c, op), c, original);
    }
  }

  /** A step of the writer leaves no wake-up behind. */
  lemma WriterWakes(s: System, c: Cipher, op: Op)
    requires NoLostWakeup(s) && !op.WriteOp? && !op.MarkOp? && !op.SignalOp?
    ensures NoLostWakeup(Step(s, c, op))
  {
    assert Step(s, c, op).setters == s.setters;
  }

  lemma CheckKeeps(s: System, c: Cipher, original: Data, op: Op)
    requires VersionsOk(s) && DiskOk(s, c, original) && (op.Check? || op.FinalCheck?)
    ensures VersionsOk(Step(s, c, op)) && DiskOk(Step(s, c, op), c, original)
  {
    FlushKeeps(s, c, original, op.ok);
  }

  /** A step that touches neither the settings nor the file nor the counts. */
  lemma SameVersions(s: System, next: System, c: Cipher, original: Data)
    requires VersionsOk(s) && DiskOk(s, c, original)
    requires next == s.(shared := next.shared, writer := next.writer)
    requires next.shared == s.shared.(token := next.shared.token, stopped := next.shared.stopped)
    requires next.writer.Exited? ==> s.writer.Exited?
    ensures VersionsOk(next) && DiskOk(next, c, original)
  {
  }

  /** The locked section itself, before the writer moves on. */
  lemma FlushKeeps(s: System, c: Cipher, original: Data, ok: bool)
    requires VersionsOk(s) && DiskOk(s, c, original)
    ensures VersionsOk(Flush(s, c, ok)) && DiskOk(Flush(s, c, ok), c, original)
    ensures s.marked <= Flush(s, c, ok).attempted && !Flush(s, c, ok).shared.dirty
  {
  }

  lemma StepKeepsInv(s: System, c: Cipher, original: Data, op: Op)
    requires Inv(s, c, original)
    ensures Inv(Step(s, c, op), c, original)
  {
    if Enabled(s, op) {
      match op
      case WriteOp(id, data) => WriteKeeps(s, c, original, id, data);
      case MarkOp(id) => MarkKeeps(s, c, original, id);
      case SignalOp(id) => SignalKeeps(s, c, original, id);
      case _ => WriterKeeps(s, c, original, op);
    }
  }

  /** In every interleaving: no wake-up is lost, and the file is the last save that worked. */
  lemma {:induction false} RunKeepsInv(c: Cipher, disk: Data, ops: seq<Op>)
    ensures Inv(Run(Start(c, disk), c, ops), c, disk)
  {
    if ops == [] {
      StartInv(c, disk);
    } else {
      RunKeepsInv(c, disk, ops[..|ops| - 1]);
      StepKeepsInv(Run(Start(c, disk), c, ops[..|ops| - 1]), c, disk, ops[|ops| - 1]);
    }
  }

  // ------------------------------------------------------------ consequences

  predicate SavesWork(ops: seq<Op>)
  {
    forall op :: op in ops ==> op != Check(false) && op != FinalCheck(false)
  }

  lemma {:induction false} WorkingSavesKeepUp(c: Cipher, disk: Data, ops: seq<Op>)
    requires SavesWork(ops)
    ensures Run(Start(c, disk), c, ops).saved == Run(Start(c, disk), c, ops).attempted
  {
    if ops != [] {
      var n := |ops| - 1;
      assert forall op :: op in ops[..n] ==> op in ops;
      WorkingSavesKeepUp(c, disk, ops[..n]);
      assert ops[n] in ops;
    }
  }

  /** Once the writer is gone, the file covers every save marked before its last check. */
  lemma ExitSavesMarked(c: Cipher, disk: Data, ops: seq<Op>)
    requires SavesWork(ops)
    ensures
      var s := Run(Start(c, disk), c, ops);
      s.writer.Exited? && s.lastMarked > 0 ==>
        s.lastMarked <= s.saved < |s.history| && s.shared.disk == Sealed(c, s.history[s.saved])
  {
    RunKeepsInv(c, disk, ops);
    WorkingSavesKeepUp(c, disk, ops);
  }

  /** No setter at work and nothing marked. */
  predicate Quiet(s: System)
  {
    s.setters == map[] && !s.shared.dirty
  }

  /** At rest every write has been attempted. */
  lemma QuietIsAttempted(c: Cipher, disk: Data, ops: seq<Op>)
    requires Quiet(Run(Start(c, disk), c, ops))
    ensures Run(Start(c, disk), c, ops).attempted == Version(Run(Start(c, disk), c, ops))
  {
    var s := Run(Start(c, disk), c, ops);
    RunKeepsInv(c, disk, ops);
    assert s.marked < Version(s) ==> Unmarked(s.setters, Version(s));
  }

  /** Step k of the run is a check that finds the flag set and saves. */
  predicate SavesAt(c: Cipher, disk: Data, ops: seq<Op>, k: nat)
    requires k < |ops|
  {
    var s := Run(Start(c, disk), c, ops[..k]);
    (ops[k] == Check(true) || ops[k] == FinalCheck(true)) && Enabled(s, ops[k]) && s.shared.dirty
  }

  /** Step k of the run changes the settings. */
  predicate WritesAt(c: Cipher, disk: Data, ops: seq<Op>, k: nat)
    requires k < |ops|
  {
    ops[k].WriteOp? && Enabled(Run(Start(c, disk), c, ops[..k]), ops[k])
  }

  /** From step k on nothing changes the settings. */
  ghost predicate NoWriteFrom(c: Cipher, disk: Data, ops: seq<Op>, k: nat)
  {
    forall j :: k <= j < |ops| ==> !WritesAt(c, disk, ops, j)
  }

  lemma {:induction false} VersionSteady(c: Cipher, disk: Data, ops: seq<Op>, k: nat)
    requires k <= |ops|
    ensures Version(Run(Start(c, disk), c, ops[..k])) <= Version(Run(Start(c, disk), c, ops))
    ensures Version(Run(Start(c, disk), c, ops[..k])) == Version(Run(Start(c, disk), c, ops))
            <==> NoWriteFrom(c, disk, ops, k)
  {
    if k == |ops| {
      assert ops[..k] == ops;
    } else {
      var n := |ops| - 1;
      var front := ops[..n];
      VersionSteady(c, disk, front, k);
      assert front[..k] == ops[..k];
      NoWriteMore(c, disk, ops, k);
      VersionMoves(c, disk, ops);
    }
  }

  /** One more step: no write from k on, and this one is none. */
  lemma NoWriteMore(c: Cipher, disk: Data, ops: seq<Op>, k: nat)
    requires k < |ops|
    ensures NoWriteFrom(c, disk, ops, k) <==>
      NoWriteFrom(c, disk, ops[..|ops| - 1], k) && !WritesAt(c, disk, ops, |ops| - 1)
  {
    var front := ops[..|ops| - 1];
    forall j | k <= j < |front| ensures WritesAt(c, disk, front, j) <==> WritesAt(c, disk, ops, j) {
      assert front[..j] == ops[..j];
    }
  }

  lemma VersionMoves(c: Cipher, disk: Data, ops: seq<Op>)
    requires ops != []
    ensures Version(Run(Start(c, disk), c, ops)) ==
      Version(Run(Start(c, disk), c, ops[..|ops| - 1])) + if WritesAt(c, disk, ops, |ops| - 1) then 1 else 0
  {
    RunKeepsInv(c, disk, ops[..|ops| - 1]);
    StepMoves(Run(Start(c, disk), c, ops[..|ops| - 1]), c, ops[|ops| - 1]);
  }

  lemma StepMoves(s: System, c: Cipher, op: Op)
    requires s.history != []
    ensures Version(Step(s, c, op)) == Version(s) + if op.WriteOp? && Enabled(s, op) then 1 else 0
    ensures Step(s, c, op).saved ==
      if (op == Check(true) || op == FinalCheck(true)) && Enabled(s, op) && s.shared.dirty then Version(s) else s.saved
  {
  }

  /** The file has taken in write v exactly when some save that worked came after it. */
  lemma {:induction false} SavedCoversIff(c: Cipher, disk: Data, ops: seq<Op>, v: nat)
    requires v > 0
    ensures v <= Run(Start(c, disk), c, ops).saved <==>
      exists k :: 0 <= k < |ops| && SavesAt(c, disk, ops, k) && v <= Version(Run(Start(c, disk), c, ops[..k]))
  {
    if ops != [] {
      var n := |ops| - 1;
      var front := ops[..n];
      SavedCoversIff(c, disk, front, v);
      RunKeepsInv(c, disk, front);
      StepMoves(Run(Start(c, disk), c, front), c, ops[n]);
      forall k | 0 <= k < n ensures SavesAt(c, disk, front, k) <==> SavesAt(c, disk, ops, k) {
        assert front[..k] == ops[..k];
      }
      assert forall k :: 0 <= k < n ==> front[..k] == ops[..k];
      if v <= Run(Start(c, disk), c, front).saved {
        var k :| 0 <= k < n && SavesAt(c, disk, front, k) && v <= Version(Run(Start(c, disk), c, front[..k]));
        assert SavesAt(c, disk, ops, k) && v <= Version(Run(Start(c, disk), c, ops[..k]));
      }
      if SavesAt(c, disk, ops, n) && v <= Version(Run(Start(c, disk), c, front)) {
        assert SavesAt(c, disk, ops, n) && v <= Version(Run(Start(c, disk), c, ops[..n]));
      }
    }
  }

  /** The last save that worked took the latest settings: no write since, or no write at all. */
  ghost predicate SavedSinceWrite(c: Cipher, disk: Data, ops: seq<Op>)
  {
    || NoWriteFrom(c, disk, ops, 0)
    || exists k :: 0 <= k < |ops| && SavesAt(c, disk, ops, k) && NoWriteFrom(c, disk, ops, k)
  }

  lemma SavedCurrentIff(c: Cipher, disk: Data, ops: seq<Op>)
    ensures Run(Start(c, disk), c, ops).saved == Version(Run(Start(c, disk), c, ops)) <==> SavedSinceWrite(c, disk, ops)
  {
    var last := Version(Run(Start(c, disk), c, ops));
    RunKeepsInv(c, disk, ops);
    VersionSteady(c, disk, ops, 0);
    assert ops[..0] == [];
    if last > 0 {
      SavedCoversIff(c, disk, ops, last);
      forall k | 0 <= k < |ops|
        ensures Version(Run(Start(c, disk), c, ops[..k])) >= last <==> NoWriteFrom(c, disk, ops, k)
      {
        VersionSteady(c, disk, ops, k);
      }
    }
  }

  /**
   At any point, at rest too, the file is that of the latest settings exactly when
   some save worked and nothing was written since, or nothing was written at all.
   */
  lemma FileCurrentIff(c: Cipher, disk: Data, ops: seq<Op>)
    ensures
      var s := Run(Start(c, disk), c, ops);
      && (s.saved == Version(s) <==> SavedSinceWrite(c, disk, ops))
      && (s.saved == Version(s) ==> s.shared.disk == if Version(s) == 0 then disk else Sealed(c, s.shared.data))
  {
    SavedCurrentIff(c, disk, ops);
    RunKeepsInv(c, disk, ops);
  }

  /**
   Once the writer is gone: every save marked before its last check is in the file
   exactly when some save worked after the last of them was written.
   */
  lemma ExitCoversIff(c: Cipher, disk: Data, ops: seq<Op>)
    ensures
      var s := Run(Start(c, disk), c, ops);
      s.writer.Exited? && s.lastMarked > 0 ==>
        (s.lastMarked <= s.saved <==>
          exists k :: 0 <= k < |ops| && SavesAt(c, disk, ops, k)
            && s.lastMarked <= Version(Run(Start(c, disk), c, ops[..k])))
  {
    var s := Run(Start(c, disk), c, ops);
    if s.lastMarked > 0 { SavedCoversIff(c, disk, ops, s.lastMarked); }
  }

  /** The writer's own steps to its next locked check, none of them waiting for anyone. */
  function CatchUp(s: System): seq<Op>
  {
    match s.writer
    case AtSelect => [Receive, Timer, Drained, Check(true)]
    case InWindow => if s.shared.token then [Timer, Drain, Drained, Check(true)] else [Timer, Drained, Check(true)]
    case Draining => if s.shared.token then [Drain, Drained, Check(true)] else [Drained, Check(true)]
    case AtCheck => [Check(true)]
    case AtFinalCheck => [FinalCheck(true)]
    case Exited => []
  }

  function RunFrom(s: System, c: Cipher, ops: seq<Op>): System
    decreases |ops|
  {
    if ops == [] then s else RunFrom(Step(s, c, ops[0]), c, ops[1..])
  }

  /** A dirty flag nobody is still signalling is always flushed by the writer on its own. */
  lemma WriterCatchesUp(c: Cipher, disk: Data, ops: seq<Op>)
    ensures
      var s := Run(Start(c, disk), c, ops);
      s.shared.dirty && !Signalling(s) && !s.writer.Exited? ==>
        !RunFrom(s, c, CatchUp(s)).shared.dirty && RunFrom(s, c, CatchUp(s)).shared.disk == Sealed(c, s.shared.data)
  {
    var s := Run(Start(c, disk), c, ops);
    RunKeepsInv(c, disk, ops);
    if s.shared.dirty && !Signalling(s) && !s.writer.Exited? {
      CatchUpWorks(s, c);
    }
  }

  lemma CatchUpWorks(s: System, c: Cipher)
    requires s.shared.dirty && (s.shared.token || OnItsWay(s.writer)) && !s.writer.Exited?
    ensures !RunFrom(s, c, CatchUp(s)).shared.dirty && RunFrom(s, c, CatchUp(s)).shared.disk == Sealed(c, s.shared.data)
  {
    match s.writer
    case AtSelect => FromWindow(Step(s, c, Receive), c);
    case InWindow => FromWindow(s, c);
    case Draining => FromDraining(s, c);
    case AtCheck =>
    case AtFinalCheck =>
  }

  lemma FromDraining(s: System, c: Cipher)
    requires s.shared.dirty && s.writer.Draining?
    ensures RunFrom(s, c, CatchUp(s)).shared ==
      s.shared.(token := false, dirty := false, disk := Sealed(c, s.shared.data))
  {
    var t := if s.shared.token then Step(s, c, Drain) else s;
    var u := Step(t, c, Drained);
    assert [Check(true)][1..] == [] && [Drained, Check(true)][1..] == [Check(true)];
    assert [Drain, Drained, Check(true)][1..] == [Drained, Check(true)];
    assert RunFrom(u, c, [Check(true)]) == Step(u, c, Check(true));
    assert RunFrom(t, c, [Drained, Check(true)]) == RunFrom(u, c, [Check(true)]);
  }

  lemma FromWindow(s: System, c: Cipher)
    requires s.shared.dirty && s.writer.InWindow?
    ensures RunFrom(s, c, CatchUp(s)).shared ==
      s.shared.(token := false, dirty := false, disk := Sealed(c, s.shared.data))
  {
    var t := Step(s, c, Timer);
    FromDraining(t, c);
    assert CatchUp(s)[1..] == CatchUp(t);
  }

  /** Without another write nothing more reaches the file, even when the last save failed. */
  lemma {:induction false} QuietNeverRetries(s: System, c: Cipher, ops: seq<Op>)
    requires Quiet(s) && forall op :: op in ops ==> !op.WriteOp?
    ensures Quiet(Run(s, c, ops)) && Run(s, c, ops).shared.disk == s.shared.disk
    ensures Run(s, c, ops).saved == s.saved && Run(s, c, ops).history == s.history
  {
    if ops != [] {
      assert forall op :: op in ops[..|ops| - 1] ==> op in ops;
      QuietNeverRetries(s, c, ops[..|ops| - 1]);
      assert ops[|ops| - 1] in ops;
    }
  }

  /** One write whose save fails: the system comes to rest with the file still as it was. */
  function FailedSave(data: Data): seq<Op>
  {
    [WriteOp(0, data), MarkOp(0), SignalOp(0), Receive, Timer, Drained, Check(false)]
  }

  /** After the setter's three steps: flagged, woken, nobody at work. */
  function Woken(c: Cipher, disk: Data, data: Data): System
  {
    var s := Start(c, disk);
    s.(shared := s.shared.(data := data, dirty := true, token := true), history := s.history + [data], marked := 1)
  }

  lemma SetterSteps(c: Cipher, disk: Data, data: Data)
    ensures RunFrom(Start(c, disk), c, FailedSave(data)) == RunFrom(Woken(c, disk, data), c, FailedSave(data)[3..])
  {
    var ops := FailedSave(data);
    var one := Step(Start(c, disk), c, ops[0]);
    var two := Step(one, c, ops[1]);
    RunFromTail(Start(c, disk), c, ops);
    RunFromTail(one, c, ops[1..]);
    RunFromTail(two, c, ops[2..]);
    assert ops[1..][1..] == ops[2..] && ops[2..][1..] == ops[3..];
    assert Step(two, c, ops[2]).setters == map[];
  }

  lemma WriterSteps(c: Cipher, s: System, data: Data)
    requires s.writer.AtSelect? && s.shared.token && s.shared.dirty
    ensures RunFrom(s, c, FailedSave(data)[3..]) ==
      s.(shared := s.shared.(token := false, dirty := false), attempted := Version(s))
  {
    var ops := FailedSave(data)[3..];
    assert ops == [Receive, Timer, Drained, Check(false)];
    var one := Step(s, c, Receive);
    var two := Step(one, c, Timer);
    var three := Step(two, c, Drained);
    RunFromTail(s, c, ops);
    RunFromTail(one, c, ops[1..]);
    RunFromTail(two, c, ops[2..]);
    RunFromTail(three, c, ops[3..]);
    assert ops[1..][1..] == ops[2..] && ops[2..][1..] == ops[3..] && ops[3..][1..] == [];
  }

  lemma FailedSaveIsForgotten(c: Cipher, disk: Data, data: Data)
    ensures
      var s := RunFrom(Start(c, disk), c, FailedSave(data));
      Quiet(s) && s.shared.data == data && s.shared.disk == disk && s.saved < Version(s)
  {
    SetterSteps(c, disk, data);
    WriterSteps(c, Woken(c, disk, data), data);
  }

  lemma RunFromTail(s: System, c: Cipher, ops: seq<Op>)
    requires ops != []
    ensures RunFrom(s, c, ops) == RunFrom(Step(s, c, ops[0]), c, ops[1..])
  {
  }
}
