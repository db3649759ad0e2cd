/** `atomicWriteFile`: temp file, fsync, rename, with cleanup; every failure and every crash point. */
module AtomicWrite {

  type Path = string
  type Bytes = seq<int>

  /** The disk as a crash would leave it. */
  type Disk = map<Path, Bytes>

  /** The next effect of the call. */
  datatype Pc = AtOpen | AtWrite | AtSync | AtClose | AtRename | AtUnlink | Returned | Thrown

  datatype State = State(disk: Disk, pc: Pc)

  /** How the next effect goes. `Partial(n)` puts `n` bytes of the contents on disk without finishing the write. */
  datatype Event = Succeed | Fail | Partial(n: nat)

  datatype Call = Call(target: Path, temp: Path, contents: Bytes)

  function Next(c: Call, s: State, ev: Event): State {
    match s.pc
    case AtOpen =>
      // O_EXCL: opening an existing path fails
      if ev == Succeed && c.temp !in s.disk then State(s.disk[c.temp := []], AtWrite) else State(s.disk, AtUnlink)
    case AtWrite =>
      (match ev
       case Succeed => State(s.disk[c.temp := c.contents], AtSync)
       case Partial(n) => if n <= |c.contents| then State(s.disk[c.temp := c.contents[..n]], AtWrite) else s
       case Fail => State(s.disk, AtUnlink))
    case AtSync => if ev == Succeed then s.(pc := AtClose) else s.(pc := AtUnlink)
    case AtClose => if ev == Succeed then s.(pc := AtRename) else s.(pc := AtUnlink)
    case AtRename =>
      if ev == Succeed && c.temp in s.disk then State((s.disk - {c.temp})[c.target := s.disk[c.temp]], Returned)
      else s.(pc := AtUnlink)
    case AtUnlink => State(if ev == Succeed then s.disk - {c.temp} else s.disk, Thrown)
    case Returned => s
    case Thrown => s
  }

  function Run(c: Call, s: State, evs: seq<Event>): State
    decreases |evs|
  {
    if evs == [] then s else Run(c, Next(c, s, evs[0]), evs[1..])
  }

  /** The temp name is new and different from the target. */
  predicate FreshTemp(c: Call, disk: Disk) { c.temp !in disk && c.temp != c.target }

  /** `d` differs from `disk` at most at the temp path. */
  predicate OnlyTempDiffers(c: Call, disk: Disk, d: Disk) {
    d - {c.temp} == disk - {c.temp}
  }

  predicate Inv(c: Call, disk: Disk, s: State) {
    match s.pc
    case AtOpen => s.disk == disk
    case AtWrite => OnlyTempDiffers(c, disk, s.disk) && c.temp in s.disk && s.disk[c.temp] <= c.contents
    case AtSync => OnlyTempDiffers(c, disk, s.disk) && c.temp in s.disk && s.disk[c.temp] == c.contents
    case AtClose => OnlyTempDiffers(c, disk, s.disk) && c.temp in s.disk && s.disk[c.temp] == c.contents
    case AtRename => OnlyTempDiffers(c, disk, s.disk) && c.temp in s.disk && s.disk[c.temp] == c.contents
    case AtUnlink => OnlyTempDiffers(c, disk, s.disk)
    case Returned => s.disk == disk[c.target := c.contents]
    case Thrown => OnlyTempDiffers(c, disk, s.disk)
  }

  lemma StepKeepsInv(c: Call, disk: Disk, s: State, ev: Event)
    requires FreshTemp(c, disk) && Inv(c, disk, s)
    ensures Inv(c, disk, Next(c, s, ev))
  {
    var t := Next(c, s, ev);
    if s.pc.AtRename? && t.pc.Returned? {
      assert s.disk - {c.temp} == disk - {c.temp} == disk;
    } else if s.pc.AtOpen? || s.pc.AtWrite? || s.pc.AtUnlink? {
      assert t.disk - {c.temp} == s.disk - {c.temp};
    }
  }

  lemma {:induction false} RunKeepsInv(c: Call, disk: Disk, s: State, evs: seq<Event>)
    requires FreshTemp(c, disk) && Inv(c, disk, s)
    ensures Inv(c, disk, Run(c, s, evs))
    decreases |evs|
  {
    if evs != [] {
      StepKeepsInv(c, disk, s, evs[0]);
      RunKeepsInv(c, disk, Next(c, s, evs[0]), evs[1..]);
    }
  }

  /** What a reader of path `p` finds. */
  predicate Same(d: Disk, e: Disk, p: Path) {
    (p in d <==> p in e) && (p in d ==> d[p] == e[p])
  }

  /** At every crash or failure point the target holds its old contents or the complete new contents,
      and no path other than the target and the temp file has changed. If the call throws, the target is
      unchanged; if it returns, the target holds the new contents and no temp file is left. */
  lemma CrashConsistent(c: Call, disk: Disk, evs: seq<Event>, p: Path)
    requires FreshTemp(c, disk)
    ensures var s := Run(c, State(disk, AtOpen), evs);
            && (Same(s.disk, disk, c.target) || (c.target in s.disk && s.disk[c.target] == c.contents))
            && (p != c.target && p != c.temp ==> Same(s.disk, disk, p))
            && (s.pc.Thrown? ==> Same(s.disk, disk, c.target))
            && (s.pc.Returned? ==> s.disk == disk[c.target := c.contents])
  {
    RunKeepsInv(c, disk, State(disk, AtOpen), evs);
    var s := Run(c, State(disk, AtOpen), evs);
    if !s.pc.Returned? {
      assert OnlyTempDiffers(c, disk, s.disk);
      SameOutsideTemp(c, disk, s.disk, c.target);
      if p != c.temp { SameOutsideTemp(c, disk, s.disk, p); }
    }
  }

  lemma SameOutsideTemp(c: Call, disk: Disk, d: Disk, p: Path)
    requires OnlyTempDiffers(c, disk, d) && p != c.temp
    ensures Same(d, disk, p)
  {
    assert p in d - {c.temp} <==> p in disk - {c.temp};
    if p in d {
      assert (d - {c.temp})[p] == d[p] && (disk - {c.temp})[p] == disk[p];
    }
  }

  /** The result of a call whose effects go as `evs` says, the write in one piece. */
  class FileSystem {
    var disk: Disk

    constructor ()
      ensures disk == map[]
    {
      disk := map[];
    }

    method AtomicWriteFile(c: Call, open: Event, write: Event, sync: Event, close: Event, rename: Event, unlink: Event)
      returns (ok: bool)
      requires FreshTemp(c, disk) && !write.Partial?
      modifies this
      ensures ok ==> disk == old(disk)[c.target := c.contents]
      ensures !ok ==> Same(disk, old(disk), c.target) && (unlink == Succeed ==> disk == old(disk))
      ensures forall p :: p != c.target && p != c.temp ==> Same(disk, old(disk), p)
      ensures ok <==> open == write == sync == close == rename == Succeed
    {
      var failed := open != Succeed;
      if !failed {
        disk := disk[c.temp := []];
        failed := write != Succeed;
        if !failed {
          disk := disk[c.temp := c.contents];
          failed := sync != Succeed || close != Succeed || rename != Succeed;
          if !failed { disk := (disk - {c.temp})[c.target := disk[c.temp]]; }
        }
      }
      if failed && unlink == Succeed { disk := disk - {c.temp}; }
      return !failed;
    }
  }
}
