// init.c at work: run levels, process table, signals at any moment.

module Init {
  import opened InitTable

  // cur_state and the others; Unset is 0.
  datatype Level = Unset | L0 | L1 | L2 | L3 | L4 | L5 | L6 | SingleUser | A | B | C

  datatype Action = Off | Respawn | Once | Wait | Boot | BootWait | PowerFail | PowerWait | InitDefault | SysInit

  datatype Modes = BootModes | NormalModes | PfModes

  // A line of /etc/inittab, as getcmd() hands it over.
  datatype Cmd = Cmd(id: string, levels: set<Level>, action: Action)

  // getcmd() takes ids of one to four characters.
  predicate GoodTab(tab: seq<Cmd>) {
    forall c <- tab :: 1 <= |c.id| <= 4
  }

  predicate OnDemand(l: Level) {
    l == A || l == B || l == C
  }

  // 0 to 6.
  predicate RunLevel(l: Level) {
    l != Unset && l != SingleUser && !OnDemand(l)
  }

  // c_action & op_modes
  predicate InModes(a: Action, m: Modes) {
    match m
    case NormalModes => a == Off || a == Respawn || a == Once || a == Wait
    case BootModes => a == Boot || a == BootWait
    case PfModes => a == PowerFail || a == PowerWait
  }

  // c_levels & mask(level)
  predicate AtLevel(levels: set<Level>, l: Level) {
    if l == Unset then levels != {} else l in levels
  }

  // The entry lets a process live at this level; demand says that it was started
  // through level a, b or c.
  predicate Allowed(c: Cmd, l: Level, demand: bool) {
    l != SingleUser && c.action != Off && (AtLevel(c.levels, l) || demand)
  }

  // /etc/inittab has entries for this process, and all of them let it live.
  predicate Wanted(tab: seq<Cmd>, l: Level, id: string, demand: bool) {
    (exists c <- tab :: c.id == id) && forall c <- tab :: c.id == id ==> Allowed(c, l, demand)
  }

  // The entry may be started in this mode and at this level.
  predicate Startable(c: Cmd, l: Level, prev: Level, m: Modes) {
    (c.action == Respawn && m == NormalModes && (A in c.levels || B in c.levels || C in c.levels)) ||
    OrdinaryStart(c, l, prev, m)
  }

  // ... also when no level a, b or c has been asked for.
  predicate OrdinaryStart(c: Cmd, l: Level, prev: Level, m: Modes) {
    InModes(c.action, m) && AtLevel(c.levels, l) &&
    !(m == NormalModes && (c.action == Off || ((c.action == Once || c.action == Wait) && l == prev)))
  }

  // The first occupied slot with this id, from i on.
  function SlotOfId(t: Table, id: string, i: nat): (r: nat)
    requires i <= |t|
    ensures i <= r <= |t| && (r < |t| ==> t[r].flags.occupied && t[r].id == id)
    ensures forall k :: i <= k < r ==> !(t[k].flags.occupied && t[k].id == id)
    decreases |t| - i
  {
    if i == |t| then i else if t[i].flags.occupied && t[i].id == id then i else SlotOfId(t, id, i + 1)
  }

  const NOBODY := Slot("", 0, 0, 0, 0, NONE)

  // The entry is to be started now, going by what the table says of its process.
  predicate Due(t: Table, c: Cmd, l: Level, prev: Level, m: Modes) {
    var i := SlotOfId(t, c.id, 0);
    if i < |t| then
      !t[i].flags.living &&
      (Startable(c, l, prev, m) && (OrdinaryStart(c, l, prev, m) || t[i].flags.demand))
    else OrdinaryStart(c, l, prev, m) && exists k :: 0 <= k < |t| && !t[k].flags.occupied
  }

  // The mode and the level call for the entry.
  lemma WhatIsCalledFor(c: Cmd, l: Level, prev: Level, m: Modes, demand: bool)
    ensures
      var here := l in c.levels || (l == Unset && c.levels != {});
      Startable(c, l, prev, m) && (OrdinaryStart(c, l, prev, m) || demand) <==>
        match c.action
        case Respawn => m == NormalModes && (here || (demand && (A in c.levels || B in c.levels || C in c.levels)))
        case Once => m == NormalModes && here && l != prev
        case Wait => m == NormalModes && here && l != prev
        case Boot => m == BootModes && here
        case BootWait => m == BootModes && here
        case PowerFail => m == PfModes && here
        case PowerWait => m == PfModes && here
        case _ => false
    ensures OrdinaryStart(c, l, prev, m) ==> Startable(c, l, prev, m)
  {
  }

  // With one slot for an id at most: an entry is due when mode and level call for
  // it, and its process is in a slot and dead, or has no slot while one is free.
  lemma WhatIsDue(t: Table, c: Cmd, l: Level, prev: Level, m: Modes, i: nat)
    requires i < |t| && (forall j :: 0 <= j < |t| && j != i && t[j].flags.occupied ==> t[j].id != c.id)
    ensures t[i].flags.occupied && t[i].id == c.id ==>
      (Due(t, c, l, prev, m) <==>
       !t[i].flags.living && Startable(c, l, prev, m) && (OrdinaryStart(c, l, prev, m) || t[i].flags.demand))
    ensures !(t[i].flags.occupied && t[i].id == c.id) ==>
      (Due(t, c, l, prev, m) <==> (exists j :: 0 <= j < |t| && !t[j].flags.occupied) && OrdinaryStart(c, l, prev, m))
  {
    hide Startable, OrdinaryStart;
  }

  // The levels and the mode.
  datatype Levels = Levels(cur: Level, prev: Level, prior: Level, modes: Modes)

  // init.c:687-703: a signal has asked for level n.
  function Changed(l: Levels, n: Level): Levels {
    if n == l.cur then l
    else if OnDemand(n) then Levels(n, l.prior, l.cur, l.modes)
    else Levels(n, l.cur, l.cur, l.modes)
  }

  // init.c:617-653: what the next pass is for; hit tells of a power failure.
  function Passed(l: Levels, hit: bool): Levels {
    if hit then l.(prev := Unset, modes := PfModes)
    else if l.modes != NormalModes then l.(prev := if l.modes == PfModes then l.cur else l.prev, modes := NormalModes)
    else if OnDemand(l.cur) then Levels(l.prior, l.prior, l.prev, l.modes)
    else l.(prev := l.cur)
  }

  // After its one pass at level a, b or c init is back where it was, with the level
  // before as well; and so it is after a pass for a power failure. ONCE and WAIT
  // entries do not start again.
  // A level from 0 to 6 becomes the current one, and the one left the level
  // before: its ONCE and WAIT entries are to be started, and so on boot and when
  // the power has failed, before the normal pass.
  lemma BackAgain(l: Levels, n: Level)
    requires l.modes == NormalModes && l.cur !in {A, B, C}
    ensures n !in {A, B, C} && n != l.cur ==> Changed(l, n).cur == n && Changed(l, n).prev == Changed(l, n).prior == l.cur
    ensures n in {A, B, C} ==> Changed(l, n).cur == n
    ensures Changed(l, l.cur) == l && Changed(l, n).modes == NormalModes
    ensures Passed(l, true) == Levels(l.cur, Unset, l.prior, PfModes)
    ensures Passed(l.(modes := BootModes), false) == l
    ensures n in {A, B, C} ==> Passed(Changed(l, n), false) == l.(prev := l.cur)
    ensures Passed(Passed(l, true), false) == l.(prev := l.cur)
    ensures l.prev == l.cur ==> forall c: Cmd :: c.action == Once || c.action == Wait ==> !Startable(c, l.cur, l.prev, NormalModes)
  {
  }

  // What becomes of a slot while no entry is started: the same process in it,
  // dead perhaps; freed; or used for a new process without a name.
  predicate CalmSlot(a: Slot, n: int, b: Slot, m: int, limit: int) {
    (b.id == a.id && m == n && (b.flags == a.flags || b.flags == a.flags.(living := false) || b.flags == NONE)) ||
    (b.id == "" && m >= limit && !b.flags.named)
  }

  predicate Calm(t: Table, w: World, t': Table, w': World) {
    |t| == |t'| == |w.inc| == |w'.inc| == NPROC && w.next <= w'.next && w'.ids == w.ids &&
    forall i :: 0 <= i < NPROC ==> CalmSlot(t[i], w.inc[i], t'[i], w'.inc[i], w.next)
  }

  lemma CalmTwice(t: Table, w: World, t': Table, w': World, t'': Table, w'': World)
    requires Calm(t, w, t', w') && Calm(t', w', t'', w'')
    ensures Calm(t, w, t'', w'')
  {
    forall i | 0 <= i < NPROC ensures CalmSlot(t[i], w.inc[i], t''[i], w''.inc[i], w.next) {
      assert CalmSlot(t[i], w.inc[i], t'[i], w'.inc[i], w.next) && CalmSlot(t'[i], w'.inc[i], t''[i], w''.inc[i], w'.next);
    }
  }

  lemma LaterIsCalm(t: Table, w: World, t': Table, w': World)
    requires Later(t, w, t', w') && |t| == |w.inc| == NPROC
    ensures Calm(t, w, t', w')
  {
    forall i | 0 <= i < NPROC ensures CalmSlot(t[i], w.inc[i], t'[i], w'.inc[i], w.next) {
      assert LaterSlot(t[i], t'[i]);
    }
  }

  lemma SoundIsCalm(t: Table, w: World)
    requires Sound(t, w)
    ensures Calm(t, w, t, w)
  {
  }

  lemma FreshPid(m: map<int, int>)
    ensures exists p: int :: p !in m
  {
    var keys := m.Keys;
    var top := Above(keys);
    assert top !in m;
  }

  lemma NoMember(s: set<int>)
    requires forall x :: x !in s
    ensures s == {}
  {
    var none: set<int> := {};
    assert forall x :: x in s <==> x in none;
  }

  lemma {:induction false} Above(s: set<int>) returns (top: int)
    ensures forall x <- s :: x < top
    decreases |s|
  {
    top := 0;
    if exists x :: x in s {
      var x :| x in s;
      var t := Above(s - {x});
      top := if x < t then t else x + 1;
      forall y | y in s ensures y < top { if y != x { assert y in s - {x}; } }
    } else {
      NoMember(s);
    }
  }

  class Init {
    const proc: array<Slot>
    var w: World                // the world outside
    var catching: bool          // SIGCLD goes to childeath(), not to SIG_DFL
    var curState: Level
    var prevState: Level
    var priorState: Level
    var newState: Level
    var opModes: Modes
    var userSignal: bool
    var childDeath: bool
    var powerHit: bool
    var timeUp: bool
    var chgLvl: bool
    ghost var asks: seq<Level>  // the levels asked for by signals
    ghost var powers: nat       // the power failures

    ghost predicate Valid()
      reads this, proc
    {
      proc.Length == NPROC && Sound(proc[..], w)
    }

    // What remove() may wait for, perhaps in vain: a slot for a killing process, or
    // that a process it has warned dies within the time it is given.
    ghost predicate Stuck()
      reads this, proc
    {
      (!catching && !FreeSlot(proc[..])) ||
      (!timeUp && exists i :: 0 <= i < proc.Length && proc[i].flags.warned && proc[i].flags.living && proc[i].flags.occupied)
    }

    // A level has been asked for since, and the last one asked for is what counts.
    ghost predicate Asked(since: seq<Level>)
      reads this
    {
      userSignal && |asks| > |since| && newState == asks[|asks| - 1]
    }

    // A process that is waited for.
    ghost predicate Awaiting()
      reads proc
    {
      exists i :: 0 <= i < proc.Length && proc[i].flags.living
    }

    ghost function Now(): Levels
      reads this
    {
      Levels(curState, prevState, priorState, opModes)
    }

    constructor ()
      ensures Valid() && fresh(proc) && catching && opModes == BootModes && curState == SingleUser
      ensures proc[..] == Launches(0).t && w == Launches(0).w
    {
      proc := new Slot[NPROC](_ => Slot("", 0, 0, 0, 0, NONE));
      w := World(0, {}, map[], map[], map[], seq(NPROC, _ => 0), seq(NPROC, _ => 0), map[], -1, 0);
      catching, curState, prevState, priorState, newState := true, SingleUser, Unset, Unset, Unset;
      opModes, userSignal, childDeath, powerHit, timeUp, chgLvl := BootModes, false, false, false, false, false;
      asks, powers := [], 0;
    }

    method SetFlags(i: int, f: Flags)
      requires proc.Length == NPROC && 0 <= i < NPROC
      modifies proc
      ensures proc[..] == Reflag(old(proc[..]), i, f)
    {
      proc[i] := proc[i].(flags := f);
    }

    // ---------- signals

    // init.c:1873-1913.
    method ChildDeath(pid: int, status: int)
      requires Valid() && pid in w.children && w.children[pid] !in w.alive
      modifies this`w, this`childDeath, proc
      ensures Valid() && Later(old(proc[..]), old(w), proc[..], w)
      ensures proc[..] == Reaped(old(proc[..]), pid, status) && w == old(w).(children := old(w.children) - {pid})
      ensures childDeath == (old(childDeath) || old(SlotOfPid(proc[..], pid, 0)) < NPROC)
    {
      ReapSound(proc[..], w, pid, status);
      hide Sound, Later;
      ghost var t := proc[..];
      w := w.(children := w.children - {pid});
      var i := 0;
      while i < NPROC
        invariant 0 <= i <= NPROC && proc[..] == t && SlotOfPid(t, pid, 0) == SlotOfPid(t, pid, i)
        invariant childDeath == old(childDeath)
      {
        if proc[i].flags.occupied && proc[i].pid == pid {
          proc[i] := proc[i].(exit := status, flags := proc[i].flags.(living := false));
          childDeath := true;
          break;
        }
        i := i + 1;
      }
      assert proc[..] == Reaped(t, pid, status);
    }

    // init.c:1825-1854.
    method LevelSignal(sig: Level, restate: bool)
      requires Valid()
      modifies this`newState, this`userSignal, this`asks, proc
      ensures Valid() && Later(old(proc[..]), w, proc[..], w) && asks == old(asks) + [newState]
      ensures proc[..] == TimesReset(old(proc[..])) && newState == (if restate then curState else sig) && userSignal
    {
      ResetSound(proc[..], w);
      hide Sound, Later;
      ghost var t := proc[..];
      newState := if restate then curState else sig;
      for i := 0 to NPROC
        modifies proc
        invariant proc[..i] == TimesReset(t)[..i] && proc[i..] == t[i..]
      {
        proc[i] := proc[i].(time := 0, count := 0);
      }
      assert proc[..] == TimesReset(t);
      userSignal := true;
      asks := asks + [newState];
    }

    // Any number of deaths and signals, in any order.
    method Signals()
      requires Valid()
      modifies this`w, this`newState, this`userSignal, this`asks, this`powers, this`childDeath, this`powerHit, this`timeUp, proc
      ensures Valid() && Later(old(proc[..]), old(w), proc[..], w)
      ensures Times(old(proc[..]), proc[..], userSignal) && (old(userSignal) ==> userSignal)
      ensures if asks == old(asks) then userSignal == old(userSignal) && newState == old(newState) else Asked(old(asks))
      ensures old(asks) <= asks && powers >= old(powers) && powerHit == (old(powerHit) || powers > old(powers))
    {
      hide Sound, Later, Times;
      var n: int := *;
      LaterSame(proc[..], w);
      TimesSame(proc[..], userSignal);
      for k := 0 to if n > 0 then n else 0
        invariant Valid() && Later(old(proc[..]), old(w), proc[..], w)
        invariant Times(old(proc[..]), proc[..], userSignal) && (old(userSignal) ==> userSignal)
        invariant if asks == old(asks) then userSignal == old(userSignal) && newState == old(newState) else Asked(old(asks))
        invariant old(asks) <= asks && powers >= old(powers) && powerHit == (old(powerHit) || powers > old(powers))
      {
        ghost var t, v, us := proc[..], w, userSignal;
        TimesSame(t, us);
        var event: int, who: int, status: int, sig: Level, restate: bool := *, *, *, *, *;
        LaterSame(t, v);
        if event == 0 {
          DeathSound(t, w, who);
          w := Died(w, who);
        } else if event == 1 && catching && who in w.children && w.children[who] !in w.alive {
          ChildDeath(who, status);
          TimesReaped(t, who, status, userSignal);
        } else if event == 2 && sig != Unset {
          LevelSignal(sig, restate);
          TimesGone(t);
        } else if event == 3 {
          powerHit := true;
          powers := powers + 1;
        } else if event == 4 {
          timeUp := true;
        }
        LaterTwice(old(proc[..]), old(w), t, v, proc[..], w);
        TimesTwice(old(proc[..]), t, proc[..], us, userSignal);
      }
    }

    // ---------- processes

    // init.c:2102-2116: slots of the dead are freed, unless they are to be kept.
    method Freshen()
      requires Valid()
      modifies proc
      ensures Valid() && Calm(old(proc[..]), w, proc[..], w) && (HasRoom(old(proc[..])) <==> FreeSlot(proc[..]))
      ensures Times(old(proc[..]), proc[..], userSignal)
    {
      hide Sound, Calm;
      ghost var t := proc[..];
      SoundIsCalm(t, w);
      for i := 0 to NPROC
        invariant Valid() && Calm(t, w, proc[..], w)
        invariant forall k :: 0 <= k < NPROC ==> proc[k].flags == if k < i && Stale(t[k].flags) then NONE else t[k].flags
        invariant forall k :: 0 <= k < NPROC ==> proc[k].time == t[k].time && proc[k].count == t[k].count
      {
        var f := proc[i].flags;
        if f.occupied && !f.living && !f.nocleanup {
          FreeSound(proc[..], w, i);
          Freed(t, proc[..], w, i);
          SetFlags(i, NONE);
        }
      }
    }

    // pause(): something happens, or several things.
    method Pause()
      requires Valid()
      modifies this`w, this`newState, this`userSignal, this`asks, this`powers, this`childDeath, this`powerHit, this`timeUp, proc
      ensures Valid() && Calm(old(proc[..]), old(w), proc[..], w) && SameBut(old(w), w)
      ensures FreeSlot(proc[..]) <==> old(FreeSlot(proc[..]))
      ensures Times(old(proc[..]), proc[..], userSignal) && (old(userSignal) ==> userSignal)
      ensures if asks == old(asks) then userSignal == old(userSignal) && newState == old(newState) else Asked(old(asks))
      ensures old(asks) <= asks && powers >= old(powers) && powerHit == (old(powerHit) || powers > old(powers))
    {
      SoundIsCalm(proc[..], w);
      Signals();
      LaterIsCalm(old(proc[..]), old(w), proc[..], w);
      LaterIsFree(old(proc[..]), old(w), proc[..], w);
    }

    // fork(), which may fail for a while; meanwhile children may die.
    method Fork(target: int) returns (pid: int)
      requires Valid() && TargetOk(w, target)
      modifies this`w, this`newState, this`userSignal, this`asks, this`powers, this`childDeath, this`powerHit, this`timeUp, this`catching, proc
      ensures Valid() && catching == old(catching) && NewChild(proc[..], w, pid, old(w.next))
      ensures Calm(old(proc[..]), old(w), proc[..], w) && SameButFork(old(w), w, target)
      ensures FreeSlot(proc[..]) <==> old(FreeSlot(proc[..]))
      ensures Times(old(proc[..]), proc[..], userSignal) && (old(userSignal) ==> userSignal)
    {
      hide Sound, Calm, FreeSlot, Times;
      var fails: int := *;
      SoundIsCalm(proc[..], w);
      TimesSame(proc[..], userSignal);
      var oldroutine := catching;
      for k := 0 to if fails > 0 then fails else 0
        invariant Valid() && Calm(old(proc[..]), old(w), proc[..], w) && SameBut(old(w), w) && catching == oldroutine
        invariant FreeSlot(proc[..]) <==> old(FreeSlot(proc[..]))
        invariant Times(old(proc[..]), proc[..], userSignal) && (old(userSignal) ==> userSignal)
      {
        ghost var t, v, us := proc[..], w, userSignal;
        catching := true;
        Pause();
        catching := oldroutine;
        CalmTwice(old(proc[..]), old(w), t, v, proc[..], w);
        TimesTwice(old(proc[..]), t, proc[..], us, userSignal);
      }
      FreshPid(w.children);
      pid :| pid !in w.children;
      ForkSound(proc[..], w, pid, target);
      ForkCalm(old(proc[..]), old(w), proc[..], w, pid, target);
      w := Forked(w, pid, target);
    }

    // init.c:2084-2170, for the parent. In the child, target is sent SIGTERM.
    method Efork(i0: int, f: Flags, target: int) returns (slot: int)
      requires Valid() && TargetOk(w, target) && -1 <= i0 < NPROC
      requires (i0 != -1 ==> !proc[i0].flags.living) && f.occupied && f.living && !f.killed
      modifies this`w, this`newState, this`userSignal, this`asks, this`powers, this`childDeath, this`powerHit, this`timeUp, this`catching, proc
      ensures Valid() && catching == old(catching) && -1 <= slot < NPROC && (i0 != -1 ==> slot == i0)
      ensures slot != -1 ==> proc[slot].flags == f && proc[slot].id == "" && w.inc[slot] == old(w.next) && w.inc[slot] !in w.ids
      ensures CalmBut(old(proc[..]), old(w), proc[..], w, slot) && SameButTerm(old(w), w, target)
      ensures i0 == -1 ==> (slot != -1 <==> HasRoom(old(proc[..])))
      ensures slot == -1 ==> !FreeSlot(proc[..])
      ensures i0 != -1 ==> Times(old(proc[..]), proc[..], userSignal)
      ensures old(userSignal) ==> userSignal
    {
      hide Sound, Calm, HasRoom, Times;
      ghost var t, v := proc[..], w;
      var n := w.next;
      Freshen();
      ghost var t1 := proc[..];
      ghost var us := userSignal;
      var pid := Fork(target);
      CalmTwice(t, v, t1, v, proc[..], w);
      TimesTwice(t, t1, proc[..], us, userSignal);
      slot := i0;
      if i0 != -1 { StillDead(t, v, proc[..], w, pid, i0); }
      if slot == -1 {
        slot := 0;
        while slot < NPROC && proc[slot].flags != NONE
          invariant 0 <= slot <= NPROC && forall k :: 0 <= k < slot ==> proc[k].flags != NONE
        {
          slot := slot + 1;
        }
        if slot == NPROC {
          return -1;
        }
        ClearSound(proc[..], w, slot);
        proc[slot] := proc[slot].(time := 0, count := 0);
      }
      PlaceSound(proc[..], w, slot, pid, f, n);
      if i0 != -1 { TimesPlaced(t, proc[..], userSignal, slot, pid, f); }
      proc[slot] := proc[slot].(id := "", pid := pid, exit := 0, flags := f);
      w := w.(inc := w.inc[slot := n]);
    }

    // init.c:1614-1633. The process with this pid, which is in slot i, is sent
    // SIGTERM by every child that is forked. Not ok: init is waiting still.
    method Killproc(pid: int, i: int) returns (ok: bool)
      requires Valid() && w.busy == -1 && 0 <= i < NPROC && proc[i].flags.occupied && !proc[i].flags.killed
      requires pid == proc[i].pid
      modifies this`w, this`newState, this`userSignal, this`asks, this`powers, this`childDeath, this`powerHit, this`timeUp, this`catching, proc
      ensures Valid() && w.busy == old(w.inc[i]) && Calm(old(proc[..]), old(w), proc[..], w)
      ensures KilledOnce(old(w), w, old(w.inc[i])) && (ok ==> catching)
      ensures old(w.inc[i]) !in old(w.terms) && w.terms[old(w.inc[i])] == 1 + w.noRooms - old(w.noRooms)
      ensures ok ==> (w.terms[old(w.inc[i])] == 1 <==> HasRoom(old(proc[..])))
      ensures !ok ==> Stuck()
    {
      BusySound(proc[..], w, i);
      SoundIsCalm(proc[..], w);
      hide Sound, Calm, CalmBut;
      ghost var t, v, n := proc[..], w, w.inc[i];
      w := w.(busy := w.inc[i]);
      catching := false;
      var process := Efork(-1, KILLER, w.busy);
      KillerPlaced(t, v, t, v.(busy := n), proc[..], w, process);
      ghost var first := process;
      var patience: int := *;
      while process == -1
        invariant Valid() && w.busy == n && Calm(t, v, proc[..], w)
        invariant !catching && (process == -1 ==> !FreeSlot(proc[..]))
        invariant KilledOnce(v, w, n) && -1 <= process < NPROC && w.noRooms >= v.noRooms
        invariant if first != -1 then process == first && w.noRooms == v.noRooms else process == -1 || w.noRooms > v.noRooms
        decreases patience
      {
        if patience <= 0 {
          return false;
        }
        patience := patience - 1;
        ghost var t1, v1 := proc[..], w;
        process := KillAgain();
        CalmTwice(t, v, t1, v1, proc[..], w);
        KilledAgain(v, v1, w, n);
      }
      catching := true;
      return true;
    }

    // The same without room, up to the second child: the process has been sent
    // SIGTERM twice.
    method KillTwice(i: int) returns (process: int)
      requires Valid() && w.busy == -1 && 0 <= i < NPROC && proc[i].flags.occupied && !proc[i].flags.killed
      requires !HasRoom(proc[..])
      modifies this`w, this`newState, this`userSignal, this`asks, this`powers, this`childDeath, this`powerHit, this`timeUp, this`catching, proc
      ensures Valid() && old(w.inc[i]) !in old(w.terms)
      ensures old(w.inc[i]) in w.terms && w.terms[old(w.inc[i])] == 2
    {
      BusySound(proc[..], w, i);
      hide Sound, Calm, CalmBut, HasRoom;
      w := w.(busy := w.inc[i]);
      catching := false;
      process := Efork(-1, KILLER, w.busy);
      process := KillAgain();
    }

    // init.c:1622: no room; another pause, another child that kills.
    method KillAgain() returns (process: int)
      requires Valid() && 0 <= w.busy < w.next
      modifies this`w, this`newState, this`userSignal, this`asks, this`powers, this`childDeath, this`powerHit, this`timeUp, this`catching, proc
      ensures Valid() && Calm(old(proc[..]), old(w), proc[..], w) && -1 <= process < NPROC
      ensures catching == old(catching) && (process == -1 ==> !FreeSlot(proc[..]))
      ensures
        w == old(w).(alive := w.alive, children := w.children, next := w.next, inc := w.inc, noRooms := old(w.noRooms) + 1,
                     terms := MoreTerms(old(w.terms), old(w.busy)))
    {
      hide Sound, Calm, CalmBut, SameBut, SameButTerm, MoreTerms, TargetOk, FreeSlot, HasRoom;
      NoRoomSound(proc[..], w);
      SoundIsCalm(proc[..], w);
      ghost var t, v := proc[..], w;
      CalmNoRoom(t, v, t, w);
      w := w.(noRooms := w.noRooms + 1);
      ghost var v0 := w;
      Pause();
      CalmTwice(t, v, t, v0, proc[..], w);
      ghost var t1, v1 := proc[..], w;
      RoomMissed(t, v, v0, v1);
      process := Efork(-1, KILLER, w.busy);
      KilledOnceMore(v, v0, v1, w);
      KillerPlaced(t, v, t1, v1, proc[..], w, process);
    }

    // ---------- remove()

    // The marks of slot i.
    method Mark(i: int, touched: bool, warned: bool, killed: bool)
      requires Valid() && 0 <= i < NPROC && (proc[i].flags.killed ==> killed)
      requires killed && proc[i].flags.named ==> proc[i].flags.killed || w.inc[i] in w.terms
      modifies proc
      ensures Valid() && proc[..] == Marked(old(proc[..]), i, touched, warned, killed)
    {
      MarkSound(proc[..], w, i, proc[i].flags.(touched := touched, warned := warned, killed := killed));
      SetFlags(i, proc[i].flags.(touched := touched, warned := warned, killed := killed));
    }

    // init.c:870-902 and 961-963: the process in slot i gets its SIGTERM, unless
    // it has had it; from init itself or from a killing process.
    method Condemn(i: int, touch: bool, self: bool) returns (ok: bool)
      requires Valid() && w.busy == -1 && catching && 0 <= i < NPROC && proc[i].flags.occupied
      modifies this`w, this`newState, this`userSignal, this`asks, this`powers, this`childDeath, this`powerHit, this`timeUp, this`catching, proc
      ensures Valid()
      ensures if ok then w.busy == -1 && catching && Condemned(old(proc[..]), old(w), proc[..], w, i) else Stuck()
    {
      hide Sound, Calm;
      ghost var t, v := proc[..], w;
      SoundIsCalm(t, v);
      var f := proc[i].flags;
      if f.killed {
        Mark(i, f.touched || touch, f.warned, true);
        AlreadyKilled(t, v, proc[..], i);
        return true;
      }
      Mark(i, f.touched || touch, f.warned || self, false);
      ghost var t1 := proc[..];
      if self {
        f := proc[i].flags;
        TermSound(proc[..], w, i, f.(killed := true));
        w := w.(terms := w.terms[w.inc[i] := 1]);
        SetFlags(i, f.(killed := true));
        SelfKilled(t, v, t1, proc[..], w, i);
        return true;
      }
      ok := Killproc(proc[i].pid, i);
      if !ok {
        return;
      }
      ghost var t2, w2 := proc[..], w;
      StillTarget(t1, v, t2, w2, i);
      Mark(i, proc[i].flags.touched, proc[i].flags.warned, true);
      KillDone(t, v, t1, t2, w2, proc[..], i);
      w := w.(busy := -1);
    }

    // init.c:850-915: the table is searched for the process of one entry.
    method CheckEntry(tab: seq<Cmd>, k: nat, changeLevel: bool, ghost t0: Table, ghost v0: World) returns (ok: bool)
      requires Valid() && w.busy == -1 && catching && GoodTab(tab) && k < |tab| && Sound(t0, v0)
      requires ScanOk(t0, v0, proc[..], w, tab, k, curState)
      modifies this`w, this`newState, this`userSignal, this`asks, this`powers, this`childDeath, this`powerHit, this`timeUp, this`catching, proc
      ensures Valid() && if ok then w.busy == -1 && catching && ScanOk(t0, v0, proc[..], w, tab, k + 1, curState) else Stuck()
    {
      hide Sound, ScanOk, Condemned, Calm;
      var cmd, i := tab[k], 0;
      while i < NPROC && !(proc[i].flags.occupied && proc[i].id == cmd.id)
        invariant Valid() && w.busy == -1 && catching && ScanOk(t0, v0, proc[..], w, tab, k, curState)
        invariant 0 <= i <= NPROC && forall j :: 0 <= j < i ==> !(proc[j].flags.occupied && proc[j].id == cmd.id)
      {
        i := i + 1;
      }
      ghost var t, v := proc[..], w;
      if i == NPROC {
        ScanNone(t0, v0, t, v, tab, k, curState);
        return true;
      }
      var f := proc[i].flags;
      if curState == SingleUser || cmd.action == Off || (!AtLevel(cmd.levels, curState) && !f.demand) {
        if f.living {
          ok := CondemnEntry(tab, k, changeLevel, i, t0, v0);
          return;
        }
        ScanOther(t0, v0, t, v, tab, k, curState, i, f.touched);
        assert t == Marked(t, i, f.touched, f.warned, f.killed);
      } else if f.living || f.demand {
        ScanOther(t0, v0, t, v, tab, k, curState, i, true);
        Mark(i, true, f.warned, f.killed);
      } else {
        ScanOther(t0, v0, t, v, tab, k, curState, i, f.touched);
        assert t == Marked(t, i, f.touched, f.warned, f.killed);
      }
      return true;
    }

    // init.c:866-911, a moment later.
    method CondemnEntry(tab: seq<Cmd>, k: nat, changeLevel: bool, i: int, ghost t0: Table, ghost v0: World) returns (ok: bool)
      requires Valid() && w.busy == -1 && catching && k < |tab| && Sound(t0, v0) && 0 <= i < NPROC
      requires ScanOk(t0, v0, proc[..], w, tab, k, curState)
      requires proc[i].flags.occupied && proc[i].id == tab[k].id != "" && !Allowed(tab[k], curState, proc[i].flags.demand)
      modifies this`w, this`newState, this`userSignal, this`asks, this`powers, this`childDeath, this`powerHit, this`timeUp, this`catching, proc
      ensures Valid() && if ok then w.busy == -1 && catching && ScanOk(t0, v0, proc[..], w, tab, k + 1, curState) else Stuck()
    {
      hide Sound, ScanOk, Condemned, Calm, Later;
      ghost var t, v := proc[..], w;
      SizesOf(t, v);
      Signals();
      LaterIsCalm(t, v, proc[..], w);
      LaterInUse(t, v, proc[..], w, i);
      ScanCalm(t0, v0, t, v, proc[..], w, tab, k, curState);
      t, v := proc[..], w;
      ok := Condemn(i, true, changeLevel);
      if ok { ScanCondemned(t0, v0, t, v, proc[..], w, tab, k, curState, i); }
    }

    // init.c:922-951: the warned get TWARN seconds; then comes SIGKILL, which
    // changes nothing here until they die of it.
    method WaitForWarned(tab: seq<Cmd>, ghost t0: Table, ghost v0: World) returns (ok: bool)
      requires Valid() && w.busy == -1 && catching && ScanOk(t0, v0, proc[..], w, tab, |tab|, curState)
      modifies this`w, this`newState, this`userSignal, this`asks, this`powers, this`childDeath, this`powerHit, this`timeUp, proc
      ensures Valid() && w.busy == -1 && catching && ScanOk(t0, v0, proc[..], w, tab, |tab|, curState) && (!ok ==> Stuck())
    {
      hide Sound, ScanOk, Calm;
      timeUp := false;
      var patience: int := *;
      var i := 0;
      while i < NPROC
        invariant Valid() && w.busy == -1 && catching && ScanOk(t0, v0, proc[..], w, tab, |tab|, curState) && 0 <= i <= NPROC
      {
        while !timeUp && proc[i].flags.warned && proc[i].flags.living && proc[i].flags.occupied
          invariant Valid() && w.busy == -1 && catching && ScanOk(t0, v0, proc[..], w, tab, |tab|, curState)
          decreases patience
        {
          if patience <= 0 {
            return false;
          }
          patience := patience - 1;
          ghost var t, v := proc[..], w;
          Pause();
          ScanCalm(t0, v0, t, v, proc[..], w, tab, |tab|, curState);
        }
        i := i + 1;
      }
      return true;
    }

    // init.c:960-972.
    method Rescan(tab: seq<Cmd>, ghost t0: Table, ghost v0: World) returns (ok: bool)
      requires Valid() && w.busy == -1 && catching && Sound(t0, v0) && ScanOk(t0, v0, proc[..], w, tab, |tab|, curState)
      modifies this`w, this`newState, this`userSignal, this`asks, this`powers, this`childDeath, this`powerHit, this`timeUp, this`catching, proc
      ensures Valid()
      ensures ok ==> w.busy == -1 && catching && ScanOk(t0, v0, proc[..], w, tab, |tab|, curState) && Treated(proc[..], NPROC)
      ensures !ok ==> Stuck()
    {
      hide Sound, ScanOk, Condemned, Calm, Treated;
      NoneTreated(proc[..]);
      var i := 0;
      while i < NPROC
        invariant Valid() && w.busy == -1 && catching && 0 <= i <= NPROC
        invariant ScanOk(t0, v0, proc[..], w, tab, |tab|, curState) && Treated(proc[..], i)
      {
        ghost var t, v := proc[..], w;
        Pause();
        ScanCalm(t0, v0, t, v, proc[..], w, tab, |tab|, curState);
        TreatedCalm(t, v, proc[..], w, i);
        t, v := proc[..], w;
        InUse(t, v, i);
        var f := proc[i].flags;
        if f.living && f.named && !f.touched && !f.killed && f.occupied {
          ok := Condemn(i, false, false);
          if !ok {
            return;
          }
          ScanUntouched(t0, v0, t, v, proc[..], w, tab, curState, i);
          TreatedCondemned(t, v, proc[..], w, i);
        } else if !f.living && f.named && f.occupied {
          if !f.touched {
            FreeSound(t, v, i);
            ScanFreed(t0, v0, t, v, tab, curState, i);
            SetFlags(i, NONE);
            TreatedFreed(t, i);
          } else {
            TreatedDead(t, i);
          }
        } else {
          TreatedDead(t, i);
        }
        i := i + 1;
      }
      return true;
    }

    // init.c:826-973. Not ok: init is waiting still. Afterwards every living
    // process of an entry has been sent its signals, or all entries of its id let
    // it live; and such a process has not been sent any.
    method Remove(tab: seq<Cmd>) returns (ok: bool)
      requires Valid() && w.busy == -1 && catching && GoodTab(tab)
      modifies this`w, this`newState, this`userSignal, this`asks, this`powers, this`childDeath, this`powerHit, this`timeUp, this`catching, proc
      ensures Valid()
      ensures ok ==> w.busy == -1 && catching
      ensures ok ==> forall i :: 0 <= i < NPROC && proc[i].flags.living && proc[i].flags.named ==>
        (proc[i].flags.touched || proc[i].flags.killed) &&
        (proc[i].flags.killed || Wanted(tab, curState, proc[i].id, proc[i].flags.demand))
      ensures if ok then Spared(old(proc[..]), old(w), w, tab, curState) else Stuck()
    {
      hide Sound, ScanOk, Calm, Treated, Spared;
      var changeLevel := curState != prevState;
      ghost var t0, v0 := proc[..], w;
      ClearTouched();
      ScanBegin(t0, v0, proc[..], tab, curState);
      for k := 0 to |tab|
        invariant Valid() && w.busy == -1 && catching && ScanOk(t0, v0, proc[..], w, tab, k, curState)
      {
        ghost var t, v := proc[..], w;
        Pause();
        ScanCalm(t0, v0, t, v, proc[..], w, tab, k, curState);
        ok := CheckEntry(tab, k, changeLevel, t0, v0);
        if !ok {
          return;
        }
      }
      if changeLevel {
        ok := WaitForWarned(tab, t0, v0);
        if !ok {
          return;
        }
      }
      ok := Rescan(tab, t0, v0);
      if ok { ScanEnd(t0, v0, proc[..], w, tab, curState); }
    }

    // init.c:844-845.
    method ClearTouched()
      requires Valid()
      modifies proc
      ensures Valid() && proc[..] == Untouched(old(proc[..]))
    {
      ghost var t := proc[..];
      UntouchedSound(t, w);
      hide Sound;
      for i := 0 to NPROC
        invariant proc[..i] == Untouched(t)[..i] && proc[i..] == t[i..]
      {
        proc[i] := proc[i].(flags := proc[i].flags.(touched := false));
      }
      assert proc[..] == Untouched(t);
    }

    // ---------- spawn()

    // init.c:1234-1267: the slot of the entry's process, or an empty one, or none.
    method FindSlot(id: string) returns (process: int)
      requires Valid() && id != ""
      modifies proc
      ensures Valid() && -1 <= process < NPROC
      ensures process == -1 ==> proc[..] == old(proc[..]) && forall j :: 0 <= j < NPROC ==> proc[j].flags.occupied && proc[j].id != id
      ensures process != -1 ==> SlotFor(proc[..], process, id)
      ensures old(SlotOfId(proc[..], id, 0)) < NPROC ==> process == old(SlotOfId(proc[..], id, 0))
      ensures old(SlotOfId(proc[..], id, 0)) == NPROC && process != -1 ==> old(proc[process].flags.occupied) == false && proc[process] == NOBODY
      ensures forall j :: 0 <= j < NPROC && old(proc[j].flags.occupied) ==> proc[j] == old(proc[j])
    {
      hide Sound;
      ghost var t0 := proc[..];
      var empty := -1;
      process := 0;
      while process < NPROC && !(proc[process].flags.occupied && proc[process].id == id)
        invariant Valid() && 0 <= process <= NPROC && -1 <= empty && (empty < process || empty == -1)
        invariant if empty == -1 then forall j :: 0 <= j < process ==> proc[j].flags.occupied else !proc[empty].flags.occupied
        invariant forall j :: 0 <= j < process ==> !(proc[j].flags.occupied && proc[j].id == id)
        invariant forall j :: 0 <= j < NPROC && (t0[j].flags.occupied || j >= process) ==> proc[j] == t0[j]
        invariant empty == -1 ==> proc[..] == t0
        invariant empty != -1 ==> !t0[empty].flags.occupied && proc[empty] == NOBODY
        invariant forall j :: 0 <= j < process ==> !(t0[j].flags.occupied && t0[j].id == id)
      {
        if empty == -1 && !proc[process].flags.occupied {
          empty := process;
          ZeroSound(proc[..], w, process);
          ghost var t := proc[..];
          proc[process] := NOBODY;
          assert proc[..] == t[process := NOBODY];
        }
        process := process + 1;
      }
      if process == NPROC {
        process := empty;
      } else {
        FoundSlot(proc[..], w, process, id);
      }
    }

    // init.c:1091-1225. Not ok: init is waiting still.
    method Respawn(i: int, cmd: Cmd) returns (started: bool, now: int)
      requires Valid() && w.busy == -1 && catching && 0 <= i < NPROC && !proc[i].flags.living && SlotFor(proc[..], i, cmd.id)
      requires cmd.id != ""
      modifies this`w, this`newState, this`userSignal, this`asks, this`powers, this`childDeath, this`powerHit, this`timeUp, this`catching, proc
      ensures Valid() && w.busy == -1 && catching && w.terms == old(w.terms)
      ensures w.ids == if started then old(w.ids)[old(w.next) := cmd.id] else old(w.ids)
      ensures started ==> proc[i].id == cmd.id && proc[i].flags.named && proc[i].flags.living && old(w.next) !in old(w.ids)
      ensures started ==> old(w.next) in w.at && w.at[old(w.next)] == i
      ensures now > 0
      ensures !started <==>
        cmd.action == Action.Respawn && old(proc[i].time) != 0 && old(proc[i].count) >= 10 &&
        now - old(proc[i].time) < if old(proc[i].count) == 10 then 120 else 420
      ensures !started ==> old(w.starts[i]) == 11 && proc[..] == old(proc[..])[i := old(proc[i]).(count := old(proc[i].count) + 1)]
      ensures
        w.starts == if !started || cmd.action != Action.Respawn then old(w.starts)
                    else old(w.starts)[i := if old(proc[i].time == 0 || proc[i].count >= 10) then 1 else old(w.starts[i]) + 1]
      ensures started && cmd.action == Action.Respawn && !userSignal ==>
        proc[i].time == (if old(proc[i].time == 0 || proc[i].count >= 10) then now else old(proc[i].time)) &&
        proc[i].count == if old(proc[i].time == 0 || proc[i].count >= 10) then 0 else old(proc[i].count) + 1
      ensures started ==> proc[i].flags.demand == (old(proc[i].flags.demand) || curState in {A, B, C})
      ensures started ==> proc[i].flags.nocleanup == (cmd.action in {SysInit, Wait, BootWait, PowerWait, Action.Respawn})
    {
      hide Sound, SlotFor, Times;
      NextIsNew(proc[..], w);
      var clock: int := *;
      now := if clock > 0 then clock else 1;
      var f := FlagsFor(cmd.action, proc[i].flags.demand || OnDemand(curState));
      if cmd.action == Action.Respawn {
        var go := Throttle(i, now, cmd.id);
        if !go {
          return false, now;
        }
      }
      ghost var t1 := proc[..];
      Enter(i, f, cmd.id);
      TimesKept(t1, proc[..], userSignal, i);
      started := true;
    }

    // init.c:1115-1131.
    method FlagsFor(action: Action, demand: bool) returns (f: Flags)
      ensures f.occupied && f.living && f.named && !f.touched && !f.warned && !f.killed && f.demand == demand
      ensures f.nocleanup <==> action in {SysInit, Wait, BootWait, PowerWait, Action.Respawn}
    {
      f := Flags(true, true, false, true, demand, false, false, false);
      if action == SysInit || action == Wait || action == BootWait || action == PowerWait {
        f := f.(nocleanup := true);
      }
      if action == Action.Respawn {
        f := f.(nocleanup := true);
      }
    }

    // init.c:1175-1223: the process is started and entered.
    method Enter(i: int, f: Flags, id: string)
      requires Valid() && w.busy == -1 && catching && 0 <= i < NPROC && !proc[i].flags.living && SlotFor(proc[..], i, id)
      requires id != "" && f.occupied && f.living && f.named && !f.killed && w.next !in w.ids
      modifies this`w, this`newState, this`userSignal, this`asks, this`powers, this`childDeath, this`powerHit, this`timeUp, this`catching, proc
      ensures Valid() && w.busy == -1 && catching && w.terms == old(w.terms) && w.ids == old(w.ids)[old(w.next) := id]
      ensures proc[i].id == id && proc[i].flags == f && w.starts == old(w.starts)
      ensures old(w.next) in w.at && w.at[old(w.next)] == i
      ensures Times(old(proc[..]), proc[..], userSignal) && (old(userSignal) ==> userSignal)
    {
      hide Sound, CalmBut, SlotFor, Times;
      catching := false;
      ghost var t, v := proc[..], w;
      var process := Efork(i, f, -1);
      StillFor(t, v, proc[..], w, i, id);
      NameSound(proc[..], w, i, id);
      TimesNamed(t, proc[..], userSignal, i, id);
      proc[i] := proc[i].(id := id);
      w := w.(ids := w.ids[w.inc[i] := id], at := w.at[w.inc[i] := i]);
      catching := true;
    }

    // init.c:1126-1166: whether the command may be started now. One that was started
    // 11 times since the time in its slot is held back: for two minutes, and once it
    // has been held back for seven. A series begins with the first start of all, and
    // after 11 starts.
    method Throttle(i: int, now: int, ghost id: string) returns (go: bool)
      requires Valid() && 0 <= i < NPROC && now > 0 && SlotFor(proc[..], i, id)
      modifies this`w, proc
      ensures Valid() && w == old(w).(starts := w.starts) && SlotFor(proc[..], i, id)
      ensures go <==> !(old(proc[i].time != 0 && proc[i].count >= 10) && now - old(proc[i].time) < if old(proc[i].count) == 10 then 120 else 420)
      ensures !go ==> old(w.starts[i]) == 11 && w.starts == old(w.starts)
      ensures !go ==> proc[..] == old(proc[..])[i := old(proc[i]).(count := old(proc[i]).count + 1)]
      ensures go && old(proc[i].time == 0 || proc[i].count >= 10) ==>
        proc[..] == old(proc[..])[i := old(proc[i]).(time := now, count := 0)] && w.starts == old(w.starts)[i := 1]
      ensures go && !old(proc[i].time == 0 || proc[i].count >= 10) ==>
        proc[..] == old(proc[..])[i := old(proc[i]).(count := old(proc[i]).count + 1)] &&
        w.starts == old(w.starts)[i := old(w.starts[i]) + 1]
    {
      FirstCount(proc[..], w, i);
      hide Sound, SlotFor;
      ghost var t := proc[..];
      var starts := w.starts[i];
      var count := proc[i].count;
      go := true;
      if proc[i].time == 0 {
        proc[i] := proc[i].(time := now);
        starts := 1;
      } else {
        proc[i] := proc[i].(count := count + 1);
        if count == SPAWN_LIMIT {
          if now - proc[i].time < SPAWN_INTERVAL {
            go := false;
          } else {
            proc[i] := proc[i].(time := now, count := 0);
            starts := 1;
          }
        } else if proc[i].count > SPAWN_LIMIT {
          if now - proc[i].time < SPAWN_INTERVAL + INHIBIT {
            go := false;
          } else {
            proc[i] := proc[i].(time := now, count := 0);
            starts := 1;
          }
        } else {
          starts := starts + 1;
        }
      }
      StartSound(t, w, i, proc[i].time, proc[i].count, starts);
      TimedSlot(t, i, id, proc[i].time, proc[i].count);
      assert proc[..] == t[i := t[i].(time := proc[i].time, count := proc[i].count)];
      w := w.(starts := w.starts[i := starts]);
    }

    // init.c:2182-2199; true when the process has died.
    method Waitproc(i: int) returns (dead: bool)
      requires Valid() && 0 <= i < NPROC
      modifies this`w, this`newState, this`userSignal, this`asks, this`powers, this`childDeath, this`powerHit, this`timeUp, proc
      ensures Valid() && SameBut(old(w), w)
      ensures if dead then proc[i].flags == NONE else proc[i].flags.living
    {
      hide Sound;
      if proc[i].flags.living {
        Pause();
      }
      if proc[i].flags.living {
        return false;
      }
      FreeSound(proc[..], w, i);
      SetFlags(i, NONE);
      return true;
    }

    // init.c:983-1082. Not ok: init is waiting still. Whatever is started has an
    // entry that is to be started; SIGTERM is not sent.
    method Spawn(tab: seq<Cmd>) returns (ok: bool, ghost looks: seq<Look>)
      requires Valid() && w.busy == -1 && catching && GoodTab(tab)
      modifies this`w, this`newState, this`userSignal, this`asks, this`powers, this`childDeath, this`powerHit, this`timeUp, this`catching,
               this`opModes, proc
      ensures Valid() && w.busy == -1 && catching && w.terms == old(w.terms)
      ensures opModes == (if old(powerHit) then PfModes else old(opModes))
      ensures StartedOk(old(w.ids), w.ids, tab, curState, prevState, opModes)
      ensures if ok then |looks| == |tab| else Awaiting()
      ensures Looks(old(w.ids), tab, looks, w.ids, curState, prevState, opModes)
    {
      hide Sound, StartedOk, Startable, SlotFor;
      if powerHit {
        powerHit := false;
        opModes := PfModes;
      }
      ghost var ids, modes := w.ids, opModes;
      NoneStarted(ids, tab, curState, prevState, opModes);
      looks := [];
      for k := 0 to |tab|
        invariant Valid() && w.busy == -1 && catching && w.terms == old(w.terms) && opModes == modes
        invariant StartedOk(ids, w.ids, tab, curState, prevState, opModes)
        invariant |looks| == k && Looks(ids, tab, looks, w.ids, curState, prevState, opModes)
      {
        ghost var look := Look(proc[..], w.ids, w.next);
        ok := SpawnEntry(tab, k, ids);
        OneMoreLook(ids, tab, looks, look, w.ids, curState, prevState, opModes);
        looks := looks + [look];
        if !ok {
          return;
        }
      }
      ok := true;
    }

    // init.c:1017-1081: one entry.
    method SpawnEntry(tab: seq<Cmd>, k: nat, ghost ids: map<int, string>) returns (ok: bool)
      requires Valid() && w.busy == -1 && catching && GoodTab(tab) && k < |tab|
      requires StartedOk(ids, w.ids, tab, curState, prevState, opModes)
      modifies this`w, this`newState, this`userSignal, this`asks, this`powers, this`childDeath, this`powerHit, this`timeUp, this`catching, proc
      ensures Valid() && w.busy == -1 && catching && w.terms == old(w.terms)
      ensures StartedOk(ids, w.ids, tab, curState, prevState, opModes)
      ensures LookedAt(old(proc[..]), old(w.ids), tab[k], old(w.next), w.ids, curState, prevState, opModes) && (!ok ==> Awaiting())
      // Who is to be waited for has died.
      ensures ok && (tab[k].action == Wait || tab[k].action == BootWait || tab[k].action == PowerWait) && old(w.next) in w.ids ==>
        old(w.next) !in w.alive
    {
      NextIsNew(proc[..], w);
      hide Sound, StartedOk, SlotFor, Due, LookedAt, Times, Exhausted;
      ghost var t0, ids0 := proc[..], w.ids;
      var cmd := tab[k];
      NotDue(t0, ids0, cmd, w.next, curState, prevState, opModes);
      var process := FindSlot(cmd.id);
      if process == -1 {
        return true;
      }
      var f := proc[process].flags;
      DueIs(t0, cmd, curState, prevState, opModes, process, f);
      var demanded := !f.living && f.demand && (A in cmd.levels || B in cmd.levels || C in cmd.levels) &&
        cmd.action == Action.Respawn && opModes == NormalModes;
      if !demanded {
        if !InModes(cmd.action, opModes) || f.living || !AtLevel(cmd.levels, curState) {
          return true;
        }
        if opModes == NormalModes && (cmd.action == Off || ((cmd.action == Once || cmd.action == Wait) && curState == prevState)) {
          return true;
        }
      }
      MayStart(ids, ids0, w.next, tab, k, curState, prevState, opModes);
      IsDue(t0, ids0, cmd, w.next, curState, prevState, opModes);
      hide Startable, OrdinaryStart, InModes, AtLevel;
      ok := StartEntry(process, cmd, demanded, t0);
    }

    // init.c:1062-1081: an entry that is due.
    method StartEntry(process: int, cmd: Cmd, demanded: bool, ghost t0: Table) returns (ok: bool)
      requires Valid() && w.busy == -1 && catching && 0 <= process < NPROC && !proc[process].flags.living
      requires cmd.id != "" && SlotFor(proc[..], process, cmd.id) && |t0| == NPROC
      requires SlotOfId(t0, cmd.id, 0) < NPROC ==> process == SlotOfId(t0, cmd.id, 0) && proc[process] == t0[process]
      requires SlotOfId(t0, cmd.id, 0) == NPROC ==> proc[process] == NOBODY
      modifies this`w, this`newState, this`userSignal, this`asks, this`powers, this`childDeath, this`powerHit, this`timeUp, this`catching, proc
      ensures Valid() && w.busy == -1 && catching && w.terms == old(w.terms) && (!ok ==> Awaiting())
      ensures w.ids == old(w.ids)[old(w.next) := cmd.id] ||
        (w.ids == old(w.ids) && cmd.action == Action.Respawn && Exhausted(t0, cmd.id))
      ensures ok && (cmd.action == Wait || cmd.action == BootWait || cmd.action == PowerWait) && !demanded ==> old(w.next) !in w.alive
    {
      hide Sound, SlotFor, Times, Later, Exhausted, SlotOfId;
      ghost var t, v := proc[..], w;
      Signals();
      LaterSlotFor(t, v, proc[..], w, process, cmd.id);
      ExhaustedSlot(t0, t, proc[..], userSignal, cmd.id, process);
      var started, now := Respawn(process, cmd);
      if demanded || cmd.action == Once || cmd.action == Action.Respawn || cmd.action == PowerFail || cmd.action == Boot {
        return true;
      }
      ok := AwaitDeath(process);
      if ok { NotAlive(proc[..], w, old(w.next), process); }
    }

    // init.c:1077-1079.
    method AwaitDeath(process: int) returns (ok: bool)
      requires Valid() && w.busy == -1 && catching && 0 <= process < NPROC
      modifies this`w, this`newState, this`userSignal, this`asks, this`powers, this`childDeath, this`powerHit, this`timeUp, proc
      ensures Valid() && SameBut(old(w), w) && if ok then proc[process].flags == NONE else proc[process].flags.living
    {
      hide Sound;
      var patience: int := *;
      var dead := Waitproc(process);
      while !dead
        invariant Valid() && SameBut(old(w), w) && if dead then proc[process].flags == NONE else proc[process].flags.living
        decreases patience
      {
        if patience <= 0 {
          return false;
        }
        patience := patience - 1;
        dead := Waitproc(process);
      }
      FreeSound(proc[..], w, process);
      SetFlags(process, NONE);
      ok := true;
    }

    // ---------- single user, and the main loop

    // init.c:730-816. Not ok: init is waiting still.
    method Single(defaultLevel: Level) returns (ok: bool)
      requires Valid() && w.busy == -1 && catching
      modifies this, proc
      ensures Valid() && opModes == old(opModes) && chgLvl == old(chgLvl)
      ensures ok ==> w.busy == -1 && catching && w.terms == old(w.terms) && w.ids == old(w.ids)
      ensures ok ==> curState != SingleUser && prevState == priorState == old(curState)
      ensures !ok ==> curState == old(curState)
      ensures ok && (defaultLevel == Unset || defaultLevel in {L0, L1, L2, L3, L4, L5, L6}) ==> curState in {L0, L1, L2, L3, L4, L5, L6}
    {
      hide Sound, CalmBut;
      var patience: int := *;
      while true
        invariant Valid() && w.busy == -1 && catching && w.terms == old(w.terms) && w.ids == old(w.ids)
        invariant opModes == old(opModes) && chgLvl == old(chgLvl) && curState == old(curState)
        decreases patience
      {
        if patience <= 0 {
          return false;
        }
        patience := patience - 1;
        var su;
        ok, su := StartSu();
        if !ok {
          return;
        }
        var dead, left := false, false;
        ok, left := WaitForSu(su);
        if !ok || left {
          return;
        }
        var state := defaultLevel;
        if defaultLevel == Unset {
          state := AskLevel();
        }
        if state != SingleUser {
          prevState, priorState, curState := curState, curState, state;
          return true;
        }
      }
    }

    // getlvl(), with whatever the user answers.
    method AskLevel() returns (l: Level)
      ensures l == SingleUser || RunLevel(l)
    {
      l := *;
      if !RunLevel(l) {
        l := SingleUser;
      }
    }

    // init.c:751-756.
    method StartSu() returns (ok: bool, su: int)
      requires Valid() && w.busy == -1 && catching
      modifies this`w, this`newState, this`userSignal, this`asks, this`powers, this`childDeath, this`powerHit, this`timeUp, this`catching, proc
      ensures Valid() && w.busy == -1 && w.terms == old(w.terms) && w.ids == old(w.ids)
      ensures if ok then catching && 0 <= su < NPROC else !FreeSlot(proc[..])
    {
      hide Sound, CalmBut;
      catching := false;
      su := Efork(-1, KILLER.(nocleanup := true), -1);
      var patience: int := *;
      while su == -1
        invariant Valid() && w.busy == -1 && w.terms == old(w.terms) && w.ids == old(w.ids) && -1 <= su < NPROC
        invariant su == -1 ==> !FreeSlot(proc[..])
        decreases patience
      {
        if patience <= 0 {
          return false, su;
        }
        patience := patience - 1;
        Pause();
        su := Efork(-1, KILLER.(nocleanup := true), -1);
      }
      catching := true;
      ok := true;
    }

    // init.c:769-793; left for another level, or not.
    method WaitForSu(su: int) returns (ok: bool, left: bool)
      requires Valid() && w.busy == -1 && catching && 0 <= su < NPROC
      modifies this, proc
      ensures Valid() && w.busy == -1 && catching && w.terms == old(w.terms) && w.ids == old(w.ids)
      ensures opModes == old(opModes) && chgLvl == old(chgLvl)
      ensures ok && left ==> RunLevel(curState) && prevState == priorState == old(curState)
      ensures !(ok && left) ==> curState == old(curState)
    {
      hide Sound;
      var patience: int := *;
      var dead := Waitproc(su);
      while !dead
        invariant Valid() && w.busy == -1 && catching && w.terms == old(w.terms) && w.ids == old(w.ids)
        invariant opModes == old(opModes) && chgLvl == old(chgLvl) && curState == old(curState)
        decreases patience
      {
        if userSignal && RunLevel(newState) {
          prevState, priorState, curState := curState, curState, newState;
          newState := Unset;
          userSignal, childDeath, powerHit := false, false, false;
          return true, true;
        }
        userSignal, childDeath, powerHit := false, false, false;
        if patience <= 0 {
          return false, false;
        }
        patience := patience - 1;
        dead := Waitproc(su);
      }
      return true, false;
    }

    // /etc/inittab, as it happens to be when it is read.
    method ReadTab() returns (tab: seq<Cmd>)
      ensures GoodTab(tab)
    {
      tab := *;
      if !GoodTab(tab) {
        tab := [];
      }
    }

    // init.c:652-668. Not ok: init is waiting still.
    method AwaitSignal() returns (ok: bool)
      requires Valid() && w.busy == -1 && catching && !powerHit
      modifies this`w, this`newState, this`userSignal, this`asks, this`powers, this`childDeath, this`powerHit, this`timeUp, proc
      ensures Valid() && w.busy == -1 && catching && w.terms == old(w.terms) && w.ids == old(w.ids)
      ensures ok <==> userSignal || childDeath || powerHit
      ensures old(asks) <= asks && powerHit == (powers != old(powers))
      ensures if |asks| == |old(asks)| then userSignal == old(userSignal) && newState == old(newState) else Asked(old(asks))
    {
      hide Sound;
      timeUp := false;
      var patience: int := *;
      while !userSignal && !childDeath && !powerHit
        invariant Valid() && w.busy == -1 && catching && w.terms == old(w.terms) && w.ids == old(w.ids)
        invariant if asks == old(asks) then userSignal == old(userSignal) && newState == old(newState) else Asked(old(asks))
        invariant old(asks) <= asks && powers >= old(powers) && powerHit == (powers > old(powers))
        decreases patience
      {
        if patience <= 0 {
          return false;
        }
        patience := patience - 1;
        Pause();
        timeUp := false;
      }
      ok := true;
    }

    // init.c:607-722 of main(): after a pass, the next mode or level.
    method NextWork() returns (ok: bool, ghost asked: bool, ghost n: Level, ghost hit: bool)
      requires Valid() && w.busy == -1 && catching
      modifies this, proc
      ensures Valid() && w.busy == -1 && catching && w.terms == old(w.terms) && w.ids == old(w.ids)
      ensures !old(!powerHit && opModes == NormalModes && curState !in {A, B, C}) ==>
        ok && Now() == Passed(old(Now()), old(powerHit)) && newState == old(newState)
      ensures old(!powerHit && opModes == NormalModes && curState !in {A, B, C}) ==> !userSignal && !childDeath && !powerHit
      ensures !ok ==> !powerHit && opModes == NormalModes && curState !in {A, B, C}
      ensures ok && old(!powerHit && opModes == NormalModes && curState !in {A, B, C}) ==>
        var l := Passed(old(Now()), false);
        var l' := if asked then Changed(l, n) else l;
        Now() == if hit then l'.(modes := PfModes) else l'
      ensures old(asks) <= asks
      ensures ok && old(!powerHit && opModes == NormalModes && curState !in {A, B, C}) ==>
        (asked <==> old(userSignal) || asks != old(asks)) && (hit <==> powers != old(powers)) &&
        (asked ==> n == if |asks| == |old(asks)| then old(newState) else asks[|asks| - 1])
      ensures !old(!powerHit && opModes == NormalModes && curState !in {A, B, C}) ==> userSignal == old(userSignal)
    {
      hide Sound;
      asked, n, hit := false, Unset, false;
      if powerHit {
        opModes := PfModes;
        prevState := Unset;
      } else if opModes != NormalModes {
        if opModes == PfModes {
          prevState := curState;
        }
        opModes := NormalModes;
      } else if OnDemand(curState) {
        curState := priorState;
        priorState := prevState;
        prevState := curState;
      } else {
        prevState := curState;
        ok := AwaitSignal();
        if !ok {
          return;
        }
        if userSignal {
          asked, n := true, newState;
          NewLevel();
        }
        hit := powerHit;
        if powerHit {
          opModes := PfModes;
        }
        userSignal, childDeath, powerHit := false, false, false;
      }
      ok := true;
    }

    // init.c:676-713.
    method NewLevel()
      modifies this`prevState, this`priorState, this`curState, this`newState, this`chgLvl
      ensures Now() == Changed(old(Now()), old(newState)) && newState == Unset
      ensures chgLvl == (old(chgLvl) || (old(newState) != old(curState) && !OnDemand(old(newState))))
    {
      if newState != curState {
        if OnDemand(newState) {
          prevState := priorState;
          priorState := curState;
          curState := newState;
        } else {
          prevState := curState;
          priorState := curState;
          curState := newState;
          chgLvl := true;
        }
      }
      newState := Unset;
    }

    // init.c:577-592: processes that may not live are removed, others started.
    method OnePass() returns (ok: bool, ghost pass: Pass)
      requires Valid() && w.busy == -1 && catching
      modifies this, proc
      ensures Valid() && curState == old(curState)
      ensures ok ==> w.busy == -1 && catching && InFull(pass)
      ensures !ok ==> Stuck() || Awaiting()
    {
      hide Sound, StartedOk, Spared, InFull, Looks, LookedAt, Stuck, Awaiting;
      ok, pass := true, Pass(curState, prevState, opModes, [], [], opModes, [], w.ids, [], w.ids);
      if opModes == NormalModes && !OnDemand(curState) {
        var tab := ReadTab();
        ok := Remove(tab);
        pass := pass.(rules := tab, removed := proc[..], ids := w.ids);
      }
      if !ok {
        return;
      }
      chgLvl := false;
      var tab := ReadTab();
      ghost var looks;
      ok, looks := Spawn(tab);
      if ok {
        pass := pass.(modes := opModes, tab := tab, looks := looks, ids' := w.ids);
        MadeInFull(pass);
      }
    }

    // init.c:574-724, any number of passes, each with the inittab of the moment
    // and with signals and deaths in any order. Whenever signals are let in:
    // an id has one slot at most, and one living process at most; and no process
    // is sent SIGTERM twice unless the table was full for a killing process. Every
    // pass is made in full, or init waits at last.
    method Run(passes: nat) returns (done: bool, ghost history: seq<Pass>)
      requires Valid() && w.busy == -1 && catching
      modifies this, proc
      ensures Valid()
      ensures forall i, j :: 0 <= i < j < NPROC && proc[i].flags.occupied && proc[j].flags.occupied && proc[i].id == proc[j].id ==>
        proc[i].id == ""
      ensures forall a, b :: a in w.alive && b in w.alive && a in w.ids && b in w.ids && w.ids[a] == w.ids[b] ==> a == b
      ensures w.noRooms == 0 ==> forall n <- w.terms :: w.terms[n] == 1
      ensures (forall p <- history :: InFull(p)) && (done ==> |history| == passes)
      ensures !done ==>
        Stuck() || Awaiting() || curState == SingleUser ||
        (!powerHit && opModes == NormalModes && curState !in {A, B, C} && !userSignal && !childDeath)
    {
      hide Sound, StartedOk, Spared, InFull, Looks, LookedAt, Stuck, Awaiting;
      history, done := [], true;
      for k := 0 to passes
        invariant Valid() && w.busy == -1 && catching && done
        invariant |history| == k && forall p <- history :: InFull(p)
      {
        var ok;
        ghost var pass;
        ok, pass := OnePass();
        if !ok {
          done := false;
          break;
        }
        history := history + [pass];
        if curState == SingleUser {
          ok := Single(Unset);
          if !ok {
            done := false;
            break;
          }
          if curState != prevState && !OnDemand(curState) {
            chgLvl := true;
            continue;
          }
        }
        ghost var asked, n, hit;
        ok, asked, n, hit := NextWork();
        if !ok {
          done := false;
          break;
        }
      }
      AtMostOne(proc[..], w);
    }
  }

  // target is the process that killproc() is at work on, if there is one.
  predicate TargetOk(w: World, target: int) {
    target != -1 ==> target == w.busy && 0 <= target < w.next && (w.noRooms == 0 ==> target !in w.terms)
  }

  // What signals leave as it was.
  predicate SameBut(v: World, w: World) {
    w == v.(alive := w.alive, children := w.children) && w.alive <= v.alive
  }

  // And fork().
  predicate SameButFork(v: World, w: World, target: int) {
    w == v.(alive := w.alive, children := w.children, next := v.next + 1, terms := MoreTerms(v.terms, target)) &&
    w.alive <= v.alive + {v.next}
  }

  function MoreTerms(terms: map<int, int>, target: int): map<int, int> {
    if target == -1 then terms else terms[target := 1 + if target in terms then terms[target] else 0]
  }

  // And efork().
  predicate SameButTerm(v: World, w: World, target: int) {
    w == v.(alive := w.alive, children := w.children, next := v.next + 1, terms := MoreTerms(v.terms, target), inc := w.inc)
  }

  // n has just been forked and has no slot yet.
  predicate NewChild(t: Table, w: World, pid: int, n: int) {
    |t| == |w.inc| == NPROC && 0 <= n < w.next && n !in w.ids && n !in w.terms && pid in w.children && w.children[pid] == n &&
    forall j :: 0 <= j < NPROC && t[j].flags.occupied ==> w.inc[j] != n
  }

  // Calm, with slot i filled.
  predicate CalmBut(t: Table, w: World, t': Table, w': World, i: int) {
    |t| == |t'| == |w.inc| == |w'.inc| == NPROC && w.next <= w'.next && w'.ids == w.ids &&
    forall j :: 0 <= j < NPROC && j != i ==> CalmSlot(t[j], w.inc[j], t'[j], w'.inc[j], w.next)
  }

  // The flags of a killing process.
  const KILLER := Flags(true, true, false, false, false, false, false, false)

  // Process n has been sent SIGTERM, once for every attempt to enter the killer.
  predicate KilledOnce(v: World, w: World, n: int) {
    w == v.(alive := w.alive, children := w.children, next := w.next, inc := w.inc, busy := w.busy, noRooms := w.noRooms,
            terms := v.terms[n := 1 + w.noRooms - v.noRooms])
  }

  lemma KillerPlaced(t: Table, w: World, t': Table, w': World, t'': Table, w'': World, i: int)
    requires Calm(t, w, t', w'.(busy := w.busy)) && CalmBut(t', w', t'', w'', i) && -1 <= i < NPROC
    requires i != -1 ==> t''[i].flags == KILLER && t''[i].id == "" && w''.inc[i] == w'.next
    ensures Calm(t, w, t'', w'')
  {
    forall j | 0 <= j < NPROC ensures CalmSlot(t[j], w.inc[j], t''[j], w''.inc[j], w.next) {
      assert CalmSlot(t[j], w.inc[j], t'[j], w'.inc[j], w.next);
      if j != i { assert CalmSlot(t'[j], w'.inc[j], t''[j], w''.inc[j], w'.next); }
    }
  }

  // Between the pause and the next fork.
  lemma RoomMissed(t: Table, v: World, v0: World, v1: World)
    requires Sound(t, v) && 0 <= v.busy < v.next && v0 == v.(noRooms := v.noRooms + 1) && SameBut(v0, v1)
    ensures TargetOk(v1, v1.busy) && v1 == v1.(busy := v.busy) && v1.busy == v.busy
  {
  }

  lemma KilledOnceMore(v: World, v0: World, v1: World, w: World)
    requires v0 == v.(noRooms := v.noRooms + 1) && SameBut(v0, v1) && SameButTerm(v1, w, v.busy)
    ensures
      w == v.(alive := w.alive, children := w.children, next := w.next, inc := w.inc, noRooms := v.noRooms + 1,
              terms := MoreTerms(v.terms, v.busy))
  {
  }

  lemma KilledAgain(v: World, v1: World, w: World, n: int)
    requires KilledOnce(v, v1, n) && v1.busy == n && n != -1
    requires w == v1.(alive := w.alive, children := w.children, next := w.next, inc := w.inc, noRooms := v1.noRooms + 1,
                      terms := MoreTerms(v1.terms, n))
    ensures KilledOnce(v, w, n)
  {
  }

  function Marked(t: Table, i: int, touched: bool, warned: bool, killed: bool): Table
    requires 0 <= i < |t|
  {
    Reflag(t, i, t[i].flags.(touched := touched, warned := warned, killed := killed))
  }

  // SIGTERM for the process of slot i alone, which is marked if it is still there.
  ghost predicate Condemned(t: Table, w: World, t': Table, w': World, i: int)
    requires |w.inc| == NPROC && 0 <= i < NPROC
  {
    CalmBut(t, w, t', w', i) && SinceSlot(t[i], w.inc[i], t'[i], w'.inc[i]) && (t'[i].flags.named ==> t'[i].flags.killed) &&
    forall m :: m != w.inc[i] ==> (m in w'.terms <==> m in w.terms) && (m in w.terms ==> w'.terms[m] == w.terms[m])
  }

  // A slot since remove() began: no entry has been started in it.
  predicate SinceSlot(a: Slot, n: int, b: Slot, m: int) {
    b.flags.named ==>
      a.flags.named && b.id == a.id && m == n && b.flags.demand == a.flags.demand && (b.flags.living ==> a.flags.living)
  }

  lemma AlreadyKilled(t: Table, w: World, t': Table, i: int)
    requires Sound(t, w) && 0 <= i < NPROC && t[i].flags.killed && exists a, b :: t' == Marked(t, i, a, b, true)
    ensures Condemned(t, w, t', w, i)
  {
  }

  lemma SelfKilled(t: Table, w: World, t1: Table, t': Table, w': World, i: int)
    requires Sound(t, w) && 0 <= i < NPROC && exists a, b :: t1 == Marked(t, i, a, b, false)
    requires t' == Reflag(t1, i, t1[i].flags.(killed := true)) && w' == w.(terms := w.terms[w.inc[i] := 1])
    ensures Condemned(t, w, t', w', i)
  {
  }

  lemma StillTarget(t1: Table, w: World, t2: Table, w2: World, i: int)
    requires 0 <= i < NPROC && Calm(t1, w, t2, w2) && KilledOnce(w, w2, w.inc[i])
    ensures |w2.inc| == NPROC && (t2[i].flags.named ==> w2.inc[i] in w2.terms)
  {
    assert CalmSlot(t1[i], w.inc[i], t2[i], w2.inc[i], w.next);
  }

  lemma KillDone(t: Table, w: World, t1: Table, t2: Table, w2: World, t': Table, i: int)
    requires Sound(t, w) && 0 <= i < NPROC && t[i].flags.occupied && exists a, b :: t1 == Marked(t, i, a, b, false)
    requires Sound(t2, w2) && w2.busy == w.inc[i] && Calm(t1, w, t2, w2) && KilledOnce(w, w2, w.inc[i]) && w.busy == -1
    requires exists a, b :: t' == Marked(t2, i, a, b, true) && Sound(t', w2)
    ensures Sound(t', w2.(busy := -1)) && Condemned(t, w, t', w2.(busy := -1), i)
  {
    assert CalmSlot(t1[i], w.inc[i], t2[i], w2.inc[i], w.next);
    forall j | 0 <= j < NPROC && j != i ensures CalmSlot(t[j], w.inc[j], t'[j], w2.inc[j], w.next) {
      assert CalmSlot(t1[j], w.inc[j], t2[j], w2.inc[j], w.next);
    }
    forall j | 0 <= j < NPROC && t'[j].flags.occupied && w2.inc[j] == w.inc[i] ensures t'[j].flags.killed {}
    DoneSound(t', w2);
  }

  // ---------- what remove() has done so far

  function Untouched(t: Table): Table {
    seq(|t|, i requires 0 <= i < |t| => t[i].(flags := t[i].flags.(touched := false)))
  }

  lemma UntouchedSound(t: Table, w: World)
    requires Sound(t, w)
    ensures Sound(Untouched(t), w)
  {
  }

  predicate Since(t: Table, w: World, t': Table, w': World) {
    |t| == |t'| == |w.inc| == |w'.inc| == NPROC && forall i :: 0 <= i < NPROC ==> SinceSlot(t[i], w.inc[i], t'[i], w'.inc[i])
  }

  // The first k entries have been looked at: a living process is touched if it
  // has one of them, and killed unless they let it live.
  predicate Scanned(tab: seq<Cmd>, k: nat, l: Level, s: Slot)
    requires k <= |tab|
  {
    s.flags.named && s.flags.living && !s.flags.killed ==>
      (s.flags.touched <==> exists c <- tab[..k] :: c.id == s.id) &&
      forall c <- tab[..k] :: c.id == s.id ==> Allowed(c, l, s.flags.demand)
  }

  // Nobody wanted has been sent a signal.
  ghost predicate Spared(t0: Table, v0: World, w: World, tab: seq<Cmd>, l: Level)
    requires |t0| == |v0.inc| == NPROC
  {
    forall i :: 0 <= i < NPROC && t0[i].flags.named && Wanted(tab, l, t0[i].id, t0[i].flags.demand) ==>
      var n := v0.inc[i];
      (n in w.terms <==> n in v0.terms) && (n in w.terms ==> w.terms[n] == v0.terms[n])
  }

  ghost predicate ScanOk(t0: Table, v0: World, t: Table, w: World, tab: seq<Cmd>, k: nat, l: Level) {
    k <= |tab| && Since(t0, v0, t, w) && Spared(t0, v0, w, tab, l) && forall i :: 0 <= i < NPROC ==> Scanned(tab, k, l, t[i])
  }

  lemma ScanBegin(t0: Table, v0: World, t: Table, tab: seq<Cmd>, l: Level)
    requires Sound(t0, v0) && t == Untouched(t0)
    ensures ScanOk(t0, v0, t, v0, tab, 0, l)
  {
  }

  lemma ScanCalm(t0: Table, v0: World, t: Table, w: World, t': Table, w': World, tab: seq<Cmd>, k: nat, l: Level)
    requires ScanOk(t0, v0, t, w, tab, k, l) && Calm(t, w, t', w') && w'.terms == w.terms
    ensures ScanOk(t0, v0, t', w', tab, k, l)
  {
    forall i | 0 <= i < NPROC
      ensures SinceSlot(t0[i], v0.inc[i], t'[i], w'.inc[i]) && Scanned(tab, k, l, t'[i])
    {
      assert SinceSlot(t0[i], v0.inc[i], t[i], w.inc[i]) && CalmSlot(t[i], w.inc[i], t'[i], w'.inc[i], w.next);
      assert Scanned(tab, k, l, t[i]);
    }
  }

  // One more entry, of which the slot knows nothing.
  lemma NotMine(tab: seq<Cmd>, k: nat, l: Level, s: Slot)
    requires k < |tab| && Scanned(tab, k, l, s) && (s.flags.named ==> s.id != tab[k].id)
    ensures Scanned(tab, k + 1, l, s)
  {
    assert tab[..k + 1] == tab[..k] + [tab[k]];
  }

  lemma ScanNone(t0: Table, v0: World, t: Table, w: World, tab: seq<Cmd>, k: nat, l: Level)
    requires Sound(t, w) && ScanOk(t0, v0, t, w, tab, k, l) && k < |tab|
    requires forall j :: 0 <= j < NPROC ==> !(t[j].flags.occupied && t[j].id == tab[k].id)
    ensures ScanOk(t0, v0, t, w, tab, k + 1, l)
  {
    forall i | 0 <= i < NPROC ensures Scanned(tab, k + 1, l, t[i]) {
      NotMine(tab, k, l, t[i]);
    }
  }

  lemma ScanOther(t0: Table, v0: World, t: Table, w: World, tab: seq<Cmd>, k: nat, l: Level, i: int, touched: bool)
    requires Sound(t, w) && ScanOk(t0, v0, t, w, tab, k, l) && k < |tab| && 0 <= i < NPROC
    requires t[i].flags.occupied && t[i].id == tab[k].id != ""
    requires t[i].flags.living ==> touched && Allowed(tab[k], l, t[i].flags.demand)
    ensures ScanOk(t0, v0, Marked(t, i, touched, t[i].flags.warned, t[i].flags.killed), w, tab, k + 1, l)
  {
    var t' := Marked(t, i, touched, t[i].flags.warned, t[i].flags.killed);
    assert tab[..k + 1] == tab[..k] + [tab[k]];
    assert Scanned(tab, k, l, t[i]);
    forall j | 0 <= j < NPROC && j != i ensures Scanned(tab, k + 1, l, t'[j]) {
      assert t'[j] == t[j];
      NotMine(tab, k, l, t[j]);
    }
    assert SinceSlot(t0[i], v0.inc[i], t[i], w.inc[i]);
  }

  // What a signal to slot i means for the others.
  lemma CondemnedOthers(t0: Table, v0: World, t: Table, w: World, t': Table, w': World, tab: seq<Cmd>, l: Level, i: int)
    requires Sound(t0, v0) && Since(t0, v0, t, w) && Spared(t0, v0, w, tab, l) && 0 <= i < NPROC && |w.inc| == NPROC
    requires Condemned(t, w, t', w', i) && t[i].flags.named && !Wanted(tab, l, t[i].id, t[i].flags.demand)
    ensures Since(t0, v0, t', w') && Spared(t0, v0, w', tab, l)
  {
    forall j | 0 <= j < NPROC ensures SinceSlot(t0[j], v0.inc[j], t'[j], w'.inc[j]) {
      assert SinceSlot(t0[j], v0.inc[j], t[j], w.inc[j]);
      if j != i { assert CalmSlot(t[j], w.inc[j], t'[j], w'.inc[j], w.next); }
    }
    assert SinceSlot(t0[i], v0.inc[i], t[i], w.inc[i]);
  }

  lemma ScanCondemned(t0: Table, v0: World, t: Table, w: World, t': Table, w': World, tab: seq<Cmd>, k: nat, l: Level, i: int)
    requires Sound(t0, v0) && Sound(t, w) && ScanOk(t0, v0, t, w, tab, k, l) && k < |tab| && 0 <= i < NPROC
    requires t[i].flags.occupied && t[i].id == tab[k].id != "" && !Allowed(tab[k], l, t[i].flags.demand)
    requires Condemned(t, w, t', w', i)
    ensures ScanOk(t0, v0, t', w', tab, k + 1, l)
  {
    CondemnedOthers(t0, v0, t, w, t', w', tab, l, i);
    forall j | 0 <= j < NPROC ensures Scanned(tab, k + 1, l, t'[j]) {
      if j != i {
        assert CalmSlot(t[j], w.inc[j], t'[j], w'.inc[j], w.next);
        assert Scanned(tab, k, l, t[j]);
        NotMine(tab, k, l, t'[j]);
      }
    }
  }

  lemma ScanUntouched(t0: Table, v0: World, t: Table, w: World, t': Table, w': World, tab: seq<Cmd>, l: Level, i: int)
    requires Sound(t0, v0) && Sound(t, w) && ScanOk(t0, v0, t, w, tab, |tab|, l) && 0 <= i < NPROC
    requires t[i].flags.named && t[i].flags.living && !t[i].flags.touched && !t[i].flags.killed
    requires Condemned(t, w, t', w', i)
    ensures ScanOk(t0, v0, t', w', tab, |tab|, l)
  {
    assert tab[..|tab|] == tab;
    assert Scanned(tab, |tab|, l, t[i]);
    CondemnedOthers(t0, v0, t, w, t', w', tab, l, i);
    forall j | 0 <= j < NPROC ensures Scanned(tab, |tab|, l, t'[j]) {
      if j != i {
        assert CalmSlot(t[j], w.inc[j], t'[j], w'.inc[j], w.next);
        assert Scanned(tab, |tab|, l, t[j]);
      }
    }
  }

  lemma ScanFreed(t0: Table, v0: World, t: Table, w: World, tab: seq<Cmd>, l: Level, i: int)
    requires ScanOk(t0, v0, t, w, tab, |tab|, l) && 0 <= i < NPROC
    ensures ScanOk(t0, v0, Reflag(t, i, NONE), w, tab, |tab|, l)
  {
    var t' := Reflag(t, i, NONE);
    assert forall j :: 0 <= j < NPROC && j != i ==> t'[j] == t[j];
    forall j | 0 <= j < NPROC ensures SinceSlot(t0[j], v0.inc[j], t'[j], w.inc[j]) && Scanned(tab, |tab|, l, t'[j]) {
      assert SinceSlot(t0[j], v0.inc[j], t[j], w.inc[j]) && Scanned(tab, |tab|, l, t[j]);
    }
  }

  // The last scan has been through the first i slots.
  predicate Treated(t: Table, i: int) {
    |t| == NPROC && forall j :: 0 <= j < i && j < NPROC && t[j].flags.named && t[j].flags.living ==> t[j].flags.touched || t[j].flags.killed
  }

  lemma NoneTreated(t: Table)
    requires |t| == NPROC
    ensures Treated(t, 0)
  {
  }

  lemma TreatedCalm(t: Table, w: World, t': Table, w': World, i: int)
    requires Treated(t, i) && Calm(t, w, t', w')
    ensures Treated(t', i)
  {
    forall j | 0 <= j < i && j < NPROC && t'[j].flags.named && t'[j].flags.living ensures t'[j].flags.touched || t'[j].flags.killed {
      assert CalmSlot(t[j], w.inc[j], t'[j], w'.inc[j], w.next);
    }
  }

  lemma TreatedCondemned(t: Table, w: World, t': Table, w': World, i: int)
    requires Treated(t, i) && |w.inc| == NPROC && 0 <= i < NPROC && Condemned(t, w, t', w', i)
    ensures Treated(t', i + 1)
  {
    forall j | 0 <= j < i && t'[j].flags.named && t'[j].flags.living ensures t'[j].flags.touched || t'[j].flags.killed {
      assert CalmSlot(t[j], w.inc[j], t'[j], w'.inc[j], w.next);
    }
  }

  lemma TreatedFreed(t: Table, i: int)
    requires Treated(t, i) && 0 <= i < NPROC
    ensures Treated(Reflag(t, i, NONE), i + 1)
  {
  }

  lemma TreatedDead(t: Table, i: int)
    requires Treated(t, i) && 0 <= i < NPROC
    requires t[i].flags.named && t[i].flags.living ==> t[i].flags.touched || t[i].flags.killed
    ensures Treated(t, i + 1)
  {
  }

  lemma InUse(t: Table, w: World, i: int)
    requires Sound(t, w) && 0 <= i < NPROC
    ensures t[i].flags.living ==> t[i].flags.occupied
  {
  }

  lemma ScanEnd(t0: Table, v0: World, t: Table, w: World, tab: seq<Cmd>, l: Level)
    requires ScanOk(t0, v0, t, w, tab, |tab|, l) && Treated(t, NPROC)
    ensures Spared(t0, v0, w, tab, l)
    ensures forall i :: 0 <= i < NPROC && t[i].flags.living && t[i].flags.named ==>
      (t[i].flags.touched || t[i].flags.killed) && (t[i].flags.killed || Wanted(tab, l, t[i].id, t[i].flags.demand))
  {
    assert tab[..|tab|] == tab;
    forall i | 0 <= i < NPROC && t[i].flags.living && t[i].flags.named && !t[i].flags.killed
      ensures Wanted(tab, l, t[i].id, t[i].flags.demand)
    {
      assert Scanned(tab, |tab|, l, t[i]);
    }
  }

  // ---------- where spawn() puts an entry's process

  // Slot i is free for the entry with this id, or has it already; no other has it.
  predicate SlotFor(t: Table, i: int, id: string) {
    |t| == NPROC && 0 <= i < NPROC && (t[i].flags.occupied ==> t[i].id == id) &&
    forall j :: 0 <= j < NPROC && j != i && t[j].flags.occupied ==> t[j].id != id
  }

  lemma FoundSlot(t: Table, w: World, i: int, id: string)
    requires Sound(t, w) && 0 <= i < NPROC && t[i].flags.occupied && t[i].id == id
    ensures id != "" ==> SlotFor(t, i, id)
  {
  }

  lemma TimedSlot(t: Table, i: int, id: string, time: int, count: int)
    requires SlotFor(t, i, id) && 0 <= i < |t|
    ensures SlotFor(t[i := t[i].(time := time, count := count)], i, id)
  {
  }

  lemma LaterSlotFor(t: Table, w: World, t': Table, w': World, i: int, id: string)
    requires SlotFor(t, i, id) && Later(t, w, t', w') && 0 <= i < |t|
    ensures SlotFor(t', i, id) && (t'[i].flags.living ==> t[i].flags.living)
    ensures w'.ids == w.ids && w'.next == w.next && w'.terms == w.terms && w'.busy == w.busy
  {
    forall j | 0 <= j < |t| ensures LaterSlot(t[j], t'[j]) {}
  }

  lemma LaterInUse(t: Table, w: World, t': Table, w': World, i: int)
    requires Later(t, w, t', w') && 0 <= i < |t|
    ensures |t'| == |t| && t'[i].flags.occupied == t[i].flags.occupied && t'[i].id == t[i].id && t'[i].flags.demand == t[i].flags.demand
    ensures w'.busy == w.busy && w'.terms == w.terms
  {
    assert LaterSlot(t[i], t'[i]);
  }

  lemma SizesOf(t: Table, w: World)
    requires Sound(t, w)
    ensures |t| == |w.inc| == NPROC
  {
  }

  lemma StillFor(t: Table, w: World, t': Table, w': World, i: int, id: string)
    requires SlotFor(t, i, id) && CalmBut(t, w, t', w', i) && id != ""
    ensures |w'.inc| == NPROC && forall j :: 0 <= j < NPROC && j != i && t'[j].flags.occupied ==> t'[j].id != id
  {
    forall j | 0 <= j < NPROC && j != i && t'[j].flags.occupied ensures t'[j].id != id {
      assert CalmSlot(t[j], w.inc[j], t'[j], w'.inc[j], w.next);
    }
  }

  lemma NextIsNew(t: Table, w: World)
    requires Sound(t, w)
    ensures w.next !in w.ids
  {
  }

  // Every process named since has an entry that may be started.
  ghost predicate StartedOk(ids: map<int, string>, ids': map<int, string>, tab: seq<Cmd>, l: Level, prev: Level, m: Modes) {
    forall n :: n in ids' && !(n in ids && ids[n] == ids'[n]) ==>
      exists k :: 0 <= k < |tab| && tab[k].id == ids'[n] && Startable(tab[k], l, prev, m)
  }

  // What becomes of an entry: if it is due it is started, unless it has been
  // respawning too rapidly; and if not, it is not.
  predicate LookedAt(t: Table, ids: map<int, string>, c: Cmd, n: int, ids': map<int, string>, l: Level, prev: Level, m: Modes) {
    if Due(t, c, l, prev, m) then ids' == ids[n := c.id] || (c.action == Action.Respawn && Exhausted(t, c.id) && ids' == ids)
    else ids' == ids
  }

  // A getty without a slot is started, if there is room, and so is a dead one with
  // fewer than 11 starts in its series.
  lemma FirstStart(t: Table, ids: map<int, string>, c: Cmd, n: int, ids': map<int, string>, l: Level, prev: Level, i: nat)
    requires LookedAt(t, ids, c, n, ids', l, prev, NormalModes)
    requires c.action == Action.Respawn && l in c.levels && l != Unset
    requires i < |t| && forall j :: 0 <= j < |t| && j != i && t[j].flags.occupied ==> t[j].id != c.id
    requires !t[i].flags.occupied || (t[i].id == c.id && !t[i].flags.living && (t[i].time == 0 || t[i].count < 10))
    ensures ids' == ids[n := c.id]
  {
    WhatIsDue(t, c, l, prev, NormalModes, i);
    WhatIsCalledFor(c, l, prev, NormalModes, t[i].flags.demand);
    WhatIsCalledFor(c, l, prev, NormalModes, false);
    hide Due, Startable, OrdinaryStart;
  }

  // The entry has had 11 starts in its series.
  predicate Exhausted(t: Table, id: string) {
    var i := SlotOfId(t, id, 0);
    i < |t| && t[i].time != 0 && t[i].count >= 10
  }

  // What is held back after signals was held back before.
  lemma ExhaustedSlot(t0: Table, t: Table, t': Table, reset: bool, id: string, i: int)
    requires |t0| == |t| == NPROC && Times(t, t', reset) && 0 <= i < |t|
    requires SlotOfId(t0, id, 0) < NPROC ==> i == SlotOfId(t0, id, 0) && t[i] == t0[i]
    requires SlotOfId(t0, id, 0) == NPROC ==> t[i] == NOBODY
    ensures t'[i].time != 0 && t'[i].count >= 10 ==> Exhausted(t0, id)
  {
  }

  lemma FirstCount(t: Table, w: World, i: int)
    requires Sound(t, w) && 0 <= i < NPROC
    ensures t[i].count >= 0 && |w.starts| == NPROC && (t[i].time == 0 ==> t[i].count == 0)
    ensures t[i].time != 0 && t[i].count >= 10 ==> w.starts[i] == 11
  {
  }

  // A process that was entered in a slot that is free now has died.
  lemma NotAlive(t: Table, w: World, n: int, i: int)
    requires Sound(t, w) && n in w.ids && n in w.at && w.at[n] == i && 0 <= i < NPROC && !t[i].flags.occupied
    ensures n !in w.alive
  {
  }

  lemma TimesKept(t: Table, t': Table, reset: bool, i: int)
    requires Times(t, t', reset) && 0 <= i < |t|
    ensures !reset ==> |t'| == |t| && t'[i].time == t[i].time && t'[i].count == t[i].count
  {
  }

  lemma TimesSame(t: Table, reset: bool)
    ensures Times(t, t, reset)
  {
  }

  lemma TimesGone(t: Table)
    ensures Times(t, TimesReset(t), true)
  {
  }

  lemma TimesReaped(t: Table, pid: int, status: int, reset: bool)
    ensures Times(t, Reaped(t, pid, status), reset)
  {
  }

  lemma TimesPlaced(t: Table, t': Table, reset: bool, i: int, pid: int, f: Flags)
    requires Times(t, t', reset) && 0 <= i < |t'|
    ensures Times(t, t'[i := t'[i].(id := "", pid := pid, exit := 0, flags := f)], reset)
  {
  }

  lemma TimesNamed(t: Table, t': Table, reset: bool, i: int, id: string)
    requires Times(t, t', reset) && 0 <= i < |t'|
    ensures Times(t, t'[i := t'[i].(id := id)], reset)
  {
  }

  lemma DueIs(t: Table, c: Cmd, l: Level, prev: Level, m: Modes, process: int, f: Flags)
    requires |t| == NPROC && 0 <= process < NPROC
    requires SlotOfId(t, c.id, 0) < NPROC ==> process == SlotOfId(t, c.id, 0) && f == t[process].flags
    requires SlotOfId(t, c.id, 0) == NPROC ==> !t[process].flags.occupied && f == NONE
    ensures Due(t, c, l, prev, m) <==> !f.living && Startable(c, l, prev, m) && (OrdinaryStart(c, l, prev, m) || f.demand)
  {
  }

  lemma IsDue(t: Table, ids: map<int, string>, c: Cmd, n: int, l: Level, prev: Level, m: Modes)
    ensures Due(t, c, l, prev, m) ==>
      LookedAt(t, ids, c, n, ids[n := c.id], l, prev, m) &&
      (c.action == Action.Respawn && Exhausted(t, c.id) ==> LookedAt(t, ids, c, n, ids, l, prev, m))
  {
  }

  lemma NotDue(t: Table, ids: map<int, string>, c: Cmd, n: int, l: Level, prev: Level, m: Modes)
    requires |t| == NPROC
    ensures (forall j :: 0 <= j < NPROC ==> t[j].flags.occupied && t[j].id != c.id) ==> LookedAt(t, ids, c, n, ids, l, prev, m)
    ensures !Due(t, c, l, prev, m) ==> LookedAt(t, ids, c, n, ids, l, prev, m)
  {
  }

  // What spawn() finds when it comes to an entry.
  datatype Look = Look(t: Table, ids: map<int, string>, next: int)

  // One entry after the other is looked at, and nothing is started in between.
  predicate Looks(ids: map<int, string>, tab: seq<Cmd>, looks: seq<Look>, ids': map<int, string>, l: Level, prev: Level, m: Modes) {
    |looks| <= |tab| &&
    if |looks| == 0 then ids' == ids
    else
      var k := |looks| - 1;
      Looks(ids, tab, looks[..k], looks[k].ids, l, prev, m) &&
      LookedAt(looks[k].t, looks[k].ids, tab[k], looks[k].next, ids', l, prev, m)
  }

  lemma OneMoreLook(ids: map<int, string>, tab: seq<Cmd>, looks: seq<Look>, look: Look, ids': map<int, string>, l: Level, prev: Level, m: Modes)
    requires Looks(ids, tab, looks, look.ids, l, prev, m) && |looks| < |tab|
    requires LookedAt(look.t, look.ids, tab[|looks|], look.next, ids', l, prev, m)
    ensures Looks(ids, tab, looks + [look], ids', l, prev, m)
  {
    assert (looks + [look])[..|looks|] == looks;
  }

  // A pass of the main loop: first the table is held against the inittab rules, if
  // the mode is the normal one and the level is not a, b or c, and then the
  // entries of tab are started.
  datatype Pass = Pass(cur: Level, prev: Level, entered: Modes, removed: Table, rules: seq<Cmd>, modes: Modes, tab: seq<Cmd>,
                       ids: map<int, string>, looks: seq<Look>, ids': map<int, string>)

  // Every living process that has no right to live has been killed, and every
  // entry has been looked at.
  predicate InFull(p: Pass) {
    (p.entered == NormalModes && p.cur != A && p.cur != B && p.cur != C ==>
       |p.removed| == NPROC &&
       forall s <- p.removed :: s.flags.living && s.flags.named ==> s.flags.killed || Wanted(p.rules, p.cur, s.id, s.flags.demand)) &&
    (p.modes == p.entered || p.modes == PfModes) &&
    |p.looks| == |p.tab| && Looks(p.ids, p.tab, p.looks, p.ids', p.cur, p.prev, p.modes)
  }

  lemma MadeInFull(p: Pass)
    requires p.entered == NormalModes && !OnDemand(p.cur) ==>
      |p.removed| == NPROC &&
      forall i :: 0 <= i < NPROC && p.removed[i].flags.living && p.removed[i].flags.named ==>
        p.removed[i].flags.killed || Wanted(p.rules, p.cur, p.removed[i].id, p.removed[i].flags.demand)
    requires p.modes == p.entered || p.modes == PfModes
    requires |p.looks| == |p.tab| && Looks(p.ids, p.tab, p.looks, p.ids', p.cur, p.prev, p.modes)
    ensures InFull(p)
  {
    hide Wanted, Looks;
  }

  // The right to live, in full.
  lemma LivesOn(tab: seq<Cmd>, l: Level, id: string, demand: bool)
    ensures Wanted(tab, l, id, demand) <==>
      l != SingleUser && (exists c <- tab :: c.id == id) &&
      forall c <- tab :: c.id == id ==> c.action != Off && (demand || l in c.levels || (l == Unset && c.levels != {}))
  {
  }

  lemma NoneStarted(ids: map<int, string>, tab: seq<Cmd>, l: Level, prev: Level, m: Modes)
    ensures StartedOk(ids, ids, tab, l, prev, m)
  {
  }

  lemma MayStart(ids: map<int, string>, ids': map<int, string>, n: int, tab: seq<Cmd>, k: nat, l: Level, prev: Level, m: Modes)
    requires StartedOk(ids, ids', tab, l, prev, m) && k < |tab| && Startable(tab[k], l, prev, m)
    ensures StartedOk(ids, ids'[n := tab[k].id], tab, l, prev, m)
  {
  }

  lemma AtMostOne(t: Table, w: World)
    requires Sound(t, w)
    ensures forall i, j :: 0 <= i < j < NPROC && t[i].flags.occupied && t[j].flags.occupied && t[i].id == t[j].id ==> t[i].id == ""
    ensures forall a, b :: a in w.alive && b in w.alive && a in w.ids && b in w.ids && w.ids[a] == w.ids[b] ==> a == b
    ensures w.noRooms == 0 ==> forall n <- w.terms :: w.terms[n] == 1
  {
    forall a, b | a in w.alive && b in w.alive && a in w.ids && b in w.ids && w.ids[a] == w.ids[b] ensures a == b {
      OneProcessPerId(t, w, a, b);
    }
  }

  lemma CalmNoRoom(t: Table, w: World, t': Table, w': World)
    requires Calm(t, w, t', w')
    ensures Calm(t, w, t', w'.(noRooms := w'.noRooms + 1))
  {
  }

  // A slot that efork() frees.
  predicate Stale(f: Flags) {
    f.occupied && !f.living && !f.nocleanup
  }

  predicate FreeSlot(t: Table) {
    exists i :: 0 <= i < |t| && t[i].flags == NONE
  }

  // efork() has room for a process of no entry.
  predicate HasRoom(t: Table) {
    exists i :: 0 <= i < |t| && (t[i].flags == NONE || Stale(t[i].flags))
  }

  // ---------- a table without room

  // What respawn() leaves behind when it starts a ONCE entry in slot i: a fork, the
  // slot filled, its id written.
  datatype State = State(t: Table, w: World)

  const ONCE := Flags(true, true, false, true, false, false, false, false)

  function Launched(s: State, i: int, pid: int, id: string): State
    requires 0 <= i < |s.t| && i < |s.w.inc|
  {
    var forked := Forked(s.w, pid, -1);
    var t := Placed(s.t, i, pid, ONCE);
    State(t[i := t[i].(id := id)],
          forked.(inc := s.w.inc[i := s.w.next], ids := s.w.ids[s.w.next := id], at := s.w.at[s.w.next := i]))
  }

  lemma LaunchSound(s: State, i: int, pid: int, id: string)
    requires Sound(s.t, s.w) && 0 <= i < NPROC && s.t[i] == NOBODY && pid !in s.w.children && id != ""
    requires forall j :: 0 <= j < NPROC && s.t[j].flags.occupied ==> s.t[j].id != id
    requires s.w.next !in s.w.terms
    ensures Sound(Launched(s, i, pid, id).t, Launched(s, i, pid, id).w)
  {
    var w1 := Forked(s.w, pid, -1);
    ForkSound(s.t, s.w, pid, -1);
    NextIsNew(s.t, s.w);
    NoneInSlot(s.t, s.w);
    var w2, t2 := w1.(inc := w1.inc[i := s.w.next]), Placed(s.t, i, pid, ONCE);
    hide Sound;
    PlaceSound(s.t, w1, i, pid, ONCE, s.w.next);
    NameSound(t2, w2, i, id);
  }

  lemma NoneInSlot(t: Table, w: World)
    requires Sound(t, w)
    ensures |t| == |w.inc| == NPROC && forall j :: 0 <= j < NPROC && t[j].flags.occupied ==> w.inc[j] != w.next
  {
  }

  // The start of init, and then one entry after the other, its process still alive.
  function Launches(n: nat): (s: State)
    requires n <= NPROC
    ensures |s.t| == |s.w.inc| == NPROC
  {
    if n == 0 then
      State(seq(NPROC, _ => NOBODY), World(0, {}, map[], map[], map[], seq(NPROC, _ => 0), seq(NPROC, _ => 0), map[], -1, 0))
    else
      Launched(Launches(n - 1), n - 1, n + 1, EntryId(n - 1))
  }

  const DIGITS := "0123456789"

  function EntryId(k: nat): string
    requires k < NPROC
  {
    [DIGITS[k / 10], DIGITS[k % 10]]
  }

  lemma EntryIdsDiffer(j: nat, k: nat)
    requires j < NPROC && k < NPROC && j != k
    ensures EntryId(j) != EntryId(k)
  {
    assert forall a, b :: 0 <= a < b < 10 ==> DIGITS[a] != DIGITS[b];
  }

  // n entries have been started.
  predicate Running(s: State, n: nat)
    requires n <= NPROC
  {
    Sound(s.t, s.w) && s.w.next == n && s.w.terms == map[] && (forall p <- s.w.children :: 2 <= p < n + 2) && FilledTo(s.t, n)
  }

  lemma {:induction false} LaunchesRun(n: nat)
    requires n <= NPROC
    ensures Running(Launches(n), n)
  {
    hide Running, Launched, EntryId;
    if n == 0 {
      NobodyYet();
    } else {
      LaunchesRun(n - 1);
      OneMoreRuns(Launches(n - 1), n - 1);
    }
  }

  lemma OneMoreRuns(s: State, n: nat)
    requires n < NPROC && Running(s, n)
    ensures Running(Launched(s, n, n + 2, EntryId(n)), n + 1)
  {
    hide Sound, FilledTo, Launched, EntryId;
    var id := EntryId(n);
    EntryIdNew(s.t, n);
    FilledSize(s.t, n);
    SoundSize(s.t, s.w);
    LaunchSound(s, n, n + 2, id);
    LaunchIs(s, n, n + 2, id);
    FilledOne(s.t, Launched(s, n, n + 2, id).t, n);
  }

  lemma FilledSize(t: Table, n: nat)
    requires n <= NPROC && FilledTo(t, n)
    ensures |t| == NPROC
  {
  }

  lemma SoundSize(t: Table, w: World)
    requires Sound(t, w)
    ensures |w.inc| == NPROC
  {
  }

  // Slots 0 to n - 1 hold entries, the others nothing.
  predicate FilledTo(t: Table, n: nat)
    requires n <= NPROC
  {
    |t| == NPROC &&
    forall i :: 0 <= i < NPROC ==> if i < n then t[i].flags == ONCE && t[i].id == EntryId(i) else t[i] == NOBODY
  }

  lemma NobodyYet()
    ensures Running(Launches(0), 0)
  {
  }

  lemma EntryIdNew(t: Table, n: nat)
    requires n < NPROC && FilledTo(t, n)
    ensures EntryId(n) != "" && t[n] == NOBODY
    ensures forall j :: 0 <= j < NPROC && t[j].flags.occupied ==> t[j].id != EntryId(n)
  {
    EntryIdLong(n);
    hide EntryId;
    forall j | 0 <= j < NPROC && t[j].flags.occupied ensures t[j].id != EntryId(n) {
      if j < n { EntryIdsDiffer(j, n); }
    }
  }

  lemma FilledOne(t: Table, t': Table, n: nat)
    requires n < NPROC && FilledTo(t, n) && |t'| == NPROC && t'[n].flags == ONCE && t'[n].id == EntryId(n)
    requires forall j :: 0 <= j < NPROC && j != n ==> t'[j] == t[j]
    ensures FilledTo(t', n + 1)
  {
  }

  lemma EntryIdLong(k: nat)
    requires k < NPROC
    ensures |EntryId(k)| == 2
  {
  }

  lemma LaunchIs(s: State, i: int, pid: int, id: string)
    requires 0 <= i < |s.t| && |s.w.inc| == |s.t|
    ensures
      var r := Launched(s, i, pid, id);
      r.w.next == s.w.next + 1 && r.w.terms == s.w.terms && r.w.children.Keys == s.w.children.Keys + {pid} &&
      |r.t| == |s.t| && r.t[i].flags == ONCE && r.t[i].id == id && forall j :: 0 <= j < |s.t| && j != i ==> r.t[j] == s.t[j]
  {
  }

  // A hundred ONCE entries started, and efork() has no room: killproc() of any of
  // the processes sends SIGTERM more than once.
  lemma FullTable()
    ensures
      var s := Launches(NPROC);
      Sound(s.t, s.w) && !HasRoom(s.t) &&
      forall i :: 0 <= i < NPROC ==> s.t[i].flags.named && s.t[i].flags.living && !s.t[i].flags.killed
  {
    hide Launches, Sound, HasRoom, FilledTo;
    LaunchesRun(NPROC);
    FilledUp(Launches(NPROC).t);
    AllOnce(Launches(NPROC).t);
  }

  lemma FilledUp(t: Table)
    requires FilledTo(t, NPROC)
    ensures |t| == NPROC && forall i :: 0 <= i < NPROC ==> t[i].flags == ONCE
  {
  }

  // So it goes with each of them.
  method SecondTerm(i: int) returns (init: Init)
    requires 0 <= i < NPROC
    ensures
      var n := Launches(NPROC).w.inc[i];
      n !in Launches(NPROC).w.terms && n in init.w.terms && init.w.terms[n] == 2
  {
    hide Launches, Sound, HasRoom;
    FullTable();
    var s := Launches(NPROC);
    NotBusy(NPROC);
    SoundFlags(s.t, s.w);
    init := new Init();
    forall k | 0 <= k < NPROC {
      init.proc[k] := s.t[k];
    }
    init.w := s.w;
    assert init.proc[..] == s.t;
    var process := init.KillTwice(i);
  }

  lemma {:induction false} NotBusy(n: nat)
    requires n <= NPROC
    ensures Launches(n).w.busy == -1
  {
    if n > 0 { NotBusy(n - 1); }
  }

  lemma SoundFlags(t: Table, w: World)
    requires Sound(t, w)
    ensures |t| == |w.inc| == NPROC && forall i :: 0 <= i < NPROC && t[i].flags.living ==> t[i].flags.occupied
  {
  }

  lemma AllOnce(t: Table)
    requires |t| == NPROC && forall i :: 0 <= i < NPROC ==> t[i].flags == ONCE
    ensures !HasRoom(t)
    ensures forall i :: 0 <= i < NPROC ==> t[i].flags.named && t[i].flags.living && !t[i].flags.killed
  {
  }

  lemma LaterIsFree(t: Table, w: World, t': Table, w': World)
    requires Sound(t, w) && Later(t, w, t', w')
    ensures FreeSlot(t') <==> FreeSlot(t)
  {
    forall i | 0 <= i < |t| ensures t[i].flags == NONE <==> t'[i].flags == NONE {
      assert LaterSlot(t[i], t'[i]);
    }
  }

  lemma ForkCalm(t: Table, w: World, t': Table, w': World, pid: int, target: int)
    requires Sound(t, w) && Sound(t', w') && Calm(t, w, t', w') && SameBut(w, w') && pid !in w'.children && TargetOk(w, target)
    ensures NewChild(t', Forked(w', pid, target), pid, w.next)
    ensures Calm(t, w, t', Forked(w', pid, target)) && SameButFork(w, Forked(w', pid, target), target)
  {
  }

  lemma StillDead(t: Table, w: World, t': Table, w': World, pid: int, i: int)
    requires Calm(t, w, t', w') && Sound(t', w') && NewChild(t', w', pid, w.next) && w'.next == w.next + 1
    requires 0 <= i < NPROC && !t[i].flags.living
    ensures !t'[i].flags.living
  {
    assert CalmSlot(t[i], w.inc[i], t'[i], w'.inc[i], w.next);
  }

  lemma ClearSound(t: Table, w: World, i: int)
    requires Sound(t, w) && 0 <= i < NPROC
    ensures Sound(t[i := t[i].(time := 0, count := 0)], w)
  {
  }

  lemma Freed(t: Table, t': Table, w: World, i: int)
    requires Calm(t, w, t', w) && 0 <= i < NPROC
    ensures Calm(t, w, Reflag(t', i, NONE), w)
  {
  }

  lemma LaterSame(t: Table, w: World)
    ensures Later(t, w, t, w)
  {
  }
}
