// init.c's process table next to the processes it stands for: what every step of
// init, and every signal that comes between two steps, keeps.

module InitTable {

  const NPROC := 100
  const SPAWN_LIMIT := 10
  const SPAWN_INTERVAL := 120
  const INHIBIT := 300

  // struct PROC_TABLE, with p_flags bit by bit.
  datatype Slot = Slot(id: string, pid: int, count: int, time: int, exit: int, flags: Flags)

  datatype Flags = Flags(occupied: bool, living: bool, nocleanup: bool, named: bool, demand: bool, touched: bool,
                         warned: bool, killed: bool)

  const NONE := Flags(false, false, false, false, false, false, false, false)

  type Table = seq<Slot>

  // The processes. Every fork() makes a new one, with a number of its own; a
  // process id may come back once its process has died and been waited for.
  datatype World = World(
    next: int,                // processes made so far
    alive: set<int>,          // those that have not died
    children: map<int, int>,  // process ids in use, up to wait()
    ids: map<int, string>,    // the inittab id of the entry a process runs
    at: map<int, int>,        // the slot where it was entered
    inc: seq<int>,            // the process that was last entered in each slot
    starts: seq<int>,         // starts of each slot's command in the current series
    terms: map<int, int>,     // SIGTERMs sent to each process
    busy: int,                // the process killproc() is at work on, -1 for none
    noRooms: int)             // failures of killproc() to enter the killing process

  predicate Sized(t: Table, w: World) {
    |t| == |w.inc| == |w.starts| == NPROC && w.noRooms >= 0 && w.next >= 0
  }

  predicate Flagged(t: Table) {
    forall i :: 0 <= i < |t| ==>
      (t[i].flags.living || t[i].flags.named ==> t[i].flags.occupied) && (t[i].flags.occupied && t[i].id != "" ==> t[i].flags.named)
  }

  // An inittab id has one slot at most.
  predicate OnePerId(t: Table) {
    forall i, j :: 0 <= i < j < |t| && t[i].flags.occupied && t[j].flags.occupied && t[i].id == t[j].id ==> t[i].id == ""
  }

  predicate OwnProcess(t: Table, w: World)
    requires Sized(t, w)
  {
    (forall i :: 0 <= i < NPROC && t[i].flags.occupied ==> 0 <= w.inc[i] < w.next) &&
    forall i, j :: 0 <= i < j < NPROC && t[i].flags.occupied && t[j].flags.occupied ==> w.inc[i] != w.inc[j]
  }

  // Who is alive is marked so, under his process id.
  predicate LivingMarked(t: Table, w: World)
    requires Sized(t, w)
  {
    (forall n <- w.alive :: 0 <= n < w.next) && (forall p <- w.children :: 0 <= w.children[p] < w.next) &&
    forall i :: 0 <= i < NPROC && t[i].flags.occupied && w.inc[i] in w.alive ==>
      t[i].flags.living && t[i].pid in w.children && w.children[t[i].pid] == w.inc[i]
  }

  // Whoever runs an inittab entry and is alive is in the table, under its id.
  predicate Entered(t: Table, w: World)
    requires Sized(t, w)
  {
    (forall n <- w.ids :: 0 <= n < w.next && w.ids[n] != "") &&
    forall n <- w.alive :: n in w.ids ==>
      n in w.at && 0 <= w.at[n] < NPROC && t[w.at[n]].flags.occupied && w.inc[w.at[n]] == n && t[w.at[n]].id == w.ids[n]
  }

  // Who has been sent SIGTERM is marked, and of those in inittab nobody else; it
  // was sent once, unless killproc() has failed to enter a killing process.
  predicate TermsMarked(t: Table, w: World)
    requires Sized(t, w)
  {
    (forall n <- w.terms :: 0 <= n < w.next && w.terms[n] >= 1 && (w.noRooms == 0 ==> w.terms[n] == 1)) &&
    forall i :: 0 <= i < NPROC && t[i].flags.occupied ==>
      (w.inc[i] in w.terms && w.inc[i] != w.busy ==> t[i].flags.killed) && (t[i].flags.killed && t[i].flags.named ==> w.inc[i] in w.terms)
  }

  // p_count counts the starts since p_time, up to the limit.
  predicate Throttled(t: Table, w: World)
    requires Sized(t, w)
  {
    forall i :: 0 <= i < NPROC ==>
      t[i].count >= 0 && (t[i].time == 0 ==> t[i].count == 0) &&
      (t[i].time != 0 ==> w.starts[i] == 1 + if t[i].count <= SPAWN_LIMIT then t[i].count else SPAWN_LIMIT)
  }

  predicate Sound(t: Table, w: World) {
    Sized(t, w) && Flagged(t) && OnePerId(t) && OwnProcess(t, w) && LivingMarked(t, w) && Entered(t, w) &&
    TermsMarked(t, w) && Throttled(t, w)
  }

  // ---------- what that means

  // No two processes alive run the same inittab entry.
  lemma OneProcessPerId(t: Table, w: World, a: int, b: int)
    requires Sound(t, w) && a in w.alive && b in w.alive && a in w.ids && b in w.ids && w.ids[a] == w.ids[b]
    ensures a == b
  {
    var i, j := w.at[a], w.at[b];
    assert t[i].id == t[j].id != "";
  }

  // No process is sent SIGTERM twice, unless the table was full for killproc().
  lemma OneTerm(t: Table, w: World, n: int)
    requires Sound(t, w) && n in w.terms
    ensures w.terms[n] == 1 || w.noRooms > 0
  {
  }

  // A series has SPAWN_LIMIT respawns after its first start.
  lemma SeriesLimit(t: Table, w: World, i: int)
    requires Sound(t, w) && 0 <= i < NPROC && t[i].time != 0
    ensures 1 <= w.starts[i] <= SPAWN_LIMIT + 1
  {
  }

  // ---------- signals

  // A child dies; nobody knows yet.
  function Died(w: World, n: int): World {
    w.(alive := w.alive - {n})
  }

  // The first occupied slot with this process id, from i on.
  function SlotOfPid(t: Table, pid: int, i: nat): (r: nat)
    requires i <= |t|
    ensures i <= r <= |t| && (r < |t| ==> t[r].flags.occupied && t[r].pid == pid)
    ensures forall k :: i <= k < r ==> !(t[k].flags.occupied && t[k].pid == pid)
    decreases |t| - i
  {
    if i == |t| then i else if t[i].flags.occupied && t[i].pid == pid then i else SlotOfPid(t, pid, i + 1)
  }

  // childeath(): the dead child is waited for, its slot marked.
  function Reaped(t: Table, pid: int, status: int): Table {
    var i := SlotOfPid(t, pid, 0);
    if i == |t| then t else t[i := t[i].(exit := status, flags := t[i].flags.(living := false))]
  }

  // siglvl() gives all commands a fresh start.
  function TimesReset(t: Table): Table {
    seq(|t|, i requires 0 <= i < |t| => t[i].(time := 0, count := 0))
  }

  // What signals may do to a slot.
  predicate LaterSlot(a: Slot, b: Slot) {
    b.id == a.id && b.pid == a.pid && (b.flags == a.flags || b.flags == a.flags.(living := false)) &&
    ((b.count == a.count && b.time == a.time) || (b.count == 0 && b.time == 0))
  }

  // What signals may do.
  predicate Later(t: Table, w: World, t': Table, w': World) {
    |t'| == |t| && (forall i :: 0 <= i < |t| ==> LaterSlot(t[i], t'[i])) &&
    w'.alive <= w.alive && w' == w.(alive := w'.alive, children := w'.children)
  }

  lemma LaterTwice(t: Table, w: World, t': Table, w': World, t'': Table, w'': World)
    requires Later(t, w, t', w') && Later(t', w', t'', w'')
    ensures Later(t, w, t'', w'')
  {
    forall i | 0 <= i < |t| ensures LaterSlot(t[i], t''[i]) {
      assert LaterSlot(t[i], t'[i]) && LaterSlot(t'[i], t''[i]);
    }
  }

  // Times and counts stay, unless a change of level has given all commands a fresh
  // start.
  predicate Times(t: Table, t': Table, reset: bool) {
    |t'| == |t| && forall i :: 0 <= i < |t| ==>
      (t'[i].time == t[i].time && t'[i].count == t[i].count) || (reset && t'[i].time == 0 && t'[i].count == 0)
  }

  lemma TimesTwice(t: Table, t': Table, t'': Table, reset: bool, reset': bool)
    requires Times(t, t', reset) && Times(t', t'', reset') && (reset ==> reset')
    ensures Times(t, t'', reset')
  {
  }

  lemma DeathSound(t: Table, w: World, n: int)
    requires Sound(t, w)
    ensures Sound(t, Died(w, n)) && Later(t, w, t, Died(w, n))
  {
  }

  lemma ReapSound(t: Table, w: World, pid: int, status: int)
    requires Sound(t, w) && pid in w.children && w.children[pid] !in w.alive
    ensures
      var t', w' := Reaped(t, pid, status), w.(children := w.children - {pid});
      Sound(t', w') && Later(t, w, t', w')
  {
    var t', w' := Reaped(t, pid, status), w.(children := w.children - {pid});
    ReapOne(t, pid, status);
    ReapLater(t, w, pid, status);
    hide Reaped;
  }

  // Only one slot is touched, and the process of another life in it is not alive.
  lemma ReapOne(t: Table, pid: int, status: int)
    ensures
      var t' := Reaped(t, pid, status);
      |t'| == |t| && forall i :: 0 <= i < |t| ==>
        t'[i] == t[i] || (t[i].flags.occupied && t[i].pid == pid && t'[i] == t[i].(exit := status, flags := t[i].flags.(living := false)))
  {
  }

  lemma ReapLater(t: Table, w: World, pid: int, status: int)
    ensures Later(t, w, Reaped(t, pid, status), w.(children := w.children - {pid}))
  {
    ReapOne(t, pid, status);
    hide Reaped;
    var t' := Reaped(t, pid, status);
    assert forall i :: 0 <= i < |t| ==> LaterSlot(t[i], t'[i]);
  }

  lemma ResetSound(t: Table, w: World)
    requires Sound(t, w)
    ensures Sound(TimesReset(t), w) && Later(t, w, TimesReset(t), w)
  {
  }

  // ---------- steps of init

  // p_flags = 0, or other bits changed, in slot i.
  function Reflag(t: Table, i: int, f: Flags): Table
    requires 0 <= i < |t|
  {
    t[i := t[i].(flags := f)]
  }

  // A slot of a dead process may be freed.
  lemma FreeSound(t: Table, w: World, i: int)
    requires Sound(t, w) && 0 <= i < NPROC && !t[i].flags.living
    ensures Sound(Reflag(t, i, NONE), w)
  {
  }

  // The marks that remove() sets.
  lemma MarkSound(t: Table, w: World, i: int, f: Flags)
    requires Sound(t, w) && 0 <= i < NPROC && (t[i].flags.killed ==> f.killed)
    requires f == t[i].flags.(touched := f.touched, warned := f.warned, killed := f.killed)
    requires f.killed && f.named ==> t[i].flags.killed || w.inc[i] in w.terms
    ensures Sound(Reflag(t, i, f), w)
  {
  }

  // An empty slot is zeroed.
  lemma ZeroSound(t: Table, w: World, i: int)
    requires Sound(t, w) && 0 <= i < NPROC && !t[i].flags.occupied
    ensures Sound(t[i := Slot("", 0, 0, 0, 0, NONE)], w)
  {
  }

  // fork(): target is the process the child is to kill, -1 for none.
  function Forked(w: World, pid: int, target: int): World {
    w.(next := w.next + 1, alive := w.alive + {w.next}, children := w.children[pid := w.next],
       terms := if target == -1 then w.terms else w.terms[target := 1 + if target in w.terms then w.terms[target] else 0])
  }

  lemma ForkSound(t: Table, w: World, pid: int, target: int)
    requires Sound(t, w) && pid !in w.children
    requires target != -1 ==> target == w.busy && 0 <= target < w.next && (w.noRooms == 0 ==> target !in w.terms)
    ensures Sound(t, Forked(w, pid, target))
  {
  }

  // efork() enters the child n in slot i.
  function Placed(t: Table, i: int, pid: int, f: Flags): Table
    requires 0 <= i < |t|
  {
    t[i := t[i].(id := "", pid := pid, exit := 0, flags := f)]
  }

  lemma PlaceSound(t: Table, w: World, i: int, pid: int, f: Flags, n: int)
    requires Sound(t, w) && 0 <= i < NPROC && !t[i].flags.living && f.occupied && f.living && !f.killed
    requires 0 <= n < w.next && n !in w.ids && n !in w.terms && pid in w.children && w.children[pid] == n
    requires forall j :: 0 <= j < NPROC && t[j].flags.occupied ==> w.inc[j] != n
    ensures Sound(Placed(t, i, pid, f), w.(inc := w.inc[i := n]))
  {
    var t', w' := Placed(t, i, pid, f), w.(inc := w.inc[i := n]);
    assert forall j :: 0 <= j < NPROC && j != i ==> t'[j] == t[j] && w'.inc[j] == w.inc[j];
  }

  // respawn() writes the id of the entry into the slot.
  lemma NameSound(t: Table, w: World, i: int, id: string)
    requires Sound(t, w) && 0 <= i < NPROC && t[i].flags.occupied && t[i].flags.named && id != ""
    requires forall j :: 0 <= j < NPROC && j != i && t[j].flags.occupied ==> t[j].id != id
    requires w.inc[i] !in w.ids
    ensures Sound(t[i := t[i].(id := id)], w.(ids := w.ids[w.inc[i] := id], at := w.at[w.inc[i] := i]))
  {
    var t' := t[i := t[i].(id := id)];
    assert forall j :: 0 <= j < NPROC && j != i ==> t'[j] == t[j];
  }

  // killproc() begins with the process in slot i, and is done with it.
  lemma BusySound(t: Table, w: World, i: int)
    requires Sound(t, w) && w.busy == -1 && 0 <= i < NPROC && t[i].flags.occupied && !t[i].flags.killed
    ensures Sound(t, w.(busy := w.inc[i])) && 0 <= w.inc[i] < w.next && w.inc[i] !in w.terms
  {
  }

  lemma DoneSound(t: Table, w: World)
    requires Sound(t, w) && forall i :: 0 <= i < NPROC && t[i].flags.occupied && w.inc[i] == w.busy ==> t[i].flags.killed
    ensures Sound(t, w.(busy := -1))
  {
  }

  lemma NoRoomSound(t: Table, w: World)
    requires Sound(t, w)
    ensures Sound(t, w.(noRooms := w.noRooms + 1))
  {
  }

  // A SIGTERM that init sends itself.
  lemma TermSound(t: Table, w: World, i: int, f: Flags)
    requires Sound(t, w) && 0 <= i < NPROC && t[i].flags.occupied && !t[i].flags.killed && w.busy == -1
    requires f == t[i].flags.(touched := f.touched, warned := f.warned, killed := true)
    ensures w.inc[i] !in w.terms && Sound(Reflag(t, i, f), w.(terms := w.terms[w.inc[i] := 1]))
  {
    var t' := Reflag(t, i, f);
    assert forall j :: 0 <= j < NPROC && j != i ==> t'[j] == t[j];
  }

  // respawn() begins a series of starts, or goes on with one, or holds the command
  // back (init.c:1126-1166).
  lemma StartSound(t: Table, w: World, i: int, time: int, count: int, starts: int)
    requires Sound(t, w) && 0 <= i < NPROC
    requires
      (time > 0 && count == 0 && starts == 1) ||
      (time == t[i].time != 0 && count == t[i].count + 1 && starts == w.starts[i] + if t[i].count < SPAWN_LIMIT then 1 else 0)
    ensures Sound(t[i := t[i].(time := time, count := count)], w.(starts := w.starts[i := starts]))
  {
    var t', w' := t[i := t[i].(time := time, count := count)], w.(starts := w.starts[i := starts]);
    Retimed(t, t', w, w', i);
    hide Flagged, OnePerId, OwnProcess, LivingMarked, Entered, TermsMarked;
    assert forall j :: 0 <= j < NPROC && j != i ==> t'[j] == t[j];
  }

  // All that does not depend on times and counts.
  lemma Retimed(t: Table, t': Table, w: World, w': World, i: int)
    requires Sound(t, w) && 0 <= i < NPROC == |t'| && t' == t[i := t[i].(time := t'[i].time, count := t'[i].count)]
    requires w' == w.(starts := w'.starts) && |w'.starts| == NPROC
    ensures Flagged(t') && OnePerId(t') && Sized(t', w') && OwnProcess(t', w') && LivingMarked(t', w') && Entered(t', w') && TermsMarked(t', w')
  {
    hide Throttled;
    assert forall j :: 0 <= j < NPROC && j != i ==> t'[j] == t[j];
  }
}
