/** Locks, sleep and wakeup, the scheduler, fork, exit and wait of src/sched.rs and
    src/spin.rs on their one CPU: every context (the scheduler and each task) has a
    program counter, and a run is a sequence of steps of whichever context has the CPU. */
module Sched {
  import opened Frames

  const NT: nat := 8

  datatype Lock = TaskLock(slot: nat) | WaitLock | DevLock(dev: nat)
  datatype Chan = TaskChan(slot: nat) | DevChan(addr: nat)
  datatype TaskState = Free | Used | Ready | Running | Sleeping | Zombie
  datatype Cpu = AtScheduler | AtTask(slot: nat)

  /** Where a task is. Gone, Fresh, Parked and Yielded are switched out; the others
      are points in the code between two lock operations or state changes. */
  datatype Pc =
    | Gone
    | Fresh
    | Start
    | User
      // a section under a device lock, and wakeup in it
    | InDev(dev: nat)
    | DevWake(dev: nat, chan: Chan, k: nat)
    | DevWakeAt(dev: nat, chan: Chan, k: nat)
      // sleep(chan, lk)
    | SleepCall(lk: Lock, chan: Chan)
    | SleepOwn(lk: Lock, chan: Chan)
    | SleepLet(lk: Lock, chan: Chan)
    | SleepSet(lk: Lock, chan: Chan)
    | Parked(lk: Lock, chan: Chan)
    | SleepBack(lk: Lock)
    | SleepClear(lk: Lock)
    | SleepRetake(lk: Lock)
      // yild
    | YieldOwn
    | YieldSet
    | Yielded
    | YieldBack
      // fork
    | ForkScan(k: nat)
    | ForkAt(k: nat)
    | ForkInit(child: nat)
    | ForkReady(child: nat)
    | ForkLink(child: nat)
    | ForkLinked(child: nat)
    | ForkDone(child: nat)
      // exit
    | ExitCall
    | ExitWake(k: nat)
    | ExitWakeAt(k: nat)
    | ExitOwn
    | ExitLeave
    | ExitOff
      // wait
    | WaitCall
    | WaitScan(k: nat, has: bool)
    | WaitAt(k: nat, has: bool)
    | WaitGot(child: nat)
    | WaitDone(answer: Option<nat>)

  datatype SchedPc =
    | Top
    | Irq(dev: nat)
    | IrqWake(dev: nat, chan: Chan, k: nat)
    | IrqWakeAt(dev: nat, chan: Chan, k: nat)
    | Scan(k: nat)
    | At(k: nat)
    | Out(k: nat)
    | Back(k: nat)
    | Done(k: nat)

  datatype State = State(
    cpu: Cpu,
    taskIdx: Option<nat>,
    held: set<Lock>,
    intDisables: nat,
    spc: SchedPc,
    pc: seq<Pc>,
    st: seq<TaskState>,
    chan: seq<Option<Chan>>,
    parent: seq<Option<nat>>)

  /** What the running context does next where the code leaves it open. */
  datatype Act = Stay | UseDev(dev: nat) | Leave | SleepOn(chan: Chan) | Wake(chan: Chan) | Yield | Fork | Exit | Wait

  datatype Outcome = Panic | Ok(s: State)

  predicate Shape(s: State) {
    |s.pc| == |s.st| == |s.chan| == |s.parent| == NT
  }

  // ------------------------------------------------------------------ the locks

  /** Lock::acquire with disable_intr: on one CPU a locked lock is held by this CPU. */
  function Acquire(s: State, l: Lock): Outcome {
    if l in s.held then Panic else Ok(s.(held := s.held + {l}, intDisables := s.intDisables + 1))
  }

  /** Lock::release with enable_intr, whose counter must not underflow. */
  function Release(s: State, l: Lock): Outcome {
    if l !in s.held || s.intDisables == 0 then Panic else Ok(s.(held := s.held - {l}, intDisables := s.intDisables - 1))
  }

  function Go(s: State, i: nat, pc: Pc): State
    requires i < |s.pc|
  {
    s.(pc := s.pc[i := pc])
  }

  function Then(r: Outcome, i: nat, pc: Pc): Outcome
    requires r.Ok? ==> i < |r.s.pc|
  {
    if r.Ok? then Ok(Go(r.s, i, pc)) else Panic
  }

  function SetState(s: State, k: nat, st: TaskState): State
    requires k < |s.st|
  {
    s.(st := s.st[k := st])
  }

  /** sched(): its asserts, then the switch back into scheduler(). */
  function SwitchOut(s: State, i: nat, pc: Pc): Outcome
    requires Shape(s) && i < NT
  {
    if s.taskIdx != Some(i) || s.intDisables != 1 || TaskLock(i) !in s.held || s.st[i].Running? || !s.spc.Out? then
      Panic
    else
      Ok(Go(s, i, pc).(cpu := AtScheduler, spc := Back(s.spc.k)))
  }

  /** Where a switched-out task continues. */
  function Resume(pc: Pc): Option<Pc> {
    match pc
    case Fresh => Some(Start)
    case Parked(lk, _) => Some(SleepBack(lk))
    case Yielded => Some(YieldBack)
    case _ => None
  }

  /** The body of wakeup's loop for one task. */
  function Rouse(s: State, k: nat, c: Chan): State
    requires Shape(s) && k < NT
  {
    if s.st[k].Sleeping? && s.chan[k] == Some(c) then SetState(s, k, Ready) else s
  }

  // ------------------------------------------------------------------ the steps

  function DevStep(s: State, i: nat, a: Act): Outcome
    requires Shape(s) && i < NT
  {
    match s.pc[i]
    case InDev(d) =>
      (match a
       case Leave => Then(Release(s, DevLock(d)), i, User)
       case SleepOn(c) => Ok(Go(s, i, SleepCall(DevLock(d), c)))
       case Wake(c) => Ok(Go(s, i, DevWake(d, c, 0)))
       case _ => Ok(s))
    case DevWake(d, c, k) =>
      if k < NT then Then(Acquire(s, TaskLock(k)), i, DevWakeAt(d, c, k)) else Ok(Go(s, i, InDev(d)))
    case DevWakeAt(d, c, k) =>
      if k < NT then Then(Release(Rouse(s, k, c), TaskLock(k)), i, DevWake(d, c, k + 1)) else Panic
    case _ => Panic
  }

  /** sleep returns to its caller: a device section, or the loop of wait. */
  function After(lk: Lock): Pc {
    if lk.DevLock? then InDev(lk.dev) else WaitScan(0, false)
  }

  function SleepStep(s: State, i: nat): Outcome
    requires Shape(s) && i < NT
  {
    match s.pc[i]
    case SleepCall(lk, c) => Then(Acquire(s, TaskLock(i)), i, SleepOwn(lk, c))
    case SleepOwn(lk, c) => Then(Release(s, lk), i, SleepLet(lk, c))
    case SleepLet(lk, c) => Ok(Go(SetState(s, i, Sleeping).(chan := s.chan[i := Some(c)]), i, SleepSet(lk, c)))
    case SleepSet(lk, c) => SwitchOut(s, i, Parked(lk, c))
    case SleepBack(lk) => Ok(Go(s.(chan := s.chan[i := None]), i, SleepClear(lk)))
    case SleepClear(lk) => Then(Acquire(s, lk), i, SleepRetake(lk))
    case SleepRetake(lk) => Then(Release(s, TaskLock(i)), i, After(lk))
    case _ => Panic
  }

  function YieldStep(s: State, i: nat): Outcome
    requires Shape(s) && i < NT
  {
    match s.pc[i]
    case YieldOwn => Ok(Go(SetState(s, i, Ready), i, YieldSet))
    case YieldSet => SwitchOut(s, i, Yielded)
    case YieldBack => Then(Release(s, TaskLock(i)), i, User)
    case _ => Panic
  }

  /** alloc_user_task and the end of fork. */
  function ForkStep(s: State, i: nat): Outcome
    requires Shape(s) && i < NT
  {
    match s.pc[i]
    case ForkScan(k) => if k < NT then Then(Acquire(s, TaskLock(k)), i, ForkAt(k)) else Ok(Go(s, i, User))
    case ForkAt(k) =>
      if k >= NT then Panic
      else if s.st[k].Free? then Ok(Go(SetState(s, k, TaskState.Used), i, ForkInit(k)))
      else Then(Release(s, TaskLock(k)), i, ForkScan(k + 1))
    case ForkInit(c) =>
      if c < NT then Ok(Go(Go(SetState(s, c, Ready), c, Fresh), i, ForkReady(c))) else Panic
    case ForkReady(c) => Then(Acquire(s, WaitLock), i, ForkLink(c))
    case ForkLink(c) =>
      if c < NT then Ok(Go(s.(parent := s.parent[c := Some(i)]), i, ForkLinked(c))) else Panic
    case ForkLinked(c) => Then(Release(s, WaitLock), i, ForkDone(c))
    case ForkDone(c) => Then(Release(s, TaskLock(c)), i, User)
    case _ => Panic
  }

  /** The end of free_task, and exit's switch away. */
  function ExitStep(s: State, i: nat): Outcome
    requires Shape(s) && i < NT
  {
    match s.pc[i]
    case ExitCall => Then(Acquire(s, WaitLock), i, ExitWake(if s.parent[i].Some? then 0 else NT))
    case ExitWake(k) =>
      if k < NT then Then(Acquire(s, TaskLock(k)), i, ExitWakeAt(k)) else Then(Acquire(s, TaskLock(i)), i, ExitOwn)
    case ExitWakeAt(k) =>
      if k < NT && s.parent[i].Some? then
        Then(Release(Rouse(s, k, TaskChan(s.parent[i].value)), TaskLock(k)), i, ExitWake(k + 1))
      else Panic
    case ExitOwn => Ok(Go(SetState(s, i, Zombie), i, ExitLeave))
    case ExitLeave => Then(Release(s, WaitLock), i, ExitOff)
    case ExitOff => SwitchOut(s, i, Gone)
    case _ => Panic
  }

  function WaitStep(s: State, i: nat): Outcome
    requires Shape(s) && i < NT
  {
    match s.pc[i]
    case WaitCall => Then(Acquire(s, WaitLock), i, WaitScan(0, false))
    case WaitScan(k, has) =>
      if k < NT then Then(Acquire(s, TaskLock(k)), i, WaitAt(k, has))
      else if has then Ok(Go(s, i, SleepCall(WaitLock, TaskChan(i))))
      else Ok(Go(s, i, WaitDone(None)))
    case WaitAt(k, has) =>
      if k >= NT then Panic
      else if s.parent[k] == Some(i) && s.st[k].Zombie? then
        Ok(Go(SetState(s, k, Free).(parent := s.parent[k := None]), i, WaitGot(k)))
      else Then(Release(s, TaskLock(k)), i, WaitScan(k + 1, has || s.parent[k] == Some(i)))
    case WaitGot(c) => Then(Release(s, TaskLock(c)), i, WaitDone(Some(c)))
    case WaitDone(_) => Then(Release(s, WaitLock), i, User)
    case _ => Panic
  }

  function TaskStep(s: State, i: nat, a: Act): Outcome
    requires Shape(s) && i < NT
  {
    match s.pc[i]
    case Start => Then(Release(s, TaskLock(i)), i, User)
    case User =>
      (match a
       case UseDev(d) => Then(Acquire(s, DevLock(d)), i, InDev(d))
       case Yield => Then(Acquire(s, TaskLock(i)), i, YieldOwn)
       case Fork => Ok(Go(s, i, ForkScan(0)))
       case Exit => if i == 0 then Ok(s) else Ok(Go(s, i, ExitCall))
       case Wait => Ok(Go(s, i, WaitCall))
       case _ => Ok(s))
    case InDev(_) => DevStep(s, i, a)
    case DevWake(_, _, _) => DevStep(s, i, a)
    case DevWakeAt(_, _, _) => DevStep(s, i, a)
    case SleepCall(_, _) => SleepStep(s, i)
    case SleepOwn(_, _) => SleepStep(s, i)
    case SleepLet(_, _) => SleepStep(s, i)
    case SleepSet(_, _) => SleepStep(s, i)
    case SleepBack(_) => SleepStep(s, i)
    case SleepClear(_) => SleepStep(s, i)
    case SleepRetake(_) => SleepStep(s, i)
    case YieldOwn => YieldStep(s, i)
    case YieldSet => YieldStep(s, i)
    case YieldBack => YieldStep(s, i)
    case ForkScan(_) => ForkStep(s, i)
    case ForkAt(_) => ForkStep(s, i)
    case ForkInit(_) => ForkStep(s, i)
    case ForkReady(_) => ForkStep(s, i)
    case ForkLink(_) => ForkStep(s, i)
    case ForkLinked(_) => ForkStep(s, i)
    case ForkDone(_) => ForkStep(s, i)
    case ExitCall => ExitStep(s, i)
    case ExitWake(_) => ExitStep(s, i)
    case ExitWakeAt(_) => ExitStep(s, i)
    case ExitOwn => ExitStep(s, i)
    case ExitLeave => ExitStep(s, i)
    case ExitOff => ExitStep(s, i)
    case WaitCall => WaitStep(s, i)
    case WaitScan(_, _) => WaitStep(s, i)
    case WaitAt(_, _) => WaitStep(s, i)
    case WaitGot(_) => WaitStep(s, i)
    case WaitDone(_) => WaitStep(s, i)
    case _ => Panic
  }

  function SGo(r: Outcome, spc: SchedPc): Outcome {
    if r.Ok? then Ok(r.s.(spc := spc)) else Panic
  }

  /** scheduler(), with device interrupts at the top of its loop. */
  function SchedStep(s: State, a: Act): Outcome
    requires Shape(s)
  {
    match s.spc
    case Top => if a.UseDev? then SGo(Acquire(s, DevLock(a.dev)), Irq(a.dev)) else Ok(s.(spc := Scan(0)))
    case Irq(d) =>
      (match a
       case Wake(c) => Ok(s.(spc := IrqWake(d, c, 0)))
       case Leave => SGo(Release(s, DevLock(d)), Top)
       case _ => Ok(s))
    case IrqWake(d, c, k) =>
      if k < NT then SGo(Acquire(s, TaskLock(k)), IrqWakeAt(d, c, k)) else Ok(s.(spc := Irq(d)))
    case IrqWakeAt(d, c, k) =>
      if k < NT then SGo(Release(Rouse(s, k, c), TaskLock(k)), IrqWake(d, c, k + 1)) else Panic
    case Scan(k) => if k < NT then SGo(Acquire(s, TaskLock(k)), At(k)) else Ok(s.(spc := Top))
    case At(k) =>
      if k >= NT then Panic
      else if s.st[k].Ready? then
        var to := Resume(s.pc[k]);
        if to.None? then Panic
        else Ok(Go(SetState(s, k, Running), k, to.value).(cpu := AtTask(k), taskIdx := Some(k), spc := Out(k)))
      else SGo(Release(s, TaskLock(k)), Scan(k + 1))
    case Out(_) => Panic
    case Back(k) => Ok(s.(taskIdx := None, spc := Done(k)))
    case Done(k) => SGo(Release(s, TaskLock(k)), Scan(k + 1))
  }

  function Step(s: State, a: Act): Outcome
    requires Shape(s)
  {
    if s.cpu.AtScheduler? then SchedStep(s, a) else if s.cpu.slot < NT then TaskStep(s, s.cpu.slot, a) else Panic
  }

  function Boot(): State {
    State(AtScheduler, None, {}, 0, Top,
          seq(NT, i => if i == 0 then Fresh else Gone), seq(NT, i => if i == 0 then Ready else Free),
          seq(NT, _ => None), seq(NT, _ => None))
  }

  // -------------------------------------------------------------- the invariant

  /** The locks a task holds at a point of its code. */
  function Locks(i: nat, pc: Pc): set<Lock> {
    match pc
    case Start => {TaskLock(i)}
    case InDev(d) => {DevLock(d)}
    case DevWake(d, _, _) => {DevLock(d)}
    case DevWakeAt(d, _, k) => {DevLock(d), TaskLock(k)}
    case SleepCall(lk, _) => {lk}
    case SleepOwn(lk, _) => {lk, TaskLock(i)}
    case SleepLet(_, _) => {TaskLock(i)}
    case SleepSet(_, _) => {TaskLock(i)}
    case SleepBack(_) => {TaskLock(i)}
    case SleepClear(_) => {TaskLock(i)}
    case SleepRetake(lk) => {lk, TaskLock(i)}
    case YieldOwn => {TaskLock(i)}
    case YieldSet => {TaskLock(i)}
    case YieldBack => {TaskLock(i)}
    case ForkAt(k) => {TaskLock(k)}
    case ForkInit(c) => {TaskLock(c)}
    case ForkReady(c) => {TaskLock(c)}
    case ForkLink(c) => {TaskLock(c), WaitLock}
    case ForkLinked(c) => {TaskLock(c), WaitLock}
    case ForkDone(c) => {TaskLock(c)}
    case ExitWake(_) => {WaitLock}
    case ExitWakeAt(k) => {WaitLock, TaskLock(k)}
    case ExitOwn => {WaitLock, TaskLock(i)}
    case ExitLeave => {WaitLock, TaskLock(i)}
    case ExitOff => {TaskLock(i)}
    case WaitScan(_, _) => {WaitLock}
    case WaitAt(k, _) => {WaitLock, TaskLock(k)}
    case WaitGot(c) => {WaitLock, TaskLock(c)}
    case WaitDone(_) => {WaitLock}
    case _ => {}
  }

  function SchedLocks(spc: SchedPc): set<Lock> {
    match spc
    case Irq(d) => {DevLock(d)}
    case IrqWake(d, _, _) => {DevLock(d)}
    case IrqWakeAt(d, _, k) => {DevLock(d), TaskLock(k)}
    case At(k) => {TaskLock(k)}
    case Back(k) => {TaskLock(k)}
    case Done(k) => {TaskLock(k)}
    case _ => {}
  }

  predicate Away(pc: Pc) {
    pc.Gone? || pc.Fresh? || pc.Parked? || pc.Yielded?
  }

  ghost predicate OthersAway(s: State, i: nat)
    requires Shape(s)
  {
    forall j :: 0 <= j < NT && j != i ==> Away(s.pc[j])
  }

  /** Who has the CPU, and which locks are held: exactly those of its program point. */
  ghost predicate Control(s: State)
    requires Shape(s)
  {
    && s.intDisables == |s.held|
    && match s.cpu
       case AtScheduler =>
         && !s.spc.Out? && OthersAway(s, NT) && s.held == SchedLocks(s.spc)
         && s.taskIdx == (if s.spc.Back? then Some(s.spc.k) else None)
       case AtTask(i) =>
         && i < NT && s.spc == Out(i) && s.taskIdx == Some(i)
         && !Away(s.pc[i]) && OthersAway(s, i) && s.held == Locks(i, s.pc[i])
  }

  /** The state and channel a slot has at each program point. */
  predicate SlotOk(i: nat, pc: Pc, st: TaskState, chan: Option<Chan>) {
    match pc
    case Gone => st.Free? || st.Used? || st.Zombie?
    case Fresh => st.Ready?
    case Parked(lk, c) => (st.Sleeping? || st.Ready?) && chan == Some(c) && SleepLock(i, lk, c)
    case Yielded => st.Ready?
    case SleepCall(lk, c) => st.Running? && SleepLock(i, lk, c)
    case SleepOwn(lk, c) => st.Running? && SleepLock(i, lk, c)
    case SleepLet(lk, c) => st.Running? && SleepLock(i, lk, c)
    case SleepSet(lk, c) => st.Sleeping? && chan == Some(c) && SleepLock(i, lk, c)
    case SleepBack(lk) => st.Running? && !lk.TaskLock?
    case SleepClear(lk) => st.Running? && !lk.TaskLock?
    case SleepRetake(lk) => st.Running? && !lk.TaskLock?
    case YieldSet => st.Ready?
    case ExitLeave => st.Zombie?
    case ExitOff => st.Zombie?
    case _ => st.Running?
  }

  /** sleep is called with a device lock, or by wait on the task's own channel. */
  predicate SleepLock(i: nat, lk: Lock, c: Chan) {
    lk.DevLock? || (lk.WaitLock? && c == TaskChan(i))
  }

  /** Task i has no zombie child below k. */
  ghost predicate NoZombie(s: State, i: nat, k: nat)
    requires Shape(s)
  {
    forall c :: 0 <= c < NT && c < k && s.parent[c] == Some(i) ==> !s.st[c].Zombie?
  }

  ghost predicate HasChild(s: State, i: nat, k: nat)
    requires Shape(s)
  {
    exists c :: 0 <= c < NT && c < k && s.parent[c] == Some(i)
  }

  /** Nobody below k sleeps on c. */
  ghost predicate NoneOn(s: State, c: Chan, k: nat)
    requires Shape(s)
  {
    forall j :: 0 <= j < NT && j < k ==> !(s.st[j].Sleeping? && s.chan[j] == Some(c))
  }

  /** Nobody below k sleeps on the exiting task's parent. */
  ghost predicate NoSleeper(s: State, i: nat, k: nat)
    requires Shape(s) && i < NT
  {
    s.parent[i].Some? ==> NoneOn(s, TaskChan(s.parent[i].value), k)
  }

  /** What the running task knows of the other slots at each program point. */
  ghost predicate Scene(s: State, i: nat)
    requires Shape(s) && i < NT
  {
    match s.pc[i]
    case DevWake(_, c, k) => NoneOn(s, c, k)
    case DevWakeAt(_, c, k) => k < NT && NoneOn(s, c, k)
    case SleepCall(lk, _) => lk.WaitLock? ==> NoZombie(s, i, NT)
    case SleepOwn(lk, _) => lk.WaitLock? ==> NoZombie(s, i, NT)
    case SleepLet(lk, _) => lk.WaitLock? ==> NoZombie(s, i, NT)
    case SleepSet(lk, _) => lk.WaitLock? ==> NoZombie(s, i, NT)
    case ForkAt(k) => k < NT
    case ForkInit(c) => c < NT && s.st[c].Used?
    case ForkReady(c) => c < NT && s.st[c].Ready?
    case ForkLink(c) => c < NT && s.st[c].Ready?
    case ForkLinked(c) => c < NT && s.st[c].Ready?
    case ForkDone(c) => c < NT
    case ExitWake(k) => NoSleeper(s, i, k) && (k < NT ==> s.parent[i].Some?)
    case ExitWakeAt(k) => k < NT && NoSleeper(s, i, k) && s.parent[i].Some?
    case ExitOwn => NoSleeper(s, i, NT)
    case WaitScan(k, has) => NoZombie(s, i, k) && (has <==> HasChild(s, i, k))
    case WaitAt(k, has) => k < NT && NoZombie(s, i, k) && (has <==> HasChild(s, i, k))
    case WaitGot(c) => c < NT && s.st[c].Free?
    case WaitDone(answer) => answer.None? ==> !HasChild(s, i, NT)
    case _ => true
  }

  ghost predicate SchedScene(s: State)
    requires Shape(s)
  {
    match s.spc
    case IrqWake(_, c, k) => NoneOn(s, c, k)
    case IrqWakeAt(_, c, k) => k < NT && NoneOn(s, c, k)
    case At(k) => k < NT
    case Out(k) => k < NT
    case Back(k) => k < NT
    case Done(k) => k < NT
    case _ => true
  }

  /** A task asleep in wait. */
  predicate Waiting(s: State, t: nat)
    requires Shape(s) && t < NT
  {
    s.pc[t].Parked? && s.pc[t].lk.WaitLock? && s.st[t].Sleeping?
  }

  /** No task asleep in wait has a zombie child: no wakeup was lost. */
  ghost predicate NoLost(s: State)
    requires Shape(s)
  {
    forall t :: 0 <= t < NT && Waiting(s, t) ==> NoZombie(s, t, NT)
  }

  ghost predicate Slots(s: State)
    requires Shape(s)
  {
    forall j :: 0 <= j < NT ==> SlotOk(j, s.pc[j], s.st[j], s.chan[j])
  }

  ghost predicate Inv(s: State) {
    && Shape(s)
    && Control(s)
    && Slots(s)
    && (s.cpu.AtTask? ==> Scene(s, s.cpu.slot))
    && SchedScene(s)
    && NoLost(s)
  }

  // ------------------------------------------------------- steps of one context

  /** Everything but the locks and the running task's program point is as it was. */
  ghost predicate OnlyMoved(s: State, s': State, i: nat, pc: Pc)
    requires Shape(s) && i < NT
  {
    s' == Go(s, i, pc).(held := s'.held, intDisables := s'.intDisables)
  }

  lemma MoveKeeps(s: State, s': State, i: nat, pc: Pc)
    requires Inv(s) && s.cpu == AtTask(i) && OnlyMoved(s, s', i, pc) && !Away(pc)
    requires s'.held == Locks(i, pc) && s'.intDisables == |s'.held|
    requires SlotOk(i, pc, s.st[i], s.chan[i]) && Scene(Go(s, i, pc), i)
    ensures Inv(s')
  {
    assert Scene(s', i) == Scene(Go(s, i, pc), i) by { SceneSame(Go(s, i, pc), s', i); }
    hide Scene, Locks, SlotOk, NoZombie;
    forall t | 0 <= t < NT && Waiting(s', t)
      ensures NoZombie(s', t, NT)
    {
      assert t != i && Waiting(s, t);
      ZombieSame(s, s', t, NT);
    }
  }

  lemma ZombieSame(s: State, s': State, i: nat, k: nat)
    requires Shape(s) && Shape(s') && s'.st == s.st && s'.parent == s.parent
    ensures NoZombie(s, i, k) == NoZombie(s', i, k)
  {}

  /** What a task knows of the others does not depend on locks or their program points. */
  lemma SceneSame(s: State, s': State, i: nat)
    requires Shape(s) && Shape(s') && i < NT && s.pc[i] == s'.pc[i]
    requires s'.st == s.st && s'.chan == s.chan && s'.parent == s.parent
    ensures Scene(s, i) == Scene(s', i)
  {
    hide NoZombie, HasChild, NoSleeper, NoneOn;
    forall c: Chan, k: nat
      ensures NoneOn(s, c, k) == NoneOn(s', c, k)
    {
      NoneSame(s, s', c, k);
    }
    forall k: nat
      ensures NoZombie(s, i, k) == NoZombie(s', i, k) && HasChild(s, i, k) == HasChild(s', i, k)
      ensures NoSleeper(s, i, k) == NoSleeper(s', i, k)
    {
      PartsSame(s, s', i, k);
    }
  }

  lemma NoneSame(s: State, s': State, c: Chan, k: nat)
    requires Shape(s) && Shape(s') && s'.st == s.st && s'.chan == s.chan
    ensures NoneOn(s, c, k) == NoneOn(s', c, k)
  {}

  lemma PartsSame(s: State, s': State, i: nat, k: nat)
    requires Shape(s) && Shape(s') && i < NT && s'.st == s.st && s'.chan == s.chan && s'.parent == s.parent
    ensures NoZombie(s, i, k) == NoZombie(s', i, k) && HasChild(s, i, k) == HasChild(s', i, k)
    ensures NoSleeper(s, i, k) == NoSleeper(s', i, k)
  {}

  lemma AcquireKeeps(s: State, i: nat, l: Lock, pc: Pc)
    requires Inv(s) && s.cpu == AtTask(i) && !Away(pc)
    requires l !in Locks(i, s.pc[i]) && Locks(i, pc) == Locks(i, s.pc[i]) + {l}
    requires SlotOk(i, pc, s.st[i], s.chan[i]) && Scene(Go(s, i, pc), i)
    ensures Then(Acquire(s, l), i, pc).Ok? && Inv(Then(Acquire(s, l), i, pc).s)
  {
    hide Scene, Locks, SlotOk, Slots, NoLost;
    MoveKeeps(s, Then(Acquire(s, l), i, pc).s, i, pc);
  }

  lemma ReleaseKeeps(s: State, i: nat, l: Lock, pc: Pc)
    requires Inv(s) && s.cpu == AtTask(i) && !Away(pc)
    requires l in Locks(i, s.pc[i]) && Locks(i, pc) == Locks(i, s.pc[i]) - {l}
    requires SlotOk(i, pc, s.st[i], s.chan[i]) && Scene(Go(s, i, pc), i)
    ensures Then(Release(s, l), i, pc).Ok? && Inv(Then(Release(s, l), i, pc).s)
  {
    hide Scene, Locks, SlotOk, Slots, NoLost;
    assert s.held == {l} + (s.held - {l});
    MoveKeeps(s, Then(Release(s, l), i, pc).s, i, pc);
  }

  lemma GoKeeps(s: State, i: nat, pc: Pc)
    requires Inv(s) && s.cpu == AtTask(i) && !Away(pc) && Locks(i, pc) == Locks(i, s.pc[i])
    requires SlotOk(i, pc, s.st[i], s.chan[i]) && Scene(Go(s, i, pc), i)
    ensures Inv(Go(s, i, pc))
  {
    hide Scene, Locks, SlotOk, Slots, NoLost;
    MoveKeeps(s, Go(s, i, pc), i, pc);
  }

  /** The running task changes its own state and channel, not becoming a zombie. */
  lemma SelfKeeps(s: State, i: nat, st: TaskState, chan: Option<Chan>, pc: Pc)
    requires Inv(s) && s.cpu == AtTask(i) && !Away(pc) && Locks(i, pc) == Locks(i, s.pc[i])
    requires !st.Zombie? && SlotOk(i, pc, st, chan)
    requires pc.SleepSet? && pc.lk.WaitLock? ==> NoZombie(s, i, NT)
    requires pc.SleepSet? || pc.SleepClear? || pc.YieldSet?
    ensures Inv(Go(s.(st := s.st[i := st], chan := s.chan[i := chan]), i, pc))
  {
    var s' := Go(s.(st := s.st[i := st], chan := s.chan[i := chan]), i, pc);
    hide Locks, SlotOk, NoZombie;
    forall t: nat
      ensures NoZombie(s, t, NT) ==> NoZombie(s', t, NT)
    {
      ZombieLess(s, s', t, NT);
    }
    forall t | 0 <= t < NT && Waiting(s', t)
      ensures NoZombie(s', t, NT)
    {
      assert t != i && Waiting(s, t);
    }
  }

  lemma ZombieLess(s: State, s': State, i: nat, k: nat)
    requires Shape(s) && Shape(s') && forall c :: 0 <= c < NT && s'.st[c].Zombie? ==> s.st[c].Zombie?
    requires forall c :: 0 <= c < NT && s'.parent[c] == Some(i) ==> s.parent[c] == Some(i) || !s'.st[c].Zombie?
    ensures NoZombie(s, i, k) ==> NoZombie(s', i, k)
  {}

  /** The switch into the scheduler: sched's asserts hold, only the task's own lock
      is held, and it passes to the scheduler. */
  lemma SwitchKeeps(s: State, i: nat, pc: Pc)
    requires Inv(s) && s.cpu == AtTask(i) && Locks(i, s.pc[i]) == {TaskLock(i)} && !s.st[i].Running?
    requires Away(pc) && SlotOk(i, pc, s.st[i], s.chan[i])
    requires pc.Parked? && pc.lk.WaitLock? ==> NoZombie(s, i, NT)
    ensures SwitchOut(s, i, pc).Ok? && Inv(SwitchOut(s, i, pc).s)
  {
    hide Locks, SlotOk, NoZombie, Scene;
    var s' := SwitchOut(s, i, pc).s;
    forall t | 0 <= t < NT && Waiting(s', t)
      ensures NoZombie(s', t, NT)
    {
      assert t != i ==> Waiting(s, t);
      ZombieSame(s, s', t, NT);
    }
  }

  /** Waking a task keeps everything; afterwards it does not sleep on c. */
  lemma RouseKeeps(s: State, k: nat, c: Chan)
    requires Inv(s) && k < NT
    requires s.cpu.AtTask? ==> s.pc[s.cpu.slot].DevWakeAt? || s.pc[s.cpu.slot].ExitWakeAt?
    ensures Inv(Rouse(s, k, c))
    ensures Rouse(s, k, c).pc == s.pc && Rouse(s, k, c).chan == s.chan && Rouse(s, k, c).parent == s.parent
    ensures !(Rouse(s, k, c).st[k].Sleeping? && s.chan[k] == Some(c))
    ensures forall j :: 0 <= j < NT && Rouse(s, k, c).st[j].Sleeping? ==> s.st[j].Sleeping?
  {
    var s' := Rouse(s, k, c);
    assert SlotOk(k, s.pc[k], s.st[k], s.chan[k]);
    assert SlotOk(k, s'.pc[k], s'.st[k], s'.chan[k]);
    hide Locks, SlotOk, NoZombie;
    forall t | 0 <= t < NT && Waiting(s', t)
      ensures NoZombie(s', t, NT)
    {
      assert Waiting(s, t);
      ZombieLess(s, s', t, NT);
    }
  }

  // ------------------------------------------------------------- every step safe

  lemma DevKeeps(s: State, i: nat, a: Act)
    requires Inv(s) && s.cpu == AtTask(i) && s.pc[i].InDev?
    ensures DevStep(s, i, a).Ok? && Inv(DevStep(s, i, a).s)
  {
    assert SlotOk(i, s.pc[i], s.st[i], s.chan[i]);
    var d := s.pc[i].dev;
    assert forall c :: NoneOn(Go(s, i, DevWake(d, c, 0)), c, 0);
    hide Control, Slots, NoLost, NoSleeper, NoZombie, HasChild, NoneOn;
    match a {
      case Leave => ReleaseKeeps(s, i, DevLock(d), User);
      case SleepOn(c) => GoKeeps(s, i, SleepCall(DevLock(d), c));
      case Wake(c) => GoKeeps(s, i, DevWake(d, c, 0));
      case _ =>
    }
  }

  lemma DevWakeKeeps(s: State, i: nat, a: Act)
    requires Inv(s) && s.cpu == AtTask(i) && s.pc[i].DevWake?
    ensures DevStep(s, i, a).Ok? && Inv(DevStep(s, i, a).s)
  {
    assert SlotOk(i, s.pc[i], s.st[i], s.chan[i]);
    var d, c, k := s.pc[i].dev, s.pc[i].chan, s.pc[i].k;
    hide Control, Slots, NoLost, NoSleeper, NoZombie, HasChild, NoneOn;
    if k < NT {
      NoneSame(s, Go(s, i, DevWakeAt(d, c, k)), c, k);
      AcquireKeeps(s, i, TaskLock(k), DevWakeAt(d, c, k));
    } else {
      GoKeeps(s, i, InDev(d));
    }
  }

  lemma DevWakeAtKeeps(s: State, i: nat, a: Act)
    requires Inv(s) && s.cpu == AtTask(i) && s.pc[i].DevWakeAt?
    ensures DevStep(s, i, a).Ok? && Inv(DevStep(s, i, a).s)
  {
    assert SlotOk(i, s.pc[i], s.st[i], s.chan[i]);
    var d, c, k := s.pc[i].dev, s.pc[i].chan, s.pc[i].k;
    RouseKeeps(s, k, c);
    RouseNone(s, k, c);
    NoneSame(Rouse(s, k, c), Go(Rouse(s, k, c), i, DevWake(d, c, k + 1)), c, k + 1);
    assert SlotOk(i, DevWake(d, c, k + 1), Rouse(s, k, c).st[i], s.chan[i]);
    hide Control, Slots, NoLost, NoneOn;
    ReleaseKeeps(Rouse(s, k, c), i, TaskLock(k), DevWake(d, c, k + 1));
  }

  /** One more task does not sleep on c. */
  lemma RouseNone(s: State, k: nat, c: Chan)
    requires Shape(s) && k < NT && NoneOn(s, c, k)
    ensures NoneOn(Rouse(s, k, c), c, k + 1)
  {}

  lemma SleepKeeps(s: State, i: nat)
    requires Inv(s) && s.cpu == AtTask(i)
    requires s.pc[i].SleepCall? || s.pc[i].SleepOwn? || s.pc[i].SleepLet? || s.pc[i].SleepSet?
    ensures SleepStep(s, i).Ok? && Inv(SleepStep(s, i).s)
  {
    assert SlotOk(i, s.pc[i], s.st[i], s.chan[i]);
    hide Control, Slots, NoLost;
    match s.pc[i]
    case SleepCall(lk, c) =>
      ZombieSame(s, Go(s, i, SleepOwn(lk, c)), i, NT);
      AcquireKeeps(s, i, TaskLock(i), SleepOwn(lk, c));
    case SleepOwn(lk, c) =>
      ZombieSame(s, Go(s, i, SleepLet(lk, c)), i, NT);
      ReleaseKeeps(s, i, lk, SleepLet(lk, c));
    case SleepLet(lk, c) => SelfKeeps(s, i, Sleeping, Some(c), SleepSet(lk, c));
    case SleepSet(lk, c) => SwitchKeeps(s, i, Parked(lk, c));
  }

  lemma SleepBackKeeps(s: State, i: nat)
    requires Inv(s) && s.cpu == AtTask(i) && s.pc[i].SleepBack?
    ensures SleepStep(s, i).Ok? && Inv(SleepStep(s, i).s)
  {
    assert SlotOk(i, s.pc[i], s.st[i], s.chan[i]);
    hide Control, Slots, NoLost, NoSleeper, NoZombie, HasChild;
    SelfKeeps(s, i, s.st[i], None, SleepClear(s.pc[i].lk));
    assert s.st[i := s.st[i]] == s.st;
  }

  lemma SleepClearKeeps(s: State, i: nat)
    requires Inv(s) && s.cpu == AtTask(i) && s.pc[i].SleepClear?
    ensures SleepStep(s, i).Ok? && Inv(SleepStep(s, i).s)
  {
    assert SlotOk(i, s.pc[i], s.st[i], s.chan[i]);
    hide Control, Slots, NoLost, NoSleeper, NoZombie, HasChild;
    AcquireKeeps(s, i, s.pc[i].lk, SleepRetake(s.pc[i].lk));
  }

  lemma SleepRetakeKeeps(s: State, i: nat)
    requires Inv(s) && s.cpu == AtTask(i) && s.pc[i].SleepRetake?
    ensures SleepStep(s, i).Ok? && Inv(SleepStep(s, i).s)
  {
    assert SlotOk(i, s.pc[i], s.st[i], s.chan[i]);
    hide Control, Slots, NoLost, NoSleeper;
    assert NoZombie(s, i, 0) && !HasChild(s, i, 0);
    PartsSame(s, Go(s, i, After(s.pc[i].lk)), i, 0);
    hide NoZombie, HasChild;
    ReleaseKeeps(s, i, TaskLock(i), After(s.pc[i].lk));
  }

  lemma YieldKeeps(s: State, i: nat)
    requires Inv(s) && s.cpu == AtTask(i) && (s.pc[i].YieldOwn? || s.pc[i].YieldSet? || s.pc[i].YieldBack?)
    ensures YieldStep(s, i).Ok? && Inv(YieldStep(s, i).s)
  {
    assert SlotOk(i, s.pc[i], s.st[i], s.chan[i]);
    hide Control, Slots, NoLost;
    match s.pc[i]
    case YieldOwn =>
      SelfKeeps(s, i, Ready, s.chan[i], YieldSet);
      assert s.chan[i := s.chan[i]] == s.chan;
    case YieldSet => SwitchKeeps(s, i, Yielded);
    case YieldBack => ReleaseKeeps(s, i, TaskLock(i), User);
  }

  lemma ForkScanKeeps(s: State, i: nat)
    requires Inv(s) && s.cpu == AtTask(i) && s.pc[i].ForkScan?
    ensures ForkStep(s, i).Ok? && Inv(ForkStep(s, i).s)
  {
    assert SlotOk(i, s.pc[i], s.st[i], s.chan[i]);
    hide Control, Slots, NoLost, NoSleeper, NoZombie, HasChild;
    var k := s.pc[i].k;
    if k < NT { AcquireKeeps(s, i, TaskLock(k), ForkAt(k)); } else { GoKeeps(s, i, User); }
  }

  lemma ForkReadyKeeps(s: State, i: nat)
    requires Inv(s) && s.cpu == AtTask(i) && s.pc[i].ForkReady?
    ensures ForkStep(s, i).Ok? && Inv(ForkStep(s, i).s)
  {
    assert SlotOk(i, s.pc[i], s.st[i], s.chan[i]);
    hide Control, Slots, NoLost, NoSleeper, NoZombie, HasChild;
    AcquireKeeps(s, i, WaitLock, ForkLink(s.pc[i].child));
  }

  lemma ForkLinkedKeeps(s: State, i: nat)
    requires Inv(s) && s.cpu == AtTask(i) && s.pc[i].ForkLinked?
    ensures ForkStep(s, i).Ok? && Inv(ForkStep(s, i).s)
  {
    assert SlotOk(i, s.pc[i], s.st[i], s.chan[i]);
    hide Control, Slots, NoLost, NoSleeper, NoZombie, HasChild;
    ReleaseKeeps(s, i, WaitLock, ForkDone(s.pc[i].child));
  }

  lemma ForkDoneKeeps(s: State, i: nat)
    requires Inv(s) && s.cpu == AtTask(i) && s.pc[i].ForkDone?
    ensures ForkStep(s, i).Ok? && Inv(ForkStep(s, i).s)
  {
    assert SlotOk(i, s.pc[i], s.st[i], s.chan[i]);
    hide Control, Slots, NoLost, NoSleeper, NoZombie, HasChild;
    ReleaseKeeps(s, i, TaskLock(s.pc[i].child), User);
  }

  lemma ForkAtKeeps(s: State, i: nat)
    requires Inv(s) && s.cpu == AtTask(i) && s.pc[i].ForkAt?
    ensures ForkStep(s, i).Ok? && Inv(ForkStep(s, i).s)
  {
    assert SlotOk(i, s.pc[i], s.st[i], s.chan[i]);
    hide Control, Slots, NoLost, NoSleeper, NoZombie, HasChild;
    var k := s.pc[i].k;
    if s.st[k].Free? {
      ForkTakeKeeps(s, i, k);
    } else {
      ReleaseKeeps(s, i, TaskLock(k), ForkScan(k + 1));
    }
  }

  /** A free slot is taken for the child. */
  lemma ForkTakeKeeps(s: State, i: nat, k: nat)
    requires Inv(s) && s.cpu == AtTask(i) && s.pc[i] == ForkAt(k) && k < NT && s.st[k].Free?
    ensures Inv(Go(SetState(s, k, TaskState.Used), i, ForkInit(k)))
  {
    var s' := Go(SetState(s, k, TaskState.Used), i, ForkInit(k));
    assert SlotOk(i, s.pc[i], s.st[i], s.chan[i]) && SlotOk(k, s.pc[k], s.st[k], s.chan[k]);
    assert SlotOk(i, s'.pc[i], s'.st[i], s'.chan[i]) && SlotOk(k, s'.pc[k], s'.st[k], s'.chan[k]);
    hide SlotOk, NoZombie;
    WaitersKeep(s, s');
  }

  /** If no task starts waiting and no zombie child appears, no wakeup is lost. */
  lemma WaitersKeep(s: State, s': State)
    requires Shape(s) && Shape(s') && NoLost(s)
    requires forall t :: 0 <= t < NT && Waiting(s', t) ==> Waiting(s, t)
    requires forall c :: 0 <= c < NT && s'.st[c].Zombie? ==> s.st[c].Zombie? && s'.parent[c] == s.parent[c]
    ensures NoLost(s')
  {
    forall t | 0 <= t < NT && Waiting(s', t)
      ensures NoZombie(s', t, NT)
    {
      assert NoZombie(s, t, NT);
    }
  }

  /** The child becomes ready, with a fresh context. */
  lemma ForkInitKeeps(s: State, i: nat)
    requires Inv(s) && s.cpu == AtTask(i) && s.pc[i].ForkInit?
    ensures ForkStep(s, i).Ok? && Inv(ForkStep(s, i).s)
  {
    var c, s' := s.pc[i].child, ForkStep(s, i).s;
    assert SlotOk(i, s.pc[i], s.st[i], s.chan[i]) && SlotOk(c, s.pc[c], s.st[c], s.chan[c]);
    assert SlotOk(i, s'.pc[i], s'.st[i], s'.chan[i]) && SlotOk(c, s'.pc[c], s'.st[c], s'.chan[c]);
    hide SlotOk, NoZombie;
    WaitersKeep(s, s');
  }

  lemma ForkLinkKeeps(s: State, i: nat)
    requires Inv(s) && s.cpu == AtTask(i) && s.pc[i].ForkLink?
    ensures ForkStep(s, i).Ok? && Inv(ForkStep(s, i).s)
  {
    var s' := ForkStep(s, i).s;
    assert SlotOk(i, s.pc[i], s.st[i], s.chan[i]);
    hide SlotOk, NoZombie;
    WaitersKeep(s, s');
  }

  lemma ExitCallKeeps(s: State, i: nat)
    requires Inv(s) && s.cpu == AtTask(i) && s.pc[i].ExitCall?
    ensures ExitStep(s, i).Ok? && Inv(ExitStep(s, i).s)
  {
    assert SlotOk(i, s.pc[i], s.st[i], s.chan[i]);
    hide Control, Slots, NoLost, NoZombie, HasChild;
    AcquireKeeps(s, i, WaitLock, ExitWake(if s.parent[i].Some? then 0 else NT));
  }

  lemma ExitScanKeeps(s: State, i: nat)
    requires Inv(s) && s.cpu == AtTask(i) && s.pc[i].ExitWake? && s.pc[i].k < NT
    ensures ExitStep(s, i).Ok? && Inv(ExitStep(s, i).s)
  {
    assert SlotOk(i, s.pc[i], s.st[i], s.chan[i]);
    hide Control, Slots, NoLost, NoSleeper, NoZombie, HasChild;
    var k := s.pc[i].k;
    PartsSame(s, Go(s, i, ExitWakeAt(k)), i, k);
    AcquireKeeps(s, i, TaskLock(k), ExitWakeAt(k));
  }

  lemma ExitScannedKeeps(s: State, i: nat)
    requires Inv(s) && s.cpu == AtTask(i) && s.pc[i].ExitWake? && s.pc[i].k >= NT
    ensures ExitStep(s, i).Ok? && Inv(ExitStep(s, i).s)
  {
    assert SlotOk(i, s.pc[i], s.st[i], s.chan[i]);
    hide Control, Slots, NoLost, NoSleeper, NoZombie, HasChild;
    SleeperLess(s, i, s.pc[i].k);
    PartsSame(s, Go(s, i, ExitOwn), i, NT);
    AcquireKeeps(s, i, TaskLock(i), ExitOwn);
  }

  lemma SleeperLess(s: State, i: nat, k: nat)
    requires Shape(s) && i < NT && NT <= k && NoSleeper(s, i, k)
    ensures NoSleeper(s, i, NT)
  {}

  lemma ExitLeaveKeeps(s: State, i: nat)
    requires Inv(s) && s.cpu == AtTask(i) && (s.pc[i].ExitLeave? || s.pc[i].ExitOff?)
    ensures ExitStep(s, i).Ok? && Inv(ExitStep(s, i).s)
  {
    assert SlotOk(i, s.pc[i], s.st[i], s.chan[i]);
    hide Control, Slots, NoLost, NoZombie, HasChild, NoSleeper;
    match s.pc[i]
    case ExitLeave => ReleaseKeeps(s, i, WaitLock, ExitOff);
    case ExitOff => SwitchKeeps(s, i, Gone);
  }

  lemma ExitWakeKeeps(s: State, i: nat)
    requires Inv(s) && s.cpu == AtTask(i) && s.pc[i].ExitWakeAt?
    ensures ExitStep(s, i).Ok? && Inv(ExitStep(s, i).s)
  {
    assert SlotOk(i, s.pc[i], s.st[i], s.chan[i]);
    var k, p := s.pc[i].k, s.parent[i].value;
    RouseKeeps(s, k, TaskChan(p));
    assert SlotOk(i, ExitWake(k + 1), Rouse(s, k, TaskChan(p)).st[i], s.chan[i]);
    hide Control, Slots, NoLost;
    ReleaseKeeps(Rouse(s, k, TaskChan(p)), i, TaskLock(k), ExitWake(k + 1));
  }

  /** Becoming a zombie: the parent is not asleep in wait, for it was woken under
      the WAIT lock that the exiting task still holds. */
  lemma ZombieKeeps(s: State, i: nat)
    requires Inv(s) && s.cpu == AtTask(i) && s.pc[i].ExitOwn?
    ensures ExitStep(s, i).Ok? && Inv(ExitStep(s, i).s)
  {
    var s' := ExitStep(s, i).s;
    forall t | 0 <= t < NT && Waiting(s', t)
      ensures NoZombie(s', t, NT)
    {
      assert SlotOk(t, s.pc[t], s.st[t], s.chan[t]) && Waiting(s, t);
      assert s.parent[i] != Some(t);
    }
  }

  lemma WaitCallKeeps(s: State, i: nat)
    requires Inv(s) && s.cpu == AtTask(i) && s.pc[i].WaitCall?
    ensures WaitStep(s, i).Ok? && Inv(WaitStep(s, i).s)
  {
    assert SlotOk(i, s.pc[i], s.st[i], s.chan[i]);
    hide Control, Slots, NoLost, NoSleeper;
    AcquireKeeps(s, i, WaitLock, WaitScan(0, false));
  }

  lemma WaitGotKeeps(s: State, i: nat)
    requires Inv(s) && s.cpu == AtTask(i) && s.pc[i].WaitGot?
    ensures WaitStep(s, i).Ok? && Inv(WaitStep(s, i).s)
  {
    assert SlotOk(i, s.pc[i], s.st[i], s.chan[i]);
    hide Control, Slots, NoLost, NoSleeper, NoZombie, HasChild;
    ReleaseKeeps(s, i, TaskLock(s.pc[i].child), WaitDone(Some(s.pc[i].child)));
  }

  lemma WaitDoneKeeps(s: State, i: nat)
    requires Inv(s) && s.cpu == AtTask(i) && s.pc[i].WaitDone?
    ensures WaitStep(s, i).Ok? && Inv(WaitStep(s, i).s)
  {
    assert SlotOk(i, s.pc[i], s.st[i], s.chan[i]);
    hide Control, Slots, NoLost, NoSleeper, NoZombie, HasChild;
    ReleaseKeeps(s, i, WaitLock, User);
  }

  lemma WaitScanKeeps(s: State, i: nat)
    requires Inv(s) && s.cpu == AtTask(i) && s.pc[i].WaitScan? && s.pc[i].k < NT
    ensures WaitStep(s, i).Ok? && Inv(WaitStep(s, i).s)
  {
    assert SlotOk(i, s.pc[i], s.st[i], s.chan[i]);
    hide Control, Slots, NoLost, NoSleeper, NoZombie, HasChild;
    var k, has := s.pc[i].k, s.pc[i].has;
    assert WaitStep(s, i) == Then(Acquire(s, TaskLock(k)), i, WaitAt(k, has));
    hide WaitStep;
    PartsSame(s, Go(s, i, WaitAt(k, has)), i, k);
    AcquireKeeps(s, i, TaskLock(k), WaitAt(k, has));
  }

  lemma WaitSleepKeeps(s: State, i: nat)
    requires Inv(s) && s.cpu == AtTask(i) && s.pc[i].WaitScan? && s.pc[i].k >= NT
    ensures WaitStep(s, i).Ok? && Inv(WaitStep(s, i).s)
  {
    assert SlotOk(i, s.pc[i], s.st[i], s.chan[i]);
    hide Control, Slots, NoLost, NoSleeper, NoZombie, HasChild;
    ScanEnd(s, i, s.pc[i].k);
    var next := if s.pc[i].has then SleepCall(WaitLock, TaskChan(i)) else WaitDone(None);
    assert WaitStep(s, i) == Ok(Go(s, i, next));
    hide WaitStep;
    PartsSame(s, Go(s, i, next), i, NT);
    GoKeeps(s, i, next);
  }

  lemma ScanEnd(s: State, i: nat, k: nat)
    requires Shape(s) && NT <= k
    ensures NoZombie(s, i, k) ==> NoZombie(s, i, NT)
    ensures HasChild(s, i, NT) <==> HasChild(s, i, k)
  {
    if HasChild(s, i, k) {
      var c :| 0 <= c < NT && c < k && s.parent[c] == Some(i);
      assert HasChild(s, i, NT);
    }
  }

  lemma WaitAtKeeps(s: State, i: nat)
    requires Inv(s) && s.cpu == AtTask(i) && s.pc[i].WaitAt?
    ensures WaitStep(s, i).Ok? && Inv(WaitStep(s, i).s)
  {
    assert i < NT;
    hide Control, Slots, NoLost, NoSleeper, NoZombie, HasChild, SlotOk, Locks;
    var k := s.pc[i].k;
    if s.parent[k] == Some(i) && s.st[k].Zombie? {
      ReapKeeps(s, i, k);
    } else {
      PassKeeps(s, i, k);
    }
  }

  lemma PassKeeps(s: State, i: nat, k: nat)
    requires Inv(s) && s.cpu == AtTask(i) && s.pc[i].WaitAt? && s.pc[i].k == k < NT
    requires !(s.parent[k] == Some(i) && s.st[k].Zombie?)
    ensures WaitStep(s, i).Ok? && Inv(WaitStep(s, i).s)
  {
    assert SlotOk(i, s.pc[i], s.st[i], s.chan[i]);
    var has := s.pc[i].has;
    ScanOn(s, i, k, has);
    var next := WaitScan(k + 1, has || s.parent[k] == Some(i));
    assert WaitStep(s, i) == Then(Release(s, TaskLock(k)), i, next);
    hide Control, Slots, NoLost, NoSleeper, NoZombie, HasChild, Scene, WaitStep, Then, Release;
    ReleaseKeeps(s, i, TaskLock(k), next);
  }

  /** A scanned slot that is not the caller's zombie. */
  lemma ScanOn(s: State, i: nat, k: nat, has: bool)
    requires Shape(s) && i < NT && k < NT && NoZombie(s, i, k) && (has <==> HasChild(s, i, k))
    requires !(s.parent[k] == Some(i) && s.st[k].Zombie?)
    ensures Scene(Go(s, i, WaitScan(k + 1, has || s.parent[k] == Some(i))), i)
  {
    var s' := Go(s, i, WaitScan(k + 1, has || s.parent[k] == Some(i)));
    PartsSame(s, s', i, k + 1);
    assert HasChild(s, i, k + 1) <==> HasChild(s, i, k) || s.parent[k] == Some(i);
  }

  /** wait frees a zombie's slot; its task has switched away for good. */
  lemma ReapKeeps(s: State, i: nat, k: nat)
    requires Inv(s) && s.cpu == AtTask(i) && k < NT && s.pc[i].WaitAt? && s.pc[i].k == k && s.st[k].Zombie?
    ensures s.pc[k].Gone?
    ensures Inv(Go(SetState(s, k, Free).(parent := s.parent[k := None]), i, WaitGot(k)))
  {
    var s' := Go(SetState(s, k, Free).(parent := s.parent[k := None]), i, WaitGot(k));
    assert SlotOk(i, s.pc[i], s.st[i], s.chan[i]) && SlotOk(k, s.pc[k], s.st[k], s.chan[k]);
    assert SlotOk(i, s'.pc[i], s'.st[i], s'.chan[i]) && SlotOk(k, s'.pc[k], s'.st[k], s'.chan[k]);
    hide SlotOk, NoZombie;
    WaitersKeep(s, s');
  }

  lemma StartKeeps(s: State, i: nat, a: Act)
    requires Inv(s) && s.cpu == AtTask(i) && s.pc[i].Start?
    ensures TaskStep(s, i, a).Ok? && Inv(TaskStep(s, i, a).s)
  {
    assert SlotOk(i, s.pc[i], s.st[i], s.chan[i]);
    hide Control, Slots, NoLost, NoSleeper, NoZombie, HasChild;
    ReleaseKeeps(s, i, TaskLock(i), User);
  }

  lemma UserKeeps(s: State, i: nat, a: Act)
    requires Inv(s) && s.cpu == AtTask(i) && s.pc[i].User?
    ensures TaskStep(s, i, a).Ok? && Inv(TaskStep(s, i, a).s)
  {
    assert SlotOk(i, s.pc[i], s.st[i], s.chan[i]);
    hide Control, Slots, NoLost, NoSleeper, NoZombie, HasChild, DevStep, SleepStep, YieldStep, ForkStep, ExitStep, WaitStep;
    match a {
      case UseDev(d) => AcquireKeeps(s, i, DevLock(d), InDev(d));
      case Yield => AcquireKeeps(s, i, TaskLock(i), YieldOwn);
      case Fork => CallKeeps(s, i, ForkScan(0));
      case Exit => if i != 0 { CallKeeps(s, i, ExitCall); }
      case Wait => CallKeeps(s, i, WaitCall);
      case _ =>
    }
  }

  lemma CallKeeps(s: State, i: nat, pc: Pc)
    requires Inv(s) && s.cpu == AtTask(i) && s.pc[i].User? && (pc.ForkScan? || pc.ExitCall? || pc.WaitCall?)
    ensures Inv(Go(s, i, pc))
  {
    assert SlotOk(i, s.pc[i], s.st[i], s.chan[i]);
    hide Control, Slots, NoLost, NoSleeper, NoZombie, HasChild;
    GoKeeps(s, i, pc);
  }

  lemma TaskKeeps(s: State, i: nat, a: Act)
    requires Inv(s) && s.cpu == AtTask(i)
    ensures TaskStep(s, i, a).Ok? && Inv(TaskStep(s, i, a).s)
  {
    var pc := s.pc[i];
    assert !Away(pc);
    hide Inv, DevStep, SleepStep, YieldStep, ForkStep, ExitStep, WaitStep;
    match pc
    case Start => StartKeeps(s, i, a);
    case User => UserKeeps(s, i, a);
    case InDev(_) => DevKeeps(s, i, a);
    case DevWake(_, _, _) => DevWakeKeeps(s, i, a);
    case DevWakeAt(_, _, _) => DevWakeAtKeeps(s, i, a);
    case SleepCall(_, _) => SleepKeeps(s, i);
    case SleepOwn(_, _) => SleepKeeps(s, i);
    case SleepLet(_, _) => SleepKeeps(s, i);
    case SleepSet(_, _) => SleepKeeps(s, i);
    case SleepBack(_) => SleepBackKeeps(s, i);
    case SleepClear(_) => SleepClearKeeps(s, i);
    case SleepRetake(_) => SleepRetakeKeeps(s, i);
    case YieldOwn => YieldKeeps(s, i);
    case YieldSet => YieldKeeps(s, i);
    case YieldBack => YieldKeeps(s, i);
    case ForkScan(_) => ForkScanKeeps(s, i);
    case ForkAt(_) => ForkAtKeeps(s, i);
    case ForkInit(_) => ForkInitKeeps(s, i);
    case ForkReady(_) => ForkReadyKeeps(s, i);
    case ForkLink(_) => ForkLinkKeeps(s, i);
    case ForkLinked(_) => ForkLinkedKeeps(s, i);
    case ForkDone(_) => ForkDoneKeeps(s, i);
    case ExitCall => ExitCallKeeps(s, i);
    case ExitWake(k) => if k < NT { ExitScanKeeps(s, i); } else { ExitScannedKeeps(s, i); }
    case ExitWakeAt(_) => ExitWakeKeeps(s, i);
    case ExitOwn => ZombieKeeps(s, i);
    case ExitLeave => ExitLeaveKeeps(s, i);
    case ExitOff => ExitLeaveKeeps(s, i);
    case WaitCall => WaitCallKeeps(s, i);
    case WaitScan(k, _) => if k < NT { WaitScanKeeps(s, i); } else { WaitSleepKeeps(s, i); }
    case WaitAt(_, _) => WaitAtKeeps(s, i);
    case WaitGot(_) => WaitGotKeeps(s, i);
    case WaitDone(_) => WaitDoneKeeps(s, i);
    case _ =>
  }

  // -------------------------------------------------------------- the scheduler

  /** The scheduler moves on between two switches. */
  lemma SchedMove(s: State, s': State, spc: SchedPc)
    requires Inv(s) && s.cpu.AtScheduler? && !spc.Out?
    requires s' == s.(spc := spc, taskIdx := s'.taskIdx, held := s'.held, intDisables := s'.intDisables)
    requires s'.held == SchedLocks(spc) && s'.intDisables == |s'.held|
    requires s'.taskIdx == (if spc.Back? then Some(spc.k) else None) && SchedScene(s')
    ensures Inv(s')
  {
    hide SchedLocks, SlotOk, NoZombie;
    forall t | 0 <= t < NT && Waiting(s', t)
      ensures NoZombie(s', t, NT)
    {
      assert Waiting(s, t);
      ZombieSame(s, s', t, NT);
    }
  }

  lemma SchedAcquire(s: State, l: Lock, spc: SchedPc)
    requires Inv(s) && s.cpu.AtScheduler? && !spc.Out? && !spc.Back? && !s.spc.Back?
    requires l !in SchedLocks(s.spc) && SchedLocks(spc) == SchedLocks(s.spc) + {l} && SchedScene(s.(spc := spc))
    ensures SGo(Acquire(s, l), spc).Ok? && Inv(SGo(Acquire(s, l), spc).s)
  {
    hide SchedLocks, Slots, NoLost;
    SchedMove(s, SGo(Acquire(s, l), spc).s, spc);
  }

  lemma SchedRelease(s: State, l: Lock, spc: SchedPc)
    requires Inv(s) && s.cpu.AtScheduler? && !spc.Out? && !spc.Back? && !s.spc.Back?
    requires l in SchedLocks(s.spc) && SchedLocks(spc) == SchedLocks(s.spc) - {l} && SchedScene(s.(spc := spc))
    ensures SGo(Release(s, l), spc).Ok? && Inv(SGo(Release(s, l), spc).s)
  {
    hide SchedLocks, Slots, NoLost;
    assert s.held == {l} + (s.held - {l});
    SchedMove(s, SGo(Release(s, l), spc).s, spc);
  }

  /** The switch into a ready task: it can always be resumed, and it takes over its
      own lock. */
  lemma DispatchKeeps(s: State, k: nat)
    requires Inv(s) && s.cpu.AtScheduler? && s.spc == At(k) && k < NT && s.st[k].Ready?
    ensures Resume(s.pc[k]).Some?
    ensures Inv(Go(SetState(s, k, Running), k, Resume(s.pc[k]).value).(cpu := AtTask(k), taskIdx := Some(k), spc := Out(k)))
  {
    assert SlotOk(k, s.pc[k], s.st[k], s.chan[k]);
    var s' := Go(SetState(s, k, Running), k, Resume(s.pc[k]).value).(cpu := AtTask(k), taskIdx := Some(k), spc := Out(k));
    assert SlotOk(k, s'.pc[k], s'.st[k], s'.chan[k]) && Scene(s', k) && Locks(k, s'.pc[k]) == {TaskLock(k)};
    hide SlotOk, NoZombie, Scene, Locks;
    WaitersKeep(s, s');
  }

  lemma IrqKeeps(s: State, a: Act)
    requires Inv(s) && s.cpu.AtScheduler? && (s.spc.Irq? || s.spc.IrqWake? || s.spc.IrqWakeAt?)
    ensures SchedStep(s, a).Ok? && Inv(SchedStep(s, a).s)
  {
    assert s.held == SchedLocks(s.spc) && s.intDisables == |s.held| && s.taskIdx == None;
    hide Control, Slots, NoLost;
    match s.spc
    case Irq(d) =>
      match a {
        case Wake(c) => SchedMove(s, s.(spc := IrqWake(d, c, 0)), IrqWake(d, c, 0));
        case Leave => SchedRelease(s, DevLock(d), Top);
        case _ =>
      }
    case IrqWake(d, c, k) =>
      if k < NT { SchedAcquire(s, TaskLock(k), IrqWakeAt(d, c, k)); } else { SchedMove(s, s.(spc := Irq(d)), Irq(d)); }
    case IrqWakeAt(d, c, k) =>
      RouseKeeps(s, k, c);
      SchedRelease(Rouse(s, k, c), TaskLock(k), IrqWake(d, c, k + 1));
  }

  lemma ScanKeeps(s: State, a: Act)
    requires Inv(s) && s.cpu.AtScheduler? && (s.spc.Top? || s.spc.Scan? || s.spc.At?)
    ensures SchedStep(s, a).Ok? && Inv(SchedStep(s, a).s)
  {
    assert s.held == SchedLocks(s.spc) && s.intDisables == |s.held| && s.taskIdx == None;
    hide Control, Slots, NoLost, Resume;
    match s.spc
    case Top =>
      if a.UseDev? { SchedAcquire(s, DevLock(a.dev), Irq(a.dev)); } else { SchedMove(s, s.(spc := Scan(0)), Scan(0)); }
    case Scan(k) =>
      if k < NT { SchedAcquire(s, TaskLock(k), At(k)); } else { SchedMove(s, s.(spc := Top), Top); }
    case At(k) =>
      if s.st[k].Ready? { DispatchKeeps(s, k); } else { SchedRelease(s, TaskLock(k), Scan(k + 1)); }
  }

  lemma BackKeeps(s: State, a: Act)
    requires Inv(s) && s.cpu.AtScheduler? && (s.spc.Back? || s.spc.Done?)
    ensures SchedStep(s, a).Ok? && Inv(SchedStep(s, a).s)
  {
    assert s.held == SchedLocks(s.spc) && s.intDisables == |s.held|;
    hide Control, Slots, NoLost;
    match s.spc
    case Back(k) => SchedMove(s, s.(taskIdx := None, spc := Done(k)), Done(k));
    case Done(k) => SchedRelease(s, TaskLock(k), Scan(k + 1));
  }

  /** No step panics, and every step keeps the invariant. */
  lemma StepKeeps(s: State, a: Act)
    requires Inv(s)
    ensures Step(s, a).Ok? && Inv(Step(s, a).s)
  {
    if s.cpu.AtTask? {
      hide TaskStep;
      TaskKeeps(s, s.cpu.slot, a);
    } else {
      assert !s.spc.Out?;
      hide SchedStep, Inv;
      match s.spc
      case Irq(_) => IrqKeeps(s, a);
      case IrqWake(_, _, _) => IrqKeeps(s, a);
      case IrqWakeAt(_, _, _) => IrqKeeps(s, a);
      case Back(_) => BackKeeps(s, a);
      case Done(_) => BackKeeps(s, a);
      case Top => ScanKeeps(s, a);
      case Scan(_) => ScanKeeps(s, a);
      case At(_) => ScanKeeps(s, a);
      case Out(_) =>
    }
  }

  // ----------------------------------------------------------------- every run

  /** The state after the acts of a run, or Panic as soon as a step panics. */
  function Run(acts: seq<Act>): Outcome {
    if acts == [] then Ok(Boot())
    else
      var r := Run(acts[..|acts| - 1]);
      if r.Ok? && Shape(r.s) then Step(r.s, acts[|acts| - 1]) else Panic
  }

  lemma BootInv()
    ensures Inv(Boot())
  {
  }

  /** No run panics: no lock is taken twice, none is released unheld, and none of
      sched's assertions fires. Every state reached satisfies the invariant. */
  lemma {:induction false} RunSafe(acts: seq<Act>)
    ensures Run(acts).Ok? && Inv(Run(acts).s) && |Run(acts).s.st| == 8
    decreases acts
  {
    if acts == [] {
      BootInv();
    } else {
      RunSafe(acts[..|acts| - 1]);
      assert Shape(Run(acts[..|acts| - 1]).s);
      hide Inv, Step;
      StepKeeps(Run(acts[..|acts| - 1]).s, acts[|acts| - 1]);
    }
  }

  /** int_disables counts the held locks, at most one task is Running and it has the
      CPU, and a free slot belongs to no running or switched-out task. */
  lemma RunLocks(acts: seq<Act>)
    ensures Run(acts).Ok? && Shape(Run(acts).s)
    ensures Run(acts).s.intDisables == |Run(acts).s.held|
    ensures forall i :: 0 <= i < NT && Run(acts).s.st[i].Running? ==> Run(acts).s.cpu == AtTask(i)
    ensures forall i :: 0 <= i < NT && Run(acts).s.st[i].Free? ==> Run(acts).s.pc[i].Gone? && Run(acts).s.cpu != AtTask(i)
  {
    RunSafe(acts);
    var s := Run(acts).s;
    forall i | 0 <= i < NT
      ensures s.st[i].Running? ==> s.cpu == AtTask(i)
      ensures s.st[i].Free? ==> s.pc[i].Gone? && s.cpu != AtTask(i)
    {
      assert SlotOk(i, s.pc[i], s.st[i], s.chan[i]);
    }
  }

  /** The CPU went between the scheduler and task i, with exactly i's lock held and
      int_disables at one. */
  ghost predicate HandedOver(s: State, s': State, i: nat) {
    && ((s.cpu == AtScheduler && s'.cpu == AtTask(i)) || (s.cpu == AtTask(i) && s'.cpu == AtScheduler))
    && s.held == s'.held == {TaskLock(i)} && s.intDisables == s'.intDisables == 1
  }

  /** In every run the CPU changes hands, in either direction, only like this. */
  lemma RunSwitch(acts: seq<Act>, a: Act)
    ensures Run(acts).Ok? && Run(acts + [a]).Ok?
    ensures Run(acts).s.cpu != Run(acts + [a]).s.cpu ==>
              exists i: nat :: i < NT && HandedOver(Run(acts).s, Run(acts + [a]).s, i)
  {
    RunSafe(acts);
    RunSafe(acts + [a]);
    assert (acts + [a])[..|acts|] == acts;
    var s, s' := Run(acts).s, Run(acts + [a]).s;
    hide Inv;
    if s.cpu != s'.cpu {
      var i := SwitchHeld(s, a);
      assert HandedOver(s, s', i);
    }
  }

  lemma SwitchHeld(s: State, a: Act) returns (i: nat)
    requires Inv(s) && Step(s, a).Ok? && Step(s, a).s.cpu != s.cpu
    ensures i < NT && HandedOver(s, Step(s, a).s, i)
  {
    if s.cpu.AtTask? {
      i := s.cpu.slot;
      TaskSwitch(s, i, a);
      hide TaskStep;
    } else {
      i := s.spc.k;
      assert |{TaskLock(i)}| == 1;
    }
  }

  /** Of a task's steps only sched's switch gives up the CPU. */
  lemma TaskSwitch(s: State, i: nat, a: Act)
    requires Inv(s) && s.cpu == AtTask(i) && TaskStep(s, i, a).Ok? && TaskStep(s, i, a).s.cpu != s.cpu
    ensures HandedOver(s, TaskStep(s, i, a).s, i)
  {
    var pc := s.pc[i];
    if !(pc.SleepSet? || pc.YieldSet? || pc.ExitOff?) {
      hide Inv;
      TaskStays(s, i, a);
    } else {
      assert Locks(i, pc) == {TaskLock(i)} && |{TaskLock(i)}| == 1;
      hide Locks, Scene, Slots, NoLost, DevStep, ForkStep, WaitStep;
    }
  }

  lemma TaskStays(s: State, i: nat, a: Act)
    requires Shape(s) && i < NT && TaskStep(s, i, a).Ok?
    requires !(s.pc[i].SleepSet? || s.pc[i].YieldSet? || s.pc[i].ExitOff?)
    ensures TaskStep(s, i, a).s.cpu == s.cpu
  {
    assert forall k: nat, c :: k < NT ==> Rouse(s, k, c).cpu == s.cpu;
    hide SwitchOut, Rouse;
    assert ForkStep(s, i).Ok? ==> ForkStep(s, i).s.cpu == s.cpu;
    assert WaitStep(s, i).Ok? ==> WaitStep(s, i).s.cpu == s.cpu;
    hide ForkStep, WaitStep;
  }

  /** In every run, no task asleep in wait has a zombie child. */
  lemma RunNoLostWakeup(acts: seq<Act>, t: nat, c: nat)
    requires t < NT && c < NT
    ensures Run(acts).Ok? && Shape(Run(acts).s)
    ensures Waiting(Run(acts).s, t) && Run(acts).s.parent[c] == Some(t) ==> !Run(acts).s.st[c].Zombie?
  {
    RunSafe(acts);
    if Waiting(Run(acts).s, t) { assert NoZombie(Run(acts).s, t, NT); }
  }

  /** In every run, wait answers that there is no child only when there is none, and
      a slot it gives back belongs to no task any more. */
  lemma RunWaitAnswer(acts: seq<Act>, i: nat, c: nat)
    requires i < NT && c < NT
    ensures Run(acts).Ok? && Shape(Run(acts).s)
    ensures Run(acts).s.cpu == AtTask(i) && Run(acts).s.pc[i] == WaitDone(None) ==> Run(acts).s.parent[c] != Some(i)
    ensures Run(acts).s.cpu == AtTask(i) && Run(acts).s.pc[i] == WaitGot(c) ==>
              Run(acts).s.st[c].Free? && Run(acts).s.pc[c].Gone? && c != i
  {
    RunLocks(acts);
    RunSafe(acts);
    var s := Run(acts).s;
    assert Scene(s, i) && s.pc[i] == WaitDone(None) ==> !HasChild(s, i, NT);
  }

  /** The task and channel that the running context is about to wake. */
  function WakePoint(s: State): Option<(nat, Chan)>
    requires Shape(s)
  {
    if s.cpu.AtScheduler? then
      (if s.spc.IrqWakeAt? then Some((s.spc.k, s.spc.chan)) else None)
    else if s.cpu.slot < NT && s.pc[s.cpu.slot].DevWakeAt? then
      Some((s.pc[s.cpu.slot].k, s.pc[s.cpu.slot].chan))
    else if s.cpu.slot < NT && s.pc[s.cpu.slot].ExitWakeAt? && s.parent[s.cpu.slot].Some? then
      Some((s.pc[s.cpu.slot].k, TaskChan(s.parent[s.cpu.slot].value)))
    else None
  }

  /** In every run a sleeping task leaves its sleep in a step exactly when that step
      wakes the very channel it sleeps on; it never runs before. */
  lemma RunWakeExact(acts: seq<Act>, a: Act, j: nat)
    requires j < NT
    ensures Run(acts).Ok? && Run(acts + [a]).Ok? && Shape(Run(acts).s) && Shape(Run(acts + [a]).s)
    ensures Run(acts).s.st[j].Sleeping? && Run(acts).s.cpu != AtTask(j) ==>
              (Run(acts + [a]).s.st[j] != Sleeping <==>
               Run(acts).s.chan[j].Some? && WakePoint(Run(acts).s) == Some((j, Run(acts).s.chan[j].value)))
    ensures Run(acts).s.st[j].Sleeping? && Run(acts).s.cpu != AtTask(j) ==> Run(acts + [a]).s.cpu != AtTask(j)
  {
    RunSafe(acts);
    RunSafe(acts + [a]);
    assert (acts + [a])[..|acts|] == acts;
    var s := Run(acts).s;
    if s.st[j].Sleeping? && s.cpu != AtTask(j) {
      if s.cpu.AtTask? {
        WakeByTask(s, s.cpu.slot, a, j);
      } else {
        WakeByIrq(s, a, j);
      }
    }
  }

  lemma WakeByIrq(s: State, a: Act, j: nat)
    requires Inv(s) && s.cpu.AtScheduler? && j < NT && s.st[j].Sleeping? && SchedStep(s, a).Ok?
    ensures Settled(s, SchedStep(s, a).s, j)
  {
    hide Control, Slots, NoLost, NoneOn;
  }

  /** In the step from s to s', sleeping task j is woken exactly if its channel is. */
  ghost predicate Settled(s: State, s': State, j: nat)
    requires Shape(s) && j < NT
  {
    && Shape(s') && s'.cpu != AtTask(j)
    && (s'.st[j] != Sleeping <==> s.chan[j].Some? && WakePoint(s) == Some((j, s.chan[j].value)))
  }

  ghost predicate Bystander(s: State, i: nat, j: nat) {
    Shape(s) && i < NT && s.cpu == AtTask(i) && j < NT && j != i && s.st[j].Sleeping? && Scene(s, i)
  }

  lemma DevSettled(s: State, i: nat, j: nat, a: Act)
    requires Bystander(s, i, j) && DevStep(s, i, a).Ok?
    requires s.pc[i].InDev? || s.pc[i].DevWake? || s.pc[i].DevWakeAt?
    ensures Settled(s, DevStep(s, i, a).s, j)
  {
    hide NoneOn, NoZombie, NoSleeper, HasChild;
  }

  lemma SleepSettled(s: State, i: nat, j: nat)
    requires Bystander(s, i, j) && SleepStep(s, i).Ok?
    requires s.pc[i].SleepCall? || s.pc[i].SleepOwn? || s.pc[i].SleepLet? || s.pc[i].SleepSet? || s.pc[i].SleepBack? || s.pc[i].SleepClear? || s.pc[i].SleepRetake?
    ensures Settled(s, SleepStep(s, i).s, j)
  {
    hide NoneOn, NoZombie, NoSleeper, HasChild;
  }

  lemma YieldSettled(s: State, i: nat, j: nat)
    requires Bystander(s, i, j) && YieldStep(s, i).Ok?
    requires s.pc[i].YieldOwn? || s.pc[i].YieldSet? || s.pc[i].YieldBack?
    ensures Settled(s, YieldStep(s, i).s, j)
  {
    hide NoneOn, NoZombie, NoSleeper, HasChild;
  }

  lemma ForkSettled(s: State, i: nat, j: nat)
    requires Bystander(s, i, j) && ForkStep(s, i).Ok?
    requires s.pc[i].ForkScan? || s.pc[i].ForkAt? || s.pc[i].ForkInit? || s.pc[i].ForkReady? || s.pc[i].ForkLink? || s.pc[i].ForkLinked? || s.pc[i].ForkDone?
    ensures Settled(s, ForkStep(s, i).s, j)
  {
    hide NoneOn, NoZombie, NoSleeper, HasChild;
  }

  lemma ExitSettled(s: State, i: nat, j: nat)
    requires Bystander(s, i, j) && ExitStep(s, i).Ok?
    requires s.pc[i].ExitCall? || s.pc[i].ExitWake? || s.pc[i].ExitWakeAt? || s.pc[i].ExitOwn? || s.pc[i].ExitLeave? || s.pc[i].ExitOff?
    ensures Settled(s, ExitStep(s, i).s, j)
  {
    hide NoneOn, NoZombie, NoSleeper, HasChild;
  }

  lemma WaitSettled(s: State, i: nat, j: nat)
    requires Bystander(s, i, j) && WaitStep(s, i).Ok?
    requires s.pc[i].WaitCall? || s.pc[i].WaitScan? || s.pc[i].WaitAt? || s.pc[i].WaitGot? || s.pc[i].WaitDone?
    ensures Settled(s, WaitStep(s, i).s, j)
  {
    hide NoneOn, NoZombie, NoSleeper, HasChild;
  }

  lemma WakeByTask(s: State, i: nat, a: Act, j: nat)
    requires Inv(s) && s.cpu == AtTask(i) && j < NT && j != i && s.st[j].Sleeping? && TaskStep(s, i, a).Ok?
    ensures Settled(s, TaskStep(s, i, a).s, j)
  {
    assert Bystander(s, i, j) && !Away(s.pc[i]);
    hide Inv, Bystander, DevStep, SleepStep, YieldStep, ForkStep, ExitStep, WaitStep;
    var pc := s.pc[i];
    if pc.InDev? || pc.DevWake? || pc.DevWakeAt? {
      DevSettled(s, i, j, a);
    } else if pc.Start? || pc.User? {
    } else if pc.YieldOwn? || pc.YieldSet? || pc.YieldBack? {
      YieldSettled(s, i, j);
    } else if pc.ForkScan? || pc.ForkAt? || pc.ForkInit? || pc.ForkReady? || pc.ForkLink? || pc.ForkLinked? || pc.ForkDone? {
      ForkSettled(s, i, j);
    } else if pc.ExitCall? || pc.ExitWake? || pc.ExitWakeAt? || pc.ExitOwn? || pc.ExitLeave? || pc.ExitOff? {
      ExitSettled(s, i, j);
    } else if pc.WaitCall? || pc.WaitScan? || pc.WaitAt? || pc.WaitGot? || pc.WaitDone? {
      WaitSettled(s, i, j);
    } else {
      SleepSettled(s, i, j);
    }
  }

  /** The channel of a wakeup that has gone through every task: wakeup called with a
      device lock held, in an interrupt handler, or by exit for the parent. */
  ghost function WokenAll(s: State): Option<Chan>
    requires Shape(s)
  {
    if s.cpu.AtTask? && s.cpu.slot < NT then
      match s.pc[s.cpu.slot]
      case DevWake(_, c, k) => if k >= NT then Some(c) else None
      case ExitWake(k) => if k >= NT && s.parent[s.cpu.slot].Some? then Some(TaskChan(s.parent[s.cpu.slot].value)) else None
      case _ => None
    else if s.cpu.AtScheduler? && s.spc.IrqWake? && s.spc.k >= NT then Some(s.spc.chan)
    else None
  }

  /** In every run, when a wakeup has gone through all tasks, none sleeps on its
      channel. */
  lemma RunWakeupComplete(acts: seq<Act>, j: nat)
    requires j < NT
    ensures Run(acts).Ok? && Shape(Run(acts).s)
    ensures var s := Run(acts).s; WokenAll(s).Some? && s.st[j].Sleeping? ==> s.chan[j] != WokenAll(s)
  {
    RunSafe(acts);
    var s := Run(acts).s;
    if WokenAll(s).Some? {
      assert NoneOn(s, WokenAll(s).value, NT);
    }
  }
}
